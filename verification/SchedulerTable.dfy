/** The scheduler's table of jobs and the greenlets that run them.

    Jobs are equal when their names are, so the set of jobs is a map from names. Everything done under the
    scheduler's lock is one step. Greenlets are numbered as they are spawned; `live` tells which of them can
    still run, and on behalf of which job object. */
module SchedulerTable {
  import opened JobTiming

  type Gid = nat

  datatype Table = Table(jobs: map<string, Job>, greenlets: map<string, Gid>, live: map<Gid, Job>, next: Gid)

  const EMPTY := Table(map[], map[], map[], 0)

  function Spawn(t: Table, job: Job): Table {
    t.(greenlets := t.greenlets[job.name := t.next], live := t.live[t.next := job], next := t.next + 1)
  }

  function Add(t: Table, job: Job, spawn: bool): Table {
    var u := t.(jobs := t.jobs[job.name := job]);
    if spawn then Spawn(u, job) else u
  }

  function Remove(t: Table, name: string): Table {
    t.(jobs := t.jobs - {name},
       greenlets := t.greenlets - {name},
       live := if name in t.greenlets then t.live - {t.greenlets[name]} else t.live)
  }

  function SpawnAll(t: Table, names: seq<string>): Table
    requires forall i :: 0 <= i < |names| ==> names[i] in t.jobs
    decreases |names|
  {
    if names == [] then t else SpawnAll(Spawn(t, t.jobs[names[0]]), names[1..])
  }

  datatype Event =
    | Create(job: Job, spawn: bool)          // `spawn` also says that the job is active
    | Edit(job: Job, clone: Job, active: bool)
    | Unschedule(name: string)
    | Stop
    | Finish(gid: Gid)                       // a job's loop ends by itself
    | Startup(names: seq<string>)            // the scheduler's run spawns the jobs it was given before

  predicate Distinct(names: seq<string>) {
    forall i, j :: 0 <= i < j < |names| ==> names[i] != names[j]
  }

  predicate HasLive(t: Table, name: string) {
    exists g :: g in t.live && t.live[g].name == name
  }

  predicate Enabled(t: Table, e: Event) {
    match e
    case Create(job, _) => job.name !in t.jobs
    case Edit(job, clone, _) => clone.name == job.name
    case Unschedule(_) => true
    case Stop => true
    case Finish(g) => g in t.live
    case Startup(names) => Distinct(names) && forall i :: 0 <= i < |names| ==>
      names[i] in t.jobs && !HasLive(t, names[i])
  }

  function Next(t: Table, e: Event): Table {
    if !Enabled(t, e) then t
    else
      match e
      case Create(job, spawn) => Add(t, job, spawn)
      case Edit(job, clone, active) => Add(Remove(t, job.name), clone, active)
      case Unschedule(name) => Remove(t, name)
      case Stop => RemoveAll(t)
      case Finish(g) => t.(live := t.live - {g})
      case Startup(names) => SpawnAll(t, names)
  }

  /** stop unschedules every job it knows, and with it that job's greenlet. */
  function RemoveAll(t: Table): Table {
    Table(map[], t.greenlets - t.jobs.Keys, map g | g in t.live && t.live[g].name !in t.jobs :: t.live[g], t.next)
  }

  function Run(t: Table, es: seq<Event>): Table
    decreases |es|
  {
    if es == [] then t else Run(Next(t, es[0]), es[1..])
  }

  // ---------------------------------------------------------------- what every step keeps

  ghost predicate JobsNamed(t: Table) {
    forall n :: n in t.jobs ==> t.jobs[n].name == n
  }

  /** Every registered greenlet belongs to a known job, and no greenlet is registered twice. */
  ghost predicate RegisteredKnown(t: Table) {
    && (forall n :: n in t.greenlets ==> n in t.jobs && t.greenlets[n] < t.next)
    && (forall n, m :: n in t.greenlets && m in t.greenlets && t.greenlets[n] == t.greenlets[m] ==> n == m)
  }

  /** Every greenlet that can still run is the registered one of its job. */
  ghost predicate LiveRegistered(t: Table) {
    forall g :: g in t.live ==> g < t.next && t.live[g].name in t.greenlets && t.greenlets[t.live[g].name] == g
  }

  ghost predicate Good(t: Table) {
    JobsNamed(t) && RegisteredKnown(t) && LiveRegistered(t)
  }

  lemma RemoveGood(t: Table, name: string)
    requires Good(t)
    ensures Good(Remove(t, name))
    ensures !HasLive(Remove(t, name), name)
    ensures forall g :: g in t.live && t.live[g].name != name ==> g in Remove(t, name).live
  {
  }

  lemma AddGood(t: Table, job: Job, spawn: bool)
    requires Good(t) && job.name !in t.jobs
    ensures Good(Add(t, job, spawn))
  {
  }

  lemma SpawnGood(t: Table, job: Job)
    requires Good(t) && job.name in t.jobs && !HasLive(t, job.name)
    ensures Good(Spawn(t, job))
  {
  }

  lemma {:induction false} SpawnAllGood(t: Table, names: seq<string>)
    requires Good(t) && Distinct(names)
    requires forall i :: 0 <= i < |names| ==> names[i] in t.jobs && !HasLive(t, names[i])
    ensures Good(SpawnAll(t, names))
    decreases |names|
  {
    if names != [] {
      var job := t.jobs[names[0]];
      SpawnGood(t, job);
      forall i | 0 <= i < |names[1..]| ensures !HasLive(Spawn(t, job), names[1..][i]) {
        assert names[1..][i] == names[i + 1] && names[0] != names[i + 1];
        assert forall g :: g in Spawn(t, job).live ==>
          g == t.next || (g in t.live && Spawn(t, job).live[g] == t.live[g]);
      }
      SpawnAllGood(Spawn(t, job), names[1..]);
    }
  }

  lemma NextGood(t: Table, e: Event)
    requires Good(t)
    ensures Good(Next(t, e))
  {
    if Enabled(t, e) {
      match e
      case Create(job, spawn) => AddGood(t, job, spawn);
      case Edit(job, clone, active) =>
        RemoveGood(t, job.name);
        AddGood(Remove(t, job.name), clone, active);
      case Unschedule(name) => RemoveGood(t, name);
      case Stop =>
      case Finish(g) =>
      case Startup(names) => SpawnAllGood(t, names);
    }
  }

  lemma {:induction false} RunGood(t: Table, es: seq<Event>)
    requires Good(t)
    ensures Good(Run(t, es))
    decreases |es|
  {
    if es != [] {
      NextGood(t, es[0]);
      RunGood(Next(t, es[0]), es[1..]);
    }
  }

  /** Every greenlet that can still run does so for the very job that its name stands for. */
  ghost predicate LiveRunsKnown(t: Table) {
    forall g :: g in t.live ==> t.live[g].name in t.jobs && t.jobs[t.live[g].name] == t.live[g]
  }

  lemma {:induction false} SpawnAllRunsKnown(t: Table, names: seq<string>)
    requires JobsNamed(t) && LiveRunsKnown(t) && forall i :: 0 <= i < |names| ==> names[i] in t.jobs
    ensures LiveRunsKnown(SpawnAll(t, names))
    decreases |names|
  {
    if names != [] { SpawnAllRunsKnown(Spawn(t, t.jobs[names[0]]), names[1..]); }
  }

  lemma NextRunsKnown(t: Table, e: Event)
    requires Good(t) && LiveRunsKnown(t)
    ensures LiveRunsKnown(Next(t, e))
  {
    if Enabled(t, e) {
      match e
      case Edit(job, clone, active) => RemoveGood(t, job.name);
      case Unschedule(name) => RemoveGood(t, name);
      case Startup(names) => SpawnAllRunsKnown(t, names);
      case _ =>
    }
  }

  lemma {:induction false} RunRunsKnown(t: Table, es: seq<Event>)
    requires Good(t) && LiveRunsKnown(t)
    ensures LiveRunsKnown(Run(t, es))
    decreases |es|
  {
    if es != [] {
      NextGood(t, es[0]);
      NextRunsKnown(t, es[0]);
      RunRunsKnown(Next(t, es[0]), es[1..]);
    }
  }

  // ---------------------------------------------------------------- the results

  /** In every run, a job name has at most one live greenlet; it is registered, and runs the job known by that name. */
  lemma OneLiveGreenletPerName(es: seq<Event>, g: Gid, h: Gid)
    requires var t := Run(EMPTY, es); g in t.live && h in t.live && t.live[g].name == t.live[h].name
    ensures g == h
    ensures var t := Run(EMPTY, es); var n := t.live[g].name;
      n in t.jobs && t.jobs[n] == t.live[g] && n in t.greenlets && t.greenlets[n] == g
  {
    RunGood(EMPTY, es);
    RunRunsKnown(EMPTY, es);
  }

  ghost predicate OthersUntouched(t: Table, u: Table, name: string) {
    && (forall n :: n != name ==> (n in u.jobs <==> n in t.jobs) && (n in u.greenlets <==> n in t.greenlets))
    && (forall n :: n != name && n in t.jobs ==> u.jobs[n] == t.jobs[n])
    && (forall n :: n != name && n in t.greenlets ==> u.greenlets[n] == t.greenlets[n])
    && (forall g :: g in t.live && t.live[g].name != name ==> g in u.live && u.live[g] == t.live[g])
    && (forall g :: g in u.live && u.live[g].name != name ==> g in t.live)
  }

  /** Creating a job under a new name makes it known, and live exactly when it is spawned. Nothing else changes. */
  lemma CreateAddsTheJob(es: seq<Event>, job: Job, spawn: bool)
    requires job.name !in Run(EMPTY, es).jobs
    ensures var t := Run(EMPTY, es); var u := Next(t, Create(job, spawn));
      && job.name in u.jobs && u.jobs[job.name] == job
      && (HasLive(u, job.name) <==> spawn)
      && (forall g :: g in u.live && u.live[g].name == job.name ==> u.live[g] == job && g !in t.live)
      && OthersUntouched(t, u, job.name)
  {
    var t := Run(EMPTY, es);
    RunGood(EMPTY, es);
    if spawn { assert t.next in Next(t, Create(job, spawn)).live; }
  }

  /** A loop that ends takes its greenlet with it; the job stays known. */
  lemma FinishEndsTheGreenlet(es: seq<Event>, g: Gid)
    ensures var t := Run(EMPTY, es); var u := Next(t, Finish(g));
      && u.jobs == t.jobs && u.greenlets == t.greenlets
      && forall h :: h in u.live <==> h in t.live && h != g
  {
  }

  /** After an edit there is exactly one job of that name, the clone, and if it is active the one live greenlet
      of that name runs from the clone. Nothing else changes. */
  lemma EditLeavesTheClone(es: seq<Event>, job: Job, clone: Job, active: bool)
    requires clone.name == job.name
    ensures var t := Run(EMPTY, es); var u := Next(t, Edit(job, clone, active));
      && job.name in u.jobs && u.jobs[job.name] == clone
      && (HasLive(u, job.name) <==> active)
      && (forall g :: g in u.live && u.live[g].name == job.name ==> u.live[g] == clone && g !in t.live)
      && OthersUntouched(t, u, job.name)
  {
    var t := Run(EMPTY, es);
    RunGood(EMPTY, es);
    RemoveGood(t, job.name);
    var u := Next(t, Edit(job, clone, active));
    if active {
      assert t.next in u.live;
    }
  }

  /** Unscheduling removes the job, its registration and its greenlet, and nothing else. */
  lemma UnscheduleRemovesAll(es: seq<Event>, name: string)
    ensures var t := Run(EMPTY, es); var u := Next(t, Unschedule(name));
      && name !in u.jobs && name !in u.greenlets && !HasLive(u, name)
      && OthersUntouched(t, u, name)
  {
    RunGood(EMPTY, es);
    RemoveGood(Run(EMPTY, es), name);
  }

  /** Stopping empties both collections, and no greenlet survives. */
  lemma StopEmptiesAll(es: seq<Event>)
    ensures var u := Next(Run(EMPTY, es), Stop); u.jobs == map[] && u.greenlets == map[] && u.live == map[]
  {
    RunGood(EMPTY, es);
  }

  /** The scheduler's own start-up spawns every job given to it before, whether or not somebody has started it
      meanwhile. The table survives this exactly when none of those jobs is running yet. */
  lemma StartupSafeExactlyWhen(t: Table, names: seq<string>)
    requires Good(t) && Distinct(names) && forall i :: 0 <= i < |names| ==> names[i] in t.jobs
    ensures Good(SpawnAll(t, names)) <==> forall i :: 0 <= i < |names| ==> !HasLive(t, names[i])
  {
    if forall i :: 0 <= i < |names| ==> !HasLive(t, names[i]) {
      SpawnAllGood(t, names);
    } else {
      var i :| 0 <= i < |names| && HasLive(t, names[i]);
      var g :| g in t.live && t.live[g].name == names[i];
      SpawnAllReplaces(t, names, i);
      SpawnAllKeepsLive(t, names, g);
    }
  }

  lemma {:induction false} SpawnAllExactly(t: Table, names: seq<string>, n: string)
    requires JobsNamed(t) && Distinct(names) && forall i :: 0 <= i < |names| ==> names[i] in t.jobs
    ensures var u := SpawnAll(t, names);
      && u.jobs == t.jobs
      && (n in names ==> n in u.greenlets && u.greenlets[n] >= t.next && u.greenlets[n] in u.live
                         && u.live[u.greenlets[n]] == t.jobs[n])
      && (n !in names ==> (n in u.greenlets <==> n in t.greenlets)
                          && (n in t.greenlets ==> u.greenlets[n] == t.greenlets[n]))
      && u.next == t.next + |names|
    decreases |names|
  {
    if names != [] {
      var t1, rest := Spawn(t, t.jobs[names[0]]), names[1..];
      assert names == [names[0]] + rest && names[0] !in rest;
      SpawnAllExactly(t1, rest, n);
      SpawnAllKeepsLive(t1, rest, t.next);
    }
  }

  /** The scheduler's own start-up gives every job on its list a live greenlet of its own, and leaves those of all
      others as they were. */
  lemma StartupSpawnsExactly(es: seq<Event>, names: seq<string>, n: string)
    requires Enabled(Run(EMPTY, es), Startup(names))
    ensures var t := Run(EMPTY, es); var u := Next(t, Startup(names));
      && u.jobs == t.jobs
      && (n in names ==> HasLive(u, n) && n in u.greenlets && u.greenlets[n] in u.live
                         && u.live[u.greenlets[n]] == t.jobs[n])
      && (n !in names ==> (n in u.greenlets <==> n in t.greenlets)
                          && (n in t.greenlets ==> u.greenlets[n] == t.greenlets[n]))
  {
    var t := Run(EMPTY, es);
    RunGood(EMPTY, es);
    SpawnAllExactly(t, names, n);
    if n in names { assert t.jobs[n].name == n; }
  }

  lemma {:induction false} SpawnAllKeepsLive(t: Table, names: seq<string>, g: Gid)
    requires forall i :: 0 <= i < |names| ==> names[i] in t.jobs
    requires g in t.live && g < t.next
    ensures g in SpawnAll(t, names).live && SpawnAll(t, names).live[g] == t.live[g]
    decreases |names|
  {
    if names != [] {
      SpawnAllKeepsLive(Spawn(t, t.jobs[names[0]]), names[1..], g);
    }
  }

  lemma {:induction false} SpawnAllReplaces(t: Table, names: seq<string>, i: nat)
    requires JobsNamed(t) && i < |names| && forall j :: 0 <= j < |names| ==> names[j] in t.jobs
    ensures names[i] in SpawnAll(t, names).greenlets && SpawnAll(t, names).greenlets[names[i]] >= t.next
    decreases |names|
  {
    var u := Spawn(t, t.jobs[names[0]]);
    if i > 0 {
      SpawnAllReplaces(u, names[1..], i - 1);
    } else {
      SpawnAllRegisters(u, names[1..], names[0], t.next);
    }
  }

  lemma {:induction false} SpawnAllRegisters(t: Table, names: seq<string>, name: string, low: Gid)
    requires forall j :: 0 <= j < |names| ==> names[j] in t.jobs
    requires name in t.greenlets && t.greenlets[name] >= low && t.next >= low
    ensures name in SpawnAll(t, names).greenlets && SpawnAll(t, names).greenlets[name] >= low
    decreases |names|
  {
    if names != [] {
      SpawnAllRegisters(Spawn(t, t.jobs[names[0]]), names[1..], name, low);
    }
  }

  // ---------------------------------------------------------------- the scheduler object

  class Scheduler {
    var jobs: map<string, Job>
    var jobGreenlets: map<string, Gid>
    var live: map<Gid, Job>
    var spawned: Gid

    ghost function View(): Table
      reads this
    {
      Table(jobs, jobGreenlets, live, spawned)
    }

    constructor ()
      ensures View() == EMPTY
    {
      jobs, jobGreenlets, live, spawned := map[], map[], map[], 0;
    }

    method SpawnJob(job: Job)
      modifies this
      ensures View() == Spawn(old(View()), job)
    {
      live := live[spawned := job];
      jobGreenlets := jobGreenlets[job.name := spawned];
      spawned := spawned + 1;
    }

    method Create(job: Job, spawn: bool)
      requires job.name !in jobs
      modifies this
      ensures View() == Next(old(View()), Event.Create(job, spawn && job.isActive))
    {
      jobs := jobs[job.name := job];
      if job.isActive {
        if spawn {
          SpawnJob(job);
        }
      }
    }

    /** Finds the job and its greenlet by name; the job object handed in is told to stop as well. */
    method Unschedule(job: Job) returns (found: bool)
      modifies this, job`keepRunning
      ensures View() == Next(old(View()), Event.Unschedule(job.name))
      ensures found <==> job.name in old(jobs) || job.name in old(jobGreenlets)
      ensures !job.keepRunning
    {
      found := false;
      job.keepRunning := false;
      if job.name in jobs {
        jobs := jobs - {job.name};
        found := true;
      }
      if job.name in jobGreenlets {
        live := live - {jobGreenlets[job.name]};
        jobGreenlets := jobGreenlets - {job.name};
        found := true;
      }
      assert jobs == old(jobs) - {job.name} && jobGreenlets == old(jobGreenlets) - {job.name};
    }

    method UnscheduleByName(name: string)
      requires JobsNamed(View())
      modifies this, if name in jobs then {jobs[name]} else {}
      ensures View() == if name in old(jobs) then Next(old(View()), Event.Unschedule(name)) else old(View())
      ensures name in old(jobs) ==> !old(jobs)[name].keepRunning
    {
      if name in jobs {
        var _ := Unschedule(jobs[name]);
      }
    }

    method Edit(job: Job) returns (clone: Job)
      modifies this, job`keepRunning
      ensures fresh(clone) && clone.name == job.name && clone.startTime == job.startTime && clone.keepRunning
      ensures clone.service == job.service && clone.extra == job.extra
      ensures View() == Next(old(View()), Event.Edit(job, clone, job.isActive))
    {
      var _ := Unschedule(job);
      clone := new Job.Clone(job);
      Create(clone, true);
    }

    method Stop()
      requires Good(View())
      modifies this
      ensures View() == Next(old(View()), Event.Stop)
      ensures jobs == map[] && jobGreenlets == map[] && live == map[]
    {
      var names := jobs.Keys;
      while names != {}
        invariant names == jobs.Keys && Good(View()) && spawned == old(spawned)
        decreases |names|
      {
        var name :| name in names;
        RemoveGood(View(), name);
        var clone := new Job.Clone(jobs[name]);
        assert clone.name == name;
        var _ := Unschedule(clone);
        names := names - {name};
      }
    }

    /** run: spawn what was created beforehand, except jobs whose repeats have already run out. */
    method Startup(order: seq<string>) returns (ghost names: seq<string>)
      requires JobsNamed(View()) && Distinct(order) && forall i :: 0 <= i < |order| ==> order[i] in jobs
      modifies this
      ensures jobs == old(jobs)
      ensures Distinct(names)
      ensures forall n :: n in names <==> n in order && n in jobs && !jobs[n].maxRepeatsReached
      ensures (forall i :: 0 <= i < |names| ==> names[i] in old(jobs)) && View() == SpawnAll(old(View()), names)
    {
      names := [];
      for i := 0 to |order|
        invariant jobs == old(jobs)
        invariant Distinct(names)
        invariant forall n :: n in names <==> n in order[..i] && n in jobs && !jobs[n].maxRepeatsReached
        invariant forall i :: 0 <= i < |names| ==> names[i] in old(jobs)
        invariant View() == SpawnAll(old(View()), names)
      {
        var job := jobs[order[i]];
        assert order[..i + 1] == order[..i] + [order[i]];
        if !job.maxRepeatsReached {
          SpawnAllSnoc(old(View()), names, order[i]);
          names := names + [order[i]];
          SpawnJob(job);
        }
      }
      assert order[..|order|] == order;
    }
  }

  lemma {:induction false} SpawnAllSnoc(t: Table, names: seq<string>, name: string)
    requires name in t.jobs && forall i :: 0 <= i < |names| ==> names[i] in t.jobs
    ensures SpawnAll(t, names).jobs == t.jobs
    ensures SpawnAll(t, names + [name]) == Spawn(SpawnAll(t, names), t.jobs[name])
    decreases |names|
  {
    if names == [] {
      assert [] + [name] == [name] && [name][1..] == [];
    } else {
      assert (names + [name])[0] == names[0] && (names + [name])[1..] == names[1..] + [name];
      SpawnAllSnoc(Spawn(t, t.jobs[names[0]]), names[1..], name);
    }
  }
}
