/** Scheduler and servers together: how often a job's service can be executed across the cluster.

    The scheduler's table says which greenlets there are; each of them runs its job's loop. Every firing of a loop, and
    every manual execution, sends one request with invoke_async; the requests then take their chances among the
    subscribed servers as the broker model says. */
module EndToEnd {
  import opened JobTiming
  import B = Broker
  import T = SchedulerTable

  const JOB_EXECUTED := "JOB_EXECUTED"

  /** The request that on_job_executed builds for a job. */
  function Request(job: Job): B.Message { B.Message(JOB_EXECUTED, job.name, job.service, job.extra) }

  predicate IsRequest(m: B.Message, name: string) { m.action == JOB_EXECUTED && m.name == name }

  datatype Event =
    | Sched(step: T.Event)
    | Fire(gid: T.Gid, cid: B.Cid)
    | Execute(name: string, cid: B.Cid)
    | BrokerStep(event: B.Event)

  /** A greenlet ever spawned: the job it runs and how far its loop has come. */
  datatype Greenlet = Greenlet(job: Job, loop: Loop)

  /** `spawned` lists all greenlets by their numbers; `manual` counts the manual executions of each job. */
  datatype State = State(broker: B.State, table: T.Table, spawned: seq<Greenlet>, manual: map<string, nat>)

  const INIT := State(B.INIT, T.EMPTY, [], map[])

  function Count(m: map<string, nat>, name: string): nat { if name in m then m[name] else 0 }

  // ---------------------------------------------------------------- the scheduler's part

  /** As in the table's own runs, but start-up may also spawn jobs that are live already. */
  function Scheduled(t: T.Table, e: T.Event): T.Table {
    if Respawns(t, e) then T.SpawnAll(t, e.names) else T.Next(t, e)
  }

  predicate Respawns(t: T.Table, e: T.Event) {
    e.Startup? && T.Distinct(e.names) && forall i :: 0 <= i < |e.names| ==> e.names[i] in t.jobs
  }

  lemma {:induction false} SpawnAllSpawns(t: T.Table, names: seq<string>)
    requires forall i :: 0 <= i < |names| ==> names[i] in t.jobs
    ensures var u := T.SpawnAll(t, names);
      && u.next == t.next + |names| && u.jobs == t.jobs
      && (forall g :: g in t.live && g < t.next ==> g in u.live && u.live[g] == t.live[g])
      && (forall g :: g in u.live && g < t.next ==> g in t.live && u.live[g] == t.live[g])
      && (forall g :: g in u.live ==> g in t.live || g < u.next)
      && forall g :: t.next <= g < u.next ==> g in u.live && u.live[g] == t.jobs[names[g - t.next]]
    decreases |names|
  {
    if names != [] {
      var t1 := T.Spawn(t, t.jobs[names[0]]);
      SpawnAllSpawns(t1, names[1..]);
      forall g | t.next <= g < t.next + |names|
        ensures var u := T.SpawnAll(t, names); g in u.live && u.live[g] == t.jobs[names[g - t.next]]
      {
        if g > t.next { assert names[1..][g - t1.next] == names[g - t.next]; }
      }
    }
  }

  /** Whatever the scheduler does, the greenlets it adds are numbered on, and live. */
  lemma ScheduledSpawns(t: T.Table, e: T.Event)
    ensures var u := Scheduled(t, e); u.next >= t.next && forall g :: t.next <= g < u.next ==> g in u.live
  {
    if Respawns(t, e) { SpawnAllSpawns(t, e.names); }
  }

  predicate SpawnsIt(e: T.Event, u: T.Table, g: T.Gid) {
    g in u.live && ((e.Create? && e.spawn && u.live[g] == e.job) || (e.Edit? && e.active && u.live[g] == e.clone))
  }

  predicate PutsIt(e: T.Event, job: Job, n: string) {
    n == job.name && ((e.Create? && job == e.job) || (e.Edit? && job == e.clone))
  }

  /** Other operations spawn one greenlet or none. */
  lemma OneSpawned(t: T.Table, e: T.Event)
    requires !Respawns(t, e)
    ensures t.next <= Scheduled(t, e).next <= t.next + 1
    ensures Scheduled(t, e).next > t.next ==> SpawnsIt(e, Scheduled(t, e), t.next)
    ensures forall n :: n in Scheduled(t, e).jobs ==>
      (n in t.jobs && Scheduled(t, e).jobs[n] == t.jobs[n]) || PutsIt(e, Scheduled(t, e).jobs[n], n)
  {
  }

  function NewGreenlets(t: T.Table, u: T.Table): seq<Greenlet>
    requires u.next >= t.next && forall g :: t.next <= g < u.next ==> g in u.live
  {
    seq(u.next - t.next, i requires 0 <= i < u.next - t.next =>
      Greenlet(u.live[t.next + i], Loop(0, u.live[t.next + i].maxRepeats, true)))
  }

  predicate Enabled(s: State, e: Event) {
    match e
    case Sched(_) => true
    case Fire(g, x) => g in s.table.live && g < |s.spawned| && s.spawned[g].loop.keepRunning
      && x !in s.broker.sent
    case Execute(n, x) => n in s.table.jobs && x !in s.broker.sent
    case BrokerStep(b) => b.SetKey? ==> b.payload.action != JOB_EXECUTED
  }

  function Next(s: State, e: Event): State {
    if !Enabled(s, e) then s
    else
      match e
      case Sched(sched) =>
        var u := Scheduled(s.table, sched);
        ScheduledSpawns(s.table, sched);
        s.(table := u, spawned := s.spawned + NewGreenlets(s.table, u))
      case Fire(g, x) =>
        s.(spawned := s.spawned[g := s.spawned[g].(loop := AfterFiring(s.spawned[g].loop))],
           broker := B.Next(s.broker, B.SetKey(x, Request(s.spawned[g].job))))
      case Execute(n, x) =>
        s.(manual := s.manual[n := Count(s.manual, n) + 1],
           broker := B.Next(s.broker, B.SetKey(x, Request(s.table.jobs[n]))))
      case BrokerStep(b) => s.(broker := B.Next(s.broker, b))
  }

  function Run(s: State, es: seq<Event>): State
    decreases |es|
  {
    if es == [] then s else Run(Next(s, es[0]), es[1..])
  }

  /** How many callbacks ran for the job, on any server. */
  function Executions(calls: seq<B.Call>, name: string): nat {
    if calls == [] then 0
    else Executions(calls[..|calls| - 1], name) + if IsRequest(calls[|calls| - 1].payload, name) then 1 else 0
  }

  /** The firings of all greenlets that ever ran the job. */
  function Fired(spawned: seq<Greenlet>, name: string): nat {
    if spawned == [] then 0
    else Fired(spawned[1..], name) + if spawned[0].job.name == name then spawned[0].loop.currentRun else 0
  }

  ghost function RequestCids(s: B.State, name: string): set<B.Cid> {
    set x | x in s.sent && IsRequest(s.sent[x].payload, name)
  }

  // ---------------------------------------------------------------- counting requests

  lemma SendCounts(s: B.State, x: B.Cid, m: B.Message, name: string)
    requires x !in s.sent
    ensures |RequestCids(B.Next(s, B.SetKey(x, m)), name)|
      == |RequestCids(s, name)| + if IsRequest(m, name) then 1 else 0
  {
    var t := B.Next(s, B.SetKey(x, m));
    assert RequestCids(t, name) == RequestCids(s, name) + if IsRequest(m, name) then {x} else {};
  }

  lemma OtherStepsSendNothing(s: B.State, b: B.Event, name: string)
    requires b.SetKey? ==> b.payload.action != JOB_EXECUTED
    ensures RequestCids(B.Next(s, b), name) == RequestCids(s, name)
  {
  }

  // ---------------------------------------------------------------- counting firings

  lemma {:induction false} FiredAppend(a: seq<Greenlet>, b: seq<Greenlet>, name: string)
    ensures Fired(a + b, name) == Fired(a, name) + Fired(b, name)
    decreases |a|
  {
    if a == [] {
      assert a + b == b;
    } else {
      assert (a + b)[0] == a[0] && (a + b)[1..] == a[1..] + b;
      FiredAppend(a[1..], b, name);
    }
  }

  lemma {:induction false} FreshHaveNotFired(a: seq<Greenlet>, name: string)
    requires forall g :: 0 <= g < |a| ==> a[g].loop.currentRun == 0
    ensures Fired(a, name) == 0
    decreases |a|
  {
    if a != [] { FreshHaveNotFired(a[1..], name); }
  }

  lemma {:induction false} OneMoreFired(a: seq<Greenlet>, g: nat, name: string)
    requires g < |a|
    ensures Fired(a[g := a[g].(loop := AfterFiring(a[g].loop))], name)
      == Fired(a, name) + if a[g].job.name == name then 1 else 0
    decreases |a|
  {
    var b := a[g := a[g].(loop := AfterFiring(a[g].loop))];
    if g == 0 {
      assert b[1..] == a[1..];
    } else {
      assert b[1..] == a[1..][g - 1 := a[g].(loop := AfterFiring(a[g].loop))];
      OneMoreFired(a[1..], g - 1, name);
    }
  }

  // ---------------------------------------------------------------- the invariant

  /** A loop with a limit goes on only below it. */
  predicate WithinLimit(g: Greenlet) {
    && g.loop.maxRepeats == g.job.maxRepeats
    && (g.job.maxRepeats.Some? && g.job.maxRepeats.value > 0 ==>
          g.loop.currentRun <= g.job.maxRepeats.value
          && (g.loop.keepRunning ==> g.loop.currentRun < g.job.maxRepeats.value))
  }

  ghost predicate Inv(s: State, name: string) {
    && B.Inv(s.broker) && T.JobsNamed(s.table)
    && |RequestCids(s.broker, name)| == Fired(s.spawned, name) + Count(s.manual, name)
    && (forall g :: 0 <= g < |s.spawned| ==> WithinLimit(s.spawned[g]))
  }

  lemma ScheduledKeepsNames(t: T.Table, e: T.Event)
    requires T.JobsNamed(t)
    ensures T.JobsNamed(Scheduled(t, e))
  {
    if Respawns(t, e) { SpawnAllSpawns(t, e.names); } else { OneSpawned(t, e); }
  }

  lemma SchedInv(s: State, e: T.Event, name: string)
    requires Inv(s, name)
    ensures Inv(Next(s, Sched(e)), name)
  {
    ScheduledSpawns(s.table, e);
    ScheduledKeepsNames(s.table, e);
    var more := NewGreenlets(s.table, Scheduled(s.table, e));
    FiredAppend(s.spawned, more, name);
    FreshHaveNotFired(more, name);
  }

  lemma NextInv(s: State, e: Event, name: string)
    requires Inv(s, name)
    ensures Inv(Next(s, e), name)
  {
    if Enabled(s, e) {
      match e
      case Sched(sched) => SchedInv(s, sched, name);
      case Fire(g, x) =>
        var m := Request(s.spawned[g].job);
        B.NextInv(s.broker, B.SetKey(x, m));
        SendCounts(s.broker, x, m, name);
        OneMoreFired(s.spawned, g, name);
      case Execute(n, x) =>
        B.NextInv(s.broker, B.SetKey(x, Request(s.table.jobs[n])));
        SendCounts(s.broker, x, Request(s.table.jobs[n]), name);
      case BrokerStep(b) =>
        B.NextInv(s.broker, b);
        OtherStepsSendNothing(s.broker, b, name);
    }
  }

  lemma InitInv(name: string)
    ensures Inv(INIT, name)
  {
    B.InitInv();
    assert RequestCids(INIT.broker, name) == {};
  }

  lemma {:induction false} RunInv(s: State, es: seq<Event>, name: string)
    requires Inv(s, name)
    ensures Inv(Run(s, es), name)
    decreases |es|
  {
    if es != [] {
      NextInv(s, es[0], name);
      RunInv(Next(s, es[0]), es[1..], name);
    }
  }

  ghost function ExecutedCids(calls: seq<B.Call>, name: string): set<B.Cid> {
    set i | 0 <= i < |calls| && IsRequest(calls[i].payload, name) :: calls[i].cid
  }

  lemma {:induction false} ExecutionsAreCids(calls: seq<B.Call>, name: string)
    requires forall i, j :: 0 <= i < j < |calls| ==> calls[i].cid != calls[j].cid
    ensures |ExecutedCids(calls, name)| == Executions(calls, name)
  {
    if calls == [] {
      assert ExecutedCids(calls, name) == {};
    } else {
      var last := |calls| - 1;
      var before := calls[..last];
      ExecutionsAreCids(before, name);
      assert forall i :: 0 <= i < last ==> before[i] == calls[i];
      if IsRequest(calls[last].payload, name) {
        assert ExecutedCids(calls, name) == ExecutedCids(before, name) + {calls[last].cid};
        assert calls[last].cid !in ExecutedCids(before, name);
      } else {
        assert ExecutedCids(calls, name) == ExecutedCids(before, name);
      }
    }
  }

  lemma {:induction false} SubsetSize<T>(a: set<T>, b: set<T>)
    requires a <= b
    ensures |a| <= |b|
    decreases a
  {
    if a != {} {
      var x :| x in a;
      SubsetSize(a - {x}, b - {x});
    }
  }

  // ---------------------------------------------------------------- what the services are called with

  /** The greenlets are numbered as they are spawned, and each runs the job it was spawned for. */
  ghost predicate Numbered(s: State) {
    |s.spawned| == s.table.next
    && forall g :: g in s.table.live ==> g < s.table.next && s.spawned[g].job == s.table.live[g]
  }

  lemma ScheduledNumbered(s: State, e: T.Event)
    requires Numbered(s)
    ensures Numbered(Next(s, Sched(e)))
  {
    var t, u := s.table, Scheduled(s.table, e);
    ScheduledSpawns(t, e);
    ScheduledAddsOnly(t, e);
    var more := NewGreenlets(t, u);
    forall g | g in u.live ensures g < u.next && (s.spawned + more)[g].job == u.live[g] {
      if g >= t.next { assert (s.spawned + more)[g] == more[g - t.next]; }
    }
  }

  /** The greenlets live afterwards were live before, for the same job, or are new. */
  lemma ScheduledAddsOnly(t: T.Table, e: T.Event)
    requires forall g :: g in t.live ==> g < t.next
    ensures var u := Scheduled(t, e);
      forall g :: g in u.live ==> g < u.next && (g < t.next ==> g in t.live && u.live[g] == t.live[g])
  {
    if Respawns(t, e) { SpawnAllSpawns(t, e.names); }
  }

  lemma {:induction false} RunNumbered(s: State, es: seq<Event>)
    requires Numbered(s)
    ensures Numbered(Run(s, es))
    decreases |es|
  {
    if es != [] {
      if es[0].Sched? { ScheduledNumbered(s, es[0].step); }
      RunNumbered(Next(s, es[0]), es[1..]);
    }
  }

  lemma {:induction false} RunSnoc(s: State, es: seq<Event>, e: Event)
    ensures Run(s, es + [e]) == Next(Run(s, es), e)
    decreases |es|
  {
    if es == [] {
      assert es + [e] == [e] && [e][1..] == [];
    } else {
      assert (es + [e])[0] == es[0] && (es + [e])[1..] == es[1..] + [e];
      RunSnoc(Next(s, es[0]), es[1..], e);
    }
  }

  /** The message asks for the job's own service with the job's own extra data. */
  predicate AsksFor(m: B.Message, job: Job) { m.name == job.name && m.service == job.service && m.extra == job.extra }

  /** In state s the event sends m under x: a live greenlet fires its job, or somebody executes a known job. */
  predicate Sends(s: State, e: Event, x: B.Cid, m: B.Message) {
    match e
    case Fire(g, y) => y == x && g in s.table.live && AsksFor(m, s.table.live[g])
    case Execute(n, y) => y == x && n in s.table.jobs && AsksFor(m, s.table.jobs[n])
    case _ => false
  }

  lemma OtherStepsKeepRequests(s: B.State, b: B.Event, x: B.Cid)
    requires b.SetKey? ==> b.payload.action != JOB_EXECUTED
    requires x in B.Next(s, b).sent && B.Next(s, b).sent[x].payload.action == JOB_EXECUTED
    ensures x in s.sent && s.sent[x].payload == B.Next(s, b).sent[x].payload
  {
  }

  lemma NextSends(s: State, e: Event, x: B.Cid)
    requires Numbered(s) && x in Next(s, e).broker.sent && Next(s, e).broker.sent[x].payload.action == JOB_EXECUTED
    ensures var m := Next(s, e).broker.sent[x].payload;
      Sends(s, e, x, m) || (x in s.broker.sent && s.broker.sent[x].payload == m)
  {
    if e.BrokerStep? && Enabled(s, e) { OtherStepsKeepRequests(s.broker, e.event, x); }
  }

  /** Every request in the broker was sent by some event of the run. */
  lemma {:induction false} RequestIsSent(es: seq<Event>, x: B.Cid) returns (k: nat)
    requires x in Run(INIT, es).broker.sent && Run(INIT, es).broker.sent[x].payload.action == JOB_EXECUTED
    ensures k < |es| && Sends(Run(INIT, es[..k]), es[k], x, Run(INIT, es).broker.sent[x].payload)
    decreases |es|
  {
    if es != [] {
      var last := |es| - 1;
      var before := es[..last];
      assert es == before + [es[last]];
      RunSnoc(INIT, before, es[last]);
      RunNumbered(INIT, before);
      NextSends(Run(INIT, before), es[last], x);
      if Sends(Run(INIT, before), es[last], x, Run(INIT, es).broker.sent[x].payload) {
        k := last;
      } else {
        k := RequestIsSent(before, x);
        assert before[..k] == es[..k];
      }
    }
  }

  /** Main result: whenever a callback is told to execute a job, on whatever server, then an event of the run made a
      live greenlet fire or executed a known job, and it is that job's own name, service and extra data that the
      callback gets. */
  lemma ExecutesTheJobsOwnService(es: seq<Event>, i: nat)
    requires i < |Run(INIT, es).broker.calls| && Run(INIT, es).broker.calls[i].payload.action == JOB_EXECUTED
    ensures var call := Run(INIT, es).broker.calls[i];
      exists k :: 0 <= k < |es| && Sends(Run(INIT, es[..k]), es[k], call.cid, call.payload)
  {
    var s := Run(INIT, es);
    InitInv("");
    RunInv(INIT, es, "");
    assert B.CallOk(s.broker, s.broker.calls[i]);
    var k := RequestIsSent(es, s.broker.calls[i].cid);
  }

  // ---------------------------------------------------------------- the bound

  /** Over any run, a job's service is executed on all servers together at most once for every firing of a loop of that
      job and every manual execution. */
  lemma ExecutedAtMostOncePerRequest(es: seq<Event>, name: string)
    ensures var s := Run(INIT, es);
      Executions(s.broker.calls, name) <= Fired(s.spawned, name) + Count(s.manual, name)
  {
    var s := Run(INIT, es);
    InitInv(name);
    RunInv(INIT, es, name);
    ExecutionsAreCids(s.broker.calls, name);
    assert forall i :: 0 <= i < |s.broker.calls| ==> B.CallOk(s.broker, s.broker.calls[i]);
    SubsetSize(ExecutedCids(s.broker.calls, name), RequestCids(s.broker, name));
  }

  /** Whether the job object has that name and at most m repeats, if it has that name at all. */
  predicate AtMost(job: Job, name: string, m: nat) {
    job.name == name ==> job.maxRepeats.Some? && 0 < job.maxRepeats.value <= m
  }

  predicate EventAtMost(e: Event, name: string, m: nat) {
    match e
    case Sched(Create(job, _)) => AtMost(job, name, m)
    case Sched(Edit(_, clone, _)) => AtMost(clone, name, m)
    case _ => true
  }

  /** Events that start the job's loop: a creation with spawning, an edit of an active job, a start-up that includes
      it. */
  predicate Starts(e: Event, name: string) {
    match e
    case Sched(Create(job, spawn)) => spawn && job.name == name
    case Sched(Edit(_, clone, active)) => active && clone.name == name
    case Sched(Startup(names)) => name in names
    case _ => false
  }

  function StartCount(es: seq<Event>, name: string): nat {
    if es == [] then 0 else StartCount(es[1..], name) + if Starts(es[0], name) then 1 else 0
  }

  function ExecuteCount(es: seq<Event>, name: string): nat {
    if es == [] then 0 else ExecuteCount(es[1..], name) + if es[0].Execute? && es[0].name == name then 1 else 0
  }

  function SpawnCount(spawned: seq<Greenlet>, name: string): nat {
    if spawned == [] then 0 else SpawnCount(spawned[1..], name) + if spawned[0].job.name == name then 1 else 0
  }

  lemma {:induction false} SpawnCountAppend(a: seq<Greenlet>, b: seq<Greenlet>, name: string)
    ensures SpawnCount(a + b, name) == SpawnCount(a, name) + SpawnCount(b, name)
    decreases |a|
  {
    if a == [] {
      assert a + b == b;
    } else {
      assert (a + b)[0] == a[0] && (a + b)[1..] == a[1..] + b;
      SpawnCountAppend(a[1..], b, name);
    }
  }

  lemma {:induction false} SpawnCountUpdate(a: seq<Greenlet>, g: nat, l: Loop, name: string)
    requires g < |a|
    ensures SpawnCount(a[g := a[g].(loop := l)], name) == SpawnCount(a, name)
    decreases |a|
  {
    var b := a[g := a[g].(loop := l)];
    if g == 0 {
      assert b[1..] == a[1..];
    } else {
      assert b[1..] == a[1..][g - 1 := a[g].(loop := l)];
      SpawnCountUpdate(a[1..], g - 1, l, name);
    }
  }

  /** Every job with the name that anybody knows of is limited. */
  ghost predicate Limits(s: State, name: string, m: nat) {
    && (forall n :: n in s.table.jobs ==> s.table.jobs[n].name == n && AtMost(s.table.jobs[n], name, m))
    && (forall g :: 0 <= g < |s.spawned| ==> AtMost(s.spawned[g].job, name, m))
  }

  /** At most one of a list of distinct names is the job's. */
  lemma {:induction false} DistinctSpawnOnce(more: seq<Greenlet>, names: seq<string>, name: string)
    requires |more| == |names| && T.Distinct(names) && forall i :: 0 <= i < |names| ==> more[i].job.name == names[i]
    ensures SpawnCount(more, name) <= if name in names then 1 else 0
    decreases |names|
  {
    if names != [] {
      assert forall i :: 0 <= i < |names[1..]| ==> names[1..][i] == names[i + 1] && more[1..][i] == more[i + 1];
      DistinctSpawnOnce(more[1..], names[1..], name);
      assert names == [names[0]] + names[1..];
      assert names[0] !in names[1..];
    }
  }

  lemma StartupStarts(t: T.Table, names: seq<string>, name: string)
    requires Respawns(t, T.Startup(names)) && forall n :: n in t.jobs ==> t.jobs[n].name == n
    ensures var u := T.SpawnAll(t, names);
      && u.next == t.next + |names| && u.jobs == t.jobs
      && (forall g :: t.next <= g < u.next ==> g in u.live && u.live[g] == t.jobs[names[g - t.next]])
      && SpawnCount(NewGreenlets(t, u), name) <= if name in names then 1 else 0
  {
    SpawnAllSpawns(t, names);
    DistinctSpawnOnce(NewGreenlets(t, T.SpawnAll(t, names)), names, name);
  }

  lemma OneSpawnCount(g: Greenlet, name: string)
    ensures SpawnCount([g], name) == if g.job.name == name then 1 else 0
  {
    assert [g][1..] == [];
  }

  lemma SchedStarts(s: State, e: T.Event, name: string, m: nat)
    requires Limits(s, name, m) && EventAtMost(Sched(e), name, m)
    ensures Limits(Next(s, Sched(e)), name, m)
    ensures SpawnCount(Next(s, Sched(e)).spawned, name)
      <= SpawnCount(s.spawned, name) + if Starts(Sched(e), name) then 1 else 0
  {
    var t, u := s.table, Scheduled(s.table, e);
    ScheduledSpawns(t, e);
    var more := NewGreenlets(t, u);
    SpawnCountAppend(s.spawned, more, name);
    if Respawns(t, e) {
      StartupStarts(t, e.names, name);
    } else {
      OneSpawned(t, e);
      if u.next > t.next {
        assert more == [more[0]] && more[0].job == u.live[t.next];
        OneSpawnCount(more[0], name);
      } else {
        assert more == [];
      }
    }
  }

  lemma NextStarts(s: State, e: Event, name: string, m: nat)
    requires Limits(s, name, m) && EventAtMost(e, name, m)
    ensures Limits(Next(s, e), name, m)
    ensures SpawnCount(Next(s, e).spawned, name) <= SpawnCount(s.spawned, name) + if Starts(e, name) then 1 else 0
    ensures Count(Next(s, e).manual, name) <= Count(s.manual, name) + if e.Execute? && e.name == name then 1 else 0
  {
    if e.Sched? {
      SchedStarts(s, e.step, name, m);
    } else if e.Fire? && Enabled(s, e) {
      SpawnCountUpdate(s.spawned, e.gid, AfterFiring(s.spawned[e.gid].loop), name);
    }
  }

  lemma {:induction false} RunStarts(s: State, es: seq<Event>, name: string, m: nat)
    requires Limits(s, name, m) && forall k :: 0 <= k < |es| ==> EventAtMost(es[k], name, m)
    ensures var t := Run(s, es);
      && Limits(t, name, m)
      && SpawnCount(t.spawned, name) <= SpawnCount(s.spawned, name) + StartCount(es, name)
      && Count(t.manual, name) <= Count(s.manual, name) + ExecuteCount(es, name)
    decreases |es|
  {
    if es != [] {
      NextStarts(s, es[0], name, m);
      assert forall k :: 0 <= k < |es[1..]| ==> es[1..][k] == es[k + 1];
      RunStarts(Next(s, es[0]), es[1..], name, m);
    }
  }

  lemma {:induction false} FiredWithinLimits(spawned: seq<Greenlet>, name: string, m: nat)
    requires forall g :: 0 <= g < |spawned| ==> WithinLimit(spawned[g]) && AtMost(spawned[g].job, name, m)
    ensures Fired(spawned, name) <= m * SpawnCount(spawned, name)
    decreases |spawned|
  {
    if spawned != [] {
      assert WithinLimit(spawned[0]) && AtMost(spawned[0].job, name, m);
      FiredWithinLimits(spawned[1..], name, m);
      var n := SpawnCount(spawned[1..], name);
      assert m * (n + 1) == m * n + m;
    }
  }

  /** If every job created or left by an edit under the name repeats at most m times, then over any run of scheduler,
      clients and Redis its service is executed at most m times for each creation, edit and start-up that starts it,
      plus once for each manual execution. */
  lemma ExecutedAtMostMaxRepeats(es: seq<Event>, name: string, m: nat)
    requires forall k :: 0 <= k < |es| ==> EventAtMost(es[k], name, m)
    ensures Executions(Run(INIT, es).broker.calls, name) <= m * StartCount(es, name) + ExecuteCount(es, name)
  {
    var s := Run(INIT, es);
    InitInv(name);
    RunInv(INIT, es, name);
    RunStarts(INIT, es, name, m);
    ExecutedAtMostOncePerRequest(es, name);
    FiredWithinLimits(s.spawned, name, m);
    MulMono(m, SpawnCount(s.spawned, name), StartCount(es, name));
  }

  lemma MulMono(m: nat, a: nat, b: nat)
    requires a <= b
    ensures m * a <= m * b
  {
  }
}
