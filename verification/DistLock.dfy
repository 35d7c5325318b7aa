/** Distributed locks on top of an SQL server's session locks: acquiring with a deadline, and a release
    that a with-block, a time-to-live greenlet and direct callers may all attempt. */
module DistLock {
  type Id = nat      // the hash of namespace and name
  type Obj = nat     // a lock object; each has a database session of its own
  type Agent = nat   // whoever runs release: __exit__, the greenlet, or a caller

  /** Inside release: past the guard, or past the unlock statement as well. */
  datatype Step = Checked | Executed

  datatype Lock = Lock(id: Id, trying: bool, acquired: bool, released: bool, releasing: map<Agent, Step>)

  /** `holder` is the server's own table: which session has which id. */
  datatype State = State(holder: map<Id, Obj>, locks: map<Obj, Lock>)

  const INIT := State(map[], map[])

  datatype Event =
    | Create(obj: Obj, id: Id)
    | Try(obj: Obj)
    | GiveUp(obj: Obj)
    | Check(obj: Obj, agent: Agent)
    | Execute(obj: Obj, agent: Agent)
    | Mark(obj: Obj, agent: Agent)
    | Release(obj: Obj)  // the three in one

  /** The server grants an id that nobody has, or that the same session has. */
  predicate Grants(holder: map<Id, Obj>, id: Id, session: Obj) { id !in holder || holder[id] == session }

  /** The unlock statement does nothing for an id that the session does not have. */
  function Unlocked(holder: map<Id, Obj>, id: Id, session: Obj): map<Id, Obj> {
    if id in holder && holder[id] == session then holder - {id} else holder
  }

  predicate Enabled(s: State, e: Event) {
    match e
    case Create(o, _) => o !in s.locks
    case Try(o) => o in s.locks && s.locks[o].trying
    case GiveUp(o) => o in s.locks && s.locks[o].trying
    case Check(o, a) => o in s.locks && a !in s.locks[o].releasing && s.locks[o].acquired && !s.locks[o].released
    case Execute(o, a) => o in s.locks && a in s.locks[o].releasing && s.locks[o].releasing[a] == Checked
    case Mark(o, a) => o in s.locks && a in s.locks[o].releasing && s.locks[o].releasing[a] == Executed
    case Release(o) => o in s.locks && s.locks[o].acquired && !s.locks[o].released
  }

  function Put(s: State, o: Obj, l: Lock): State { s.(locks := s.locks[o := l]) }

  function Apply(s: State, e: Event): State
    requires Enabled(s, e)
  {
    match e
    case Create(o, id) => Put(s, o, Lock(id, true, false, false, map[]))
    case Try(o) =>
      var l := s.locks[o];
      if Grants(s.holder, l.id, o) then Put(s.(holder := s.holder[l.id := o]), o, l.(trying := false, acquired := true))
      else s
    case GiveUp(o) => Put(s, o, s.locks[o].(trying := false))
    case Check(o, a) => Put(s, o, s.locks[o].(releasing := s.locks[o].releasing[a := Checked]))
    case Execute(o, a) =>
      var l := s.locks[o];
      Put(s.(holder := Unlocked(s.holder, l.id, o)), o, l.(releasing := l.releasing[a := Executed]))
    case Mark(o, a) =>
      var l := s.locks[o];
      Put(s, o, l.(released := true, releasing := l.releasing - {a}))
    case Release(o) =>
      var l := s.locks[o];
      Put(s.(holder := Unlocked(s.holder, l.id, o)), o, l.(released := true))
  }

  function Next(s: State, e: Event): State { if Enabled(s, e) then Apply(s, e) else s }

  function Run(s: State, es: seq<Event>): State
    decreases |es|
  {
    if es == [] then s else Run(Next(s, es[0]), es[1..])
  }

  // ---------------------------------------------------------------- the invariant

  /** Some release has already told the server. */
  ghost predicate Freed(l: Lock) { l.released || exists a :: a in l.releasing && l.releasing[a] == Executed }

  ghost predicate Held(s: State, o: Obj) { o in s.locks && s.locks[o].acquired && !Freed(s.locks[o]) }

  predicate Holds(s: State, o: Obj) { o in s.locks && s.locks[o].id in s.holder && s.holder[s.locks[o].id] == o }

  ghost predicate LockInv(s: State, o: Obj) {
    o in s.locks ==>
      && (Holds(s, o) <==> Held(s, o))
      && (!s.locks[o].acquired ==> s.locks[o].releasing == map[] && !s.locks[o].released)
      && (s.locks[o].trying ==> !s.locks[o].acquired)
  }

  ghost predicate Inv(s: State) {
    && (forall o :: LockInv(s, o))
    && (forall id :: id in s.holder ==> s.holder[id] in s.locks && s.locks[s.holder[id]].id == id)
  }

  lemma NextOne(s: State, e: Event, o: Obj)
    requires Inv(s) && Enabled(s, e)
    ensures LockInv(Next(s, e), o)
  {
    var t := Next(s, e);
    assert LockInv(s, o) && LockInv(s, e.obj);
    if o in t.locks && o in s.locks && o != e.obj {
      assert t.locks[o] == s.locks[o];
      assert Holds(t, o) <==> Holds(s, o);
    } else if o == e.obj {
      match e {
        case Execute(_, a) => assert t.locks[o].releasing[a] == Executed;
        case Check(_, a) =>
          assert Freed(t.locks[o]) <==> Freed(s.locks[o]) by {
            assert forall b :: b in s.locks[o].releasing ==> t.locks[o].releasing[b] == s.locks[o].releasing[b];
          }
        case Mark(_, a) => assert s.locks[o].releasing[a] == Executed;
        case _ =>
      }
    }
  }

  lemma NextInv(s: State, e: Event)
    requires Inv(s)
    ensures Inv(Next(s, e))
  {
    if Enabled(s, e) {
      forall o ensures LockInv(Next(s, e), o) { NextOne(s, e, o); }
    }
  }

  lemma {:induction false} RunInv(s: State, es: seq<Event>)
    requires Inv(s)
    ensures Inv(Run(s, es))
    decreases |es|
  {
    if es != [] {
      NextInv(s, es[0]);
      RunInv(Next(s, es[0]), es[1..]);
    }
  }

  lemma Reachable(es: seq<Event>)
    ensures Inv(Run(INIT, es))
  {
    RunInv(INIT, es);
  }

  // ---------------------------------------------------------------- mutual exclusion

  /** In every run, a lock object holds its lock exactly when the server says that its session does,
      so no two objects hold the same id at once. */
  lemma MutualExclusion(es: seq<Event>, o: Obj, p: Obj)
    requires o in Run(INIT, es).locks && p in Run(INIT, es).locks
      && Run(INIT, es).locks[o].id == Run(INIT, es).locks[p].id
    ensures Held(Run(INIT, es), o) <==> Holds(Run(INIT, es), o)
    ensures Held(Run(INIT, es), o) && Held(Run(INIT, es), p) ==> o == p
  {
    var s := Run(INIT, es);
    Reachable(es);
    assert LockInv(s, o) && LockInv(s, p);
  }

  predicate Whole(es: seq<Event>) { forall k :: 0 <= k < |es| ==> !es[k].Check? }

  predicate NobodyInside(s: State) { forall o :: o in s.locks ==> s.locks[o].releasing == map[] }

  lemma {:induction false} WholeReleases(s: State, es: seq<Event>)
    requires Whole(es) && NobodyInside(s)
    ensures NobodyInside(Run(s, es))
    decreases |es|
  {
    if es != [] {
      assert !es[0].Check?;
      assert Whole(es[1..]);
      WholeReleases(Next(s, es[0]), es[1..]);
    }
  }

  /** Read off the flags alone: when every release runs without a switch to another greenlet, then among the objects
      of one id at most one is acquired and not released, and it is the server's holder. */
  lemma OneAcquiredAndNotReleased(es: seq<Event>, o: Obj, p: Obj)
    requires Whole(es)
    requires o in Run(INIT, es).locks && p in Run(INIT, es).locks
      && Run(INIT, es).locks[o].id == Run(INIT, es).locks[p].id
    ensures var s := Run(INIT, es);
      && (s.locks[o].acquired && !s.locks[o].released <==> Holds(s, o))
      && (s.locks[o].acquired && !s.locks[o].released && s.locks[p].acquired && !s.locks[p].released ==> o == p)
  {
    MutualExclusion(es, o, p);
    MutualExclusion(es, p, o);
    WholeReleases(INIT, es);
  }

  /** Asking succeeds exactly when nobody holds the id. */
  lemma TrySucceedsExactlyWhenFree(es: seq<Event>, o: Obj)
    requires Enabled(Run(INIT, es), Try(o))
    ensures var s := Run(INIT, es); var t := Next(s, Try(o));
      && (t.locks[o].acquired <==> !exists p :: Held(s, p) && s.locks[p].id == s.locks[o].id)
      && (t.locks[o].acquired <==> Holds(t, o))
  {
    var s := Run(INIT, es);
    Reachable(es);
    assert LockInv(s, o);
    var id := s.locks[o].id;
    if id in s.holder {
      assert LockInv(s, s.holder[id]);
      assert Held(s, s.holder[id]);
    } else {
      forall p | p in s.locks && s.locks[p].id == id ensures !Held(s, p) { assert LockInv(s, p); }
    }
  }

  // ---------------------------------------------------------------- release

  /** What happens to one object never takes the lock from another. */
  lemma OthersKeepIt(s: State, e: Event, o: Obj)
    requires Inv(s) && Held(s, o) && e.obj != o
    ensures Held(Next(s, e), o) && Holds(Next(s, e), o)
  {
    assert LockInv(s, o);
    NextInv(s, e);
    assert LockInv(Next(s, e), o);
  }

  /** Once acquired, a lock stays acquired until its own object lets go, whatever all others do. */
  lemma {:induction false} HeldUntilOwnRelease(s: State, es: seq<Event>, o: Obj)
    requires Inv(s) && Held(s, o) && forall k :: 0 <= k < |es| ==> es[k].obj != o
    ensures Held(Run(s, es), o) && Holds(Run(s, es), o)
    decreases |es|
  {
    if es == [] {
      assert LockInv(s, o);
    } else {
      assert es[0].obj != o;
      OthersKeepIt(s, es[0], o);
      NextInv(s, es[0]);
      HeldUntilOwnRelease(Next(s, es[0]), es[1..], o);
    }
  }

  /** A release after the lock was released, or without the lock, changes nothing; one that passed its guard before the
      other finished may still execute its unlock, and then the server has nothing to free. */
  lemma LateReleaseFreesNobody(s: State, o: Obj, a: Agent)
    requires Inv(s) && o in s.locks && !Held(s, o)
    ensures !s.locks[o].acquired || s.locks[o].released ==> Next(s, Release(o)) == s && Next(s, Check(o, a)) == s
    ensures Next(s, Execute(o, a)).holder == s.holder && Next(s, Release(o)).holder == s.holder
  {
    assert LockInv(s, o);
  }

  /** The three steps of one release, with nobody in between, are the one step. */
  lemma ReleaseInSteps(s: State, o: Obj, a: Agent)
    requires Enabled(s, Release(o)) && a !in s.locks[o].releasing
    ensures Next(Next(Next(s, Check(o, a)), Execute(o, a)), Mark(o, a)) == Next(s, Release(o))
  {
    var l := s.locks[o];
    assert l.releasing[a := Checked][a := Executed] - {a} == l.releasing;
    var t := Next(Next(Next(s, Check(o, a)), Execute(o, a)), Mark(o, a));
    assert t.locks == Next(s, Release(o)).locks;
  }

  lemma NextStaysFreed(s: State, e: Event, o: Obj)
    requires Inv(s) && o in s.locks && s.locks[o].acquired && Freed(s.locks[o])
    ensures var t := Next(s, e);
      o in t.locks && t.locks[o].acquired && Freed(t.locks[o]) && t.locks[o].id == s.locks[o].id
  {
    assert LockInv(s, o);
    if Enabled(s, e) && e.obj == o && !s.locks[o].released {
      var b :| b in s.locks[o].releasing && s.locks[o].releasing[b] == Executed;
      var t := Next(s, e);
      match e {
        case Execute(_, a) => assert t.locks[o].releasing[a] == Executed;
        case Check(_, a) => assert t.locks[o].releasing[b] == Executed;
        case _ =>
      }
    }
  }

  /** An object that gave up waiting never comes to hold the lock afterwards. */
  lemma {:induction false} GivenUpForGood(s: State, es: seq<Event>, o: Obj)
    requires o in s.locks && !s.locks[o].acquired && (s.locks[o].trying ==> es != [] && es[0] == GiveUp(o))
    ensures !Held(Run(s, es), o)
    decreases |es|
  {
    if es != [] { GivenUpForGood(Next(s, es[0]), es[1..], o); }
  }

  /** An object that let go never holds the lock again, however many releases are still under way. */
  lemma {:induction false} NeverHeldAgain(s: State, es: seq<Event>, o: Obj)
    requires Inv(s) && o in s.locks && s.locks[o].acquired && Freed(s.locks[o])
    ensures !Held(Run(s, es), o) && !Holds(Run(s, es), o)
    decreases |es|
  {
    if es == [] {
      assert LockInv(s, o);
    } else {
      NextStaysFreed(s, es[0], o);
      NextInv(s, es[0]);
      NeverHeldAgain(Next(s, es[0]), es[1..], o);
    }
  }
}
