/** One lock object against the database and the clock: acquire with a deadline, release, and the time-to-live
    greenlet. */
module SqlLock {
  import opened Commons
  import opened Clock
  import D = DistLock

  type Id = nat
  type Session = nat

  function Times(k: nat, interval: nat): nat { if k == 0 then 0 else Times(k - 1, interval) + interval }

  /** The number of intervals that cover n. */
  function Ceil(n: nat, interval: nat): (k: nat)
    requires interval > 0
    ensures n <= k * interval && (k > 0 ==> (k - 1) * interval < n)
  {
    if n == 0 then 0
    else
      var k := 1 + if n <= interval then 0 else Ceil(n - interval, interval);
      assert (k - 1) * interval == k * interval - interval;
      k
  }

  lemma {:induction false} TimesIsProduct(k: nat, interval: nat)
    ensures Times(k, interval) == k * interval
    decreases k
  {
    if k > 0 {
      TimesIsProduct(k - 1, interval);
      assert k * interval == (k - 1) * interval + interval;
    }
  }

  /** The server's session locks. */
  class Database {
    var holder: map<Id, Session>

    constructor ()
      ensures holder == map[]
    {
      holder := map[];
    }

    /** pg_try_advisory_lock, get_lock with no waiting */
    method TryLock(id: Id, session: Session) returns (granted: bool)
      modifies this
      ensures granted == D.Grants(old(holder), id, session)
      ensures holder == if granted then old(holder)[id := session] else old(holder)
    {
      granted := id !in holder || holder[id] == session;
      if granted { holder := holder[id := session]; }
    }

    /** pg_advisory_unlock, release_lock */
    method Unlock(id: Id, session: Session)
      modifies this
      ensures holder == D.Unlocked(old(holder), id, session)
    {
      if id in holder && holder[id] == session { holder := holder - {id}; }
    }

    /** Time passes: other sessions end up with what `elsewhere` says, as far as it is theirs to take. */
    method Others(elsewhere: map<Id, Session>, session: Session)
      modifies this
      ensures forall id :: id in holder && holder[id] == session <==> id in old(holder) && old(holder)[id] == session
      ensures forall id ::
        (id in old(holder) && old(holder)[id] == session) || (id in elsewhere && elsewhere[id] == session)
        || ((id in holder <==> id in elsewhere) && (id in holder ==> holder[id] == elsewhere[id]))
    {
      holder := (map id | id in elsewhere && elsewhere[id] != session :: elsewhere[id])
        + (map id | id in holder && holder[id] == session :: holder[id]);
    }
  }

  class SQLLock {
    const id: Id
    const session: Session
    const ttl: nat
    const block: nat
    const blockInterval: nat
    var acquired: bool
    var released: bool

    constructor (id: Id, session: Session, ttl: nat, block: nat, blockInterval: nat)
      ensures this.id == id && this.session == session && this.ttl == ttl && this.block == block
        && this.blockInterval == blockInterval && !acquired && !released
    {
      this.id, this.session, this.ttl, this.block, this.blockInterval := id, session, ttl, block, blockInterval;
      acquired, released := false, false;
    }

    predicate Has(db: Database)
      reads db
    {
      id in db.holder && db.holder[id] == session
    }

    /** One sleep, during which the other sessions come to hold `elsewhere`, and one try. */
    method Retry(db: Database, clock: Clock, elsewhere: map<Id, Session>) returns (acquired: bool)
      requires !Has(db) && forall i :: i in elsewhere ==> elsewhere[i] != session
      modifies db, clock
      ensures acquired <==> Has(db)
      ensures acquired <==> id !in elsewhere
      ensures clock.now >= old(clock.now) + blockInterval
    {
      clock.Sleep(blockInterval);
      db.Others(elsewhere, session);
      acquired := db.TryLock(id, session);
    }

    /** The waiting loop of _acquire. `world(k)` is what the other sessions hold after the k-th sleep; `tries` counts
        all asking. */
    method TryAgain(db: Database, clock: Clock, world: nat -> map<Id, Session>) returns (acquired: bool, tries: nat)
      requires blockInterval > 0 && block > 0
      requires forall k, i :: i in world(k) ==> world(k)[i] != session  // nobody else works in this session
      requires !Has(db)
      modifies db, clock
      ensures 1 < tries <= 1 + Ceil(block, blockInterval)
      ensures acquired <==> Has(db)
      ensures acquired <==> id !in world(tries - 2)
      ensures forall k: nat :: k < tries - 2 ==> id in world(k)
      ensures !acquired ==> clock.now >= old(clock.now) + block
    {
      acquired, tries := false, 1;
      var now := clock.now;
      var until := now + block;
      while now < until
        invariant 1 <= tries && now == clock.now >= old(clock.now) + Times(tries - 1, blockInterval)
        invariant (tries > 1 || now < until) && tries <= Ceil(block, blockInterval) + if now < until then 0 else 1
        invariant !acquired && !Has(db)
        invariant forall k: nat :: k < tries - 1 ==> id in world(k)
        decreases until - now
      {
        acquired := Retry(db, clock, world(tries - 1));
        tries := tries + 1;
        if acquired { break; }
        now := clock.now;
        Waited(tries - 1, blockInterval, block, now - old(clock.now));
      }
    }

    /** _acquire: the result is what the last try said, or LockTimeout. */
    method TryUntilDeadline(db: Database, clock: Clock, world: nat -> map<Id, Session>)
      returns (r: Result<bool>, tries: nat)
      requires blockInterval > 0
      requires forall k, i :: i in world(k) ==> world(k)[i] != session
      requires !Has(db)
      modifies db, clock
      ensures 1 <= tries <= 1 + Ceil(block, blockInterval)
      ensures id !in old(db.holder) ==> r == Ok(true) && tries == 1 && clock.now == old(clock.now)
      ensures r == Ok(true) <==> Has(db)
      ensures r == Ok(true) ==> id !in (if tries == 1 then old(db.holder) else world(tries - 2))
      ensures r == Ok(false) ==> block == 0 && tries == 1 && clock.now == old(clock.now)
      ensures r.Raised? ==> r == Raised("LockTimeout") && block > 0 && clock.now >= old(clock.now) + block
      ensures tries > 1 ==> id in old(db.holder) && forall k: nat :: k < tries - 2 ==> id in world(k)
      ensures r != Ok(true) && tries > 1 ==> id in world(tries - 2)
    {
      var acquired := db.TryLock(id, session);
      tries := 1;
      if block > 0 && !acquired {
        acquired, tries := TryAgain(db, clock, world);
        if !acquired { return Raised("LockTimeout"), tries; }
      }
      r := Ok(acquired);
    }

    static lemma {:induction false} TimesGrow(a: nat, b: nat, interval: nat)
      requires a <= b
      ensures Times(a, interval) <= Times(b, interval)
      decreases b
    {
      if a < b { TimesGrow(a, b - 1, interval); }
    }

    /** After so many intervals within the deadline, there is room for at least one more. */
    static lemma Waited(slept: nat, interval: nat, block: nat, elapsed: int)
      requires interval > 0 && elapsed >= Times(slept, interval)
      ensures elapsed < block ==> slept + 1 <= Ceil(block, interval)
    {
      var k := Ceil(block, interval);
      TimesIsProduct(k, interval);
      if k <= slept { TimesGrow(k, slept, interval); }
    }

    /** __enter__: the flag is what the tries said; a permanent lock asks for a greenlet to sustain it. */
    method Enter(db: Database, clock: Clock, world: nat -> map<Id, Session>) returns (r: Result<bool>, sustain: bool)
      requires blockInterval > 0 && !acquired && !released
      requires forall k, i :: i in world(k) ==> world(k)[i] != session
      requires !Has(db)
      modifies this, db, clock
      ensures acquired == (r == Ok(true)) && (acquired <==> Has(db)) && released == old(released)
      ensures sustain <==> acquired && ttl > 0
      ensures r.Raised? ==> block > 0 && clock.now >= old(clock.now) + block
      ensures r == Ok(false) ==> block == 0
    {
      var tries;
      r, tries := TryUntilDeadline(db, clock, world);
      sustain := false;
      if r.Ok? {
        acquired := r.value;
        sustain := acquired && ttl > 0;
      }
    }

    /** release: only the first one after an acquisition reaches the server, and it frees only what this session has. */
    method Release(db: Database)
      modifies this, db
      ensures acquired == old(acquired) && released == (old(released) || old(acquired))
      ensures db.holder ==
        if old(acquired) && !old(released) then D.Unlocked(old(db.holder), id, session) else old(db.holder)
    {
      if acquired && !released {
        db.Unlock(id, session);
        released := true;
      }
    }

    /** One nap of the greenlet, during which others act and the with-block may be left. */
    method Nap(db: Database, clock: Clock, leaves: bool, elsewhere: map<Id, Session>)
      requires acquired && (Has(db) <==> !released) && OnlyThis(db)
      requires forall i :: i in elsewhere ==> elsewhere[i] != session
      modifies this, db, clock
      ensures acquired && released == (old(released) || leaves) && (Has(db) <==> !released) && OnlyThis(db)
      ensures clock.now > old(clock.now) && clock.asked == old(clock.asked) + 1
      ensures SameElsewhere(db.holder, elsewhere, id)
      ensures released && id in db.holder ==> id in elsewhere && db.holder[id] == elsewhere[id]
    {
      clock.Sleep(1);
      db.Others(elsewhere, session);
      if leaves { Release(db); }
    }

    /** A session has one lock and no more. */
    ghost predicate OnlyThis(db: Database)
      reads db
    {
      forall i :: i in db.holder && db.holder[i] == session ==> i == id
    }

    /** _wait_in_greenlet, the clock counting tenths of a second. During the k-th sleep the other sessions come to hold
        `world(k)`, and `left(k)` says whether the with-block is left. `freedAt` is when the lock was given back: unless
        the block was left, not before its time to live was over; and by the end in any case. The greenlet stops at the
        sleep during which the block was left, and sleeps no oftener than its time to live asks for. What the others
        hold is theirs throughout. */
    method WaitInGreenlet(db: Database, clock: Clock, left: nat -> bool, world: nat -> map<Id, Session>)
      returns (naps: nat, freedAt: int)
      requires acquired && !released && Has(db)
      requires OnlyThis(db)
      requires forall k, i :: i in world(k) ==> world(k)[i] != session
      modifies this, db, clock
      ensures released && !Has(db)
      ensures naps <= 10 * ttl + 1 && clock.asked == old(clock.asked) + naps
      ensures forall k: nat :: k + 1 < naps ==> !left(k)
      ensures old(clock.now) <= freedAt <= clock.now
      ensures (forall k: nat :: k < naps ==> !left(k)) ==> freedAt >= old(clock.now) + 10 * ttl
      ensures SameElsewhere(db.holder, if naps == 0 then old(db.holder) else world(naps - 1), id)
      ensures id in db.holder ==> naps > 0 && id in world(naps - 1) && db.holder[id] == world(naps - 1)[id]
    {
      var now := clock.now;
      var until := now + 10 * ttl;
      naps, freedAt := 0, clock.now;
      while now < until
        invariant acquired && old(clock.now) <= now <= clock.now && until == old(clock.now) + 10 * ttl
        invariant if released then !Has(db) && old(clock.now) <= freedAt <= clock.now else Has(db)
        invariant released ==> naps > 0 && left(naps - 1)
        invariant !released ==> forall k: nat :: k < naps ==> !left(k)
        invariant forall k: nat :: k + 1 < naps ==> !left(k)
        invariant naps <= 10 * ttl + 1 && clock.asked == old(clock.asked) + naps
        invariant clock.now >= old(clock.now) + naps && now >= old(clock.now) + naps - 1
        invariant OnlyThis(db)
        invariant SameElsewhere(db.holder, if naps == 0 then old(db.holder) else world(naps - 1), id)
        invariant released && id in db.holder ==>
          naps > 0 && id in world(naps - 1) && db.holder[id] == world(naps - 1)[id]
        decreases if clock.now < until then until - clock.now else 0, if now < until then until - now else 0
      {
        if released { break; }
        now := clock.now;
        Nap(db, clock, left(naps), world(naps));
        freedAt := clock.now;
        naps := naps + 1;
      }
      if !released {
        Release(db);
        freedAt := clock.now;
      }
    }
  }

  ghost predicate SameElsewhere(a: map<Id, Session>, b: map<Id, Session>, id: Id) {
    forall i :: i != id ==> (i in a <==> i in b) && (i in a ==> a[i] == b[i])
  }

  /** The text whose hash identifies a lock to the server: namespace and name run together. */
  function IdText(namespace: string, name: string): string { namespace + name }

  /** Two locks share their text, and so exclude each other, exactly when they are the same lock or the longer namespace
      is the shorter one continued by the beginning of the other's name. */
  lemma SameTextExactlyWhen(ns1: string, name1: string, ns2: string, name2: string)
    requires |ns1| <= |ns2|
    ensures IdText(ns1, name1) == IdText(ns2, name2) <==> ns1 <= ns2 && name1 == ns2[|ns1|..] + name2
    ensures |ns1| == |ns2| ==> (IdText(ns1, name1) == IdText(ns2, name2) <==> ns1 == ns2 && name1 == name2)
  {
    var a, b := IdText(ns1, name1), IdText(ns2, name2);
    assert a[..|ns1|] == ns1 && a[|ns1|..] == name1;
    assert b[..|ns1|] == ns2[..|ns1|] && b[|ns1|..] == ns2[|ns1|..] + name2;
    assert a == a[..|ns1|] + a[|ns1|..] && b == b[..|ns1|] + b[|ns1|..];
    if |ns1| == |ns2| { assert ns2[|ns1|..] + name2 == name2; }
  }
}
