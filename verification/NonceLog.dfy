/** The log of recently used OAuth nonces, kept in a Redis sorted set (section 3.3 of RFC 5849 asks servers to refuse
    repeated nonces). */
module NonceLog {
  import opened Commons

  type Nonce = nat  // by its place in the byte order of members

  /** A sorted set: scores by member. */
  type ZSet = map<Nonce, int>

  // ---------------------------------------------------------------- sorted sets

  /** By score, then by member. */
  predicate Below(s: int, a: Nonce, t: int, b: Nonce) { s < t || (s == t && a < b) }

  predicate Under(z: ZSet, a: Nonce, b: Nonce)
    requires a in z && b in z
  {
    Below(z[a], a, z[b], b)
  }

  function Lower(z: ZSet, a: Nonce): set<Nonce>
    requires a in z
  {
    set b | b in z && Under(z, b, a)
  }

  function Higher(z: ZSet, a: Nonce): set<Nonce>
    requires a in z
  {
    set b | b in z && Under(z, a, b)
  }

  function Rank(z: ZSet, a: Nonce): nat
    requires a in z
  {
    |Lower(z, a)|
  }

  /** ZREMRANGEBYRANK key 0 stop: negative positions count from the end. */
  function ZRemRangeByRank(z: ZSet, stop: int): ZSet {
    var last := if stop < 0 then |z| + stop else stop;
    map a | a in z && Rank(z, a) > last :: z[a]
  }

  /** add_oauth_nonce */
  function Add(z: ZSet, a: Nonce, now: int, maxLog: int): ZSet { ZRemRangeByRank(z[a := now], -maxLog) }

  /** The k highest. */
  function Top(z: ZSet, k: int): ZSet { map a | a in z && |Higher(z, a)| < k :: z[a] }

  // ---------------------------------------------------------------- ranks

  lemma RankFromTop(z: ZSet, a: Nonce)
    requires a in z
    ensures Rank(z, a) + 1 + |Higher(z, a)| == |z|
  {
    assert z.Keys == Lower(z, a) + {a} + Higher(z, a);
  }

  lemma TrimIsTop(z: ZSet, maxLog: int)
    requires maxLog >= 1
    ensures ZRemRangeByRank(z, -maxLog) == Top(z, maxLog - 1)
  {
    forall a | a in z ensures Rank(z, a) > |z| - maxLog <==> |Higher(z, a)| < maxLog - 1 { RankFromTop(z, a); }
  }

  lemma SubsetSize(a: set<Nonce>, b: set<Nonce>)
    requires a <= b
    ensures |a| <= |b|
  {
    assert b == a + (b - a);
  }

  lemma {:induction false} Lowest(z: ZSet) returns (m: Nonce)
    requires z != map[]
    ensures m in z && forall b :: b in z && b != m ==> Under(z, m, b)
    decreases |z|
  {
    m :| m in z;
    if b :| b in z && Under(z, b, m) {
      var y := z - {m};
      assert y.Keys == z.Keys - {m} && b in y;
      var first := m;
      m := Lowest(y);
      assert m == b || Under(y, m, b);
      assert Under(z, m, first);
      forall c | c in z && c != m ensures Under(z, m, c) {
        if c != first { assert c in y && Under(y, m, c); }
      }
    } else {
      forall c | c in z && c != m ensures Under(z, m, c) { assert !Under(z, c, m); }
    }
  }

  lemma HigherWithoutLowest(z: ZSet, m: Nonce, a: Nonce)
    requires m in z && a in z && forall b :: b in z && b != m ==> Under(z, m, b)
    ensures if a == m then Higher(z, m) == z.Keys - {m} else Higher(z - {m}, a) == Higher(z, a)
  {
  }

  lemma TopWithoutLowest(z: ZSet, m: Nonce, k: nat)
    requires m in z && forall b :: b in z && b != m ==> Under(z, m, b)
    ensures Top(z, k).Keys == Top(z - {m}, k).Keys + if |z| - 1 < k then {m} else {}
  {
    assert |z.Keys - {m}| == |z| - 1;
    forall a | a in z
      ensures a in Top(z, k) <==> if a == m then |z| - 1 < k else a in Top(z - {m}, k)
    {
      HigherWithoutLowest(z, m, a);
    }
  }

  /** However many there are, the top k are k, or all. */
  lemma {:induction false} TopSize(z: ZSet, k: nat)
    ensures |Top(z, k)| == if k <= |z| then k else |z|
    decreases |z|
  {
    if z == map[] {
      assert Top(z, k) == map[];
    } else {
      var m := Lowest(z);
      var y := z - {m};
      assert y.Keys == z.Keys - {m};
      TopSize(y, k);
      TopWithoutLowest(z, m, k);
      assert |Top(y, k)| == |Top(y, k).Keys| && |Top(z, k)| == |Top(z, k).Keys|;
    }
  }

  /** The top ones are above all others. */
  lemma TopIsAbove(z: ZSet, k: int, a: Nonce, d: Nonce)
    requires a in Top(z, k) && d in z && d !in Top(z, k)
    ensures Under(z, d, a)
  {
    if !Under(z, d, a) {
      assert Higher(z, d) <= Higher(z, a);
      SubsetSize(Higher(z, d), Higher(z, a));
    }
  }

  // ---------------------------------------------------------------- forgetting early is harmless

  /** What has fallen out stays out when a nonce gets a score that is no lower than before. */
  lemma OutStaysOut(l: ZSet, k: nat, n: Nonce, t: int, c: Nonce)
    requires (n in l ==> l[n] <= t) && c in l && c != n && c !in Top(l, k)
    ensures c !in Top(l[n := t], k)
  {
    assert Higher(l, c) <= Higher(l[n := t], c);
    SubsetSize(Higher(l, c), Higher(l[n := t], c));
  }

  /** If somebody above c was dropped, then k others that were kept are above c. */
  lemma DroppedAboveMeansManyAbove(l: ZSet, k: nat, n: Nonce, t: int, c: Nonce, d: Nonce)
    requires n in l ==> l[n] <= t
    requires c in l[n := t] && d in l && d != n && d !in Top(l, k) && Under(l[n := t], c, d)
    requires c in Top(l, k)[n := t]
    ensures |Higher(Top(l, k)[n := t], c)| >= k
  {
    var w := Top(l, k)[n := t];
    forall a | a in Top(l, k) ensures a in Higher(w, c) { TopIsAbove(l, k, a, d); }
    SubsetSize(Top(l, k).Keys, Higher(w, c));
    TopSize(l, k);
    SubsetSize(Higher(l, d), l.Keys);
  }

  lemma KeptHigher(l: ZSet, k: nat, n: Nonce, t: int, c: Nonce)
    requires (n in l ==> l[n] <= t) && c in Top(l, k)[n := t]
    ensures |Higher(Top(l, k)[n := t], c)| < k <==> |Higher(l[n := t], c)| < k
  {
    var w, x := Top(l, k)[n := t], l[n := t];
    assert forall b :: b in w ==> b in x && w[b] == x[b];
    assert Higher(w, c) <= Higher(x, c);
    SubsetSize(Higher(w, c), Higher(x, c));
    if Higher(w, c) != Higher(x, c) {
      var d :| d in Higher(x, c) && d !in Higher(w, c);
      DroppedAboveMeansManyAbove(l, k, n, t, c, d);
    }
  }

  /** Trimming before an addition makes no difference after it. */
  lemma TopAfterAdd(l: ZSet, k: nat, n: Nonce, t: int)
    requires n in l ==> l[n] <= t
    ensures Top(Top(l, k)[n := t], k) == Top(l[n := t], k)
  {
    var w, x := Top(l, k)[n := t], l[n := t];
    forall c ensures c in Top(w, k) <==> c in Top(x, k) {
      if c in w {
        KeptHigher(l, k, n, t, c);
      } else if c in x {
        OutStaysOut(l, k, n, t, c);
      }
    }
  }

  // ---------------------------------------------------------------- runs

  datatype Use = Use(nonce: Nonce, time: int)

  /** The log after a sequence of additions. */
  function Logged(z: ZSet, uses: seq<Use>, maxLog: int): ZSet
    decreases |uses|
  {
    if uses == [] then z else Logged(Add(z, uses[0].nonce, uses[0].time, maxLog), uses[1..], maxLog)
  }

  /** Every nonce ever used, with the time of its latest use. */
  function Latest(z: ZSet, uses: seq<Use>): ZSet
    decreases |uses|
  {
    if uses == [] then z else Latest(z[uses[0].nonce := uses[0].time], uses[1..])
  }

  predicate ClockMovesOn(uses: seq<Use>) { forall i, j :: 0 <= i < j < |uses| ==> uses[i].time <= uses[j].time }

  predicate NotBefore(z: ZSet, uses: seq<Use>) { forall a, i :: a in z && 0 <= i < |uses| ==> z[a] <= uses[i].time }

  lemma {:induction false} LoggedIsTop(z: ZSet, uses: seq<Use>, maxLog: int)
    requires maxLog >= 1 && ClockMovesOn(uses) && NotBefore(z, uses)
    ensures Logged(Top(z, maxLog - 1), uses, maxLog) == Top(Latest(z, uses), maxLog - 1)
    decreases |uses|
  {
    if uses != [] {
      var n, t := uses[0].nonce, uses[0].time;
      LaterUses(z, uses);
      AddIsTop(z, n, t, maxLog);
      LoggedIsTop(z[n := t], uses[1..], maxLog);
    }
  }

  lemma AddIsTop(z: ZSet, n: Nonce, t: int, maxLog: int)
    requires maxLog >= 1 && (n in z ==> z[n] <= t)
    ensures Add(Top(z, maxLog - 1), n, t, maxLog) == Top(z[n := t], maxLog - 1)
  {
    TopAfterAdd(z, maxLog - 1, n, t);
    TrimIsTop(Top(z, maxLog - 1)[n := t], maxLog);
  }

  lemma LaterUses(z: ZSet, uses: seq<Use>)
    requires uses != [] && ClockMovesOn(uses) && NotBefore(z, uses)
    ensures uses[0].nonce in z ==> z[uses[0].nonce] <= uses[0].time
    ensures ClockMovesOn(uses[1..]) && NotBefore(z[uses[0].nonce := uses[0].time], uses[1..])
  {
    assert forall i :: 0 <= i < |uses[1..]| ==> uses[1..][i] == uses[i + 1] && uses[0].time <= uses[i + 1].time;
  }

  /** Main result: with room for N, the log holds exactly the N - 1 nonces with the latest uses, ties going to the later
      member, or all of them while there are fewer. */
  lemma LogIsTheWindow(uses: seq<Use>, maxLog: int)
    requires maxLog >= 1 && ClockMovesOn(uses)
    ensures Logged(map[], uses, maxLog) == Top(Latest(map[], uses), maxLog - 1)
    ensures |Logged(map[], uses, maxLog)|
      == if maxLog - 1 <= |Latest(map[], uses)| then maxLog - 1 else |Latest(map[], uses)|
  {
    assert Top(map[], maxLog - 1) == map[];
    LoggedIsTop(map[], uses, maxLog);
    TopSize(Latest(map[], uses), maxLog - 1);
  }

  /** With room for one, none, or a negative number, nothing is ever remembered. */
  lemma {:induction false} NoRoomNoMemory(uses: seq<Use>, maxLog: int)
    requires maxLog <= 1
    ensures Logged(map[], uses, maxLog) == map[]
    decreases |uses|
  {
    if uses != [] {
      var z: ZSet := map[uses[0].nonce := uses[0].time];
      assert map[][uses[0].nonce := uses[0].time] == z;
      assert Lower(z, uses[0].nonce) == {};
      NoRoomNoMemory(uses[1..], maxLog);
    }
  }

  // ---------------------------------------------------------------- what is recognised

  lemma {:induction false} LatestNow(z: ZSet, uses: seq<Use>, n: Nonce, t: int)
    requires forall a :: a in z ==> z[a] <= t
    requires forall i :: 0 <= i < |uses| ==> uses[i].time <= t
    ensures forall a :: a in Latest(z, uses) ==> Latest(z, uses)[a] <= t
    ensures Latest(z, uses + [Use(n, t)]) == Latest(z, uses)[n := t]
    decreases |uses|
  {
    if uses == [] {
      assert uses + [Use(n, t)] == [Use(n, t)];
    } else {
      assert (uses + [Use(n, t)])[0] == uses[0] && (uses + [Use(n, t)])[1..] == uses[1..] + [Use(n, t)];
      assert uses[0].time <= t;
      assert forall i :: 0 <= i < |uses[1..]| ==> uses[1..][i] == uses[i + 1];
      LatestNow(z[uses[0].nonce := uses[0].time], uses[1..], n, t);
    }
  }

  /** Nonces of the same second that come later in the order of members. */
  function Rivals(z: ZSet, n: Nonce, t: int): set<Nonce> { set b | b in z && z[b] == t && b > n }

  /** A nonce used just now is recognised at once exactly when the log has room for it beside its rivals of the same
      second. */
  lemma FreshNonceIsKeptExactlyWhen(uses: seq<Use>, n: Nonce, t: int, maxLog: int)
    requires maxLog >= 1 && ClockMovesOn(uses + [Use(n, t)])
    ensures n in Logged(map[], uses + [Use(n, t)], maxLog) <==> |Rivals(Latest(map[], uses), n, t)| < maxLog - 1
  {
    var more := uses + [Use(n, t)];
    assert more[|uses|] == Use(n, t);
    forall i | 0 <= i < |uses| ensures uses[i].time <= t { assert more[i] == uses[i]; }
    LatestNow(map[], uses, n, t);
    LogIsTheWindow(more, maxLog);
    assert Higher(Latest(map[], more), n) == Rivals(Latest(map[], uses), n, t);
  }

  /** So with room for two, the second nonce of one second is forgotten at once if it sorts before the first. */
  lemma SecondNonceForgotten()
    ensures var uses := [Use(9, 100), Use(4, 100)]; ClockMovesOn(uses) && 4 !in Logged(map[], uses, 2)
  {
    var first := [Use(9, 100)];
    assert [Use(9, 100), Use(4, 100)] == first + [Use(4, 100)];
    assert Latest(map[], first) == map[9 := 100];
    assert Rivals(Latest(map[], first), 4, 100) == {9};
    FreshNonceIsKeptExactlyWhen(first, 4, 100, 2);
  }

  function Nonces(uses: seq<Use>): set<Nonce> { set i | 0 <= i < |uses| :: uses[i].nonce }

  lemma {:induction false} LatestParts(z: ZSet, uses: seq<Use>, a: Nonce)
    ensures a in Latest(z, uses) <==> a in z || a in Nonces(uses)
    ensures a in z && a !in Nonces(uses) ==> a in Latest(z, uses) && Latest(z, uses)[a] == z[a]
    decreases |uses|
  {
    if uses != [] {
      assert uses == [uses[0]] + uses[1..];
      assert Nonces(uses) == {uses[0].nonce} + Nonces(uses[1..]) by {
        forall b ensures b in Nonces(uses) <==> b in {uses[0].nonce} + Nonces(uses[1..]) {
          if b in Nonces(uses) {
            var i :| 0 <= i < |uses| && uses[i].nonce == b;
            if i > 0 { assert uses[1..][i - 1].nonce == b; }
          }
          if b in Nonces(uses[1..]) {
            var i :| 0 <= i < |uses[1..]| && uses[1..][i].nonce == b;
            assert uses[i + 1].nonce == b;
          }
        }
      }
      LatestParts(z[uses[0].nonce := uses[0].time], uses[1..], a);
    }
  }

  /** Those used later than n was last used, or in the same second and sorting after it. */
  function UsedAfter(uses: seq<Use>, n: Nonce): set<Nonce>
    requires n in Latest(map[], uses)
  {
    var l := Latest(map[], uses);
    set b | b in Nonces(uses) && b in l && Below(l[n], n, l[b], b)
  }

  /** After any run, a nonce is recognised exactly when it was used and fewer than N - 1 others were used after it. */
  lemma RecognisedExactlyWhen(uses: seq<Use>, n: Nonce, maxLog: int)
    requires maxLog >= 1 && ClockMovesOn(uses)
    ensures n in Latest(map[], uses) <==> n in Nonces(uses)
    ensures n in Logged(map[], uses, maxLog) <==> n in Nonces(uses) && |UsedAfter(uses, n)| < maxLog - 1
  {
    LogIsTheWindow(uses, maxLog);
    LatestParts(map[], uses, n);
    var l := Latest(map[], uses);
    if n in l {
      forall b ensures b in UsedAfter(uses, n) <==> b in Higher(l, n) { LatestParts(map[], uses, b); }
      assert UsedAfter(uses, n) == Higher(l, n);
    }
  }

  /** A replay is caught as long as fewer than N - 1 nonces came after the first use, counting its rivals of the same
      second. */
  lemma ReplayIsCaught(before: seq<Use>, n: Nonce, t: int, after: seq<Use>, maxLog: int)
    requires maxLog >= 1 && ClockMovesOn(before + [Use(n, t)] + after) && n !in Nonces(after)
    requires |Rivals(Latest(map[], before), n, t) + Nonces(after)| < maxLog - 1
    ensures n in Logged(map[], before + [Use(n, t)] + after, maxLog)
  {
    var uses := before + [Use(n, t)] + after;
    var z := Latest(map[], before)[n := t];
    assert uses[|before|] == Use(n, t);
    forall i | 0 <= i < |before| ensures before[i].time <= t { assert uses[i] == before[i]; }
    LatestNow(map[], before, n, t);
    LatestAppend(map[], before + [Use(n, t)], after);
    var l := Latest(map[], uses);
    LogIsTheWindow(uses, maxLog);
    LatestParts(z, after, n);
    forall b | b in Higher(l, n)
      ensures b in Rivals(Latest(map[], before), n, t) + Nonces(after)
    {
      LatestParts(z, after, b);
    }
    SubsetSize(Higher(l, n), Rivals(Latest(map[], before), n, t) + Nonces(after));
  }

  lemma {:induction false} LatestAppend(z: ZSet, a: seq<Use>, b: seq<Use>)
    ensures Latest(z, a + b) == Latest(Latest(z, a), b)
    decreases |a|
  {
    if a == [] {
      assert a + b == b;
    } else {
      assert (a + b)[0] == a[0] && (a + b)[1..] == a[1..] + b;
      LatestAppend(z[a[0].nonce := a[0].time], a[1..], b);
    }
  }

  // ---------------------------------------------------------------- the store

  class KVDB {
    var logs: map<string, ZSet>

    constructor ()
      ensures logs == map[]
    {
      logs := map[];
    }

    function LogOf(username: string): ZSet
      reads this
    {
      if username in logs then logs[username] else map[]
    }

    /** add_oauth_nonce: one ZADD, one ZREMRANGEBYRANK */
    method AddOauthNonce(username: string, nonce: Nonce, maxLog: int, now: int)
      modifies this
      ensures LogOf(username) == Add(old(LogOf(username)), nonce, now, maxLog)
      ensures forall u :: u != username ==> LogOf(u) == old(LogOf(u))
    {
      var z := LogOf(username)[nonce := now];
      logs := logs[username := z];
      logs := logs[username := ZRemRangeByRank(z, -maxLog)];
    }

    /** has_oauth_nonce: the score, if any */
    method HasOauthNonce(username: string, nonce: Nonce) returns (score: Option<int>)
      ensures score.Some? <==> nonce in LogOf(username)
      ensures score.Some? ==> score.value == LogOf(username)[nonce]
    {
      var z := LogOf(username);
      score := if nonce in z then Some(z[nonce]) else None;
    }

    /** lookup_nonce: a known nonce is reported, an unknown one is logged; a score of zero counts as unknown. */
    method LookupNonce(username: string, nonce: Nonce, maxLog: int, now: int) returns (reused: bool)
      modifies this
      ensures reused <==> nonce in old(LogOf(username)) && old(LogOf(username))[nonce] != 0
      ensures LogOf(username) == if reused then old(LogOf(username)) else Add(old(LogOf(username)), nonce, now, maxLog)
      ensures forall u :: u != username ==> LogOf(u) == old(LogOf(u))
    {
      var score := HasOauthNonce(username, nonce);
      reused := score.Some? && score.value != 0;
      if !reused { AddOauthNonce(username, nonce, maxLog, now); }
    }
  }
}
