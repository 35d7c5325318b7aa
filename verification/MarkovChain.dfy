/** The Markov chain that made-up passwords are walked out of: counting transitions in a sample, and choosing the next
    state with the right weight. */
module MarkovChain {
  import opened Commons

  type Symbol = char

  /** How often each state was followed by each other. */
  type Counts = map<Symbol, map<Symbol, nat>>

  // ---------------------------------------------------------------- counting

  function RowOf(counts: Counts, a: Symbol): map<Symbol, nat> { if a in counts then counts[a] else map[] }

  function CountOf(counts: Counts, a: Symbol, b: Symbol): nat
  {
    if a in counts && b in counts[a] then counts[a][b] else 0
  }

  /** counts[a][b] += 1 on nested defaultdicts */
  function Increment(counts: Counts, a: Symbol, b: Symbol): Counts {
    counts[a := RowOf(counts, a)[b := CountOf(counts, a, b) + 1]]
  }

  function Pairs(sample: seq<Symbol>): seq<(Symbol, Symbol)> {
    if |sample| < 2 then [] else seq(|sample| - 1, i requires 0 <= i < |sample| - 1 => (sample[i], sample[i + 1]))
  }

  function CountsOf(pairs: seq<(Symbol, Symbol)>): Counts {
    if pairs == [] then map[]
    else
      var last := pairs[|pairs| - 1];
      Increment(CountsOf(pairs[..|pairs| - 1]), last.0, last.1)
  }

  lemma CountMore(pairs: seq<(Symbol, Symbol)>, n: nat)
    requires n < |pairs|
    ensures CountsOf(pairs[..n + 1]) == Increment(CountsOf(pairs[..n]), pairs[n].0, pairs[n].1)
  {
    assert pairs[..n + 1][..n] == pairs[..n];
  }

  /** The positions at which a is followed by one of bs. */
  function Places(pairs: seq<(Symbol, Symbol)>, a: Symbol, bs: set<Symbol>): set<nat> {
    set i: nat | i < |pairs| && pairs[i].0 == a && pairs[i].1 in bs
  }

  lemma PlacesSnoc(pairs: seq<(Symbol, Symbol)>, a: Symbol, bs: set<Symbol>)
    requires pairs != []
    ensures var last := pairs[|pairs| - 1];
      |Places(pairs, a, bs)| == |Places(pairs[..|pairs| - 1], a, bs)| + if last.0 == a && last.1 in bs then 1 else 0
  {
    var last, before := pairs[|pairs| - 1], pairs[..|pairs| - 1];
    assert Places(pairs, a, bs) == Places(before, a, bs) + if last.0 == a && last.1 in bs then {|before|} else {};
  }

  /** The counts are exactly the numbers of adjacent occurrences. */
  lemma {:induction false} CountsAreOccurrences(pairs: seq<(Symbol, Symbol)>, a: Symbol, b: Symbol)
    ensures CountOf(CountsOf(pairs), a, b) == |Places(pairs, a, {b})|
    ensures a in CountsOf(pairs) ==> forall c :: c in CountsOf(pairs)[a] ==> CountsOf(pairs)[a][c] > 0
    ensures a in CountsOf(pairs) <==> exists i :: 0 <= i < |pairs| && pairs[i].0 == a
    decreases |pairs|
  {
    if pairs == [] {
      assert Places(pairs, a, {b}) == {};
    } else {
      var before := pairs[..|pairs| - 1];
      CountsAreOccurrences(before, a, b);
      PlacesSnoc(pairs, a, {b});
      assert forall i :: 0 <= i < |before| ==> before[i] == pairs[i];
    }
  }

  // ---------------------------------------------------------------- totals

  function Sum(row: map<Symbol, nat>, keys: seq<Symbol>): nat {
    if keys == [] then 0 else (if keys[0] in row then row[keys[0]] else 0) + Sum(row, keys[1..])
  }

  predicate NoRepeats(keys: seq<Symbol>) { forall i, j :: 0 <= i < j < |keys| ==> keys[i] != keys[j] }

  /** The order in which a dictionary happens to list its keys. */
  ghost predicate Lists(row: map<Symbol, nat>, keys: seq<Symbol>)
  {
    NoRepeats(keys) && forall b :: b in keys <==> b in row
  }

  function Members(keys: seq<Symbol>): set<Symbol> { set b | b in keys }

  lemma {:induction false} SumIsPlaces(pairs: seq<(Symbol, Symbol)>, a: Symbol, keys: seq<Symbol>)
    requires NoRepeats(keys)
    ensures Sum(RowOf(CountsOf(pairs), a), keys) == |Places(pairs, a, Members(keys))|
    decreases |keys|
  {
    if keys == [] {
      assert Places(pairs, a, Members(keys)) == {};
    } else {
      var b, rest := keys[0], keys[1..];
      assert keys == [b] + rest;
      assert b !in rest;
      SumIsPlaces(pairs, a, rest);
      CountsAreOccurrences(pairs, a, b);
      assert Places(pairs, a, Members(keys)) == Places(pairs, a, {b}) + Places(pairs, a, Members(rest));
      assert Places(pairs, a, {b}) !! Places(pairs, a, Members(rest));
    }
  }

  function Departures(pairs: seq<(Symbol, Symbol)>, a: Symbol): set<nat> { set i: nat | i < |pairs| && pairs[i].0 == a }

  /** A state's total is the number of times it was left, in whatever order its successors are added up. */
  lemma TotalIsDepartures(pairs: seq<(Symbol, Symbol)>, a: Symbol, keys: seq<Symbol>)
    requires Lists(RowOf(CountsOf(pairs), a), keys)
    ensures Sum(RowOf(CountsOf(pairs), a), keys) == |Departures(pairs, a)|
  {
    SumIsPlaces(pairs, a, keys);
    forall i | i in Departures(pairs, a) ensures i in Places(pairs, a, Members(keys)) {
      var b := pairs[i].1;
      assert i in Places(pairs, a, {b});
      CountsAreOccurrences(pairs, a, b);
      assert b in RowOf(CountsOf(pairs), a);
    }
    assert Departures(pairs, a) == Places(pairs, a, Members(keys));
  }

  function LeftFrom(pairs: seq<(Symbol, Symbol)>, states: set<Symbol>): set<nat>
  {
    set i: nat | i < |pairs| && pairs[i].0 in states
  }

  lemma {:induction false} SumOverStates(pairs: seq<(Symbol, Symbol)>, totals: map<Symbol, nat>, states: seq<Symbol>)
    requires NoRepeats(states) && forall a :: a in states ==> a in totals && totals[a] == |Departures(pairs, a)|
    ensures Sum(totals, states) == |LeftFrom(pairs, Members(states))|
    decreases |states|
  {
    if states == [] {
      assert LeftFrom(pairs, Members(states)) == {};
    } else {
      var a, rest := states[0], states[1..];
      assert states == [a] + rest;
      assert a !in rest;
      SumOverStates(pairs, totals, rest);
      assert LeftFrom(pairs, Members(states)) == Departures(pairs, a) + LeftFrom(pairs, Members(rest));
    }
  }

  /** All totals together are the length of the sample less one. */
  lemma TotalsSumUp(sample: seq<Symbol>, totals: map<Symbol, nat>, states: seq<Symbol>)
    requires sample != [] && TotalsFit(Pairs(sample), totals) && Lists(totals, states)
    ensures Sum(totals, states) == |sample| - 1
  {
    var pairs := Pairs(sample);
    assert |pairs| == |sample| - 1;
    SumOverStates(pairs, totals, states);
    forall i | 0 <= i < |pairs| ensures pairs[i].0 in states { CountsAreOccurrences(pairs, pairs[i].0, pairs[i].1); }
    assert LeftFrom(pairs, Members(states)) == Between(0, |pairs|);
    BetweenSize(0, |pairs|);
  }

  function Between(lo: nat, hi: nat): (r: set<nat>)
    ensures forall i :: i in r <==> lo <= i < hi
    decreases hi
  {
    if lo >= hi then {} else Between(lo, hi - 1) + {hi - 1}
  }

  lemma {:induction false} BetweenSize(lo: nat, hi: nat)
    requires lo <= hi
    ensures |Between(lo, hi)| == hi - lo
    decreases hi - lo
  {
    if lo == hi {
      assert Between(lo, hi) == {};
    } else {
      BetweenSize(lo, hi - 1);
    }
  }

  ghost predicate EachIsDepartures(pairs: seq<(Symbol, Symbol)>, totals: map<Symbol, nat>) {
    forall a :: a in totals ==> totals[a] == |Departures(pairs, a)|
  }

  /** What the constructor stores. */
  ghost predicate TotalsFit(pairs: seq<(Symbol, Symbol)>, totals: map<Symbol, nat>) {
    totals.Keys == CountsOf(pairs).Keys && EachIsDepartures(pairs, totals)
  }

  lemma OneMoreTotal(pairs: seq<(Symbol, Symbol)>, totals: map<Symbol, nat>, a: Symbol, keys: seq<Symbol>)
    requires EachIsDepartures(pairs, totals) && a in CountsOf(pairs) && Lists(CountsOf(pairs)[a], keys)
    ensures EachIsDepartures(pairs, totals[a := Sum(CountsOf(pairs)[a], keys)])
  {
    TotalIsDepartures(pairs, a, keys);
  }

  // ---------------------------------------------------------------- the sample itself

  /** At position i of the sample a stands with b behind it. */
  predicate StandsAt(sample: seq<Symbol>, a: Symbol, b: Symbol, i: nat) {
    i + 1 < |sample| && sample[i] == a && sample[i + 1] == b
  }

  function Adjacent(sample: seq<Symbol>, a: Symbol, b: Symbol): set<nat> {
    set i: nat | i < |sample| && StandsAt(sample, a, b, i)
  }

  /** The counts, told from the sample: how often b stands behind a, and a row for everything that something stands
      behind. */
  lemma CountsAreAdjacent(sample: seq<Symbol>, a: Symbol, b: Symbol)
    ensures CountOf(CountsOf(Pairs(sample)), a, b) == |Adjacent(sample, a, b)|
    ensures a in CountsOf(Pairs(sample)) <==> exists i :: 0 <= i < |sample| - 1 && sample[i] == a
  {
    var pairs := Pairs(sample);
    CountsAreOccurrences(pairs, a, b);
    assert Adjacent(sample, a, b) == Places(pairs, a, {b});
    if i :| 0 <= i < |sample| - 1 && sample[i] == a { assert pairs[i].0 == a; }
  }

  // ---------------------------------------------------------------- choosing

  /** The loop of next; None is falling off its end. */
  function Pick(row: map<Symbol, nat>, keys: seq<Symbol>, rand: int): Option<Symbol>
    requires forall b :: b in keys ==> b in row
    decreases |keys|
  {
    if keys == [] then None
    else
      assert keys[0] in keys;
      if rand < row[keys[0]] then Some(keys[0]) else Pick(row, keys[1..], rand - row[keys[0]])
  }

  /** Every draw in range chooses somebody. */
  lemma {:induction false} NeverFallsThrough(row: map<Symbol, nat>, keys: seq<Symbol>, rand: nat)
    requires forall b :: b in keys ==> b in row
    ensures Pick(row, keys, rand).Some? <==> rand < Sum(row, keys)
    ensures Pick(row, keys, rand).Some? ==> Pick(row, keys, rand).value in keys
    decreases |keys|
  {
    if keys != [] {
      assert keys[0] in keys;
      if rand >= row[keys[0]] { NeverFallsThrough(row, keys[1..], rand - row[keys[0]]); }
    }
  }

  /** The draws that choose keys[k] are those between the weights before it and its own weight more. */
  lemma {:induction false} ChosenBetween(row: map<Symbol, nat>, keys: seq<Symbol>, k: nat, rand: nat)
    requires (forall b :: b in keys ==> b in row) && NoRepeats(keys) && k < |keys|
    ensures Pick(row, keys, rand) == Some(keys[k]) <==> Sum(row, keys[..k]) <= rand < Sum(row, keys[..k]) + row[keys[k]]
    decreases |keys|
  {
    assert keys[0] in keys;
    if k == 0 {
      if rand >= row[keys[0]] {
        NeverFallsThrough(row, keys[1..], rand - row[keys[0]]);
        assert keys[0] !in keys[1..];
      }
    } else {
      assert keys[..k][0] == keys[0] && keys[..k][1..] == keys[1..][..k - 1];
      assert keys[k] != keys[0];
      if rand >= row[keys[0]] { ChosenBetween(row, keys[1..], k - 1, rand - row[keys[0]]); }
    }
  }

  lemma {:induction false} SumPrefix(row: map<Symbol, nat>, keys: seq<Symbol>, k: nat)
    requires k < |keys| && keys[k] in row
    ensures Sum(row, keys[..k]) + row[keys[k]] <= Sum(row, keys)
    decreases |keys|
  {
    if k > 0 {
      assert keys[..k][0] == keys[0] && keys[..k][1..] == keys[1..][..k - 1];
      SumPrefix(row, keys[1..], k - 1);
    }
  }

  function DrawsFor(row: map<Symbol, nat>, keys: seq<Symbol>, b: Symbol): set<nat>
    requires forall c :: c in keys ==> c in row
  {
    set rand: nat | rand < Sum(row, keys) && Pick(row, keys, rand) == Some(b)
  }

  /** Main result: of the draws that randrange can make, exactly as many choose a successor as it was counted. */
  lemma WeightIsCount(row: map<Symbol, nat>, keys: seq<Symbol>, b: Symbol)
    requires Lists(row, keys) && b in row
    ensures |DrawsFor(row, keys, b)| == row[b]
  {
    assert b in keys;
    var k :| 0 <= k < |keys| && keys[k] == b;
    WeightAt(row, keys, k);
  }

  lemma WeightAt(row: map<Symbol, nat>, keys: seq<Symbol>, k: nat)
    requires (forall b :: b in keys ==> b in row) && NoRepeats(keys) && k < |keys|
    ensures keys[k] in row && |DrawsFor(row, keys, keys[k])| == row[keys[k]]
  {
    assert keys[k] in keys;
    var lo := Sum(row, keys[..k]);
    DrawsAreBetween(row, keys, k);
    BetweenSize(lo, lo + row[keys[k]]);
  }

  lemma DrawsAreBetween(row: map<Symbol, nat>, keys: seq<Symbol>, k: nat)
    requires (forall b :: b in keys ==> b in row) && NoRepeats(keys) && k < |keys| && keys[k] in row
    ensures DrawsFor(row, keys, keys[k]) == Between(Sum(row, keys[..k]), Sum(row, keys[..k]) + row[keys[k]])
  {
    var draws, range := DrawsFor(row, keys, keys[k]), Between(Sum(row, keys[..k]), Sum(row, keys[..k]) + row[keys[k]]);
    forall rand: nat ensures rand in draws <==> rand in range { DrawBetween(row, keys, k, rand); }
    assert draws == range;
  }

  lemma DrawBetween(row: map<Symbol, nat>, keys: seq<Symbol>, k: nat, rand: nat)
    requires (forall b :: b in keys ==> b in row) && NoRepeats(keys) && k < |keys|
    ensures keys[k] in row
    ensures rand in DrawsFor(row, keys, keys[k]) <==>
      rand in Between(Sum(row, keys[..k]), Sum(row, keys[..k]) + row[keys[k]])
  {
    SumPrefix(row, keys, k);
    ChosenBetween(row, keys, k, rand);
  }

  // ---------------------------------------------------------------- walking

  /** One order of successors for each state. */
  type Orders = Symbol -> seq<Symbol>

  ghost predicate GoodOrders(counts: Counts, orders: Orders) { forall a :: a in counts ==> Lists(counts[a], orders(a)) }

  /** next: a draw is brought into the range that is asked for; a state never left has no total. */
  ghost function NextState(counts: Counts, orders: Orders, state: Symbol, draw: nat): Result<Symbol>
    requires GoodOrders(counts, orders)
  {
    if state !in counts then Raised("KeyError")
    else
      var total := Sum(counts[state], orders(state));
      if total == 0 then Raised("ValueError")
      else
        NeverFallsThrough(counts[state], orders(state), draw % total);
        Ok(Pick(counts[state], orders(state), draw % total).value)
  }

  /** Where the iterator is after so many draws. */
  ghost function Walk(counts: Counts, orders: Orders, state: Symbol, draws: seq<nat>): Result<Symbol>
    requires GoodOrders(counts, orders)
    decreases |draws|
  {
    if draws == [] then Ok(state)
    else
      var b :- NextState(counts, orders, state, draws[0]);
      Walk(counts, orders, b, draws[1..])
  }

  /** In a chain's own counts, a state that was ever left has a next state for every draw, one that followed it in the
      sample. */
  lemma NextExists(pairs: seq<(Symbol, Symbol)>, orders: Orders, a: Symbol, draw: nat)
    requires GoodOrders(CountsOf(pairs), orders) && a in CountsOf(pairs)
    ensures var r := NextState(CountsOf(pairs), orders, a, draw);
      r.Ok? && exists i :: 0 <= i < |pairs| && pairs[i] == (a, r.value)
  {
    var counts := CountsOf(pairs);
    var keys := orders(a);
    TotalIsDepartures(pairs, a, keys);
    CountsAreOccurrences(pairs, a, a);
    var i: nat :| i < |pairs| && pairs[i].0 == a;
    assert i in Departures(pairs, a);
    var total := Sum(counts[a], keys);
    NeverFallsThrough(counts[a], keys, draw % total);
    var b := NextState(counts, orders, a, draw).value;
    CountsAreOccurrences(pairs, a, b);
    assert |Places(pairs, a, {b})| > 0;
    var j :| j in Places(pairs, a, {b});
    assert pairs[j] == (a, b);
  }

  predicate OccursEarlier(sample: seq<Symbol>) { |sample| > 0 && sample[|sample| - 1] in sample[..|sample| - 1] }

  lemma LeftExactlyWhen(sample: seq<Symbol>, a: Symbol)
    requires sample != []
    ensures a in CountsOf(Pairs(sample)) <==> a in sample[..|sample| - 1]
  {
    CountsAreOccurrences(Pairs(sample), a, a);
    if a in sample[..|sample| - 1] {
      var i :| 0 <= i < |sample| - 1 && sample[..|sample| - 1][i] == a;
      assert Pairs(sample)[i].0 == a;
    }
  }

  lemma {:induction false} WalkGoesOn(sample: seq<Symbol>, orders: Orders, state: Symbol, draws: seq<nat>)
    requires OccursEarlier(sample) && GoodOrders(CountsOf(Pairs(sample)), orders) && state in CountsOf(Pairs(sample))
    ensures Walk(CountsOf(Pairs(sample)), orders, state, draws).Ok?
    decreases |draws|
  {
    if draws != [] {
      var pairs := Pairs(sample);
      NextExists(pairs, orders, state, draws[0]);
      var b := NextState(CountsOf(pairs), orders, state, draws[0]).value;
      var i :| 0 <= i < |pairs| && pairs[i] == (state, b);
      if i + 1 < |sample| - 1 { assert sample[..|sample| - 1][i + 1] == b; }
      LeftExactlyWhen(sample, b);
      WalkGoesOn(sample, orders, b, draws[1..]);
    }
  }

  lemma DrawnIsNext(counts: Counts, orders: Orders, a: Symbol, b: Symbol, draw: nat)
    requires GoodOrders(counts, orders) && a in counts && draw in DrawsFor(counts[a], orders(a), b)
    ensures NextState(counts, orders, a, draw) == Ok(b)
  {
    assert draw % Sum(counts[a], orders(a)) == draw;
  }

  /** Any successor of the sample can be drawn. */
  lemma DrawThatLeads(pairs: seq<(Symbol, Symbol)>, orders: Orders, i: nat) returns (draw: nat)
    requires i < |pairs| && GoodOrders(CountsOf(pairs), orders)
    ensures pairs[i].0 in CountsOf(pairs)
    ensures NextState(CountsOf(pairs), orders, pairs[i].0, draw) == Ok(pairs[i].1)
  {
    var (a, b) := pairs[i];
    var counts := CountsOf(pairs);
    CountsAreOccurrences(pairs, a, b);
    assert i in Places(pairs, a, {b});
    WeightIsCount(counts[a], orders(a), b);
    draw :| draw in DrawsFor(counts[a], orders(a), b);
    DrawnIsNext(counts, orders, a, b, draw);
  }

  /** Somebody who draws the last element and draws again is stuck if the sample never left it. */
  lemma LastIsStuck(sample: seq<Symbol>, orders: Orders) returns (state: Symbol, draws: seq<nat>)
    requires |sample| >= 2 && !OccursEarlier(sample) && GoodOrders(CountsOf(Pairs(sample)), orders)
    ensures state in CountsOf(Pairs(sample)) && Walk(CountsOf(Pairs(sample)), orders, state, draws).Raised?
  {
    var pairs := Pairs(sample);
    var counts := CountsOf(pairs);
    var i := |pairs| - 1;
    var last := sample[|sample| - 1];
    state := sample[|sample| - 2];
    assert pairs[i] == (state, last);
    var draw := DrawThatLeads(pairs, orders, i);
    draws := [draw, 0];
    LeftExactlyWhen(sample, last);
    assert draws[1..] == [0];
  }

  ghost predicate NoWalkGetsStuck(counts: Counts, orders: Orders)
    requires GoodOrders(counts, orders)
  {
    forall state, draws :: state in counts ==> Walk(counts, orders, state, draws).Ok?
  }

  /** Main result: no walk ever gets stuck exactly when the sample's last element also occurs before. */
  lemma NeverStuckExactlyWhen(sample: seq<Symbol>, orders: Orders)
    requires |sample| >= 2 && GoodOrders(CountsOf(Pairs(sample)), orders)
    ensures NoWalkGetsStuck(CountsOf(Pairs(sample)), orders) <==> OccursEarlier(sample)
  {
    var counts := CountsOf(Pairs(sample));
    if OccursEarlier(sample) {
      forall state, draws | state in counts
        ensures Walk(counts, orders, state, draws).Ok?
      {
        WalkGoesOn(sample, orders, state, draws);
      }
    } else {
      var state, draws := LastIsStuck(sample, orders);
    }
  }

  // ---------------------------------------------------------------- the chain object

  /** pairwise: one look back */
  method Pairwise(sample: seq<Symbol>) returns (pairs: seq<(Symbol, Symbol)>)
    ensures pairs == Pairs(sample)
    ensures |pairs| == if sample == [] then 0 else |sample| - 1
    ensures forall k :: 0 <= k < |pairs| ==> pairs[k] == (sample[k], sample[k + 1])
  {
    pairs := [];
    if sample == [] { return; }
    var a := sample[0];
    var i := 1;
    while i < |sample|
      invariant 1 <= i <= |sample| && a == sample[i - 1] && |pairs| == i - 1
      invariant forall k :: 0 <= k < |pairs| ==> pairs[k] == (sample[k], sample[k + 1])
    {
      pairs := pairs + [(a, sample[i])];
      a := sample[i];
      i := i + 1;
    }
  }

  class MarkovChain {
    var counts: Counts
    var totals: map<Symbol, nat>

    constructor (sample: seq<Symbol>)
      ensures counts == CountsOf(Pairs(sample)) && TotalsFit(Pairs(sample), totals)
    {
      counts, totals := map[], map[];
      new;
      var pairs := Pairwise(sample);
      var n := 0;
      while n < |pairs|
        invariant 0 <= n <= |pairs| && counts == CountsOf(pairs[..n]) && totals == map[]
      {
        CountMore(pairs, n);
        counts := Increment(counts, pairs[n].0, pairs[n].1);
        n := n + 1;
      }
      assert pairs[..n] == pairs;
      var todo := counts.Keys;
      while todo != {}
        invariant todo <= counts.Keys && totals.Keys == counts.Keys - todo && counts == CountsOf(pairs)
        invariant EachIsDepartures(pairs, totals)
        decreases |todo|
      {
        var a :| a in todo;
        var total, keys := AddUp(counts[a]);
        OneMoreTotal(pairs, totals, a, keys);
        totals := totals[a := total];
        todo := todo - {a};
      }
    }

    /** sum of a dictionary's values, in some order of its keys */
    static method AddUp(row: map<Symbol, nat>) returns (total: nat, ghost keys: seq<Symbol>)
      ensures Lists(row, keys) && total == Sum(row, keys)
    {
      total, keys := 0, [];
      var todo := row.Keys;
      while todo != {}
        invariant todo <= row.Keys && NoRepeats(keys) && forall b :: b in keys <==> b in row.Keys - todo
        invariant total == Sum(row, keys)
        decreases |todo|
      {
        var b :| b in todo;
        SumMore(row, keys, b);
        assert b !in keys;
        total, keys, todo := total + row[b], keys + [b], todo - {b};
      }
    }

    static lemma {:induction false} SumMore(row: map<Symbol, nat>, keys: seq<Symbol>, b: Symbol)
      requires b in row
      ensures Sum(row, keys + [b]) == Sum(row, keys) + row[b]
      decreases |keys|
    {
      if keys == [] {
        assert keys + [b] == [b];
      } else {
        assert (keys + [b])[0] == keys[0] && (keys + [b])[1..] == keys[1..] + [b];
        SumMore(row, keys[1..], b);
      }
    }

    /** next: looking up an unknown state leaves an empty entry behind before the total is found missing. */
    method Next(state: Symbol, keys: seq<Symbol>, draw: nat) returns (r: Result<Symbol>)
      requires state in counts ==> Lists(counts[state], keys)
      requires state in totals ==> state in counts && totals[state] == Sum(counts[state], keys) && totals[state] > 0
      modifies this
      ensures totals == old(totals)
        && counts == if state in old(counts) then old(counts) else old(counts)[state := map[]]
      ensures r.Ok? <==> state in totals
      ensures r.Ok? ==> Some(r.value) == Pick(counts[state], keys, draw % totals[state])
      ensures r.Raised? ==> r.error == "KeyError"
    {
      if state !in counts { counts := counts[state := map[]]; }
      if state !in totals { return Raised("KeyError"); }
      var row := counts[state];
      var rand := draw % totals[state];
      ghost var drawn := rand;
      NeverFallsThrough(row, keys, drawn);
      var k := 0;
      while k < |keys|
        invariant 0 <= k <= |keys| && rand >= 0 && (forall b :: b in keys[k..] ==> b in row)
        invariant Pick(row, keys, drawn) == Pick(row, keys[k..], rand)
      {
        var nextState := keys[k];
        assert keys[k..][0] == nextState && keys[k..][1..] == keys[k + 1..];
        if rand < row[nextState] { return Ok(nextState); }
        rand := rand - row[nextState];
        k := k + 1;
      }
      assert false;
      r := Raised("None");
    }
  }
}
