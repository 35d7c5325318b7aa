/** What an export followed by an import gives back. */
module EnmasseRoundTrip {
  import opened Commons
  import opened Enmasse

  // ---------------------------------------------------------------- splitting by kind

  ghost predicate Distinct(kinds: seq<Kind>)
  {
    forall i, j :: 0 <= i < j < |kinds| ==> kinds[i].itemType != kinds[j].itemType
  }

  function OfKind(k: Kind): Item -> Option<Item> { (x: Item) => if IsOf(x, k) then Some(x) else None }

  /** What the loop over the kinds looks at. */
  predicate Readable(item: Item, kinds: seq<Kind>) {
    kinds == [] || ("connection" in item &&
      forall k :: 0 <= k < |kinds| && item["connection"] == Text(kinds[k].connection) ==> "transport" in item)
  }

  lemma {:induction false} KindNamedFinds(t: string, kinds: seq<Kind>)
    ensures KindNamed(t, kinds).None? <==> forall k :: 0 <= k < |kinds| ==> kinds[k].itemType != t
    ensures KindNamed(t, kinds).Some? ==> KindNamed(t, kinds).value in kinds && KindNamed(t, kinds).value.itemType == t
    decreases |kinds|
  {
    if kinds != [] {
      KindNamedFinds(t, kinds[1..]);
      assert kinds == [kinds[0]] + kinds[1..];
    }
  }

  function KindPart(t: string, kinds: seq<Kind>, item: Item): seq<Item> {
    match KindNamed(t, kinds)
    case Some(k) => if IsOf(item, k) then [item] else []
    case None => []
  }

  lemma {:induction false} PutByKindAdds(d: Document, item: Item, kinds: seq<Kind>, t: string)
    requires Distinct(kinds)
    ensures PutByKind(d, item, kinds).Ok? <==> Readable(item, kinds)
    ensures PutByKind(d, item, kinds).Ok? ==>
      ItemsOf(PutByKind(d, item, kinds).value, t) == ItemsOf(d, t) + KindPart(t, kinds, item)
      && (t in PutByKind(d, item, kinds).value ==> t in d || KindNamed(t, kinds).Some?)
    decreases |kinds|
  {
    if kinds != [] {
      var d1 := if IsOf(item, kinds[0]) then Append(d, kinds[0].itemType, item) else d;
      PutByKindAdds(d1, item, kinds[1..], t);
      assert kinds == [kinds[0]] + kinds[1..];
      if t == kinds[0].itemType {
        KindNamedFinds(t, kinds[1..]);
        assert forall k :: 0 <= k < |kinds[1..]| ==> kinds[1..][k] == kinds[k + 1];
      }
    }
  }

  lemma KindsDistinct()
    ensures Distinct(KINDS)
  {
    assert |"channel_soap"| == 12 && |"channel_plain_http"| == 18 && |"outconn_soap"| == 12;
    assert "channel_soap"[0] != "outconn_soap"[0] && "channel_plain_http"[0] != "outconn_plain_http"[0];
  }

  function KindGather(t: string, items: seq<Item>): seq<Item> {
    match KindNamed(t, KINDS)
    case Some(k) => Gather(items, OfKind(k))
    case None => []
  }

  lemma KindGatherCons(t: string, items: seq<Item>, before: seq<Item>)
    requires items != []
    ensures before + KindPart(t, KINDS, items[0]) + KindGather(t, items[1..]) == before + KindGather(t, items)
  {
    assert KindGather(t, items) == KindPart(t, KINDS, items[0]) + KindGather(t, items[1..]);
  }

  lemma SplitStep(d: Document, items: seq<Item>, t: string)
    requires items != []
    ensures PutByKind(d, items[0], KINDS).Ok? <==> Readable(items[0], KINDS)
    ensures PutByKind(d, items[0], KINDS).Ok? ==>
      var d1 := PutByKind(d, items[0], KINDS).value;
      && ItemsOf(d1, t) + KindGather(t, items[1..]) == ItemsOf(d, t) + KindGather(t, items)
      && (t in d1 ==> t in d || KindNamed(t, KINDS).Some?)
  {
    KindsDistinct();
    PutByKindAdds(d, items[0], KINDS, t);
    KindGatherCons(t, items, ItemsOf(d, t));
  }

  lemma {:induction false} SplitAdds(d: Document, items: seq<Item>, t: string)
    ensures SplitHttpSoap(d, items).Ok? <==> forall k :: 0 <= k < |items| ==> Readable(items[k], KINDS)
    ensures SplitHttpSoap(d, items).Ok? ==>
      ItemsOf(SplitHttpSoap(d, items).value, t) == ItemsOf(d, t) + KindGather(t, items)
      && (t in SplitHttpSoap(d, items).value ==> t in d || KindNamed(t, KINDS).Some?)
    decreases |items|
  {
    if items != [] {
      assert items == [items[0]] + items[1..];
      SplitStep(d, items, t);
      var r := PutByKind(d, items[0], KINDS);
      if r.Ok? { SplitAdds(r.value, items[1..], t); }
    }
  }

  function HttpItems(connection: string, transport: string): Item -> Option<Item> {
    (x: Item) =>
      if "connection" in x && x["connection"] == Text(connection)
         && "transport" in x && x["transport"] == Text(transport)
      then Some(x) else None
  }

  lemma KindsByName()
    ensures KindNamed("channel_soap", KINDS) == Some(Kind("channel_soap", "channel", "soap"))
    ensures KindNamed("channel_plain_http", KINDS) == Some(Kind("channel_plain_http", "channel", "plain_http"))
    ensures KindNamed("outconn_soap", KINDS) == Some(Kind("outconn_soap", "outgoing", "soap"))
    ensures KindNamed("outconn_plain_http", KINDS) == Some(Kind("outconn_plain_http", "outgoing", "plain_http"))
  {
    KindsDistinct();
    KindAt(KINDS, 0);
    KindAt(KINDS, 1);
    KindAt(KINDS, 2);
    KindAt(KINDS, 3);
  }

  lemma {:induction false} KindAt(kinds: seq<Kind>, k: nat)
    requires Distinct(kinds) && k < |kinds|
    ensures KindNamed(kinds[k].itemType, kinds) == Some(kinds[k])
    decreases |kinds|
  {
    if k > 0 {
      assert kinds[0].itemType != kinds[k].itemType && kinds[1..][k - 1] == kinds[k];
      KindAt(kinds[1..], k - 1);
    }
  }

  /** The four lists by name: channels and outgoing connections, SOAP and plain HTTP. */
  lemma SplitByName(d: Document, items: seq<Item>)
    requires SplitHttpSoap(d, items).Ok?
    ensures var r := SplitHttpSoap(d, items).value;
      && ItemsOf(r, "channel_soap") == ItemsOf(d, "channel_soap") + Gather(items, HttpItems("channel", "soap"))
      && ItemsOf(r, "channel_plain_http")
        == ItemsOf(d, "channel_plain_http") + Gather(items, HttpItems("channel", "plain_http"))
      && ItemsOf(r, "outconn_soap") == ItemsOf(d, "outconn_soap") + Gather(items, HttpItems("outgoing", "soap"))
      && ItemsOf(r, "outconn_plain_http")
        == ItemsOf(d, "outconn_plain_http") + Gather(items, HttpItems("outgoing", "plain_http"))
  {
    KindsByName();
    SplitOne(d, items, "channel_soap", "channel", "soap");
    SplitOne(d, items, "channel_plain_http", "channel", "plain_http");
    SplitOne(d, items, "outconn_soap", "outgoing", "soap");
    SplitOne(d, items, "outconn_plain_http", "outgoing", "plain_http");
  }

  lemma SplitOne(d: Document, items: seq<Item>, t: string, connection: string, transport: string)
    requires SplitHttpSoap(d, items).Ok? && KindNamed(t, KINDS) == Some(Kind(t, connection, transport))
    ensures ItemsOf(SplitHttpSoap(d, items).value, t) == ItemsOf(d, t) + Gather(items, HttpItems(connection, transport))
  {
    SplitAdds(d, items, t);
    GatherSame(items, OfKind(Kind(t, connection, transport)), HttpItems(connection, transport));
  }

  // ---------------------------------------------------------------- wrapping security definitions

  function Tagged(d: Document, services: seq<Service>): seq<Item>
    decreases |services|
  {
    if services == [] then []
    else if !services[0].isSecurity then Tagged(d, services[1..])
    else Tag(ItemsOf(d, services[0].name), services[0].name) + Tagged(d - {services[0].name}, services[1..])
  }

  lemma TaggedIgnoresDefSec(d: Document, v: seq<Item>, services: seq<Service>)
    requires !IsSecurity(services, DEF_SEC)
    ensures Tagged(d[DEF_SEC := v], services) == Tagged(d, services)
    decreases |services|
  {
    if services != [] {
      assert services == [services[0]] + services[1..];
      if services[0].isSecurity {
        assert services[0].name != DEF_SEC;
        assert d[DEF_SEC := v] - {services[0].name} == (d - {services[0].name})[DEF_SEC := v];
        TaggedIgnoresDefSec(d - {services[0].name}, v, services[1..]);
      } else {
        TaggedIgnoresDefSec(d, v, services[1..]);
      }
    }
  }

  lemma IsSecurityCons(services: seq<Service>, t: string)
    requires services != []
    ensures IsSecurity(services, t) <==>
      (services[0].isSecurity && services[0].name == t) || IsSecurity(services[1..], t)
  {
    assert services == [services[0]] + services[1..];
  }

  lemma TaggedCons(d: Document, services: seq<Service>, before: seq<Item>)
    requires services != [] && services[0].isSecurity
    ensures var name := services[0].name;
      before + Tag(ItemsOf(d, name), name) + Tagged(d - {name}, services[1..]) == before + Tagged(d, services)
  {
  }

  lemma {:induction false} WrapMoves(d: Document, services: seq<Service>, t: string)
    requires !IsSecurity(services, DEF_SEC) && DEF_SEC in d
    ensures var w := WrapSecurity(d, services);
      ItemsOf(w, t) ==
        if t == DEF_SEC then ItemsOf(d, DEF_SEC) + Tagged(d, services)
        else if IsSecurity(services, t) then []
        else ItemsOf(d, t)
    ensures t in WrapSecurity(d, services) <==> t in d && !IsSecurity(services, t)
    decreases |services|
  {
    if services != [] {
      IsSecurityCons(services, t);
      IsSecurityCons(services, DEF_SEC);
      if services[0].isSecurity {
        var name := services[0].name;
        var v := ItemsOf(d, DEF_SEC) + Tag(ItemsOf(d, name), name);
        var d1 := d[DEF_SEC := v] - {name};
        assert d1 == (d - {name})[DEF_SEC := v];
        WrapMoves(d1, services[1..], t);
        TaggedIgnoresDefSec(d - {name}, v, services[1..]);
        TaggedCons(d, services, ItemsOf(d, DEF_SEC));
      } else {
        WrapMoves(d, services[1..], t);
      }
    }
  }

  // ---------------------------------------------------------------- what each list contributes when it is read

  function Fix(x: Item, k: Kind): Item { x["connection" := Text(k.connection)]["transport" := Text(k.transport)] }

  /** What an item listed under `key` adds to the list of t. */
  function Part(services: seq<Service>, key: string, t: string, x: Item): Option<Item> {
    match KindNamed(key, KINDS)
    case Some(k) => if t == HTTP_SOAP then Some(Normalize(Fix(x, k))) else None
    case None =>
      var y := Normalize(x);
      if key != DEF_SEC then if t == key then Some(y) else None
      else if TYPE in y && y[TYPE] == Text(t) && IsSecurity(services, t) then Some(y - {TYPE})
      else None
  }

  function Parts(services: seq<Service>, key: string, t: string): Item -> Option<Item>
  {
    (x: Item) => Part(services, key, t, x)
  }

  predicate Accepted(services: seq<Service>, key: string, x: Item) {
    KindNamed(key, KINDS).Some? || key != DEF_SEC
    || (var y := Normalize(x); TYPE in y && y[TYPE].Text? && IsSecurity(services, y[TYPE].text))
  }

  lemma ParseItemAdds(p: Parsed, services: seq<Service>, key: string, x: Item, t: string)
    ensures ItemsOf(ParseItem(p, services, key, x).json, t) ==
      ItemsOf(p.json, t) + match Part(services, key, t, x) case Some(y) => [y] case None => []
    ensures ParseItem(p, services, key, x).errors == p.errors + if Accepted(services, key, x) then 0 else 1
  {
  }

  lemma {:induction false} ParseListAdds(p: Parsed, services: seq<Service>, key: string, items: seq<Item>, t: string)
    ensures ItemsOf(ParseList(p, services, key, items).json, t)
      == ItemsOf(p.json, t) + Gather(items, Parts(services, key, t))
    ensures (forall x :: x in items ==> Accepted(services, key, x)) ==>
      ParseList(p, services, key, items).errors == p.errors
    decreases |items|
  {
    if items != [] {
      ParseItemAdds(p, services, key, items[0], t);
      ParseListAdds(ParseItem(p, services, key, items[0]), services, key, items[1..], t);
    }
  }

  predicate Known(services: seq<Service>, key: string) { IsService(services, key) || IsKind(key) }

  function Contribution(services: seq<Service>, d: Document, key: string, t: string): seq<Item>
    requires key in d
  {
    Gather(d[key], Parts(services, key, t))
  }

  function Collected(services: seq<Service>, d: Document, keys: seq<string>, t: string): seq<Item>
    requires forall k :: 0 <= k < |keys| ==> keys[k] in d
  {
    if keys == [] then [] else Contribution(services, d, keys[0], t) + Collected(services, d, keys[1..], t)
  }

  predicate AcceptedList(services: seq<Service>, d: Document, key: string) {
    key in d && Known(services, key) && forall x :: x in d[key] ==> Accepted(services, key, x)
  }

  predicate AllAccepted(services: seq<Service>, d: Document, keys: seq<string>) {
    forall k :: 0 <= k < |keys| ==> AcceptedList(services, d, keys[k])
  }

  lemma AcceptedTail(services: seq<Service>, d: Document, keys: seq<string>)
    requires keys != [] && AllAccepted(services, d, keys)
    ensures AcceptedList(services, d, keys[0]) && AllAccepted(services, d, keys[1..])
  {
    assert forall k :: 0 <= k < |keys[1..]| ==> keys[1..][k] == keys[k + 1];
  }

  lemma ParseTypeAdds(p: Parsed, services: seq<Service>, d: Document, key: string, t: string)
    requires AcceptedList(services, d, key)
    ensures var q := ParseType(p, services, key, d[key]);
      ItemsOf(q.json, t) == ItemsOf(p.json, t) + Contribution(services, d, key, t) && q.errors == p.errors
  {
    ParseListAdds(p, services, key, d[key], t);
  }

  lemma CollectedCons(services: seq<Service>, d: Document, keys: seq<string>, t: string, before: seq<Item>)
    requires keys != [] && forall k :: 0 <= k < |keys| ==> keys[k] in d
    ensures forall k :: 0 <= k < |keys[1..]| ==> keys[1..][k] in d
    ensures before + Contribution(services, d, keys[0], t) + Collected(services, d, keys[1..], t)
      == before + Collected(services, d, keys, t)
  {
    assert forall k :: 0 <= k < |keys[1..]| ==> keys[1..][k] == keys[k + 1];
  }

  lemma {:induction false} ParseAllAdds(p: Parsed, services: seq<Service>, d: Document, keys: seq<string>, t: string)
    requires AllAccepted(services, d, keys)
    ensures forall k :: 0 <= k < |keys| ==> keys[k] in d
    ensures ItemsOf(ParseAll(p, services, d, keys).json, t) == ItemsOf(p.json, t) + Collected(services, d, keys, t)
    ensures ParseAll(p, services, d, keys).errors == p.errors
    decreases |keys|
  {
    assert forall k :: 0 <= k < |keys| ==> AcceptedList(services, d, keys[k]) && keys[k] in d;
    if keys != [] {
      AcceptedTail(services, d, keys);
      ParseTypeAdds(p, services, d, keys[0], t);
      CollectedCons(services, d, keys, t, ItemsOf(p.json, t));
      ParseAllAdds(ParseType(p, services, keys[0], d[keys[0]]), services, d, keys[1..], t);
    }
  }

  lemma {:induction false} ListComplaints(p: Parsed, services: seq<Service>, key: string, items: seq<Item>)
    ensures ParseList(p, services, key, items).errors >= p.errors
    ensures ParseList(p, services, key, items).errors == p.errors <==>
      forall x :: x in items ==> Accepted(services, key, x)
    decreases |items|
  {
    if items != [] {
      ParseItemAdds(p, services, key, items[0], HTTP_SOAP);
      ListComplaints(ParseItem(p, services, key, items[0]), services, key, items[1..]);
      assert items == [items[0]] + items[1..];
    }
  }

  /** The parser has nothing to complain of exactly when every type is a service's or one of the four, and every wrapped
      security definition names a security service. */
  lemma {:induction false} NoComplaintsExactlyWhen(p: Parsed, services: seq<Service>, d: Document, keys: seq<string>)
    requires forall k :: 0 <= k < |keys| ==> keys[k] in d
    ensures ParseAll(p, services, d, keys).errors >= p.errors
    ensures ParseAll(p, services, d, keys).errors == p.errors <==> AllAccepted(services, d, keys)
    decreases |keys|
  {
    if keys != [] {
      ListComplaints(p, services, keys[0], d[keys[0]]);
      NoComplaintsExactlyWhen(ParseType(p, services, keys[0], d[keys[0]]), services, d, keys[1..]);
      AcceptedCons(services, d, keys);
    }
  }

  lemma AcceptedCons(services: seq<Service>, d: Document, keys: seq<string>)
    requires keys != []
    ensures AllAccepted(services, d, keys) <==>
      AcceptedList(services, d, keys[0]) && AllAccepted(services, d, keys[1..])
  {
    assert keys == [keys[0]] + keys[1..];
  }

  // ---------------------------------------------------------------- collecting does not depend on the order of keys

  ghost predicate NoRepeats(keys: seq<string>) { forall i, j :: 0 <= i < j < |keys| ==> keys[i] != keys[j] }

  function Without(keys: seq<string>, key: string): seq<string> {
    if keys == [] then [] else (if keys[0] == key then [] else [keys[0]]) + Without(keys[1..], key)
  }

  lemma {:induction false} WithoutFacts(keys: seq<string>, key: string)
    ensures forall k :: k in Without(keys, key) <==> k in keys && k != key
    ensures NoRepeats(keys) ==> NoRepeats(Without(keys, key))
    ensures key !in keys ==> Without(keys, key) == keys
    decreases |keys|
  {
    if keys != [] {
      assert keys == [keys[0]] + keys[1..];
      WithoutFacts(keys[1..], key);
      if NoRepeats(keys) {
        assert keys[0] !in keys[1..];
        assert forall i, j :: 0 <= i < j < |keys[1..]| ==> keys[1..][i] != keys[1..][j];
      }
    }
  }

  /** One list's contribution can be counted on its own. */
  lemma {:induction false} TakeOut(services: seq<Service>, d: Document, keys: seq<string>, key: string, t: string)
    requires (forall k :: k in keys ==> k in d) && NoRepeats(keys)
    ensures forall k :: k in Without(keys, key) ==> k in d
    ensures multiset(Collected(services, d, keys, t)) ==
      multiset(if key in keys then Contribution(services, d, key, t) else [])
      + multiset(Collected(services, d, Without(keys, key), t))
    decreases |keys|
  {
    WithoutFacts(keys, key);
    if keys != [] {
      assert keys == [keys[0]] + keys[1..];
      assert forall i, j :: 0 <= i < j < |keys[1..]| ==> keys[1..][i] != keys[1..][j];
      TakeOut(services, d, keys[1..], key, t);
      if keys[0] == key {
        assert key !in keys[1..];
        WithoutFacts(keys[1..], key);
        assert Without(keys, key) == keys[1..];
      } else {
        assert Without(keys, key)[0] == keys[0] && Without(keys, key)[1..] == Without(keys[1..], key);
      }
    }
  }

  lemma {:induction false} NothingCollected(services: seq<Service>, d: Document, keys: seq<string>, t: string)
    requires forall k :: k in keys ==> k in d && Contribution(services, d, k, t) == []
    ensures Collected(services, d, keys, t) == []
    decreases |keys|
  {
    if keys != [] {
      assert keys == [keys[0]] + keys[1..];
      NothingCollected(services, d, keys[1..], t);
    }
  }

  lemma {:induction false} GatherNothing(items: seq<Item>, f: Item -> Option<Item>)
    requires forall x :: x in items ==> f(x) == None
    ensures Gather(items, f) == []
    decreases |items|
  {
    if items != [] {
      assert items[0] in items;
      GatherNothing(items[1..], f);
    }
  }

  // ---------------------------------------------------------------- what is written

  lemma NamesDiffer()
    ensures KindNamed(HTTP_SOAP, KINDS).None? && KindNamed(DEF_SEC, KINDS).None? && HTTP_SOAP != DEF_SEC
  {
    assert |HTTP_SOAP| == 9 && |DEF_SEC| == 7;
    assert forall k :: 0 <= k < |KINDS| ==> |KINDS[k].itemType| >= 12;
    KindNamedFinds(HTTP_SOAP, KINDS);
    KindNamedFinds(DEF_SEC, KINDS);
  }

  /** The list of services: the wrapped list is one of them, but neither it nor the HTTP objects are security
      definitions, and the names of the kinds are no service names. */
  ghost predicate GoodServices(services: seq<Service>) {
    && IsService(services, DEF_SEC) && !IsSecurity(services, DEF_SEC) && !IsSecurity(services, HTTP_SOAP)
    && forall t :: KindNamed(t, KINDS).Some? ==> !IsService(services, t)
  }

  ghost predicate GoodJson(json: Document, services: seq<Service>) { forall t :: t in json ==> IsService(services, t) }

  function SplitOf(json: Document): Document
    requires SplitHttpSoap(json - {HTTP_SOAP}, ItemsOf(json, HTTP_SOAP)).Ok?
  {
    SplitHttpSoap(json - {HTTP_SOAP}, ItemsOf(json, HTTP_SOAP)).value
  }

  lemma SecurityIsService(services: seq<Service>, t: string)
    ensures IsSecurity(services, t) ==> IsService(services, t)
  {
  }

  lemma WrittenTypes(json: Document, services: seq<Service>, t: string)
    requires GoodServices(services) && GoodJson(json, services) && Regrouped(json, services).Ok?
    ensures var w := Regrouped(json, services).value;
      && (t in w ==>
        t == DEF_SEC || KindNamed(t, KINDS).Some? || (t in json && t != HTTP_SOAP && !IsSecurity(services, t)))
      && DEF_SEC in w
  {
    var d := SplitOf(json);
    SplitAdds(json - {HTTP_SOAP}, ItemsOf(json, HTTP_SOAP), t);
    WrapMoves(d[DEF_SEC := []], services, t);
    WrapMoves(d[DEF_SEC := []], services, DEF_SEC);
  }

  /** Each list before it is normalized and sorted. */
  lemma WrittenItems(json: Document, services: seq<Service>, t: string)
    requires GoodServices(services) && GoodJson(json, services) && Regrouped(json, services).Ok?
    ensures var w := Regrouped(json, services).value;
      && ItemsOf(w, t) == (
          if t == DEF_SEC then Tagged(SplitOf(json), services)
          else if IsSecurity(services, t) || t == HTTP_SOAP then []
          else match KindNamed(t, KINDS)
            case Some(k) => Gather(ItemsOf(json, HTTP_SOAP), OfKind(k))
            case None => ItemsOf(json, t))
      && (t in w ==>
        t == DEF_SEC || KindNamed(t, KINDS).Some? || (t in json && t != HTTP_SOAP && !IsSecurity(services, t)))
      && DEF_SEC in w
  {
    WrittenTypes(json, services, t);
    var items := ItemsOf(json, HTTP_SOAP);
    var d := SplitOf(json);
    NamesDiffer();
    SecurityIsService(services, t);
    SplitAdds(json - {HTTP_SOAP}, items, t);
    WrapMoves(d[DEF_SEC := []], services, t);
    TaggedIgnoresDefSec(d, [], services);
    assert [] + Tagged(d, services) == Tagged(d, services);
    assert [] + KindGather(t, items) == KindGather(t, items);
    assert ItemsOf(d, t) + [] == ItemsOf(d, t);
  }

  lemma SplitKeepsOthers(json: Document, t: string)
    requires SplitHttpSoap(json - {HTTP_SOAP}, ItemsOf(json, HTTP_SOAP)).Ok?
    requires KindNamed(t, KINDS).None? && t != HTTP_SOAP
    ensures ItemsOf(SplitOf(json), t) == ItemsOf(json, t)
  {
    SplitAdds(json - {HTTP_SOAP}, ItemsOf(json, HTTP_SOAP), t);
    assert ItemsOf(json, t) + [] == ItemsOf(json, t);
  }

  lemma OutputItems(json: Document, services: seq<Service>, order: Order, t: string)
    requires Output(json, services, order).Ok?
    ensures var w, o := Regrouped(json, services).value, Output(json, services, order).value;
      (t in o <==> t in w) && multiset(ItemsOf(o, t)) == multiset(NormalizeAll(ItemsOf(w, t)))
  {
  }

  // ---------------------------------------------------------------- what comes back

  function NormalizedPart(services: seq<Service>, key: string, t: string): Item -> Option<Item> {
    (x: Item) => Part(services, key, t, Normalize(x))
  }

  /** Sorting aside, a written list contributes what its items contribute once normalized. */
  lemma WrittenContribution(json: Document, services: seq<Service>, order: Order, key: string, t: string)
    requires Output(json, services, order).Ok? && key in Output(json, services, order).value
    ensures multiset(Contribution(services, Output(json, services, order).value, key, t)) ==
      multiset(Gather(ItemsOf(Regrouped(json, services).value, key), NormalizedPart(services, key, t)))
  {
    var w, o := Regrouped(json, services).value, Output(json, services, order).value;
    OutputItems(json, services, order, key);
    GatherPermuted(o[key], NormalizeAll(w[key]), Parts(services, key, t));
    NormalizeAllGathers(w[key]);
    GatherTwice(w[key], NORMALIZING, Parts(services, key, t), NormalizedPart(services, key, t));
  }

  const STRIPPING: Item -> Option<Item> := (x: Item) => Some(Normalize(x) - {TYPE})
  const KNOWN_ONLY: Item -> Option<Item> := NormalOfSome(KINDS)
  const NOTHING: Item -> Option<Item> := (x: Item) => None

  predicate OfSome(x: Item, kinds: seq<Kind>) { exists k :: 0 <= k < |kinds| && IsOf(x, kinds[k]) }

  function NormalOfSome(kinds: seq<Kind>): Item -> Option<Item>
  {
    (x: Item) => if OfSome(x, kinds) then Some(Normalize(x)) else None
  }

  predicate KnownKind(x: Item) { OfSome(x, KINDS) }

  /** What an export and an import make of the list of type t: HTTP objects of no known kind are gone, a security
      definition has lost its own type key, and whatever was listed as wrapped before is gone. */
  function Returned(json: Document, services: seq<Service>, t: string): seq<Item> {
    if t == HTTP_SOAP then Gather(ItemsOf(json, t), KNOWN_ONLY)
    else if t == DEF_SEC then []
    else if IsSecurity(services, t) then Gather(ItemsOf(json, t), STRIPPING)
    else NormalizeAll(ItemsOf(json, t))
  }

  ghost predicate Lists(o: Document, keys: seq<string>) { NoRepeats(keys) && forall t :: t in keys <==> t in o }

  lemma OnlyOne(services: seq<Service>, o: Document, keys: seq<string>, key: string, t: string)
    requires Lists(o, keys) && forall k :: k in o && k != key ==> Contribution(services, o, k, t) == []
    ensures multiset(Collected(services, o, keys, t))
      == multiset(if key in o then Contribution(services, o, key, t) else [])
  {
    TakeOut(services, o, keys, key, t);
    WithoutFacts(keys, key);
    NothingCollected(services, o, Without(keys, key), t);
  }

  lemma NoPart(services: seq<Service>, o: Document, key: string, t: string)
    requires key in o && t != HTTP_SOAP && (key == DEF_SEC ==> !IsSecurity(services, t))
    requires KindNamed(key, KINDS).None? ==> key == DEF_SEC || key != t
    ensures Contribution(services, o, key, t) == []
  {
    GatherNothing(o[key], Parts(services, key, t));
  }

  lemma OwnPart(services: seq<Service>, t: string, items: seq<Item>)
    requires KindNamed(t, KINDS).None? && t != DEF_SEC
    ensures Gather(items, NormalizedPart(services, t, t)) == NormalizeAll(items)
  {
    forall x ensures Normalize(Normalize(x)) == Normalize(x) { NormalizeFacts(x, Text("")); }
    NormalizeAllGathers(items);
    GatherSame(items, NormalizedPart(services, t, t), NORMALIZING);
  }

  lemma OrdinaryReturned(json: Document, services: seq<Service>, t: string)
    requires GoodServices(services) && GoodJson(json, services) && t != HTTP_SOAP && !IsSecurity(services, t)
    requires t == DEF_SEC || KindNamed(t, KINDS).Some?
    ensures Returned(json, services, t) == []
  {
    if t != DEF_SEC { assert t !in json; }
  }

  /** Types that are neither split nor wrapped. */
  lemma OrdinaryReturns(json: Document, services: seq<Service>, order: Order, keys: seq<string>, t: string)
    requires GoodServices(services) && GoodJson(json, services) && Output(json, services, order).Ok?
    requires Lists(Output(json, services, order).value, keys)
    requires t != HTTP_SOAP && !IsSecurity(services, t)
    ensures multiset(Collected(services, Output(json, services, order).value, keys, t))
      == multiset(Returned(json, services, t))
  {
    var w, o := Regrouped(json, services).value, Output(json, services, order).value;
    NamesDiffer();
    forall k | k in o && k != t ensures Contribution(services, o, k, t) == [] { NoPart(services, o, k, t); }
    OnlyOne(services, o, keys, t, t);
    OutputItems(json, services, order, t);
    if t == DEF_SEC || KindNamed(t, KINDS).Some? {
      if t in o { NoPart(services, o, t, t); }
      OrdinaryReturned(json, services, t);
    } else {
      WrittenItems(json, services, t);
      assert ItemsOf(w, t) == ItemsOf(json, t);
      if t in o {
        WrittenContribution(json, services, order, t, t);
        OwnPart(services, t, ItemsOf(json, t));
      }
    }
  }

  // ---------------------------------------------------------------- security definitions

  function Untagged(t: string): Item -> Option<Item> {
    (x: Item) => if TYPE in x && x[TYPE] == Text(t) then Some(Normalize(x) - {TYPE}) else None
  }

  lemma UntagOne(items: seq<Item>, name: string, t: string)
    ensures Gather(Tag(items, name), Untagged(t)) == if name == t then Gather(items, STRIPPING) else []
  {
    TagGathers(items, name);
    forall x
      ensures Normalize(x[TYPE := Text(name)]) - {TYPE} == Normalize(x) - {TYPE}
    {
      NormalizeFacts(x, Text(name));
    }
    if name == t {
      GatherTwice(items, Tagging(name), Untagged(t), STRIPPING);
    } else {
      GatherTwice(items, Tagging(name), Untagged(t), NOTHING);
      GatherNothing(items, NOTHING);
    }
  }

  lemma StripRest(d: Document, name: string, t: string)
    ensures Gather(ItemsOf(d - {name}, t), STRIPPING) == if name == t then [] else Gather(ItemsOf(d, t), STRIPPING)
  {
  }

  /** Unwrapping gives every service its own definitions. */
  lemma UntagFirst(d: Document, name: string, more: seq<Item>, t: string)
    ensures Gather(Tag(ItemsOf(d, name), name) + more, Untagged(t)) ==
      (if name == t then Gather(ItemsOf(d, t), STRIPPING) else []) + Gather(more, Untagged(t))
  {
    UntagOne(ItemsOf(d, name), name, t);
    GatherAppend(Tag(ItemsOf(d, name), name), more, Untagged(t));
  }

  lemma {:induction false} UntagAll(d: Document, services: seq<Service>, t: string)
    ensures Gather(Tagged(d, services), Untagged(t)) ==
      if IsSecurity(services, t) then Gather(ItemsOf(d, t), STRIPPING) else []
    decreases |services|
  {
    if services != [] {
      IsSecurityCons(services, t);
      if services[0].isSecurity {
        var name := services[0].name;
        UntagAll(d - {name}, services[1..], t);
        StripRest(d, name, t);
        UntagFirst(d, name, Tagged(d - {name}, services[1..]), t);
      } else {
        UntagAll(d, services[1..], t);
      }
    }
  }

  lemma SecurityReturns(json: Document, services: seq<Service>, order: Order, keys: seq<string>, t: string)
    requires GoodServices(services) && GoodJson(json, services) && Output(json, services, order).Ok?
    requires Lists(Output(json, services, order).value, keys)
    requires IsSecurity(services, t)
    ensures multiset(Collected(services, Output(json, services, order).value, keys, t))
      == multiset(Returned(json, services, t))
  {
    var o := Output(json, services, order).value;
    NamesDiffer();
    SecurityIsService(services, t);
    forall k | k in o && k != DEF_SEC ensures Contribution(services, o, k, t) == [] {
      WrittenItems(json, services, k);
      OutputItems(json, services, order, k);
      NoPart(services, o, k, t);
    }
    OnlyOne(services, o, keys, DEF_SEC, t);
    WrittenItems(json, services, DEF_SEC);
    OutputItems(json, services, order, DEF_SEC);
    WrittenContribution(json, services, order, DEF_SEC, t);
    SecurityUnwrapped(json, services, t);
  }

  lemma UntaggedIsPart(services: seq<Service>, t: string, x: Item)
    requires IsSecurity(services, t) && KindNamed(DEF_SEC, KINDS).None?
    ensures NormalizedPart(services, DEF_SEC, t)(x) == Untagged(t)(x)
  {
    NormalizeFacts(x, Text(""));
  }

  lemma SecurityUnwrapped(json: Document, services: seq<Service>, t: string)
    requires GoodServices(services) && GoodJson(json, services) && Regrouped(json, services).Ok?
      && IsSecurity(services, t)
    ensures Gather(Tagged(SplitOf(json), services), NormalizedPart(services, DEF_SEC, t)) == Returned(json, services, t)
  {
    NamesDiffer();
    SecurityIsService(services, t);
    var d := SplitOf(json);
    forall x: Item ensures NormalizedPart(services, DEF_SEC, t)(x) == Untagged(t)(x) { UntaggedIsPart(services, t, x); }
    GatherSame(Tagged(d, services), NormalizedPart(services, DEF_SEC, t), Untagged(t));
    UntagAll(d, services, t);
    SplitKeepsOthers(json, t);
  }

  // ---------------------------------------------------------------- HTTP objects

  function NormalOfKind(k: Kind): Item -> Option<Item> { (x: Item) => if IsOf(x, k) then Some(Normalize(x)) else None }

  /** No item is of two kinds. */
  ghost predicate Exclusive(kinds: seq<Kind>) {
    forall i, j :: 0 <= i < j < |kinds| ==>
      kinds[i].connection != kinds[j].connection || kinds[i].transport != kinds[j].transport
  }

  lemma KindsExclusive()
    ensures Exclusive(KINDS)
  {
    assert "channel"[0] != "outgoing"[0] && "soap"[0] != "plain_http"[0];
  }

  lemma {:induction false} GatherEither(items: seq<Item>, f: Item -> Option<Item>, g: Item -> Option<Item>,
                                        h: Item -> Option<Item>)
    requires forall x :: x in items ==> (f(x) == None || g(x) == None) && h(x) == if f(x).Some? then f(x) else g(x)
    ensures multiset(Gather(items, f)) + multiset(Gather(items, g)) == multiset(Gather(items, h))
    decreases |items|
  {
    if items != [] {
      assert items[0] in items;
      GatherEither(items[1..], f, g, h);
    }
  }

  /** What remains of the keys after those of the kinds are taken out. */
  function Rest(keys: seq<string>, kinds: seq<Kind>): seq<string>
    decreases |kinds|
  {
    if kinds == [] then keys else Rest(Without(keys, kinds[0].itemType), kinds[1..])
  }

  function Share(services: seq<Service>, o: Document, k: Kind): seq<Item> {
    if k.itemType in o then Contribution(services, o, k.itemType, HTTP_SOAP) else []
  }

  lemma KindShare(json: Document, services: seq<Service>, order: Order, k: Kind)
    requires GoodServices(services) && GoodJson(json, services) && Output(json, services, order).Ok?
    requires KindNamed(k.itemType, KINDS) == Some(k)
    ensures multiset(Share(services, Output(json, services, order).value, k))
      == multiset(Gather(ItemsOf(json, HTTP_SOAP), NormalOfKind(k)))
  {
    var w, o := Regrouped(json, services).value, Output(json, services, order).value;
    var items := ItemsOf(json, HTTP_SOAP);
    NamesDiffer();
    SecurityIsService(services, k.itemType);
    WrittenItems(json, services, k.itemType);
    OutputItems(json, services, order, k.itemType);
    assert ItemsOf(w, k.itemType) == Gather(items, OfKind(k));
    forall x | IsOf(x, k)
      ensures NormalizedPart(services, k.itemType, HTTP_SOAP)(x) == Some(Normalize(x))
    {
      FixedAlready(services, x, k);
    }
    GatherTwice(items, OfKind(k), NormalizedPart(services, k.itemType, HTTP_SOAP), NormalOfKind(k));
    if k.itemType in o { WrittenContribution(json, services, order, k.itemType, HTTP_SOAP); }
  }

  lemma FixedAlready(services: seq<Service>, x: Item, k: Kind)
    requires IsOf(x, k) && KindNamed(k.itemType, KINDS) == Some(k)
    ensures NormalizedPart(services, k.itemType, HTTP_SOAP)(x) == Some(Normalize(x))
  {
    NormalizeFacts(x, Text(""));
    assert "connection" != "service" && "connection" != "service_name" && "transport" != "service"
      && "transport" != "service_name";
    assert Fix(Normalize(x), k) == Normalize(x);
  }

  predicate Named(k: Kind) { KindNamed(k.itemType, KINDS) == Some(k) }

  predicate AllNamed(kinds: seq<Kind>) { forall k :: 0 <= k < |kinds| ==> Named(kinds[k]) }

  predicate Covers(o: Document, keys: seq<string>, kinds: seq<Kind>) {
    forall k :: 0 <= k < |kinds| ==> (kinds[k].itemType in keys <==> kinds[k].itemType in o)
  }

  lemma {:induction false} RestFacts(keys: seq<string>, kinds: seq<Kind>)
    ensures forall t :: t in Rest(keys, kinds) <==> t in keys && forall k :: 0 <= k < |kinds| ==> kinds[k].itemType != t
    decreases |kinds|
  {
    if kinds != [] {
      WithoutFacts(keys, kinds[0].itemType);
      RestFacts(Without(keys, kinds[0].itemType), kinds[1..]);
      assert kinds == [kinds[0]] + kinds[1..];
    }
  }

  ghost predicate SharesAre(services: seq<Service>, o: Document, items: seq<Item>, kinds: seq<Kind>) {
    forall k :: 0 <= k < |kinds| ==> ShareIs(services, o, items, kinds[k])
  }

  predicate ShareIs(services: seq<Service>, o: Document, items: seq<Item>, k: Kind) {
    multiset(Share(services, o, k)) == multiset(Gather(items, NormalOfKind(k)))
  }

  /** Kind after kind: its list is written if it is among the keys, gives its share, and no other kind claims its
      items. */
  ghost predicate InTurn(services: seq<Service>, o: Document, items: seq<Item>, keys: seq<string>, kinds: seq<Kind>)
    decreases |kinds|
  {
    kinds == [] ||
    (var k := kinds[0];
      && ShareIs(services, o, items, k) && (k.itemType in keys <==> k.itemType in o) && Apart(k, kinds[1..])
      && InTurn(services, o, items, Without(keys, k.itemType), kinds[1..]))
  }

  predicate Apart(k: Kind, more: seq<Kind>) {
    forall i :: 0 <= i < |more| ==> k.connection != more[i].connection || k.transport != more[i].transport
  }

  lemma {:induction false} AllInTurn(services: seq<Service>, o: Document, items: seq<Item>, keys: seq<string>,
                                     kinds: seq<Kind>)
    requires Distinct(kinds) && Exclusive(kinds) && Covers(o, keys, kinds) && SharesAre(services, o, items, kinds)
    ensures InTurn(services, o, items, keys, kinds)
    decreases |kinds|
  {
    if kinds != [] {
      assert forall i :: 0 <= i < |kinds[1..]| ==> kinds[1..][i] == kinds[i + 1];
      WithoutFacts(keys, kinds[0].itemType);
      AllInTurn(services, o, items, Without(keys, kinds[0].itemType), kinds[1..]);
    }
  }

  lemma {:induction false} KindsReturn(services: seq<Service>, o: Document, items: seq<Item>, keys: seq<string>,
                                       kinds: seq<Kind>)
    requires InTurn(services, o, items, keys, kinds)
    requires NoRepeats(keys) && forall t :: t in keys ==> t in o
    ensures forall t :: t in Rest(keys, kinds) ==> t in o
    ensures multiset(Collected(services, o, keys, HTTP_SOAP)) ==
      multiset(Gather(items, NormalOfSome(kinds))) + multiset(Collected(services, o, Rest(keys, kinds), HTTP_SOAP))
    decreases |kinds|
  {
    if kinds == [] {
      NoKinds(items);
    } else {
      TakeOutKind(services, o, items, keys, kinds[0]);
      KindsReturn(services, o, items, Without(keys, kinds[0].itemType), kinds[1..]);
      KindsTogether(items, kinds[0], kinds[1..]);
      assert [kinds[0]] + kinds[1..] == kinds;
    }
  }

  lemma NoKinds(items: seq<Item>)
    ensures Gather(items, NormalOfSome([])) == []
  {
    GatherNothing(items, NormalOfSome([]));
  }

  lemma TakeOutKind(services: seq<Service>, o: Document, items: seq<Item>, keys: seq<string>, k: Kind)
    requires NoRepeats(keys) && (forall t :: t in keys ==> t in o) && (k.itemType in keys <==> k.itemType in o)
    requires ShareIs(services, o, items, k)
    ensures NoRepeats(Without(keys, k.itemType)) && forall t :: t in Without(keys, k.itemType) ==> t in o
    ensures multiset(Collected(services, o, keys, HTTP_SOAP)) ==
      multiset(Gather(items, NormalOfKind(k))) + multiset(Collected(services, o, Without(keys, k.itemType), HTTP_SOAP))
  {
    TakeOut(services, o, keys, k.itemType, HTTP_SOAP);
    WithoutFacts(keys, k.itemType);
  }

  lemma KindsTogether(items: seq<Item>, k: Kind, more: seq<Kind>)
    requires Apart(k, more)
    ensures multiset(Gather(items, NormalOfKind(k))) + multiset(Gather(items, NormalOfSome(more)))
      == multiset(Gather(items, NormalOfSome([k] + more)))
  {
    var all := [k] + more;
    forall x ensures OfSome(x, all) <==> IsOf(x, k) || OfSome(x, more) {
      if OfSome(x, more) {
        var i :| 0 <= i < |more| && IsOf(x, more[i]);
        assert all[i + 1] == more[i];
      }
      if IsOf(x, k) { assert all[0] == k; }
    }
    assert forall x :: !(IsOf(x, k) && OfSome(x, more));
    GatherEither(items, NormalOfKind(k), NormalOfSome(more), NormalOfSome(all));
  }

  lemma KindsNamed()
    ensures AllNamed(KINDS)
  {
    KindsDistinct();
    forall k | 0 <= k < |KINDS| ensures Named(KINDS[k]) { KindNamedFinds(KINDS[k].itemType, KINDS); }
  }

  lemma NotKindsNoShare(services: seq<Service>, o: Document, key: string)
    requires key in o && KindNamed(key, KINDS).None? && key != HTTP_SOAP && !IsSecurity(services, HTTP_SOAP)
    ensures Contribution(services, o, key, HTTP_SOAP) == []
  {
    GatherNothing(o[key], Parts(services, key, HTTP_SOAP));
  }

  lemma OnlyKindsShare(services: seq<Service>, o: Document, keys: seq<string>, kinds: seq<Kind>)
    requires Lists(o, keys) && HTTP_SOAP !in o && !IsSecurity(services, HTTP_SOAP)
    requires forall t :: KindNamed(t, KINDS).None? <==> forall k :: 0 <= k < |kinds| ==> kinds[k].itemType != t
    ensures Covers(o, keys, kinds)
    ensures forall t :: t in Rest(keys, kinds) ==> t in o
    ensures Collected(services, o, Rest(keys, kinds), HTTP_SOAP) == []
  {
    RestFacts(keys, kinds);
    forall t | t in Rest(keys, kinds)
      ensures t in o && Contribution(services, o, t, HTTP_SOAP) == []
    {
      NotKindsNoShare(services, o, t);
    }
    NothingCollected(services, o, Rest(keys, kinds), HTTP_SOAP);
  }

  lemma HttpSoapReturns(json: Document, services: seq<Service>, order: Order, keys: seq<string>)
    requires GoodServices(services) && GoodJson(json, services) && Output(json, services, order).Ok?
    requires Lists(Output(json, services, order).value, keys)
    ensures multiset(Collected(services, Output(json, services, order).value, keys, HTTP_SOAP))
      == multiset(Returned(json, services, HTTP_SOAP))
  {
    var o := Output(json, services, order).value;
    forall t
      ensures KindNamed(t, KINDS).None? <==> forall k :: 0 <= k < |KINDS| ==> KINDS[k].itemType != t
    {
      KindNamedFinds(t, KINDS);
    }
    NamesDiffer();
    WrittenItems(json, services, HTTP_SOAP);
    OutputItems(json, services, order, HTTP_SOAP);
    OnlyKindsShare(services, o, keys, KINDS);
    KindsDistinct();
    KindsExclusive();
    KindsNamed();
    forall k | 0 <= k < |KINDS| ensures ShareIs(services, o, ItemsOf(json, HTTP_SOAP), KINDS[k]) {
      assert Named(KINDS[k]);
      KindShare(json, services, order, KINDS[k]);
    }
    AllInTurn(services, o, ItemsOf(json, HTTP_SOAP), keys, KINDS);
    KindsReturn(services, o, ItemsOf(json, HTTP_SOAP), keys, KINDS);
  }

  // ---------------------------------------------------------------- no complaints

  lemma {:induction false} TaggedAccepted(d: Document, services: seq<Service>)
    ensures forall x: Item :: x in Tagged(d, services) ==>
      TYPE in x && x[TYPE].Text? && IsSecurity(services, x[TYPE].text)
    decreases |services|
  {
    if services != [] {
      assert services == [services[0]] + services[1..];
      if services[0].isSecurity {
        var name := services[0].name;
        TagMembers(ItemsOf(d, name), name);
        TaggedAccepted(d - {name}, services[1..]);
      } else {
        TaggedAccepted(d, services[1..]);
      }
    }
  }

  lemma {:induction false} TagMembers(items: seq<Item>, name: string)
    ensures forall x :: x in Tag(items, name) ==> TYPE in x && x[TYPE] == Text(name)
    decreases |items|
  {
    if items != [] { TagMembers(items[1..], name); }
  }

  lemma {:induction false} NormalizeAllMembers(items: seq<Item>, x: Item) returns (y: Item)
    requires x in NormalizeAll(items)
    ensures y in items && x == Normalize(y)
    decreases |items|
  {
    if x == Normalize(items[0]) {
      y := items[0];
    } else {
      y := NormalizeAllMembers(items[1..], x);
    }
  }

  lemma WrittenIsAccepted(json: Document, services: seq<Service>, order: Order, key: string)
    requires GoodServices(services) && GoodJson(json, services) && Output(json, services, order).Ok?
    requires key in Output(json, services, order).value
    ensures AcceptedList(services, Output(json, services, order).value, key)
  {
    var w, o := Regrouped(json, services).value, Output(json, services, order).value;
    WrittenItems(json, services, key);
    OutputItems(json, services, order, key);
    KindNamedFinds(key, KINDS);
    if key == DEF_SEC {
      TaggedAccepted(SplitOf(json), services);
      forall x | x in o[key] ensures Accepted(services, key, x) {
        assert x in multiset(o[key]);
        var y := NormalizeAllMembers(w[key], x);
        NormalizeFacts(y, Text(""));
        NormalizeFacts(x, Text(""));
      }
    }
  }

  // ---------------------------------------------------------------- main results

  const NOTHING_YET := Parsed(map[], 0)

  /** Main result: whatever was written is read without a complaint, and every type gets exactly what Returned says. */
  lemma WriteThenRead(json: Document, services: seq<Service>, order: Order, keys: seq<string>, t: string)
    requires GoodServices(services) && GoodJson(json, services) && Output(json, services, order).Ok?
    requires Lists(Output(json, services, order).value, keys)
    ensures forall k :: 0 <= k < |keys| ==> keys[k] in Output(json, services, order).value
    ensures var p := ParseAll(NOTHING_YET, services, Output(json, services, order).value, keys);
      p.errors == 0 && multiset(ItemsOf(p.json, t)) == multiset(Returned(json, services, t))
  {
    var o := Output(json, services, order).value;
    forall k | 0 <= k < |keys| ensures AcceptedList(services, o, keys[k]) {
      assert keys[k] in keys;
      WrittenIsAccepted(json, services, order, keys[k]);
    }
    ParseAllAdds(NOTHING_YET, services, o, keys, t);
    assert [] + Collected(services, o, keys, t) == Collected(services, o, keys, t);
    if t == HTTP_SOAP {
      HttpSoapReturns(json, services, order, keys);
    } else if IsSecurity(services, t) {
      SecurityReturns(json, services, order, keys, t);
    } else {
      OrdinaryReturns(json, services, order, keys, t);
    }
  }

  /** What must hold of a list for the file to bring it back. */
  predicate Kept(json: Document, services: seq<Service>, t: string) {
    if t == HTTP_SOAP then forall k :: 0 <= k < |ItemsOf(json, t)| ==> KnownKind(ItemsOf(json, t)[k])
    else if t == DEF_SEC then ItemsOf(json, t) == []
    else IsSecurity(services, t) ==> forall k :: 0 <= k < |ItemsOf(json, t)| ==> TYPE !in ItemsOf(json, t)[k]
  }

  lemma {:induction false} GatherSizes(items: seq<Item>, f: Item -> Option<Item>)
    ensures |Gather(items, f)| <= |items|
    ensures |Gather(items, f)| == |items| <==> forall k :: 0 <= k < |items| ==> f(items[k]).Some?
    decreases |items|
  {
    if items != [] {
      assert items == [items[0]] + items[1..];
      GatherSizes(items[1..], f);
    }
  }

  lemma {:induction false} NormalizeAllAt(items: seq<Item>)
    ensures |NormalizeAll(items)| == |items|
    ensures forall k :: 0 <= k < |items| ==> NormalizeAll(items)[k] == Normalize(items[k])
    decreases |items|
  {
    if items != [] { NormalizeAllAt(items[1..]); }
  }

  lemma {:induction false} StrippedHaveNoType(items: seq<Item>)
    ensures forall x :: x in Gather(items, STRIPPING) ==> TYPE !in x
    decreases |items|
  {
    if items != [] { StrippedHaveNoType(items[1..]); }
  }

  lemma KnownOnlyKept(items: seq<Item>)
    ensures multiset(Gather(items, KNOWN_ONLY)) == multiset(NormalizeAll(items)) <==>
      forall k :: 0 <= k < |items| ==> KnownKind(items[k])
  {
    GatherSizes(items, KNOWN_ONLY);
    NormalizeAllAt(items);
    if forall k :: 0 <= k < |items| ==> KnownKind(items[k]) {
      NormalizeAllGathers(items);
      GatherSame(items, KNOWN_ONLY, NORMALIZING);
    } else {
      assert |multiset(Gather(items, KNOWN_ONLY))| == |Gather(items, KNOWN_ONLY)|;
      assert |multiset(NormalizeAll(items))| == |items|;
    }
  }

  lemma StrippedKept(items: seq<Item>)
    ensures multiset(Gather(items, STRIPPING)) == multiset(NormalizeAll(items)) <==>
      forall k :: 0 <= k < |items| ==> TYPE !in items[k]
  {
    if forall k :: 0 <= k < |items| ==> TYPE !in items[k] {
      NothingStripped(items);
    } else {
      var k :| 0 <= k < |items| && TYPE in items[k];
      SomethingStripped(items, k);
    }
  }

  lemma NothingStripped(items: seq<Item>)
    requires forall k :: 0 <= k < |items| ==> TYPE !in items[k]
    ensures Gather(items, STRIPPING) == NormalizeAll(items)
  {
    NormalizeAllGathers(items);
    forall x | x in items ensures STRIPPING(x) == NORMALIZING(x) {
      NormalizeFacts(x, Text(""));
      assert Normalize(x) - {TYPE} == Normalize(x);
    }
    GatherSame(items, STRIPPING, NORMALIZING);
  }

  lemma SomethingStripped(items: seq<Item>, k: nat)
    requires k < |items| && TYPE in items[k]
    ensures multiset(Gather(items, STRIPPING)) != multiset(NormalizeAll(items))
  {
    NormalizeAllAt(items);
    StrippedHaveNoType(items);
    NormalizeFacts(items[k], Text(""));
    assert NormalizeAll(items)[k] in multiset(NormalizeAll(items));
  }

  /** Main result, both ways: a type gets back the same items up to normalization exactly when, of the HTTP objects, all
      are of a known kind, of security definitions, none has a type key already, and nothing was listed as wrapped. */
  lemma ComesBackExactlyWhen(json: Document, services: seq<Service>, order: Order, keys: seq<string>, t: string)
    requires GoodServices(services) && GoodJson(json, services) && Output(json, services, order).Ok?
    requires Lists(Output(json, services, order).value, keys)
    ensures forall k :: 0 <= k < |keys| ==> keys[k] in Output(json, services, order).value
    ensures var p := ParseAll(NOTHING_YET, services, Output(json, services, order).value, keys);
      Kept(json, services, t) <==> multiset(ItemsOf(p.json, t)) == multiset(NormalizeAll(ItemsOf(json, t)))
  {
    WriteThenRead(json, services, order, keys, t);
    var items := ItemsOf(json, t);
    NamesDiffer();
    if t == HTTP_SOAP {
      KnownOnlyKept(items);
    } else if t == DEF_SEC {
      NormalizeAllAt(items);
      assert |multiset(NormalizeAll(items))| == |items|;
    } else if IsSecurity(services, t) {
      StrippedKept(items);
    }
  }
}
