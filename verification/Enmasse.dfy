/** Exporting objects to a file and importing the file again: channels and outgoing connections are split by kind and
    security definitions are folded into one list on the way out, and the parser undoes both on the way in. */
module Enmasse {
  import opened Commons

  /** The values inside an item; anything but text is only compared. */
  datatype Value = Text(text: string) | Other(content: int)

  type Item = map<string, Value>

  /** Lists of items by type. */
  type Document = map<string, seq<Item>>

  datatype Service = Service(name: string, isSecurity: bool)

  datatype Kind = Kind(itemType: string, connection: string, transport: string)

  const KINDS := [Kind("channel_soap", "channel", "soap"), Kind("channel_plain_http", "channel", "plain_http"),
                  Kind("outconn_soap", "outgoing", "soap"), Kind("outconn_plain_http", "outgoing", "plain_http")]

  const HTTP_SOAP := "http_soap"
  const DEF_SEC := "def_sec"
  const TYPE := "type"

  function ItemsOf(d: Document, t: string): seq<Item> { if t in d then d[t] else [] }

  /** d.setdefault(t, []).append(item) */
  function Append(d: Document, t: string, item: Item): Document { d[t := ItemsOf(d, t) + [item]] }

  /** normalize_service_name: a missing one of the two keys gets the other's value. */
  function Normalize(item: Item): Item {
    if "service" in item then
      if "service_name" in item then item else item["service_name" := item["service"]]
    else if "service_name" in item then item["service" := item["service_name"]]
    else item
  }

  /** What the function is meant to establish: neither key, or both with one value. */
  predicate ServiceKeysAgree(item: Item) {
    ("service" in item <==> "service_name" in item) && ("service" in item ==> item["service"] == item["service_name"])
  }

  /** It does exactly when the item does not already hold two different values. */
  lemma NormalizedAgreeExactlyWhen(item: Item)
    ensures ServiceKeysAgree(Normalize(item)) <==>
      !("service" in item && "service_name" in item && item["service"] != item["service_name"])
  {
  }

  // ---------------------------------------------------------------- writing

  predicate IsOf(item: Item, k: Kind) {
    "connection" in item && item["connection"] == Text(k.connection) && "transport" in item
      && item["transport"] == Text(k.transport)
  }

  /** One item against every kind; a key that is looked at and missing raises. */
  function PutByKind(d: Document, item: Item, kinds: seq<Kind>): Result<Document>
    decreases |kinds|
  {
    if kinds == [] then Ok(d)
    else if "connection" !in item then Raised("KeyError")
    else if item["connection"] != Text(kinds[0].connection) then PutByKind(d, item, kinds[1..])
    else if "transport" !in item then Raised("KeyError")
    else
      var d1 := if item["transport"] == Text(kinds[0].transport) then Append(d, kinds[0].itemType, item) else d;
      PutByKind(d1, item, kinds[1..])
  }

  function SplitHttpSoap(d: Document, items: seq<Item>): Result<Document>
    decreases |items|
  {
    if items == [] then Ok(d)
    else
      var d1 :- PutByKind(d, items[0], KINDS);
      SplitHttpSoap(d1, items[1..])
  }

  function Tag(items: seq<Item>, name: string): seq<Item> {
    if items == [] then [] else [items[0][TYPE := Text(name)]] + Tag(items[1..], name)
  }

  function WrapSecurity(d: Document, services: seq<Service>): Document
    decreases |services|
  {
    if services == [] then d
    else if !services[0].isSecurity then WrapSecurity(d, services[1..])
    else
      var name := services[0].name;
      WrapSecurity(d[DEF_SEC := ItemsOf(d, DEF_SEC) + Tag(ItemsOf(d, name), name)] - {name}, services[1..])
  }

  function NormalizeAll(items: seq<Item>): seq<Item> {
    if items == [] then [] else [Normalize(items[0])] + NormalizeAll(items[1..])
  }

  predicate HaveIds(items: seq<Item>) { forall k :: 0 <= k < |items| ==> "id" in items[k] }

  /** How Python compares two ids. */
  type Order = Value -> int

  function Insert(sorted: seq<Item>, item: Item, order: Order): seq<Item>
    requires "id" in item && HaveIds(sorted)
  {
    if sorted == [] || order(item["id"]) < order(sorted[0]["id"]) then [item] + sorted
    else [sorted[0]] + Insert(sorted[1..], item, order)
  }

  /** sort(key=id), stable */
  function SortById(items: seq<Item>, order: Order): (r: seq<Item>)
    requires HaveIds(items)
    ensures multiset(r) == multiset(items) && HaveIds(r)
  {
    if items == [] then []
    else
      var last := items[|items| - 1];
      var rest := SortById(items[..|items| - 1], order);
      InsertAdds(rest, last, order);
      assert items == items[..|items| - 1] + [last];
      Insert(rest, last, order)
  }

  lemma {:induction false} InsertAdds(sorted: seq<Item>, item: Item, order: Order)
    requires "id" in item && HaveIds(sorted)
    ensures multiset(Insert(sorted, item, order)) == multiset(sorted) + multiset{item}
    ensures HaveIds(Insert(sorted, item, order))
    decreases |sorted|
  {
    if sorted != [] && !(order(item["id"]) < order(sorted[0]["id"])) {
      InsertAdds(sorted[1..], item, order);
      assert sorted == [sorted[0]] + sorted[1..];
    }
  }

  ghost predicate Ascending(items: seq<Item>, order: Order)
    requires HaveIds(items)
  {
    forall i, j :: 0 <= i < j < |items| ==> order(items[i]["id"]) <= order(items[j]["id"])
  }

  /** The items that have this place in the order, as they stand. */
  function AtPlace(items: seq<Item>, order: Order, place: int): seq<Item>
    requires HaveIds(items)
  {
    if items == [] then []
    else (if order(items[0]["id"]) == place then [items[0]] else []) + AtPlace(items[1..], order, place)
  }

  lemma {:induction false} AtPlaceAppend(a: seq<Item>, b: seq<Item>, order: Order, place: int)
    requires HaveIds(a) && HaveIds(b)
    ensures HaveIds(a + b) && AtPlace(a + b, order, place) == AtPlace(a, order, place) + AtPlace(b, order, place)
    decreases |a|
  {
    if a == [] {
      assert a + b == b;
    } else {
      assert (a + b)[0] == a[0] && (a + b)[1..] == a[1..] + b;
      AtPlaceAppend(a[1..], b, order, place);
      var first := if order(a[0]["id"]) == place then [a[0]] else [];
      var x, y := AtPlace(a[1..], order, place), AtPlace(b, order, place);
      assert first + (x + y) == first + x + y;
    }
  }

  lemma {:induction false} NoneBelow(items: seq<Item>, order: Order, place: int)
    requires HaveIds(items) && forall k :: 0 <= k < |items| ==> order(items[k]["id"]) > place
    ensures AtPlace(items, order, place) == []
    decreases |items|
  {
    if items != [] { NoneBelow(items[1..], order, place); }
  }

  lemma AscendingTail(items: seq<Item>, order: Order)
    requires items != [] && HaveIds(items) && Ascending(items, order)
    ensures HaveIds(items[1..]) && Ascending(items[1..], order)
  {
  }

  lemma AscendingCons(first: Item, rest: seq<Item>, order: Order)
    requires "id" in first && HaveIds(rest) && Ascending(rest, order)
    requires forall k :: 0 <= k < |rest| ==> order(first["id"]) <= order(rest[k]["id"])
    ensures HaveIds([first] + rest) && Ascending([first] + rest, order)
  {
  }

  lemma AtPlaceCons(first: Item, rest: seq<Item>, order: Order, place: int)
    requires "id" in first && HaveIds(rest)
    ensures HaveIds([first] + rest)
    ensures AtPlace([first] + rest, order, place)
      == (if order(first["id"]) == place then [first] else []) + AtPlace(rest, order, place)
  {
    assert ([first] + rest)[1..] == rest;
  }

  lemma InsertIsFrom(sorted: seq<Item>, item: Item, order: Order, k: nat)
    requires "id" in item && HaveIds(sorted) && k < |Insert(sorted, item, order)|
    ensures Insert(sorted, item, order)[k] == item || Insert(sorted, item, order)[k] in sorted
  {
    InsertAdds(sorted, item, order);
    assert Insert(sorted, item, order)[k] in multiset(Insert(sorted, item, order));
  }

  lemma {:induction false} InsertAscends(sorted: seq<Item>, item: Item, order: Order)
    requires "id" in item && HaveIds(sorted) && Ascending(sorted, order)
    ensures HaveIds(Insert(sorted, item, order)) && Ascending(Insert(sorted, item, order), order)
    decreases |sorted|
  {
    if sorted == [] || order(item["id"]) < order(sorted[0]["id"]) {
      AscendingCons(item, sorted, order);
    } else {
      AscendingTail(sorted, order);
      InsertAscends(sorted[1..], item, order);
      var rest := Insert(sorted[1..], item, order);
      forall k | 0 <= k < |rest| ensures order(sorted[0]["id"]) <= order(rest[k]["id"]) {
        InsertIsFrom(sorted[1..], item, order, k);
      }
      AscendingCons(sorted[0], rest, order);
    }
  }

  /** An item is put behind all those that are not after it. */
  lemma {:induction false} InsertInPlace(sorted: seq<Item>, item: Item, order: Order, place: int)
    requires "id" in item && HaveIds(sorted) && Ascending(sorted, order)
    ensures HaveIds(Insert(sorted, item, order))
    ensures AtPlace(Insert(sorted, item, order), order, place)
      == AtPlace(sorted, order, place) + if order(item["id"]) == place then [item] else []
    decreases |sorted|
  {
    if sorted == [] || order(item["id"]) < order(sorted[0]["id"]) {
      AtPlaceCons(item, sorted, order, place);
      if order(item["id"]) == place { NoneBelow(sorted, order, place); }
    } else {
      AscendingTail(sorted, order);
      InsertInPlace(sorted[1..], item, order, place);
      AtPlaceCons(sorted[0], Insert(sorted[1..], item, order), order, place);
    }
  }

  /** The sorted list ascends, and items that the order does not tell apart stay as they stood. */
  lemma {:induction false} SortIsStable(items: seq<Item>, order: Order, place: int)
    requires HaveIds(items)
    ensures Ascending(SortById(items, order), order)
    ensures AtPlace(SortById(items, order), order, place) == AtPlace(items, order, place)
    decreases |items|
  {
    if items != [] {
      var before, last := items[..|items| - 1], items[|items| - 1];
      SortIsStable(before, order, place);
      InsertAscends(SortById(before, order), last, order);
      InsertInPlace(SortById(before, order), last, order, place);
      AtPlaceAppend(before, [last], order, place);
      assert before + [last] == items && [last][1..] == [];
    }
  }

  /** Everything up to the file: split, wrap, then normalize and sort each list. */
  function Regrouped(json: Document, services: seq<Service>): Result<Document> {
    var d :- SplitHttpSoap(json - {HTTP_SOAP}, ItemsOf(json, HTTP_SOAP));
    Ok(WrapSecurity(d[DEF_SEC := []], services))
  }

  predicate AllHaveIds(d: Document) { forall t :: t in d ==> HaveIds(NormalizeAll(d[t])) }

  function Finished(d: Document, order: Order): Result<Document> {
    if AllHaveIds(d) then Ok(map t | t in d :: SortById(NormalizeAll(d[t]), order)) else Raised("KeyError")
  }

  function Output(json: Document, services: seq<Service>, order: Order): Result<Document> {
    var d :- Regrouped(json, services);
    Finished(d, order)
  }

  // ---------------------------------------------------------------- reading

  /** What the parser has collected, and how many complaints. */
  datatype Parsed = Parsed(json: Document, errors: nat)

  predicate IsService(services: seq<Service>, t: string) { exists k :: 0 <= k < |services| && services[k].name == t }

  predicate IsSecurity(services: seq<Service>, t: string) {
    exists k :: 0 <= k < |services| && services[k].isSecurity && services[k].name == t
  }

  predicate IsKind(t: string) { exists k :: 0 <= k < |KINDS| && KINDS[k].itemType == t }

  function KindNamed(t: string, kinds: seq<Kind>): Option<Kind> {
    if kinds == [] then None else if kinds[0].itemType == t then Some(kinds[0]) else KindNamed(t, kinds[1..])
  }

  function ParseDefSec(p: Parsed, services: seq<Service>, item: Item): Parsed {
    if TYPE !in item || !item[TYPE].Text? || !IsSecurity(services, item[TYPE].text) then p.(errors := p.errors + 1)
    else p.(json := Append(p.json, item[TYPE].text, item - {TYPE}))
  }

  function ParseItem(p: Parsed, services: seq<Service>, t: string, item: Item): Parsed {
    match KindNamed(t, KINDS)
    case Some(k) =>
      var fixed := item["connection" := Text(k.connection)]["transport" := Text(k.transport)];
      p.(json := Append(p.json, HTTP_SOAP, Normalize(fixed)))
    case None =>
      if t == DEF_SEC then ParseDefSec(p, services, Normalize(item)) else p.(json := Append(p.json, t, Normalize(item)))
  }

  function ParseList(p: Parsed, services: seq<Service>, t: string, items: seq<Item>): Parsed
    decreases |items|
  {
    if items == [] then p else ParseList(ParseItem(p, services, t, items[0]), services, t, items[1..])
  }

  function ParseType(p: Parsed, services: seq<Service>, t: string, items: seq<Item>): Parsed {
    if !IsService(services, t) && !IsKind(t) then p.(errors := p.errors + 1) else ParseList(p, services, t, items)
  }

  /** `keys` is the order in which the dictionary lists its types. */
  function ParseAll(p: Parsed, services: seq<Service>, d: Document, keys: seq<string>): Parsed
    requires forall k :: 0 <= k < |keys| ==> keys[k] in d
    decreases |keys|
  {
    if keys == [] then p else ParseAll(ParseType(p, services, keys[0], d[keys[0]]), services, d, keys[1..])
  }

  // ---------------------------------------------------------------- gathering

  /** The items for which f has an answer, answered, in order. */
  function Gather(items: seq<Item>, f: Item -> Option<Item>): seq<Item> {
    if items == [] then [] else (match f(items[0]) case Some(x) => [x] case None => []) + Gather(items[1..], f)
  }

  lemma {:induction false} GatherAppend(a: seq<Item>, b: seq<Item>, f: Item -> Option<Item>)
    ensures Gather(a + b, f) == Gather(a, f) + Gather(b, f)
    decreases |a|
  {
    if a == [] {
      assert a + b == b;
    } else {
      assert (a + b)[0] == a[0] && (a + b)[1..] == a[1..] + b;
      GatherAppend(a[1..], b, f);
      var first := match f(a[0]) case Some(x) => [x] case None => [];
      assert first + (Gather(a[1..], f) + Gather(b, f)) == first + Gather(a[1..], f) + Gather(b, f);
    }
  }

  lemma {:induction false} GatherSame(items: seq<Item>, f: Item -> Option<Item>, g: Item -> Option<Item>)
    requires forall x :: x in items ==> f(x) == g(x)
    ensures Gather(items, f) == Gather(items, g)
    decreases |items|
  {
    if items != [] {
      assert f(items[0]) == g(items[0]);
      GatherSame(items[1..], f, g);
    }
  }

  lemma {:induction false} GatherTwice(items: seq<Item>, f: Item -> Option<Item>, g: Item -> Option<Item>,
                                       h: Item -> Option<Item>)
    requires forall x :: x in items ==> h(x) == match f(x) case Some(y) => g(y) case None => None
    ensures Gather(Gather(items, f), g) == Gather(items, h)
    decreases |items|
  {
    if items != [] {
      var first := match f(items[0]) case Some(y) => [y] case None => [];
      GatherAppend(first, Gather(items[1..], f), g);
      GatherTwice(items[1..], f, g, h);
      assert items[0] in items;
    }
  }

  /** The order of the items does not matter to what is gathered, only to its order. */
  lemma {:induction false} GatherPermuted(a: seq<Item>, b: seq<Item>, f: Item -> Option<Item>)
    requires multiset(a) == multiset(b)
    ensures multiset(Gather(a, f)) == multiset(Gather(b, f))
    decreases |a|
  {
    if a == [] {
      assert |multiset(b)| == 0;
    } else {
      assert a[0] in multiset(b);
      var j :| 0 <= j < |b| && b[j] == a[0];
      var rest := b[..j] + b[j + 1..];
      assert b == b[..j] + ([b[j]] + b[j + 1..]);
      assert a == [a[0]] + a[1..];
      assert multiset(rest) == multiset(b) - multiset{b[j]};
      assert multiset(a[1..]) == multiset(a) - multiset{a[0]};
      GatherPermuted(a[1..], rest, f);
      GatherAppend(b[..j], b[j + 1..], f);
      GatherAppend(b[..j], [b[j]] + b[j + 1..], f);
      GatherAppend([b[j]], b[j + 1..], f);
      GatherAppend([a[0]], a[1..], f);
    }
  }

  const NORMALIZING: Item -> Option<Item> := (x: Item) => Some(Normalize(x))

  function Tagging(name: string): Item -> Option<Item> { (x: Item) => Some(x[TYPE := Text(name)]) }

  lemma {:induction false} NormalizeAllGathers(items: seq<Item>)
    ensures NormalizeAll(items) == Gather(items, NORMALIZING)
    decreases |items|
  {
    if items != [] { NormalizeAllGathers(items[1..]); }
  }

  lemma {:induction false} TagGathers(items: seq<Item>, name: string)
    ensures Tag(items, name) == Gather(items, Tagging(name))
    decreases |items|
  {
    if items != [] { TagGathers(items[1..], name); }
  }

  /** Normalizing twice is normalizing once, it changes no value that is there, and it does not look at other keys. */
  lemma NormalizeFacts(x: Item, v: Value)
    ensures Normalize(Normalize(x)) == Normalize(x)
    ensures Normalize(x[TYPE := v]) == Normalize(x)[TYPE := v]
    ensures Normalize(x - {TYPE}) == Normalize(x) - {TYPE}
    ensures forall k :: k in x ==> k in Normalize(x) && Normalize(x)[k] == x[k]
    ensures forall k :: k in Normalize(x) ==> k in x || k == "service" || k == "service_name"
  {
    assert TYPE != "service" && TYPE != "service_name";
  }
}
