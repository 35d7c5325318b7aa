/** The exporter and the input parser as the loops they are. */
module EnmasseObjects {
  import opened Commons
  import opened Enmasse

  lemma {:induction false} TagMore(items: seq<Item>, item: Item, name: string)
    ensures Tag(items + [item], name) == Tag(items, name) + [item[TYPE := Text(name)]]
    decreases |items|
  {
    if items == [] {
      assert [item][1..] == [] && items + [item] == [item];
    } else {
      assert (items + [item])[0] == items[0] && (items + [item])[1..] == items[1..] + [item];
      TagMore(items[1..], item, name);
    }
  }

  lemma {:induction false} NormalizeMore(items: seq<Item>, item: Item)
    ensures NormalizeAll(items + [item]) == NormalizeAll(items) + [Normalize(item)]
    decreases |items|
  {
    if items == [] {
      assert [item][1..] == [] && items + [item] == [item];
    } else {
      assert (items + [item])[0] == items[0] && (items + [item])[1..] == items[1..] + [item];
      NormalizeMore(items[1..], item);
    }
  }

  /** normalize_service_name, in place on the caller's copy: two setdefaults */
  method NormalizeServiceName(item: Item) returns (r: Item)
    ensures r == Normalize(item)
  {
    r := item;
    if "service" in r || "service_name" in r {
      if "service" !in r { r := r["service" := r["service_name"]]; }
      if "service_name" !in r { r := r["service_name" := r["service"]]; }
    }
  }

  predicate Done(wrapped: Document, output: Document, order: Order, t: string) {
    t in wrapped && t in output && HaveIds(NormalizeAll(wrapped[t]))
      && output[t] == SortById(NormalizeAll(wrapped[t]), order)
  }

  lemma AllDone(wrapped: Document, output: Document, order: Order)
    requires output.Keys == wrapped.Keys && forall t :: t in output ==> Done(wrapped, output, order, t)
    ensures Finished(wrapped, order) == Ok(output)
  {
    assert forall t :: t in wrapped ==> Done(wrapped, output, order, t);
    assert output == map t | t in wrapped :: SortById(NormalizeAll(wrapped[t]), order);
  }

  class EnMasse {
    var json: Document

    constructor (json: Document)
      ensures this.json == json
    {
      this.json := json;
    }

    method SplitByKind(output: Document, items: seq<Item>) returns (r: Result<Document>)
      ensures r == SplitHttpSoap(output, items)
    {
      var out := output;
      var n := 0;
      while n < |items|
        invariant 0 <= n <= |items| && SplitHttpSoap(output, items) == SplitHttpSoap(out, items[n..])
      {
        var item := items[n];
        assert items[n..][0] == item && items[n..][1..] == items[n + 1..];
        ghost var before := out;
        var k := 0;
        while k < |KINDS|
          invariant 0 <= k <= |KINDS| && PutByKind(before, item, KINDS) == PutByKind(out, item, KINDS[k..])
        {
          assert KINDS[k..][0] == KINDS[k] && KINDS[k..][1..] == KINDS[k + 1..];
          if "connection" !in item { return Raised("KeyError"); }
          if item["connection"] == Text(KINDS[k].connection) {
            if "transport" !in item { return Raised("KeyError"); }
            if item["transport"] == Text(KINDS[k].transport) { out := Append(out, KINDS[k].itemType, item); }
          }
          k := k + 1;
        }
        n := n + 1;
      }
      r := Ok(out);
    }

    method WrapDefinitions(output: Document, services: seq<Service>) returns (out: Document)
      requires DEF_SEC in output
      ensures out == WrapSecurity(output, services)
    {
      out := output;
      var n := 0;
      while n < |services|
        invariant 0 <= n <= |services| && WrapSecurity(output, services) == WrapSecurity(out, services[n..])
      {
        var service := services[n];
        assert services[n..][0] == service && services[n..][1..] == services[n + 1..];
        if service.isSecurity {
          var items := ItemsOf(out, service.name);
          var tagged: seq<Item> := [];
          var k := 0;
          while k < |items|
            invariant 0 <= k <= |items| && tagged == Tag(items[..k], service.name)
          {
            assert items[..k + 1] == items[..k] + [items[k]];
            TagMore(items[..k], items[k], service.name);
            tagged := tagged + [items[k][TYPE := Text(service.name)]];
            k := k + 1;
          }
          assert items[..k] == items;
          out := out[DEF_SEC := ItemsOf(out, DEF_SEC) + tagged] - {service.name};
        }
        n := n + 1;
      }
    }

    method NormalizeList(items: seq<Item>) returns (r: seq<Item>)
      ensures r == NormalizeAll(items)
    {
      r := [];
      var k := 0;
      while k < |items|
        invariant 0 <= k <= |items| && r == NormalizeAll(items[..k])
      {
        assert items[..k + 1] == items[..k] + [items[k]];
        NormalizeMore(items[..k], items[k]);
        var item := NormalizeServiceName(items[k]);
        r := r + [item];
        k := k + 1;
      }
      assert items[..k] == items;
    }

    method FinishLists(wrapped: Document, order: Order) returns (r: Result<Document>)
      ensures r == Finished(wrapped, order)
    {
      var output: Document := map[];
      var todo := wrapped.Keys;
      while todo != {}
        invariant todo <= wrapped.Keys && output.Keys == wrapped.Keys - todo
        invariant forall t :: t in output ==> Done(wrapped, output, order, t)
        decreases |todo|
      {
        var t :| t in todo;
        var items := NormalizeList(wrapped[t]);
        if !HaveIds(items) { return Raised("KeyError"); }
        ghost var before := output;
        output := output[t := SortById(items, order)];
        assert forall u :: u in before ==> Done(wrapped, before, order, u) && u != t && output[u] == before[u];
        todo := todo - {t};
      }
      AllDone(wrapped, output, order);
      r := Ok(output);
    }

    /** write_output, up to the file; the object's own lists are copied first. */
    method WriteOutput(services: seq<Service>, order: Order) returns (r: Result<Document>)
      ensures r == Output(json, services, order)
    {
      var split := SplitByKind(json - {HTTP_SOAP}, ItemsOf(json, HTTP_SOAP));
      if split.Raised? { return split; }
      var wrapped := WrapDefinitions(split.value[DEF_SEC := []], services);
      r := FinishLists(wrapped, order);
    }
  }

  class InputParser {
    var json: Document
    var errors: nat

    constructor ()
      ensures View() == Parsed(map[], 0)
    {
      json, errors := map[], 0;
    }

    function View(): Parsed
      reads this
    {
      Parsed(json, errors)
    }

    method ParseOneDefSec(services: seq<Service>, item: Item)
      modifies this
      ensures View() == ParseDefSec(old(View()), services, item)
    {
      if TYPE !in item {
        errors := errors + 1;
      } else {
        var secType := item[TYPE];
        var rest := item - {TYPE};
        if !secType.Text? || !IsSecurity(services, secType.text) {
          errors := errors + 1;
        } else {
          json := Append(json, secType.text, rest);
        }
      }
    }

    /** _maybe_fixup_http_soap */
    method FixUp(itemType: string, item: Item) returns (newType: string, fixed: Item)
      ensures match KindNamed(itemType, KINDS)
        case Some(k) => newType == HTTP_SOAP
          && fixed == item["connection" := Text(k.connection)]["transport" := Text(k.transport)]
        case None => newType == itemType && fixed == item
    {
      var k := 0;
      while k < |KINDS|
        invariant 0 <= k <= |KINDS| && KindNamed(itemType, KINDS) == KindNamed(itemType, KINDS[k..])
      {
        assert KINDS[k..][0] == KINDS[k] && KINDS[k..][1..] == KINDS[k + 1..];
        if KINDS[k].itemType == itemType {
          return HTTP_SOAP, item["connection" := Text(KINDS[k].connection)]["transport" := Text(KINDS[k].transport)];
        }
        k := k + 1;
      }
      newType, fixed := itemType, item;
    }

    method ParseOne(services: seq<Service>, itemType: string, item: Item)
      modifies this
      ensures View() == ParseItem(old(View()), services, itemType, item)
    {
      var newType, fixed := FixUp(itemType, item);
      fixed := NormalizeServiceName(fixed);
      assert |DEF_SEC| == 7 && |HTTP_SOAP| == 9;
      if newType == DEF_SEC {
        ParseOneDefSec(services, fixed);
      } else {
        json := Append(json, newType, fixed);
      }
    }

    /** parse_items */
    method ParseItems(services: seq<Service>, d: Document, keys: seq<string>)
      requires forall k :: 0 <= k < |keys| ==> keys[k] in d
      modifies this
      ensures View() == ParseAll(old(View()), services, d, keys)
    {
      var n := 0;
      while n < |keys|
        invariant 0 <= n <= |keys| && (forall k :: 0 <= k < |keys[n..]| ==> keys[n..][k] in d)
        invariant ParseAll(old(View()), services, d, keys) == ParseAll(View(), services, d, keys[n..])
      {
        var t := keys[n];
        assert keys[n..][0] == t && keys[n..][1..] == keys[n + 1..];
        ghost var before := View();
        if !IsService(services, t) && !IsKind(t) {
          errors := errors + 1;
        } else {
          ParseOneList(services, t, d[t]);
        }
        assert View() == ParseType(before, services, t, d[t]);
        n := n + 1;
      }
    }

    method ParseOneList(services: seq<Service>, itemType: string, items: seq<Item>)
      modifies this
      ensures View() == ParseList(old(View()), services, itemType, items)
    {
      var n := 0;
      while n < |items|
        invariant 0 <= n <= |items|
        invariant ParseList(old(View()), services, itemType, items) == ParseList(View(), services, itemType, items[n..])
      {
        assert items[n..][0] == items[n] && items[n..][1..] == items[n + 1..];
        ParseOne(services, itemType, items[n]);
        n := n + 1;
      }
    }
  }
}
