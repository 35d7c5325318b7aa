/** The load-balancer agent: the configuration object filled in by the parser, and servers added to or removed from the
    file. */
module HaproxyAgent {
  import opened Commons
  import opened Text
  import opened HaproxyConfig
  import R = HaproxyRoundTrip

  const BACKEND_TAG := TOKEN + "backend bck_http_plain"
  const BEGIN_TAG := TOKEN + "begin backend bck_http_plain"

  const DEFAULT_EXTRA := "check inter 2s rise 2 fall 2"

  const DEFAULT_SERVER := Server("127.0.0.1", "123456", DEFAULT_EXTRA)

  // ---------------------------------------------------------------- the new file

  function ServerTexts(m: map<string, Backend>, order: seq<string>): seq<string>
    requires forall k :: 0 <= k < |order| ==> order[k] in m && m[order[k]].Server?
  {
    if order == [] then [] else [ServerText(order[0], m[order[0]])] + ServerTexts(m, order[1..])
  }

  /** What one line of the file becomes: the old servers go, the new ones follow the begin marker. */
  function NewElement(line: string, texts: seq<string>): string {
    RStrip(line + "\n" + "\n" + Join("\n", if Contains(line, BEGIN_TAG) then texts else []))
  }

  function NewElements(lines: seq<string>, texts: seq<string>): seq<string> {
    if lines == [] then []
    else
      (if Contains(lines[0], BACKEND_TAG) then [] else [NewElement(lines[0], texts)]) + NewElements(lines[1..], texts)
  }

  /** Where the servers go. */
  predicate IsMarker(line: string) { Contains(line, BEGIN_TAG) && !Contains(line, BACKEND_TAG) }

  predicate HasMarker(lines: seq<string>) { exists k :: 0 <= k < |lines| && IsMarker(lines[k]) }

  // ---------------------------------------------------------------- splitting what was joined

  lemma {:induction false} ParseLinesAppend(c: Config, a: seq<string>, b: seq<string>)
    ensures ParseLines(c, a + b) == match ParseLines(c, a) case Ok(d) => ParseLines(d, b) case Raised(e) => Raised(e)
    decreases |a|
  {
    if a == [] {
      assert a + b == b;
    } else {
      assert (a + b)[0] == a[0] && (a + b)[1..] == a[1..] + b;
      var r := ParseLine(c, a[0]);
      if r.Ok? { ParseLinesAppend(r.value, a[1..], b); }
    }
  }

  lemma LinesAppendStep(head: string, rest: string, b: string)
    requires '\n' !in head && Lines(rest + "\n" + b) == Lines(rest) + Lines(b)
    ensures Lines((head + "\n" + rest) + "\n" + b) == Lines(head + "\n" + rest) + Lines(b)
  {
    LinesCons(head, rest);
    LinesCons(head, rest + "\n" + b);
    Reassociated(head, rest, b);
    assert [head] + (Lines(rest) + Lines(b)) == [head] + Lines(rest) + Lines(b);
  }

  lemma Reassociated(head: string, rest: string, b: string)
    ensures (head + "\n" + rest) + "\n" + b == head + "\n" + (rest + "\n" + b)
  {
  }

  /** Where the first newline stands. */
  function FirstLine(a: string): (i: nat)
    ensures i <= |a| && '\n' !in a[..i] && (i < |a| ==> a[i] == '\n')
  {
    if a == "" || a[0] == '\n' then 0
    else
      var i := 1 + FirstLine(a[1..]);
      assert a[..i] == [a[0]] + a[1..][..i - 1];
      i
  }

  /** Splitting at newlines distributes over a newline between any two texts. */
  lemma {:induction false} LinesAppend(a: string, b: string)
    ensures Lines(a + "\n" + b) == Lines(a) + Lines(b)
    decreases |a|
  {
    var i := FirstLine(a);
    if i == |a| {
      assert a[..i] == a;
      LinesCons(a, b);
      LinesOne(a);
    } else {
      LinesAppend(a[i + 1..], b);
      LinesAppendStep(a[..i], a[i + 1..], b);
      assert a == a[..i] + "\n" + a[i + 1..];
    }
  }

  function AllLines(elements: seq<string>): seq<string> {
    if elements == [] then [] else Lines(elements[0]) + AllLines(elements[1..])
  }

  lemma {:induction false} LinesOfElements(elements: seq<string>)
    requires elements != []
    ensures Lines(Join("\n", elements)) == AllLines(elements)
    decreases |elements|
  {
    if |elements| > 1 {
      LinesAppend(elements[0], Join("\n", elements[1..]));
      LinesOfElements(elements[1..]);
    }
  }

  // ---------------------------------------------------------------- trailing space does not matter to the parser

  lemma TokenNamesTrimmed(i: Item)
    ensures TokenName(i) != "" && !IsSpace(TokenName(i)[|TokenName(i)| - 1])
  {
  }

  lemma {:induction false} MatchingSameTags(c: Config, items: seq<Item>, tag: string, other: string, value: string)
    requires forall k :: 0 <= k < |items| ==> (TokenName(items[k]) <= tag <==> TokenName(items[k]) <= other)
    ensures ParseMatching(c, items, tag, value) == ParseMatching(c, items, other, value)
    decreases |items|
  {
    if items != [] {
      assert TokenName(items[0]) <= tag <==> TokenName(items[0]) <= other;
      var r := if TokenName(items[0]) <= tag then ParseAs(c, items[0], value) else Ok(c);
      if r.Ok? { MatchingSameTags(r.value, items[1..], tag, other, value); }
    }
  }

  lemma TagWithTail(i: Item, tag: string, tail: string)
    requires Blank(tail)
    ensures TokenName(i) <= tag + tail <==> TokenName(i) <= tag
  {
    var n := TokenName(i);
    TokenNamesTrimmed(i);
    assert forall k :: |tag| <= k < |tag + tail| ==> IsSpace((tag + tail)[k]);
    assert n <= tag + tail ==> n[|n| - 1] == (tag + tail)[|n| - 1];
    if n <= tag { assert (tag + tail)[..|n|] == tag[..|n|]; }
    if n <= tag + tail { assert tag[..|n|] == (tag + tail)[..|n|]; }
  }

  lemma NoTokenInPart(s: string, tail: string, p: string)
    requires !Contains(s + tail, p)
    ensures !Contains(s, p)
  {
    if Contains(s, p) {
      var i :| 0 <= i <= |s| && At(s, i, p);
      AtPrefix(s, tail, i, p);
      assert false;
    }
  }

  lemma OnlyAtPrefix(s: string, tail: string, k: int, p: string)
    requires OnlyAt(s + tail, k, p)
    ensures if 0 <= k && k + |p| <= |s| then OnlyAt(s, k, p) else !Contains(s, p)
  {
    forall j | At(s, j, p) ensures j == k { AtPrefix(s, tail, j, p); }
    if 0 <= k && k + |p| <= |s| { AtPrefix(s, tail, k, p); }
  }

  lemma BlankTagMatchesNothing(c: Config, tag: string, value: string)
    requires Blank(tag)
    ensures ParseMatching(c, ITEMS, tag, value) == Ok(c)
  {
    forall k | 0 <= k < |ITEMS| ensures !(TokenName(ITEMS[k]) <= tag) {
      TokenNamesTrimmed(ITEMS[k]);
      TagWithTail(ITEMS[k], "", tag);
      assert "" + tag == tag;
    }
    NoMatch(c, ITEMS, tag, value);
  }

  lemma TailBehindToken(s: string, tail: string, a: string, b: string)
    requires s + tail == a + TOKEN + b && |a| + |TOKEN| <= |s|
    ensures s == a + TOKEN + s[|a| + |TOKEN|..] && b == s[|a| + |TOKEN|..] + tail
  {
    var n := |a| + |TOKEN|;
    assert s[..n] == (s + tail)[..n] && (a + TOKEN + b)[..n] == a + TOKEN;
    assert b == (a + TOKEN + b)[n..] && s[n..] + tail == (s + tail)[n..];
  }

  /** A line that parses still parses, to the same, without the spaces at its end. */
  lemma ParseWithoutTail(c: Config, s: string, tail: string)
    requires Blank(tail) && ParseLine(c, s + tail).Ok?
    ensures ParseLine(c, s) == ParseLine(c, s + tail)
  {
    var line := s + tail;
    if !Contains(line, TOKEN) {
      NoTokenInPart(s, tail, TOKEN);
    } else {
      R.TwoPiecesOnly(line);
      var a, b := Split(line, TOKEN)[0], Split(line, TOKEN)[1];
      OnlyAtPrefix(s, tail, |a|, TOKEN);
      if |a| + |TOKEN| <= |s| {
        var tag := s[|a| + |TOKEN|..];
        TailBehindToken(s, tail, a, b);
        SplitTwo(a, TOKEN, tag);
        assert Contains(s, TOKEN) by { AtInfix(a, TOKEN, tag); }
        forall k | 0 <= k < |ITEMS|
          ensures TokenName(ITEMS[k]) <= tag <==> TokenName(ITEMS[k]) <= b
        {
          TagWithTail(ITEMS[k], tag, tail);
        }
        MatchingSameTags(c, ITEMS, tag, b, Strip(a));
      } else {
        assert Blank(b) by { assert forall k :: 0 <= k < |b| ==> b[k] == tail[|tail| - |b| + k]; }
        BlankTagMatchesNothing(c, b, Strip(a));
      }
    }
  }

  lemma ParseRStripped(c: Config, line: string)
    requires ParseLine(c, line).Ok?
    ensures ParseLine(c, RStrip(line)) == ParseLine(c, line)
  {
    RStripParts(line);
    var r := RStrip(line);
    assert r + line[|r|..] == line;
    ParseWithoutTail(c, r, line[|r|..]);
  }

  // ---------------------------------------------------------------- which lines touch the backend

  predicate IsBackendItem(i: Item) { i.BackendServer? || i.HttpChk? }

  lemma {:induction false} OtherItemsKeepBackend(c: Config, items: seq<Item>, tag: string, value: string,
                                                 m: map<string, Backend>)
    requires forall k :: 0 <= k < |items| && TokenName(items[k]) <= tag ==> !IsBackendItem(items[k])
    requires ParseMatching(c, items, tag, value).Ok?
    ensures ParseMatching(c.(backend := m), items, tag, value)
      == Ok(ParseMatching(c, items, tag, value).value.(backend := m))
    decreases |items|
  {
    if items != [] {
      if TokenName(items[0]) <= tag {
        ItemFrame(c, items[0], value, m);
        OtherItemsKeepBackend(ParseAs(c, items[0], value).value, items[1..], tag, value, m);
      } else {
        OtherItemsKeepBackend(c, items[1..], tag, value, m);
      }
    }
  }

  lemma ItemFrame(c: Config, i: Item, value: string, m: map<string, Backend>)
    requires !IsBackendItem(i) && ParseAs(c, i, value).Ok?
    ensures ParseAs(c.(backend := m), i, value) == Ok(ParseAs(c, i, value).value.(backend := m))
  {
  }

  lemma {:induction false} BackendItemsTouchOnlyBackend(c: Config, items: seq<Item>, tag: string, value: string)
    requires forall k :: 0 <= k < |items| && TokenName(items[k]) <= tag ==> IsBackendItem(items[k])
    requires ParseMatching(c, items, tag, value).Ok?
    ensures var d := ParseMatching(c, items, tag, value).value; d == c.(backend := d.backend)
    decreases |items|
  {
    if items != [] {
      if TokenName(items[0]) <= tag {
        BackendItemsTouchOnlyBackend(ParseAs(c, items[0], value).value, items[1..], tag, value);
      } else {
        BackendItemsTouchOnlyBackend(c, items[1..], tag, value);
      }
    }
  }

  lemma FirstChars(i: Item)
    ensures |TokenName(i)| > 0 && (TokenName(i)[0] == 'b' <==> IsBackendItem(i))
  {
  }

  lemma BackendNamesBegin(i: Item)
    requires IsBackendItem(i)
    ensures "backend bck_http_plain" <= TokenName(i)
  {
    assert TokenName(BackendServer)[..22] == "backend bck_http_plain";
    assert TokenName(HttpChk)[..22] == "backend bck_http_plain";
  }

  lemma BackendItemNames(i: Item, tag: string)
    requires TokenName(i) <= tag
    ensures IsBackendItem(i) <==> "backend bck_http_plain" <= tag
  {
    FirstChars(i);
    assert TokenName(i)[0] == tag[0];
    if IsBackendItem(i) { BackendNamesBegin(i); }
  }

  /** The lines that the agent drops hold backends and nothing else; the lines it keeps hold anything but. */
  lemma LineFrame(c: Config, line: string, m: map<string, Backend>)
    requires ParseLine(c, line).Ok?
    ensures if Contains(line, BACKEND_TAG)
            then ParseLine(c, line).value == c.(backend := ParseLine(c, line).value.backend)
            else ParseLine(c.(backend := m), line) == Ok(ParseLine(c, line).value.(backend := m))
  {
    if Contains(line, TOKEN) {
      R.TwoPiecesOnly(line);
      var a, b := Split(line, TOKEN)[0], Split(line, TOKEN)[1];
      R.TagTest(line, "backend bck_http_plain");
      forall k | 0 <= k < |ITEMS| && TokenName(ITEMS[k]) <= b
        ensures IsBackendItem(ITEMS[k]) <==> Contains(line, BACKEND_TAG)
      {
        BackendItemNames(ITEMS[k], b);
      }
      if !("#" <= Strip(a)) {
        if Contains(line, BACKEND_TAG) {
          BackendItemsTouchOnlyBackend(c, ITEMS, b, Strip(a));
        } else {
          OtherItemsKeepBackend(c, ITEMS, b, Strip(a), m);
        }
      }
    } else {
      BackendTagNeedsToken(line);
    }
  }

  lemma BackendTagNeedsToken(line: string)
    requires Contains(line, BACKEND_TAG)  || Contains(line, BEGIN_TAG) || !Contains(line, TOKEN)
    ensures Contains(line, BACKEND_TAG) || Contains(line, BEGIN_TAG) ==> Contains(line, TOKEN)
  {
    AtInfix("", TOKEN, "backend bck_http_plain");
    assert "" + TOKEN + "backend bck_http_plain" == BACKEND_TAG;
    AtInfix("", TOKEN, "begin backend bck_http_plain");
    assert "" + TOKEN + "begin backend bck_http_plain" == BEGIN_TAG;
    if Contains(line, BACKEND_TAG) { R.ContainsThrough(line, BACKEND_TAG, TOKEN); }
    if Contains(line, BEGIN_TAG) { R.ContainsThrough(line, BEGIN_TAG, TOKEN); }
  }

  // ---------------------------------------------------------------- the server texts

  function Listed(m: map<string, Backend>, order: seq<string>): map<string, Backend>
    requires forall k :: 0 <= k < |order| ==> order[k] in m
  {
    map name | name in order :: m[name]
  }

  ghost predicate GoodOrder(m: map<string, Backend>, order: seq<string>) {
    forall k :: 0 <= k < |order| ==>
      order[k] in m && m[order[k]].Server? && GoodName(order[k]) && GoodServer(m[order[k]])
  }

  lemma ListedCons(m: map<string, Backend>, order: seq<string>, x: map<string, Backend>)
    requires order != [] && forall k :: 0 <= k < |order| ==> order[k] in m
    ensures x[order[0] := m[order[0]]] + Listed(m, order[1..]) == x + Listed(m, order)
  {
    assert order == [order[0]] + order[1..];
  }

  /** The printed servers read back as the servers. */
  lemma {:induction false} TextsRead(c: Config, m: map<string, Backend>, order: seq<string>)
    requires GoodOrder(m, order)
    ensures ParseLines(c, ServerTexts(m, order)) == Ok(c.(backend := c.backend + Listed(m, order)))
    decreases |order|
  {
    if order == [] {
      assert c.backend + Listed(m, order) == c.backend;
    } else {
      var name := order[0];
      R.ServerTextReads(c, "", name, m[name]);
      assert "" + ServerText(name, m[name]) == ServerText(name, m[name]);
      TextsRead(c.(backend := c.backend[name := m[name]]), m, order[1..]);
      ListedCons(m, order, c.backend);
      ParseLinesAppend(c, [ServerText(name, m[name])], ServerTexts(m, order[1..]));
    }
  }

  lemma ServerTextEnd(name: string, b: Backend)
    requires GoodName(name) && b.Server?
    ensures var x := ServerText(name, b); x != "" && !IsSpace(x[|x| - 1])
    ensures Contains(ServerText(name, b), BACKEND_TAG)
  {
    var x := ServerText(name, b);
    var front := ServerValue(name, b) + " ";
    assert SERVER_TAG == "backend bck_http_plain" + ":server--";
    assert x == front + BACKEND_TAG + (":server--" + name);
    AtInfix(front, BACKEND_TAG, ":server--" + name);
    assert x[|x| - 1] == (":server--" + name)[|name| + 8];
  }

  lemma {:induction false} JoinEnd(texts: seq<string>)
    requires texts != [] && (var x := texts[|texts| - 1]; x != "" && !IsSpace(x[|x| - 1]))
    ensures var j := Join("\n", texts); j != "" && !IsSpace(j[|j| - 1])
    decreases |texts|
  {
    if |texts| > 1 {
      JoinEnd(texts[1..]);
      var j, rest := Join("\n", texts), Join("\n", texts[1..]);
      assert j[|j| - 1] == rest[|rest| - 1];
    }
  }

  // ---------------------------------------------------------------- the lines of the new file

  function NewLinesOf(line: string, texts: seq<string>): seq<string> {
    if Contains(line, BACKEND_TAG) then []
    else if Contains(line, BEGIN_TAG) && texts != [] then [line, ""] + texts
    else [RStrip(line)]
  }

  function NewLines(lines: seq<string>, texts: seq<string>): seq<string> {
    if lines == [] then [] else NewLinesOf(lines[0], texts) + NewLines(lines[1..], texts)
  }

  ghost predicate Inserted(texts: seq<string>) {
    OneLiners(texts) && forall k :: 0 <= k < |texts| ==> texts[k] != "" && !IsSpace(texts[k][|texts[k]| - 1])
  }

  lemma KeptPlainLine(line: string)
    requires '\n' !in line
    ensures Lines(RStrip(line + "\n" + "\n" + "")) == [RStrip(line)]
  {
    assert line + "\n" + "\n" + "" == line + "\n\n";
    RStripIgnoresTail(line, "\n\n");
    RStripParts(line);
    LinesOne(RStrip(line));
  }

  lemma KeptMarkerLine(line: string, texts: seq<string>)
    requires '\n' !in line && Inserted(texts) && texts != []
    ensures Lines(RStrip(line + "\n" + "\n" + Join("\n", texts))) == [line, ""] + texts
  {
    var j := Join("\n", texts);
    JoinEnd(texts);
    RStripKeeps(line + "\n" + "\n", j);
    LinesOfJoin(texts);
    LinesAfterGap(line, j);
    assert [line] + ([""] + texts) == [line, ""] + texts;
  }

  lemma LinesAfterGap(line: string, j: string)
    requires '\n' !in line
    ensures Lines(line + "\n" + "\n" + j) == [line] + ([""] + Lines(j))
  {
    assert line + "\n" + "\n" + j == line + "\n" + ("" + "\n" + j);
    LinesCons(line, "" + "\n" + j);
    LinesCons("", j);
  }

  lemma RStripKeeps(s: string, j: string)
    requires j != "" && !IsSpace(j[|j| - 1])
    ensures RStrip(s + j) == s + j
  {
  }

  lemma KeptLine(line: string, texts: seq<string>)
    requires '\n' !in line && Inserted(texts) && !Contains(line, BACKEND_TAG)
    ensures Lines(NewElement(line, texts)) == NewLinesOf(line, texts)
  {
    if Contains(line, BEGIN_TAG) && texts != [] {
      KeptMarkerLine(line, texts);
    } else {
      KeptPlainLine(line);
    }
  }

  lemma {:induction false} ElementsAreNewLines(lines: seq<string>, texts: seq<string>)
    requires OneLiners(lines) && Inserted(texts)
    ensures AllLines(NewElements(lines, texts)) == NewLines(lines, texts)
    decreases |lines|
  {
    if lines != [] {
      ElementsAreNewLines(lines[1..], texts);
      if !Contains(lines[0], BACKEND_TAG) {
        KeptLine(lines[0], texts);
        assert ([NewElement(lines[0], texts)] + NewElements(lines[1..], texts))[1..] == NewElements(lines[1..], texts);
      } else {
        assert [] + NewElements(lines[1..], texts) == NewElements(lines[1..], texts);
        assert [] + NewLines(lines[1..], texts) == NewLines(lines[1..], texts);
      }
    }
  }

  // ---------------------------------------------------------------- reading the new file

  /** The backends found after reading the new file's lines, having found x before. */
  function Found(x: map<string, Backend>, lines: seq<string>, m: map<string, Backend>): map<string, Backend> {
    if HasMarker(lines) then x + m else x
  }

  lemma MarkerCons(lines: seq<string>)
    requires lines != []
    ensures HasMarker(lines) <==> IsMarker(lines[0]) || HasMarker(lines[1..])
  {
    assert lines == [lines[0]] + lines[1..];
  }

  ghost predicate Lists(m: map<string, Backend>, order: seq<string>) { forall name :: name in order <==> name in m }

  lemma OneLineReads(c: Config, line: string, m: map<string, Backend>, order: seq<string>, x: map<string, Backend>)
    requires ParseLine(c, line).Ok? && !Contains(line, BACKEND_TAG) && GoodOrder(m, order) && Lists(m, order)
    ensures ParseLines(c.(backend := x), NewLinesOf(line, ServerTexts(m, order))) ==
      Ok(ParseLine(c, line).value.(backend := if Contains(line, BEGIN_TAG) then x + m else x))
  {
    var texts := ServerTexts(m, order);
    var c1, d := c.(backend := x), ParseLine(c, line).value;
    LineFrame(c, line, x);
    assert Listed(m, order) == m;
    if Contains(line, BEGIN_TAG) && texts != [] {
      ParseLinesAppend(c1, [line, ""], texts);
      assert [line, ""] == [line] + [""];
      ParseLinesAppend(c1, [line], [""]);
      assert !Contains("", TOKEN);
      TextsRead(d.(backend := x), m, order);
    } else {
      ParseRStripped(c1, line);
      assert ParseLines(c1, [RStrip(line)]) == ParseLine(c1, RStrip(line));
      if Contains(line, BEGIN_TAG) {
        assert order == [];
        assert x + m == x;
      }
    }
  }

  /** Old lines tagged as backends do not matter; what matters is whether a line marks where the new ones go. */
  lemma {:induction false} NewLinesRead(c: Config, lines: seq<string>, m: map<string, Backend>, order: seq<string>,
                                        x: map<string, Backend>)
    requires ParseLines(c, lines).Ok? && GoodOrder(m, order) && Lists(m, order)
    ensures ParseLines(c.(backend := x), NewLines(lines, ServerTexts(m, order))) ==
      Ok(ParseLines(c, lines).value.(backend := Found(x, lines, m)))
    decreases |lines|
  {
    var texts := ServerTexts(m, order);
    if lines != [] {
      MarkerCons(lines);
      var d := ParseLine(c, lines[0]).value;
      ParseLinesAppend(c.(backend := x), NewLinesOf(lines[0], texts), NewLines(lines[1..], texts));
      if Contains(lines[0], BACKEND_TAG) {
        LineFrame(c, lines[0], x);
        NewLinesRead(d, lines[1..], m, order, x);
        assert d.(backend := x) == c.(backend := x);
      } else {
        OneLineReads(c, lines[0], m, order, x);
        var y := if Contains(lines[0], BEGIN_TAG) then x + m else x;
        NewLinesRead(d, lines[1..], m, order, y);
        assert x + m + m == x + m;
      }
    }
  }

  /** str.splitlines: an empty last line does not count. */
  function SplitLines(data: string): seq<string> {
    var lines := Lines(data);
    if lines[|lines| - 1] == "" then lines[..|lines| - 1] else lines
  }

  /** The parser does not mind the empty last line. */
  lemma SplitLinesParse(c: Config, data: string)
    ensures ParseLines(c, SplitLines(data)) == ParseLines(c, Lines(data))
  {
    var lines := Lines(data);
    if lines[|lines| - 1] == "" {
      ParseLinesAppend(c, lines[..|lines| - 1], [""]);
      assert lines == lines[..|lines| - 1] + [""];
      assert !Contains("", TOKEN);
      var r := ParseLines(c, lines[..|lines| - 1]);
      if r.Ok? { assert ParseLines(r.value, [""]) == Ok(r.value); }
    }
  }

  function NewText(data: string, m: map<string, Backend>, order: seq<string>): string
    requires forall k :: 0 <= k < |order| ==> order[k] in m && m[order[k]].Server?
  {
    Join("\n", NewElements(SplitLines(data), ServerTexts(m, order)))
  }

  lemma {:induction false} TextsInserted(m: map<string, Backend>, order: seq<string>)
    requires GoodOrder(m, order)
    ensures Inserted(ServerTexts(m, order))
    decreases |order|
  {
    if order != [] {
      R.ServerTextReads(EMPTY, "", order[0], m[order[0]]);
      assert "" + ServerText(order[0], m[order[0]]) == ServerText(order[0], m[order[0]]);
      ServerTextEnd(order[0], m[order[0]]);
      TextsInserted(m, order[1..]);
      InsertedCons(ServerText(order[0], m[order[0]]), ServerTexts(m, order[1..]));
    }
  }

  lemma InsertedCons(text: string, texts: seq<string>)
    requires '\n' !in text && text != "" && !IsSpace(text[|text| - 1]) && Inserted(texts)
    ensures Inserted([text] + texts)
  {
  }

  /** What is on disk after the save, line by line. */
  lemma NewTextLines(data: string, m: map<string, Backend>, order: seq<string>)
    requires GoodOrder(m, order)
    ensures var lines := NewLines(SplitLines(data), ServerTexts(m, order));
      Lines(NewText(data, m, order)) == if lines == [] then [""] else lines
  {
    var before, texts := SplitLines(data), ServerTexts(m, order);
    LinesAreOneLiners(data);
    TextsInserted(m, order);
    ElementsAreNewLines(before, texts);
    var elements := NewElements(before, texts);
    if elements == [] {
      LinesOne("");
    } else {
      LinesOfElements(elements);
    }
  }

  /** Main result: the saved file has exactly the backends it was given if it marks where they go, and none if it does
      not; everything else reads as before. */
  lemma SavedReadsBack(data: string, c: Config, m: map<string, Backend>, order: seq<string>)
    requires ConfigFromString(data) == Ok(c) && GoodOrder(m, order) && Lists(m, order)
    ensures ConfigFromString(NewText(data, m, order))
      == Ok(c.(backend := if HasMarker(SplitLines(data)) then m else map[]))
  {
    var lines := SplitLines(data);
    SplitLinesParse(EMPTY, data);
    NewLinesRead(EMPTY, lines, m, order, map[]);
    NewTextLines(data, m, order);
    assert EMPTY.(backend := map[]) == EMPTY;
    assert map[] + m == m;
    if NewLines(lines, ServerTexts(m, order)) == [] { assert !Contains("", TOKEN); }
  }

  // ---------------------------------------------------------------- the rest of the file

  /** The lines that are not tagged as backends, without the spaces at their ends. */
  function UntaggedLines(lines: seq<string>): seq<string> {
    if lines == [] then []
    else (if Contains(lines[0], BACKEND_TAG) then [] else [RStrip(lines[0])]) + UntaggedLines(lines[1..])
  }

  /** What becomes of one of them: a blank line follows a begin marker if there are servers to follow. */
  function WithGap(line: string, servers: bool): seq<string> {
    if Contains(line, BACKEND_TAG) then [] else [RStrip(line)] + if servers && IsMarker(line) then [""] else []
  }

  function WithGaps(lines: seq<string>, servers: bool): seq<string> {
    if lines == [] then [] else WithGap(lines[0], servers) + WithGaps(lines[1..], servers)
  }

  lemma {:induction false} UntaggedAppend(a: seq<string>, b: seq<string>)
    ensures UntaggedLines(a + b) == UntaggedLines(a) + UntaggedLines(b)
    decreases |a|
  {
    if a == [] {
      assert a + b == b;
    } else {
      assert (a + b)[0] == a[0] && (a + b)[1..] == a[1..] + b;
      UntaggedAppend(a[1..], b);
    }
  }

  lemma {:induction false} TextsAreTagged(m: map<string, Backend>, order: seq<string>)
    requires GoodOrder(m, order)
    ensures UntaggedLines(ServerTexts(m, order)) == []
    decreases |order|
  {
    if order != [] {
      ServerTextEnd(order[0], m[order[0]]);
      TextsAreTagged(m, order[1..]);
    }
  }

  lemma UntaggedStripped(line: string)
    requires !Contains(line, BACKEND_TAG)
    ensures UntaggedLines([RStrip(line)]) == [RStrip(line)]
  {
    RStripParts(line);
    var r := RStrip(line);
    assert r + line[|r|..] == line;
    NoTokenInPart(r, line[|r|..], BACKEND_TAG);
    RStripPadded(r, "");
    assert r + "" == r;
  }

  lemma UntaggedMarker(line: string, texts: seq<string>)
    requires UntaggedLines(texts) == [] && !Contains(line, BACKEND_TAG)
    ensures UntaggedLines([line, ""] + texts) == [RStrip(line), ""]
  {
    UntaggedAppend([line, ""], texts);
    UntaggedAppend([line], [""]);
    assert [line, ""] == [line] + [""] && !Contains("", BACKEND_TAG);
  }

  lemma UntaggedOne(line: string, texts: seq<string>)
    requires UntaggedLines(texts) == []
    ensures UntaggedLines(NewLinesOf(line, texts)) == WithGap(line, texts != [])
  {
    if !Contains(line, BACKEND_TAG) {
      if Contains(line, BEGIN_TAG) && texts != [] {
        UntaggedMarker(line, texts);
      } else {
        UntaggedStripped(line);
      }
    }
  }

  /** Main result: whatever is not tagged as a backend keeps its order and its text; blank lines stay, and the only ones
      added are the gaps after begin markers. */
  lemma {:induction false} UntaggedLinesKept(lines: seq<string>, m: map<string, Backend>, order: seq<string>)
    requires GoodOrder(m, order)
    ensures UntaggedLines(NewLines(lines, ServerTexts(m, order))) == WithGaps(lines, order != [])
    decreases |lines|
  {
    if lines != [] {
      var texts := ServerTexts(m, order);
      TextsAreTagged(m, order);
      UntaggedOne(lines[0], texts);
      UntaggedLinesKept(lines[1..], m, order);
      UntaggedAppend(NewLinesOf(lines[0], texts), NewLines(lines[1..], texts));
    }
  }

  function NonBlank(lines: seq<string>): seq<string> {
    if lines == [] then [] else (if lines[0] == "" then [] else [lines[0]]) + NonBlank(lines[1..])
  }

  /** The untagged lines that hold something, which is what any number of saves leaves alone. */
  function OtherLines(lines: seq<string>): seq<string> { NonBlank(UntaggedLines(lines)) }

  lemma {:induction false} NonBlankAppend(a: seq<string>, b: seq<string>)
    ensures NonBlank(a + b) == NonBlank(a) + NonBlank(b)
    decreases |a|
  {
    if a == [] {
      assert a + b == b;
    } else {
      assert (a + b)[0] == a[0] && (a + b)[1..] == a[1..] + b;
      NonBlankAppend(a[1..], b);
    }
  }

  lemma OtherLinesAppend(a: seq<string>, b: seq<string>)
    ensures OtherLines(a + b) == OtherLines(a) + OtherLines(b)
  {
    UntaggedAppend(a, b);
    NonBlankAppend(UntaggedLines(a), UntaggedLines(b));
  }

  lemma GapIsBlank(line: string, servers: bool)
    ensures NonBlank(WithGap(line, servers)) == OtherLines([line])
  {
    assert [line][1..] == [];
    if !Contains(line, BACKEND_TAG) {
      assert UntaggedLines([line]) == [RStrip(line)];
      NonBlankAppend([RStrip(line)], [""]);
      assert NonBlank([""]) == [];
      assert [RStrip(line)] + [] == [RStrip(line)];
    }
  }

  lemma {:induction false} GapsAreBlank(lines: seq<string>, servers: bool)
    ensures NonBlank(WithGaps(lines, servers)) == OtherLines(lines)
    decreases |lines|
  {
    if lines != [] {
      NonBlankAppend(WithGap(lines[0], servers), WithGaps(lines[1..], servers));
      GapIsBlank(lines[0], servers);
      GapsAreBlank(lines[1..], servers);
      OtherLinesAppend([lines[0]], lines[1..]);
      assert [lines[0]] + lines[1..] == lines;
    }
  }

  lemma OtherLinesKept(lines: seq<string>, m: map<string, Backend>, order: seq<string>)
    requires GoodOrder(m, order)
    ensures OtherLines(NewLines(lines, ServerTexts(m, order))) == OtherLines(lines)
  {
    UntaggedLinesKept(lines, m, order);
    GapsAreBlank(lines, order != []);
  }

  // ---------------------------------------------------------------- adding and removing

  /** The backends after the edit, or the error it runs into. */
  function Edited(m: map<string, Backend>, action: string, name: string): Result<map<string, Backend>> {
    if action == "remove" then
      if name in m then Ok(m - {name}) else Raised("KeyError")
    else if action == "add" then Ok(m[name := DEFAULT_SERVER])
    else Raised("Exception")
  }

  ghost predicate AllGood(m: map<string, Backend>)
  {
    forall name :: name in m ==> GoodName(name) && GoodServer(m[name])
  }

  lemma DefaultExtraIsGood()
    ensures GoodExtra(DEFAULT_EXTRA)
  {
    assert '#' !in DEFAULT_EXTRA && '\n' !in DEFAULT_EXTRA && '\t' !in DEFAULT_EXTRA;
    NoTokenWithoutHash(DEFAULT_EXTRA + " ");
  }

  lemma DefaultIsGood()
    ensures GoodServer(DEFAULT_SERVER)
  {
    DefaultExtraIsGood();
    assert Over("127.0.0.1", IsHostChar);
    assert Over("123456", IsDigit);
  }

  lemma EditedIsGood(m: map<string, Backend>, action: string, name: string, order: seq<string>)
    requires AllGood(m) && GoodName(name) && Edited(m, action, name).Ok? && Lists(Edited(m, action, name).value, order)
    ensures AllGood(Edited(m, action, name).value) && GoodOrder(Edited(m, action, name).value, order)
  {
    DefaultIsGood();
    forall k | 0 <= k < |order| ensures order[k] in Edited(m, action, name).value { assert order[k] in order; }
  }

  /** Adding a server reads back as the old backends and the default entry, removing one as the old backends without it,
      exactly when the file says where servers go or none is left. */
  lemma EditReadsBack(data: string, c: Config, action: string, name: string, order: seq<string>)
    requires ConfigFromString(data) == Ok(c) && AllGood(c.backend) && GoodName(name)
    requires Edited(c.backend, action, name).Ok? && Lists(Edited(c.backend, action, name).value, order)
    ensures GoodOrder(Edited(c.backend, action, name).value, order)
    ensures ConfigFromString(NewText(data, Edited(c.backend, action, name).value, order)) == Ok(c.(backend :=
      if !HasMarker(SplitLines(data)) then map[]
      else if action == "add" then c.backend[name := Server("127.0.0.1", "123456", "check inter 2s rise 2 fall 2")]
      else c.backend - {name}))
  {
    EditedIsGood(c.backend, action, name, order);
    SavedReadsBack(data, c, Edited(c.backend, action, name).value, order);
  }

  // ---------------------------------------------------------------- what the next save finds

  lemma MarkerStripped(line: string)
    requires IsMarker(line)
    ensures IsMarker(RStrip(line))
  {
    ContainsRStripped(line, BEGIN_TAG);
    RStripParts(line);
    var r := RStrip(line);
    assert r + line[|r|..] == line;
    NoTokenInPart(r, line[|r|..], BACKEND_TAG);
  }

  lemma {:induction false} MarkerKept(lines: seq<string>, k: nat, texts: seq<string>)
    requires k < |lines| && IsMarker(lines[k])
    ensures exists j :: 0 <= j < |NewLines(lines, texts)| && IsMarker(NewLines(lines, texts)[j])
    decreases |lines|
  {
    var first, rest := NewLinesOf(lines[0], texts), NewLines(lines[1..], texts);
    var all := NewLines(lines, texts);
    if k == 0 {
      MarkerStripped(lines[0]);
      assert all[0] == first[0];
      assert IsMarker(all[0]);
    } else {
      MarkerKept(lines[1..], k - 1, texts);
      var j :| 0 <= j < |rest| && IsMarker(rest[j]);
      assert all[|first| + j] == rest[j];
    }
  }

  /** A file that marks the place for servers still does after the save. */
  lemma MarkerStays(data: string, m: map<string, Backend>, order: seq<string>)
    requires HasMarker(SplitLines(data)) && GoodOrder(m, order)
    ensures HasMarker(SplitLines(NewText(data, m, order)))
  {
    var before, texts := SplitLines(data), ServerTexts(m, order);
    var k :| 0 <= k < |before| && IsMarker(before[k]);
    MarkerKept(before, k, texts);
    NewTextLines(data, m, order);
    var j :| 0 <= j < |NewLines(before, texts)| && IsMarker(NewLines(before, texts)[j]);
    MarkerInLines(NewText(data, m, order), j);
  }

  lemma MarkerInLines(data: string, j: nat)
    requires j < |Lines(data)| && IsMarker(Lines(data)[j])
    ensures HasMarker(SplitLines(data))
  {
    assert |BEGIN_TAG| > 0 && !Contains("", BEGIN_TAG);
    assert SplitLines(data)[j] == Lines(data)[j];
  }

  /** Nor does a save make a place for servers where there was none. */
  lemma {:induction false} NoMarkerMade(lines: seq<string>)
    requires !HasMarker(lines)
    ensures !HasMarker(NewLines(lines, []))
    decreases |lines|
  {
    if lines != [] {
      MarkerCons(lines);
      NoMarkerMade(lines[1..]);
      if !Contains(lines[0], BACKEND_TAG) {
        RStripParts(lines[0]);
        var r := RStrip(lines[0]);
        assert r + lines[0][|r|..] == lines[0];
        NoTokenInPart(r, lines[0][|r|..], BEGIN_TAG);
        MarkerCons([r] + NewLines(lines[1..], []));
      } else {
        assert [] + NewLines(lines[1..], []) == NewLines(lines[1..], []);
      }
    }
  }

  lemma NoMarkerStays(data: string)
    requires !HasMarker(SplitLines(data))
    ensures !HasMarker(SplitLines(NewText(data, map[], [])))
  {
    var text := NewText(data, map[], []);
    NoMarkerMade(SplitLines(data));
    NewTextLines(data, map[], []);
    assert !Contains("", BEGIN_TAG);
    assert forall k :: 0 <= k < |SplitLines(text)| ==> SplitLines(text)[k] == Lines(text)[k];
  }

  lemma OtherSplitLines(data: string)
    ensures OtherLines(SplitLines(data)) == OtherLines(Lines(data))
    ensures OtherLines([""]) == []
  {
    var lines := Lines(data);
    assert !Contains("", BACKEND_TAG);
    if lines[|lines| - 1] == "" {
      OtherLinesAppend(lines[..|lines| - 1], [""]);
      assert lines == lines[..|lines| - 1] + [""];
    }
  }

  /** Whatever the file holds besides backends and blank lines stays in it. */
  lemma OtherTextKept(data: string, m: map<string, Backend>, order: seq<string>)
    requires GoodOrder(m, order)
    ensures OtherLines(Lines(NewText(data, m, order))) == OtherLines(Lines(data))
  {
    OtherLinesKept(SplitLines(data), m, order);
    NewTextLines(data, m, order);
    OtherSplitLines(data);
  }
}
