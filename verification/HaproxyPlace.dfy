/** Saving a configuration and adding servers work on the same file: whether a save leaves the place that additions look
    for. */
module HaproxyPlace {
  import opened Commons
  import opened Text
  import opened HaproxyConfig
  import opened HaproxyRoundTrip
  import opened HaproxySaving
  import A = HaproxyAgent

  /** A begin marker that the printer writes out again: one that nothing stands in front of. */
  predicate AtLineStart(line: string) { TOKEN + "begin" <= line && Contains(line, A.BEGIN_TAG) }

  predicate Marks(text: string) { A.HasMarker(Lines(text)) }

  const PLACE := "begin backend bck_http_plain"

  // ---------------------------------------------------------------- one line

  /** A line with one token is a marker exactly when its tag says so. */
  lemma OneTokenMarker(line: string)
    requires Contains(line, TOKEN) && OnlyAt(line, Find(line, TOKEN), TOKEN)
    ensures A.IsMarker(line) <==> PLACE <= TagOf(line)
    ensures Contains(line, A.BEGIN_TAG) <==> PLACE <= TagOf(line)
  {
    TagTest(line, PLACE);
    TagTest(line, "backend bck_http_plain");
    assert PLACE[1] == 'e';
  }

  lemma NoTokenNoMarker(line: string)
    requires !Contains(line, TOKEN)
    ensures !Contains(line, A.BEGIN_TAG)
  {
    if Contains(line, A.BEGIN_TAG) {
      AtInfix("", TOKEN, PLACE);
      assert "" + TOKEN + PLACE == A.BEGIN_TAG;
      ContainsThrough(line, A.BEGIN_TAG, TOKEN);
      assert false;
    }
  }

  lemma OneLineMarks(line: string)
    requires '\n' !in line
    ensures Marks(line) <==> A.IsMarker(line)
  {
    LinesOne(line);
    assert Lines(line)[0] == line;
  }

  /** A line printed for a tag that does not begin with "be" is no marker. */
  lemma TaggedMarksNothing(before: string, tag: string)
    requires !Contains(before, TOKEN) && '#' !in tag && '\n' !in before && '\n' !in tag
    requires |tag| > 1 && (tag[0] != 'b' || tag[1] != 'e')
    ensures !Marks(before + TOKEN + tag)
  {
    var line := before + TOKEN + tag;
    TokenOnce(before, tag);
    assert Find(line, TOKEN) == |before|;
    assert TagOf(line) == tag;
    OneTokenMarker(line);
    assert PLACE[0] == 'b' && PLACE[1] == 'e';
    assert '\n' !in TOKEN;
    OneLineMarks(line);
  }

  lemma CopiedMarksNothing(line: string)
    requires TemplateLine(line) && EffectOf(line).Copied?
    ensures !AtLineStart(line) && !Marks(Body(line))
  {
    var body := Body(line);
    OneLineMarks(body);
    assert line == body + line[|body|..];
    if Contains(body, A.BEGIN_TAG) { PartsContain(body, line[|body|..], A.BEGIN_TAG); }
    if Contains(line, A.BEGIN_TAG) {
      BeginTagHolds();
      ContainsThrough(line, A.BEGIN_TAG, "bck_http");
      ContainsThrough(line, A.BEGIN_TAG, TOKEN);
      assert false;
    }
  }

  lemma BeginTagHolds()
    ensures Contains(A.BEGIN_TAG, "bck_http") && Contains(A.BEGIN_TAG, TOKEN)
  {
    var front := TOKEN + "begin backend ";
    assert A.BEGIN_TAG == front + "bck_http" + "_plain";
    AtInfix(front, "bck_http", "_plain");
    AtInfix("", TOKEN, PLACE);
    assert "" + TOKEN + PLACE == A.BEGIN_TAG;
  }

  /** A printed option or server: a value, a space, the token, a tag. */
  lemma PrintedMarksNothing(pad: string, x: string, tag: string)
    requires '\n' !in pad && '\n' !in x && '\n' !in tag && '#' !in tag && !Contains(pad + (x + " "), TOKEN)
    requires |tag| > 1 && (tag[0] != 'b' || tag[1] != 'e')
    ensures var text := pad + (x + (" " + (TOKEN + tag))); '\n' !in text && !Marks(text)
  {
    PrintedParts(pad, x, tag);
    TaggedMarksNothing(pad + (x + " "), tag);
    assert '\n' !in TOKEN;
  }

  lemma PrintedParts(pad: string, x: string, tag: string)
    ensures pad + (x + (" " + (TOKEN + tag))) == pad + (x + " ") + TOKEN + tag
  {
    assert x + (" " + (TOKEN + tag)) == (x + " ") + TOKEN + tag;
  }

  lemma ShownTextMarksNothing(pad: string, from: Config, i: Item)
    requires '#' !in pad && '\n' !in pad && WellFormed(from) && Filled(from, i).Some? && IsEditable(i)
    ensures '\n' !in pad + FilledText(from, i) && !Marks(pad + FilledText(from, i))
  {
    var x, tag := Filled(from, i).value, TokenName(i);
    FilledShape(from, i);
    TokenNamesPlain(i);
    EditableTagsAreNotBackends(i, tag);
    NoTokenAfterPlain(pad, x + " ");
    PrintedMarksNothing(pad, x, tag);
  }

  lemma ShownMarksNothing(from: Config, line: string)
    requires WellFormed(from) && GoodLine(from, line) && EffectOf(line).Shows?
    ensures var text := Indent(line) + FilledText(from, EffectOf(line).item);
      PrintLine(from, line) == Ok(text + "\n") && '\n' !in text && !Marks(text)
  {
    ShownPrints(from, line);
    IndentPlain(line);
    var text := FilledText(from, EffectOf(line).item);
    assert Indent(line) + text + "" == Indent(line) + text;
    ShownTextMarksNothing(Indent(line), from, EffectOf(line).item);
  }

  lemma ShownIsNotAtStart(line: string)
    requires TemplateLine(line) && EffectOf(line).Shows?
    ensures !AtLineStart(line)
  {
    EditableTagsAreNotBackends(EffectOf(line).item, TagOf(line));
    MarkersNeedTags(line);
  }

  lemma ServerTextMarksNothing(pad: string, name: string, b: Backend)
    requires '#' !in pad && '\n' !in pad && GoodName(name) && GoodServer(b)
    ensures '\n' !in pad + ServerText(name, b) && !Marks(pad + ServerText(name, b))
  {
    var x := ServerValue(name, b);
    ServerShape(name, b);
    ServerHeadPlain(name, b);
    ServerParts(name, b);
    ServerTagPlain(name);
    NoTokenAfterPlain(pad, x + " ");
    assert SERVER_TAG[0] == 'b' && SERVER_TAG[1] == 'a';
    PrintedMarksNothing(pad, x, SERVER_TAG + name);
  }

  lemma ServerMarksNothing(from: Config, line: string)
    requires WellFormed(from) && GoodLine(from, line) && EffectOf(line).ShowsServer?
    ensures EffectOf(line).name in from.backend && from.backend[EffectOf(line).name].Server?
    ensures var text := Indent(line) + ServerText(EffectOf(line).name, from.backend[EffectOf(line).name]);
      PrintLine(from, line) == Ok(text + "\n") && '\n' !in text && !Marks(text)
  {
    ServerPrints(from, line);
    IndentPlain(line);
    var name := EffectOf(line).name;
    ServerTextMarksNothing(Indent(line), name, from.backend[name]);
    assert Indent(line) + "" == Indent(line);
  }

  lemma ServerIsNotAtStart(line: string)
    requires Contains(line, TOKEN) && OnlyAt(line, Find(line, TOKEN), TOKEN) && IsServerLine(line)
    ensures !AtLineStart(line)
  {
    TagTest(line, "backend");
    MarkersNeedTags(line);
    NotBoth(TagOf(line));
  }

  lemma NotBoth(tag: string)
    requires "backend" <= tag
    ensures !("begin" <= tag)
  {
    assert "backend"[1] == 'a' && "begin"[1] == 'e';
  }

  lemma PlaceBeforeNewline(tag: string)
    ensures PLACE <= tag + "\n" <==> PLACE <= tag
  {
    assert PLACE[|PLACE| - 1] == 'n';
    if PLACE <= tag { assert (tag + "\n")[..|PLACE|] == tag[..|PLACE|]; }
    if PLACE <= tag + "\n" { assert tag[..|PLACE|] == (tag + "\n")[..|PLACE|]; }
  }

  /** Spaces in front of a token do not matter. */
  lemma IndentedMarks(pad: string, body: string)
    requires '#' !in pad && '\n' !in pad && '\n' !in body && OnlyAt(body, 0, TOKEN)
    ensures Marks(pad + body) <==> PLACE <= body[|TOKEN|..]
  {
    var line := pad + body;
    AtShift(pad, body, 0, TOKEN);
    forall j | At(line, j, TOKEN) ensures j == |pad| { MarkerTokenThere(pad, body, j); }
    assert Find(line, TOKEN) == |pad|;
    assert TagOf(line) == body[|TOKEN|..];
    OneTokenMarker(line);
    OneLineMarks(line);
  }

  lemma EndedMarks(text: string)
    requires '\n' !in text
    ensures Marks(text + "\n") <==> Marks(text)
  {
    MarksAppend(text, "");
    assert text + "\n" + "" == text + "\n";
    NothingMarks();
  }

  lemma NothingMarks()
    ensures !Marks("")
  {
    OneLineMarks("");
    NoTokenWithoutHash("");
    NoTokenNoMarker("");
  }

  lemma MarksAppend(a: string, b: string)
    ensures Marks(a + "\n" + b) <==> Marks(a) || Marks(b)
  {
    A.LinesAppend(a, b);
    EitherMarks(Lines(a), Lines(b));
  }

  lemma EitherMarks(a: seq<string>, b: seq<string>)
    ensures A.HasMarker(a + b) <==> A.HasMarker(a) || A.HasMarker(b)
  {
    if A.HasMarker(a) {
      var k :| 0 <= k < |a| && A.IsMarker(a[k]);
      assert (a + b)[k] == a[k];
    }
    if A.HasMarker(b) {
      var k :| 0 <= k < |b| && A.IsMarker(b[k]);
      assert (a + b)[|a| + k] == b[k];
    }
  }

  lemma MarksBefore(first: string, more: string)
    requires Ends(first)
    ensures Marks(first + more) <==> Marks(Body(first)) || Marks(more)
  {
    MarksAppend(Body(first), more);
    assert Body(first) + "\n" == first;
  }

  /** A marker at the start of its line is written out again, any other text that looks like one is blanked. */
  lemma BlankedMarks(from: Config, line: string)
    requires GoodLine(from, line) && EffectOf(line).Blanked?
    ensures PrintLine(from, line) == Ok(Indent(line) + Marker(line) + "\n")
    ensures Marks(Indent(line) + Marker(line)) <==> AtLineStart(line)
  {
    var pad := Indent(line);
    BlankedPrints(from, line);
    assert pad + "" == pad;
    IndentPlain(line);
    if Marker(line) == "" {
      NoTokenWithoutHash(pad);
      NoTokenNoMarker(pad);
      OneLineMarks(pad);
    } else {
      MarkersNeedTags(line);
      MarkedMarks(pad, line);
    }
  }

  lemma MarkedMarks(pad: string, line: string)
    requires '#' !in pad && '\n' !in pad
    requires line != "" && '\n' !in Body(line) && OnlyAt(line, 0, TOKEN)
    requires "begin" <= line[|TOKEN|..] || "end" <= line[|TOKEN|..]
    ensures Marks(pad + line) <==> AtLineStart(line)
  {
    StartMarks(line);
    if Ends(line) {
      var body := Body(line);
      BodyToken(line);
      IndentedMarks(pad, body);
      EndedMarks(pad + body);
      assert pad + body + "\n" == pad + line;
      PlaceBeforeNewline(body[|TOKEN|..]);
      assert line[|TOKEN|..] == body[|TOKEN|..] + "\n";
    } else {
      IndentedMarks(pad, line);
    }
  }

  lemma StartMarks(line: string)
    requires OnlyAt(line, 0, TOKEN)
    ensures AtLineStart(line) <==> PLACE <= line[|TOKEN|..]
  {
    assert Find(line, TOKEN) == 0;
    OneTokenMarker(line);
    if PLACE <= line[|TOKEN|..] {
      assert PLACE[..5] == "begin";
      assert line[..|TOKEN| + 5] == TOKEN + line[|TOKEN|..][..5];
    }
  }

  // ---------------------------------------------------------------- the whole file

  lemma PrintedLineMarks(from: Config, line: string)
    requires WellFormed(from) && GoodLine(from, line) && (Ends(line) || !EffectOf(line).Copied?)
    ensures PrintLine(from, line).Ok? && Ends(PrintLine(from, line).value)
    ensures Marks(Body(PrintLine(from, line).value)) <==> AtLineStart(line)
  {
    match EffectOf(line)
    case Copied =>
      CopiedLine(EMPTY, from, line);
      CopiedMarksNothing(line);
    case Shows(_) =>
      ShownMarksNothing(from, line);
      ShownIsNotAtStart(line);
    case ShowsServer(_) =>
      ServerMarksNothing(from, line);
      ServerIsNotAtStart(line);
    case Blanked => BlankedMarks(from, line);
  }

  ghost predicate SomeAtStart(template: seq<string>) { exists k :: 0 <= k < |template| && AtLineStart(template[k]) }

  lemma SomeAtStartCons(template: seq<string>)
    requires template != []
    ensures SomeAtStart(template) <==> AtLineStart(template[0]) || SomeAtStart(template[1..])
  {
    assert template == [template[0]] + template[1..];
  }

  lemma {:induction false} PrintedMarks(from: Config, template: seq<string>)
    requires WellFormed(from) && GoodTemplate(from, template)
    ensures PrintLines(from, template).Ok?
    ensures Marks(PrintLines(from, template).value) <==> SomeAtStart(template)
    decreases |template|
  {
    if template == [] {
      NothingMarks();
    } else {
      GoodTail(from, template);
      SomeAtStartCons(template);
      PrintedMarks(from, template[1..]);
      if !Ends(template[0]) && EffectOf(template[0]).Copied? {
        assert template == [template[0]];
        LastLineRead(EMPTY, from, template[0]);
        CopiedMarksNothing(template[0]);
      } else {
        PrintedLineMarks(from, template[0]);
        MarksBefore(PrintLine(from, template[0]).value, PrintLines(from, template[1..]).value);
      }
    }
  }

  lemma SplitLinesMark(data: string)
    ensures A.HasMarker(A.SplitLines(data)) <==> Marks(data)
  {
    var lines := Lines(data);
    if Marks(data) {
      var k :| 0 <= k < |lines| && A.IsMarker(lines[k]);
      A.MarkerInLines(data, k);
    }
    if A.HasMarker(A.SplitLines(data)) {
      var k :| 0 <= k < |A.SplitLines(data)| && A.IsMarker(A.SplitLines(data)[k]);
      assert lines[k] == A.SplitLines(data)[k];
    }
  }

  /** Main result: after a configuration is saved into its file, servers can still be added to the file exactly when a
      begin marker stands at the very beginning of a line; one that is indented is blanked with the first save. */
  lemma SaveKeepsThePlaceExactlyWhen(file: string, from: Config)
    requires ConfigFromString(file).Ok? && WellFormed(from) && StringFromConfig(from, ReadLines(file)).Ok?
    ensures A.HasMarker(A.SplitLines(StringFromConfig(from, ReadLines(file)).value)) <==>
      exists k :: 0 <= k < |ReadLines(file)| && AtLineStart(ReadLines(file)[k])
  {
    ParsedFileIsTemplate(file);
    PrintSucceedsExactlyWhen(from, ReadLines(file));
    PrintedMarks(from, ReadLines(file));
    SplitLinesMark(StringFromConfig(from, ReadLines(file)).value);
  }
}
