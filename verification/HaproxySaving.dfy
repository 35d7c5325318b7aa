/** Saving an edited configuration: when printing succeeds, what becomes of tagged server names, and what comes back
    when the template is the file itself. */
module HaproxySaving {
  import opened Commons
  import opened Text
  import opened HaproxyConfig
  import opened HaproxyRoundTrip

  // ---------------------------------------------------------------- when printing succeeds

  lemma {:induction false} MissingFails(c: Config, items: seq<Item>, k: nat, line: string)
    requires k < |items| && HasItem(line, items[k]) && Filled(c, items[k]).None?
    ensures FilledItems(c, items, line).Raised?
    decreases |items|
  {
    if k > 0 {
      assert items[1..][k - 1] == items[k];
      MissingFails(c, items[1..], k - 1, line);
    }
  }

  lemma ShownPrintsExactlyWhen(c: Config, line: string)
    requires TemplateLine(line) && EffectOf(line).Shows?
    ensures PrintLine(c, line).Ok? <==> Printable(c, line)
  {
    var i := EffectOf(line).item;
    if Filled(c, i).Some? {
      ShownPrints(c, line);
    } else {
      OnlyItemShown(line, i, EditableIndex(i));
      MissingFails(c, EDITABLE, EditableIndex(i), line);
    }
  }

  /** A line is printed exactly when what it asks for is there. */
  lemma LinePrintsExactlyWhen(c: Config, line: string)
    requires TemplateLine(line)
    ensures PrintLine(c, line).Ok? <==> Printable(c, line)
  {
    match EffectOf(line)
    case Copied =>
    case Shows(_) => ShownPrintsExactlyWhen(c, line);
    case ShowsServer(_) =>
      NotShown(line);
      NothingFilled(c, EDITABLE, line);
    case Blanked => BlankedPrints(c, line);
  }

  lemma {:induction false} LinesPrintExactlyWhen(c: Config, template: seq<string>)
    requires TemplateLines(template)
    ensures PrintLines(c, template).Ok? <==> AllPrintable(c, template)
    decreases |template|
  {
    if template != [] {
      TemplateTail(template);
      LinePrintsExactlyWhen(c, template[0]);
      LinesPrintExactlyWhen(c, template[1..]);
      PrintableCons(c, template);
    }
  }

  lemma TemplateTail(template: seq<string>)
    requires template != [] && TemplateLines(template)
    ensures TemplateLine(template[0]) && TemplateLines(template[1..])
  {
    assert forall k :: 0 <= k < |template[1..]| ==> template[1..][k] == template[k + 1];
  }

  lemma PrintableCons(c: Config, template: seq<string>)
    requires template != []
    ensures AllPrintable(c, template) <==> Printable(c, template[0]) && AllPrintable(c, template[1..])
  {
    assert template == [template[0]] + template[1..];
  }

  /** For any configuration whatever, printing succeeds exactly when the three options that are always looked up, and
      everything that the template asks for, are there. */
  lemma PrintSucceedsExactlyWhen(c: Config, template: seq<string>)
    requires TemplateLines(template)
    ensures StringFromConfig(c, template).Ok? <==> Required(c) && AllPrintable(c, template)
  {
    LinesPrintExactlyWhen(c, template);
  }

  // ---------------------------------------------------------------- the names of tagged servers

  /** The line is tagged as the printer itself tags servers. */
  predicate IsTagged(line: string) { Contains(line, TOKEN) && SERVER_TAG <= TagOf(line) }

  /** The name that the tag gives the server. */
  function TaggedName(line: string): string
    requires IsTagged(line)
  {
    Strip(TagOf(line)[|SERVER_TAG|..])
  }

  const BCK_SERVER := " bck_http_plain:server"

  lemma ServerTagParts(rest: string)
    ensures SERVER_TAG + rest == "backend" + (BCK_SERVER + "--" + rest)
  {
    var u, v, w := "backend", BCK_SERVER, "--";
    assert SERVER_TAG == u + v + w;
    assert u + v + w + rest == u + (v + w + rest);
  }

  lemma ServerTagSplits(before: string, rest: string)
    requires OnlyAt(before + TOKEN + (SERVER_TAG + rest), |before|, TOKEN)
    ensures Split(before + TOKEN + (SERVER_TAG + rest), TOKEN + "backend") == [before, BCK_SERVER + "--" + rest]
  {
    ServerTagParts(rest);
    SplitTwoLonger(before, TOKEN, "backend", BCK_SERVER + "--" + rest);
  }

  lemma ServerNameSplits(rest: string)
    ensures Split(BCK_SERVER + "--" + rest, "--") == [BCK_SERVER] + Split(rest, "--")
  {
    var after := BCK_SERVER + "--" + rest;
    assert '-' !in BCK_SERVER;
    assert forall j :: 0 <= j < |BCK_SERVER| ==> after[j] == BCK_SERVER[j];
    forall j | 0 <= j < |BCK_SERVER| ensures !At(after, j, "--") {
      if At(after, j, "--") {
        AtChar(after, j, "--", 0);
        assert false;
      }
    }
    SplitFirst(BCK_SERVER, "--", rest);
  }

  lemma BackendTypeStripped()
    ensures Strip(BCK_SERVER) == "bck_http_plain:server"
  {
    var s := "bck_http_plain:server";
    StripPadded(" ", s, "");
    assert " " + s + "" == BCK_SERVER;
  }

  lemma BackendTypeSplits()
    ensures Split("bck_http_plain:server", ":")[0] == "bck_http_plain"
  {
    assert ':' !in "bck_http_plain";
    SplitFirstChar("bck_http_plain", ':', "server");
    assert "bck_http_plain" + [':'] + "server" == "bck_http_plain:server";
  }

  lemma ServerTypeSplits()
    ensures |Split("bck_http_plain", "bck_")| >= 2
  {
    SplitFirst("", "bck_", "http_plain");
    assert "" + "bck_" + "http_plain" == "bck_http_plain";
  }

  lemma TaggedSplits(line: string)
    requires IsTagged(line) && OnlyAt(line, Find(line, TOKEN), TOKEN)
    ensures var rest := TagOf(line)[|SERVER_TAG|..];
      Split(line, TOKEN + "backend") == [line[..Find(line, TOKEN)], BCK_SERVER + "--" + rest]
  {
    var rest := TagOf(line)[|SERVER_TAG|..];
    TagParts(line);
    assert TagOf(line) == SERVER_TAG + rest;
    ServerTagSplits(line[..Find(line, TOKEN)], rest);
  }

  lemma ServerTagHolds()
    ensures Contains(SERVER_TAG, "bck_http") && Contains(SERVER_TAG, "--")
  {
    assert SERVER_TAG == TokenName(BackendServer) + "--";
    BackendTokens(BackendServer);
    PartsContain(TokenName(BackendServer), "--", "bck_http");
    AtInfix(TokenName(BackendServer), "--", "");
    assert TokenName(BackendServer) + "--" + "" == SERVER_TAG;
  }

  lemma TaggedHolds(line: string, p: string)
    requires IsTagged(line) && Contains(SERVER_TAG, p)
    ensures Contains(line, p)
  {
    var before, rest := line[..Find(line, TOKEN)] + TOKEN, TagOf(line)[|SERVER_TAG|..];
    TagParts(line);
    assert TagOf(line) == SERVER_TAG + rest;
    assert line == before + SERVER_TAG + rest;
    ContainsAround(before, SERVER_TAG, rest, p);
  }

  lemma TaggedIsServerLine(line: string)
    requires IsTagged(line) && OnlyAt(line, Find(line, TOKEN), TOKEN)
    ensures IsServerLine(line) && Contains(line, "bck_http")
  {
    TagTest(line, "backend");
    assert "backend" <= SERVER_TAG;
    ServerTagHolds();
    TaggedHolds(line, "--");
    TaggedHolds(line, "bck_http");
  }

  /** What the printer takes for the name is the tag up to the next two dashes. */
  lemma TaggedServerIs(c: Config, line: string)
    requires IsTagged(line) && OnlyAt(line, Find(line, TOKEN), TOKEN)
    ensures ServerOf(line) == Strip(Split(TagOf(line)[|SERVER_TAG|..], "--")[0])
    ensures IsServerLine(line) && TaggedServer(c, line) ==
      if ServerOf(line) in c.backend && c.backend[ServerOf(line)].Server?
      then Ok(ServerText(ServerOf(line), c.backend[ServerOf(line)]))
      else Raised("KeyError")
  {
    TaggedIsServerLine(line);
    TaggedSplits(line);
    ServerNameSplits(TagOf(line)[|SERVER_TAG|..]);
    BackendTypeStripped();
    BackendTypeSplits();
    ServerTypeSplits();
  }

  lemma TaggedIsShown(line: string)
    requires IsTagged(line) && OnlyAt(line, Find(line, TOKEN), TOKEN)
    ensures Rewritten(line) && EffectOf(line) == ShowsServer(ServerOf(line))
  {
    TaggedIsServerLine(line);
    assert TokenName(BackendServer) <= SERVER_TAG;
    DecodeFinds(BackendServer, TagOf(line));
  }

  lemma FirstPiece(s: string, p: string)
    requires p != ""
    ensures !Contains(Split(s, p)[0], p)
  {
    if Contains(s, p) {
      var i := Find(s, p);
      if Contains(s[..i], p) {
        assert s[..i] + s[i..] == s;
        AtPrefix(s[..i], s[i..], Find(s[..i], p), p);
        assert false;
      }
    }
  }

  lemma ServerOfHasNoDashes(line: string)
    requires IsTagged(line) && OnlyAt(line, Find(line, TOKEN), TOKEN)
    ensures !Contains(ServerOf(line), "--")
  {
    var rest := TagOf(line)[|SERVER_TAG|..];
    TaggedServerIs(EMPTY, line);
    FirstPiece(rest, "--");
    if Contains(Strip(Split(rest, "--")[0]), "--") { StrippedWithin(Split(rest, "--")[0], "--"); }
  }

  /** The printer finds the server that the tag names exactly when the name holds no two dashes in a row. */
  lemma NameFoundExactlyWhen(line: string)
    requires IsTagged(line) && OnlyAt(line, Find(line, TOKEN), TOKEN)
    ensures ServerOf(line) == TaggedName(line) <==> !Contains(TaggedName(line), "--")
  {
    var rest := TagOf(line)[|SERVER_TAG|..];
    ServerOfHasNoDashes(line);
    if !Contains(TaggedName(line), "--") {
      if Contains(rest, "--") { ContainsStripped(rest, "--"); }
      SplitNone(rest, "--");
      TaggedServerIs(EMPTY, line);
    }
  }

  /** A concrete case: the line of a server a--b prints the server a if there is one, and fails if there is none. */
  lemma DashesCutTheName(c: Config)
    ensures var line := TOKEN + (SERVER_TAG + "a--b");
      && IsTagged(line) && TaggedName(line) == "a--b" && Contains(line, TOKEN + "backend")
      && TaggedServer(c, line) == if "a" in c.backend && c.backend["a"].Server?
                                  then Ok(ServerText("a", c.backend["a"]))
                                  else Raised("KeyError")
  {
    assert '#' !in "a--b";
    TaggedLine("a--b");
    TaggedServerIs(c, TOKEN + (SERVER_TAG + "a--b"));
    DashesSplit();
  }

  lemma TaggedLine(name: string)
    requires '#' !in name
    ensures var line := TOKEN + (SERVER_TAG + name);
      && Contains(line, TOKEN) && OnlyAt(line, Find(line, TOKEN), TOKEN) && IsTagged(line)
      && TagOf(line)[|SERVER_TAG|..] == name
  {
    var tag := SERVER_TAG + name;
    assert '#' !in SERVER_TAG;
    TokenOnce("", tag);
    assert "" + TOKEN + tag == TOKEN + tag;
  }

  lemma DashesSplit()
    ensures Split("a--b", "--")[0] == "a" && Strip("a") == "a" && Strip("a--b") == "a--b"
  {
    if At("a" + "--" + "b", 0, "--") { AtChar("a" + "--" + "b", 0, "--", 0); }
    SplitFirst("a", "--", "b");
    assert "a" + "--" + "b" == "a--b";
    StripPadded("", "a--b", "");
    StripPadded("", "a", "");
    assert "" + "a--b" + "" == "a--b" && "" + "a" + "" == "a";
  }

  /** What the template asks for is there, if a server tag is taken to name the server that it spells out. */
  ghost predicate NamesThere(c: Config, line: string) {
    match EffectOf(line)
    case Shows(i) => Filled(c, i).Some?
    case ShowsServer(_) => IsTagged(line) && TaggedName(line) in c.backend && c.backend[TaggedName(line)].Server?
    case _ => true
  }

  ghost predicate NamesKept(d: Config, from: Config, template: seq<string>) {
    forall k :: 0 <= k < |template| && IsTagged(template[k]) ==>
      && TaggedName(template[k]) in d.backend && TaggedName(template[k]) in from.backend
      && d.backend[TaggedName(template[k])] == from.backend[TaggedName(template[k])]
  }

  ghost predicate NoDashes(template: seq<string>) {
    forall k :: 0 <= k < |template| && IsTagged(template[k]) ==> !Contains(TaggedName(template[k]), "--")
  }

  lemma TaggedOnce(line: string)
    requires TemplateLine(line) && IsTagged(line)
    ensures OnlyAt(line, Find(line, TOKEN), TOKEN)
  {
    ServerTagHolds();
    TaggedHolds(line, "bck_http");
  }

  lemma NamedIsPrintable(from: Config, line: string)
    requires TemplateLine(line) && NamesThere(from, line)
    requires IsTagged(line) ==> !Contains(TaggedName(line), "--")
    ensures GoodLine(from, line)
  {
    if EffectOf(line).ShowsServer? {
      TaggedOnce(line);
      TaggedServerIs(from, line);
      NameFoundExactlyWhen(line);
    }
  }

  lemma NamesComeBack(from: Config, template: seq<string>)
    requires WellFormed(from) && Required(from) && TemplateLines(template) && NoDashes(template)
    requires forall k :: 0 <= k < |template| ==> NamesThere(from, template[k]) && CopyParses(template[k])
    ensures StringFromConfig(from, template).Ok? && ConfigFromString(StringFromConfig(from, template).value).Ok?
    ensures NamesKept(ConfigFromString(StringFromConfig(from, template).value).value, from, template)
  {
    forall k | 0 <= k < |template| ensures GoodLine(from, template[k]) { NamedIsPrintable(from, template[k]); }
    EverythingShownComesBack(from, template);
    forall k | 0 <= k < |template| && IsTagged(template[k])
      ensures TaggedName(template[k]) in ShownServers(template)
    {
      TaggedOnce(template[k]);
      TaggedIsShown(template[k]);
      NameFoundExactlyWhen(template[k]);
    }
  }

  lemma CutNamesAreLost(from: Config, template: seq<string>, k: nat)
    requires WellFormed(from) && Required(from) && TemplateLines(template)
    requires forall m :: 0 <= m < |template| ==> NamesThere(from, template[m]) && CopyParses(template[m])
    requires k < |template| && IsTagged(template[k]) && Contains(TaggedName(template[k]), "--")
    requires StringFromConfig(from, template).Ok?
    ensures ConfigFromString(StringFromConfig(from, template).value).Ok?
    ensures TaggedName(template[k]) !in ConfigFromString(StringFromConfig(from, template).value).value.backend
  {
    PrintSucceedsExactlyWhen(from, template);
    EverythingShownComesBack(from, template);
    forall m | 0 <= m < |template| && EffectOf(template[m]).ShowsServer?
      ensures EffectOf(template[m]).name != TaggedName(template[k])
    {
      TaggedOnce(template[m]);
      TaggedIsShown(template[m]);
      ServerOfHasNoDashes(template[m]);
    }
  }

  /** Main result: if the configuration has what the template names, then printing succeeds and every tagged server
      comes back as itself exactly when no tagged name holds two dashes in a row. */
  lemma TaggedServersComeBackExactlyWhen(from: Config, template: seq<string>)
    requires WellFormed(from) && Required(from) && TemplateLines(template)
    requires forall k :: 0 <= k < |template| ==> NamesThere(from, template[k]) && CopyParses(template[k])
    ensures
      && StringFromConfig(from, template).Ok?
      && ConfigFromString(StringFromConfig(from, template).value).Ok?
      && NamesKept(ConfigFromString(StringFromConfig(from, template).value).value, from, template)
      <==> NoDashes(template)
  {
    if NoDashes(template) {
      NamesComeBack(from, template);
    } else if StringFromConfig(from, template).Ok? {
      var k :| 0 <= k < |template| && IsTagged(template[k]) && Contains(TaggedName(template[k]), "--");
      CutNamesAreLost(from, template, k);
    }
  }

  // ---------------------------------------------------------------- the template is the file

  function WithNewlines(lines: seq<string>): seq<string>
    requires lines != []
  {
    if |lines| > 1 then [lines[0] + "\n"] + WithNewlines(lines[1..])
    else if lines[0] == "" then []
    else lines
  }

  /** file.readlines */
  function ReadLines(data: string): seq<string> { WithNewlines(Lines(data)) }

  /** Nothing is lost or added by reading the file line by line. */
  lemma {:induction false} ReadLinesWhole(data: string)
    ensures Concat(ReadLines(data)) == data
    decreases |data|
  {
    if Contains(data, "\n") {
      var i := Find(data, "\n");
      ReadLinesWhole(data[i + 1..]);
      assert Lines(data)[1..] == Lines(data[i + 1..]);
      assert data == data[..i] + "\n" + data[i + 1..];
    } else if data != "" {
      assert ReadLines(data) == [data] && [data][1..] == [];
      assert data + "" == data;
    }
  }

  lemma OnceBeforeNewline(body: string, line: string, k: int)
    requires line == body || line == body + "\n"
    requires OnlyAt(body, k, TOKEN)
    ensures OnlyAt(line, k, TOKEN)
  {
    if line != body {
      AtPrefix(body, "\n", k, TOKEN);
      forall j | At(line, j, TOKEN) ensures j == k { TokenBeforeNewline(body, j); }
    }
  }

  lemma TokenBeforeNewline(body: string, j: int)
    requires At(body + "\n", j, TOKEN)
    ensures At(body, j, TOKEN)
  {
    AtChar(body + "\n", j, TOKEN, |TOKEN| - 1);
    AtPrefix(body, "\n", j, TOKEN);
  }

  /** A line that parses can be a line of a template, and be copied. */
  lemma ParsedLineIsTemplate(c: Config, body: string, line: string)
    requires line != "" && '\n' !in body && (line == body || line == body + "\n") && ParseLine(c, body).Ok?
    ensures TemplateLine(line) && CopyParses(line)
  {
    assert Body(line) == body;
    LineSuccess(c, EMPTY, body);
    if Contains(line, TOKEN) {
      var j := Find(line, TOKEN);
      if line != body { TokenBeforeNewline(body, j); }
      assert Contains(body, TOKEN) && |Split(body, TOKEN)| == 2;
      TwoPiecesOnly(body);
      OnceBeforeNewline(body, line, Find(body, TOKEN));
    }
  }

  lemma {:induction false} ParsedLinesAreTemplates(c: Config, lines: seq<string>)
    requires lines != [] && OneLiners(lines) && ParseLines(c, lines).Ok?
    ensures TemplateLines(WithNewlines(lines))
    ensures forall k :: 0 <= k < |WithNewlines(lines)| ==> CopyParses(WithNewlines(lines)[k])
    decreases |lines|
  {
    if |lines| > 1 {
      ParsedLineIsTemplate(c, lines[0], lines[0] + "\n");
      ParsedLinesAreTemplates(ParseLine(c, lines[0]).value, lines[1..]);
      TemplateCons(lines[0], WithNewlines(lines[1..]));
    } else if lines[0] != "" {
      ParsedLineIsTemplate(c, lines[0], lines[0]);
    }
  }

  lemma TemplateCons(first: string, rest: seq<string>)
    requires TemplateLine(first + "\n") && TemplateLines(rest)
    ensures TemplateLines([first + "\n"] + rest)
  {
  }

  /** A file that the parser reads can always serve as the template. */
  lemma ParsedFileIsTemplate(file: string)
    requires ConfigFromString(file).Ok?
    ensures TemplateLines(ReadLines(file))
    ensures forall k :: 0 <= k < |ReadLines(file)| ==> CopyParses(ReadLines(file)[k])
  {
    LinesAreOneLiners(file);
    ParsedLinesAreTemplates(EMPTY, Lines(file));
  }

  /** Main result: a well-formed configuration is printed into any file that parses exactly when it has what the file
      shows; then the new file parses, and has the options and the servers that the file shows as they were edited. */
  lemma SaveReadsBack(file: string, from: Config)
    requires ConfigFromString(file).Ok? && WellFormed(from)
    ensures StringFromConfig(from, ReadLines(file)).Ok? <==> Required(from) && AllPrintable(from, ReadLines(file))
    ensures StringFromConfig(from, ReadLines(file)).Ok? ==>
      var reread := ConfigFromString(StringFromConfig(from, ReadLines(file)).value);
      reread.Ok? && ShownIsBack(reread.value, from, ReadLines(file))
  {
    var template := ReadLines(file);
    ParsedFileIsTemplate(file);
    PrintSucceedsExactlyWhen(from, template);
    if StringFromConfig(from, template).Ok? { EverythingShownComesBack(from, template); }
  }
}
