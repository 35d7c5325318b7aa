/** Printing an edited configuration into a template and parsing the result. */
module HaproxyRoundTrip {
  import opened Commons
  import opened Text
  import opened HaproxyConfig

  // ---------------------------------------------------------------- what becomes of a template line

  function TagOf(line: string): string
    requires Contains(line, TOKEN)
  {
    line[Find(line, TOKEN) + |TOKEN|..]
  }

  predicate Rewritten(line: string) { Contains(line, TOKEN) && (Contains(line, "bck_http") || NamesEditable(line)) }

  datatype Effect = Copied | Shows(item: Item) | ShowsServer(name: string) | Blanked

  predicate IsEditable(i: Item) { !(i.StatsSocket? || i.StatsUri? || i.BackendServer? || i.HttpChk?) }

  /** A line that the printer takes for the tag of a server, and the name that it finds there. */
  predicate IsServerLine(line: string) { Contains(line, TOKEN + "backend") && Contains(line, "--") }

  function ServerOf(line: string): string {
    var parts := Split(line, TOKEN + "backend");
    if |parts| < 2 then ""
    else
      var info := Split(parts[1], "--");
      if |info| < 2 then "" else Strip(info[1])
  }

  /** A line without the tag of anything the printer knows is copied. A tagged line shows the option or the server.
      Whatever else mentions the backend, such as the tag of the health check, or a begin or end marker, carries no
      value afterwards. */
  function EffectOf(line: string): Effect {
    if !Rewritten(line) then Copied
    else
      var tag := TagOf(line);
      var i := Decode(tag);
      if i.Some? && IsEditable(i.value) && TokenName(i.value) <= tag then Shows(i.value)
      else if IsServerLine(line) then ShowsServer(ServerOf(line))
      else Blanked
  }

  /** The line without its newline; the last line of a file may not have one. */
  function Body(line: string): string { if Ends(line) then line[..|line| - 1] else line }

  predicate Ends(line: string) { line != "" && line[|line| - 1] == '\n' }

  /** One line of a file, with the token on it at most once if the printer is to rewrite it. */
  ghost predicate TemplateLine(line: string) {
    && line != "" && '\n' !in Body(line)
    && (Rewritten(line) ==> OnlyAt(line, Find(line, TOKEN), TOKEN))
  }

  /** What the line asks for is there. */
  predicate Printable(c: Config, line: string) {
    match EffectOf(line)
    case Shows(i) => Filled(c, i).Some?
    case ShowsServer(_) => IsServerLine(line) && TaggedServer(c, line).Ok?
    case _ => true
  }

  ghost predicate GoodLine(c: Config, line: string) { TemplateLine(line) && Printable(c, line) }

  /** The lines of a file, all of them ending in a newline but perhaps the last. */
  ghost predicate TemplateLines(template: seq<string>) {
    && (forall k :: 0 <= k < |template| ==> TemplateLine(template[k]))
    && (forall k :: 0 <= k < |template| - 1 ==> Ends(template[k]))
  }

  ghost predicate AllPrintable(c: Config, template: seq<string>) {
    forall k :: 0 <= k < |template| ==> Printable(c, template[k])
  }

  ghost predicate GoodTemplate(c: Config, template: seq<string>) {
    TemplateLines(template) && AllPrintable(c, template)
  }

  lemma GoodTail(c: Config, template: seq<string>)
    requires GoodTemplate(c, template) && template != []
    ensures GoodLine(c, template[0]) && GoodTemplate(c, template[1..])
    ensures |template| > 1 ==> Ends(template[0])
  {
    assert forall k :: 0 <= k < |template[1..]| ==> template[1..][k] == template[k + 1];
  }

  /** What the parser gets out of the printed line. */
  function Reread(c: Config, from: Config, line: string): Result<Config> {
    match EffectOf(line)
    case Copied => ParseLine(c, Body(line))
    case Shows(i) => Ok(Taken(c, i, from))
    case ShowsServer(name) =>
      if name in from.backend then Ok(c.(backend := c.backend[name := from.backend[name]])) else Ok(c)
    case Blanked => Ok(c)
  }

  function RereadAll(c: Config, from: Config, template: seq<string>): Result<Config>
    decreases |template|
  {
    if template == [] then Ok(c)
    else
      var c1 :- Reread(c, from, template[0]);
      RereadAll(c1, from, template[1..])
  }

  // ---------------------------------------------------------------- tests on the tag

  lemma TagTest(line: string, n: string)
    requires Contains(line, TOKEN) && OnlyAt(line, Find(line, TOKEN), TOKEN)
    ensures Contains(line, TOKEN + n) <==> n <= TagOf(line)
  {
    var k := Find(line, TOKEN);
    var tag := TagOf(line);
    if Contains(line, TOKEN + n) {
      var j :| 0 <= j <= |line| && At(line, j, TOKEN + n);
      assert line[j..j + |TOKEN|] == line[j..j + |TOKEN + n|][..|TOKEN|];
      assert At(line, j, TOKEN);
      assert j == k;
      assert tag[..|n|] == line[k..k + |TOKEN + n|][|TOKEN|..];
    }
    if n <= tag {
      assert line[k..k + |TOKEN + n|] == line[k..k + |TOKEN|] + tag[..|n|];
      assert At(line, k, TOKEN + n);
    }
  }

  lemma TagParts(line: string)
    requires Contains(line, TOKEN)
    ensures line == line[..Find(line, TOKEN)] + TOKEN + TagOf(line)
  {
  }

  lemma TwoPieces(s: string, p: string)
    requires p != "" && |Split(s, p)| == 2
    ensures s == Split(s, p)[0] + p + Split(s, p)[1]
  {
    var i := Find(s, p);
    assert s == s[..i] + p + s[i + |p|..];
  }

  /** Two pieces mean that the token stands on the line once. */
  lemma TwoPiecesOnly(line: string)
    requires Contains(line, TOKEN) && |Split(line, TOKEN)| == 2
    ensures var a, b := Split(line, TOKEN)[0], Split(line, TOKEN)[1];
      line == a + TOKEN + b && OnlyAt(line, |a|, TOKEN) && Find(line, TOKEN) == |a| && TagOf(line) == b
  {
    var a, b := Split(line, TOKEN)[0], Split(line, TOKEN)[1];
    TwoPieces(line, TOKEN);
    var i := Find(line, TOKEN);
    assert a == line[..i] && Split(line[i + |TOKEN|..], TOKEN) == [b];
    assert !Contains(b, TOKEN) && b == line[i + |TOKEN|..];
    assert line == a + TOKEN + b;
    forall j | At(line, j, TOKEN) ensures j == |a| { FirstTokenIsLast(a, b, j); }
  }

  lemma FirstTokenIsLast(a: string, b: string, j: int)
    requires At(a + TOKEN + b, j, TOKEN) && !Contains(b, TOKEN)
    requires forall i :: 0 <= i < |a| ==> !At(a + TOKEN + b, i, TOKEN)
    ensures j == |a|
  {
    var line := a + TOKEN + b;
    AtInfix(a, TOKEN, b);
    TokenHasOneHash(line, |a|);
    TokenHasOneHash(line, j);
    if j >= |a| + |TOKEN| {
      AtShift(a + TOKEN, b, j - |a| - |TOKEN|, TOKEN);
      assert false;
    }
  }

  lemma EditableOf(k: nat)
    requires k < |EDITABLE|
    ensures IsEditable(EDITABLE[k])
  {
  }

  function EditableIndex(i: Item): (k: nat)
    requires IsEditable(i)
    ensures k < |EDITABLE| && EDITABLE[k] == i
  {
    match i
    case GlobalLog => 0 case TimeoutConnect => 1 case TimeoutClient => 2 case TimeoutServer => 3
    case MonitorUri => 4 case FrontendBind => 5 case Maxconn => 6 case LogRequests => 7
  }

  lemma {:induction false} NothingFilled(c: Config, items: seq<Item>, line: string)
    requires forall k :: 0 <= k < |items| ==> !HasItem(line, items[k])
    ensures FilledItems(c, items, line) == Ok("")
    decreases |items|
  {
    if items != [] { NothingFilled(c, items[1..], line); }
  }

  lemma {:induction false} OneFilled(c: Config, items: seq<Item>, k: nat, line: string)
    requires k < |items| && HasItem(line, items[k]) && Filled(c, items[k]).Some?
    requires forall m :: 0 <= m < |items| && m != k ==> !HasItem(line, items[m])
    ensures FilledItems(c, items, line) == Ok(FilledText(c, items[k]))
    decreases |items|
  {
    if k == 0 {
      NothingFilled(c, items[1..], line);
      assert FilledText(c, items[0]) + "" == FilledText(c, items[0]);
    } else {
      OneFilled(c, items[1..], k - 1, line);
    }
  }

  /** Only the item that the tag begins with can be found on the line. */
  lemma NoOtherItem(line: string, i: Item, j: Item)
    requires Contains(line, TOKEN) && OnlyAt(line, Find(line, TOKEN), TOKEN) && TokenName(i) <= TagOf(line)
    ensures HasItem(line, j) <==> j == i
  {
    TagTest(line, TokenName(j));
    if HasItem(line, j) { TokenNamesDiffer(i, j, TagOf(line)); }
  }

  lemma NoEditableItem(line: string)
    requires Contains(line, TOKEN) && OnlyAt(line, Find(line, TOKEN), TOKEN)
    requires forall m :: 0 <= m < |EDITABLE| ==> !(TokenName(EDITABLE[m]) <= TagOf(line))
    ensures forall m :: 0 <= m < |EDITABLE| ==> !HasItem(line, EDITABLE[m])
  {
    forall m | 0 <= m < |EDITABLE| ensures !HasItem(line, EDITABLE[m]) { TagTest(line, TokenName(EDITABLE[m])); }
  }

  lemma EditableTagsAreNotBackends(i: Item, tag: string)
    requires IsEditable(i) && TokenName(i) <= tag
    ensures tag[0] in {'g', 'd', 'f'} && !("backend" <= tag) && !("begin" <= tag) && !("end" <= tag)
  {
    assert TokenName(i)[0] in {'g', 'd', 'f'};
  }

  lemma MarkersNeedTags(line: string)
    requires Contains(line, TOKEN) && OnlyAt(line, Find(line, TOKEN), TOKEN)
    ensures TOKEN + "begin" <= line ==> Find(line, TOKEN) == 0 && "begin" <= TagOf(line)
    ensures TOKEN + "end" <= line ==> Find(line, TOKEN) == 0 && "end" <= TagOf(line)
  {
    TagTest(line, "begin");
    TagTest(line, "end");
    if TOKEN + "begin" <= line { MarkerAtStart(line, "begin"); }
    if TOKEN + "end" <= line { MarkerAtStart(line, "end"); }
  }

  lemma MarkerAtStart(line: string, n: string)
    requires TOKEN + n <= line
    ensures At(line, 0, TOKEN) && Contains(line, TOKEN + n)
  {
    assert line[0..|TOKEN|] == line[0..|TOKEN + n|][..|TOKEN|];
    assert At(line, 0, TOKEN + n);
  }

  // ---------------------------------------------------------------- each kind of line

  ghost predicate ReadsBefore(text: string, c: Config, r: Result<Config>, rest: string) {
    ParseLines(c, Lines(text + rest)) == (if r.Raised? then r else ParseLines(r.value, Lines(rest)))
  }

  /** The printed text of a line, followed by anything, is read as the line would be, and then the rest. */
  ghost predicate ReadsAs(text: string, c: Config, r: Result<Config>) {
    forall rest :: ReadsBefore(text, c, r, rest)
  }

  lemma OneLineReads(text: string, c: Config)
    requires '\n' !in text
    ensures ReadsAs(text + "\n", c, ParseLine(c, text))
  {
    forall rest ensures ReadsBefore(text + "\n", c, ParseLine(c, text), rest) {
      LinesCons(text, rest);
      assert ([text] + Lines(rest))[1..] == Lines(rest);
    }
  }

  lemma CopiedLine(c: Config, from: Config, line: string)
    requires GoodLine(from, line) && EffectOf(line).Copied?
    ensures PrintLine(from, line) == Ok(line)
    ensures Ends(line) ==> ReadsAs(line, c, Reread(c, from, line))
    ensures !Ends(line) ==> ParseLines(c, Lines(line)) == Reread(c, from, line)
  {
    if Ends(line) {
      OneLineReads(Body(line), c);
      assert Body(line) + "\n" == line;
    } else {
      LinesOne(line);
      OneParsed(c, line);
    }
  }

  lemma OneParsed(c: Config, line: string)
    ensures ParseLines(c, [line]) == ParseLine(c, line)
  {
    assert [line][1..] == [];
  }

  function Indent(line: string): string { Spaces(|line| - |Strip(line)| - 1) }

  lemma IndentPlain(line: string)
    ensures Blank(Indent(line)) && '#' !in Indent(line) && '\n' !in Indent(line)
  {
    SpacesBlank(|line| - |Strip(line)| - 1);
  }

  lemma ShownFills(from: Config, line: string, i: Item)
    requires Contains(line, TOKEN) && OnlyAt(line, Find(line, TOKEN), TOKEN)
    requires IsEditable(i) && TokenName(i) <= TagOf(line) && Filled(from, i).Some?
    ensures FilledItems(from, EDITABLE, line) == Ok(FilledText(from, i))
  {
    var k := EditableIndex(i);
    forall m: nat | m < |EDITABLE| ensures HasItem(line, EDITABLE[m]) <==> m == k { OnlyItemShown(line, i, m); }
    OneFilled(from, EDITABLE, k, line);
  }

  lemma EditableOnce(m: nat, i: Item)
    requires m < |EDITABLE| && IsEditable(i)
    ensures EDITABLE[m] == i <==> m == EditableIndex(i)
  {
  }

  lemma OnlyItemShown(line: string, i: Item, m: nat)
    requires Contains(line, TOKEN) && OnlyAt(line, Find(line, TOKEN), TOKEN)
    requires IsEditable(i) && TokenName(i) <= TagOf(line) && m < |EDITABLE|
    ensures HasItem(line, EDITABLE[m]) <==> m == EditableIndex(i)
  {
    EditableOnce(m, i);
    NoOtherItem(line, i, EDITABLE[m]);
  }

  lemma ShownIsNoMarker(line: string, i: Item)
    requires Contains(line, TOKEN) && OnlyAt(line, Find(line, TOKEN), TOKEN)
    requires IsEditable(i) && TokenName(i) <= TagOf(line)
    ensures !Contains(line, TOKEN + "backend") && Marker(line) == ""
  {
    EditableTagsAreNotBackends(i, TagOf(line));
    TagTest(line, "backend");
    MarkersNeedTags(line);
  }

  lemma ShownPrints(from: Config, line: string)
    requires GoodLine(from, line) && EffectOf(line).Shows?
    ensures PrintLine(from, line) == Ok(Indent(line) + FilledText(from, EffectOf(line).item) + "" + "\n")
  {
    var i := EffectOf(line).item;
    ShownFills(from, line, i);
    ShownIsNoMarker(line, i);
  }

  lemma TaggedReads(c: Config, pad: string, x: string, gap: string, tag: string)
    requires Blank(pad) && Blank(gap) && Trimmed(x) && x != "" && x[0] != '#'
    requires !Contains(pad + x + gap, TOKEN) && '#' !in tag
    requires '\n' !in pad && '\n' !in x && '\n' !in gap && '\n' !in tag
    ensures ReadsAs(pad + x + gap + TOKEN + tag + "\n", c, ParseMatching(c, ITEMS, tag, x))
  {
    ParseTagged(c, pad, x, gap, tag);
    assert '\n' !in TOKEN;
    OneLineReads(pad + x + gap + TOKEN + tag, c);
  }

  ghost predicate Plain(s: string) { '#' !in s && '\n' !in s }

  lemma TokenNamesPlain(i: Item)
    requires IsEditable(i)
    ensures Plain(TokenName(i))
  {
    if i.GlobalLog? || i.TimeoutConnect? || i.TimeoutClient? || i.TimeoutServer? {
      ShortNamesPlain(i);
    } else {
      FrontendNamesPlain(i);
    }
  }

  lemma ShortNamesPlain(i: Item)
    requires i.GlobalLog? || i.TimeoutConnect? || i.TimeoutClient? || i.TimeoutServer?
    ensures Plain(TokenName(i))
  {
  }

  lemma FrontendNamesPlain(i: Item)
    requires i.MonitorUri? || i.LogRequests? || i.FrontendBind? || i.Maxconn?
    ensures Plain(TokenName(i))
  {
    assert Plain(FRONT);
    match i
    case MonitorUri => assert Plain("monitor-uri");
    case LogRequests => assert Plain("option log-http-requests");
    case FrontendBind => assert Plain("bind");
    case Maxconn => assert Plain("maxconn");
  }

  lemma ShownReads(c: Config, from: Config, line: string)
    requires WellFormed(from) && GoodLine(from, line) && EffectOf(line).Shows?
    ensures PrintLine(from, line).Ok? && ReadsAs(PrintLine(from, line).value, c, Reread(c, from, line))
  {
    var i := EffectOf(line).item;
    ShownPrints(from, line);
    IndentPlain(line);
    ShownTextReads(c, from, i, Indent(line));
    assert Indent(line) + FilledText(from, i) + "" == Indent(line) + FilledText(from, i);
  }

  lemma ShownIsEditable(from: Config, i: Item)
    requires Filled(from, i).Some?
    ensures IsEditable(i)
  {
  }

  lemma ShownTextReads(c: Config, from: Config, i: Item, pad: string)
    requires WellFormed(from) && Filled(from, i).Some? && Blank(pad) && '#' !in pad && '\n' !in pad
    ensures ReadsAs(pad + FilledText(from, i) + "\n", c, Ok(Taken(c, i, from)))
  {
    var x := Filled(from, i).value;
    FilledShape(from, i);
    NoTokenAfterPlain(pad, x + " ");
    Regroup(pad, x, " ", TOKEN, TokenName(i));
    ShownIsEditable(from, i);
    TokenNamesPlain(i);
    TaggedReads(c, pad, x, " ", TokenName(i));
    MatchingOne(c, i, TokenName(i), x);
    FilledReadsBack(c, i, from);
  }

  /** A line that shows no option has no option's tag. */
  lemma NotShown(line: string)
    requires Rewritten(line) && OnlyAt(line, Find(line, TOKEN), TOKEN) && !EffectOf(line).Shows?
    ensures forall m :: 0 <= m < |EDITABLE| ==> !HasItem(line, EDITABLE[m])
  {
    var tag := TagOf(line);
    forall m | 0 <= m < |EDITABLE| ensures !(TokenName(EDITABLE[m]) <= tag) {
      if TokenName(EDITABLE[m]) <= tag {
        EditableOf(m);
        DecodeFinds(EDITABLE[m], tag);
        assert false;
      }
    }
    NoEditableItem(line);
  }

  lemma ServerPrints(from: Config, line: string)
    requires GoodLine(from, line) && EffectOf(line).ShowsServer?
    ensures EffectOf(line).name in from.backend && from.backend[EffectOf(line).name].Server?
    ensures PrintLine(from, line) ==
      Ok(Indent(line) + "" + ServerText(EffectOf(line).name, from.backend[EffectOf(line).name]) + "\n")
  {
    NotShown(line);
    NothingFilled(from, EDITABLE, line);
  }

  lemma ServerReads(c: Config, from: Config, line: string)
    requires WellFormed(from) && GoodLine(from, line) && EffectOf(line).ShowsServer?
    ensures PrintLine(from, line).Ok? && ReadsAs(PrintLine(from, line).value, c, Reread(c, from, line))
  {
    var name := EffectOf(line).name;
    ServerPrints(from, line);
    IndentPlain(line);
    var text := ServerText(name, from.backend[name]);
    Regroup(Indent(line), text, "", "", "");
    ServerTextReads(c, Indent(line), name, from.backend[name]);
    OneLineReads(Indent(line) + text, c);
  }

  lemma ServerTagPlain(name: string)
    requires Over(name, IsHostChar)
    ensures '#' !in SERVER_TAG + name && '\n' !in SERVER_TAG + name && TokenName(BackendServer) <= SERVER_TAG + name
  {
    assert '#' !in SERVER_TAG && '\n' !in SERVER_TAG;
    assert '#' !in name && '\n' !in name;
    assert SERVER_TAG == TokenName(BackendServer) + "--";
  }

  /** A printed line has the one tag of its server. */
  lemma ServerTextParsed(c: Config, pad: string, name: string, b: Backend)
    requires Blank(pad) && '#' !in pad && '\n' !in pad && Over(name, IsHostChar) && GoodServer(b)
    ensures '\n' !in pad + ServerText(name, b)
    ensures ParseLine(c, pad + ServerText(name, b)) == ParseAs(c, BackendServer, ServerBody(name, b))
  {
    var x := ServerBody(name, b);
    var gap := if b.extra == "" then "  " else " ";
    var tag := SERVER_TAG + name;
    ServerShape(name, b);
    NoTokenAfterPlain(pad, ServerValue(name, b) + " ");
    Regroup(pad, x, gap, TOKEN, tag);
    Regroup(pad, ServerValue(name, b), " ", TOKEN, tag);
    ServerTagPlain(name);
    ParseTagged(c, pad, x, gap, tag);
    MatchingOne(c, BackendServer, tag, x);
    assert '\n' !in TOKEN;
  }

  /** A server printed by the template is read back as the same server, wherever it stands. */
  lemma ServerTextReads(c: Config, pad: string, name: string, b: Backend)
    requires Blank(pad) && '#' !in pad && '\n' !in pad && GoodName(name) && GoodServer(b)
    ensures '\n' !in pad + ServerText(name, b)
    ensures ParseLine(c, pad + ServerText(name, b)) == Ok(c.(backend := c.backend[name := b]))
  {
    ServerTextParsed(c, pad, name, b);
    ServerReadsBack(c, name, b);
  }

  /** A token in the free text makes two tokens on the line, which the parser cannot unpack. */
  lemma TokenInExtra(name: string, b: Backend)
    requires b.Server? && Contains(b.extra + " ", TOKEN)
    ensures ParseLine(EMPTY, ServerText(name, b)) == Raised("ValueError")
  {
    var head, front, tag := ServerHead(name, b) + " ", ServerValue(name, b) + " ", SERVER_TAG + name;
    ServerParts(name, b);
    assert front == head + (b.extra + " ");
    PartsContain(head, b.extra + " ", TOKEN);
    assert ServerText(name, b) == front + TOKEN + tag;
    TwoTokens(front, tag);
  }

  lemma TwoTokens(front: string, tag: string)
    requires Contains(front, TOKEN)
    ensures ParseLine(EMPTY, front + TOKEN + tag) == Raised("ValueError")
  {
    var line := front + TOKEN + tag;
    assert line == front + (TOKEN + tag);
    AtPrefix(front, TOKEN + tag, Find(front, TOKEN), TOKEN);
    AtInfix(front, TOKEN, tag);
    if |Split(line, TOKEN)| == 2 { TwoPiecesOnly(line); }
  }

  /** Of the servers made of the characters of the grammar, a printed one reads back as itself exactly when the prefix
      of all server names does not occur in its own name, and the token not in its free text. */
  lemma ServerTextReadsExactlyWhen(name: string, b: Backend)
    requires Over(name, IsHostChar) && b.Server? && Filling(b.address, IsHostChar) && Filling(b.port, IsDigit)
    requires Trimmed(b.extra) && '\n' !in b.extra && '\t' !in b.extra
    ensures ParseLine(EMPTY, ServerText(name, b)) == Ok(EMPTY.(backend := map[name := b]))
      <==> !Contains(name, SERVER_PREFIX) && !Contains(b.extra + " ", TOKEN)
  {
    if Contains(b.extra + " ", TOKEN) {
      TokenInExtra(name, b);
    } else {
      ServerTextParsed(EMPTY, "", name, b);
      assert "" + ServerText(name, b) == ServerText(name, b);
      ServerReadsBackExactlyWhen(name, b);
    }
  }

  lemma BlankedPrints(from: Config, line: string)
    requires GoodLine(from, line) && EffectOf(line).Blanked?
    ensures PrintLine(from, line) == Ok(Indent(line) + "" + Marker(line) + "\n")
  {
    NotShown(line);
    NothingFilled(from, EDITABLE, line);
  }

  lemma MarkersMatchNothing(c: Config, tag: string)
    requires "begin" <= tag || "end" <= tag
    ensures ParseMatching(c, ITEMS, tag, "") == Ok(c)
  {
    assert tag[0] == 'e' || (tag[0] == 'b' && tag[1] == 'e');
    forall k | 0 <= k < |ITEMS| ensures !(TokenName(ITEMS[k]) <= tag) {
      FirstTwoChars(ITEMS[k]);
      if TokenName(ITEMS[k]) <= tag {
        assert false;
      }
    }
    NoMatch(c, ITEMS, tag, "");
  }

  lemma FirstTwoChars(i: Item)
    ensures TokenName(i)[0] in {'g', 'd', 'f', 'b'} && (TokenName(i)[0] == 'b' ==> TokenName(i)[1] == 'a')
  {
  }

  /** Begin and end markers hold no option. */
  lemma MarkerReads(c: Config, pad: string, body: string)
    requires Blank(pad) && '#' !in pad && OnlyAt(body, 0, TOKEN)
    requires "begin" <= body[|TOKEN|..] || "end" <= body[|TOKEN|..]
    ensures ParseLine(c, pad + body) == Ok(c)
  {
    var tag := body[|TOKEN|..];
    MarkerSplits(pad, body);
    StripBlank(pad);
    MarkersMatchNothing(c, tag);
  }

  lemma MarkerSplits(pad: string, body: string)
    requires '#' !in pad && OnlyAt(body, 0, TOKEN)
    ensures Contains(pad + body, TOKEN) && Split(pad + body, TOKEN) == [pad, body[|TOKEN|..]]
  {
    var tag := body[|TOKEN|..];
    assert body == TOKEN + tag;
    var s := pad + TOKEN + tag;
    assert s == pad + body;
    AtInfix(pad, TOKEN, tag);
    forall j | At(s, j, TOKEN) ensures j == |pad| { MarkerTokenThere(pad, body, j); }
    SplitTwo(pad, TOKEN, tag);
  }

  lemma MarkerTokenThere(pad: string, body: string, j: int)
    requires '#' !in pad && OnlyAt(body, 0, TOKEN) && At(pad + body, j, TOKEN)
    ensures j == |pad|
  {
    TokenHasOneHash(pad + body, j);
    assert forall i :: 0 <= i < |pad| ==> (pad + body)[i] != '#';
    AtShift(pad, body, j - |pad|, TOKEN);
  }

  lemma EmptiedReads(c: Config, pad: string)
    requires '#' !in pad && '\n' !in pad
    ensures ReadsAs(pad + "" + "" + "\n", c, Ok(c))
  {
    NoTokenWithoutHash(pad);
    OneLineReads(pad, c);
    assert pad + "" + "" == pad;
  }

  lemma MarkedReads(c: Config, pad: string, line: string)
    requires Blank(pad) && '#' !in pad && '\n' !in pad
    requires line != "" && '\n' !in Body(line) && OnlyAt(line, 0, TOKEN)
    requires "begin" <= line[|TOKEN|..] || "end" <= line[|TOKEN|..]
    ensures ReadsAs(pad + "" + line + "\n", c, Ok(c))
  {
    if Ends(line) {
      BodyToken(line);
      MarkerReads(c, pad, Body(line));
      TwoLinesRead(c, pad, line);
    } else {
      MarkerReads(c, pad, line);
      OneLineReads(pad + line, c);
      assert pad + "" + line == pad + line;
    }
  }

  lemma BlankedReads(c: Config, from: Config, line: string)
    requires GoodLine(from, line) && EffectOf(line).Blanked?
    ensures PrintLine(from, line).Ok? && ReadsAs(PrintLine(from, line).value, c, Ok(c))
  {
    BlankedPrints(from, line);
    IndentPlain(line);
    if Marker(line) == "" {
      EmptiedReads(c, Indent(line));
    } else {
      MarkersNeedTags(line);
      MarkedReads(c, Indent(line), line);
    }
  }

  lemma ReadsInTurn(a: string, b: string, c: Config)
    requires ReadsAs(a, c, Ok(c)) && ReadsAs(b, c, Ok(c))
    ensures ReadsAs(a + b, c, Ok(c))
  {
    forall rest ensures ReadsBefore(a + b, c, Ok(c), rest) {
      assert a + b + rest == a + (b + rest);
      assert ReadsBefore(a, c, Ok(c), b + rest) && ReadsBefore(b, c, Ok(c), rest);
    }
  }

  /** A marker is written out with its own newline and one more. */
  lemma TwoLinesRead(c: Config, pad: string, line: string)
    requires line != "" && line[|line| - 1] == '\n' && '\n' !in line[..|line| - 1] && '\n' !in pad
    requires ParseLine(c, pad + line[..|line| - 1]) == Ok(c)
    ensures ReadsAs(pad + "" + line + "\n", c, Ok(c))
  {
    var body := line[..|line| - 1];
    OneLineReads(pad + body, c);
    EmptiedReads(c, "");
    var end := "" + "" + "" + "\n";
    ReadsInTurn(pad + body + "\n", end, c);
    assert end == "\n";
    assert pad + "" + line == pad + body + "\n" by { assert line == body + "\n"; }
  }

  /** Without its newline a marker line still begins with its token and tag. */
  lemma BodyToken(line: string)
    requires line != "" && line[|line| - 1] == '\n' && OnlyAt(line, 0, TOKEN)
    requires "begin" <= line[|TOKEN|..] || "end" <= line[|TOKEN|..]
    ensures var body := line[..|line| - 1];
      OnlyAt(body, 0, TOKEN) && ("begin" <= body[|TOKEN|..] || "end" <= body[|TOKEN|..])
  {
    var body := line[..|line| - 1];
    assert body + "\n" == line;
    var tag := line[|TOKEN|..];
    var word := if "begin" <= tag then "begin" else "end";
    assert tag[|tag| - 1] == '\n';
    assert tag != word;
    assert body[|TOKEN|..] == tag[..|tag| - 1];
    AtPrefix(body, "\n", 0, TOKEN);
    forall j | At(body, j, TOKEN) ensures j == 0 { AtPrefix(body, "\n", j, TOKEN); }
  }

  lemma LineReads(c: Config, from: Config, line: string)
    requires WellFormed(from) && GoodLine(from, line) && (Ends(line) || !EffectOf(line).Copied?)
    ensures PrintLine(from, line).Ok? && ReadsAs(PrintLine(from, line).value, c, Reread(c, from, line))
  {
    match EffectOf(line)
    case Copied => CopiedLine(c, from, line);
    case Shows(_) => ShownReads(c, from, line);
    case ShowsServer(_) => ServerReads(c, from, line);
    case Blanked => BlankedReads(c, from, line);
  }

  // ---------------------------------------------------------------- the whole file

  lemma NothingRead(c: Config)
    ensures ParseLines(c, Lines("")) == Ok(c)
  {
    LinesOne("");
    NoTokenWithoutHash("");
    OneParsed(c, "");
  }

  lemma LastLineRead(c: Config, from: Config, line: string)
    requires GoodLine(from, line) && !Ends(line) && EffectOf(line).Copied?
    ensures PrintLines(from, [line]) == Ok(line) && ParseLines(c, Lines(line)) == RereadAll(c, from, [line])
  {
    CopiedLine(c, from, line);
    assert [line][1..] == [] && line + "" == line;
  }

  lemma {:induction false} LinesRead(c: Config, from: Config, template: seq<string>)
    requires WellFormed(from) && GoodTemplate(from, template)
    ensures PrintLines(from, template).Ok?
    ensures ParseLines(c, Lines(PrintLines(from, template).value)) == RereadAll(c, from, template)
    decreases |template|
  {
    if template == [] {
      NothingRead(c);
    } else {
      GoodTail(from, template);
      if !Ends(template[0]) && EffectOf(template[0]).Copied? {
        assert template == [template[0]];
        LastLineRead(c, from, template[0]);
      } else {
        LineReads(c, from, template[0]);
        var r := Reread(c, from, template[0]);
        LinesRead(if r.Ok? then r.value else c, from, template[1..]);
        assert ReadsBefore(PrintLine(from, template[0]).value, c, r, PrintLines(from, template[1..]).value);
      }
    }
  }

  /** What the printer looks up before it reads the template. */
  predicate Required(c: Config) {
    c.log.Some? && c.bind.Some? && c.logRequests.Some? && HttpLog(c.logRequests.value).Some?
  }

  /** Printer, then parser: for every well-formed configuration and template, printing succeeds, and the printed file
      reads as the template would with every shown option and server taken from the configuration. */
  lemma PrintThenParse(from: Config, template: seq<string>)
    requires WellFormed(from) && Required(from) && GoodTemplate(from, template)
    ensures StringFromConfig(from, template).Ok?
    ensures ConfigFromString(StringFromConfig(from, template).value) == RereadAll(EMPTY, from, template)
  {
    LinesRead(EMPTY, from, template);
  }

  // ---------------------------------------------------------------- which options and servers come back

  /** The parsed configuration has the option as it was edited. */
  predicate Agrees(c: Config, i: Item, from: Config) { Taken(c, i, from) == c }

  /** Apart from the statistics socket and address, which the printer does not know. */
  predicate SameButStats(c: Config, d: Config) {
    d == c.(statsSocket := d.statsSocket, statsUri := d.statsUri)
  }

  lemma {:induction false} MatchingOnlyStats(c: Config, items: seq<Item>, tag: string, value: string)
    requires forall k :: 0 <= k < |items| && TokenName(items[k]) <= tag ==> items[k].StatsSocket? || items[k].StatsUri?
    ensures var r := ParseMatching(c, items, tag, value); r.Ok? ==> SameButStats(c, r.value)
    decreases |items|
  {
    if items != [] {
      if TokenName(items[0]) <= tag {
        var r := ParseAs(c, items[0], value);
        if r.Ok? { MatchingOnlyStats(r.value, items[1..], tag, value); }
      } else {
        MatchingOnlyStats(c, items[1..], tag, value);
      }
    }
  }

  lemma BackendTokens(i: Item)
    requires i.BackendServer? || i.HttpChk?
    ensures Contains(TokenName(i), "bck_http")
  {
    var n := TokenName(i);
    assert n[8..16] == "bck_http";
    assert At(n, 8, "bck_http");
  }

  lemma ContainsThrough(s: string, p: string, q: string)
    requires Contains(s, p) && Contains(p, q)
    ensures Contains(s, q)
  {
    var i :| 0 <= i <= |s| && At(s, i, p);
    var j :| 0 <= j <= |p| && At(p, j, q);
    forall m | 0 <= m < |q| ensures s[i + j + m] == q[m] {
      AtChar(p, j, q, m);
      AtChar(s, i, p, j + m);
    }
    var k := i + j;
    assert s[k..k + |q|] == q;
    assert At(s, k, q);
  }

  /** A tag on a line puts the token and the item's name on the line. */
  lemma TagSeen(a: string, tag: string, end: string, n: string)
    requires n <= tag
    ensures Contains(a + TOKEN + tag + end, TOKEN) && Contains(a + TOKEN + tag + end, n)
  {
    var rest := tag[|n|..] + end;
    assert a + TOKEN + tag + end == a + TOKEN + (tag + end);
    AtInfix(a, TOKEN, tag + end);
    assert tag == n + tag[|n|..];
    assert a + TOKEN + tag + end == (a + TOKEN) + n + rest;
    AtInfix(a + TOKEN, n, rest);
  }

  lemma NamedEditable(line: string, i: Item)
    requires IsEditable(i) && Contains(line, TokenName(i))
    ensures NamesEditable(line)
  {
    assert EDITABLE[EditableIndex(i)] == i;
  }

  lemma CopiedItem(line: string, i: Item)
    requires EffectOf(line).Copied? && Contains(line, TOKEN) && Contains(line, TokenName(i))
    ensures i.StatsSocket? || i.StatsUri?
  {
    if IsEditable(i) {
      NamedEditable(line, i);
      assert false;
    } else if i.BackendServer? || i.HttpChk? {
      BackendTokens(i);
      ContainsThrough(line, TokenName(i), "bck_http");
      assert false;
    }
  }

  /** A copied line holds no option that the printer writes, and no backend. */
  lemma CopiedTouchesOnlyStats(c: Config, line: string)
    requires EffectOf(line).Copied?
    ensures var r := ParseLine(c, Body(line)); r.Ok? ==> SameButStats(c, r.value)
  {
    var body := Body(line);
    var end := line[|body|..];
    if Contains(body, TOKEN) && |Split(body, TOKEN)| == 2 {
      var a, tag := Split(body, TOKEN)[0], Split(body, TOKEN)[1];
      TwoPieces(body, TOKEN);
      assert line == body + end && body == a + TOKEN + tag;
      forall k | 0 <= k < |ITEMS| && TokenName(ITEMS[k]) <= tag ensures ITEMS[k].StatsSocket? || ITEMS[k].StatsUri? {
        TagSeen(a, tag, end, TokenName(ITEMS[k]));
        CopiedItem(line, ITEMS[k]);
      }
      MatchingOnlyStats(c, ITEMS, tag, Strip(a));
    }
  }

  lemma TakenKeeps(c: Config, i: Item, j: Item, from: Config)
    requires Agrees(c, i, from)
    ensures Agrees(Taken(c, j, from), i, from)
  {
  }

  lemma StatsKeep(c: Config, d: Config, i: Item, from: Config)
    requires Agrees(c, i, from) && SameButStats(c, d)
    ensures Agrees(d, i, from)
  {
  }

  lemma BackendsKeep(c: Config, i: Item, from: Config, backend: map<string, Backend>)
    requires Agrees(c, i, from)
    ensures Agrees(c.(backend := backend), i, from)
  {
  }

  lemma RereadKeeps(c: Config, from: Config, line: string, i: Item)
    requires Reread(c, from, line).Ok? && Agrees(c, i, from)
    ensures Agrees(Reread(c, from, line).value, i, from)
  {
    match EffectOf(line)
    case Copied =>
      CopiedTouchesOnlyStats(c, line);
      StatsKeep(c, Reread(c, from, line).value, i, from);
    case Shows(j) => TakenKeeps(c, i, j, from);
    case ShowsServer(name) =>
      if name in from.backend { BackendsKeep(c, i, from, c.backend[name := from.backend[name]]); }
    case Blanked =>
  }

  lemma RereadBackend(c: Config, from: Config, line: string)
    requires Printable(from, line) && Reread(c, from, line).Ok?
    ensures match EffectOf(line)
      case ShowsServer(name) =>
        name in from.backend && Reread(c, from, line).value.backend == c.backend[name := from.backend[name]]
      case _ => Reread(c, from, line).value.backend == c.backend
  {
    match EffectOf(line)
    case Copied => CopiedTouchesOnlyStats(c, line);
    case Shows(i) => TakenBackend(c, i, from);
    case ShowsServer(name) => ServerIsThere(from, line);
    case Blanked =>
  }

  lemma TakenBackend(c: Config, i: Item, from: Config)
    ensures Taken(c, i, from).backend == c.backend
  {
  }

  lemma ServerIsThere(from: Config, line: string)
    requires Printable(from, line) && EffectOf(line).ShowsServer?
    ensures EffectOf(line).name in from.backend && from.backend[EffectOf(line).name].Server?
  {
  }

  lemma {:induction false} RereadAllKeeps(c: Config, from: Config, template: seq<string>, i: Item)
    requires GoodTemplate(from, template)
    requires RereadAll(c, from, template).Ok? && Agrees(c, i, from)
    ensures Agrees(RereadAll(c, from, template).value, i, from)
    decreases |template|
  {
    if template != [] {
      RereadFirst(c, from, template);
      RereadKeeps(c, from, template[0], i);
      RereadAllKeeps(Reread(c, from, template[0]).value, from, template[1..], i);
    }
  }

  lemma TakenAgrees(c: Config, i: Item, from: Config)
    ensures Agrees(Taken(c, i, from), i, from)
  {
  }

  lemma {:induction false} ShownComesBack(c: Config, from: Config, template: seq<string>, k: nat, i: Item)
    requires GoodTemplate(from, template)
    requires k < |template| && EffectOf(template[k]) == Shows(i) && RereadAll(c, from, template).Ok?
    ensures Agrees(RereadAll(c, from, template).value, i, from)
    decreases |template|
  {
    if k == 0 {
      ShownFirst(c, from, template, i);
    } else {
      RereadFirst(c, from, template);
      assert template[1..][k - 1] == template[k];
      ShownComesBack(Reread(c, from, template[0]).value, from, template[1..], k - 1, i);
    }
  }

  lemma ShownFirst(c: Config, from: Config, template: seq<string>, i: Item)
    requires template != [] && GoodTemplate(from, template)
    requires EffectOf(template[0]) == Shows(i) && RereadAll(c, from, template).Ok?
    ensures Agrees(RereadAll(c, from, template).value, i, from)
  {
    RereadFirst(c, from, template);
    RereadShown(c, from, template[0], i);
    RereadAllKeeps(Reread(c, from, template[0]).value, from, template[1..], i);
  }

  lemma RereadFirst(c: Config, from: Config, template: seq<string>)
    requires template != [] && GoodTemplate(from, template)
    ensures GoodLine(from, template[0]) && GoodTemplate(from, template[1..])
    ensures RereadAll(c, from, template).Ok? ==> Reread(c, from, template[0]).Ok?
    ensures RereadAll(c, from, template).Ok? ==>
      RereadAll(c, from, template) == RereadAll(Reread(c, from, template[0]).value, from, template[1..])
  {
    GoodTail(from, template);
  }

  lemma RereadShown(c: Config, from: Config, line: string, i: Item)
    requires EffectOf(line) == Shows(i)
    ensures Reread(c, from, line).Ok? && Agrees(Reread(c, from, line).value, i, from)
  {
    TakenAgrees(c, i, from);
  }

  function ShownServers(template: seq<string>): set<string> {
    set k | 0 <= k < |template| && EffectOf(template[k]).ShowsServer? :: EffectOf(template[k]).name
  }

  lemma ShownServersCons(template: seq<string>)
    requires template != []
    ensures ShownServers(template) ==
      ShownServers(template[1..]) + if EffectOf(template[0]).ShowsServer? then {EffectOf(template[0]).name} else {}
  {
    var rest := template[1..];
    forall n | n in ShownServers(template) && !(EffectOf(template[0]).ShowsServer? && n == EffectOf(template[0]).name)
      ensures n in ShownServers(rest)
    {
      var k :| 0 <= k < |template| && EffectOf(template[k]).ShowsServer? && EffectOf(template[k]).name == n;
      assert rest[k - 1] == template[k];
    }
    forall n | n in ShownServers(rest) ensures n in ShownServers(template) {
      var k :| 0 <= k < |rest| && EffectOf(rest[k]).ShowsServer? && EffectOf(rest[k]).name == n;
      assert template[k + 1] == rest[k];
    }
  }

  lemma {:induction false} ServersComeBack(c: Config, from: Config, template: seq<string>)
    requires GoodTemplate(from, template)
    requires RereadAll(c, from, template).Ok?
    ensures var d := RereadAll(c, from, template).value; var shown := ShownServers(template);
      && d.backend.Keys == c.backend.Keys + shown
      && (forall n :: n in shown ==> n in from.backend && d.backend[n] == from.backend[n])
      && (forall n :: n in c.backend && n !in shown ==> d.backend[n] == c.backend[n])
    decreases |template|
  {
    if template != [] {
      RereadFirst(c, from, template);
      var c1 := Reread(c, from, template[0]).value;
      RereadBackend(c, from, template[0]);
      ServersComeBack(c1, from, template[1..]);
      ShownServersCons(template);
    }
  }

  // ---------------------------------------------------------------- when the printed file parses

  lemma {:induction false} MatchingSuccess(c: Config, d: Config, items: seq<Item>, tag: string, value: string)
    ensures ParseMatching(c, items, tag, value).Ok? <==> ParseMatching(d, items, tag, value).Ok?
    decreases |items|
  {
    if items != [] {
      if TokenName(items[0]) <= tag {
        SettingSuccess(c, d, items[0], value);
        var r, q := ParseAs(c, items[0], value), ParseAs(d, items[0], value);
        if r.Ok? { MatchingSuccess(r.value, q.value, items[1..], tag, value); }
      } else {
        MatchingSuccess(c, d, items[1..], tag, value);
      }
    }
  }

  lemma SettingSuccess(c: Config, d: Config, i: Item, value: string)
    ensures ParseAs(c, i, value).Ok? <==> ParseAs(d, i, value).Ok?
  {
  }

  /** Whether a line parses does not depend on what was read before. */
  lemma LineSuccess(c: Config, d: Config, line: string)
    ensures ParseLine(c, line).Ok? <==> ParseLine(d, line).Ok?
  {
    if Contains(line, TOKEN) && |Split(line, TOKEN)| == 2 {
      MatchingSuccess(c, d, ITEMS, Split(line, TOKEN)[1], Strip(Split(line, TOKEN)[0]));
    }
  }

  /** A line that the printer copies must parse as it stands. */
  predicate CopyParses(line: string) { EffectOf(line).Copied? ==> ParseLine(EMPTY, Body(line)).Ok? }

  lemma RereadSuccess(c: Config, from: Config, line: string)
    ensures Reread(c, from, line).Ok? <==> CopyParses(line)
  {
    if EffectOf(line).Copied? { LineSuccess(c, EMPTY, Body(line)); }
  }

  lemma {:induction false} RereadAllSuccess(c: Config, from: Config, template: seq<string>)
    ensures RereadAll(c, from, template).Ok? <==> forall k :: 0 <= k < |template| ==> CopyParses(template[k])
    decreases |template|
  {
    if template != [] {
      RereadSuccess(c, from, template[0]);
      assert template == [template[0]] + template[1..];
      var r := Reread(c, from, template[0]);
      if r.Ok? { RereadAllSuccess(r.value, from, template[1..]); }
    }
  }

  // ---------------------------------------------------------------- the main results

  /** The printed file parses exactly when the lines it copies from the template do. */
  lemma PrintedParsesExactlyWhen(from: Config, template: seq<string>)
    requires WellFormed(from) && Required(from) && GoodTemplate(from, template)
    ensures StringFromConfig(from, template).Ok?
    ensures ConfigFromString(StringFromConfig(from, template).value).Ok? <==>
      forall k :: 0 <= k < |template| ==> CopyParses(template[k])
  {
    PrintThenParse(from, template);
    RereadAllSuccess(EMPTY, from, template);
  }

  /** The configuration d has every option that the template shows as it was edited, and exactly the servers that the
      template shows. */
  ghost predicate ShownIsBack(d: Config, from: Config, template: seq<string>) {
    && (forall k :: 0 <= k < |template| && EffectOf(template[k]).Shows? ==>
      Agrees(d, EffectOf(template[k]).item, from))
    && d.backend.Keys == ShownServers(template)
    && (forall n :: n in d.backend ==> n in from.backend && d.backend[n] == from.backend[n])
  }

  /** Printing and parsing gives back every editable option whose tag is in the template, and exactly the servers tagged
      there; so all backends come back exactly when the template tags a server for each of them. */
  lemma EverythingShownComesBack(from: Config, template: seq<string>)
    requires WellFormed(from) && Required(from) && GoodTemplate(from, template)
    requires forall k :: 0 <= k < |template| ==> CopyParses(template[k])
    ensures StringFromConfig(from, template).Ok? && ConfigFromString(StringFromConfig(from, template).value).Ok?
    ensures var d := ConfigFromString(StringFromConfig(from, template).value).value;
      ShownIsBack(d, from, template) && (d.backend == from.backend <==> ShownServers(template) == from.backend.Keys)
  {
    PrintThenParse(from, template);
    RereadAllSuccess(EMPTY, from, template);
    forall k | 0 <= k < |template| && EffectOf(template[k]).Shows?
      ensures Agrees(RereadAll(EMPTY, from, template).value, EffectOf(template[k]).item, from)
    {
      ShownComesBack(EMPTY, from, template, k, EffectOf(template[k]).item);
    }
    ServersComeBack(EMPTY, from, template);
  }

  /** A health check among the backends never comes back: no template tags it as a server. */
  lemma HealthCheckNeverComesBack(from: Config, template: seq<string>, name: string)
    requires WellFormed(from) && Required(from) && GoodTemplate(from, template)
    requires forall k :: 0 <= k < |template| ==> CopyParses(template[k])
    requires name in from.backend && from.backend[name].HttpCheck?
    ensures StringFromConfig(from, template).Ok? && ConfigFromString(StringFromConfig(from, template).value).Ok?
    ensures name !in ConfigFromString(StringFromConfig(from, template).value).value.backend
  {
    EverythingShownComesBack(from, template);
    forall k | 0 <= k < |template| && EffectOf(template[k]).ShowsServer? ensures EffectOf(template[k]).name != name {
      ServerIsThere(from, template[k]);
    }
  }

  /** The tagged line of the health check does not survive: the printer leaves a blank line in its place. */
  lemma HealthCheckIsLost(from: Config, line: string)
    requires GoodLine(from, line) && Rewritten(line) && TokenName(HttpChk) <= TagOf(line) && !Contains(line, "--")
    ensures PrintLine(from, line) == Ok(Indent(line) + "" + "" + "\n") && EffectOf(line) == Blanked
  {
    var tag := TagOf(line);
    DecodeFinds(HttpChk, tag);
    assert TokenName(BackendServer) <= SERVER_TAG;
    if SERVER_TAG <= tag {
      TokenNamesDiffer(HttpChk, BackendServer, tag);
      assert false;
    }
    assert tag[0] == 'b' && tag[1] == 'a';
    MarkersNeedTags(line);
    BlankedPrints(from, line);
  }
}
