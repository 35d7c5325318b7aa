/** The load balancer's configuration: a parser that picks the tagged lines out of an HAProxy file, and a printer that
    writes an edited configuration back into the same file. */
module HaproxyConfig {
  import opened Commons
  import opened Text

  const TOKEN := "# ZATO "

  const SERVER_PREFIX := "http_plain--"

  // ---------------------------------------------------------------- alphabets

  predicate IsAlpha(c: char) { 'a' <= c <= 'z' || 'A' <= c <= 'Z' }
  predicate IsDigit(c: char) { '0' <= c <= '9' }
  predicate IsAlnum(c: char) { IsAlpha(c) || IsDigit(c) }
  predicate IsHostChar(c: char) { IsAlnum(c) || c == '.' || c == '-' || c == '_' }
  predicate IsUriChar(c: char) { '!' <= c <= '~' }

  // ---------------------------------------------------------------- what the file says

  datatype Backend =
    | Server(address: string, port: string, extra: string)
    | HttpCheck(verb: string, path: string)

  datatype Log = Log(host: string, port: string, facility: string, level: string)

  datatype Bind = Bind(address: string, port: string)

  /** The check, if any, sits among the servers under the name option_httpchk. */
  datatype Config = Config(
    log: Option<Log>,
    statsSocket: Option<string>,
    timeoutConnect: Option<string>,
    timeoutClient: Option<string>,
    timeoutServer: Option<string>,
    statsUri: Option<string>,
    backend: map<string, Backend>,
    monitorUri: Option<string>,
    logRequests: Option<int>,
    bind: Option<Bind>,
    maxconn: Option<string>)

  const EMPTY := Config(None, None, None, None, None, None, map[], None, None, None, None)

  datatype Item =
    | GlobalLog | StatsSocket | TimeoutConnect | TimeoutClient | TimeoutServer | StatsUri
    | BackendServer | HttpChk | MonitorUri | LogRequests | FrontendBind | Maxconn

  const ITEMS := [GlobalLog, StatsSocket, TimeoutConnect, TimeoutClient, TimeoutServer, StatsUri,
                  BackendServer, HttpChk, MonitorUri, LogRequests, FrontendBind, Maxconn]

  /** Those that the printer can write, besides servers. */
  const EDITABLE := [GlobalLog, TimeoutConnect, TimeoutClient, TimeoutServer,
                     MonitorUri, FrontendBind, Maxconn, LogRequests]

  const FRONT := "frontend front_http_plain:"

  function TokenName(i: Item): string {
    match i
    case GlobalLog => "global:log"
    case StatsSocket => "global:stats_socket"
    case TimeoutConnect => "defaults:timeout connect"
    case TimeoutClient => "defaults:timeout client"
    case TimeoutServer => "defaults:timeout server"
    case StatsUri => "defaults:stats uri"
    case BackendServer => "backend bck_http_plain:server"
    case HttpChk => "backend bck_http_plain:option httpchk"
    case MonitorUri => FRONT + "monitor-uri"
    case LogRequests => FRONT + "option log-http-requests"
    case FrontendBind => FRONT + "bind"
    case Maxconn => FRONT + "maxconn"
  }

  // ---------------------------------------------------------------- the parser

  /** What the grammar of one line yields. */
  datatype Data =
    | LogData(log: Log)
    | One(text: string)
    | ServerData(name: string, address: string, port: string, extra: string)
    | CheckData(verb: string, path: string)
    | BindData(address: string, port: string)

  function ParseOne(s: string, keyword: string, alphabet: char -> bool): Option<Data> {
    var s1 :- Literal(s, keyword);
    var (x, _) :- Word(s1, alphabet);
    Some(One(x))
  }

  function ParseLog(s: string): Option<Data> {
    var s1 :- Literal(s, "log");
    var (host, s2) :- Word(s1, IsHostChar);
    var s3 :- Literal(s2, ":");
    var (port, s4) :- Word(s3, IsDigit);
    var (facility, s5) :- Word(s4, IsAlnum);
    var (level, _) :- Word(s5, IsAlnum);
    Some(LogData(Log(host, port, facility, level)))
  }

  function ParseTimeout(s: string): Option<Data> {
    var s1 :- Literal(s, "timeout");
    var (_, s2) :- Word(s1, IsAlpha);
    var (x, _) :- Word(s2, IsDigit);
    Some(One(x))
  }

  function ParseServer(s: string): Option<Data> {
    var s1 :- Literal(s, "server");
    var (name, s2) :- Word(s1, IsHostChar);
    var (address, s3) :- Word(s2, IsHostChar);
    var s4 :- Literal(s3, ":");
    var (port, extra) :- Word(s4, IsDigit);
    Some(ServerData(name, address, port, extra))
  }

  function ParseBind(s: string): Option<Data> {
    var s1 :- Literal(s, "bind");
    var (address, s2) :- match Literal(s1, "*") case Some(rest) => Some(("*", rest)) case None => Word(s1, IsHostChar);
    var s3 :- Literal(s2, ":");
    var (port, _) :- Word(s3, IsDigit);
    Some(BindData(address, port))
  }

  function ParseCheck(s: string): Option<Data> {
    var s1 :- Literal(s, "option httpchk");
    var (verb, s2) :- Word(s1, IsAlpha);
    var (path, _) :- Word(s2, IsUriChar);
    Some(CheckData(verb, path))
  }

  function ParseItem(i: Item, s: string): Option<Data> {
    match i
    case GlobalLog => ParseLog(s)
    case StatsSocket => ParseOne(s, "stats socket", IsUriChar)
    case TimeoutConnect => ParseTimeout(s)
    case TimeoutClient => ParseTimeout(s)
    case TimeoutServer => ParseTimeout(s)
    case StatsUri => ParseOne(s, "stats uri", IsUriChar)
    case BackendServer => ParseServer(s)
    case HttpChk => ParseCheck(s)
    case MonitorUri => ParseOne(s, "monitor-uri", IsUriChar)
    case LogRequests => ParseOne(s, "option", IsAlpha)
    case FrontendBind => ParseBind(s)
    case Maxconn => ParseOne(s, "maxconn", IsDigit)
  }

  function HttpLog(n: int): Option<string>
  {
    if n == 1 then Some("nolog") else if n == 2 then Some("httplog") else None
  }

  function ReversedHttpLog(s: string): Option<int>
  {
    if s == "nolog" then Some(1) else if s == "httplog" then Some(2) else None
  }

  /** Config.set_value */
  function SetValue(c: Config, i: Item, d: Data): Result<Config> {
    match (i, d)
    case (GlobalLog, LogData(l)) => Ok(c.(log := Some(l)))
    case (StatsSocket, One(x)) => Ok(c.(statsSocket := Some(x)))
    case (TimeoutConnect, One(x)) => Ok(c.(timeoutConnect := Some(x)))
    case (TimeoutClient, One(x)) => Ok(c.(timeoutClient := Some(x)))
    case (TimeoutServer, One(x)) => Ok(c.(timeoutServer := Some(x)))
    case (StatsUri, One(x)) => Ok(c.(statsUri := Some(x)))
    case (BackendServer, ServerData(name, address, port, extra)) =>
      var parts := Split(name, SERVER_PREFIX);
      if |parts| < 2 then Raised("IndexError")
      else Ok(c.(backend := c.backend[parts[1] := Server(address, port, Strip(extra))]))
    case (HttpChk, CheckData(verb, path)) => Ok(c.(backend := c.backend["option_httpchk" := HttpCheck(verb, path)]))
    case (MonitorUri, One(x)) => Ok(c.(monitorUri := Some(x)))
    case (LogRequests, One(x)) =>
      if ReversedHttpLog(x).None? then Raised("KeyError") else Ok(c.(logRequests := ReversedHttpLog(x)))
    case (FrontendBind, BindData(address, port)) => Ok(c.(bind := Some(Bind(address, port))))
    case (Maxconn, One(x)) => Ok(c.(maxconn := Some(x)))
    case _ => Raised("Exception")
  }

  function ParseAs(c: Config, i: Item, value: string): Result<Config> {
    match ParseItem(i, value)
    case None => Raised("ParseException")
    case Some(d) => SetValue(c, i, d)
  }

  /** Every token that the tag begins with gets its turn. */
  function ParseMatching(c: Config, items: seq<Item>, tag: string, value: string): Result<Config>
    decreases |items|
  {
    if items == [] then Ok(c)
    else if TokenName(items[0]) <= tag then
      var c1 :- ParseAs(c, items[0], value);
      ParseMatching(c1, items[1..], tag, value)
    else ParseMatching(c, items[1..], tag, value)
  }

  function ParseLine(c: Config, line: string): Result<Config> {
    if !Contains(line, TOKEN) then Ok(c)
    else
      var pieces := Split(line, TOKEN);
      if |pieces| != 2 then Raised("ValueError")
      else
        var value := Strip(pieces[0]);
        if "#" <= value then Ok(c) else ParseMatching(c, ITEMS, pieces[1], value)
  }

  function ParseLines(c: Config, lines: seq<string>): Result<Config>
    decreases |lines|
  {
    if lines == [] then Ok(c)
    else
      var c1 :- ParseLine(c, lines[0]);
      ParseLines(c1, lines[1..])
  }

  function ConfigFromString(data: string): Result<Config> { ParseLines(EMPTY, Lines(data)) }

  // ---------------------------------------------------------------- the printer

  /** One dispatch entry filled in; None where the source meets a missing key. */
  function Filled(c: Config, i: Item): Option<string> {
    match i
    case GlobalLog =>
      var l :- c.log;
      Some("log" + (" " + (l.host + (":" + (l.port + (" " + (l.facility + (" " + l.level))))))))
    case TimeoutConnect => var x :- c.timeoutConnect; Some("timeout" + (" " + ("connect" + (" " + x))))
    case TimeoutClient => var x :- c.timeoutClient; Some("timeout" + (" " + ("client" + (" " + x))))
    case TimeoutServer => var x :- c.timeoutServer; Some("timeout" + (" " + ("server" + (" " + x))))
    case MonitorUri => var x :- c.monitorUri; Some("monitor-uri" + (" " + x))
    case FrontendBind => var b :- c.bind; Some("bind" + (" " + (b.address + (":" + b.port))))
    case Maxconn => var x :- c.maxconn; Some("maxconn" + (" " + x))
    case LogRequests => var n :- c.logRequests; var x :- HttpLog(n); Some("option" + (" " + x))
    case _ => None
  }

  predicate HasItem(line: string, i: Item) { Contains(line, TOKEN + TokenName(i)) }

  function FilledText(c: Config, i: Item): string
    requires Filled(c, i).Some?
  {
    Filled(c, i).value + (" " + (TOKEN + TokenName(i)))
  }

  /** All the dispatch entries whose tag is on the line. */
  function FilledItems(c: Config, items: seq<Item>, line: string): Result<string> {
    if items == [] then Ok("")
    else
      var more :- FilledItems(c, items[1..], line);
      if !HasItem(line, items[0]) then Ok(more)
      else
        match Filled(c, items[0])
        case None => Raised("KeyError")
        case Some(_) => Ok(FilledText(c, items[0]) + more)
  }

  const SERVER_TAG := "backend bck_http_plain:server--"

  /** backend_template for the one backend there is. */
  function ServerText(name: string, b: Backend): string
    requires b.Server?
  {
    ServerValue(name, b) + (" " + (TOKEN + (SERVER_TAG + name)))
  }

  function ServerValue(name: string, b: Backend): string
    requires b.Server?
  {
    "server" + (" " + ((SERVER_PREFIX + name) + (" " + (b.address + (":" + (b.port + (" " + b.extra)))))))
  }

  function TaggedServer(c: Config, line: string): Result<string>
    requires Contains(line, TOKEN + "backend")
  {
    var parts := Split(line, TOKEN + "backend");
    if |parts| < 2 then Raised("IndexError") else
    var info := Split(parts[1], "--");
    if |info| < 2 then Raised("IndexError") else
    var backendType := Split(Strip(info[0]), ":")[0];
    var name := Strip(info[1]);
    if |Split(backendType, "bck_")| < 2 then Raised("IndexError")
    else if backendType != "bck_http_plain" || name !in c.backend || !c.backend[name].Server? then Raised("KeyError")
    else Ok(ServerText(name, c.backend[name]))
  }

  predicate NamesEditable(line: string) { exists i :: 0 <= i < |EDITABLE| && Contains(line, TokenName(EDITABLE[i])) }

  function Marker(line: string): string {
    if TOKEN + "begin" <= line || TOKEN + "end" <= line then line else ""
  }

  function PrintLine(c: Config, line: string): Result<string> {
    if !Contains(line, TOKEN) then Ok(line)
    else if !Contains(line, "bck_http") && !NamesEditable(line) then Ok(line)
    else
      var indent := Spaces(|line| - |Strip(line)| - 1);
      var simple :- FilledItems(c, EDITABLE, line);
      var rest :-
        if Contains(line, TOKEN + "backend") && Contains(line, "--") then TaggedServer(c, line) else Ok(Marker(line));
      Ok(indent + simple + rest + "\n")
  }

  function PrintLines(c: Config, template: seq<string>): Result<string> {
    if template == [] then Ok("")
    else
      var line :- PrintLine(c, template[0]);
      var more :- PrintLines(c, template[1..]);
      Ok(line + more)
  }

  /** The dispatch dictionary is built first, and it looks up the log, the bind and the kind of request log. */
  function StringFromConfig(c: Config, template: seq<string>): Result<string> {
    if c.log.None? || c.bind.None? || c.logRequests.None? || HttpLog(c.logRequests.value).None? then Raised("KeyError")
    else PrintLines(c, template)
  }

  // ---------------------------------------------------------------- one token a line, one item a token

  /** The only item whose token name can stand at the beginning of a tag, told by a few of its characters. */
  function Decode(tag: string): Option<Item> {
    if |tag| < 10 then None
    else if tag[0] == 'g' then Some(if tag[7] == 'l' then GlobalLog else StatsSocket)
    else if tag[0] == 'd' then
      if tag[9] == 's' then Some(StatsUri)
      else if |tag| < 19 then None
      else Some(if tag[17] == 's' then TimeoutServer else if tag[18] == 'o' then TimeoutConnect else TimeoutClient)
    else if |tag| < 28 then None
    else if tag[0] == 'b' then Some(if tag[23] == 's' then BackendServer else HttpChk)
    else if tag[26] == 'b' then Some(FrontendBind)
    else if tag[26] == 'o' then Some(LogRequests)
    else Some(if tag[27] == 'a' then Maxconn else MonitorUri)
  }

  lemma DecodeFinds(i: Item, tag: string)
    requires TokenName(i) <= tag
    ensures Decode(tag) == Some(i)
  {
    var n := TokenName(i);
    assert forall k :: 0 <= k < |n| ==> tag[k] == n[k];
    match i
    case GlobalLog => assert n[0] == 'g' && n[7] == 'l';
    case StatsSocket => assert n[0] == 'g' && n[7] == 's';
    case TimeoutConnect => assert n[0] == 'd' && n[9] == 't' && n[17] == 'c' && n[18] == 'o';
    case TimeoutClient => assert n[0] == 'd' && n[9] == 't' && n[17] == 'c' && n[18] == 'l';
    case TimeoutServer => assert n[0] == 'd' && n[9] == 't' && n[17] == 's';
    case StatsUri => assert n[0] == 'd' && n[9] == 's';
    case BackendServer => assert n[0] == 'b' && n[23] == 's';
    case HttpChk => assert n[0] == 'b' && n[23] == 'o';
    case MonitorUri => assert n[0] == 'f' && n[26] == 'm' && n[27] == 'o';
    case LogRequests => assert n[0] == 'f' && n[26] == 'o';
    case FrontendBind => assert n[0] == 'f' && n[26] == 'b';
    case Maxconn => assert n[0] == 'f' && n[26] == 'm' && n[27] == 'a';
  }

  /** No token name begins another, so a tag matches at most one of them. */
  lemma TokenNamesDiffer(i: Item, j: Item, tag: string)
    requires TokenName(i) <= tag && TokenName(j) <= tag
    ensures i == j
  {
    DecodeFinds(i, tag);
    DecodeFinds(j, tag);
  }

  lemma {:induction false} NoMatch(c: Config, items: seq<Item>, tag: string, value: string)
    requires forall k :: 0 <= k < |items| ==> !(TokenName(items[k]) <= tag)
    ensures ParseMatching(c, items, tag, value) == Ok(c)
    decreases |items|
  {
    if items != [] { NoMatch(c, items[1..], tag, value); }
  }

  ghost predicate Distinct(items: seq<Item>) { forall a, b :: 0 <= a < b < |items| ==> items[a] != items[b] }

  lemma DistinctTail(items: seq<Item>)
    requires items != [] && Distinct(items)
    ensures Distinct(items[1..]) && forall m :: 0 < m < |items| ==> items[m] != items[0]
  {
  }

  lemma {:induction false} MatchAt(c: Config, items: seq<Item>, k: nat, tag: string, value: string)
    requires k < |items| && TokenName(items[k]) <= tag && Distinct(items)
    ensures ParseMatching(c, items, tag, value) == ParseAs(c, items[k], value)
    decreases |items|
  {
    if k == 0 {
      NoOtherMatch(items, tag);
      var r := ParseAs(c, items[0], value);
      if r.Ok? { NoMatch(r.value, items[1..], tag, value); }
    } else {
      if TokenName(items[0]) <= tag { TokenNamesDiffer(items[0], items[k], tag); }
      DistinctTail(items);
      assert items[1..][k - 1] == items[k];
      MatchAt(c, items[1..], k - 1, tag, value);
    }
  }

  lemma NoOtherMatch(items: seq<Item>, tag: string)
    requires items != [] && TokenName(items[0]) <= tag && Distinct(items)
    ensures forall m :: 0 <= m < |items[1..]| ==> !(TokenName(items[1..][m]) <= tag)
  {
    forall m | 0 <= m < |items[1..]| ensures !(TokenName(items[1..][m]) <= tag) {
      assert items[1..][m] == items[m + 1] && items[m + 1] != items[0];
      if TokenName(items[m + 1]) <= tag {
        TokenNamesDiffer(items[0], items[m + 1], tag);
        assert false;
      }
    }
  }

  function Index(i: Item): (k: nat)
    ensures k < |ITEMS| && ITEMS[k] == i
  {
    match i
    case GlobalLog => 0 case StatsSocket => 1 case TimeoutConnect => 2 case TimeoutClient => 3
    case TimeoutServer => 4 case StatsUri => 5 case BackendServer => 6 case HttpChk => 7
    case MonitorUri => 8 case LogRequests => 9 case FrontendBind => 10 case Maxconn => 11
  }

  lemma MatchingOne(c: Config, i: Item, tag: string, value: string)
    requires TokenName(i) <= tag
    ensures ParseMatching(c, ITEMS, tag, value) == ParseAs(c, i, value)
  {
    MatchAt(c, ITEMS, Index(i), tag, value);
  }

  lemma TokenHasOneHash(s: string, j: int)
    requires At(s, j, TOKEN)
    ensures s[j] == '#' && forall m :: j < m < j + |TOKEN| ==> s[m] != '#'
  {
    assert TOKEN[0] == '#' && forall m :: 0 < m < |TOKEN| ==> TOKEN[m] != '#';
    AtChar(s, j, TOKEN, 0);
    forall m | j < m < j + |TOKEN| ensures s[m] != '#' { AtChar(s, j, TOKEN, m - j); }
  }

  /** A token put between a text without tokens and a text without '#' is the only one. */
  lemma TokenOnce(before: string, after: string)
    requires !Contains(before, TOKEN) && '#' !in after
    ensures OnlyAt(before + TOKEN + after, |before|, TOKEN)
    ensures Split(before + TOKEN + after, TOKEN) == [before, after]
    ensures Contains(before + TOKEN + after, TOKEN)
  {
    var s := before + TOKEN + after;
    AtInfix(before, TOKEN, after);
    forall j | At(s, j, TOKEN) ensures j == |before| { TokenOnlyThere(before, after, j); }
    SplitTwo(before, TOKEN, after);
  }

  lemma TokenOnlyThere(before: string, after: string, j: int)
    requires !Contains(before, TOKEN) && '#' !in after && At(before + TOKEN + after, j, TOKEN)
    ensures j == |before|
  {
    var s := before + TOKEN + after;
    AtInfix(before, TOKEN, after);
    TokenHasOneHash(s, |before|);
    TokenHasOneHash(s, j);
    assert forall i :: |before| + |TOKEN| <= i < |s| ==> s[i] == after[i - |before| - |TOKEN|];
    assert s == before + (TOKEN + after);
    if j + |TOKEN| <= |before| {
      AtPrefix(before, TOKEN + after, j, TOKEN);
      assert false;
    }
  }

  /** How a tagged line is read when nothing is odd about it. */
  lemma ParseTagged(c: Config, pad: string, body: string, gap: string, tag: string)
    requires Blank(pad) && Blank(gap) && Trimmed(body) && body != "" && body[0] != '#'
    requires !Contains(pad + body + gap, TOKEN) && '#' !in tag
    ensures ParseLine(c, pad + body + gap + TOKEN + tag) == ParseMatching(c, ITEMS, tag, body)
  {
    TokenOnce(pad + body + gap, tag);
    StripPadded(pad, body, gap);
  }

  // ---------------------------------------------------------------- values the grammar can hold

  ghost predicate Filling(s: string, alphabet: char -> bool) { s != "" && Over(s, alphabet) }

  ghost predicate GoodLog(l: Log) {
    Filling(l.host, IsHostChar) && Filling(l.port, IsDigit) && Filling(l.facility, IsAlnum) && Filling(l.level, IsAlnum)
  }

  ghost predicate GoodBind(b: Bind) { (b.address == "*" || Filling(b.address, IsHostChar)) && Filling(b.port, IsDigit) }

  /** The parser cuts what it finds at the prefix, so the prefix must not occur again. */
  ghost predicate GoodName(name: string) { Over(name, IsHostChar) && !Contains(name, SERVER_PREFIX) }

  /** `extra` is free text on the line; tabs would be expanded by the tokenizer. */
  ghost predicate GoodExtra(extra: string) {
    Trimmed(extra) && '\n' !in extra && '\t' !in extra && !Contains(extra + " ", TOKEN)
  }

  ghost predicate GoodServer(b: Backend) {
    b.Server? && Filling(b.address, IsHostChar) && Filling(b.port, IsDigit) && GoodExtra(b.extra)
  }

  ghost predicate GoodText(x: Option<string>, alphabet: char -> bool) { x.Some? ==> Filling(x.value, alphabet) }

  /** Whatever is there is made of the right characters. */
  ghost predicate WellFormed(c: Config) {
    && (c.log.Some? ==> GoodLog(c.log.value))
    && GoodText(c.timeoutConnect, IsDigit) && GoodText(c.timeoutClient, IsDigit) && GoodText(c.timeoutServer, IsDigit)
    && GoodText(c.monitorUri, IsUriChar) && GoodText(c.maxconn, IsDigit)
    && (c.bind.Some? ==> GoodBind(c.bind.value))
    && forall name :: name in c.backend && c.backend[name].Server? ==> GoodName(name) && GoodServer(c.backend[name])
  }

  /** The option as the edited configuration has it. */
  function Taken(c: Config, i: Item, from: Config): Config {
    match i
    case GlobalLog => c.(log := from.log)
    case TimeoutConnect => c.(timeoutConnect := from.timeoutConnect)
    case TimeoutClient => c.(timeoutClient := from.timeoutClient)
    case TimeoutServer => c.(timeoutServer := from.timeoutServer)
    case MonitorUri => c.(monitorUri := from.monitorUri)
    case LogRequests => c.(logRequests := from.logRequests)
    case FrontendBind => c.(bind := from.bind)
    case Maxconn => c.(maxconn := from.maxconn)
    case _ => c
  }

  // ---------------------------------------------------------------- reading back one filled-in value

  lemma PortMatches(pad: string, port: string)
    requires Gap(pad) && Filling(port, IsDigit)
    ensures Word(pad + port, IsDigit) == Some((port, ""))
  {
    WordMatches(pad, port, "", IsDigit);
    assert port + "" == port;
  }

  lemma ParseOneMatches(keyword: string, x: string, alphabet: char -> bool)
    requires keyword != "" && !IsSpace(keyword[0]) && Filling(x, alphabet) && !IsSpace(x[0])
    ensures ParseOne(keyword + (" " + x), keyword, alphabet) == Some(One(x))
  {
    LiteralMatches("", keyword, " " + x);
    assert "" + (keyword + (" " + x)) == keyword + (" " + x);
    WordMatches(" ", x, "", alphabet);
    assert x + "" == x;
  }

  lemma ParseTimeoutMatches(which: string, x: string)
    requires Filling(which, IsAlpha) && Filling(x, IsDigit)
    ensures ParseTimeout("timeout" + (" " + (which + (" " + x)))) == Some(One(x))
  {
    LiteralMatches("", "timeout", " " + (which + (" " + x)));
    assert "" + ("timeout" + (" " + (which + (" " + x)))) == "timeout" + (" " + (which + (" " + x)));
    WordMatches(" ", which, " " + x, IsAlpha);
    PortMatches(" ", x);
  }

  lemma ParseAddress(address: string, port: string, rest: string)
    requires Filling(address, IsHostChar) && Filling(port, IsDigit) && (rest == "" || !IsDigit(rest[0]))
    ensures Word(" " + (address + (":" + (port + rest))), IsHostChar) == Some((address, ":" + (port + rest)))
    ensures Literal(":" + (port + rest), ":") == Some(port + rest)
    ensures Word(port + rest, IsDigit) == Some((port, rest))
  {
    WordMatches(" ", address, ":" + (port + rest), IsHostChar);
    LiteralMatches("", ":", port + rest);
    assert "" + (":" + (port + rest)) == ":" + (port + rest);
    WordMatches("", port, rest, IsDigit);
    assert "" + (port + rest) == port + rest;
  }

  lemma ParseLogMatches(l: Log)
    requires GoodLog(l)
    ensures ParseLog("log" + (" " + (l.host + (":" + (l.port + (" " + (l.facility + (" " + l.level))))))))
      == Some(LogData(l))
  {
    var s5 := " " + l.level;
    var s4 := " " + (l.facility + s5);
    var s1 := " " + (l.host + (":" + (l.port + s4)));
    LiteralMatches("", "log", s1);
    assert "" + ("log" + s1) == "log" + s1;
    ParseAddress(l.host, l.port, s4);
    WordMatches(" ", l.facility, s5, IsAlnum);
    WordMatches(" ", l.level, "", IsAlnum);
    assert l.level + "" == l.level;
  }

  lemma ParseBindMatches(b: Bind)
    requires GoodBind(b)
    ensures ParseBind("bind" + (" " + (b.address + (":" + b.port)))) == Some(BindData(b.address, b.port))
  {
    var s1 := " " + (b.address + (":" + b.port));
    LiteralMatches("", "bind", s1);
    assert "" + ("bind" + s1) == "bind" + s1;
    if b.address == "*" {
      LiteralMatches(" ", "*", ":" + b.port);
    } else {
      NoStar(b.address, ":" + b.port);
      WordMatches(" ", b.address, ":" + b.port, IsHostChar);
    }
    PortAfterColon(b.port);
  }

  lemma NoStar(address: string, rest: string)
    requires Filling(address, IsHostChar)
    ensures Literal(" " + (address + rest), "*") == None
  {
    SkipSpacePadded(" ", address + rest);
    assert SkipSpace(" " + (address + rest))[0] == address[0];
  }

  lemma PortAfterColon(port: string)
    requires Filling(port, IsDigit)
    ensures Literal(":" + port, ":") == Some(port) && Word(port, IsDigit) == Some((port, ""))
  {
    LiteralMatches("", ":", port);
    assert "" + (":" + port) == ":" + port;
    PortMatches("", port);
    assert "" + port == port;
  }

  /** The printed option reads back as the option. */
  lemma FilledReadsBack(c: Config, i: Item, from: Config)
    requires WellFormed(from) && Filled(from, i).Some?
    ensures ParseAs(c, i, Filled(from, i).value) == Ok(Taken(c, i, from))
  {
    match i
    case GlobalLog => ParseLogMatches(from.log.value);
    case TimeoutConnect => ParseTimeoutMatches("connect", from.timeoutConnect.value);
    case TimeoutClient => ParseTimeoutMatches("client", from.timeoutClient.value);
    case TimeoutServer => ParseTimeoutMatches("server", from.timeoutServer.value);
    case MonitorUri => ParseOneMatches("monitor-uri", from.monitorUri.value, IsUriChar);
    case LogRequests => ParseOneMatches("option", HttpLog(from.logRequests.value).value, IsAlpha);
    case FrontendBind => ParseBindMatches(from.bind.value);
    case Maxconn => ParseOneMatches("maxconn", from.maxconn.value, IsDigit);
  }

  // ---------------------------------------------------------------- reading back one server

  /** ServerValue without the space that an empty `extra` leaves behind. */
  function ServerBody(name: string, b: Backend): string
    requires b.Server?
  {
    "server" + (" " + ((SERVER_PREFIX + name) + (" " + (b.address + (":" + (b.port + ExtraOnLine(b.extra)))))))
  }

  /** The name that the parser makes of a printed one. */
  function NameRead(name: string): string { Split(name, SERVER_PREFIX)[0] }

  lemma SecondPart(name: string)
    ensures Split(SERVER_PREFIX + name, SERVER_PREFIX) == [""] + Split(name, SERVER_PREFIX)
    ensures NameRead(name) == name <==> !Contains(name, SERVER_PREFIX)
  {
    assert "" + SERVER_PREFIX + name == SERVER_PREFIX + name;
    SplitFirst("", SERVER_PREFIX, name);
    if Contains(name, SERVER_PREFIX) {
      assert |NameRead(name)| < |name|;
    } else {
      SplitNone(name, SERVER_PREFIX);
    }
  }

  lemma ParseServerMatches(full: string, address: string, port: string, end: string)
    requires Filling(full, IsHostChar) && Filling(address, IsHostChar) && Filling(port, IsDigit)
    requires end == "" || end[0] == ' '
    ensures ParseServer("server" + (" " + (full + (" " + (address + (":" + (port + end)))))))
      == Some(ServerData(full, address, port, end))
  {
    var s2 := " " + (address + (":" + (port + end)));
    LiteralMatches("", "server", " " + (full + s2));
    assert "" + ("server" + (" " + (full + s2))) == "server" + (" " + (full + s2));
    WordMatches(" ", full, s2, IsHostChar);
    ParseAddress(address, port, end);
  }

  function ExtraOnLine(extra: string): string { if extra == "" then "" else " " + extra }

  lemma ExtraStripped(extra: string)
    requires Trimmed(extra)
    ensures Strip(ExtraOnLine(extra)) == extra
  {
    if extra == "" {
      StripBlank("");
    } else {
      StripPadded(" ", extra, "");
      assert " " + extra + "" == " " + extra;
    }
  }

  lemma PrefixedName(name: string)
    requires Over(name, IsHostChar)
    ensures Filling(SERVER_PREFIX + name, IsHostChar)
  {
    assert Over(SERVER_PREFIX, IsHostChar);
  }

  lemma ServerReadsAs(c: Config, name: string, b: Backend)
    requires Over(name, IsHostChar) && GoodServer(b)
    ensures ParseAs(c, BackendServer, ServerBody(name, b)) == Ok(c.(backend := c.backend[NameRead(name) := b]))
  {
    PrefixedName(name);
    ParseServerMatches(SERVER_PREFIX + name, b.address, b.port, ExtraOnLine(b.extra));
    ServerSets(c, name, b);
  }

  lemma ServerSets(c: Config, name: string, b: Backend)
    requires b.Server? && Trimmed(b.extra)
    ensures SetValue(c, BackendServer, ServerData(SERVER_PREFIX + name, b.address, b.port, ExtraOnLine(b.extra)))
      == Ok(c.(backend := c.backend[NameRead(name) := b]))
  {
    SecondPart(name);
    ExtraStripped(b.extra);
  }

  lemma ServerReadsBack(c: Config, name: string, b: Backend)
    requires GoodName(name) && GoodServer(b)
    ensures ParseAs(c, BackendServer, ServerBody(name, b)) == Ok(c.(backend := c.backend[name := b]))
  {
    ServerReadsAs(c, name, b);
    SecondPart(name);
  }

  /** Of the names that the grammar admits, a printed server reads back as itself exactly when the prefix of all server
      names does not occur in its own. */
  lemma ServerReadsBackExactlyWhen(name: string, b: Backend)
    requires Over(name, IsHostChar) && GoodServer(b)
    ensures ParseAs(EMPTY, BackendServer, ServerBody(name, b)) == Ok(EMPTY.(backend := map[name := b]))
      <==> !Contains(name, SERVER_PREFIX)
  {
    ServerReadsAs(EMPTY, name, b);
    SecondPart(name);
    var read := map[][NameRead(name) := b];
    assert NameRead(name) in read && (read == map[name := b] <==> NameRead(name) == name);
  }

  // ---------------------------------------------------------------- no stray tokens in what is printed

  /** Text without '#' in front cannot start a token. */
  lemma NoTokenAfterPlain(plain: string, s: string)
    requires '#' !in plain && !Contains(s, TOKEN)
    ensures !Contains(plain + s, TOKEN)
  {
    if Contains(plain + s, TOKEN) {
      var i :| 0 <= i <= |plain + s| && At(plain + s, i, TOKEN);
      TokenHasOneHash(plain + s, i);
      assert i >= |plain|;
      AtShift(plain, s, i - |plain|, TOKEN);
      assert false;
    }
  }

  /** A token holds two spaces; a word between two spaces cannot reach it. */
  lemma NoTokenInWord(x: string)
    requires Over(x, IsUriChar)
    ensures !Contains(x + " ", TOKEN)
  {
    if Contains(x + " ", TOKEN) {
      var i :| 0 <= i <= |x + " "| && At(x + " ", i, TOKEN);
      AtChar(x + " ", i, TOKEN, 1);
      assert false;
    }
  }

  lemma NoTokenWithoutHash(s: string)
    requires '#' !in s
    ensures !Contains(s, TOKEN)
  {
    NoCharNoMatch(s, TOKEN, 0);
  }

  lemma FilledShape(c: Config, i: Item)
    requires WellFormed(c) && Filled(c, i).Some?
    ensures var x := Filled(c, i).value;
      Trimmed(x) && x != "" && x[0] != '#' && '\n' !in x && !Contains(x + " ", TOKEN)
  {
    var x := Filled(c, i).value;
    if i.MonitorUri? {
      NoTokenInWord(c.monitorUri.value);
      NoTokenAfterPlain("monitor-uri ", c.monitorUri.value + " ");
      assert x + " " == "monitor-uri " + (c.monitorUri.value + " ");
      assert x[|x| - 1] == c.monitorUri.value[|c.monitorUri.value| - 1];
    } else {
      FilledEnd(c, i);
      FilledStart(c, i);
      assert '#' !in x + " ";
      NoTokenWithoutHash(x + " ");
    }
  }

  /** Texts without '#', newline, or space at their end. */
  ghost predicate Clean(s: string) { '#' !in s && '\n' !in s && s != "" && !IsSpace(s[|s| - 1]) }

  lemma CleanJoin(head: string, s: string)
    requires '#' !in head && '\n' !in head && Clean(s)
    ensures Clean(head + s)
  {
  }

  lemma LogClean(l: Log)
    requires GoodLog(l)
    ensures Clean("log" + (" " + (l.host + (":" + (l.port + (" " + (l.facility + (" " + l.level))))))))
  {
    CleanJoin(" ", l.level);
    CleanJoin(l.facility, " " + l.level);
    CleanJoin(" ", l.facility + (" " + l.level));
    CleanJoin(l.port, " " + (l.facility + (" " + l.level)));
    CleanJoin(":", l.port + (" " + (l.facility + (" " + l.level))));
    CleanJoin(l.host, ":" + (l.port + (" " + (l.facility + (" " + l.level)))));
    CleanJoin(" ", l.host + (":" + (l.port + (" " + (l.facility + (" " + l.level))))));
    CleanJoin("log", " " + (l.host + (":" + (l.port + (" " + (l.facility + (" " + l.level)))))));
  }

  lemma WordsClean(first: string, second: string, last: string)
    requires '#' !in first && '\n' !in first && '#' !in second && '\n' !in second && Clean(last)
    ensures Clean(first + (" " + last)) && Clean(first + (" " + (second + (" " + last))))
  {
    CleanJoin(" ", last);
    CleanJoin(first, " " + last);
    CleanJoin(second, " " + last);
    CleanJoin(" ", second + (" " + last));
    CleanJoin(first, " " + (second + (" " + last)));
  }

  lemma BindClean(b: Bind)
    requires GoodBind(b)
    ensures Clean("bind" + (" " + (b.address + (":" + b.port))))
  {
    CleanJoin(":", b.port);
    CleanJoin(b.address, ":" + b.port);
    WordsClean("bind", "", b.address + (":" + b.port));
  }

  lemma FilledStart(c: Config, i: Item)
    requires Filled(c, i).Some?
    ensures var x := Filled(c, i).value; x != "" && !IsSpace(x[0]) && x[0] != '#'
  {
  }

  lemma FilledEnd(c: Config, i: Item)
    requires WellFormed(c) && Filled(c, i).Some? && !i.MonitorUri?
    ensures Clean(Filled(c, i).value)
  {
    match i {
      case GlobalLog => LogClean(c.log.value);
      case TimeoutConnect => WordsClean("timeout", "connect", c.timeoutConnect.value);
      case TimeoutClient => WordsClean("timeout", "client", c.timeoutClient.value);
      case TimeoutServer => WordsClean("timeout", "server", c.timeoutServer.value);
      case LogRequests => WordsClean("option", "", HttpLog(c.logRequests.value).value);
      case FrontendBind => BindClean(c.bind.value);
      case Maxconn => WordsClean("maxconn", "", c.maxconn.value);
    }
  }

  lemma LastIs(x: string, tail: string)
    requires tail != "" && |tail| <= |x| && x[|x| - |tail|..] == tail
    ensures x[|x| - 1] == tail[|tail| - 1]
  {
  }

  /** A server's line up to the port. */
  function ServerHead(name: string, b: Backend): string
    requires b.Server?
  {
    "server" + (" " + ((SERVER_PREFIX + name) + (" " + (b.address + (":" + b.port)))))
  }

  lemma ServerHeadPlain(name: string, b: Backend)
    requires Over(name, IsHostChar) && GoodServer(b)
    ensures var h := ServerHead(name, b);
      h != "" && h[0] == 's' && !IsSpace(h[|h| - 1]) && '#' !in h && '\n' !in h
  {
    LastIs(ServerHead(name, b), b.port);
    PrefixedName(name);
    var full := SERVER_PREFIX + name;
    assert '#' !in full && '\n' !in full;
  }

  lemma ServerParts(name: string, b: Backend)
    requires b.Server?
    ensures ServerValue(name, b) == ServerHead(name, b) + " " + b.extra
    ensures ServerBody(name, b) == ServerHead(name, b) + ExtraOnLine(b.extra)
  {
  }

  lemma ServerShape(name: string, b: Backend)
    requires Over(name, IsHostChar) && GoodServer(b)
    ensures var x := ServerBody(name, b);
      && Trimmed(x) && x != "" && x[0] != '#' && '\n' !in x
      && ServerValue(name, b) + " " == x + (if b.extra == "" then "  " else " ")
    ensures !Contains(ServerValue(name, b) + " ", TOKEN)
  {
    var h := ServerHead(name, b);
    ServerHeadPlain(name, b);
    ServerParts(name, b);
    ServerEnd(h, b.extra);
    NoTokenAfterHead(h, b.extra);
  }

  lemma ServerEnd(h: string, extra: string)
    requires h != "" && h[0] == 's' && !IsSpace(h[|h| - 1]) && '\n' !in h && GoodExtra(extra)
    ensures var x := h + ExtraOnLine(extra);
      && Trimmed(x) && x != "" && x[0] != '#' && '\n' !in x
      && h + " " + extra + " " == x + (if extra == "" then "  " else " ")
  {
    if extra != "" { LastIs(h + ExtraOnLine(extra), extra); }
  }

  lemma NoTokenAfterHead(h: string, extra: string)
    requires '#' !in h && GoodExtra(extra)
    ensures !Contains(h + " " + extra + " ", TOKEN)
  {
    assert '#' !in h + " ";
    NoTokenAfterPlain(h + " ", extra + " ");
    assert h + " " + extra + " " == (h + " ") + (extra + " ");
  }
}
