/** The tagged lines of the load balancer's file one by one, spelled out: what the parser makes of each, and what the
    printer writes for it. */
module HaproxyLines {
  import opened Commons
  import opened Text
  import opened HaproxyConfig
  import opened HaproxyRoundTrip

  // ---------------------------------------------------------------- alphabets

  const LOWER := "abcdefghijklmnopqrstuvwxyz"
  const UPPER := "ABCDEFGHIJKLMNOPQRSTUVWXYZ"
  const DIGITS := "0123456789"

  /** Python's punctuation, in the four runs in which it stands among the other characters. */
  const BEFORE_DIGITS := "!\"#$%&'()*+,-./"
  const AFTER_DIGITS := ":;<=>?@"
  const BETWEEN_LETTERS := "[\\]^_`"
  const AFTER_LETTERS := "{|}~"

  lemma LowerLetters(c: char)
    ensures c in LOWER <==> 'a' <= c <= 'z'
  {
    if 'a' <= c <= 'z' { assert LOWER[c as int - 'a' as int] == c; }
  }

  lemma UpperLetters(c: char)
    ensures c in UPPER <==> 'A' <= c <= 'Z'
  {
    if 'A' <= c <= 'Z' { assert UPPER[c as int - 'A' as int] == c; }
  }

  lemma Digits(c: char)
    ensures c in DIGITS <==> IsDigit(c)
  {
    if '0' <= c <= '9' { assert DIGITS[c as int - '0' as int] == c; }
  }

  lemma Punctuation(c: char)
    ensures c in BEFORE_DIGITS <==> '!' <= c <= '/'
    ensures c in AFTER_DIGITS <==> ':' <= c <= '@'
    ensures c in BETWEEN_LETTERS <==> '[' <= c <= '`'
    ensures c in AFTER_LETTERS <==> '{' <= c <= '~'
  {
    if '!' <= c <= '/' { assert BEFORE_DIGITS[c as int - '!' as int] == c; }
    if ':' <= c <= '@' { assert AFTER_DIGITS[c as int - ':' as int] == c; }
    if '[' <= c <= '`' { assert BETWEEN_LETTERS[c as int - '[' as int] == c; }
    if '{' <= c <= '~' { assert AFTER_LETTERS[c as int - '{' as int] == c; }
  }

  predicate Alphanumeric(c: char) { c in LOWER || c in UPPER || c in DIGITS }

  /** The alphabets of the grammar: alphanumeric characters with three signs, and with all punctuation. */
  lemma Alphabets(c: char)
    ensures IsAlnum(c) <==> Alphanumeric(c)
    ensures IsHostChar(c) <==> Alphanumeric(c) || c in ".-_"
    ensures IsUriChar(c) <==> Alphanumeric(c) || c in BEFORE_DIGITS || c in AFTER_DIGITS || c in BETWEEN_LETTERS
                              || c in AFTER_LETTERS
  {
    LowerLetters(c);
    UpperLetters(c);
    Digits(c);
    Punctuation(c);
  }

  // ---------------------------------------------------------------- the tags, written out

  lemma ShortTags()
    ensures TOKEN + TokenName(GlobalLog) == "# ZATO global:log"
    ensures TOKEN + TokenName(StatsSocket) == "# ZATO global:stats_socket"
    ensures TOKEN + TokenName(StatsUri) == "# ZATO defaults:stats uri"
  {
  }

  lemma ConnectTag()
    ensures TOKEN + TokenName(TimeoutConnect) == "# ZATO defaults:timeout connect"
  {
  }

  lemma ClientTag()
    ensures TOKEN + TokenName(TimeoutClient) == "# ZATO defaults:timeout client"
  {
  }

  lemma TimeoutServerTag()
    ensures TOKEN + TokenName(TimeoutServer) == "# ZATO defaults:timeout server"
  {
  }

  lemma CheckTag()
    ensures TOKEN + TokenName(HttpChk) == "# ZATO backend bck_http_plain:option httpchk"
  {
  }

  lemma FrontendTags()
    ensures TOKEN + TokenName(MonitorUri) == "# ZATO frontend front_http_plain:monitor-uri"
    ensures TOKEN + TokenName(FrontendBind) == "# ZATO frontend front_http_plain:bind"
    ensures TOKEN + TokenName(Maxconn) == "# ZATO frontend front_http_plain:maxconn"
  {
    assert TOKEN + FRONT == "# ZATO frontend front_http_plain:";
  }

  lemma LogOptionTag()
    ensures TOKEN + TokenName(LogRequests) == "# ZATO frontend front_http_plain:option log-http-requests"
  {
    var front, option := "# ZATO frontend front_http_plain:", "option log-http-requests";
    assert TOKEN + FRONT == front && TOKEN + TokenName(LogRequests) == TOKEN + FRONT + option;
    assert front + option == "# ZATO frontend front_http_plain:option log-http-requests";
  }

  lemma StatsTagsPlain()
    ensures '#' !in TokenName(StatsSocket) && '#' !in TokenName(StatsUri) && '#' !in TokenName(HttpChk)
  {
  }

  // ---------------------------------------------------------------- reading

  lemma TaggedValueReads(c: Config, i: Item, value: string)
    requires Trimmed(value) && value != "" && value[0] != '#' && !Contains(value + " ", TOKEN) && '#' !in TokenName(i)
    ensures ParseLine(c, value + (" " + (TOKEN + TokenName(i)))) == ParseAs(c, i, value)
  {
    Regroup("", value, " ", TOKEN, TokenName(i));
    assert "" + (value + (" " + (TOKEN + TokenName(i)))) == value + (" " + (TOKEN + TokenName(i)));
    assert "" + value + " " == value + " ";
    ParseTagged(c, "", value, " ", TokenName(i));
    MatchingOne(c, i, TokenName(i), value);
  }

  lemma WordValue(head: string, x: string)
    requires head != "" && '#' !in head && !IsSpace(head[0]) && Filling(x, IsUriChar)
    ensures var value := head + (" " + x);
      Trimmed(value) && value != "" && value[0] != '#' && !Contains(value + " ", TOKEN)
  {
    NoTokenInWord(x);
    NoTokenAfterPlain(head + " ", x + " ");
    assert head + (" " + x) + " " == (head + " ") + (x + " ");
    assert (head + (" " + x))[|head| + |x|] == x[|x| - 1];
  }

  /** The socket of the statistics goes to its own place, which the printer does not know. */
  lemma StatsSocketReads(c: Config, x: string)
    requires Filling(x, IsUriChar)
    ensures ParseLine(c, "stats socket" + (" " + x) + (" " + "# ZATO global:stats_socket"))
      == Ok(c.(statsSocket := Some(x)))
  {
    WordValue("stats socket", x);
    StatsTagsPlain();
    TaggedValueReads(c, StatsSocket, "stats socket" + (" " + x));
    ParseOneMatches("stats socket", x, IsUriChar);
    ShortTags();
  }

  /** So does their address. */
  lemma StatsUriReads(c: Config, x: string)
    requires Filling(x, IsUriChar)
    ensures ParseLine(c, "stats uri" + (" " + x) + (" " + "# ZATO defaults:stats uri")) == Ok(c.(statsUri := Some(x)))
  {
    WordValue("stats uri", x);
    StatsTagsPlain();
    TaggedValueReads(c, StatsUri, "stats uri" + (" " + x));
    ParseOneMatches("stats uri", x, IsUriChar);
    ShortTags();
  }

  lemma CheckMatches(verb: string, path: string)
    requires Filling(verb, IsAlpha) && Filling(path, IsUriChar)
    ensures ParseCheck("option httpchk" + (" " + (verb + (" " + path)))) == Some(CheckData(verb, path))
  {
    var rest := " " + (verb + (" " + path));
    LiteralMatches("", "option httpchk", rest);
    assert "" + ("option httpchk" + rest) == "option httpchk" + rest;
    WordMatches(" ", verb, " " + path, IsAlpha);
    WordMatches(" ", path, "", IsUriChar);
    assert path + "" == path;
  }

  lemma CheckShape(keyword: string, verb: string, path: string)
    requires keyword != "" && '#' !in keyword && !IsSpace(keyword[0])
    requires Filling(verb, IsAlpha) && Filling(path, IsUriChar)
    ensures var value := keyword + (" " + (verb + (" " + path)));
      Trimmed(value) && value != "" && value[0] != '#' && !Contains(value + " ", TOKEN)
  {
    var head := keyword + (" " + verb);
    assert '#' !in verb && '#' !in " " + verb;
    WordValue(head, path);
    assert keyword + (" " + (verb + (" " + path))) == head + (" " + path);
  }

  lemma CheckParses(c: Config, verb: string, path: string)
    requires Filling(verb, IsAlpha) && Filling(path, IsUriChar)
    ensures ParseAs(c, HttpChk, "option httpchk" + (" " + (verb + (" " + path))))
      == Ok(c.(backend := c.backend["option_httpchk" := HttpCheck(verb, path)]))
  {
    CheckMatches(verb, path);
  }

  lemma TaggedCheckReads(c: Config, verb: string, path: string)
    requires Filling(verb, IsAlpha) && Filling(path, IsUriChar)
    ensures ParseLine(c, "option httpchk" + (" " + (verb + (" " + path))) + (" " + (TOKEN + TokenName(HttpChk))))
      == Ok(c.(backend := c.backend["option_httpchk" := HttpCheck(verb, path)]))
  {
    CheckShape("option httpchk", verb, path);
    StatsTagsPlain();
    TaggedValueReads(c, HttpChk, "option httpchk" + (" " + (verb + (" " + path))));
    CheckParses(c, verb, path);
  }

  /** The health check is kept among the servers under a name of its own. */
  lemma CheckReads(c: Config, verb: string, path: string)
    requires Filling(verb, IsAlpha) && Filling(path, IsUriChar)
    ensures ParseLine(c, "option httpchk" + (" " + (verb + (" " + path)))
                         + (" " + "# ZATO backend bck_http_plain:option httpchk"))
      == Ok(c.(backend := c.backend["option_httpchk" := HttpCheck(verb, path)]))
  {
    TaggedCheckReads(c, verb, path);
    CheckTag();
  }

  // ---------------------------------------------------------------- what is not read

  /** A line that is commented out as a whole is passed over, whatever its tag. */
  lemma CommentIsSkipped(c: Config, x: string, tag: string)
    requires !Contains("#" + x + " ", TOKEN) && '#' !in tag
    ensures ParseLine(c, "#" + x + " " + TOKEN + tag) == Ok(c)
  {
    var before := "#" + x + " ";
    TokenOnce(before, tag);
    HashStaysFirst(before);
  }

  lemma {:induction false} HashStaysFirst(s: string)
    requires s != "" && s[0] == '#'
    ensures "#" <= RStrip(s) && "#" <= Strip(s)
    decreases |s|
  {
    if IsSpace(s[|s| - 1]) { HashStaysFirst(s[..|s| - 1]); }
  }

  function Keyword(i: Item): string {
    match i
    case GlobalLog => "log"
    case StatsSocket => "stats socket"
    case TimeoutConnect => "timeout"
    case TimeoutClient => "timeout"
    case TimeoutServer => "timeout"
    case StatsUri => "stats uri"
    case BackendServer => "server"
    case HttpChk => "option httpchk"
    case MonitorUri => "monitor-uri"
    case LogRequests => "option"
    case FrontendBind => "bind"
    case Maxconn => "maxconn"
  }

  /** A tagged line that holds something else than the tag says is an error. */
  lemma WrongKeywordRaises(c: Config, i: Item, value: string)
    requires value != "" && !IsSpace(value[0]) && !(Keyword(i) <= value)
    ensures ParseAs(c, i, value) == Raised("ParseException")
  {
    assert SkipSpace(value) == value;
  }

  /** So is a server whose name lacks the prefix, though not the name's alphabet. */
  lemma ServerWithoutPrefixRaises(c: Config, name: string, b: Backend)
    requires Filling(name, IsHostChar) && !Contains(name, SERVER_PREFIX) && GoodServer(b)
    ensures ParseAs(c, BackendServer, "server" + (" " + (name + (" " + (b.address + (":" + b.port))))))
      == Raised("IndexError")
  {
    ParseServerMatches(name, b.address, b.port, "");
    assert b.port + "" == b.port;
    SplitNone(name, SERVER_PREFIX);
  }

  /** And a request log of an unknown kind. */
  lemma UnknownLogOptionRaises(c: Config, x: string)
    requires Filling(x, IsAlpha) && x != "nolog" && x != "httplog"
    ensures ParseAs(c, LogRequests, "option" + (" " + x)) == Raised("KeyError")
  {
    ParseOneMatches("option", x, IsAlpha);
  }

  // ---------------------------------------------------------------- reading what is printed

  /** What the printer writes for an option is read as the option. */
  lemma FilledTextReads(c: Config, from: Config, i: Item)
    requires WellFormed(from) && Filled(from, i).Some?
    ensures ParseLine(c, FilledText(from, i)) == Ok(Taken(c, i, from))
  {
    FilledShape(from, i);
    ShownIsEditable(from, i);
    TokenNamesPlain(i);
    TaggedValueReads(c, i, Filled(from, i).value);
    FilledReadsBack(c, i, from);
  }

  lemma LogReads(c: Config, l: Log)
    requires GoodLog(l)
    ensures var text := "log" + (" " + (l.host + (":" + (l.port + (" " + (l.facility + (" " + l.level)))))))
                        + (" " + "# ZATO global:log");
      FilledText(EMPTY.(log := Some(l)), GlobalLog) == text && ParseLine(c, text) == Ok(c.(log := Some(l)))
  {
    FilledTextReads(c, EMPTY.(log := Some(l)), GlobalLog);
    ShortTags();
  }

  lemma TimeoutConnectReads(c: Config, x: string)
    requires Filling(x, IsDigit)
    ensures var text := "timeout" + (" " + ("connect" + (" " + x))) + (" " + "# ZATO defaults:timeout connect");
      FilledText(EMPTY.(timeoutConnect := Some(x)), TimeoutConnect) == text
      && ParseLine(c, text) == Ok(c.(timeoutConnect := Some(x)))
  {
    FilledTextReads(c, EMPTY.(timeoutConnect := Some(x)), TimeoutConnect);
    ConnectTag();
  }

  lemma TimeoutClientReads(c: Config, x: string)
    requires Filling(x, IsDigit)
    ensures var text := "timeout" + (" " + ("client" + (" " + x))) + (" " + "# ZATO defaults:timeout client");
      FilledText(EMPTY.(timeoutClient := Some(x)), TimeoutClient) == text
      && ParseLine(c, text) == Ok(c.(timeoutClient := Some(x)))
  {
    FilledTextReads(c, EMPTY.(timeoutClient := Some(x)), TimeoutClient);
    ClientTag();
  }

  lemma TimeoutServerReads(c: Config, x: string)
    requires Filling(x, IsDigit)
    ensures var text := "timeout" + (" " + ("server" + (" " + x))) + (" " + "# ZATO defaults:timeout server");
      FilledText(EMPTY.(timeoutServer := Some(x)), TimeoutServer) == text
      && ParseLine(c, text) == Ok(c.(timeoutServer := Some(x)))
  {
    FilledTextReads(c, EMPTY.(timeoutServer := Some(x)), TimeoutServer);
    TimeoutServerTag();
  }

  lemma MonitorUriReads(c: Config, x: string)
    requires Filling(x, IsUriChar)
    ensures var text := "monitor-uri" + (" " + x) + (" " + "# ZATO frontend front_http_plain:monitor-uri");
      FilledText(EMPTY.(monitorUri := Some(x)), MonitorUri) == text
      && ParseLine(c, text) == Ok(c.(monitorUri := Some(x)))
  {
    FilledTextReads(c, EMPTY.(monitorUri := Some(x)), MonitorUri);
    FrontendTags();
  }

  lemma BindReads(c: Config, b: Bind)
    requires GoodBind(b)
    ensures var text := "bind" + (" " + (b.address + (":" + b.port))) + (" " + "# ZATO frontend front_http_plain:bind");
      FilledText(EMPTY.(bind := Some(b)), FrontendBind) == text && ParseLine(c, text) == Ok(c.(bind := Some(b)))
  {
    FilledTextReads(c, EMPTY.(bind := Some(b)), FrontendBind);
    FrontendTags();
  }

  lemma MaxconnReads(c: Config, x: string)
    requires Filling(x, IsDigit)
    ensures var text := "maxconn" + (" " + x) + (" " + "# ZATO frontend front_http_plain:maxconn");
      FilledText(EMPTY.(maxconn := Some(x)), Maxconn) == text && ParseLine(c, text) == Ok(c.(maxconn := Some(x)))
  {
    FilledTextReads(c, EMPTY.(maxconn := Some(x)), Maxconn);
    FrontendTags();
  }

  /** Requests are logged by number in the configuration and by word in the file. */
  lemma LogRequestsReads(c: Config, n: int)
    requires n == 1 || n == 2
    ensures var text := "option" + (" " + if n == 1 then "nolog" else "httplog")
                        + (" " + "# ZATO frontend front_http_plain:option log-http-requests");
      Filled(EMPTY.(logRequests := Some(n)), LogRequests).Some?
      && FilledText(EMPTY.(logRequests := Some(n)), LogRequests) == text
      && ParseLine(c, text) == Ok(c.(logRequests := Some(n)))
  {
    FilledTextReads(c, EMPTY.(logRequests := Some(n)), LogRequests);
    LogOptionTag();
  }

  lemma ServerTagText(name: string)
    ensures TOKEN + (SERVER_TAG + name) == "# ZATO backend bck_http_plain:server--" + name
  {
    assert TOKEN + SERVER_TAG == "# ZATO backend bck_http_plain:server--";
    assert TOKEN + (SERVER_TAG + name) == TOKEN + SERVER_TAG + name;
  }

  /** A server's name stands twice on its line, once behind the type and once in the tag. */
  lemma ServerReads(c: Config, name: string, b: Backend)
    requires GoodName(name) && GoodServer(b)
    ensures var text :=
        "server" + (" " + (("http_plain--" + name) + (" " + (b.address + (":" + (b.port + (" " + b.extra)))))))
        + (" " + ("# ZATO backend bck_http_plain:server--" + name));
      ServerText(name, b) == text && ParseLine(c, text) == Ok(c.(backend := c.backend[name := b]))
  {
    ServerTextReads(c, "", name, b);
    assert "" + ServerText(name, b) == ServerText(name, b);
    ServerTagText(name);
  }

  // ---------------------------------------------------------------- where it is printed

  lemma IndentOf(pad: string, body: string)
    requires Blank(pad) && Trimmed(body) && body != ""
    ensures Indent(pad + body + "\n") == Spaces(|pad|)
  {
    StripPadded(pad, body, "\n");
  }

  lemma Ended(indent: string, text: string)
    ensures indent + text + "" + "\n" == indent + text + "\n"
  {
    assert indent + text + "" == indent + text;
  }

  /** Wherever an option's tag stands, the option is shown there. */
  lemma OptionIsShown(line: string, i: Item)
    requires Contains(line, TOKEN) && IsEditable(i) && TokenName(i) <= TagOf(line)
    ensures Rewritten(line) && EffectOf(line) == Shows(i)
  {
    var tag := TagOf(line);
    TagParts(line);
    assert tag == TokenName(i) + tag[|TokenName(i)|..];
    TagSeen(line[..Find(line, TOKEN)], tag, "", TokenName(i));
    assert line[..Find(line, TOKEN)] + TOKEN + tag + "" == line;
    NamedEditable(line, i);
    DecodeFinds(i, tag);
  }

  lemma ShownIsPrinted(from: Config, line: string, pad: string, body: string)
    requires Blank(pad) && Trimmed(body) && body != "" && line == pad + body + "\n"
    requires GoodLine(from, line) && EffectOf(line).Shows?
    ensures PrintLine(from, line) == Ok(Spaces(|pad|) + FilledText(from, EffectOf(line).item) + "\n")
  {
    IndentOf(pad, body);
    ShownPrints(from, line);
    Ended(Spaces(|pad|), FilledText(from, EffectOf(line).item));
  }

  /** There the printer writes the option as it is in the configuration, as far to the right as the line stood in the
      template. */
  lemma OptionIsPrinted(from: Config, line: string, i: Item, pad: string, body: string)
    requires Blank(pad) && Trimmed(body) && body != "" && line == pad + body + "\n"
    requires TemplateLine(line) && Contains(line, TOKEN) && IsEditable(i) && TokenName(i) <= TagOf(line)
    requires Filled(from, i).Some?
    ensures PrintLine(from, line) == Ok(Spaces(|pad|) + FilledText(from, i) + "\n")
  {
    OptionIsShown(line, i);
    ShownIsPrinted(from, line, pad, body);
  }
}
