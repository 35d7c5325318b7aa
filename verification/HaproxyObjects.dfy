/** The load balancer's objects, updated in place: the configuration filled in by the parser, the printer's loops,
    and the agent that owns the file. */
module HaproxyObjects {
  import opened Commons
  import opened Text
  import opened HaproxyConfig
  import opened HaproxyAgent

  // ---------------------------------------------------------------- the configuration object

  class ConfigObject {
    var log: Option<Log>
    var statsSocket: Option<string>
    var timeoutConnect: Option<string>
    var timeoutClient: Option<string>
    var timeoutServer: Option<string>
    var statsUri: Option<string>
    var backend: map<string, Backend>
    var monitorUri: Option<string>
    var logRequests: Option<int>
    var bind: Option<Bind>
    var maxconn: Option<string>

    ghost function View(): Config
      reads this
    {
      Config(log, statsSocket, timeoutConnect, timeoutClient, timeoutServer, statsUri, backend, monitorUri,
        logRequests, bind, maxconn)
    }

    constructor ()
      ensures View() == EMPTY
    {
      log, statsSocket, timeoutConnect, timeoutClient, timeoutServer, statsUri := None, None, None, None, None, None;
      backend, monitorUri, logRequests, bind, maxconn := map[], None, None, None, None;
    }

    /** set_value */
    method SetValue(i: Item, d: Data) returns (error: Option<string>)
      modifies this
      ensures match HaproxyConfig.SetValue(old(View()), i, d)
        case Ok(c) => error == None && View() == c
        case Raised(e) => error == Some(e) && View() == old(View())
    {
      error := None;
      match (i, d) {
        case (GlobalLog, LogData(l)) => log := Some(l);
        case (StatsSocket, One(x)) => statsSocket := Some(x);
        case (TimeoutConnect, One(x)) => timeoutConnect := Some(x);
        case (TimeoutClient, One(x)) => timeoutClient := Some(x);
        case (TimeoutServer, One(x)) => timeoutServer := Some(x);
        case (StatsUri, One(x)) => statsUri := Some(x);
        case (BackendServer, ServerData(name, address, port, extra)) =>
          var parts := Split(name, SERVER_PREFIX);
          if |parts| < 2 { return Some("IndexError"); }
          backend := backend[parts[1] := Server(address, port, Strip(extra))];
        case (HttpChk, CheckData(verb, path)) => backend := backend["option_httpchk" := HttpCheck(verb, path)];
        case (MonitorUri, One(x)) => monitorUri := Some(x);
        case (LogRequests, One(x)) =>
          var number := ReversedHttpLog(x);
          if number.None? { return Some("KeyError"); }
          logRequests := number;
        case (FrontendBind, BindData(address, port)) => bind := Some(Bind(address, port));
        case (Maxconn, One(x)) => maxconn := Some(x);
        case _ => return Some("Exception");
      }
    }
  }

  // ---------------------------------------------------------------- config_from_string

  /** The tokens one after another, each that the tag begins with setting its value. */
  method ReadTagged(config: ConfigObject, tag: string, value: string) returns (error: Option<string>)
    modifies config
    ensures match ParseMatching(old(config.View()), ITEMS, tag, value)
      case Ok(c) => error == None && config.View() == c
      case Raised(e) => error == Some(e)
  {
    ghost var all := ParseMatching(config.View(), ITEMS, tag, value);
    var k := 0;
    while k < |ITEMS|
      invariant 0 <= k <= |ITEMS|
      invariant all == ParseMatching(config.View(), ITEMS[k..], tag, value)
    {
      var i := ITEMS[k];
      assert ITEMS[k..][0] == i && ITEMS[k..][1..] == ITEMS[k + 1..];
      if TokenName(i) <= tag {
        var data := ParseItem(i, value);
        if data.None? { return Some("ParseException"); }
        error := config.SetValue(i, data.value);
        if error.Some? { return; }
      }
      k := k + 1;
    }
    error := None;
  }

  method ReadLine(config: ConfigObject, line: string) returns (error: Option<string>)
    modifies config
    ensures match ParseLine(old(config.View()), line)
      case Ok(c) => error == None && config.View() == c
      case Raised(e) => error == Some(e)
  {
    if !Contains(line, TOKEN) { return None; }
    var pieces := Split(line, TOKEN);
    if |pieces| != 2 { return Some("ValueError"); }
    var value := Strip(pieces[0]);
    if "#" <= value { return None; }
    error := ReadTagged(config, pieces[1], value);
  }

  method ConfigFromText(data: string) returns (config: ConfigObject, error: Option<string>)
    ensures fresh(config)
    ensures match ConfigFromString(data)
      case Ok(c) => error == None && config.View() == c
      case Raised(e) => error == Some(e)
  {
    config := new ConfigObject();
    error := None;
    var lines := Lines(data);
    var n := 0;
    while n < |lines|
      invariant 0 <= n <= |lines| && fresh(config) && error == None
      invariant ConfigFromString(data) == ParseLines(config.View(), lines[n..])
    {
      assert lines[n..][0] == lines[n] && lines[n..][1..] == lines[n + 1..];
      error := ReadLine(config, lines[n]);
      if error.Some? { return; }
      n := n + 1;
    }
  }

  // ---------------------------------------------------------------- string_from_config

  ghost predicate Goes(all: Result<string>, done: string, rest: Result<string>) {
    match rest
    case Ok(more) => all == Ok(done + more)
    case Raised(e) => all == Raised(e)
  }

  lemma GoesOn(r: Result<string>)
    ensures Goes(r, "", r)
  {
    if r.Ok? { assert "" + r.value == r.value; }
  }

  lemma {:induction false} FailuresAreKeyErrors(c: Config, items: seq<Item>, line: string)
    ensures FilledItems(c, items, line).Raised? ==> FilledItems(c, items, line) == Raised("KeyError")
    decreases |items|
  {
    if items != [] { FailuresAreKeyErrors(c, items[1..], line); }
  }

  lemma FillStep(all: Result<string>, filled: string, c: Config, items: seq<Item>, line: string)
    requires items != [] && Goes(all, filled, FilledItems(c, items, line))
    ensures if !HasItem(line, items[0]) then Goes(all, filled, FilledItems(c, items[1..], line))
            else if Filled(c, items[0]).None? then all == Raised("KeyError")
            else Goes(all, filled + FilledText(c, items[0]), FilledItems(c, items[1..], line))
  {
    var more := FilledItems(c, items[1..], line);
    FailuresAreKeyErrors(c, items[1..], line);
    if HasItem(line, items[0]) && Filled(c, items[0]).Some? && more.Ok? {
      assert filled + FilledText(c, items[0]) + more.value == filled + (FilledText(c, items[0]) + more.value);
    }
  }

  lemma FillStepAt(all: Result<string>, filled: string, c: Config, items: seq<Item>, k: nat, line: string)
    requires k < |items| && Goes(all, filled, FilledItems(c, items[k..], line))
    ensures if !HasItem(line, items[k]) then Goes(all, filled, FilledItems(c, items[k + 1..], line))
            else if Filled(c, items[k]).None? then all == Raised("KeyError")
            else Goes(all, filled + FilledText(c, items[k]), FilledItems(c, items[k + 1..], line))
  {
    assert items[k..][0] == items[k] && items[k..][1..] == items[k + 1..];
    FillStep(all, filled, c, items[k..], line);
  }

  /** The simple options first, in the order of the dispatch dictionary. */
  method FillIn(c: Config, items: seq<Item>, line: string) returns (text: string, error: Option<string>)
    ensures match FilledItems(c, items, line)
      case Ok(s) => error == None && text == s
      case Raised(e) => error == Some(e)
  {
    text, error := "", None;
    ghost var all := FilledItems(c, items, line);
    var k := 0;
    assert items[k..] == items;
    GoesOn(all);
    while k < |items|
      invariant 0 <= k <= |items| && error == None
      invariant Goes(all, text, FilledItems(c, items[k..], line))
    {
      FillStepAt(all, text, c, items, k, line);
      if HasItem(line, items[k]) {
        if Filled(c, items[k]).None? { return text, Some("KeyError"); }
        text := text + FilledText(c, items[k]);
      }
      k := k + 1;
    }
    assert text + "" == text;
  }

  method LineFromConfig(c: Config, line: string) returns (newLine: string, error: Option<string>)
    ensures match PrintLine(c, line)
      case Ok(text) => error == None && newLine == text
      case Raised(e) => error == Some(e)
  {
    if !Contains(line, TOKEN) || (!Contains(line, "bck_http") && !NamesEditable(line)) { return line, None; }
    newLine := Spaces(|line| - |Strip(line)| - 1);
    var simple;
    simple, error := FillIn(c, EDITABLE, line);
    if error.Some? { return; }
    newLine := newLine + simple;
    if Contains(line, TOKEN + "backend") && Contains(line, "--") {
      var server := TaggedServer(c, line);
      if server.Raised? { return newLine, Some(server.error); }
      newLine := newLine + server.value;
    } else {
      newLine := newLine + Marker(line);
    }
    newLine := newLine + "\n";
  }

  method TextFromConfig(c: Config, template: seq<string>) returns (text: string, error: Option<string>)
    ensures match StringFromConfig(c, template)
      case Ok(s) => error == None && text == s
      case Raised(e) => error == Some(e)
  {
    text, error := "", None;
    if c.log.None? || c.bind.None? || c.logRequests.None? || HttpLog(c.logRequests.value).None? {
      return text, Some("KeyError");
    }
    var n := 0;
    assert template[n..] == template;
    GoesOn(PrintLines(c, template));
    while n < |template|
      invariant 0 <= n <= |template| && error == None
      invariant Goes(PrintLines(c, template), text, PrintLines(c, template[n..]))
    {
      assert template[n..][0] == template[n] && template[n..][1..] == template[n + 1..];
      var newLine;
      newLine, error := LineFromConfig(c, template[n]);
      if error.Some? { return; }
      ghost var more := PrintLines(c, template[n + 1..]);
      if more.Ok? { assert text + newLine + more.value == text + (newLine + more.value); }
      text := text + newLine;
      n := n + 1;
    }
  }

  // ---------------------------------------------------------------- the agent

  predicate AllServers(m: map<string, Backend>, order: seq<string>) {
    forall k :: 0 <= k < |order| ==> order[k] in m && m[order[k]].Server?
  }

  /** What is saved. A health check among the servers has no address to print. */
  function NewFile(data: string, m: map<string, Backend>, order: seq<string>): Result<string> {
    if !HasMarker(SplitLines(data)) then Ok(Join("\n", NewElements(SplitLines(data), [])))
    else if !AllServers(m, order) then Raised("KeyError")
    else Ok(NewText(data, m, order))
  }

  lemma {:induction false} NoMarkerNoTexts(lines: seq<string>, texts: seq<string>)
    requires !HasMarker(lines)
    ensures NewElements(lines, texts) == NewElements(lines, [])
    decreases |lines|
  {
    if lines != [] {
      MarkerCons(lines);
      NoMarkerNoTexts(lines[1..], texts);
    }
  }

  lemma NewFileIsNewText(data: string, m: map<string, Backend>, order: seq<string>)
    requires AllServers(m, order)
    ensures NewFile(data, m, order) == Ok(NewText(data, m, order))
  {
    if !HasMarker(SplitLines(data)) { NoMarkerNoTexts(SplitLines(data), ServerTexts(m, order)); }
  }

  lemma {:induction false} ServerTextsSnoc(m: map<string, Backend>, order: seq<string>, name: string)
    requires AllServers(m, order) && name in m && m[name].Server?
    ensures AllServers(m, order + [name])
    ensures ServerTexts(m, order + [name]) == ServerTexts(m, order) + [ServerText(name, m[name])]
    decreases |order|
  {
    if order == [] {
      assert [name][1..] == [] && (order + [name]) == [name];
    } else {
      assert (order + [name])[0] == order[0] && (order + [name])[1..] == order[1..] + [name];
      ServerTextsSnoc(m, order[1..], name);
    }
  }

  lemma {:induction false} NewElementsSnoc(lines: seq<string>, line: string, texts: seq<string>)
    ensures NewElements(lines + [line], texts) ==
      NewElements(lines, texts) + if Contains(line, BACKEND_TAG) then [] else [NewElement(line, texts)]
    decreases |lines|
  {
    if lines == [] {
      NewElementsOne(line, texts);
      assert lines + [line] == [line];
    } else {
      assert (lines + [line])[0] == lines[0] && (lines + [line])[1..] == lines[1..] + [line];
      NewElementsSnoc(lines[1..], line, texts);
    }
  }

  lemma NewElementsOne(line: string, texts: seq<string>)
    ensures NewElements([line], texts) == if Contains(line, BACKEND_TAG) then [] else [NewElement(line, texts)]
  {
    assert [line][1..] == [];
  }

  datatype AgentState = AgentState(file: string, config: Config, error: Option<string>)

  /** One call. The configuration in memory changes before the new file is built and validated, and is not restored
      when that fails; it is read again from the file only after a save. */
  function AfterCall(file: string, c: Config, action: string, name: string, order: seq<string>,
                     valid: bool): AgentState {
    match Edited(c.backend, action, name)
    case Raised(e) => AgentState(file, c, Some(e))
    case Ok(m) =>
      var edited := c.(backend := m);
      match NewFile(file, m, order)
      case Raised(e) => AgentState(file, edited, Some(e))
      case Ok(text) =>
        if !valid then AgentState(file, edited, Some("Exception"))
        else
          match ConfigFromString(text)
          case Ok(reread) => AgentState(text, reread, None)
          case Raised(e) => AgentState(text, edited, Some(e))
  }

  /** An agent whose memory agrees with its file still agrees after a call that HAProxy accepts, and then has exactly
      the servers asked for if the file marks their place, or none are left; otherwise it has none. */
  lemma CallReadsBack(file: string, c: Config, action: string, name: string, order: seq<string>)
    requires ConfigFromString(file) == Ok(c) && AllGood(c.backend) && GoodName(name)
    requires Edited(c.backend, action, name).Ok? && Lists(Edited(c.backend, action, name).value, order)
    ensures var after := AfterCall(file, c, action, name, order, true);
      && after.error == None && ConfigFromString(after.file) == Ok(after.config)
      && after.config == c.(backend := after.config.backend)
      && (after.config.backend == Edited(c.backend, action, name).value <==>
          HasMarker(SplitLines(file)) || Edited(c.backend, action, name).value == map[])
  {
    var m := Edited(c.backend, action, name).value;
    EditedIsGood(c.backend, action, name, order);
    NewFileIsNewText(file, m, order);
    SavedReadsBack(file, c, m, order);
  }

  /** Every server, though not every backend, is one that the printer can write. */
  ghost predicate GoodServers(m: map<string, Backend>)
  {
    forall n :: n in m && m[n].Server? ==> GoodName(n) && GoodServer(m[n])
  }

  predicate HoldsCheck(m: map<string, Backend>) { exists n :: n in m && m[n].HttpCheck? }

  /** Exactly when a call goes through, whatever is in memory: the action and name are accepted, HAProxy accepts the
      file, and no health check is left among the backends where they are to be written. */
  lemma CallSucceedsExactlyWhen(file: string, c: Config, action: string, name: string, order: seq<string>, valid: bool)
    requires ConfigFromString(file).Ok? && GoodServers(c.backend) && GoodName(name)
    requires Edited(c.backend, action, name).Ok? ==> Lists(Edited(c.backend, action, name).value, order)
    ensures AfterCall(file, c, action, name, order, valid).error == None <==>
      Edited(c.backend, action, name).Ok? && valid
      && !(HasMarker(SplitLines(file)) && HoldsCheck(Edited(c.backend, action, name).value))
  {
    if Edited(c.backend, action, name).Ok? {
      var m := Edited(c.backend, action, name).value;
      DefaultIsGood();
      if !HasMarker(SplitLines(file)) {
        SavedReadsBack(file, ConfigFromString(file).value, map[], []);
      } else if HoldsCheck(m) {
        var n :| n in m && m[n].HttpCheck?;
        assert n in order;
      } else {
        forall k | 0 <= k < |order|
          ensures order[k] in m && m[order[k]].Server? && GoodName(order[k]) && GoodServer(m[order[k]])
        {
          assert order[k] in order;
        }
        SavedReadsBack(file, ConfigFromString(file).value, m, order);
      }
    }
  }

  // ---------------------------------------------------------------- any number of calls

  /** `order` is how the dictionary lists its keys after the edit, `valid` what HAProxy says of the new file. */
  datatype Call = Call(action: string, name: string, order: seq<string>, valid: bool)

  function AfterCalls(file: string, c: Config, calls: seq<Call>): AgentState
    decreases |calls|
  {
    if calls == [] then AgentState(file, c, None)
    else
      var k := calls[0];
      var after := AfterCall(file, c, k.action, k.name, k.order, k.valid);
      AfterCalls(after.file, after.config, calls[1..])
  }

  /** The servers that the file says and those in memory. */
  datatype Views = Views(saved: map<string, Backend>, memory: map<string, Backend>)

  /** A call that is not accepted leaves its edit in memory, for the next one that is; `marked` says whether the file
      has a place for servers. */
  function NextViews(v: Views, marked: bool, k: Call): Views {
    match Edited(v.memory, k.action, k.name)
    case Raised(_) => v
    case Ok(m) =>
      if !k.valid || (marked && HoldsCheck(m)) then Views(v.saved, m)
      else if marked then Views(m, m)
      else Views(map[], map[])
  }

  function AfterViews(v: Views, marked: bool, calls: seq<Call>): Views
    decreases |calls|
  {
    if calls == [] then v else AfterViews(NextViews(v, marked, calls[0]), marked, calls[1..])
  }

  ghost predicate PossibleCall(m: map<string, Backend>, k: Call) {
    && (k.action == "add" ==> GoodName(k.name))
    && (Edited(m, k.action, k.name).Ok? ==> Lists(Edited(m, k.action, k.name).value, k.order))
  }

  ghost predicate PossibleCalls(v: Views, marked: bool, calls: seq<Call>)
    decreases |calls|
  {
    calls == []
    || (PossibleCall(v.memory, calls[0]) && PossibleCalls(NextViews(v, marked, calls[0]), marked, calls[1..]))
  }

  /** The file says what it should, and so does memory. */
  ghost predicate Says(file: string, config: Config, c: Config, v: Views, marked: bool) {
    && config == c.(backend := v.memory) && ConfigFromString(file) == Ok(c.(backend := v.saved))
    && HasMarker(SplitLines(file)) == marked && GoodServers(v.memory)
  }

  lemma EditedServersGood(m: map<string, Backend>, k: Call)
    requires GoodServers(m) && PossibleCall(m, k) && Edited(m, k.action, k.name).Ok?
    ensures GoodServers(Edited(m, k.action, k.name).value)
  {
    DefaultIsGood();
  }

  lemma ServersCanBeListed(m: map<string, Backend>, order: seq<string>)
    requires GoodServers(m) && !HoldsCheck(m) && Lists(m, order)
    ensures GoodOrder(m, order) && AllServers(m, order)
  {
    forall k | 0 <= k < |order| ensures order[k] in m && m[order[k]].Server? { assert order[k] in order; }
  }

  lemma SaveSays(file: string, c: Config, v: Views, marked: bool, m: map<string, Backend>, order: seq<string>)
    requires Says(file, c.(backend := v.memory), c, v, marked)
    requires GoodServers(m) && GoodOrder(m, order) && Lists(m, order)
    requires !marked ==> m == map[] && order == []
    ensures Says(NewText(file, m, order), c.(backend := m), c, Views(m, m), marked)
    ensures OtherLines(Lines(NewText(file, m, order))) == OtherLines(Lines(file))
  {
    SavedReadsBack(file, c.(backend := v.saved), m, order);
    OtherTextKept(file, m, order);
    if marked {
      MarkerStays(file, m, order);
    } else {
      NoMarkerStays(file);
    }
  }

  lemma OneCallSays(file: string, c: Config, v: Views, marked: bool, k: Call)
    requires Says(file, c.(backend := v.memory), c, v, marked) && PossibleCall(v.memory, k)
    ensures var after := AfterCall(file, c.(backend := v.memory), k.action, k.name, k.order, k.valid);
      && Says(after.file, after.config, c, NextViews(v, marked, k), marked)
      && OtherLines(Lines(after.file)) == OtherLines(Lines(file))
  {
    if Edited(v.memory, k.action, k.name).Ok? {
      var m := Edited(v.memory, k.action, k.name).value;
      EditedServersGood(v.memory, k);
      if !marked {
        SaveSays(file, c, v, marked, map[], []);
      } else if !HoldsCheck(m) {
        ServersCanBeListed(m, k.order);
        NewFileIsNewText(file, m, k.order);
        SaveSays(file, c, v, marked, m, k.order);
      } else {
        var n :| n in m && m[n].HttpCheck?;
        assert n in k.order;
      }
    }
  }

  /** Main result, over any run of calls, refused ones and failing ones included: file and memory always say what the
      edits make of the servers, and agree on all else; the other lines of the file are those it began with. */
  lemma {:induction false} CallsReadBack(file: string, c: Config, v: Views, marked: bool, calls: seq<Call>)
    requires Says(file, c.(backend := v.memory), c, v, marked) && PossibleCalls(v, marked, calls)
    ensures var after := AfterCalls(file, c.(backend := v.memory), calls);
      && Says(after.file, after.config, c, AfterViews(v, marked, calls), marked)
      && OtherLines(Lines(after.file)) == OtherLines(Lines(file))
    decreases |calls|
  {
    if calls != [] {
      var k := calls[0];
      OneCallSays(file, c, v, marked, k);
      var after := AfterCall(file, c.(backend := v.memory), k.action, k.name, k.order, k.valid);
      CallsReadBack(after.file, c, NextViews(v, marked, k), marked, calls[1..]);
    }
  }

  /** The servers after all edits that do not fail by themselves, whatever HAProxy says. */
  function AllEdits(m: map<string, Backend>, calls: seq<Call>): map<string, Backend>
    decreases |calls|
  {
    if calls == [] then m
    else
      var r := Edited(m, calls[0].action, calls[0].name);
      AllEdits(if r.Ok? then r.value else m, calls[1..])
  }

  predicate Accepted(m: map<string, Backend>, k: Call) {
    var r := Edited(m, k.action, k.name);
    r.Ok? && k.valid && !HoldsCheck(r.value)
  }

  /** Where the file marks the place for servers, memory has every edit, refused or not; the file has those up to the
      last accepted call, the refused ones before it among them. */
  lemma {:induction false} SavedAtLastAccepted(v: Views, calls: seq<Call>, last: nat)
    requires last < |calls| && Accepted(AllEdits(v.memory, calls[..last]), calls[last])
    requires forall j :: last < j < |calls| ==> !Accepted(AllEdits(v.memory, calls[..j]), calls[j])
    ensures AfterViews(v, true, calls).memory == AllEdits(v.memory, calls)
    ensures AfterViews(v, true, calls).saved == AllEdits(v.memory, calls[..last + 1])
    decreases |calls|
  {
    var w := NextViews(v, true, calls[0]);
    var rest := calls[1..];
    if last == 0 {
      assert calls[..1][1..] == [];
      assert calls[..0] == [];
      forall j | 0 <= j < |rest| ensures !Accepted(AllEdits(w.memory, rest[..j]), rest[j]) { EditsShift(v, calls, j); }
      NoneAccepted(w, rest);
    } else {
      EditsShift(v, calls, last - 1);
      forall j | last - 1 < j < |rest| ensures !Accepted(AllEdits(w.memory, rest[..j]), rest[j]) {
        EditsShift(v, calls, j);
      }
      SavedAtLastAccepted(w, rest, last - 1);
      assert calls[..last + 1][1..] == rest[..last];
    }
  }

  lemma EditsShift(v: Views, calls: seq<Call>, j: nat)
    requires j + 1 < |calls|
    ensures AllEdits(NextViews(v, true, calls[0]).memory, calls[1..][..j]) == AllEdits(v.memory, calls[..j + 1])
    ensures calls[1..][j] == calls[j + 1]
  {
    assert calls[..j + 1][1..] == calls[1..][..j];
  }

  lemma {:induction false} NoneAccepted(v: Views, calls: seq<Call>)
    requires forall j :: 0 <= j < |calls| ==> !Accepted(AllEdits(v.memory, calls[..j]), calls[j])
    ensures AfterViews(v, true, calls) == Views(v.saved, AllEdits(v.memory, calls))
    decreases |calls|
  {
    if calls != [] {
      assert calls[..0] == [];
      forall j | 0 <= j < |calls[1..]|
        ensures !Accepted(AllEdits(NextViews(v, true, calls[0]).memory, calls[1..][..j]), calls[1..][j])
      {
        EditsShift(v, calls, j);
      }
      NoneAccepted(NextViews(v, true, calls[0]), calls[1..]);
    }
  }

  /** Main result, for a file that marks the place for servers and an agent that has just read it: after any run of
      calls memory has every edit, and the file reads back every edit up to the last accepted call. */
  lemma LastAcceptedReadsBack(file: string, c: Config, calls: seq<Call>, last: nat)
    requires ConfigFromString(file) == Ok(c) && GoodServers(c.backend) && HasMarker(SplitLines(file))
    requires PossibleCalls(Views(c.backend, c.backend), true, calls)
    requires last < |calls| && Accepted(AllEdits(c.backend, calls[..last]), calls[last])
    requires forall j :: last < j < |calls| ==> !Accepted(AllEdits(c.backend, calls[..j]), calls[j])
    ensures var after := AfterCalls(file, c, calls);
      && after.config == c.(backend := AllEdits(c.backend, calls))
      && ConfigFromString(after.file) == Ok(c.(backend := AllEdits(c.backend, calls[..last + 1])))
      && OtherLines(Lines(after.file)) == OtherLines(Lines(file))
  {
    var v := Views(c.backend, c.backend);
    CallsReadBack(file, c, v, true, calls);
    SavedAtLastAccepted(v, calls, last);
    assert c.(backend := v.memory) == c;
  }

  /** When HAProxy refuses the new file, memory and file disagree, whatever the edit was, except for adding the default
      entry over itself. */
  lemma RefusedCallLeavesDisagreement(file: string, c: Config, action: string, name: string, order: seq<string>)
    requires ConfigFromString(file) == Ok(c) && Edited(c.backend, action, name).Ok?
    ensures var after := AfterCall(file, c, action, name, order, false);
      && after.error.Some? && after.file == file
      && (ConfigFromString(after.file) == Ok(after.config) <==>
        action == "add" && name in c.backend && c.backend[name] == DEFAULT_SERVER)
  {
    var m := Edited(c.backend, action, name).value;
    assert action == "remove" ==> name in c.backend && name !in m;
    assert action == "add" ==> name in m && m[name] == DEFAULT_SERVER;
    if action == "add" && name in c.backend && c.backend[name] == DEFAULT_SERVER { assert m == c.backend; }
  }

  class LoadBalancerAgent {
    /** What is on disk. */
    var file: string
    var config: ConfigObject

    /** The file and what was read from it. */
    constructor (file: string, config: ConfigObject)
      ensures this.file == file && this.config == config
    {
      this.file, this.config := file, config;
    }

    /** The server entries as text; None at the first entry that is not a server. */
    method Entries(order: seq<string>) returns (backends: Option<seq<string>>)
      requires forall k :: 0 <= k < |order| ==> order[k] in config.backend
      ensures backends.Some? <==> AllServers(config.backend, order)
      ensures backends.Some? ==> backends.value == ServerTexts(config.backend, order)
    {
      var texts: seq<string> := [];
      var k := 0;
      while k < |order|
        invariant 0 <= k <= |order| && AllServers(config.backend, order[..k])
        invariant texts == ServerTexts(config.backend, order[..k])
      {
        var name := order[k];
        if !config.backend[name].Server? { return None; }
        assert order[..k + 1] == order[..k] + [name];
        ServerTextsSnoc(config.backend, order[..k], name);
        texts := texts + [ServerText(name, config.backend[name])];
        k := k + 1;
      }
      assert order[..k] == order;
      backends := Some(texts);
    }

    /** The new file's text, built line by line. */
    method BuildFile(order: seq<string>) returns (r: Result<string>)
      requires forall k :: 0 <= k < |order| ==> order[k] in config.backend
      ensures r == NewFile(file, config.backend, order)
    {
      var lines := SplitLines(file);
      var newConfig: seq<string> := [];
      ghost var texts := if AllServers(config.backend, order) then ServerTexts(config.backend, order) else [];
      var n := 0;
      while n < |lines|
        invariant 0 <= n <= |lines| && newConfig == NewElements(lines[..n], texts)
        invariant HasMarker(lines[..n]) ==> AllServers(config.backend, order)
      {
        var line := lines[n];
        assert lines[..n + 1] == lines[..n] + [line];
        NewElementsSnoc(lines[..n], line, texts);
        if !Contains(line, BACKEND_TAG) {
          var backends := [];
          if Contains(line, BEGIN_TAG) {
            assert IsMarker(lines[n]);
            var entries := Entries(order);
            if entries.None? { return Raised("KeyError"); }
            backends := entries.value;
          }
          newConfig := newConfig + [RStrip(line + "\n" + "\n" + Join("\n", backends))];
        }
        n := n + 1;
      }
      assert lines[..n] == lines;
      if !HasMarker(lines) { NoMarkerNoTexts(lines, texts); }
      r := Ok(Join("\n", newConfig));
    }

    /** add_remove_server. `order` is how the dictionary lists its keys after the edit, `valid` what HAProxy says of the
        new file. */
    method AddRemoveServer(action: string, name: string, order: seq<string>, valid: bool)
      returns (error: Option<string>)
      requires Edited(config.backend, action, name).Ok? ==> Lists(Edited(config.backend, action, name).value, order)
      modifies this, config
      ensures AgentState(file, config.View(), error)
        == AfterCall(old(file), old(config.View()), action, name, order, valid)
    {
      if action == "remove" {
        if name !in config.backend { return Some("KeyError"); }
        config.backend := config.backend - {name};
      } else if action == "add" {
        config.backend := config.backend[name := DEFAULT_SERVER];
      } else {
        return Some("Exception");
      }
      forall k | 0 <= k < |order| ensures order[k] in config.backend { assert order[k] in order; }
      var built := BuildFile(order);
      if built.Raised? { return Some(built.error); }
      if !valid { return Some("Exception"); }
      file := built.value;
      var reread;
      reread, error := ConfigFromText(file);
      if error.None? { config := reread; }
    }
  }
}
