/** Delivery of a message to any one of many servers through Redis.

    A publisher stores a message under a fresh key, gives the key a time to live and publishes the
    key. Every subscribed client then tries to rename the key to a temporary one; the client whose
    rename succeeds reads, deletes and handles the message. Each Redis command is one atomic event,
    any client may be at any point of its own sequence, and any key with a time to live may expire
    between two events. */
module Broker {
  import opened Commons

  type Cid = nat       // identifiers made by new_cid
  type ClientId = nat

  /** The JSON document that invoke_async stores. */
  datatype Message = Message(action: string, name: string, service: string, extra: string)

  /** 'zato:broker...:<cid>' and the same text followed by '.tmp'; cids are hexadecimal, so the two never clash. */
  datatype Key = MsgKey(cid: Cid) | TmpKey(cid: Cid)

  datatype Entry = Entry(payload: Message, hasTtl: bool)

  /** Where a client is inside on_message. */
  datatype Pc =
    | Listening
    | Renamed(cid: Cid)
    | Fetched(cid: Cid, payload: Option<Message>)
    | Cleared(cid: Cid, payload: Option<Message>)

  /** `tried` remembers which published keys the client has already taken off its subscription. */
  datatype Client = Client(inbox: seq<Cid>, tried: set<Cid>, pc: Pc)

  /** How far invoke_async has got with a message. */
  datatype Phase = Stored | Expiring | Published(recipients: set<ClientId>)

  datatype Sent = Sent(payload: Message, phase: Phase)

  datatype Call = Call(client: ClientId, cid: Cid, payload: Message)

  /** `store` is Redis. `sent`, `owner`, `calls` and `lost` are history: what was stored, who won the rename,
      which callbacks ran, and which messages expired before anybody had read them. */
  datatype State = State(
    store: map<Key, Entry>,
    sent: map<Cid, Sent>,
    clients: map<ClientId, Client>,
    owner: map<Cid, ClientId>,
    calls: seq<Call>,
    lost: set<Cid>)

  const INIT := State(map[], map[], map[], map[], [], {})

  datatype Event =
    | Subscribe(client: ClientId)
    | SetKey(cid: Cid, payload: Message)
    | Expire(cid: Cid)
    | Publish(cid: Cid)
    | Claim(client: ClientId)
    | Get(client: ClientId)
    | Delete(client: ClientId)
    | Handle(client: ClientId)
    | TimeOut(key: Key)

  predicate Enabled(s: State, e: Event) {
    match e
    case Subscribe(c) => c !in s.clients
    case SetKey(x, _) => x !in s.sent  // new_cid is fresh
    case Expire(x) => x in s.sent && s.sent[x].phase.Stored?
    case Publish(x) => x in s.sent && s.sent[x].phase.Expiring?
    case Claim(c) => c in s.clients && s.clients[c].pc.Listening? && s.clients[c].inbox != []
    case Get(c) => c in s.clients && s.clients[c].pc.Renamed?
    case Delete(c) => c in s.clients && s.clients[c].pc.Fetched?
    case Handle(c) => c in s.clients && s.clients[c].pc.Cleared?
    case TimeOut(k) => k in s.store && s.store[k].hasTtl
  }

  /** RENAME moves the value together with its time to live. */
  function Rename(store: map<Key, Entry>, from: Key, to: Key): map<Key, Entry>
    requires from in store
  {
    (store - {from})[to := store[from]]
  }

  function SetPc(s: State, c: ClientId, pc: Pc): State
    requires c in s.clients
  {
    s.(clients := s.clients[c := s.clients[c].(pc := pc)])
  }

  function AfterPublish(s: State, x: Cid): State
    requires x in s.sent
  {
    s.(sent := s.sent[x := s.sent[x].(phase := Published(s.clients.Keys))],
       clients := map c | c in s.clients :: s.clients[c].(inbox := s.clients[c].inbox + [x]))
  }

  function AfterClaim(s: State, c: ClientId): State
    requires Enabled(s, Claim(c))
  {
    var x := s.clients[c].inbox[0];
    var me := s.clients[c].(inbox := s.clients[c].inbox[1..], tried := s.clients[c].tried + {x});
    if MsgKey(x) in s.store then
      s.(store := Rename(s.store, MsgKey(x), TmpKey(x)),
         owner := s.owner[x := c],
         clients := s.clients[c := me.(pc := Renamed(x))])
    else
      s.(clients := s.clients[c := me])
  }

  function AfterGet(s: State, c: ClientId): State
    requires Enabled(s, Get(c))
  {
    var x := s.clients[c].pc.cid;
    SetPc(s, c, Fetched(x, if TmpKey(x) in s.store then Some(s.store[TmpKey(x)].payload) else None))
  }

  function AfterHandle(s: State, c: ClientId): State
    requires Enabled(s, Handle(c))
  {
    var pc := s.clients[c].pc;
    SetPc(if pc.payload.Some? then s.(calls := s.calls + [Call(c, pc.cid, pc.payload.value)]) else s, c, Listening)
  }

  /** Losing a temporary key matters only while its owner has not read it yet. */
  predicate StillUnread(s: State, k: Key) {
    k.MsgKey? || (k.cid in s.owner && s.owner[k.cid] in s.clients && s.clients[s.owner[k.cid]].pc == Renamed(k.cid))
  }

  function AfterTimeOut(s: State, k: Key): State {
    s.(store := s.store - {k}, lost := if StillUnread(s, k) then s.lost + {k.cid} else s.lost)
  }

  function Apply(s: State, e: Event): State
    requires Enabled(s, e)
  {
    match e
    case Subscribe(c) => s.(clients := s.clients[c := Client([], {}, Listening)])
    case SetKey(x, p) => s.(store := s.store[MsgKey(x) := Entry(p, false)], sent := s.sent[x := Sent(p, Stored)])
    case Expire(x) =>
      s.(sent := s.sent[x := s.sent[x].(phase := Expiring)],
         store := if MsgKey(x) in s.store then s.store[MsgKey(x) := s.store[MsgKey(x)].(hasTtl := true)] else s.store)
    case Publish(x) => AfterPublish(s, x)
    case Claim(c) => AfterClaim(s, c)
    case Get(c) => AfterGet(s, c)
    case Delete(c) => SetPc(s.(store := s.store - {TmpKey(s.clients[c].pc.cid)}), c,
                            Cleared(s.clients[c].pc.cid, s.clients[c].pc.payload))
    case Handle(c) => AfterHandle(s, c)
    case TimeOut(k) => AfterTimeOut(s, k)
  }

  /** An event that cannot happen leaves the state alone, so that runs are simply all event sequences. */
  function Next(s: State, e: Event): State {
    if Enabled(s, e) then Apply(s, e) else s
  }

  function Run(s: State, es: seq<Event>): State
    decreases |es|
  {
    if es == [] then s else Run(Next(s, es[0]), es[1..])
  }

  lemma {:induction false} RunAppend(s: State, a: seq<Event>, b: seq<Event>)
    ensures Run(s, a + b) == Run(Run(s, a), b)
    decreases |a|
  {
    if a == [] {
      assert a + b == b;
    } else {
      assert (a + b)[0] == a[0] && (a + b)[1..] == a[1..] + b;
      RunAppend(Next(s, a[0]), a[1..], b);
    }
  }

  lemma RunOne(s: State, e: Event)
    ensures Run(s, [e]) == Next(s, e)
  {
    assert [e][1..] == [];
    assert Run(Next(s, e), []) == Next(s, e);
  }

  lemma RunThen(s: State, es: seq<Event>, e: Event)
    ensures Run(s, es + [e]) == Next(Run(s, es), e)
  {
    RunAppend(s, es, [e]);
    RunOne(Run(s, es), e);
  }

  // ---------------------------------------------------------------- where a message is

  function CalledCids(calls: seq<Call>): set<Cid> {
    set i | 0 <= i < |calls| :: calls[i].cid
  }

  /** Nobody has claimed the message yet. */
  predicate Waiting(s: State, x: Cid) { MsgKey(x) in s.store }

  /** Client c has won the rename and has, or can still read, the payload. */
  predicate HeldBy(s: State, x: Cid, c: ClientId) {
    c in s.clients &&
    match s.clients[c].pc
    case Listening => false
    case Renamed(y) => y == x && TmpKey(x) in s.store
    case Fetched(y, p) => y == x && p.Some?
    case Cleared(y, p) => y == x && p.Some?
  }

  predicate Held(s: State, x: Cid) { exists c :: c in s.clients && HeldBy(s, x, c) }

  predicate Handled(s: State, x: Cid) { x in CalledCids(s.calls) }

  predicate Expired(s: State, x: Cid) { x in s.lost }

  predicate About(pc: Pc, x: Cid) { !pc.Listening? && pc.cid == x }

  // ---------------------------------------------------------------- the invariant

  /** The client recorded as owner of x is working on it; what it knows matches the store and the history. */
  ghost predicate Working(s: State, x: Cid)
    requires x in s.sent && x in s.owner && s.owner[x] in s.clients
  {
    var pc := s.clients[s.owner[x]].pc;
    && About(pc, x)
    && match pc
       case Renamed(_) => x in s.lost <==> TmpKey(x) !in s.store
       case Fetched(_, p) => (if p.Some? then p.value == s.sent[x].payload && x !in s.lost
                              else x in s.lost && TmpKey(x) !in s.store)
       case Cleared(_, p) => TmpKey(x) !in s.store &&
                             (if p.Some? then p.value == s.sent[x].payload && x !in s.lost else x in s.lost)
  }

  /** Every message is at exactly one stage of its life. */
  ghost predicate StageOk(s: State, x: Cid)
    requires x in s.sent
  {
    if MsgKey(x) in s.store then
      x !in s.owner && x !in s.lost && TmpKey(x) !in s.store && !Handled(s, x)
    else if x in s.owner && s.owner[x] in s.clients && About(s.clients[s.owner[x]].pc, x) then
      Working(s, x) && !Handled(s, x)
    else
      TmpKey(x) !in s.store && (x in s.lost <==> !Handled(s, x)) && (x !in s.owner ==> x in s.lost)
  }

  ghost predicate StagesOk(s: State) {
    forall x :: x in s.sent ==> StageOk(s, x)
  }

  ghost predicate EntryOk(s: State, k: Key)
    requires k in s.store
  {
    && k.cid in s.sent
    && s.store[k].payload == s.sent[k.cid].payload
    && (k.TmpKey? || !s.sent[k.cid].phase.Stored? ==> s.store[k].hasTtl)
    && (k.TmpKey? ==> s.sent[k.cid].phase.Published?)
  }

  ghost predicate EntriesOk(s: State) {
    forall k :: k in s.store ==> EntryOk(s, k)
  }

  ghost predicate ClientOk(s: State, c: ClientId)
    requires c in s.clients
  {
    var me := s.clients[c];
    && (!me.pc.Listening? ==> me.pc.cid in s.owner && s.owner[me.pc.cid] == c)
    && (forall x :: x in me.tried ==> x in s.sent && MsgKey(x) !in s.store)
    && (forall i :: 0 <= i < |me.inbox| ==> me.inbox[i] in s.sent && s.sent[me.inbox[i]].phase.Published?)
  }

  ghost predicate ClientsOk(s: State) {
    && (forall c :: c in s.clients ==> ClientOk(s, c))
    && (forall x :: x in s.owner ==> x in s.sent && s.owner[x] in s.clients && s.sent[x].phase.Published?)
    && s.lost <= s.sent.Keys
  }

  /** A recipient still has the key in its inbox or has taken it. */
  ghost predicate RecipientsOk(s: State) {
    forall x, c :: x in s.sent && s.sent[x].phase.Published? && c in s.sent[x].phase.recipients ==>
      c in s.clients && (x in s.clients[c].inbox || x in s.clients[c].tried)
  }

  ghost predicate CallOk(s: State, k: Call) {
    k.cid in s.sent && k.payload == s.sent[k.cid].payload && k.cid in s.owner && s.owner[k.cid] == k.client
  }

  ghost predicate CallsOk(s: State) {
    && (forall i :: 0 <= i < |s.calls| ==> CallOk(s, s.calls[i]))
    && (forall i, j :: 0 <= i < j < |s.calls| ==> s.calls[i].cid != s.calls[j].cid)
  }

  ghost predicate Inv(s: State) {
    StagesOk(s) && EntriesOk(s) && ClientsOk(s) && RecipientsOk(s) && CallsOk(s)
  }

  lemma CalledAppend(calls: seq<Call>, k: Call)
    ensures CalledCids(calls + [k]) == CalledCids(calls) + {k.cid}
  {
    var both := calls + [k];
    forall x | x in CalledCids(calls) + {k.cid} ensures x in CalledCids(both) {
      if x == k.cid {
        assert both[|calls|].cid == x;
      } else {
        var i :| 0 <= i < |calls| && calls[i].cid == x;
        assert both[i].cid == x;
      }
    }
  }

  lemma SubscribeInv(s: State, c: ClientId)
    requires Inv(s) && Enabled(s, Subscribe(c))
    ensures Inv(Apply(s, Subscribe(c)))
  {
    var t := Apply(s, Subscribe(c));
    forall x | x in t.sent ensures StageOk(t, x) { assert StageOk(s, x); }
    forall d | d in t.clients ensures ClientOk(t, d) { if d != c { assert ClientOk(s, d); } }
    forall k | k in t.store ensures EntryOk(t, k) { assert EntryOk(s, k); }
    forall i | 0 <= i < |t.calls| ensures CallOk(t, t.calls[i]) { assert CallOk(s, s.calls[i]); }
  }

  lemma SetKeyStage(s: State, x: Cid, p: Message)
    requires Inv(s) && Enabled(s, SetKey(x, p))
    ensures x in Apply(s, SetKey(x, p)).sent && StageOk(Apply(s, SetKey(x, p)), x)
  {
    forall i | 0 <= i < |s.calls| ensures s.calls[i].cid != x { assert CallOk(s, s.calls[i]); }
    forall k | k in s.store ensures k.cid != x { assert EntryOk(s, k); }
  }

  lemma SetKeyInv(s: State, x: Cid, p: Message)
    requires Inv(s) && Enabled(s, SetKey(x, p))
    ensures Inv(Apply(s, SetKey(x, p)))
  {
    var t := Apply(s, SetKey(x, p));
    forall i | 0 <= i < |t.calls| ensures CallOk(t, t.calls[i]) { assert CallOk(s, s.calls[i]); }
    SetKeyStage(s, x, p);
    forall y | y in t.sent ensures StageOk(t, y) { if y != x { assert StageOk(s, y); } }
    forall c | c in t.clients ensures ClientOk(t, c) { assert ClientOk(s, c); }
    forall k | k in t.store ensures EntryOk(t, k) { if k != MsgKey(x) { assert EntryOk(s, k); } }
  }

  lemma ExpireStages(s: State, x: Cid)
    requires Inv(s) && Enabled(s, Expire(x))
    ensures StagesOk(Apply(s, Expire(x)))
  {
    var t := Apply(s, Expire(x));
    forall y | y in t.sent ensures StageOk(t, y) { assert StageOk(s, y); }
  }

  lemma ExpireInv(s: State, x: Cid)
    requires Inv(s) && Enabled(s, Expire(x))
    ensures Inv(Apply(s, Expire(x)))
  {
    var t := Apply(s, Expire(x));
    ExpireStages(s, x);
    forall c | c in t.clients ensures ClientOk(t, c) { assert ClientOk(s, c); }
    forall k | k in t.store ensures EntryOk(t, k) { assert EntryOk(s, k); }
    forall i | 0 <= i < |t.calls| ensures CallOk(t, t.calls[i]) { assert CallOk(s, s.calls[i]); }
  }

  lemma PublishStages(s: State, x: Cid)
    requires Inv(s) && Enabled(s, Publish(x))
    ensures StagesOk(Apply(s, Publish(x)))
  {
    var t := Apply(s, Publish(x));
    forall y | y in t.sent ensures StageOk(t, y) { assert StageOk(s, y); }
  }

  lemma PublishInv(s: State, x: Cid)
    requires Inv(s) && Enabled(s, Publish(x))
    ensures Inv(Apply(s, Publish(x)))
  {
    var t := Apply(s, Publish(x));
    PublishStages(s, x);
    forall c | c in t.clients ensures ClientOk(t, c) { assert ClientOk(s, c); }
    forall k | k in t.store ensures EntryOk(t, k) { assert EntryOk(s, k); }
    forall i | 0 <= i < |t.calls| ensures CallOk(t, t.calls[i]) { assert CallOk(s, s.calls[i]); }
    forall y, c | y in t.sent && t.sent[y].phase.Published? && c in t.sent[y].phase.recipients
      ensures c in t.clients && (y in t.clients[c].inbox || y in t.clients[c].tried)
    {
      if y == x { assert t.clients[c].inbox[|s.clients[c].inbox|] == x; }
    }
  }

  /** The key is gone: somebody else has claimed the message, or it has expired. */
  lemma ClaimMissInv(s: State, c: ClientId)
    requires Inv(s) && Enabled(s, Claim(c)) && MsgKey(s.clients[c].inbox[0]) !in s.store
    ensures Inv(Apply(s, Claim(c)))
  {
    var t := Apply(s, Claim(c));
    assert ClientOk(s, c);
    forall y | y in t.sent ensures StageOk(t, y) { assert StageOk(s, y); }
    forall d | d in t.clients ensures ClientOk(t, d) { assert ClientOk(s, d); }
    forall k | k in t.store ensures EntryOk(t, k) { assert EntryOk(s, k); }
    forall i | 0 <= i < |t.calls| ensures CallOk(t, t.calls[i]) { assert CallOk(s, s.calls[i]); }
    RecipientsAfterClaim(s, c);
  }

  lemma RecipientsAfterClaim(s: State, c: ClientId)
    requires Inv(s) && Enabled(s, Claim(c))
    ensures RecipientsOk(Apply(s, Claim(c)))
  {
    var t := Apply(s, Claim(c));
    forall y, d | y in t.sent && t.sent[y].phase.Published? && d in t.sent[y].phase.recipients
      ensures d in t.clients && (y in t.clients[d].inbox || y in t.clients[d].tried)
    {
      if d == c && y in s.clients[c].inbox {
        assert s.clients[c].inbox == [s.clients[c].inbox[0]] + s.clients[c].inbox[1..];
      }
    }
  }

  lemma StageAfterClaim(s: State, c: ClientId, y: Cid)
    requires Inv(s) && Enabled(s, Claim(c)) && MsgKey(s.clients[c].inbox[0]) in s.store && y in s.sent
    ensures StageOk(Apply(s, Claim(c)), y)
  {
    var x := s.clients[c].inbox[0];
    assert ClientOk(s, c) && StageOk(s, x) && EntryOk(s, MsgKey(x)) && StageOk(s, y);
  }

  lemma ClaimWinEntries(s: State, c: ClientId)
    requires Inv(s) && Enabled(s, Claim(c)) && MsgKey(s.clients[c].inbox[0]) in s.store
    ensures EntriesOk(Apply(s, Claim(c)))
  {
    var t := Apply(s, Claim(c));
    var x := s.clients[c].inbox[0];
    assert ClientOk(s, c) && EntryOk(s, MsgKey(x));
    forall k | k in t.store ensures EntryOk(t, k) { if k != TmpKey(x) { assert EntryOk(s, k); } }
  }

  lemma ClaimWinInv(s: State, c: ClientId)
    requires Inv(s) && Enabled(s, Claim(c)) && MsgKey(s.clients[c].inbox[0]) in s.store
    ensures Inv(Apply(s, Claim(c)))
  {
    var t := Apply(s, Claim(c));
    var x := s.clients[c].inbox[0];
    assert ClientOk(s, c) && StageOk(s, x) && EntryOk(s, MsgKey(x));
    forall y | y in t.sent ensures StageOk(t, y) { StageAfterClaim(s, c, y); }
    forall d | d in t.clients ensures ClientOk(t, d) { assert ClientOk(s, d); }
    ClaimWinEntries(s, c);
    assert forall i :: 0 <= i < |s.calls| ==> CallOk(s, s.calls[i]) && s.calls[i].cid in CalledCids(s.calls);
    forall i | 0 <= i < |t.calls| ensures CallOk(t, t.calls[i]) { assert CallOk(s, s.calls[i]); }
    RecipientsAfterClaim(s, c);
  }

  lemma GetInv(s: State, c: ClientId)
    requires Inv(s) && Enabled(s, Get(c))
    ensures Inv(Apply(s, Get(c)))
  {
    var t := Apply(s, Get(c));
    var x := s.clients[c].pc.cid;
    assert ClientOk(s, c);
    assert StageOk(s, x);
    if TmpKey(x) in s.store { assert EntryOk(s, TmpKey(x)); }
    forall y | y in t.sent ensures StageOk(t, y) { assert StageOk(s, y); }
    forall d | d in t.clients ensures ClientOk(t, d) { assert ClientOk(s, d); }
    forall k | k in t.store ensures EntryOk(t, k) { assert EntryOk(s, k); }
    forall i | 0 <= i < |t.calls| ensures CallOk(t, t.calls[i]) { assert CallOk(s, s.calls[i]); }
  }

  lemma DeleteInv(s: State, c: ClientId)
    requires Inv(s) && Enabled(s, Delete(c))
    ensures Inv(Apply(s, Delete(c)))
  {
    var t := Apply(s, Delete(c));
    var x := s.clients[c].pc.cid;
    assert ClientOk(s, c);
    assert StageOk(s, x);
    forall y | y in t.sent ensures StageOk(t, y) { assert StageOk(s, y); }
    forall d | d in t.clients ensures ClientOk(t, d) { assert ClientOk(s, d); }
    forall k | k in t.store ensures EntryOk(t, k) { assert EntryOk(s, k); }
    forall i | 0 <= i < |t.calls| ensures CallOk(t, t.calls[i]) { assert CallOk(s, s.calls[i]); }
  }

  lemma CallsAfterHandle(s: State, c: ClientId)
    requires Inv(s) && Enabled(s, Handle(c))
    ensures CallsOk(AfterHandle(s, c))
  {
    var t := AfterHandle(s, c);
    assert ClientOk(s, c);
    var x := s.clients[c].pc.cid;
    assert StageOk(s, x);
    assert forall i :: 0 <= i < |s.calls| ==> CallOk(s, s.calls[i]) && s.calls[i].cid in CalledCids(s.calls);
    forall i | 0 <= i < |t.calls| ensures CallOk(t, t.calls[i]) {
      if i < |s.calls| { assert CallOk(s, s.calls[i]); }
    }
  }

  lemma StageAfterHandle(s: State, c: ClientId, y: Cid)
    requires Inv(s) && Enabled(s, Handle(c)) && y in s.sent
    ensures StageOk(AfterHandle(s, c), y)
  {
    var pc := s.clients[c].pc;
    assert ClientOk(s, c) && StageOk(s, pc.cid) && StageOk(s, y);
    if pc.payload.Some? {
      CalledAppend(s.calls, Call(c, pc.cid, pc.payload.value));
    }
  }

  lemma HandleInv(s: State, c: ClientId)
    requires Inv(s) && Enabled(s, Handle(c))
    ensures Inv(Apply(s, Handle(c)))
  {
    var t := Apply(s, Handle(c));
    forall y | y in t.sent ensures StageOk(t, y) { StageAfterHandle(s, c, y); }
    forall d | d in t.clients ensures ClientOk(t, d) { assert ClientOk(s, d); }
    forall k | k in t.store ensures EntryOk(t, k) { assert EntryOk(s, k); }
    CallsAfterHandle(s, c);
  }

  lemma TimeOutStage(s: State, k: Key, y: Cid)
    requires Inv(s) && Enabled(s, TimeOut(k)) && y in s.sent
    ensures StageOk(Apply(s, TimeOut(k)), y)
  {
    assert EntryOk(s, k) && StageOk(s, k.cid) && StageOk(s, y);
  }

  lemma TimeOutStages(s: State, k: Key)
    requires Inv(s) && Enabled(s, TimeOut(k))
    ensures StagesOk(Apply(s, TimeOut(k)))
  {
    var t := Apply(s, TimeOut(k));
    forall y | y in t.sent ensures StageOk(t, y) { TimeOutStage(s, k, y); }
  }

  lemma TimeOutClients(s: State, k: Key)
    requires Inv(s) && Enabled(s, TimeOut(k))
    ensures ClientsOk(Apply(s, TimeOut(k)))
  {
    var t := Apply(s, TimeOut(k));
    assert EntryOk(s, k);
    forall c | c in t.clients ensures ClientOk(t, c) { assert ClientOk(s, c); }
  }

  lemma TimeOutInv(s: State, k: Key)
    requires Inv(s) && Enabled(s, TimeOut(k))
    ensures Inv(Apply(s, TimeOut(k)))
  {
    var t := Apply(s, TimeOut(k));
    TimeOutStages(s, k);
    TimeOutClients(s, k);
    forall j | j in t.store ensures EntryOk(t, j) { assert EntryOk(s, j); }
    forall i | 0 <= i < |t.calls| ensures CallOk(t, t.calls[i]) { assert CallOk(s, s.calls[i]); }
  }

  lemma NextInv(s: State, e: Event)
    requires Inv(s)
    ensures Inv(Next(s, e))
  {
    if Enabled(s, e) {
      match e
      case Subscribe(c) => SubscribeInv(s, c);
      case SetKey(x, p) => SetKeyInv(s, x, p);
      case Expire(x) => ExpireInv(s, x);
      case Publish(x) => PublishInv(s, x);
      case Claim(c) =>
        if MsgKey(s.clients[c].inbox[0]) in s.store { ClaimWinInv(s, c); } else { ClaimMissInv(s, c); }
      case Get(c) => GetInv(s, c);
      case Delete(c) => DeleteInv(s, c);
      case Handle(c) => HandleInv(s, c);
      case TimeOut(k) => TimeOutInv(s, k);
    }
  }

  lemma {:induction false} RunInv(s: State, es: seq<Event>)
    requires Inv(s)
    ensures Inv(Run(s, es))
    decreases |es|
  {
    if es != [] {
      NextInv(s, es[0]);
      RunInv(Next(s, es[0]), es[1..]);
    }
  }

  // ---------------------------------------------------------------- safety over every run

  lemma InitInv()
    ensures Inv(INIT)
  {
  }

  lemma SentStable(s: State, x: Cid, es: seq<Event>)
    requires x in s.sent
    ensures x in Run(s, es).sent && Run(s, es).sent[x].payload == s.sent[x].payload
    decreases |es|
  {
    if es != [] {
      SentStable(Next(s, es[0]), x, es[1..]);
    }
  }

  /** Whatever the interleaving, no message reaches two callbacks, and the one it reaches
      gets the payload the publisher stored. */
  lemma HandledAtMostOnce(before: seq<Event>, x: Cid, p: Message, after: seq<Event>)
    requires x !in Run(INIT, before).sent
    ensures var s := Run(INIT, before + [SetKey(x, p)] + after);
      && (forall i, j :: 0 <= i < |s.calls| && 0 <= j < |s.calls| && s.calls[i].cid == s.calls[j].cid ==> i == j)
      && (forall i :: 0 <= i < |s.calls| && s.calls[i].cid == x ==> s.calls[i].payload == p)
  {
    var s := Run(INIT, before + [SetKey(x, p)] + after);
    InitInv();
    RunInv(INIT, before + [SetKey(x, p)] + after);
    RunAppend(INIT, before + [SetKey(x, p)], after);
    RunAppend(INIT, before, [SetKey(x, p)]);
    var stored := Run(INIT, before + [SetKey(x, p)]);
    assert stored == Next(Run(INIT, before), SetKey(x, p)) by {
      assert [SetKey(x, p)][1..] == [];
    }
    SentStable(stored, x, after);
    assert forall i :: 0 <= i < |s.calls| ==> CallOk(s, s.calls[i]);
  }

  function Stages(s: State, x: Cid): nat {
    (if Waiting(s, x) then 1 else 0) + (if Held(s, x) then 1 else 0)
    + (if Handled(s, x) then 1 else 0) + (if Expired(s, x) then 1 else 0)
  }

  /** Conservation: a stored message is waiting, held, handled or expired, never two of these and never none;
      and at most one client holds it. */
  lemma Conservation(es: seq<Event>, x: Cid)
    requires x in Run(INIT, es).sent
    ensures Stages(Run(INIT, es), x) == 1
    ensures forall c, d :: HeldBy(Run(INIT, es), x, c) && HeldBy(Run(INIT, es), x, d) ==> c == d
  {
    var s := Run(INIT, es);
    InitInv();
    RunInv(INIT, es);
    assert StageOk(s, x);
    assert forall c :: c in s.clients ==> ClientOk(s, c);
    assert forall c :: HeldBy(s, x, c) ==> x in s.owner && s.owner[x] == c && Working(s, x);
    if x in s.owner && MsgKey(x) !in s.store && About(s.clients[s.owner[x]].pc, x) && x !in s.lost {
      assert HeldBy(s, x, s.owner[x]);
    }
  }

  /** Nothing is left behind in Redis for good: from PUBLISH on, the key and its temporary name always carry a time to
      live. */
  lemma PublishedKeysExpire(es: seq<Event>, k: Key)
    requires var s := Run(INIT, es); k in s.store && k.cid in s.sent && s.sent[k.cid].phase.Published?
    ensures Run(INIT, es).store[k].hasTtl
  {
    InitInv();
    RunInv(INIT, es);
    assert EntryOk(Run(INIT, es), k);
  }

  /** Until EXPIRE the key has no time to live yet, and nobody has heard of it. */
  predicate JustStored(s: State, x: Cid) {
    x in s.sent && s.sent[x].phase.Stored? ==> MsgKey(x) in s.store && !s.store[MsgKey(x)].hasTtl
  }

  ghost predicate StoredWaits(s: State) { forall x :: JustStored(s, x) }

  lemma NextStoredWaits(s: State, e: Event)
    requires Inv(s) && StoredWaits(s)
    ensures StoredWaits(Next(s, e))
  {
    forall x ensures JustStored(Next(s, e), x) { NextJustStored(s, e, x); }
  }

  lemma NextJustStored(s: State, e: Event, x: Cid)
    requires ClientsOk(s) && JustStored(s, x)
    ensures JustStored(Next(s, e), x)
  {
    if e.Claim? && Enabled(s, e) { assert ClientOk(s, e.client); }
  }

  lemma {:induction false} RunStoredWaits(s: State, es: seq<Event>)
    requires Inv(s) && StoredWaits(s)
    ensures StoredWaits(Run(s, es))
    decreases |es|
  {
    if es != [] {
      NextInv(s, es[0]);
      NextStoredWaits(s, es[0]);
      RunStoredWaits(Next(s, es[0]), es[1..]);
    }
  }

  /** A message that has only been stored cannot be lost: it waits under its key, which does not expire. */
  lemma StoredCannotExpire(es: seq<Event>, x: Cid)
    requires var s := Run(INIT, es); x in s.sent && s.sent[x].phase.Stored?
    ensures var s := Run(INIT, es);
      Waiting(s, x) && !Expired(s, x) && !Enabled(s, TimeOut(MsgKey(x))) && !Enabled(s, TimeOut(TmpKey(x)))
  {
    var s := Run(INIT, es);
    InitInv();
    RunInv(INIT, es);
    RunStoredWaits(INIT, es);
    assert JustStored(s, x) && StageOk(s, x);
  }

  /** Once some recipient has taken the key and the winner is done, the message has been handled exactly once, unless it
      expired. */
  lemma SettledMeansHandled(es: seq<Event>, x: Cid, c: ClientId)
    requires var s := Run(INIT, es);
      && x in s.sent && s.sent[x].phase.Published? && c in s.sent[x].phase.recipients
      && (c in s.clients ==> x !in s.clients[c].inbox)
      && (forall d :: d in s.clients ==> !About(s.clients[d].pc, x))
    ensures var s := Run(INIT, es); Handled(s, x) <==> !Expired(s, x)
  {
    var s := Run(INIT, es);
    InitInv();
    RunInv(INIT, es);
    assert StageOk(s, x) && ClientOk(s, c);
  }

  predicate ActsFor(e: Event, c: ClientId) {
    e == Claim(c) || e == Get(c) || e == Delete(c) || e == Handle(c)
  }

  // ---------------------------------------------------------------- every message is handled if nothing expires

  function Round(c: ClientId): seq<Event> { [Claim(c), Get(c), Delete(c), Handle(c)] }

  /** What one client does when it works through its whole subscription. */
  function Drain(c: ClientId, rounds: nat): seq<Event> {
    if rounds == 0 then [] else Round(c) + Drain(c, rounds - 1)
  }

  /** Clients drain one after another; a client needs at most one round per key, and one for the key it had in hand. */
  function DrainAll(s: State, order: seq<ClientId>): seq<Event> {
    if order == [] then []
    else Drain(order[0], if order[0] in s.clients then |s.clients[order[0]].inbox| + 1 else 0) + DrainAll(s, order[1..])
  }

  /** The clients' own events touch nothing but the acting client, the store, and the callbacks. */
  ghost predicate OnlyMoved(s: State, t: State, c: ClientId) {
    && t.clients.Keys == s.clients.Keys
    && (forall d :: d in s.clients && d != c ==> t.clients[d] == s.clients[d])
    && t.sent == s.sent && t.lost == s.lost
  }

  ghost predicate Idle(s: State, c: ClientId) {
    c in s.clients ==> s.clients[c].inbox == [] && s.clients[c].pc.Listening?
  }

  lemma OwnStep(s: State, c: ClientId, e: Event)
    requires c in s.clients && ActsFor(e, c)
    ensures OnlyMoved(s, Next(s, e), c)
    ensures e.Claim? || Next(s, e).clients[c].inbox == s.clients[c].inbox
  {
  }

  lemma OwnPcs(s: State, c: ClientId)
    requires c in s.clients
    ensures var t := Next(s, Claim(c)); !t.clients[c].pc.Listening? || s.clients[c].pc.Listening?
    ensures Next(s, Claim(c)).clients[c].inbox ==
      if s.clients[c].pc.Listening? && s.clients[c].inbox != [] then s.clients[c].inbox[1..] else s.clients[c].inbox
    ensures !Next(s, Get(c)).clients[c].pc.Renamed?
    ensures var t := Next(s, Delete(c));
      && !t.clients[c].pc.Fetched?
      && (s.clients[c].pc.Fetched? || t.clients[c].pc == s.clients[c].pc)
    ensures var t := Next(s, Handle(c));
      && !t.clients[c].pc.Cleared?
      && (s.clients[c].pc.Cleared? || t.clients[c].pc == s.clients[c].pc)
  {
  }

  lemma RunRound(s: State, c: ClientId)
    ensures Run(s, Round(c)) == Next(Next(Next(Next(s, Claim(c)), Get(c)), Delete(c)), Handle(c))
  {
    RunThen(s, [], Claim(c));
    RunThen(s, [Claim(c)], Get(c));
    RunThen(s, [Claim(c), Get(c)], Delete(c));
    RunThen(s, [Claim(c), Get(c), Delete(c)], Handle(c));
    assert [] + [Claim(c)] == [Claim(c)];
    assert [Claim(c)] + [Get(c)] == [Claim(c), Get(c)];
    assert [Claim(c), Get(c)] + [Delete(c)] == [Claim(c), Get(c), Delete(c)];
    assert [Claim(c), Get(c), Delete(c)] + [Handle(c)] == Round(c);
  }

  lemma RoundEffect(s: State, c: ClientId)
    requires c in s.clients
    ensures var t := Run(s, Round(c));
      && OnlyMoved(s, t, c) && t.clients[c].pc.Listening?
      && t.clients[c].inbox == if s.clients[c].pc.Listening? && s.clients[c].inbox != [] then s.clients[c].inbox[1..]
                               else s.clients[c].inbox
  {
    RunRound(s, c);
    var s1 := Next(s, Claim(c));
    OwnStep(s, c, Claim(c));
    OwnPcs(s, c);
    var s2 := Next(s1, Get(c));
    OwnStep(s1, c, Get(c));
    OwnPcs(s1, c);
    var s3 := Next(s2, Delete(c));
    OwnStep(s2, c, Delete(c));
    OwnPcs(s2, c);
    OwnStep(s3, c, Handle(c));
    OwnPcs(s3, c);
  }

  lemma {:induction false} DrainEffect(s: State, c: ClientId, rounds: nat)
    requires c in s.clients
    requires rounds >= |s.clients[c].inbox| + (if s.clients[c].pc.Listening? then 0 else 1)
    ensures OnlyMoved(s, Run(s, Drain(c, rounds)), c) && Idle(Run(s, Drain(c, rounds)), c)
    decreases rounds
  {
    if rounds > 0 {
      RoundEffect(s, c);
      RunAppend(s, Round(c), Drain(c, rounds - 1));
      DrainEffect(Run(s, Round(c)), c, rounds - 1);
    }
  }

  /** `now` is reached from `s` by draining the clients of `done`. */
  lemma {:induction false} DrainAllEffect(s: State, now: State, order: seq<ClientId>, done: set<ClientId>)
    requires now.clients.Keys == s.clients.Keys && now.sent == s.sent && now.lost == s.lost
    requires forall c :: c in s.clients && c !in done ==> now.clients[c] == s.clients[c]
    requires forall c :: c in done ==> Idle(now, c)
    requires forall i, j :: 0 <= i < j < |order| ==> order[i] != order[j]
    requires forall i :: 0 <= i < |order| ==> order[i] !in done
    ensures var t := Run(now, DrainAll(s, order));
      && t.clients.Keys == s.clients.Keys && t.sent == s.sent && t.lost == s.lost
      && (forall c :: c in done || c in order ==> Idle(t, c))
    decreases |order|
  {
    if order != [] {
      var c := order[0];
      var mine := Drain(c, if c in s.clients then |s.clients[c].inbox| + 1 else 0);
      RunAppend(now, mine, DrainAll(s, order[1..]));
      if c in s.clients { DrainEffect(now, c, |s.clients[c].inbox| + 1); }
      DrainAllEffect(s, Run(now, mine), order[1..], done + {c});
      assert order == [c] + order[1..];
    }
  }

  /** Liveness without timeouts: from any reachable state, let every client work through its subscription,
      in any order. Every message that was published to somebody and has not expired has then been handled. */
  lemma DrainedMeansHandled(es: seq<Event>, order: seq<ClientId>, x: Cid)
    requires var s := Run(INIT, es);
      && (forall c :: c in s.clients ==> c in order)
      && (forall i, j :: 0 <= i < j < |order| ==> order[i] != order[j])
      && x in s.sent && s.sent[x].phase.Published? && s.sent[x].phase.recipients != {} && !Expired(s, x)
    ensures Handled(Run(INIT, es + DrainAll(Run(INIT, es), order)), x)
  {
    var s := Run(INIT, es);
    var all := es + DrainAll(s, order);
    RunAppend(INIT, es, DrainAll(s, order));
    DrainAllEffect(s, s, order, {});
    var t := Run(INIT, all);
    InitInv();
    RunInv(INIT, all);
    var c :| c in t.sent[x].phase.recipients;
    assert Idle(t, c);
    forall d | d in t.clients ensures !About(t.clients[d].pc, x) { assert Idle(t, d); }
    SettledMeansHandled(all, x, c);
  }

  // ---------------------------------------------------------------- the two clients

  predicate Publishes(e: Event, x: Cid) {
    (e.SetKey? && e.cid == x) || e == Expire(x) || e == Publish(x)
  }

  ghost predicate OthersOnly(es: seq<Event>, c: ClientId) {
    forall i :: 0 <= i < |es| ==> !ActsFor(es[i], c)
  }

  lemma {:induction false} OthersKeepPc(s: State, c: ClientId, es: seq<Event>)
    requires c in s.clients
    requires OthersOnly(es, c)
    ensures c in Run(s, es).clients && Run(s, es).clients[c].pc == s.clients[c].pc
    decreases |es|
  {
    if es != [] {
      OthersKeepPc(Next(s, es[0]), c, es[1..]);
    }
  }

  lemma {:induction false} OthersKeepPhase(s: State, x: Cid, es: seq<Event>)
    requires x in s.sent
    requires forall i :: 0 <= i < |es| ==> !Publishes(es[i], x)
    ensures x in Run(s, es).sent && Run(s, es).sent[x] == s.sent[x]
    decreases |es|
  {
    if es != [] {
      OthersKeepPhase(Next(s, es[0]), x, es[1..]);
    }
  }

  const CODE_RENAMED := 10
  const CODE_NO_SUCH_FROM_KEY := 11

  /** Redis, the clients' progress and the history as one mutable object. Between any two commands of a client
      the environment, `others`, may do anything that does not act for this client. */
  class Cluster {
    var store: map<Key, Entry>
    var sent: map<Cid, Sent>
    var clients: map<ClientId, Client>
    var owner: map<Cid, ClientId>
    var calls: seq<Call>
    var lost: set<Cid>

    function View(): State
      reads this
    {
      State(store, sent, clients, owner, calls, lost)
    }

    constructor ()
      ensures View() == INIT
    {
      store, sent, clients, owner, calls, lost := map[], map[], map[], map[], [], {};
    }

    method Assign(s: State)
      modifies this
      ensures View() == s
    {
      store, sent, clients, owner, calls, lost := s.store, s.sent, s.clients, s.owner, s.calls, s.lost;
    }

    method Others(es: seq<Event>)
      modifies this
      ensures View() == Run(old(View()), es)
    {
      for i := 0 to |es|
        invariant Run(View(), es[i..]) == Run(old(View()), es)
      {
        Assign(Next(View(), es[i]));
        assert es[i..][0] == es[i] && es[i..][1..] == es[i + 1..];
      }
      assert es[|es|..] == [];
    }

    /** The Lua script: rename only what exists, and say which it was. */
    method RenameIfExists(from: Key, to: Key) returns (code: int)
      modifies `store
      ensures code == CODE_RENAMED <==> from in old(store)
      ensures code == CODE_NO_SUCH_FROM_KEY <==> from !in old(store)
      ensures store == if from in old(store) then Rename(old(store), from, to) else old(store)
    {
      if from in store {
        store := Rename(store, from, to);
        code := CODE_RENAMED;
      } else {
        code := CODE_NO_SUCH_FROM_KEY;
      }
    }

    /** The plain RENAME command, which fails when there is no such key. */
    method RenameCommand(from: Key, to: Key) returns (r: Result<()>)
      modifies `store
      ensures r == if from in old(store) then Ok(()) else Raised("ERR no such key")
      ensures store == if from in old(store) then Rename(old(store), from, to) else old(store)
    {
      if from !in store {
        return Raised("ERR no such key");
      }
      store := Rename(store, from, to);
      r := Ok(());
    }

    method TakeKey(c: ClientId) returns (x: Cid)
      requires Enabled(View(), Claim(c))
      modifies `clients
      ensures x == old(clients)[c].inbox[0]
      ensures clients == old(clients)[c := old(clients)[c].(inbox := old(clients)[c].inbox[1..],
                                                            tried := old(clients)[c].tried + {x})]
    {
      x := clients[c].inbox[0];
      clients := clients[c := clients[c].(inbox := clients[c].inbox[1..], tried := clients[c].tried + {x})];
    }

    method NoteWinner(c: ClientId, x: Cid)
      requires c in clients
      modifies `clients, `owner
      ensures clients == old(clients)[c := old(clients)[c].(pc := Renamed(x))]
      ensures owner == old(owner)[x := c]
    {
      clients := clients[c := clients[c].(pc := Renamed(x))];
      owner := owner[x := c];
    }

    /** How client.py claims a message. */
    method ClaimWithLua(c: ClientId) returns (won: bool)
      requires Enabled(View(), Claim(c))
      modifies this
      ensures View() == Next(old(View()), Claim(c))
      ensures won <==> clients[c].pc.Renamed?
    {
      var x := TakeKey(c);
      var code := RenameIfExists(MsgKey(x), TmpKey(x));
      won := code != CODE_NO_SUCH_FROM_KEY;
      if won {
        NoteWinner(c, x);
      }
    }

    /** How thread_client.py claims it: the same event. */
    method ClaimWithRename(c: ClientId) returns (won: bool)
      requires Enabled(View(), Claim(c))
      modifies this
      ensures View() == Next(old(View()), Claim(c))
      ensures won <==> clients[c].pc.Renamed?
    {
      var x := TakeKey(c);
      var r := RenameCommand(MsgKey(x), TmpKey(x));
      won := r.Ok?;
      if won {
        NoteWinner(c, x);
      }
    }

    method GetPayload(c: ClientId) returns (payload: Option<Message>)
      requires Enabled(View(), Get(c))
      modifies this
      ensures View() == Next(old(View()), Get(c))
      ensures clients[c].pc == Fetched(old(clients)[c].pc.cid, payload)
    {
      var x := clients[c].pc.cid;
      payload := if TmpKey(x) in store then Some(store[TmpKey(x)].payload) else None;
      clients := clients[c := clients[c].(pc := Fetched(x, payload))];
    }

    method DeleteTmpKey(c: ClientId)
      requires Enabled(View(), Delete(c))
      modifies this
      ensures View() == Next(old(View()), Delete(c))
    {
      var pc := clients[c].pc;
      store := store - {TmpKey(pc.cid)};
      clients := clients[c := clients[c].(pc := Cleared(pc.cid, pc.payload))];
    }

    method InvokeCallback(c: ClientId)
      requires Enabled(View(), Handle(c))
      modifies this
      ensures View() == Next(old(View()), Handle(c))
    {
      var pc := clients[c].pc;
      if pc.payload.Some? {
        calls := calls + [Call(c, pc.cid, pc.payload.value)];
      }
      clients := clients[c := clients[c].(pc := Listening)];
    }

    /** invoke_async: SET, EXPIRE, PUBLISH, with anything in between. Afterwards the message is out,
        and every client subscribed at that moment has been told. */
    method InvokeAsync(x: Cid, m: Message, others1: seq<Event>, others2: seq<Event>)
      requires x !in sent
      requires forall i :: 0 <= i < |others1| ==> !Publishes(others1[i], x)
      requires forall i :: 0 <= i < |others2| ==> !Publishes(others2[i], x)
      modifies this
      ensures View() == Run(old(View()), [SetKey(x, m)] + others1 + [Expire(x)] + others2 + [Publish(x)])
      ensures x in sent && sent[x] == Sent(m, Published(clients.Keys))
      ensures forall c :: c in clients ==> x in clients[c].inbox
    {
      ghost var s0 := View();
      Assign(Next(View(), SetKey(x, m)));
      ghost var s1 := View();
      Others(others1);
      OthersKeepPhase(s1, x, others1);
      Assign(Next(View(), Expire(x)));
      ghost var s2 := View();
      Others(others2);
      OthersKeepPhase(s2, x, others2);
      assert Enabled(View(), Publish(x));
      ghost var told := clients.Keys;
      Assign(Next(View(), Publish(x)));
      assert clients.Keys == told;
      assert forall c :: c in clients ==> clients[c].inbox[|clients[c].inbox| - 1] == x;
      RunOne(s0, SetKey(x, m));
      RunAppend(s0, [SetKey(x, m)], others1);
      RunOne(Run(s1, others1), Expire(x));
      RunAppend(s0, [SetKey(x, m)] + others1, [Expire(x)]);
      RunAppend(s0, [SetKey(x, m)] + others1 + [Expire(x)], others2);
      RunOne(Run(s2, others2), Publish(x));
      RunAppend(s0, [SetKey(x, m)] + others1 + [Expire(x)] + others2, [Publish(x)]);
    }

    method ClaimStep(c: ClientId, withLua: bool, others: seq<Event>) returns (won: bool)
      requires Enabled(View(), Claim(c)) && OthersOnly(others, c)
      modifies this
      ensures won <==> MsgKey(old(clients)[c].inbox[0]) in old(store)
      ensures View() == Run(old(View()), if won then [Claim(c)] + others else [Claim(c)])
      ensures c in clients && clients[c].pc == if won then Renamed(old(clients)[c].inbox[0]) else Listening
    {
      ghost var s := View();
      RunOne(s, Claim(c));
      if withLua {
        won := ClaimWithLua(c);
      } else {
        won := ClaimWithRename(c);
      }
      if won {
        OthersKeepPc(View(), c, others);
        RunAppend(s, [Claim(c)], others);
        Others(others);
      }
    }

    method GetStep(c: ClientId, others: seq<Event>) returns (payload: Option<Message>)
      requires Enabled(View(), Get(c)) && OthersOnly(others, c)
      modifies this
      ensures View() == Run(old(View()), [Get(c)] + others)
      ensures c in clients && clients[c].pc == Fetched(old(clients)[c].pc.cid, payload)
    {
      ghost var s := View();
      RunOne(s, Get(c));
      payload := GetPayload(c);
      OthersKeepPc(View(), c, others);
      RunAppend(s, [Get(c)], others);
      Others(others);
    }

    method DeleteStep(c: ClientId, others: seq<Event>)
      requires Enabled(View(), Delete(c)) && OthersOnly(others, c)
      modifies this
      ensures View() == Run(old(View()), [Delete(c)] + others)
      ensures c in clients && clients[c].pc == Cleared(old(clients)[c].pc.cid, old(clients)[c].pc.payload)
    {
      ghost var s := View();
      RunOne(s, Delete(c));
      DeleteTmpKey(c);
      OthersKeepPc(View(), c, others);
      RunAppend(s, [Delete(c)], others);
      Others(others);
    }

    /** on_message of either client, `withLua` telling which, for the key at the head of the subscription: a run in
        which this client claims, reads, deletes and handles while the others do whatever they like in between.
        If the key was gone nothing else happens; if the payload was still there, the callback gets it. */
    method OnMessage(c: ClientId, withLua: bool, others1: seq<Event>, others2: seq<Event>, others3: seq<Event>)
      returns (payload: Option<Message>)
      requires Enabled(View(), Claim(c))
      requires OthersOnly(others1, c) && OthersOnly(others2, c) && OthersOnly(others3, c)
      modifies this
      ensures View() == Run(old(View()),
        if MsgKey(old(clients)[c].inbox[0]) in old(store)
        then [Claim(c)] + others1 + ([Get(c)] + others2) + ([Delete(c)] + others3) + [Handle(c)] else [Claim(c)])
      ensures payload.Some? ==> calls != [] && calls[|calls| - 1] == Call(c, old(clients)[c].inbox[0], payload.value)
      ensures MsgKey(old(clients)[c].inbox[0]) !in old(store) ==> payload == None && calls == old(calls)
    {
      ghost var s := View();
      RunOne(s, Claim(c));
      var won := ClaimStep(c, withLua, others1);
      if !won {
        return None;
      }
      payload := GetStep(c, others2);
      DeleteStep(c, others3);
      FourLegs(s, [Claim(c)] + others1, [Get(c)] + others2, [Delete(c)] + others3, Handle(c));
      InvokeCallback(c);
    }
  }

  lemma FourLegs(s: State, a: seq<Event>, b: seq<Event>, d: seq<Event>, e: Event)
    ensures Run(s, a + b + d + [e]) == Next(Run(Run(Run(s, a), b), d), e)
  {
    RunAppend(s, a, b);
    RunAppend(s, a + b, d);
    RunThen(s, a + b + d, e);
  }
}
