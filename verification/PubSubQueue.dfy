/** The delivery queue of the publish/subscribe subsystem, and the background cleanup that empties it. */
module PubSubQueue {
  import opened Commons

  type MsgId = nat
  type SubId = nat
  type SubKey = nat
  type ClusterId = nat

  /** `expiration` is NULL for messages published without one. */
  datatype Message = Message(cluster: ClusterId, pubTime: int, extPubTime: Option<int>, priority: int,
                             expiration: Option<int>, data: string)

  datatype Status = Initialized | Delivered

  datatype Row = Row(cluster: ClusterId, status: Status)

  /** One row of a queue per message and subscription. */
  type RowId = (MsgId, SubId)

  datatype Published = Published(msg: Message, subs: set<SubId>)

  /** The three tables and the clock. `log` and `acks` are history: what was ever published to whom, and what was
      confirmed under which key. */
  datatype State = State(
    now: int,
    messages: map<MsgId, Message>,
    queue: map<RowId, Row>,
    subs: map<SubId, SubKey>,
    log: map<MsgId, Published>,
    acks: set<(SubKey, MsgId)>)

  const INIT := State(0, map[], map[], map[], map[], {})

  datatype Event =
    | Tick(time: nat)
    | Subscribe(sub: SubId, key: SubKey)
    | Publish(id: MsgId, msg: Message, to: set<SubId>)
    | Confirm(key: SubKey, id: MsgId)
    | DeleteExpired(cluster: ClusterId)
    | DeleteDelivered(cluster: ClusterId)

  predicate IsCleanup(e: Event) { e.DeleteExpired? || e.DeleteDelivered? }

  /** Message ids are unique among all messages ever published. */
  predicate Enabled(s: State, e: Event) {
    match e
    case Subscribe(u, _) => u !in s.subs
    case Publish(m, _, to) => m !in s.log && to <= s.subs.Keys
    case _ => true
  }

  predicate Expired(m: Message, now: int) { m.expiration.Some? && m.expiration.value <= now }

  // ---------------------------------------------------------------- statements

  function Enqueued(queue: map<RowId, Row>, m: MsgId, cluster: ClusterId, to: set<SubId>): map<RowId, Row> {
    queue + map u | u in to :: (m, u) := Row(cluster, Initialized)
  }

  predicate Concerns(subs: map<SubId, SubKey>, r: RowId, k: SubKey, m: MsgId)
  {
    r.0 == m && r.1 in subs && subs[r.1] == k
  }

  /** confirm_pubsub_msg_delivered, whatever the cluster */
  function Confirmed(queue: map<RowId, Row>, subs: map<SubId, SubKey>, k: SubKey, m: MsgId): map<RowId, Row> {
    map r | r in queue :: if Concerns(subs, r, k, m) then queue[r].(status := Delivered) else queue[r]
  }

  /** delete_expired; NULL is never in the past */
  function WithoutExpired(messages: map<MsgId, Message>, cluster: ClusterId, now: int): map<MsgId, Message> {
    map m | m in messages && !(messages[m].cluster == cluster && Expired(messages[m], now)) :: messages[m]
  }

  /** Rows go with their messages. */
  function Cascade(queue: map<RowId, Row>, messages: map<MsgId, Message>): map<RowId, Row> {
    map r | r in queue && r.0 in messages :: queue[r]
  }

  /** delete_delivered */
  function WithoutDelivered(queue: map<RowId, Row>, cluster: ClusterId): map<RowId, Row> {
    map r | r in queue && !(queue[r].cluster == cluster && queue[r].status == Delivered) :: queue[r]
  }

  function Apply(s: State, e: Event): State
    requires Enabled(s, e)
  {
    match e
    case Tick(d) => s.(now := s.now + d)
    case Subscribe(u, k) => s.(subs := s.subs[u := k])
    case Publish(m, msg, to) =>
      s.(messages := s.messages[m := msg], queue := Enqueued(s.queue, m, msg.cluster, to),
        log := s.log[m := Published(msg, to)])
    case Confirm(k, m) =>
      s.(queue := Confirmed(s.queue, s.subs, k, m), acks := if m in s.log then s.acks + {(k, m)} else s.acks)
    case DeleteExpired(c) =>
      var messages := WithoutExpired(s.messages, c, s.now);
      s.(messages := messages, queue := Cascade(s.queue, messages))
    case DeleteDelivered(c) => s.(queue := WithoutDelivered(s.queue, c))
  }

  function Next(s: State, e: Event): State { if Enabled(s, e) then Apply(s, e) else s }

  function Run(s: State, es: seq<Event>): State
    decreases |es|
  {
    if es == [] then s else Run(Next(s, es[0]), es[1..])
  }

  /** No message of the cluster that has expired is left, every other one is, and rows stay with their messages. */
  ghost predicate ExpiredGone(s: State, t: State, cluster: ClusterId) {
    && (forall m :: m in t.messages <==>
          m in s.messages && !(s.messages[m].cluster == cluster && s.messages[m].expiration.Some?
                               && s.messages[m].expiration.value <= s.now))
    && (forall m :: m in t.messages ==> t.messages[m] == s.messages[m])
    && (forall r :: r in t.queue <==> r in s.queue && r.0 in t.messages)
    && (forall r :: r in t.queue ==> t.queue[r] == s.queue[r])
  }

  /** No delivered row of the cluster is left, and every other one is. */
  ghost predicate DeliveredGone(s: State, t: State, cluster: ClusterId) {
    && t.messages == s.messages
    && (forall r :: r in t.queue <==>
          r in s.queue && !(s.queue[r].cluster == cluster && s.queue[r].status == Delivered))
    && (forall r :: r in t.queue ==> t.queue[r] == s.queue[r])
  }

  /** What each cleanup leaves behind. */
  lemma CleanupsClean(s: State, cluster: ClusterId)
    ensures ExpiredGone(s, Next(s, DeleteExpired(cluster)), cluster)
    ensures DeliveredGone(s, Next(s, DeleteDelivered(cluster)), cluster)
  {
  }

  // ---------------------------------------------------------------- the query

  /** What get_sql_messages_by_sub_key asks for; without an earlier run, or with one at time 0, its time does not
      matter. */
  datatype Query = Query(cluster: ClusterId, key: SubKey, lastRun: Option<int>)

  predicate Wanted(m: Message, q: Query, now: int) {
    && m.cluster == q.cluster
    && m.expiration.Some? && m.expiration.value > now
    && (q.lastRun.Some? && q.lastRun.value != 0 ==> m.pubTime > q.lastRun.value)
  }

  function Selected(s: State, q: Query): set<RowId> {
    set r | r in s.queue && s.queue[r].status == Initialized && r.0 in s.messages && Wanted(s.messages[r.0], q, s.now)
         && r.1 in s.subs && s.subs[r.1] == q.key
  }

  /** What should be waiting, told from history alone: published to a subscription of the key, never confirmed under it,
      with an expiration that is still ahead, and after the last run if there was one. */
  predicate Pending(s: State, q: Query, r: RowId) {
    && r.0 in s.log && r.1 in s.log[r.0].subs && r.1 in s.subs && s.subs[r.1] == q.key
    && (q.key, r.0) !in s.acks
    && s.log[r.0].msg.cluster == q.cluster
    && s.log[r.0].msg.expiration.Some? && s.now < s.log[r.0].msg.expiration.value
    && (q.lastRun == None || q.lastRun == Some(0) || q.lastRun.value < s.log[r.0].msg.pubTime)
  }

  // ---------------------------------------------------------------- the invariant

  predicate MessageInv(s: State, m: MsgId) {
    && (m in s.messages ==> m in s.log && s.log[m].msg == s.messages[m])
    && (m in s.log && m !in s.messages ==> Expired(s.log[m].msg, s.now))
    && (m in s.log ==> s.log[m].subs <= s.subs.Keys)
  }

  predicate RowInv(s: State, r: RowId) {
    && (r in s.queue ==>
      && r.0 in s.messages && r.0 in s.log && r.1 in s.log[r.0].subs && r.1 in s.subs
      && (s.queue[r].status == Delivered <==> (s.subs[r.1], r.0) in s.acks))
    && (r.0 in s.messages && r.0 in s.log && r.1 in s.log[r.0].subs && r !in s.queue ==>
      r.1 in s.subs && (s.subs[r.1], r.0) in s.acks)
  }

  ghost predicate Inv(s: State) {
    && (forall m :: MessageInv(s, m))
    && (forall r :: RowInv(s, r))
    && (forall k, m :: (k, m) in s.acks ==> m in s.log)
  }

  lemma NextMessage(s: State, e: Event, m: MsgId)
    requires MessageInv(s, m)
    ensures MessageInv(Next(s, e), m)
  {
  }

  lemma NextRow(s: State, e: Event, r: RowId)
    requires Inv(s)
    ensures RowInv(Next(s, e), r)
  {
    assert RowInv(s, r) && MessageInv(s, r.0);
    if Enabled(s, e) {
      match e {
        case Publish(m, msg, to) => if r.0 == m { assert r == (m, r.1); }
        case _ =>
      }
    }
  }

  lemma NextInv(s: State, e: Event)
    requires Inv(s)
    ensures Inv(Next(s, e))
  {
    forall m ensures MessageInv(Next(s, e), m) {
      assert MessageInv(s, m);
      NextMessage(s, e, m);
    }
    forall r ensures RowInv(Next(s, e), r) { NextRow(s, e, r); }
  }

  lemma {:induction false} RunInv(s: State, es: seq<Event>)
    requires Inv(s)
    ensures Inv(Run(s, es))
    decreases |es|
  {
    if es != [] {
      NextInv(s, es[0]);
      RunInv(Next(s, es[0]), es[1..]);
    }
  }

  // ---------------------------------------------------------------- what is fetched

  lemma SelectedInState(s: State, q: Query, r: RowId)
    requires Inv(s)
    ensures r in Selected(s, q) <==> Pending(s, q, r)
  {
    assert RowInv(s, r) && MessageInv(s, r.0);
  }

  /** Main result: after any run, a fetch finds exactly the messages published to a subscription of that key which were
      never confirmed under it and have not expired, however often the queue was cleaned meanwhile. */
  lemma FetchFindsExactlyThePending(es: seq<Event>, q: Query, r: RowId)
    ensures r in Selected(Run(INIT, es), q) <==> Pending(Run(INIT, es), q, r)
  {
    RunInv(INIT, es);
    SelectedInState(Run(INIT, es), q, r);
  }

  /** The time of the last run, unless it is zero, takes out exactly the messages published no later. */
  lemma LastRunTakesOutTheOlder(s: State, cluster: ClusterId, key: SubKey, lastRun: int, r: RowId)
    ensures var all := Selected(s, Query(cluster, key, None));
      r in Selected(s, Query(cluster, key, Some(lastRun))) <==>
        r in all && (lastRun == 0 || s.messages[r.0].pubTime > lastRun)
  {
  }

  function Erase(es: seq<Event>): seq<Event>
    decreases |es|
  {
    if es == [] then [] else (if IsCleanup(es[0]) then [] else [es[0]]) + Erase(es[1..])
  }

  predicate SameHistory(s: State, t: State) { s.now == t.now && s.subs == t.subs && s.log == t.log && s.acks == t.acks }

  lemma CleanupKeepsHistory(s: State, e: Event)
    requires IsCleanup(e)
    ensures SameHistory(Next(s, e), s)
  {
  }

  lemma NextKeepsHistory(s: State, t: State, e: Event)
    requires SameHistory(s, t)
    ensures SameHistory(Next(s, e), Next(t, e))
  {
  }

  lemma {:induction false} EraseKeepsHistory(s: State, t: State, es: seq<Event>)
    requires SameHistory(s, t)
    ensures SameHistory(Run(s, es), Run(t, Erase(es)))
    decreases |es|
  {
    if es != [] {
      if IsCleanup(es[0]) {
        assert Erase(es) == Erase(es[1..]);
        CleanupKeepsHistory(s, es[0]);
        EraseKeepsHistory(Next(s, es[0]), t, es[1..]);
      } else {
        assert Erase(es)[0] == es[0] && Erase(es)[1..] == Erase(es[1..]);
        NextKeepsHistory(s, t, es[0]);
        EraseKeepsHistory(Next(s, es[0]), Next(t, es[0]), es[1..]);
      }
    }
  }

  /** Main result: cleanup is invisible. Erasing every cleanup step of a run changes no fetch, neither which rows are
      found nor what the messages say. */
  lemma CleanupIsInvisible(es: seq<Event>, q: Query)
    ensures var s, t := Run(INIT, es), Run(INIT, Erase(es));
      && Selected(s, q) == Selected(t, q)
      && forall r :: r in Selected(s, q) ==> s.messages[r.0] == t.messages[r.0]
  {
    var s, t := Run(INIT, es), Run(INIT, Erase(es));
    EraseKeepsHistory(INIT, INIT, es);
    RunInv(INIT, es);
    RunInv(INIT, Erase(es));
    forall r ensures r in Selected(s, q) <==> r in Selected(t, q) {
      SelectedInState(s, q, r);
      SelectedInState(t, q, r);
    }
    forall r | r in Selected(s, q) ensures s.messages[r.0] == t.messages[r.0] {
      assert MessageInv(s, r.0) && MessageInv(t, r.0);
      assert r in Selected(t, q);
    }
  }

  // ---------------------------------------------------------------- confirmation

  lemma {:induction false} AcksStay(s: State, es: seq<Event>, k: SubKey, m: MsgId)
    requires (k, m) in s.acks
    ensures (k, m) in Run(s, es).acks
    decreases |es|
  {
    if es != [] { AcksStay(Next(s, es[0]), es[1..], k, m); }
  }

  lemma {:induction false} RunAppend(s: State, es: seq<Event>, fs: seq<Event>)
    ensures Run(s, es + fs) == Run(Run(s, es), fs)
    decreases |es|
  {
    if es == [] {
      assert es + fs == fs;
    } else {
      assert (es + fs)[0] == es[0] && (es + fs)[1..] == es[1..] + fs;
      RunAppend(Next(s, es[0]), es[1..], fs);
    }
  }

  /** A message confirmed under a key is never fetched under it again, whatever happens later. */
  lemma ConfirmedNeverFetchedAgain(es: seq<Event>, fs: seq<Event>, k: SubKey, m: MsgId, q: Query, r: RowId)
    requires m in Run(INIT, es).log && q.key == k && r.0 == m
    ensures r !in Selected(Run(INIT, es + [Confirm(k, m)] + fs), q)
  {
    var s := Run(INIT, es);
    RunAppend(INIT, es + [Confirm(k, m)], fs);
    RunAppend(INIT, es, [Confirm(k, m)]);
    AcksStay(Next(s, Confirm(k, m)), fs, k, m);
    FetchFindsExactlyThePending(es + [Confirm(k, m)] + fs, q, r);
  }

  /** Confirming takes exactly the confirmed message out of what its own key sees, and changes nothing for other
      keys. */
  lemma ConfirmTakesOutOne(es: seq<Event>, k: SubKey, m: MsgId, q: Query, r: RowId)
    ensures r in Selected(Run(INIT, es + [Confirm(k, m)]), q) <==>
      r in Selected(Run(INIT, es), q) && !(q.key == k && r.0 == m)
  {
    RunAppend(INIT, es, [Confirm(k, m)]);
    FetchFindsExactlyThePending(es, q, r);
    FetchFindsExactlyThePending(es + [Confirm(k, m)], q, r);
  }

  // ---------------------------------------------------------------- order

  /** ORDER BY priority DESC, ext_pub_time, pub_time; servers differ in where they put NULL. */
  predicate NotAfter(a: Message, b: Message, nullsFirst: bool) {
    || a.priority > b.priority
    || (a.priority == b.priority && TimeBefore(a.extPubTime, b.extPubTime, nullsFirst))
    || (a.priority == b.priority && a.extPubTime == b.extPubTime && a.pubTime <= b.pubTime)
  }

  predicate TimeBefore(x: Option<int>, y: Option<int>, nullsFirst: bool) {
    match (x, y)
    case (Some(a), Some(b)) => a < b
    case (None, Some(_)) => nullsFirst
    case (Some(_), None) => !nullsFirst
    case _ => false
  }

  lemma NotAfterIsTotalOrder(a: Message, b: Message, c: Message, nullsFirst: bool)
    ensures NotAfter(a, b, nullsFirst) || NotAfter(b, a, nullsFirst)
    ensures NotAfter(a, b, nullsFirst) && NotAfter(b, c, nullsFirst) ==> NotAfter(a, c, nullsFirst)
  {
  }

  predicate Ordered(messages: map<MsgId, Message>, rows: seq<RowId>, nullsFirst: bool) {
    && (forall i :: 0 <= i < |rows| ==> rows[i].0 in messages)
    && forall i, j :: 0 <= i < j < |rows| ==> NotAfter(messages[rows[i].0], messages[rows[j].0], nullsFirst)
  }

  /** The answers a server may give: all selected rows, each once, in order. */
  ghost predicate IsAnswer(s: State, q: Query, rows: seq<RowId>, nullsFirst: bool) {
    && (forall r :: r in rows <==> r in Selected(s, q))
    && (forall i, j :: 0 <= i < j < |rows| ==> rows[i] != rows[j])
    && Ordered(s.messages, rows, nullsFirst)
  }

  /** What the order means: a higher priority comes first; of equal ones the earlier external time, and where these are
      equal too, the earlier time of publication. */
  lemma AnswerIsInOrder(s: State, q: Query, rows: seq<RowId>, nullsFirst: bool, i: nat, j: nat)
    requires IsAnswer(s, q, rows, nullsFirst) && i < j < |rows|
    ensures rows[i].0 in s.messages && rows[j].0 in s.messages
    ensures var a, b := s.messages[rows[i].0], s.messages[rows[j].0];
      && a.priority >= b.priority
      && (a.priority == b.priority && a.extPubTime.Some? && b.extPubTime.Some? ==>
            a.extPubTime.value <= b.extPubTime.value)
      && (a.priority == b.priority && a.extPubTime.Some? != b.extPubTime.Some? ==> a.extPubTime.None? == nullsFirst)
      && (a.priority == b.priority && a.extPubTime == b.extPubTime ==> a.pubTime <= b.pubTime)
  {
    assert NotAfter(s.messages[rows[i].0], s.messages[rows[j].0], nullsFirst);
  }

  lemma {:induction false} InsertInOrder(messages: map<MsgId, Message>, rows: seq<RowId>, r: RowId, nullsFirst: bool)
    returns (more: seq<RowId>)
    requires Ordered(messages, rows, nullsFirst) && r.0 in messages && r !in rows
    requires forall i, j :: 0 <= i < j < |rows| ==> rows[i] != rows[j]
    ensures Ordered(messages, more, nullsFirst) && multiset(more) == multiset(rows) + multiset{r}
    ensures forall i, j :: 0 <= i < j < |more| ==> more[i] != more[j]
    decreases |rows|
  {
    if rows == [] {
      more := [r];
    } else if NotAfter(messages[r.0], messages[rows[0].0], nullsFirst) {
      more := [r] + rows;
      forall j | 0 <= j < |rows| ensures NotAfter(messages[r.0], messages[rows[j].0], nullsFirst) {
        NotAfterIsTotalOrder(messages[r.0], messages[rows[0].0], messages[rows[j].0], nullsFirst);
      }
    } else {
      var rest := InsertInOrder(messages, rows[1..], r, nullsFirst);
      more := [rows[0]] + rest;
      assert rows == [rows[0]] + rows[1..];
      NotAfterIsTotalOrder(messages[r.0], messages[rows[0].0], messages[r.0], nullsFirst);
      forall j | 0 <= j < |rest|
        ensures rest[j] != rows[0] && NotAfter(messages[rows[0].0], messages[rest[j].0], nullsFirst)
      {
        assert rest[j] in multiset(rest);
        assert rest[j] == r || rest[j] in rows[1..];
      }
    }
  }

  /** There always is an answer. */
  lemma {:induction false} AnswerExists(messages: map<MsgId, Message>, rows: set<RowId>, nullsFirst: bool)
    returns (answer: seq<RowId>)
    requires forall r :: r in rows ==> r.0 in messages
    ensures Ordered(messages, answer, nullsFirst) && forall r :: r in answer <==> r in rows
    ensures forall i, j :: 0 <= i < j < |answer| ==> answer[i] != answer[j]
    decreases |rows|
  {
    if rows == {} {
      answer := [];
    } else {
      var r :| r in rows;
      var rest := AnswerExists(messages, rows - {r}, nullsFirst);
      answer := InsertInOrder(messages, rest, r, nullsFirst);
      forall x ensures x in answer <==> x in rows {
        assert x in answer <==> x in multiset(answer);
        assert x in rest <==> x in multiset(rest);
      }
    }
  }

  /** Cleanup cannot even change the order: the possible answers are the same. */
  lemma CleanupKeepsAnswers(es: seq<Event>, q: Query, rows: seq<RowId>, nullsFirst: bool)
    ensures IsAnswer(Run(INIT, es), q, rows, nullsFirst) <==> IsAnswer(Run(INIT, Erase(es)), q, rows, nullsFirst)
  {
    CleanupIsInvisible(es, q);
    var s, t := Run(INIT, es), Run(INIT, Erase(es));
    if forall r :: r in rows <==> r in Selected(s, q) {
      assert forall i :: 0 <= i < |rows| ==> rows[i] in rows && rows[i] in Selected(s, q) && rows[i] in Selected(t, q);
    }
  }

  // ---------------------------------------------------------------- the tables

  lemma MessagesLeft(messages: map<MsgId, Message>, gone: set<MsgId>, cluster: ClusterId, now: int)
    requires forall m :: m in gone <==> m in messages && messages[m].cluster == cluster && Expired(messages[m], now)
    ensures messages - gone == WithoutExpired(messages, cluster, now)
    ensures |messages| - |messages - gone| == |gone|
  {
    assert messages.Keys == (messages - gone).Keys + gone;
    assert messages - gone == WithoutExpired(messages, cluster, now);
  }

  class Odb {
    var messages: map<MsgId, Message>
    var queue: map<RowId, Row>
    var subs: map<SubId, SubKey>
    ghost var log: map<MsgId, Published>
    ghost var acks: set<(SubKey, MsgId)>

    constructor ()
      ensures forall now :: View(now) == INIT.(now := now)
    {
      messages, queue, subs, log, acks := map[], map[], map[], map[], {};
    }

    /** The tables at a time that the callers supply. */
    ghost function View(now: int): State
      reads this
    {
      State(now, messages, queue, subs, log, acks)
    }

    /** confirm_pubsub_msg_delivered: an UPDATE of the matching rows, one after another */
    method ConfirmPubsubMsgDelivered(key: SubKey, id: MsgId, ghost now: int)
      modifies this
      ensures View(now) == Next(old(View(now)), Confirm(key, id))
    {
      var before := queue;
      var todo := queue.Keys;
      while todo != {}
        invariant todo <= before.Keys == queue.Keys
        invariant messages == old(messages) && subs == old(subs) && log == old(log) && acks == old(acks)
        invariant forall r :: r in queue ==>
          queue[r] == if r in todo then before[r] else Confirmed(before, subs, key, id)[r]
        decreases |todo|
      {
        var r :| r in todo;
        if r.0 == id && r.1 in subs && subs[r.1] == key { queue := queue[r := queue[r].(status := Delivered)]; }
        todo := todo - {r};
      }
      assert queue == Confirmed(before, subs, key, id);
      if id in log { acks := acks + {(key, id)}; }
    }

    /** delete_expired returns how many messages it deleted; their rows go with them. */
    method RemoveExpired(cluster: ClusterId, now: int) returns (count: nat)
      modifies this
      ensures View(now) == Next(old(View(now)), DeleteExpired(cluster))
      ensures ExpiredGone(old(View(now)), View(now), cluster)
      ensures count == |old(messages)| - |messages|
    {
      var gone := set m | m in messages && messages[m].cluster == cluster && Expired(messages[m], now);
      count := |gone|;
      MessagesLeft(messages, gone, cluster, now);
      messages := messages - gone;
      queue := map r | r in queue && r.0 in messages :: queue[r];
      CleanupsClean(old(View(now)), cluster);
    }

    /** delete_delivered returns how many rows it deleted. */
    method RemoveDelivered(cluster: ClusterId, ghost now: int) returns (count: nat)
      modifies this
      ensures View(now) == Next(old(View(now)), DeleteDelivered(cluster))
      ensures DeliveredGone(old(View(now)), View(now), cluster)
      ensures count == |old(queue)| - |queue|
    {
      var gone := set r | r in queue && queue[r].cluster == cluster && queue[r].status == Delivered;
      count := |gone|;
      ghost var before := queue;
      queue := queue - gone;
      assert queue == WithoutDelivered(before, cluster);
      assert before.Keys == queue.Keys + gone;
      CleanupsClean(old(View(now)), cluster);
    }
  }
}
