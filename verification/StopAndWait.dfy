// The older adapter: Q1 fragments sent one at a time to each peer, every one
// acknowledged by its APRS message id.
module StopAndWait {
  import opened Prelude
  import opened Text
  import opened Base36
  import opened Carriage
  import B = Burst
  import S = Selective
  import R = Reassembly
  import P = Replay
  import RP = ReplayProofs
  import C = Codec
  import Core

  type Key = R.Key

  // `encodeText` is the Q1 text encoder, `None` where it raises.
  datatype Settings = Settings(
    ackTimeout: nat,
    maxAttempts: nat,
    minInterval: nat,
    queueCapacity: nat,
    transactionSpace: nat,
    encodeText: Bytes -> Option<string>,
    bounds: R.Bounds,
    limits: P.Limits,
    board: Core.Board)
  {
    ghost predicate Valid() {
      && ackTimeout > 0 && maxAttempts > 0 && queueCapacity > 0 && 1 <= transactionSpace <= 46656
      && bounds.Valid() && limits.Valid()
      && forall frame :: encodeText(frame).Some? ==> UrlSafe(encodeText(frame).value)
    }
  }

  predicate UrlSafe(text: string) {
    text != "" && forall i :: 0 <= i < |text| ==> IsUrlSafe(text[i])
  }

  datatype Item = Item(
    priority: nat,
    order: nat,
    peer: string,
    fragment: Fragment,
    delivery: Option<B.Delivery>,
    batch: Option<Key>,
    supersedable: bool)

  datatype Pending = Pending(item: Item, attempts: nat, deadline: nat)

  // Core is told of a set of deliveries, each once, in no particular order.
  datatype Report = Report(failed: bool, deliveries: set<B.Delivery>)

  // `acked` collects the order numbers of the acknowledged fragments, `calls`
  // what Core has been told.
  datatype Waiter = Waiter(
    queue: seq<Item>,
    pending: seq<Pending>,
    nextId: map<string, nat>,
    nextMessage: map<string, nat>,
    lastSend: map<string, nat>,
    order: nat,
    acked: set<nat>,
    calls: seq<Report>)

  const IDLE: Waiter := Waiter([], [], map[], map[], map[], 0, {}, [])

  // ----------------------------------------------------------- identifiers

  // What the pending packet's own body says its transaction is.
  function ParsedIds(f: Fragment): set<string> {
    match ParseFragment(B.FragmentText(f))
    case Ok(g) => {g.transactionId}
    case Err(_) => {}
  }

  predicate HasId(f: Fragment, id: string) {
    id in ParsedIds(f)
  }

  predicate TransactionTaken(w: Waiter, peer: string, id: string) {
    || (exists x :: x in w.queue && x.peer == peer && x.fragment.transactionId == id)
    || (exists p :: p in w.pending && p.item.peer == peer && HasId(p.item.fragment, id))
  }

  function IdOf(f: Fragment): string {
    if f.messageId.Some? then f.messageId.value else ""
  }

  function TakenMessages(w: Waiter, peer: string): set<string> {
    (set x | x in w.queue && x.peer == peer && x.fragment.messageId.Some? :: IdOf(x.fragment))
    + (set p | p in w.pending && p.item.peer == peer :: IdOf(p.item.fragment))
  }

  function Counter(counters: map<string, nat>, peer: string): nat {
    if peer in counters then counters[peer] else 0
  }

  // Try `tries` transaction ids in cyclic order.
  function SearchId(w: Waiter, peer: string, space: nat, next: nat, tries: nat): B.Allocation
    requires 0 < space
    decreases tries
  {
    if tries == 0 then B.Allocation(None, next)
    else
      var value := next % space;
      if !TransactionTaken(w, peer, Digits(value, 3)) then B.Allocation(Some(Digits(value, 3)), value + 1)
      else SearchId(w, peer, space, value + 1, tries - 1)
  }

  const MESSAGE_IDS: nat := 1296

  function SearchMessage(taken: set<string>, next: nat, tries: nat): B.Allocation
    decreases tries
  {
    if tries == 0 then B.Allocation(None, next)
    else
      var value := next % MESSAGE_IDS;
      if Digits(value, 2) !in taken then B.Allocation(Some(Digits(value, 2)), value + 1)
      else SearchMessage(taken, value + 1, tries - 1)
  }

  // ----------------------------------------------------------------- queuing

  function TextChunks(text: string): (chunks: seq<string>)
    ensures |chunks| == (|text| + 47) / 48
    ensures forall i :: 0 <= i < |chunks| ==> chunks[i] == text[48 * i..Min(48 * i + 48, |text|)]
  {
    seq((|text| + 47) / 48, i requires 0 <= i < (|text| + 47) / 48 => text[48 * i..Min(48 * i + 48, |text|)])
  }

  function Cut(cfg: Settings, frame: Bytes): Option<seq<string>> {
    match cfg.encodeText(frame)
    case None => None
    case Some(text) =>
      var chunks := TextChunks(text);
      if chunks == [] || |chunks| > MAX_FRAGMENTS then None else Some(chunks)
  }

  function Piece(id: string, chunks: seq<string>, i: nat, messageId: string): Fragment
    requires i < |chunks|
  {
    Fragment(id, i, |chunks|, chunks[i], Some(messageId), 1, None)
  }

  function NewItem(r: B.Request, id: string, chunks: seq<string>, i: nat, messageId: string, order: nat): Item
    requires i < |chunks|
  {
    Item(if r.proactive then 1 else 0, order, r.peer, Piece(id, chunks, i, messageId), r.delivery, r.batch, r.supersedable)
  }

  // Push fragment i with the next free message id; `None` once none is free.
  function Push(w: Waiter, r: B.Request, id: string, chunks: seq<string>, i: nat): Option<Waiter>
    requires i < |chunks|
  {
    var found := SearchMessage(TakenMessages(w, r.peer), Counter(w.nextMessage, r.peer), MESSAGE_IDS);
    if found.id.None? then None
    else
      Some(w.(queue := w.queue + [NewItem(r, id, chunks, i, found.id.value, w.order)],
              nextMessage := w.nextMessage[r.peer := found.next],
              order := w.order + 1))
  }

  datatype Pushed = Pushed(waiter: Waiter, complete: bool)

  function PushAll(w: Waiter, r: B.Request, id: string, chunks: seq<string>, n: nat): Pushed
    requires n <= |chunks|
  {
    if n == 0 then Pushed(w, true)
    else
      var before := PushAll(w, r, id, chunks, n - 1);
      if !before.complete then before
      else match Push(before.waiter, r, id, chunks, n - 1)
        case None => Pushed(before.waiter.(nextMessage := before.waiter.nextMessage[r.peer := ExhaustedNext(before.waiter, r.peer)]), false)
        case Some(t) => Pushed(t, true)
  }

  // Where a message-id search that finds nothing leaves its counter.
  function ExhaustedNext(w: Waiter, peer: string): nat {
    SearchMessage(TakenMessages(w, peer), Counter(w.nextMessage, peer), MESSAGE_IDS).next
  }

  datatype Queued = Queued(waiter: Waiter, result: Result<string, B.QueueError>)

  function QueueFrame(w: Waiter, cfg: Settings, r: B.Request): Queued
    requires cfg.transactionSpace > 0
  {
    if !B.ValidPeer(r.peer) then Queued(w, Err(B.BadPeer))
    else
      var found := SearchId(w, r.peer, cfg.transactionSpace, Counter(w.nextId, r.peer), cfg.transactionSpace);
      var counted := w.(nextId := w.nextId[r.peer := found.next]);
      if found.id.None? then Queued(counted, Err(B.NoFreeId))
      else match Cut(cfg, r.frame)
        case None => Queued(counted, Err(B.Unframeable))
        case Some(chunks) =>
          if |w.queue| + |chunks| > cfg.queueCapacity then Queued(counted, Err(B.QueueFull))
          else
            var pushed := PushAll(counted, r, found.id.value, chunks, |chunks|);
            Queued(pushed.waiter, if pushed.complete then Ok(found.id.value) else Err(B.NoFreeId))
  }

  // ---------------------------------------------------------------- removing

  function KeptItems(items: seq<Item>, dropped: set<nat>): (r: seq<Item>)
    ensures forall x :: x in r <==> x in items && x.order !in dropped
    ensures |r| <= |items|
  {
    if items == [] then []
    else
      var last := items[|items| - 1];
      KeptItems(items[..|items| - 1], dropped) + (if last.order in dropped then [] else [last])
  }

  function KeptPending(pending: seq<Pending>, dropped: set<nat>): (r: seq<Pending>)
    ensures forall p :: p in r <==> p in pending && p.item.order !in dropped
  {
    if pending == [] then []
    else
      var last := pending[|pending| - 1];
      KeptPending(pending[..|pending| - 1], dropped) + (if last.item.order in dropped then [] else [last])
  }

  function Drop(w: Waiter, dropped: set<nat>): Waiter {
    w.(queue := KeptItems(w.queue, dropped), pending := KeptPending(w.pending, dropped))
  }

  // Everything live, as items.
  function LiveItems(w: Waiter): set<Item> {
    (set x | x in w.queue) + (set p | p in w.pending :: p.item)
  }

  predicate Replaceable(x: Item) {
    x.batch.Some? && x.supersedable
  }

  function StaleBatches(w: Waiter, peer: string, current: Key): set<Key> {
    set x | x in LiveItems(w) && x.peer == peer && Replaceable(x) && x.batch.value != current :: x.batch.value
  }

  // A stale batch leaves the queue whoever it is for, and what this peer has
  // pending of it is forgotten.
  function Outdated(w: Waiter, peer: string, current: Key): set<nat> {
    var stale := StaleBatches(w, peer, current);
    (set x | x in w.queue && x.batch.Some? && x.batch.value in stale :: x.order)
    + (set p | p in w.pending && p.item.peer == peer && p.item.batch.Some? && p.item.batch.value in stale :: p.item.order)
  }

  function SupersedeStale(w: Waiter, peer: string, current: Key): Waiter {
    Drop(w, Outdated(w, peer, current))
  }

  // ------------------------------------------------------------ what ends it

  // The work that fails with a fragment: its frame, and its response batch.
  predicate FailsWith(x: Item, failed: Item) {
    x.peer == failed.peer
    && (x.fragment.transactionId == failed.fragment.transactionId || (failed.batch.Some? && x.batch == failed.batch))
  }

  function FailedOrders(w: Waiter, failed: Item): set<nat> {
    set x | x in LiveItems(w) && FailsWith(x, failed) :: x.order
  }

  function Abandoned(w: Waiter, failed: Item): set<B.Delivery> {
    (if failed.delivery.Some? then {failed.delivery.value} else {})
    + set x | x in LiveItems(w) && FailsWith(x, failed) && x.delivery.Some? :: x.delivery.value
  }

  // Exhausting one fragment abandons all of that work.
  function FailTransaction(w: Waiter, failed: Item): Waiter {
    Drop(w, FailedOrders(w, failed)).(calls := w.calls + [Report(true, Abandoned(w, failed))])
  }

  // Everything a cursor `since` proves this peer has already received.
  predicate Covered(x: Item, peer: string, callsign: Bytes, since: int) {
    x.peer == peer && x.delivery.Some? && x.delivery.value.recipient == callsign && x.delivery.value.sequence <= since
  }

  function CoveredOrders(w: Waiter, peer: string, callsign: Bytes, since: int): set<nat> {
    set x | x in LiveItems(w) && Covered(x, peer, callsign, since) :: x.order
  }

  function Confirmed(w: Waiter, peer: string, callsign: Bytes, since: int): set<B.Delivery> {
    set x | x in LiveItems(w) && Covered(x, peer, callsign, since) :: x.delivery.value
  }

  // A mailbox cursor stands in for the acknowledgements that got lost.
  function Reconcile(w: Waiter, peer: string, callsign: Bytes, since: int): Waiter {
    Drop(w, CoveredOrders(w, peer, callsign, since)).(calls := w.calls + [Report(false, Confirmed(w, peer, callsign, since))])
  }

  // ----------------------------------------------------------- acknowledging

  function FindPending(pending: seq<Pending>, peer: string, id: string): (r: Option<Pending>)
    ensures r.Some? ==> r.value in pending && r.value.item.peer == peer && IdOf(r.value.item.fragment) == id
    ensures r.None? ==> forall p :: p in pending ==> !(p.item.peer == peer && IdOf(p.item.fragment) == id)
  {
    if pending == [] then None
    else
      var last := pending[|pending| - 1];
      if last.item.peer == peer && IdOf(last.item.fragment) == id then Some(last)
      else FindPending(pending[..|pending| - 1], peer, id)
  }

  predicate Outstanding(w: Waiter, peer: string, id: string) {
    || (exists x :: x in w.queue && x.peer == peer && x.fragment.transactionId == id)
    || (exists p :: p in w.pending && p.item.peer == peer && p.item.fragment.transactionId == id)
  }

  // One packet is acknowledged; the last of a frame reports its delivery.
  function Acknowledge(w: Waiter, p: Pending): Waiter {
    var t := w.(pending := KeptPending(w.pending, {p.item.order}), acked := w.acked + {p.item.order});
    if p.item.delivery.Some? && !Outstanding(t, p.item.peer, p.item.fragment.transactionId) then
      t.(calls := t.calls + [Report(false, {p.item.delivery.value})])
    else t
  }

  // ----------------------------------------------------------------- polling

  predicate MaySend(w: Waiter, peer: string, cfg: Settings, now: nat) {
    peer !in w.lastSend || now - w.lastSend[peer] >= cfg.minInterval
  }

  predicate Precedes(a: Item, b: Item) {
    a.priority < b.priority || (a.priority == b.priority && a.order < b.order)
  }

  // The head of the heap: least by (priority, order).
  function Head(queue: seq<Item>): (x: Item)
    requires queue != []
    ensures x in queue
  {
    if |queue| == 1 then queue[0]
    else
      var before, last := Head(queue[..|queue| - 1]), queue[|queue| - 1];
      if Precedes(last, before) then last else before
  }

  function PeerHasPending(w: Waiter, peer: string): bool {
    exists p :: p in w.pending && p.item.peer == peer
  }

  function Resent(p: Pending, cfg: Settings, now: nat): Pending {
    p.(attempts := p.attempts + 1, deadline := now + cfg.ackTimeout)
  }

  function ReplacedPending(pending: seq<Pending>, q: Pending): (r: seq<Pending>)
    ensures |r| == |pending|
    ensures forall i :: 0 <= i < |r| ==> r[i] == if pending[i].item.order == q.item.order then q else pending[i]
  {
    seq(|pending|, i requires 0 <= i < |pending| => if pending[i].item.order == q.item.order then q else pending[i])
  }

  function Start(w: Waiter, cfg: Settings, x: Item, now: nat): Waiter {
    w.(queue := KeptItems(w.queue, {x.order}),
       pending := w.pending + [Pending(x, 1, now + cfg.ackTimeout)],
       lastSend := w.lastSend[x.peer := now])
  }

  function PacketOf(x: Item): B.Packet {
    B.Packet(x.peer, B.FragmentText(x.fragment))
  }

  datatype Polled = Polled(waiter: Waiter, packets: seq<B.Packet>)

  function PollOne(w: Waiter, cfg: Settings, p: Pending, now: nat): Polled {
    if p !in w.pending || now < p.deadline then Polled(w, [])
    else if p.attempts >= cfg.maxAttempts then Polled(FailTransaction(w, p.item), [])
    else if !MaySend(w, p.item.peer, cfg, now) then Polled(w, [])
    else
      Polled(w.(pending := ReplacedPending(w.pending, Resent(p, cfg, now)), lastSend := w.lastSend[p.item.peer := now]),
             [PacketOf(p.item)])
  }

  // The first n of the packets that were pending when the poll began.
  function PollPending(w: Waiter, cfg: Settings, snapshot: seq<Pending>, now: nat, n: nat): Polled
    requires n <= |snapshot|
  {
    if n == 0 then Polled(w, [])
    else
      var before := PollPending(w, cfg, snapshot, now, n - 1);
      var one := PollOne(before.waiter, cfg, snapshot[n - 1], now);
      Polled(one.waiter, before.packets + one.packets)
  }

  // At most the head of the queue goes out, when its peer has nothing pending.
  function PollHead(w: Waiter, cfg: Settings, now: nat): Polled {
    if w.queue == [] then Polled(w, [])
    else
      var x := Head(w.queue);
      if PeerHasPending(w, x.peer) || !MaySend(w, x.peer, cfg, now) then Polled(w, [])
      else Polled(Start(w, cfg, x, now), [PacketOf(x)])
  }

  function PollWaiter(w: Waiter, cfg: Settings, now: nat): Polled {
    var swept := PollPending(w, cfg, w.pending, now, |w.pending|);
    var head := PollHead(swept.waiter, cfg, now);
    Polled(head.waiter, swept.packets + head.packets)
  }

  // --------------------------------------------------------------- receiving

  // `trail` records every use made of the replay cache; its Store events are
  // the requests Core has executed.
  datatype State = State(
    waiter: Waiter,
    table: R.Table,
    cache: P.Cache,
    immediate: seq<B.Packet>,
    core: Core.State,
    trail: seq<RP.Event>)

  datatype Received = Received(state: State, outcome: Result<S.Disposition, S.Failure>)

  function Confirm(s: State, peer: string, id: Option<string>, accepted: bool): State {
    match id
    case None => s
    case Some(text) => s.(immediate := s.immediate + [B.Packet(peer, (if accepted then "ack" else "rej") + text)])
  }

  datatype QueuedAll = QueuedAll(waiter: Waiter, failure: Option<B.QueueError>)

  function QueueAll(w: Waiter, cfg: Settings, key: Key, responses: seq<Bytes>, supersedable: bool, firstTime: bool, n: nat): QueuedAll
    requires n <= |responses| && cfg.transactionSpace > 0
  {
    if n == 0 then QueuedAll(w, None)
    else
      var before := QueueAll(w, cfg, key, responses, supersedable, firstTime, n - 1);
      if before.failure.Some? then before
      else
        var q := QueueFrame(before.waiter, cfg, S.ResponseRequest(key, responses[n - 1], supersedable, firstTime));
        QueuedAll(q.waiter, if q.result.Ok? then None else Some(q.result.error))
  }

  function Respond(s: State, cfg: Settings, key: Key, responses: seq<Bytes>, supersedable: bool, firstTime: bool, d: S.Disposition)
    : Received
    requires cfg.transactionSpace > 0
  {
    var q := QueueAll(s.waiter, cfg, key, responses, supersedable, firstTime, |responses|);
    Received(s.(waiter := q.waiter), if q.failure.None? then Ok(d) else Err(S.QueueFailed(q.failure.value)))
  }

  function Superseded(s: State, key: Key): State {
    s.(waiter := SupersedeStale(s.waiter, key.peer, key))
  }

  function Repeated(s: State, cfg: Settings, key: Key, frame: Bytes, answer: P.Answer, commitId: Option<string>): Received
    requires cfg.transactionSpace > 0
  {
    if answer.request != frame then Received(Confirm(s, key.peer, commitId, false), Ok(S.ConflictFound))
    else
      var cleared := Superseded(s, key);
      if S.IsSend(frame) && commitId.Some? then
        Received(Confirm(cleared, key.peer, commitId, S.WasStored(answer.responses)), Ok(S.Replayed))
      else
        Respond(Confirm(cleared, key.peer, commitId, true), cfg, key, answer.responses, !S.IsSend(frame), false, S.Replayed)
  }

  function Executed(s: State, cfg: Settings, key: Key, frame: Bytes, responses: seq<Bytes>, commitId: Option<string>, now: nat)
    : Received
    requires cfg.transactionSpace > 0
  {
    var kept := Superseded(s, key).(cache := P.Remember(s.cache, cfg.limits, key, frame, responses, now),
                                    trail := s.trail + [RP.Store(key, frame, responses, now)]);
    if S.IsSend(frame) && commitId.Some? then
      Received(Confirm(kept, key.peer, commitId, S.WasStored(responses)), Ok(S.Completed))
    else
      Respond(kept, cfg, key, responses, !S.IsSend(frame), true, S.Completed)
  }

  // A cursor in a new GET_NEW_MESSAGES is honoured before Core runs.
  function Reconciled(s: State, key: Key, request: C.Object): State
    requires B.ValidPeer(key.peer)
  {
    if request.GetNewMessages? then
      s.(waiter := Reconcile(s.waiter, key.peer, S.CallsignOf(key.peer), request.since))
    else s
  }

  function Execute(s: State, cfg: Settings, key: Key, frame: Bytes, request: C.Object, env: S.Env, commitId: Option<string>): Received
    requires B.ValidPeer(key.peer) && cfg.transactionSpace > 0
  {
    var confirmed := if request.SendMessage? then s else Confirm(s, key.peer, commitId, true);
    if !IsCallsign(S.CallsignOf(key.peer)) then Received(confirmed, Err(S.BadCaller))
    else
      var ready := Reconciled(confirmed, key, request);
      var h := Core.HandleFrame(ready.core, cfg.board, S.CallsignOf(key.peer), frame, env.clock, env.text);
      match h.frames
      case Err(e) => Received(ready.(core := h.state), Err(S.CoreFailed(e)))
      case Ok(responses) => Executed(ready.(core := h.state), cfg, key, frame, responses, commitId, env.now)
  }

  function Assembled(s: State, cfg: Settings, key: Key, frame: Bytes, env: S.Env, commitId: Option<string>): Received
    requires B.ValidPeer(key.peer) && cfg.transactionSpace > 0
  {
    var found := P.Recall(s.cache, cfg.limits, key, env.now);
    var looked := s.(cache := found.cache, trail := s.trail + [RP.Lookup(key, env.now)]);
    if found.answer.Some? then Repeated(looked, cfg, key, frame, found.answer.value, commitId)
    else match C.DecodeFrame(frame)
      case Err(_) => Received(looked, Err(S.Unreadable))
      case Ok(request) =>
        if !S.IsRequest(request) then Received(Confirm(looked, key.peer, commitId, false), Ok(S.InvalidFound))
        else Execute(looked, cfg, key, frame, request, env, commitId)
  }

  function Collect(s: State, cfg: Settings, peer: string, f: Fragment, env: S.Env, commitId: Option<string>): Received
    requires cfg.bounds.Valid() && B.ValidPeer(peer) && cfg.transactionSpace > 0
  {
    var added := R.Add(s.table, cfg.bounds, peer, f, env.now);
    var held := s.(table := added.table);
    match added.result
    case Conflict => Received(Confirm(held, peer, commitId, false), Ok(S.ConflictFound))
    case Invalid => Received(Confirm(held, peer, commitId, false), Ok(S.InvalidFound))
    case Waiting => Received(Confirm(held, peer, commitId, true), Ok(S.FragmentHeld))
    case Complete(frame) => Assembled(held, cfg, R.Key(peer, f.transactionId), frame, env, commitId)
  }

  // Packets with an ordinary message id are acknowledged at once; a commit id
  // is answered by what becomes of the packet.
  function Receive(s: State, cfg: Settings, peer: string, body: string, env: S.Env): Received
    requires cfg.bounds.Valid() && cfg.transactionSpace > 0
  {
    if !B.ValidPeer(peer) then Received(s, Ok(S.Ignored))
    else if S.IsPacketAck(body) then
      match FindPending(s.waiter.pending, peer, body[3..])
      case None => Received(s, Ok(S.Ignored))
      case Some(p) => Received(s.(waiter := Acknowledge(s.waiter, p)), Ok(S.Acknowledged))
    else
      var id, commitId := S.MessageId(body), S.CommitId(body);
      var heard := if commitId.None? then Confirm(s, peer, id, true) else s;
      match ParseFragment(body)
      case Err(_) => Received(Confirm(heard, peer, commitId, false), Ok(S.Ignored))
      case Ok(f) => Collect(heard, cfg, peer, f, env, commitId)
  }

  datatype PollResult = PollResult(state: State, packets: seq<B.Packet>)

  function Poll(s: State, cfg: Settings, now: nat): PollResult {
    var polled := PollWaiter(s.waiter, cfg, now);
    PollResult(
      s.(waiter := polled.waiter, immediate := [],
         table := R.Expired(s.table, cfg.bounds.ttl, now), cache := P.Aged(s.cache, cfg.limits.ttl, now),
         trail := s.trail + [RP.Sweep(now)]),
      s.immediate + polled.packets)
  }

  // Losing the connection abandons every outbound delivery, and nothing else.
  function ConnectionLost(s: State): State {
    s.(waiter := s.waiter.(queue := [], pending := [],
                           calls := s.waiter.calls + [Report(true, Deliveries(s.waiter))]),
       immediate := [])
  }

  function Deliveries(w: Waiter): set<B.Delivery> {
    set x | x in LiveItems(w) && x.delivery.Some? :: x.delivery.value
  }
}
