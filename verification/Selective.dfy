// The selective-burst adapter: control messages, fragments, replayed and
// executed requests, repair requests, and polling.
module Selective {
  import opened Prelude
  import opened Text
  import opened Ordered
  import opened Carriage
  import opened Control
  import opened Burst
  import R = Reassembly
  import P = Replay
  import RP = ReplayProofs
  import C = Codec
  import Core
  import BR = BurstRuns

  type Key = R.Key

  // What the receiver has seen of one inbound transaction.
  datatype Progress = Progress(total: int, received: set<int>, deadline: nat, sawFinal: bool)

  type Tracker = OrderedDict<Key, Progress>

  datatype Settings = Settings(
    policy: Policy,
    bounds: R.Bounds,
    limits: P.Limits,
    repairGrace: nat,
    finalGrace: nat,
    board: Core.Board)
  {
    predicate Valid() {
      policy.Valid() && bounds.Valid() && limits.Valid() && repairGrace > 0 && finalGrace > 0
    }
  }

  // `trail` records every use made of the replay cache; its Store events are
  // the requests Core has executed.
  datatype State = State(
    sender: Sender,
    tracker: Tracker,
    table: R.Table,
    cache: P.Cache,
    immediate: seq<Packet>,
    core: Core.State,
    trail: seq<RP.Event>)

  // The clocks and the wording of a possible error, as one call sees them.
  datatype Env = Env(now: nat, clock: int, text: Core.PlainText)

  datatype Disposition =
    | Ignored | Acknowledged | RepairRequested | FragmentHeld | ConflictFound | InvalidFound | Completed | Replayed

  // The exceptions that escape a call. `Unsendable`: no A2, N2 or S2 can carry
  // the transaction id.
  datatype Failure =
    | BadCaller | Unreadable | CoreFailed(raised: Core.Raised) | QueueFailed(error: QueueError) | Unsendable

  datatype Received = Received(state: State, outcome: Result<Disposition, Failure>)

  // ------------------------------------------------------- repair bookkeeping

  function Grace(cfg: Settings, sawFinal: bool): nat {
    var grace := if sawFinal then cfg.finalGrace else cfg.repairGrace;
    if grace <= cfg.repairGrace then grace else cfg.repairGrace
  }

  function Noted(t: Tracker, cfg: Settings, key: Key, f: Fragment, now: nat): Tracker {
    var before := if key in t.items && t.items[key].total == f.total then t.items[key] else Progress(f.total, {}, 0, false);
    var sawFinal := before.sawFinal || f.index == f.total - 1;
    Put(t, key, Progress(f.total, before.received + {f.index}, now + Grace(cfg, sawFinal), sawFinal))
  }

  function Unheard(p: Progress): set<nat> {
    set i | i in Upto(if p.total < 0 then 0 else p.total) && i !in p.received
  }

  // The control messages carry ids of one byte; a Q1 fragment may name others.
  predicate OneByteId(key: Key) {
    TransactionByte(key.transactionId).Ok?
  }

  function AckPacket(key: Key): Packet
    requires OneByteId(key)
  {
    Packet(key.peer, EncodeAck(key.transactionId).value)
  }

  function StoredPacket(key: Key): Packet
    requires OneByteId(key)
  {
    Packet(key.peer, EncodeStored(key.transactionId).value)
  }

  function MissingPacket(key: Key, missing: set<nat>): Packet
    requires EncodeMissing(key.transactionId, missing).Ok?
  {
    Packet(key.peer, EncodeMissing(key.transactionId, missing).value)
  }

  // `raised`: a repair request could not be encoded, and nothing was done after.
  datatype Nudged = Nudged(tracker: Tracker, packets: seq<Packet>, raised: bool)

  function NudgeOne(t: Tracker, cfg: Settings, key: Key, now: nat): Nudged {
    if key !in t.items || now < t.items[key].deadline then Nudged(t, [], false)
    else
      var p := t.items[key];
      if Unheard(p) == {} then Nudged(Delete(t, key), [], false)
      else if EncodeMissing(key.transactionId, Unheard(p)).Err? then Nudged(t, [], true)
      else
        Nudged(Put(t, key, p.(deadline := now + Grace(cfg, p.sawFinal))), [MissingPacket(key, Unheard(p))], false)
  }

  // The first n of the transactions tracked when the poll began.
  function Nudge(t: Tracker, cfg: Settings, keys: seq<Key>, now: nat, n: nat): Nudged
    requires n <= |keys|
  {
    if n == 0 then Nudged(t, [], false)
    else
      var before := Nudge(t, cfg, keys, now, n - 1);
      if before.raised then before
      else
        var one := NudgeOne(before.tracker, cfg, keys[n - 1], now);
        Nudged(one.tracker, before.packets + one.packets, one.raised)
  }

  // ----------------------------------------------------------------- controls

  function HandleControl(s: State, peer: string, control: Control): Received {
    match InFlight(s.sender, peer, control.transactionId)
    case None => Received(s, Ok(Ignored))
    case Some(b) =>
      match control
      case Ack(id) => Received(s.(sender := BR.Acknowledge(s.sender, peer, id)), Ok(Acknowledged))
      case Missing(id, indices) =>
        if Wanted(b, indices) == {} then Received(s, Ok(Ignored))
        else Received(s.(sender := BR.Repair(s.sender, peer, id, indices)), Ok(RepairRequested))
  }

  // --------------------------------------------------------- replayed answers

  function Consulted(s: State, cfg: Settings, key: Key, now: nat): State {
    s.(cache := P.Recall(s.cache, cfg.limits, key, now).cache, trail := s.trail + [RP.Lookup(key, now)])
  }

  predicate IsSend(frame: Bytes) {
    C.DecodeFrame(frame).Ok? && C.DecodeFrame(frame).value.SendMessage?
  }

  predicate WasStored(responses: seq<Bytes>) {
    |responses| == 1 && C.DecodeFrame(responses[0]) == Ok(C.Stored)
  }

  // A durable send needs no more than S2: its response bursts are dropped.
  function Compact(s: State, cfg: Settings, key: Key, now: nat): State
    requires OneByteId(key)
  {
    var found := P.Recall(s.cache, cfg.limits, key, now).answer;
    var looked := Consulted(s, cfg, key, now);
    if found.None? || !IsSend(found.value.request) || !WasStored(found.value.responses) then looked
    else
      looked.(sender := CompactBatch(looked.sender, key), immediate := looked.immediate + [StoredPacket(key)])
  }

  function ConfirmReceipt(s: State, cfg: Settings, key: Key, now: nat): State
    requires OneByteId(key)
  {
    Compact(s.(immediate := s.immediate + [AckPacket(key)]), cfg, key, now)
  }

  // ------------------------------------------------------- completed requests

  function Rejected(s: State, peer: string, commitId: Option<string>): State {
    match commitId
    case None => s
    case Some(id) => s.(immediate := s.immediate + [Packet(peer, "rej" + id)])
  }

  function DeliveryIn(response: Bytes): Option<Delivery> {
    match C.DecodeFrame(response)
    case Ok(Message(sequence, _, _, _, recipient, _)) => if sequence < 0 then None else Some(Delivery(recipient, sequence))
    case _ => None
  }

  function ResponseRequest(key: Key, response: Bytes, supersedable: bool, firstTime: bool): Request {
    Request(key.peer, response, false, if firstTime then DeliveryIn(response) else None, Some(key), supersedable)
  }

  datatype QueuedAll = QueuedAll(sender: Sender, failure: Option<QueueError>)

  // The first n responses; the first refusal ends it.
  function QueueAll(s: Sender, p: Policy, key: Key, responses: seq<Bytes>, supersedable: bool, firstTime: bool, n: nat): QueuedAll
    requires n <= |responses|
  {
    if n == 0 then QueuedAll(s, None)
    else
      var before := QueueAll(s, p, key, responses, supersedable, firstTime, n - 1);
      if before.failure.Some? then before
      else
        var q := QueueFrame(before.sender, p, ResponseRequest(key, responses[n - 1], supersedable, firstTime));
        QueuedAll(q.sender, if q.result.Ok? then None else Some(q.result.error))
  }

  function Respond(s: State, cfg: Settings, key: Key, responses: seq<Bytes>, supersedable: bool, firstTime: bool, d: Disposition)
    : Received
  {
    var q := QueueAll(s.sender, cfg.policy, key, responses, supersedable, firstTime, |responses|);
    Received(s.(sender := q.sender), if q.failure.None? then Ok(d) else Err(QueueFailed(q.failure.value)))
  }

  function CallsignOf(peer: string): Bytes
    requires ValidPeer(peer)
  {
    var base := BaseOf(peer);
    seq(|base|, i requires 0 <= i < |base| => base[i] as int)
  }

  // The answer of a request Core has executed: remembered, then sent, except
  // that a committed send is answered by its acknowledgement alone.
  function Executed(s: State, cfg: Settings, key: Key, frame: Bytes, responses: seq<Bytes>, commitId: Option<string>, now: nat)
    : Received
  {
    var kept := s.(sender := SupersedeStale(s.sender, key.peer, key),
                   cache := P.Remember(s.cache, cfg.limits, key, frame, responses, now),
                   trail := s.trail + [RP.Store(key, frame, responses, now)]);
    if IsSend(frame) && commitId.Some? then
      Received(if WasStored(responses) then kept else Rejected(kept, key.peer, commitId), Ok(Completed))
    else
      Respond(kept, cfg, key, responses, !IsSend(frame), true, Completed)
  }

  function Execute(s: State, cfg: Settings, key: Key, frame: Bytes, env: Env, commitId: Option<string>): Received
    requires ValidPeer(key.peer)
  {
    if !IsCallsign(CallsignOf(key.peer)) then Received(s, Err(BadCaller))
    else
      var h := Core.HandleFrame(s.core, cfg.board, CallsignOf(key.peer), frame, env.clock, env.text);
      match h.frames
      case Err(e) => Received(s.(core := h.state), Err(CoreFailed(e)))
      case Ok(responses) => Executed(s.(core := h.state), cfg, key, frame, responses, commitId, env.now)
  }

  predicate IsRequest(o: C.Object) {
    o.SendMessage? || o.GetNewMessages? || o.GetNewBulletins? || o.GetBulletin? || o.GetCapabilities? || o.GetMessage?
  }

  // A repetition the guard let through; the guard lets none through.
  function Repeated(s: State, cfg: Settings, key: Key, frame: Bytes, answer: P.Answer, commitId: Option<string>): Received {
    if answer.request != frame then Received(Rejected(s, key.peer, commitId), Ok(ConflictFound))
    else
      var cleared := s.(sender := SupersedeStale(s.sender, key.peer, key));
      if IsSend(frame) && commitId.Some? then
        Received(if WasStored(answer.responses) then cleared else Rejected(cleared, key.peer, commitId), Ok(Replayed))
      else
        Respond(cleared, cfg, key, answer.responses, !IsSend(frame), false, Replayed)
  }

  function Assembled(s: State, cfg: Settings, key: Key, frame: Bytes, env: Env, commitId: Option<string>): Received
    requires ValidPeer(key.peer)
  {
    var found := P.Recall(s.cache, cfg.limits, key, env.now).answer;
    var looked := Consulted(s, cfg, key, env.now);
    if found.Some? then Repeated(looked, cfg, key, frame, found.value, commitId)
    else match C.DecodeFrame(frame)
      case Err(_) => Received(looked, Err(Unreadable))
      case Ok(request) =>
        if !IsRequest(request) then Received(Rejected(looked, key.peer, commitId), Ok(InvalidFound))
        else Execute(looked, cfg, key, frame, env, commitId)
  }

  // ---------------------------------------------------------------- fragments

  function Collect(s: State, cfg: Settings, peer: string, f: Fragment, env: Env, commitId: Option<string>): Received
    requires cfg.Valid() && ValidPeer(peer)
  {
    var added := R.Add(s.table, cfg.bounds, peer, f, env.now);
    var held := s.(table := added.table);
    match added.result
    case Conflict => Received(Rejected(held, peer, commitId), Ok(ConflictFound))
    case Invalid => Received(Rejected(held, peer, commitId), Ok(InvalidFound))
    case Waiting => Received(held, Ok(FragmentHeld))
    case Complete(frame) => Assembled(held, cfg, R.Key(peer, f.transactionId), frame, env, commitId)
  }

  function Forgotten(s: State, key: Key): State {
    s.(tracker := Delete(s.tracker, key))
  }

  // What the disposition of a fragment entails for its transaction. When no A2
  // can be encoded the call ends there, the repair record left as it is.
  function Settled(r: Received, cfg: Settings, key: Key, now: nat): Received {
    match r.outcome
    case Err(_) => r
    case Ok(FragmentHeld) => r
    case Ok(d) =>
      if d == Completed || d == Replayed then
        if OneByteId(key) then r.(state := Forgotten(ConfirmReceipt(r.state, cfg, key, now), key))
        else r.(outcome := Err(Unsendable))
      else if d == InvalidFound || d == ConflictFound then r.(state := Forgotten(r.state, key))
      else r
  }

  function MessageId(body: string): Option<string> {
    var id := SplitMessageId(body).1;
    if id.Some? && IsMessageId(id.value) then id else None
  }

  // The message id of a body that asks for a commit acknowledgement.
  function CommitId(body: string): Option<string> {
    var id := MessageId(body);
    if id.Some? && StartsWith(id.value, "C") then id else None
  }

  function HandleFragment(s: State, cfg: Settings, peer: string, f: Fragment, env: Env, commitId: Option<string>): Received
    requires cfg.Valid() && ValidPeer(peer)
  {
    var key := R.Key(peer, f.transactionId);
    var noted := s.(tracker := Noted(s.tracker, cfg, key, f, env.now));
    Settled(Collect(noted, cfg, peer, f, env, commitId), cfg, key, env.now)
  }

  // An APRS acknowledgement of a single packet; this adapter awaits none.
  predicate IsPacketAck(body: string) {
    StartsWith(body, "ack") && IsMessageId(body[3..])
  }

  function Unguarded(s: State, cfg: Settings, peer: string, body: string, env: Env): Received
    requires cfg.Valid()
  {
    if !ValidPeer(peer) then Received(s, Ok(Ignored))
    else match ParseControl(body)
      case Some(control) => HandleControl(s, peer, control)
      case None =>
        match ParseFragment(body)
        case Err(_) => Received(if IsPacketAck(body) then s else Rejected(s, peer, CommitId(body)), Ok(Ignored))
        case Ok(f) => HandleFragment(s, cfg, peer, f, env, CommitId(body))
  }

  // A fragment of an answered transaction only repeats the acknowledgement.
  function Receive(s: State, cfg: Settings, peer: string, body: string, env: Env): Received
    requires cfg.Valid()
  {
    if !ValidPeer(peer) || ParseFragment(body).Err? then Unguarded(s, cfg, peer, body, env)
    else
      var key := R.Key(peer, ParseFragment(body).value.transactionId);
      var looked := Consulted(s, cfg, key, env.now);
      if P.Recall(s.cache, cfg.limits, key, env.now).answer.Some? then
        if OneByteId(key) then Received(ConfirmReceipt(Forgotten(looked, key), cfg, key, env.now), Ok(Replayed))
        else Received(Forgotten(looked, key), Err(Unsendable))
      else
        Unguarded(looked, cfg, peer, body, env)
  }

  // ------------------------------------------------------ polling, deliveries

  datatype PollResult = PollResult(state: State, packets: Result<seq<Packet>, Failure>)

  // A repair request that cannot be encoded ends the poll before any burst is
  // looked at, and what was waiting to be sent at once is lost with it.
  function Poll(s: State, cfg: Settings, now: nat): PollResult {
    var nudged := Nudge(s.tracker, cfg, s.tracker.order, now, |s.tracker.order|);
    if nudged.raised then PollResult(s.(tracker := nudged.tracker, immediate := []), Err(Unsendable))
    else
      var sender := PollSender(s.sender, cfg.policy, now);
      PollResult(
        s.(sender := sender, tracker := nudged.tracker, immediate := [],
           table := R.Expired(s.table, cfg.bounds.ttl, now),
           cache := P.Aged(s.cache, cfg.limits.ttl, now), trail := s.trail + [RP.Sweep(now)]),
        Ok(s.immediate + nudged.packets + Emitted(sender.journal, |s.sender.journal|)))
  }

  datatype Delivered = Delivered(state: State, result: Result<string, QueueError>)

  // A routed message, sent unasked to the endpoint its recipient uses.
  function Deliver(s: State, cfg: Settings, endpoint: string, message: C.Object): Delivered
    requires message.Message? && message.sequence >= 0
  {
    match C.EncodeFrame(message, true)
    case Err(_) => Delivered(s, Err(Unframeable))
    case Ok(frame) =>
      var q := QueueFrame(s.sender, cfg.policy,
                          Request(endpoint, frame, true, Some(Delivery(message.recipient, message.sequence)), None, true));
      Delivered(s.(sender := q.sender), q.result)
  }
}
