// The stop-and-wait adapter as a whole: everything that arrives keeps the
// transmit side's invariant, and a client's cursor is honoured.
module StopAndWaitReceive {
  import opened Prelude
  import opened Text
  import opened Carriage
  import opened StopAndWait
  import opened StopAndWaitProofs
  import opened StopAndWaitRuns
  import B = Burst
  import S = Selective
  import R = Reassembly
  import P = Replay
  import RP = ReplayProofs
  import C = Codec
  import Core
  import CP = CoreProofs
  import M = Mailbox
  import MP = MailboxProofs

  // ------------------------------------------------ what queuing adds

  // Every live piece was live before or belongs to one of the deliveries.
  ghost predicate AddsOnly(w: Waiter, t: Waiter, deliveries: set<Option<B.Delivery>>) {
    forall x :: x in LiveItems(t) ==> x in LiveItems(w) || x.delivery in deliveries
  }

  lemma QueueFrameAdds(w: Waiter, cfg: Settings, r: B.Request)
    requires Inv(w, cfg) && cfg.Valid() && cfg.queueCapacity < MESSAGE_IDS && (r.batch.Some? ==> r.batch.value.peer == r.peer)
    ensures AddsOnly(w, QueueFrame(w, cfg, r).waiter, {r.delivery})
  {
    hide Inv, SearchId, TransactionTaken, Cut, PushAll, PushedOk, B.ValidPeer, Settings.Valid, LiveItems;
    SearchSpace(cfg);
    QueueFrameKeepsInv(w, cfg, r);
    var q := QueueFrame(w, cfg, r);
    if q.result.Err? {
      SameLive(w, q.waiter);
    } else {
      SearchIdIs(w, r.peer, cfg.transactionSpace, Counter(w.nextId, r.peer), cfg.transactionSpace);
      var found := SearchId(w, r.peer, cfg.transactionSpace, Counter(w.nextId, r.peer), cfg.transactionSpace);
      var counted := w.(nextId := w.nextId[r.peer := found.next]);
      var chunks := Cut(cfg, r.frame).value;
      SameLive(w, counted);
      SameLiveInv(w, cfg, counted);
      ChunksCarry(cfg, r.frame);
      SameTransactions(w, counted, r.peer, found.id.value);
      InvPending(counted, cfg);
      PushAllOk(counted, cfg, r, found.id.value, chunks, |chunks|);
      forall x | x in LiveItems(q.waiter)
        ensures x in LiveItems(w) || x.delivery == r.delivery
      {
        NewPiece(counted, r, found.id.value, chunks, q.waiter, x);
      }
    }
  }

  function DeliveriesOf(key: Key, responses: seq<Bytes>, firstTime: bool, n: nat): set<Option<B.Delivery>>
    requires n <= |responses|
  {
    if n == 0 then {}
    else
      DeliveriesOf(key, responses, firstTime, n - 1) + {if firstTime then S.DeliveryIn(responses[n - 1]) else None}
  }

  lemma {:induction false} QueueAllKeeps(w: Waiter, cfg: Settings, key: Key, responses: seq<Bytes>, supersedable: bool, firstTime: bool, n: nat)
    requires Inv(w, cfg) && Fits(cfg) && n <= |responses|
    ensures var t := QueueAll(w, cfg, key, responses, supersedable, firstTime, n).waiter;
            Inv(t, cfg) && AddsOnly(w, t, DeliveriesOf(key, responses, firstTime, n))
  {
    hide Inv, QueueFrame, LiveItems, S.DeliveryIn, Settings.Valid;
    SearchSpace(cfg);
    if n == 0 {
    } else {
      QueueAllKeeps(w, cfg, key, responses, supersedable, firstTime, n - 1);
      var before := QueueAll(w, cfg, key, responses, supersedable, firstTime, n - 1).waiter;
      var r := S.ResponseRequest(key, responses[n - 1], supersedable, firstTime);
      QueueFrameKeepsInv(before, cfg, r);
      QueueFrameAdds(before, cfg, r);
      AddsTogether(w, before, QueueFrame(before, cfg, r).waiter, key, responses, firstTime, n);
    }
  }

  lemma AddsTogether(w: Waiter, t: Waiter, u: Waiter, key: Key, responses: seq<Bytes>, firstTime: bool, n: nat)
    requires 0 < n <= |responses| && AddsOnly(w, t, DeliveriesOf(key, responses, firstTime, n - 1))
    requires AddsOnly(t, u, {if firstTime then S.DeliveryIn(responses[n - 1]) else None})
    ensures AddsOnly(w, u, DeliveriesOf(key, responses, firstTime, n))
  {
    hide LiveItems, S.DeliveryIn;
  }

  // -------------------------------------------- the invariant, on every path

  lemma RespondKeepsInv(s: State, cfg: Settings, key: Key, responses: seq<Bytes>, supersedable: bool, firstTime: bool, d: S.Disposition)
    requires Inv(s.waiter, cfg) && Fits(cfg) && cfg.transactionSpace > 0
    ensures Inv(Respond(s, cfg, key, responses, supersedable, firstTime, d).state.waiter, cfg)
  {
    hide Inv, QueueAll, Fits;
    QueueAllKeeps(s.waiter, cfg, key, responses, supersedable, firstTime, |responses|);
  }

  lemma ConfirmKeeps(s: State, peer: string, id: Option<string>, accepted: bool)
    ensures Confirm(s, peer, id, accepted).waiter == s.waiter
  {
  }

  lemma RepeatedKeepsInv(s: State, cfg: Settings, key: Key, frame: Bytes, answer: P.Answer, commitId: Option<string>)
    requires Inv(s.waiter, cfg) && Fits(cfg) && cfg.transactionSpace > 0
    ensures Inv(Repeated(s, cfg, key, frame, answer, commitId).state.waiter, cfg)
  {
    hide Inv, Fits, SupersedeStale, Respond, S.IsSend, S.WasStored;
    SupersedeKeepsInv(s.waiter, cfg, key.peer, key);
    RespondKeepsInv(Confirm(Superseded(s, key), key.peer, commitId, true), cfg, key, answer.responses, !S.IsSend(frame), false, S.Replayed);
  }

  lemma ExecutedKeepsInv(s: State, cfg: Settings, key: Key, frame: Bytes, responses: seq<Bytes>, commitId: Option<string>, now: nat)
    requires Inv(s.waiter, cfg) && Fits(cfg) && cfg.transactionSpace > 0
    ensures Inv(Executed(s, cfg, key, frame, responses, commitId, now).state.waiter, cfg)
  {
    hide Inv, Fits, SupersedeStale, Respond, S.IsSend, S.WasStored, P.Remember;
    SupersedeKeepsInv(s.waiter, cfg, key.peer, key);
    var kept := Superseded(s, key).(cache := P.Remember(s.cache, cfg.limits, key, frame, responses, now),
                                    trail := s.trail + [RP.Store(key, frame, responses, now)]);
    RespondKeepsInv(kept, cfg, key, responses, !S.IsSend(frame), true, S.Completed);
  }

  lemma ReconciledKeepsInv(s: State, cfg: Settings, key: Key, request: C.Object)
    requires Inv(s.waiter, cfg) && B.ValidPeer(key.peer)
    ensures Inv(Reconciled(s, key, request).waiter, cfg)
  {
    hide Inv, Reconcile, B.ValidPeer, S.CallsignOf, LiveItems;
    if request.GetNewMessages? {
      CursorIsHonoured(s.waiter, cfg, key.peer, S.CallsignOf(key.peer), request.since);
    }
  }

  lemma ExecuteKeepsInv(s: State, cfg: Settings, key: Key, frame: Bytes, request: C.Object, env: S.Env, commitId: Option<string>)
    requires Inv(s.waiter, cfg) && Fits(cfg) && cfg.transactionSpace > 0 && B.ValidPeer(key.peer)
    ensures Inv(Execute(s, cfg, key, frame, request, env, commitId).state.waiter, cfg)
  {
    hide Inv, Fits, Executed, Core.HandleFrame, S.CallsignOf, IsCallsign, B.ValidPeer, Reconciled;
    var confirmed := if request.SendMessage? then s else Confirm(s, key.peer, commitId, true);
    ConfirmKeeps(s, key.peer, commitId, true);
    ReconciledKeepsInv(confirmed, cfg, key, request);
    var ready := Reconciled(confirmed, key, request);
    var h := Core.HandleFrame(ready.core, cfg.board, S.CallsignOf(key.peer), frame, env.clock, env.text);
    if h.frames.Ok? {
      ExecutedKeepsInv(ready.(core := h.state), cfg, key, frame, h.frames.value, commitId, env.now);
    }
  }

  lemma AssembledKeepsInv(s: State, cfg: Settings, key: Key, frame: Bytes, env: S.Env, commitId: Option<string>)
    requires Inv(s.waiter, cfg) && Fits(cfg) && cfg.transactionSpace > 0 && B.ValidPeer(key.peer)
    ensures Inv(Assembled(s, cfg, key, frame, env, commitId).state.waiter, cfg)
  {
    hide Inv, Fits, Execute, Repeated, P.Recall, C.DecodeFrame, S.IsRequest, B.ValidPeer;
    var found := P.Recall(s.cache, cfg.limits, key, env.now);
    var looked := s.(cache := found.cache, trail := s.trail + [RP.Lookup(key, env.now)]);
    ConfirmKeeps(looked, key.peer, commitId, false);
    if found.answer.Some? {
      RepeatedKeepsInv(looked, cfg, key, frame, found.answer.value, commitId);
    } else if C.DecodeFrame(frame).Ok? {
      ExecuteKeepsInv(looked, cfg, key, frame, C.DecodeFrame(frame).value, env, commitId);
    }
  }

  lemma ReceiveKeepsInv(s: State, cfg: Settings, peer: string, body: string, env: S.Env)
    requires Inv(s.waiter, cfg) && Fits(cfg) && cfg.bounds.Valid() && cfg.transactionSpace > 0
    ensures Inv(Receive(s, cfg, peer, body, env).state.waiter, cfg)
  {
    hide Inv, Fits, Assembled, ParseFragment, R.Add, B.ValidPeer, IsMessageId, S.MessageId, S.CommitId;
    hide Acknowledge, FindPending, R.Bounds.Valid;
    if B.ValidPeer(peer) {
      if S.IsPacketAck(body) {
        var p := FindPending(s.waiter.pending, peer, body[3..]);
        if p.Some? {
          AckKeepsInv(s.waiter, cfg, p.value);
        }
      } else if ParseFragment(body).Ok? {
        var f := ParseFragment(body).value;
        var heard := if S.CommitId(body).None? then Confirm(s, peer, S.MessageId(body), true) else s;
        var added := R.Add(heard.table, cfg.bounds, peer, f, env.now);
        if added.result.Complete? {
          AssembledKeepsInv(heard.(table := added.table), cfg, R.Key(peer, f.transactionId), added.result.frame, env, S.CommitId(body));
        }
      }
    }
  }

  // ----------------------------------------------------------- whole adapter

  datatype AdapterEvent =
    | Arrive(peer: string, body: string, env: S.Env)
    | Tick(now: nat)
    | Route(request: B.Request)
    | Lost

  // Frames are routed to an endpoint outside any response batch.
  predicate ValidAdapterEvent(e: AdapterEvent) {
    e.Route? ==> e.request.batch.None?
  }

  function AdapterStep(s: State, cfg: Settings, e: AdapterEvent): State
    requires cfg.bounds.Valid() && cfg.transactionSpace > 0
  {
    match e
    case Arrive(peer, body, env) => Receive(s, cfg, peer, body, env).state
    case Tick(now) => Poll(s, cfg, now).state
    case Route(request) => s.(waiter := QueueFrame(s.waiter, cfg, request).waiter)
    case Lost => ConnectionLost(s)
  }

  function AdapterAfter(s: State, cfg: Settings, events: seq<AdapterEvent>, n: nat): State
    requires cfg.bounds.Valid() && cfg.transactionSpace > 0 && n <= |events|
  {
    if n == 0 then s else AdapterStep(AdapterAfter(s, cfg, events, n - 1), cfg, events[n - 1])
  }

  lemma AdapterStepKeepsInv(s: State, cfg: Settings, e: AdapterEvent)
    requires Inv(s.waiter, cfg) && Fits(cfg) && cfg.bounds.Valid() && cfg.transactionSpace > 0 && ValidAdapterEvent(e)
    ensures Inv(AdapterStep(s, cfg, e).waiter, cfg)
  {
    hide Inv, Receive, PollWaiter, QueueFrame, R.Bounds.Valid, Settings.Valid, Deliveries;
    match e
    case Arrive(peer, body, env) => ReceiveKeepsInv(s, cfg, peer, body, env);
    case Tick(now) =>
      Attempts(cfg);
      PollKeepsInv(s.waiter, cfg, now);
    case Route(request) => QueueFrameKeepsInv(s.waiter, cfg, request);
    case Lost => LostKeepsInv(s.waiter, cfg);
  }

  lemma Attempts(cfg: Settings)
    requires cfg.Valid()
    ensures cfg.maxAttempts > 0
  {
  }

  // On every run of arrivals, polls, deliveries and lost connections.
  lemma {:induction false} AdapterKeepsInv(s: State, cfg: Settings, events: seq<AdapterEvent>, n: nat)
    requires s.waiter == IDLE && Fits(cfg) && cfg.bounds.Valid() && cfg.transactionSpace > 0
    requires n <= |events| && forall i :: 0 <= i < |events| ==> ValidAdapterEvent(events[i])
    ensures Inv(AdapterAfter(s, cfg, events, n).waiter, cfg)
  {
    hide Inv, AdapterStep, R.Bounds.Valid, Fits;
    if n == 0 {
      IdleInv(cfg);
    } else {
      AdapterKeepsInv(s, cfg, events, n - 1);
      AdapterStepKeepsInv(AdapterAfter(s, cfg, events, n - 1), cfg, events[n - 1]);
    }
  }

  // ----------------------------------------------------- a lost connection

  // The same in everything but what is being sent.
  predicate SameInbound(s: State, t: State) {
    t.table == s.table && t.cache == s.cache && t.core == s.core && t.trail == s.trail
  }

  lemma RespondInbound(s: State, cfg: Settings, key: Key, responses: seq<Bytes>, supersedable: bool, firstTime: bool, d: S.Disposition)
    requires cfg.transactionSpace > 0
    ensures SameInbound(s, Respond(s, cfg, key, responses, supersedable, firstTime, d).state)
  {
    hide QueueAll;
  }

  lemma RepeatedInbound(s: State, t: State, cfg: Settings, key: Key, frame: Bytes, answer: P.Answer, commitId: Option<string>)
    requires cfg.transactionSpace > 0 && SameInbound(s, t)
    ensures SameInbound(s, Repeated(t, cfg, key, frame, answer, commitId).state)
  {
    hide SupersedeStale, Respond, S.IsSend, S.WasStored;
    RespondInbound(Confirm(Superseded(t, key), key.peer, commitId, true), cfg, key, answer.responses, !S.IsSend(frame), false, S.Replayed);
  }

  lemma ExecutedInbound(s: State, t: State, cfg: Settings, key: Key, frame: Bytes, responses: seq<Bytes>,
                        commitId: Option<string>, now: nat)
    requires cfg.transactionSpace > 0 && SameInbound(s, t)
    ensures SameInbound(Executed(s, cfg, key, frame, responses, commitId, now).state,
                        Executed(t, cfg, key, frame, responses, commitId, now).state)
  {
    hide SupersedeStale, Respond, S.IsSend, S.WasStored, P.Remember;
    RespondInbound(Remembered(s, cfg, key, frame, responses, now), cfg, key, responses, !S.IsSend(frame), true, S.Completed);
    RespondInbound(Remembered(t, cfg, key, frame, responses, now), cfg, key, responses, !S.IsSend(frame), true, S.Completed);
  }

  function Remembered(s: State, cfg: Settings, key: Key, frame: Bytes, responses: seq<Bytes>, now: nat): State {
    Superseded(s, key).(cache := P.Remember(s.cache, cfg.limits, key, frame, responses, now),
                        trail := s.trail + [RP.Store(key, frame, responses, now)])
  }

  lemma ExecuteInbound(s: State, t: State, cfg: Settings, key: Key, frame: Bytes, request: C.Object, env: S.Env, commitId: Option<string>)
    requires B.ValidPeer(key.peer) && cfg.transactionSpace > 0 && SameInbound(s, t)
    ensures SameInbound(Execute(s, cfg, key, frame, request, env, commitId).state,
                        Execute(t, cfg, key, frame, request, env, commitId).state)
  {
    hide Executed, Core.HandleFrame, S.CallsignOf, IsCallsign, B.ValidPeer, Reconcile;
    var a := Reconciled(if request.SendMessage? then s else Confirm(s, key.peer, commitId, true), key, request);
    var b := Reconciled(if request.SendMessage? then t else Confirm(t, key.peer, commitId, true), key, request);
    var h := Core.HandleFrame(s.core, cfg.board, S.CallsignOf(key.peer), frame, env.clock, env.text);
    if h.frames.Ok? {
      ExecutedInbound(a.(core := h.state), b.(core := h.state), cfg, key, frame, h.frames.value, commitId, env.now);
    }
  }

  lemma AssembledInbound(s: State, t: State, cfg: Settings, key: Key, frame: Bytes, env: S.Env, commitId: Option<string>)
    requires B.ValidPeer(key.peer) && cfg.transactionSpace > 0 && SameInbound(s, t)
    ensures SameInbound(Assembled(s, cfg, key, frame, env, commitId).state, Assembled(t, cfg, key, frame, env, commitId).state)
  {
    hide P.Recall, Repeated, Execute, C.DecodeFrame, S.IsRequest, B.ValidPeer;
    var found := P.Recall(s.cache, cfg.limits, key, env.now);
    var a := s.(cache := found.cache, trail := s.trail + [RP.Lookup(key, env.now)]);
    var b := t.(cache := found.cache, trail := t.trail + [RP.Lookup(key, env.now)]);
    if found.answer.Some? {
      RepeatedInbound(a, a, cfg, key, frame, found.answer.value, commitId);
      RepeatedInbound(a, b, cfg, key, frame, found.answer.value, commitId);
    } else if C.DecodeFrame(frame).Ok? {
      ExecuteInbound(a, b, cfg, key, frame, C.DecodeFrame(frame).value, env, commitId);
    }
  }

  lemma CollectInbound(s: State, t: State, cfg: Settings, peer: string, f: Fragment, env: S.Env, commitId: Option<string>)
    requires cfg.bounds.Valid() && B.ValidPeer(peer) && cfg.transactionSpace > 0 && SameInbound(s, t)
    ensures SameInbound(Collect(s, cfg, peer, f, env, commitId).state, Collect(t, cfg, peer, f, env, commitId).state)
  {
    hide R.Add, Assembled, B.ValidPeer;
    var added := R.Add(s.table, cfg.bounds, peer, f, env.now);
    if added.result.Complete? {
      var key := R.Key(peer, f.transactionId);
      AssembledInbound(s.(table := added.table), t.(table := added.table), cfg, key, added.result.frame, env, commitId);
    }
  }

  // What arrives is received the same, whatever is being sent meanwhile.
  lemma StepInbound(s: State, t: State, cfg: Settings, e: AdapterEvent)
    requires cfg.bounds.Valid() && cfg.transactionSpace > 0 && SameInbound(s, t)
    ensures SameInbound(AdapterStep(s, cfg, e), AdapterStep(t, cfg, e))
  {
    hide Collect, PollWaiter, QueueFrame, Deliveries, B.ValidPeer, ParseFragment, S.CommitId, S.MessageId;
    hide S.IsPacketAck, Acknowledge, FindPending;
    if e.Arrive? && B.ValidPeer(e.peer) && ParseFragment(e.body).Ok? {
      var unconfirmed := S.CommitId(e.body).None?;
      var a := if unconfirmed then Confirm(s, e.peer, S.MessageId(e.body), true) else s;
      var b := if unconfirmed then Confirm(t, e.peer, S.MessageId(e.body), true) else t;
      CollectInbound(a, b, cfg, e.peer, ParseFragment(e.body).value, e.env, S.CommitId(e.body));
    }
  }

  lemma {:induction false} RunInbound(s: State, t: State, cfg: Settings, events: seq<AdapterEvent>, n: nat)
    requires cfg.bounds.Valid() && cfg.transactionSpace > 0 && SameInbound(s, t) && n <= |events|
    ensures SameInbound(AdapterAfter(s, cfg, events, n), AdapterAfter(t, cfg, events, n))
  {
    hide AdapterStep, SameInbound;
    if n > 0 {
      RunInbound(s, t, cfg, events, n - 1);
      StepInbound(AdapterAfter(s, cfg, events, n - 1), AdapterAfter(t, cfg, events, n - 1), cfg, events[n - 1]);
    }
  }

  // A lost connection ends every outbound delivery, each reported failed once,
  // and touches nothing else: whatever happens afterwards, all that is
  // received, remembered and executed is what it would have been without the
  // loss.
  lemma LossIsOutboundOnly(s: State, cfg: Settings, events: seq<AdapterEvent>, n: nat)
    requires cfg.bounds.Valid() && cfg.transactionSpace > 0 && n <= |events|
    ensures var t := ConnectionLost(s);
            && LiveItems(t.waiter) == {}
            && |t.waiter.calls| == |s.waiter.calls| + 1 && t.waiter.calls[|s.waiter.calls|].failed
            && (forall d :: d in t.waiter.calls[|s.waiter.calls|].deliveries <==>
                  exists x :: x in LiveItems(s.waiter) && x.delivery == Some(d))
            && SameInbound(AdapterAfter(s, cfg, events, n), AdapterAfter(t, cfg, events, n))
  {
    hide AdapterAfter;
    LossFails(s);
    RunInbound(s, ConnectionLost(s), cfg, events, n);
  }

  lemma LossFails(s: State)
    ensures var t := ConnectionLost(s);
            && LiveItems(t.waiter) == {} && SameInbound(s, t)
            && t.waiter.calls == s.waiter.calls + [Report(true, Deliveries(s.waiter))]
    ensures forall d :: d in Deliveries(s.waiter) <==> exists x :: x in LiveItems(s.waiter) && x.delivery == Some(d)
  {
    assert LiveItems(ConnectionLost(s).waiter) == {};
  }

  // ------------------------------------------------------- the client's cursor

  ghost predicate NoneCovered(w: Waiter, peer: string, callsign: Bytes, since: int) {
    forall x :: x in LiveItems(w) ==> !Covered(x, peer, callsign, since)
  }

  // A delivery the cursor does not cover.
  predicate Beyond(d: Option<B.Delivery>, callsign: Bytes, since: int) {
    d.Some? ==> !(d.value.recipient == callsign && d.value.sequence <= since)
  }

  lemma SupersedeAdds(w: Waiter, peer: string, current: Key)
    ensures forall x :: x in LiveItems(SupersedeStale(w, peer, current)) ==> x in LiveItems(w)
  {
    hide LiveItems, Outdated;
    DropLive(w, Outdated(w, peer, current));
  }

  // Core answers a cursor with messages beyond it, and nothing else of a
  // mailbox.
  lemma AnswersAreBeyond(s: Core.State, board: Core.Board, callsign: Bytes, frame: Bytes, clock: int, text: Core.PlainText)
    requires CP.CoreInv(s) && C.DecodeFrame(frame).Ok? && C.DecodeFrame(frame).value.GetNewMessages?
    ensures var h := Core.HandleFrame(s, board, callsign, frame, clock, text);
            h.frames.Ok? ==> forall i :: 0 <= i < |h.frames.value| ==>
              Beyond(S.DeliveryIn(h.frames.value[i]), callsign, C.DecodeFrame(frame).value.since)
  {
    hide CP.CoreInv, C.DecodeFrame, Core.HandleFrame, Core.Answered, CP.ClockFails, S.DeliveryIn;
    var request := C.DecodeFrame(frame).value;
    var h := Core.HandleFrame(s, board, callsign, frame, clock, text);
    CP.HandlingIsClosed(s, board, callsign, frame, clock, text);
    if h.frames.Ok? {
      AnsweredOk(s, board, callsign, frame, clock, text);
      var objects := Core.Answered(s, board, callsign, frame, clock, text).answer.value;
      AnsweredCursor(s, board, callsign, frame, clock, text);
      forall i | 0 <= i < |h.frames.value|
        ensures Beyond(S.DeliveryIn(h.frames.value[i]), callsign, request.since)
      {
        DeliveryDecoded(h.frames.value[i], objects[i], callsign, request.since);
      }
    }
  }

  lemma AnsweredOk(s: Core.State, board: Core.Board, callsign: Bytes, frame: Bytes, clock: int, text: Core.PlainText)
    requires Core.HandleFrame(s, board, callsign, frame, clock, text).frames.Ok?
    ensures Core.Answered(s, board, callsign, frame, clock, text).answer.Ok?
  {
    hide Core.Answered, Core.EncodeAll;
  }

  predicate ObjectBeyond(o: C.Object, callsign: Bytes, since: int) {
    o.Message? ==> o.recipient == callsign && o.sequence > since
  }

  lemma DeliveryDecoded(frame: Bytes, o: C.Object, callsign: Bytes, since: int)
    requires C.DecodeFrame(frame) == Ok(o) && ObjectBeyond(o, callsign, since)
    ensures Beyond(S.DeliveryIn(frame), callsign, since)
  {
    hide C.DecodeFrame;
  }

  lemma AnsweredCursor(s: Core.State, board: Core.Board, callsign: Bytes, frame: Bytes, clock: int, text: Core.PlainText)
    requires CP.CoreInv(s) && C.DecodeFrame(frame).Ok? && C.DecodeFrame(frame).value.GetNewMessages?
    ensures var a := Core.Answered(s, board, callsign, frame, clock, text).answer;
            a.Ok? ==> forall i :: 0 <= i < |a.value| ==> ObjectBeyond(a.value[i], callsign, C.DecodeFrame(frame).value.since)
  {
    hide CP.CoreInv, C.DecodeFrame, Core.HandleGetNewMessages;
    var request := C.DecodeFrame(frame).value;
    CP.DecodedRequest(frame, request);
    CursorAnswer(s, callsign, request.since, request.max);
  }

  lemma CursorAnswer(s: Core.State, callsign: Bytes, since: int, max: int)
    requires CP.CoreInv(s) && M.IsU32(since) && 1 <= max <= M.MAX_LIMIT
    ensures var r := Core.HandleGetNewMessages(s.tables, callsign, since, max);
            r.Ok? ==> forall i :: 0 <= i < |r.value| ==> ObjectBeyond(r.value[i], callsign, since)
  {
    hide CP.CoreInv, M.GetNewMessages, Core.Announce, Core.AnnounceAll, IsCallsign, CP.Encodable, Core.Refusal, MP.Inv;
    CP.GetNewMessagesAnswer(s, callsign, since, max);
    CP.PageFacts(s, callsign, since, max);
    RefusalsAreErrors();
    if IsCallsign(callsign) && since <= M.High(s.tables, callsign) {
      InvOfTables(s);
      PageRows(s.tables, callsign, since, max);
      var page := M.GetNewMessages(s.tables, callsign, since, max).value;
      var r := Core.HandleGetNewMessages(s.tables, callsign, since, max);
      forall i | 0 <= i < |page.messages|
        ensures ObjectBeyond(r.value[i], callsign, since)
      {
        AnnouncedFields(s.tables, page.messages[i]);
      }
    }
  }

  lemma InvOfTables(s: Core.State)
    requires CP.CoreInv(s)
    ensures MP.Inv(s.tables)
  {
  }

  lemma RefusalsAreErrors()
    ensures forall op, code, w :: Core.Refusal(op, code, w).Error?
  {
  }

  lemma AnnouncedFields(t: M.Tables, m: M.Row)
    requires Core.Announce(t, m).Ok?
    ensures var o := Core.Announce(t, m).value;
            o.Message? && o.recipient == m.recipient && o.sequence == m.sequence
  {
    hide M.ConversationSequence;
  }

  lemma PageRows(t: M.Tables, callsign: Bytes, since: nat, max: nat)
    requires MP.Inv(t) && 1 <= max <= M.MAX_LIMIT && since <= M.High(t, callsign)
    ensures var page := M.GetNewMessages(t, callsign, since, max);
            page.Ok? && forall i :: 0 <= i < |page.value.messages| ==>
              page.value.messages[i].recipient == callsign && page.value.messages[i].sequence > since
  {
    hide M.GetNewMessages, MP.Inv;
    MP.PageIsInterval(t, callsign, since, max);
    MP.IntervalShape(t, callsign, since, Min(since + max, M.High(t, callsign)), |t.messages|);
  }

  lemma UncoveredStays(w: Waiter, t: Waiter, peer: string, callsign: Bytes, since: int, deliveries: set<Option<B.Delivery>>)
    requires NoneCovered(w, peer, callsign, since) && AddsOnly(w, t, deliveries)
    requires forall d :: d in deliveries ==> Beyond(d, callsign, since)
    ensures NoneCovered(t, peer, callsign, since)
  {
    hide LiveItems;
  }

  // After a newly executed GET_NEW_MESSAGES since N, no delivery with sequence
  // at most N to that peer's own mailbox is queued or pending, not even among
  // the answers just queued.
  lemma CursorClearsDeliveries(s: State, cfg: Settings, key: Key, frame: Bytes, env: S.Env, commitId: Option<string>)
    requires Inv(s.waiter, cfg) && Fits(cfg) && cfg.transactionSpace > 0 && B.ValidPeer(key.peer)
    requires CP.CoreInv(s.core) && IsCallsign(S.CallsignOf(key.peer))
    requires C.DecodeFrame(frame).Ok? && C.DecodeFrame(frame).value.GetNewMessages?
    ensures var request := C.DecodeFrame(frame).value;
            NoneCovered(Execute(s, cfg, key, frame, request, env, commitId).state.waiter, key.peer, S.CallsignOf(key.peer), request.since)
  {
    hide Inv, Fits, Executed, Core.HandleFrame, S.CallsignOf, IsCallsign, B.ValidPeer, LiveItems, CP.CoreInv;
    hide C.DecodeFrame, Reconcile, Covered, Beyond, S.DeliveryIn;
    var request := C.DecodeFrame(frame).value;
    var callsign := S.CallsignOf(key.peer);
    var confirmed := Confirm(s, key.peer, commitId, true);
    ConfirmKeeps(s, key.peer, commitId, true);
    CursorIsHonoured(s.waiter, cfg, key.peer, callsign, request.since);
    var ready := Reconciled(confirmed, key, request);
    ConfirmKeepsCore(s, key.peer, commitId, true);
    AnswersAreBeyond(ready.core, cfg.board, callsign, frame, env.clock, env.text);
    var h := Core.HandleFrame(ready.core, cfg.board, callsign, frame, env.clock, env.text);
    if h.frames.Ok? {
      ExecutedUncovered(ready.(core := h.state), cfg, key, frame, h.frames.value, commitId, env.now, callsign, request.since);
    }
  }

  lemma ConfirmKeepsCore(s: State, peer: string, id: Option<string>, accepted: bool)
    ensures Confirm(s, peer, id, accepted).core == s.core
  {
  }

  lemma {:induction false} AllBeyond(key: Key, responses: seq<Bytes>, n: nat, callsign: Bytes, since: int)
    requires n <= |responses| && forall i :: 0 <= i < |responses| ==> Beyond(S.DeliveryIn(responses[i]), callsign, since)
    ensures forall d :: d in DeliveriesOf(key, responses, true, n) ==> Beyond(d, callsign, since)
  {
    hide Beyond, S.DeliveryIn;
    if n > 0 {
      AllBeyond(key, responses, n - 1, callsign, since);
    }
  }

  lemma ExecutedUncovered(s: State, cfg: Settings, key: Key, frame: Bytes, responses: seq<Bytes>, commitId: Option<string>, now: nat,
                          callsign: Bytes, since: int)
    requires Inv(s.waiter, cfg) && Fits(cfg) && cfg.transactionSpace > 0 && NoneCovered(s.waiter, key.peer, callsign, since)
    requires forall i :: 0 <= i < |responses| ==> Beyond(S.DeliveryIn(responses[i]), callsign, since)
    ensures NoneCovered(Executed(s, cfg, key, frame, responses, commitId, now).state.waiter, key.peer, callsign, since)
  {
    hide Inv, Fits, LiveItems, SupersedeStale, QueueAll, S.IsSend, S.WasStored, P.Remember, Beyond;
    hide S.DeliveryIn, Covered;
    SupersedeAdds(s.waiter, key.peer, key);
    SupersedeKeepsInv(s.waiter, cfg, key.peer, key);
    var w := SupersedeStale(s.waiter, key.peer, key);
    QueueAllKeeps(w, cfg, key, responses, !S.IsSend(frame), true, |responses|);
    AllBeyond(key, responses, |responses|, callsign, since);
    UncoveredStays(w, QueueAll(w, cfg, key, responses, !S.IsSend(frame), true, |responses|).waiter, key.peer, callsign, since,
                   DeliveriesOf(key, responses, true, |responses|));
  }
}
