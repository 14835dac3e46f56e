// What the stop-and-wait adapter tells a station about each packet, and how an
// executed or repeated request is answered.
module StopAndWaitAnswers {
  import opened Prelude
  import opened Text
  import opened Ordered
  import opened Carriage
  import opened StopAndWait
  import opened StopAndWaitProofs
  import opened StopAndWaitRuns
  import opened StopAndWaitQueuing
  import A = Answers
  import Done = Completions
  import B = Burst
  import BK = Bookkeeping
  import S = Selective
  import R = Reassembly
  import P = Replay
  import RP = ReplayProofs
  import C = Codec
  import Core

  // --------------------------------------------------- acknowledging a packet

  // An APRS acknowledgement ends the packet in flight to its sender under that
  // id: it is not sent again, and Core hears of its delivery if nothing of its
  // frame is left. Any other acknowledgement changes nothing.
  lemma AckEndsPacket(s: State, cfg: Settings, peer: string, id: string, env: S.Env)
    requires Inv(s.waiter, cfg) && cfg.bounds.Valid() && cfg.transactionSpace > 0 && B.ValidPeer(peer) && IsMessageId(id)
    ensures var r := Receive(s, cfg, peer, "ack" + id, env);
            && r.state == s.(waiter := r.state.waiter)
            && (forall p :: p in s.waiter.pending && p.item.peer == peer && IdOf(p.item.fragment) == id ==>
                  r.outcome == Ok(S.Acknowledged) && EndsPacket(s.waiter, r.state.waiter, p))
            && ((forall p :: p in s.waiter.pending && p.item.peer == peer ==> IdOf(p.item.fragment) != id) ==>
                  r == Received(s, Ok(S.Ignored)))
  {
    hide Inv, B.ValidPeer, IsMessageId, Acknowledge, EndsPacket, IdOf, R.Bounds.Valid;
    assert ("ack" + id)[3..] == id;
    PacketAck(id);
    var found := FindPending(s.waiter.pending, peer, id);
    forall p | p in s.waiter.pending && p.item.peer == peer && IdOf(p.item.fragment) == id
      ensures found == Some(p) && EndsPacket(s.waiter, Acknowledge(s.waiter, p), p)
    {
      InvPending(s.waiter, cfg);
      SamePending(s.waiter.pending, p, found.value);
      AcknowledgeEnds(s.waiter, cfg, p);
    }
  }

  lemma PacketAck(id: string)
    requires IsMessageId(id)
    ensures S.IsPacketAck("ack" + id)
  {
    hide IsMessageId;
    assert ("ack" + id)[3..] == id && ("ack" + id)[..3] == "ack";
  }

  lemma SamePending(pending: seq<Pending>, p: Pending, q: Pending)
    requires OnePending(pending) && p in pending && q in pending && p.item.peer == q.item.peer
    ensures p == q
  {
  }

  // `p` is acknowledged and in flight no more; its delivery is reported when
  // nothing of its frame is left to be sent.
  ghost predicate EndsPacket(w: Waiter, t: Waiter, p: Pending) {
    && t == w.(pending := t.pending, acked := w.acked + {p.item.order}, calls := t.calls)
    && (forall q :: q in t.pending <==> q in w.pending && q != p)
    && (t.calls == if p.item.delivery.Some? && LastOfFrame(t, p.item) then w.calls + [Report(false, {p.item.delivery.value})]
                   else w.calls)
  }

  ghost predicate LastOfFrame(t: Waiter, x: Item) {
    forall y :: y in LiveItems(t) ==> !SameFrame(x, y)
  }

  lemma AcknowledgeEnds(w: Waiter, cfg: Settings, p: Pending)
    requires Inv(w, cfg) && p in w.pending
    ensures EndsPacket(w, Acknowledge(w, p), p)
  {
    hide Inv, LiveItems, Outstanding, SameFrame;
    var t := Acknowledge(w, p);
    InvPending(w, cfg);
    OutstandingIs(t, p.item);
    SameLive(w.(pending := KeptPending(w.pending, {p.item.order}), acked := w.acked + {p.item.order}), t);
    OutstandingIs(w.(pending := KeptPending(w.pending, {p.item.order}), acked := w.acked + {p.item.order}), p.item);
    forall q | q in w.pending && q.item.order == p.item.order
      ensures q == p
    {
    }
  }

  // ----------------------------------------------------- what a sender is told

  // Told at once when its message id is an ordinary one; a commit id is
  // answered by the verdict, if there is one.
  function Words(peer: string, body: string, verdict: Option<bool>): seq<B.Packet> {
    var id := S.MessageId(body);
    if id.None? then []
    else if !("C" <= id.value) then [B.Packet(peer, "ack" + id.value)]
    else if verdict.None? then []
    else [B.Packet(peer, (if verdict.value then "ack" else "rej") + id.value)]
  }

  function Telling(s: State, peer: string, body: string, verdict: Option<bool>): State {
    s.(immediate := s.immediate + Words(peer, body, verdict))
  }

  // The packet has been heard: a plain one is confirmed at once.
  function Heard(s: State, peer: string, body: string): State {
    if S.CommitId(body).None? then Confirm(s, peer, S.MessageId(body), true) else s
  }

  lemma HeardIs(s: State, peer: string, body: string)
    ensures Heard(s, peer, body) == Telling(s, peer, body, None)
  {
    hide IsMessageId, SplitMessageId;
    assert s.immediate + [] == s.immediate;
  }

  lemma ConfirmedIs(s: State, peer: string, body: string, accepted: bool)
    ensures Confirm(Telling(s, peer, body, None), peer, S.CommitId(body), accepted) == Telling(s, peer, body, Some(accepted))
  {
    hide IsMessageId, SplitMessageId;
    assert s.immediate + [] == s.immediate;
  }

  // ------------------------------------------------------------- the responses

  // A request to carry the response to the peer, as part of the batch.
  ghost predicate AnswersWith(r: B.Request, key: Key, response: Bytes, supersedable: bool, firstTime: bool) {
    && r.peer == key.peer && r.frame == response && !r.proactive && r.batch == Some(key) && r.supersedable == supersedable
    && (if firstTime then A.Announces(r.delivery, response) else r.delivery == None)
  }

  // `t` is `s` with packets queued that carry the response.
  ghost predicate QueuesResponse(s: Waiter, t: Waiter, cfg: Settings, key: Key, response: Bytes, supersedable: bool, firstTime: bool) {
    && Accepts(s, cfg, key.peer, response)
    && exists r: B.Request, id: string, pieces: seq<Item> ::
         && Gains(s, t, pieces) && AnswersWith(r, key, response, supersedable, firstTime)
         && CarriesText(pieces, r, id, cfg.encodeText(response).value, s.order)
         && FreshIds(s, pieces, key.peer, id)
  }

  // From w on, each step queues one response; a step is missing for the first
  // that is not accepted, and so for all behind it.
  ghost predicate AnswersInOrder(w: Waiter, cfg: Settings, steps: seq<Waiter>, key: Key, responses: seq<Bytes>, supersedable: bool,
                                 firstTime: bool)
  {
    && 1 <= |steps| <= |responses| + 1 && steps[0] == w
    && (forall i :: 0 <= i < |steps| - 1 ==> QueuesResponse(steps[i], steps[i + 1], cfg, key, responses[i], supersedable, firstTime))
  }

  lemma RequestAnswers(key: Key, response: Bytes, supersedable: bool, firstTime: bool)
    ensures AnswersWith(S.ResponseRequest(key, response, supersedable, firstTime), key, response, supersedable, firstTime)
  {
    hide C.DecodeFrame;
  }

  lemma ResponseQueued(w: Waiter, cfg: Settings, key: Key, response: Bytes, supersedable: bool, firstTime: bool)
    requires Inv(w, cfg) && Fits(cfg) && cfg.transactionSpace > 0 && B.ValidPeer(key.peer)
    ensures var q := QueueFrame(w, cfg, S.ResponseRequest(key, response, supersedable, firstTime));
            && Inv(q.waiter, cfg)
            && (q.result.Ok? <==> Accepts(w, cfg, key.peer, response))
            && (q.result.Ok? ==> QueuesResponse(w, q.waiter, cfg, key, response, supersedable, firstTime))
            && (q.result.Err? ==> q.waiter == w.(nextId := q.waiter.nextId, nextMessage := q.waiter.nextMessage))
  {
    hide Inv, QueueFrame, Accepts, B.ValidPeer, CarriesText, FreshIds, Settings.Valid, S.DeliveryIn, AnswersWith, IdFree, Fitting;
    hide TransactionTaken, PushedOk, Cut;
    var r := S.ResponseRequest(key, response, supersedable, firstTime);
    var pieces := QueueFrameIsExact(w, cfg, r);
    QueueFrameKeepsInv(w, cfg, r);
    RequestAnswers(key, response, supersedable, firstTime);
    assert w.queue + [] == w.queue;
  }

  lemma {:induction false} QueueAllIs(w: Waiter, cfg: Settings, key: Key, responses: seq<Bytes>, supersedable: bool, firstTime: bool, n: nat)
    returns (steps: seq<Waiter>)
    requires Inv(w, cfg) && Fits(cfg) && cfg.transactionSpace > 0 && B.ValidPeer(key.peer) && n <= |responses|
    ensures var q := QueueAll(w, cfg, key, responses, supersedable, firstTime, n);
            && Inv(q.waiter, cfg) && |steps| <= n + 1
            && AnswersInOrder(w, cfg, steps, key, responses, supersedable, firstTime)
            && (q.failure.None? <==> |steps| == n + 1)
            && (q.failure.None? ==> q.waiter == steps[n])
            && (q.failure.Some? ==>
                  var last := steps[|steps| - 1];
                  && q.waiter == last.(nextId := q.waiter.nextId, nextMessage := q.waiter.nextMessage)
                  && !Accepts(last, cfg, key.peer, responses[|steps| - 1]))
  {
    hide Inv, QueueFrame, Accepts, B.ValidPeer, QueuesResponse, Settings.Valid, S.ResponseRequest;
    steps := [w];
    if n > 0 {
      steps := QueueAllIs(w, cfg, key, responses, supersedable, firstTime, n - 1);
      var before := QueueAll(w, cfg, key, responses, supersedable, firstTime, n - 1);
      if before.failure.None? {
        ResponseQueued(before.waiter, cfg, key, responses[n - 1], supersedable, firstTime);
        var q := QueueFrame(before.waiter, cfg, S.ResponseRequest(key, responses[n - 1], supersedable, firstTime));
        if q.result.Ok? {
          steps := steps + [q.waiter];
        }
      }
    }
  }

  // --------------------------------------------------------- where requests end

  function KeyOf(peer: string, f: Fragment): Key {
    R.Key(peer, f.transactionId)
  }

  // A fragment that arrives, and what reassembly makes of it.
  ghost predicate Arrives(s: State, cfg: Settings, peer: string, body: string, f: Fragment, env: S.Env, result: R.AddResult)
    requires cfg.bounds.Valid()
  {
    && B.ValidPeer(peer) && !S.IsPacketAck(body) && ParseFragment(body) == Ok(f)
    && R.Add(s.table, cfg.bounds, peer, f, env.now).result == result
  }

  function Held(s: State, cfg: Settings, peer: string, f: Fragment, env: S.Env): State
    requires cfg.bounds.Valid()
  {
    s.(table := R.Add(s.table, cfg.bounds, peer, f, env.now).table)
  }

  function Looked(s: State, cfg: Settings, peer: string, f: Fragment, env: S.Env): State
    requires cfg.bounds.Valid()
  {
    Held(s, cfg, peer, f, env).(cache := P.Recall(s.cache, cfg.limits, KeyOf(peer, f), env.now).cache,
                                trail := s.trail + [RP.Lookup(KeyOf(peer, f), env.now)])
  }

  lemma ArrivalCollected(s: State, cfg: Settings, peer: string, body: string, f: Fragment, env: S.Env, result: R.AddResult)
    requires cfg.bounds.Valid() && cfg.transactionSpace > 0 && Arrives(s, cfg, peer, body, f, env, result)
    ensures Receive(s, cfg, peer, body, env) == Collect(Telling(s, peer, body, None), cfg, peer, f, env, S.CommitId(body))
  {
    hide B.ValidPeer, S.IsPacketAck, ParseFragment, R.Add, Collect, Confirm, S.MessageId, S.CommitId, Words, R.Bounds.Valid;
    HeardIs(s, peer, body);
  }

  lemma ArrivalAssembled(s: State, cfg: Settings, peer: string, body: string, f: Fragment, env: S.Env, frame: Bytes)
    requires cfg.bounds.Valid() && cfg.transactionSpace > 0 && Arrives(s, cfg, peer, body, f, env, R.Complete(frame))
    ensures Receive(s, cfg, peer, body, env)
            == Assembled(Telling(Held(s, cfg, peer, f, env), peer, body, None), cfg, KeyOf(peer, f), frame, env, S.CommitId(body))
  {
    hide B.ValidPeer, S.IsPacketAck, ParseFragment, R.Add, Receive, Assembled, Words, S.CommitId, R.Bounds.Valid;
    ArrivalCollected(s, cfg, peer, body, f, env, R.Complete(frame));
  }

  // The transmit side and Core are as they were; the sender is told the verdict.
  predicate OnlyTells(s: State, t: State, peer: string, body: string, verdict: Option<bool>) {
    t.waiter == s.waiter && t.core == s.core && t.immediate == s.immediate + Words(peer, body, verdict)
  }

  // A packet that completes no request: it is confirmed when it is held, and
  // rejected, under a commit id, when it contradicts what is held or fits
  // nothing.
  lemma OtherArrivals(s: State, cfg: Settings, peer: string, body: string, f: Fragment, env: S.Env, result: R.AddResult)
    requires cfg.bounds.Valid() && cfg.transactionSpace > 0 && Arrives(s, cfg, peer, body, f, env, result) && !result.Complete?
    ensures var r := Receive(s, cfg, peer, body, env);
            && r.outcome == Ok(match result case Waiting => S.FragmentHeld case Conflict => S.ConflictFound case _ => S.InvalidFound)
            && OnlyTells(s, r.state, peer, body, Some(result.Waiting?))
  {
    hide B.ValidPeer, S.IsPacketAck, ParseFragment, R.Add, Receive, Assembled, Words, S.CommitId, R.Bounds.Valid, Confirm;
    ArrivalCollected(s, cfg, peer, body, f, env, result);
    ConfirmedIs(Held(s, cfg, peer, f, env), peer, body, true);
    ConfirmedIs(Held(s, cfg, peer, f, env), peer, body, false);
  }

  // A frame that asks nothing of Core is rejected.
  lemma NoRequestArrives(s: State, cfg: Settings, peer: string, body: string, f: Fragment, frame: Bytes, o: C.Object, env: S.Env)
    requires cfg.bounds.Valid() && cfg.transactionSpace > 0 && Arrives(s, cfg, peer, body, f, env, R.Complete(frame))
    requires P.Recall(s.cache, cfg.limits, KeyOf(peer, f), env.now).answer.None?
    requires C.DecodeFrame(frame) == Ok(o) && !Done.AsksCore(o)
    ensures var r := Receive(s, cfg, peer, body, env);
            r.outcome == Ok(S.InvalidFound) && OnlyTells(s, r.state, peer, body, Some(false))
  {
    hide B.ValidPeer, S.IsPacketAck, ParseFragment, R.Add, Receive, P.Recall, C.DecodeFrame, Execute, Words, S.CommitId, Confirm;
    hide R.Bounds.Valid;
    ArrivalAssembled(s, cfg, peer, body, f, env, frame);
    ConfirmedIs(Looked(s, cfg, peer, f, env), peer, body, false);
  }

  // A body that holds neither an acknowledgement nor a fragment.
  lemma OtherBodies(s: State, cfg: Settings, peer: string, body: string, env: S.Env)
    requires cfg.bounds.Valid() && cfg.transactionSpace > 0 && B.ValidPeer(peer)
    requires !S.IsPacketAck(body) && ParseFragment(body).Err?
    ensures Receive(s, cfg, peer, body, env) == Received(Telling(s, peer, body, Some(false)), Ok(S.Ignored))
  {
    hide B.ValidPeer, S.IsPacketAck, ParseFragment, Confirm, S.MessageId, S.CommitId, Words, R.Bounds.Valid;
    HeardIs(s, peer, body);
    ConfirmedIs(s, peer, body, false);
  }

  // ------------------------------------------------------- executed requests

  // The fragment in `body` completes `request`, which no remembered answer
  // settles, and Core handles it with `responses`.
  ghost predicate Completes(s: State, cfg: Settings, peer: string, callsign: Bytes, body: string, f: Fragment, frame: Bytes,
                            request: C.Object, responses: seq<Bytes>, env: S.Env)
    requires cfg.bounds.Valid()
  {
    && Arrives(s, cfg, peer, body, f, env, R.Complete(frame)) && Done.CallsignIs(peer, callsign) && IsCallsign(callsign)
    && P.Recall(s.cache, cfg.limits, KeyOf(peer, f), env.now).answer.None?
    && C.DecodeFrame(frame) == Ok(request) && Done.AsksCore(request)
    && Handling(s, cfg, callsign, frame, env).frames == Ok(responses)
  }

  function Handling(s: State, cfg: Settings, callsign: Bytes, frame: Bytes, env: S.Env): Core.Handled {
    Core.HandleFrame(s.core, cfg.board, callsign, frame, env.clock, env.text)
  }

  // The transmit side once a cursor is honoured and what the answer outdates is
  // gone.
  function Cleared(w: Waiter, key: Key, callsign: Bytes, request: C.Object): Waiter {
    SupersedeStale(if request.GetNewMessages? then Reconcile(w, key.peer, callsign, request.since) else w, key.peer, key)
  }

  ghost predicate Remembers(t: State, cfg: Settings, key: Key, frame: Bytes, responses: seq<Bytes>, now: nat) {
    P.Recall(t.cache, cfg.limits, key, now).answer == Some(P.Answer(frame, responses, now))
  }

  // What the sender of a request is told: a send is accepted when it is stored,
  // any other request at once.
  predicate Verdict(request: C.Object, responses: seq<Bytes>) {
    !request.SendMessage? || Done.Durable(request, responses)
  }

  // Core has answered, and nothing is queued yet.
  function Ready(s: State, cfg: Settings, peer: string, callsign: Bytes, body: string, f: Fragment, frame: Bytes, request: C.Object,
                 env: S.Env): State
    requires cfg.bounds.Valid()
  {
    var told := Telling(Looked(s, cfg, peer, f, env), peer, body, if request.SendMessage? then None else Some(true));
    told.(waiter := if request.GetNewMessages? then Reconcile(s.waiter, peer, callsign, request.since) else s.waiter,
          core := Handling(s, cfg, callsign, frame, env).state)
  }

  lemma CompletedReceive(s: State, cfg: Settings, peer: string, callsign: Bytes, body: string, f: Fragment, frame: Bytes,
                         request: C.Object, responses: seq<Bytes>, env: S.Env)
    requires cfg.bounds.Valid() && cfg.transactionSpace > 0
    requires Completes(s, cfg, peer, callsign, body, f, frame, request, responses, env)
    ensures Receive(s, cfg, peer, body, env)
            == Executed(Ready(s, cfg, peer, callsign, body, f, frame, request, env), cfg, KeyOf(peer, f), frame, responses,
                        S.CommitId(body), env.now)
  {
    hide B.ValidPeer, S.IsPacketAck, ParseFragment, R.Add, Receive, Words, S.CommitId, R.Bounds.Valid, Confirm, P.Recall;
    hide Core.HandleFrame, Executed, Reconcile, S.CallsignOf, Done.CallsignIs, IsCallsign, C.DecodeFrame;
    ArrivalAssembled(s, cfg, peer, body, f, env, frame);
    ConfirmedIs(Looked(s, cfg, peer, f, env), peer, body, true);
    Done.CallsignFound(peer, callsign);
  }

  // What became of a request with n responses.
  ghost predicate Responded(t: State, outcome: Result<S.Disposition, S.Failure>, d: S.Disposition, steps: seq<Waiter>, n: nat)
    requires steps != []
  {
    var last := steps[|steps| - 1];
    if |steps| == n + 1 then outcome == Ok(d) && t.waiter == last
    else
      && outcome.Err? && outcome.error.QueueFailed?
      && t.waiter == last.(nextId := t.waiter.nextId, nextMessage := t.waiter.nextMessage)
  }

  // Core has answered, and what the new answer outdates is gone.
  function Answered(s: State, cfg: Settings, key: Key, frame: Bytes, responses: seq<Bytes>, now: nat): State {
    s.(waiter := SupersedeStale(s.waiter, key.peer, key),
       cache := P.Remember(s.cache, cfg.limits, key, frame, responses, now),
       trail := s.trail + [RP.Store(key, frame, responses, now)])
  }

  lemma AnsweredIs(s: State, cfg: Settings, key: Key, frame: Bytes, responses: seq<Bytes>, now: nat)
    requires cfg.limits.Valid() && WellFormed(s.cache) && Inv(s.waiter, cfg)
    ensures var t := Answered(s, cfg, key, frame, responses, now);
            Inv(t.waiter, cfg) && WellFormed(t.cache) && Remembers(t, cfg, key, frame, responses, now)
  {
    hide P.Recall, P.Remember, SupersedeStale, Inv, WellFormed;
    SupersedeKeepsInv(s.waiter, cfg, key.peer, key);
    RP.JustStored(s.cache, cfg.limits, key, frame, responses, now);
  }

  lemma RespondedIs(s: State, cfg: Settings, key: Key, frame: Bytes, request: C.Object, responses: seq<Bytes>,
                    commitId: Option<string>, now: nat)
    returns (steps: seq<Waiter>)
    requires B.ValidPeer(key.peer) && Inv(s.waiter, cfg) && WellFormed(s.cache) && Fits(cfg) && cfg.transactionSpace > 0 && cfg.limits.Valid()
    requires C.DecodeFrame(frame) == Ok(request) && (request.SendMessage? ==> commitId.None?)
    ensures var r := Executed(s, cfg, key, frame, responses, commitId, now);
            && AnswersInOrder(SupersedeStale(s.waiter, key.peer, key), cfg, steps, key, responses, !request.SendMessage?, true)
            && Responded(r.state, r.outcome, S.Completed, steps, |responses|)
            && (|steps| <= |responses| ==>
                  !Accepts(steps[|steps| - 1], cfg, key.peer, responses[|steps| - 1]))
            && r.state.immediate == s.immediate && r.state.core == s.core
            && Remembers(r.state, cfg, key, frame, responses, now)
  {
    hide C.DecodeFrame, Inv, AnswersInOrder, B.ValidPeer, WellFormed, QueueAll, SupersedeStale, P.Recall, P.Remember, Accepts;
    hide Settings.Valid;
    AnsweredIs(s, cfg, key, frame, responses, now);
    var kept := Answered(s, cfg, key, frame, responses, now);
    steps := QueueAllIs(kept.waiter, cfg, key, responses, !request.SendMessage?, true, |responses|);
    StepsCount(kept.waiter, cfg, steps, key, responses, !request.SendMessage?);
  }

  lemma StepsCount(w: Waiter, cfg: Settings, steps: seq<Waiter>, key: Key, responses: seq<Bytes>, supersedable: bool)
    requires AnswersInOrder(w, cfg, steps, key, responses, supersedable, true)
    ensures 1 <= |steps| <= |responses| + 1
  {
    hide QueuesResponse;
  }

  lemma CommittedIs(s: State, cfg: Settings, peer: string, body: string, key: Key, frame: Bytes, request: C.Object,
                    responses: seq<Bytes>, now: nat, told: seq<B.Packet>)
    requires peer == key.peer && Inv(s.waiter, cfg) && WellFormed(s.cache) && cfg.transactionSpace > 0 && cfg.limits.Valid()
    requires C.DecodeFrame(frame) == Ok(request) && request.SendMessage? && S.CommitId(body).Some?
    requires s.immediate == told + Words(peer, body, None)
    ensures var r := Executed(s, cfg, key, frame, responses, S.CommitId(body), now);
            && r.outcome == Ok(S.Completed) && r.state.waiter == SupersedeStale(s.waiter, peer, key) && r.state.core == s.core
            && r.state.immediate == told + Words(peer, body, Some(Done.Durable(request, responses)))
            && Remembers(r.state, cfg, key, frame, responses, now)
  {
    hide C.DecodeFrame, Inv, WellFormed, SupersedeStale, P.Recall, P.Remember, Words, Confirm, S.CommitId;
    AnsweredIs(s, cfg, key, frame, responses, now);
    var kept := Answered(s, cfg, key, frame, responses, now);
    var before := kept.(immediate := told);
    ConfirmedIs(before, peer, body, Done.Durable(request, responses));
    assert kept == Telling(before, peer, body, None);
    SameAnswer(kept, Telling(before, peer, body, Some(Done.Durable(request, responses))), cfg, key, frame, responses, now);
  }

  lemma SameAnswer(s: State, t: State, cfg: Settings, key: Key, frame: Bytes, responses: seq<Bytes>, now: nat)
    requires t.cache == s.cache && Remembers(s, cfg, key, frame, responses, now)
    ensures Remembers(t, cfg, key, frame, responses, now)
  {
    hide P.Recall;
  }

  // A request completed and executed. Its sender is told the verdict. A send
  // under a commit id gets no more than that; for any other request one group
  // of packets is queued for each of Core's responses, in Core's order, up to
  // the first for which there is no room, and then the call raises.
  lemma CompletionIsAnswered(s: State, cfg: Settings, peer: string, callsign: Bytes, body: string, f: Fragment, frame: Bytes,
                             request: C.Object, responses: seq<Bytes>, env: S.Env)
    returns (steps: seq<Waiter>)
    requires Fits(cfg) && cfg.bounds.Valid() && cfg.limits.Valid() && cfg.transactionSpace > 0
    requires WellFormed(s.cache) && Inv(s.waiter, cfg) && Completes(s, cfg, peer, callsign, body, f, frame, request, responses, env)
    ensures var r, key := Receive(s, cfg, peer, body, env), KeyOf(peer, f);
            var base := Cleared(s.waiter, key, callsign, request);
            && r.state.immediate == s.immediate + Words(peer, body, Some(Verdict(request, responses)))
            && r.state.core == Handling(s, cfg, callsign, frame, env).state
            && Remembers(r.state, cfg, key, frame, responses, env.now)
            && (if request.SendMessage? && S.CommitId(body).Some? then r.outcome == Ok(S.Completed) && r.state.waiter == base
                else
                  && AnswersInOrder(base, cfg, steps, key, responses, !request.SendMessage?, true)
                  && Responded(r.state, r.outcome, S.Completed, steps, |responses|)
                  && (|steps| <= |responses| ==> !Accepts(steps[|steps| - 1], cfg, peer, responses[|steps| - 1])))
  {
    hide Receive, Inv, WellFormed, AnswersInOrder, Responded, Remembers, Handling, S.CommitId, Words, Looked, Accepts, Executed;
    hide Completes, Reconcile, SupersedeStale, R.Bounds.Valid, Settings.Valid, P.Limits.Valid, Done.Durable;
    var key := KeyOf(peer, f);
    CompletionFacts(s, cfg, peer, callsign, body, f, frame, request, responses, env);
    CompletedReceive(s, cfg, peer, callsign, body, f, frame, request, responses, env);
    var ready := Ready(s, cfg, peer, callsign, body, f, frame, request, env);
    LookedKeeps(s, cfg, peer, f, env);
    ReconcileKeepsInv(s.waiter, cfg, peer, callsign, request);
    steps := [s.waiter];
    if request.SendMessage? && S.CommitId(body).Some? {
      CommittedIs(ready, cfg, peer, body, key, frame, request, responses, env.now, s.immediate);
    } else {
      steps := RespondedIs(ready, cfg, key, frame, request, responses, S.CommitId(body), env.now);
      if request.SendMessage? {
        PlainWords(peer, body, Done.Durable(request, responses));
      }
    }
  }

  // Without a commit id no verdict is waited for.
  lemma PlainWords(peer: string, body: string, verdict: bool)
    requires S.CommitId(body).None?
    ensures Words(peer, body, Some(verdict)) == Words(peer, body, None)
  {
    hide IsMessageId, SplitMessageId;
  }

  lemma CompletionFacts(s: State, cfg: Settings, peer: string, callsign: Bytes, body: string, f: Fragment, frame: Bytes,
                        request: C.Object, responses: seq<Bytes>, env: S.Env)
    requires cfg.bounds.Valid() && Completes(s, cfg, peer, callsign, body, f, frame, request, responses, env)
    ensures B.ValidPeer(peer) && C.DecodeFrame(frame) == Ok(request)
  {
    hide C.DecodeFrame, B.ValidPeer, R.Add, P.Recall, Handling, ParseFragment, IsCallsign, Done.CallsignIs, R.Bounds.Valid;
  }

  lemma LookedKeeps(s: State, cfg: Settings, peer: string, f: Fragment, env: S.Env)
    requires cfg.bounds.Valid() && WellFormed(s.cache)
    ensures var t := Looked(s, cfg, peer, f, env);
            WellFormed(t.cache) && t.waiter == s.waiter && t.immediate == s.immediate && t.core == s.core
  {
    hide P.Recall, R.Add, WellFormed, R.Bounds.Valid;
    BK.RecallKeepsForm(s.cache, cfg.limits, KeyOf(peer, f), env.now);
  }

  lemma ReconcileKeepsInv(w: Waiter, cfg: Settings, peer: string, callsign: Bytes, request: C.Object)
    requires Inv(w, cfg)
    ensures Inv(if request.GetNewMessages? then Reconcile(w, peer, callsign, request.since) else w, cfg)
  {
    hide Inv, Reconcile, LiveItems;
    if request.GetNewMessages? {
      CursorIsHonoured(w, cfg, peer, callsign, request.since);
    }
  }

  // A request that no valid caller makes, or on which Core raises, is not
  // answered: the exception escapes. Any but a send has been confirmed by then,
  // and a cursor honoured if Core was asked at all.
  lemma UnansweredRequest(s: State, cfg: Settings, peer: string, callsign: Bytes, body: string, f: Fragment, frame: Bytes,
                          request: C.Object, env: S.Env)
    requires cfg.bounds.Valid() && cfg.transactionSpace > 0 && Arrives(s, cfg, peer, body, f, env, R.Complete(frame))
    requires Done.CallsignIs(peer, callsign) && C.DecodeFrame(frame) == Ok(request) && Done.AsksCore(request)
    requires P.Recall(s.cache, cfg.limits, KeyOf(peer, f), env.now).answer.None?
    ensures var r, h := Receive(s, cfg, peer, body, env), Handling(s, cfg, callsign, frame, env);
            var told := s.immediate + Words(peer, body, if request.SendMessage? then None else Some(true));
            && (!IsCallsign(callsign) ==>
                  r.outcome == Err(S.BadCaller) && r.state.core == s.core && r.state.waiter == s.waiter && r.state.immediate == told)
            && (IsCallsign(callsign) && h.frames.Err? ==>
                  && r.outcome == Err(S.CoreFailed(h.frames.error)) && r.state.core == h.state && r.state.immediate == told
                  && r.state.waiter == if request.GetNewMessages? then Reconcile(s.waiter, peer, callsign, request.since) else s.waiter)
  {
    hide B.ValidPeer, S.IsPacketAck, ParseFragment, R.Add, Receive, Words, S.CommitId, R.Bounds.Valid, Confirm, P.Recall;
    hide Core.HandleFrame, Executed, Reconcile, S.CallsignOf, Done.CallsignIs, IsCallsign, C.DecodeFrame;
    ArrivalAssembled(s, cfg, peer, body, f, env, frame);
    ConfirmedIs(Looked(s, cfg, peer, f, env), peer, body, true);
    Done.CallsignFound(peer, callsign);
  }

  // ------------------------------------------------------- repeated requests

  predicate Sends(frame: Bytes) {
    C.DecodeFrame(frame).Ok? && C.DecodeFrame(frame).value.SendMessage?
  }

  predicate SaysStored(responses: seq<Bytes>) {
    |responses| == 1 && C.DecodeFrame(responses[0]) == Ok(C.Stored)
  }

  // What became of a request answered before: as for a new one, but nothing is
  // executed and no delivery reported.
  ghost predicate Replays(s: State, r: Received, cfg: Settings, peer: string, body: string, key: Key, send: bool,
                          responses: seq<Bytes>, steps: seq<Waiter>)
  {
    var base := SupersedeStale(s.waiter, peer, key);
    if send && S.CommitId(body).Some? then
      && r.outcome == Ok(S.Replayed) && r.state.waiter == base
      && r.state.immediate == s.immediate + Words(peer, body, Some(SaysStored(responses)))
    else
      && AnswersInOrder(base, cfg, steps, key, responses, !send, false)
      && Responded(r.state, r.outcome, S.Replayed, steps, |responses|)
      && r.state.immediate == s.immediate + Words(peer, body, Some(true))
  }

  lemma RepeatedIs(s: State, t: State, cfg: Settings, peer: string, body: string, key: Key, frame: Bytes, answer: P.Answer)
    returns (steps: seq<Waiter>)
    requires peer == key.peer && B.ValidPeer(peer) && Inv(s.waiter, cfg) && Fits(cfg) && cfg.transactionSpace > 0
    requires answer.request == frame && t.waiter == s.waiter && t.immediate == s.immediate && t.core == s.core
    ensures var r := Repeated(Telling(t, peer, body, None), cfg, key, frame, answer, S.CommitId(body));
            Replays(s, r, cfg, peer, body, key, Sends(frame), answer.responses, steps) && r.state.core == s.core
  {
    hide C.DecodeFrame, Inv, AnswersInOrder, B.ValidPeer, QueueAll, SupersedeStale, Words, Confirm, S.CommitId, Settings.Valid;
    SupersedeKeepsInv(s.waiter, cfg, peer, key);
    var cleared := Superseded(t, key);
    ConfirmedIs(cleared, peer, body, true);
    ConfirmedIs(cleared, peer, body, SaysStored(answer.responses));
    steps := QueueAllIs(cleared.waiter, cfg, key, answer.responses, !Sends(frame), false, |answer.responses|);
    StepsSome(cleared.waiter, cfg, steps, key, answer.responses, !Sends(frame));
  }

  lemma StepsSome(w: Waiter, cfg: Settings, steps: seq<Waiter>, key: Key, responses: seq<Bytes>, supersedable: bool)
    requires AnswersInOrder(w, cfg, steps, key, responses, supersedable, false)
    ensures 1 <= |steps| <= |responses| + 1
  {
    hide QueuesResponse;
  }

  // A request whose answer is remembered never reaches Core again. The same
  // request gets the same responses once more; another under the same
  // transaction is a conflict.
  lemma RepetitionIsAnswered(s: State, cfg: Settings, peer: string, body: string, f: Fragment, frame: Bytes, answer: P.Answer, env: S.Env)
    returns (steps: seq<Waiter>)
    requires Fits(cfg) && cfg.bounds.Valid() && cfg.transactionSpace > 0
    requires Inv(s.waiter, cfg) && Arrives(s, cfg, peer, body, f, env, R.Complete(frame))
    requires P.Recall(s.cache, cfg.limits, KeyOf(peer, f), env.now).answer == Some(answer)
    ensures var r, key := Receive(s, cfg, peer, body, env), KeyOf(peer, f);
            && r.state.core == s.core
            && (answer.request != frame ==> r.outcome == Ok(S.ConflictFound) && OnlyTells(s, r.state, peer, body, Some(false)))
            && (answer.request == frame ==> Replays(s, r, cfg, peer, body, key, Sends(frame), answer.responses, steps))
  {
    hide Receive, Inv, S.CommitId, Words, R.Add, ParseFragment, S.IsPacketAck, P.Recall, Repeated, Confirm, C.DecodeFrame;
    hide R.Bounds.Valid, Settings.Valid, Replays, B.ValidPeer;
    ArrivalAssembled(s, cfg, peer, body, f, env, frame);
    var looked := Looked(s, cfg, peer, f, env);
    steps := [];
    if answer.request == frame {
      steps := RepeatedIs(s, looked, cfg, peer, body, KeyOf(peer, f), frame, answer);
    } else {
      ConfirmedIs(looked, peer, body, false);
      ConflictingRepeat(Telling(looked, peer, body, None), cfg, KeyOf(peer, f), frame, answer, S.CommitId(body));
    }
  }

  lemma ConflictingRepeat(s: State, cfg: Settings, key: Key, frame: Bytes, answer: P.Answer, commitId: Option<string>)
    requires cfg.transactionSpace > 0 && answer.request != frame
    ensures Repeated(s, cfg, key, frame, answer, commitId) == Received(Confirm(s, key.peer, commitId, false), Ok(S.ConflictFound))
  {
    hide Confirm, SupersedeStale, Respond, S.IsSend, S.WasStored;
  }
}
