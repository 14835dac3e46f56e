// The arrival that completes a request, over the whole of receiving: the
// request is executed once, its answer remembered, and every response queued.
module Completions {
  import opened Prelude
  import opened Text
  import opened Ordered
  import opened Carriage
  import opened Control
  import opened Burst
  import opened Selective
  import opened Answers
  import BP = BurstProofs
  import Q = Queuing
  import SP = SelectiveProofs
  import RRun = RepairRuns
  import AMO = AtMostOnce
  import B = Bookkeeping
  import RP = ReplayProofs
  import R = Reassembly
  import P = Replay
  import C = Codec
  import Core
  import CP = CoreProofs
  import CodecProofs
  import Polling

  // The station's callsign: its address up to the dash.
  ghost predicate CallsignIs(peer: string, callsign: Bytes) {
    && |callsign| <= |peer| && (|callsign| == |peer| || peer[|callsign|] == '-')
    && forall i :: 0 <= i < |callsign| ==> peer[i] != '-' && peer[i] as int == callsign[i]
  }

  lemma {:induction false} BaseEnds(peer: string)
    ensures |BaseOf(peer)| == |peer| || peer[|BaseOf(peer)|] == '-'
  {
    if peer != "" && peer[0] != '-' {
      BaseEnds(peer[1..]);
    }
  }

  lemma CallsignFound(peer: string, callsign: Bytes)
    requires ValidPeer(peer) && CallsignIs(peer, callsign)
    ensures CallsignOf(peer) == callsign
  {
    hide ValidPeer, BaseOf;
    BaseEnds(peer);
  }

  predicate AsksCore(o: C.Object) {
    C.OperationFor(o) in {C.OpSendMessage, C.OpGetNewMessages, C.OpGetNewBulletins, C.OpGetBulletin, C.OpGetCapabilities, C.OpGetMessage}
  }

  function KeyOf(peer: string, f: Fragment): Key {
    R.Key(peer, f.transactionId)
  }

  // The fragment in `body` completes `request`, encoded as `frame`, which no
  // remembered answer settles, and Core handles it with `responses`.
  ghost predicate Completes(s: State, cfg: Settings, peer: string, callsign: Bytes, body: string, f: Fragment, frame: Bytes,
                            request: C.Object, responses: seq<Bytes>, env: Env)
    requires cfg.Valid()
  {
    && ValidPeer(peer) && CallsignIs(peer, callsign) && IsCallsign(callsign) && ParseFragment(body) == Ok(f)
    && P.Recall(s.cache, cfg.limits, KeyOf(peer, f), env.now).answer.None?
    && R.Add(s.table, cfg.bounds, peer, f, env.now).result == R.Complete(frame)
    && C.DecodeFrame(frame) == Ok(request) && AsksCore(request)
    && Handling(s, cfg, callsign, frame, env).frames == Ok(responses)
  }

  function Handling(s: State, cfg: Settings, callsign: Bytes, frame: Bytes, env: Env): Core.Handled {
    Core.HandleFrame(s.core, cfg.board, callsign, frame, env.clock, env.text)
  }

  // Core has answered, and nothing is queued yet.
  function Ready(s: State, cfg: Settings, peer: string, callsign: Bytes, f: Fragment, frame: Bytes, env: Env): State
    requires cfg.Valid()
  {
    Consulted(RRun.Added(s, cfg, peer, f, env.now), cfg, KeyOf(peer, f), env.now)
      .(core := Handling(s, cfg, callsign, frame, env).state)
  }

  lemma ReadyKeeps(s: State, cfg: Settings, peer: string, callsign: Bytes, f: Fragment, frame: Bytes, env: Env)
    requires cfg.Valid() && WellFormed(s.cache)
    ensures var t := Ready(s, cfg, peer, callsign, f, frame, env);
            && WellFormed(t.cache) && t.sender == s.sender && t.immediate == s.immediate
            && t.core == Handling(s, cfg, callsign, frame, env).state
            && t.table == R.Add(s.table, cfg.bounds, peer, f, env.now).table
  {
    hide P.Recall, R.Add, Noted, Core.HandleFrame, WellFormed;
    B.RecallKeepsForm(s.cache, cfg.limits, KeyOf(peer, f), env.now);
    B.RecallKeepsForm(P.Recall(s.cache, cfg.limits, KeyOf(peer, f), env.now).cache, cfg.limits, KeyOf(peer, f), env.now);
  }

  lemma CompletedReceive(s: State, cfg: Settings, peer: string, callsign: Bytes, body: string, f: Fragment, frame: Bytes,
                         request: C.Object, responses: seq<Bytes>, env: Env)
    requires cfg.Valid() && WellFormed(s.cache) && Completes(s, cfg, peer, callsign, body, f, frame, request, responses, env)
    ensures Receive(s, cfg, peer, body, env)
            == Settled(Executed(Ready(s, cfg, peer, callsign, f, frame, env), cfg, KeyOf(peer, f), frame, responses, CommitId(body), env.now),
                       cfg, KeyOf(peer, f), env.now)
  {
    hide ParseFragment, ParseControl, ValidPeer, P.Recall, R.Add, Noted, Executed, Settled, Core.HandleFrame, C.DecodeFrame;
    hide CommitId, CallsignOf, CallsignIs, IsCallsign, WellFormed;
    var key := KeyOf(peer, f);
    CallsignFound(peer, callsign);
    AMO.RecallAgain(s.cache, cfg.limits, key, env.now);
    if ParseControl(body).Some? {
      SP.ControlOrFragment(body);
      assert false;
    }
  }

  // ------------------------------------------------------------- the outcomes

  // The request was executed and remembered with its responses.
  ghost predicate Remembers(t: State, cfg: Settings, key: Key, frame: Bytes, responses: seq<Bytes>, now: nat) {
    P.Recall(t.cache, cfg.limits, key, now).answer == Some(P.Answer(frame, responses, now))
  }

  // A durable send: Core has stored the message and says only that.
  predicate Durable(request: C.Object, responses: seq<Bytes>) {
    request.SendMessage? && |responses| == 1 && C.DecodeFrame(responses[0]) == Ok(C.Stored)
  }

  // Confirmed by A2, and a durable send by S2 as well, which makes the queued
  // responses of its batch redundant.
  ghost predicate ConfirmedBy(before: seq<Packet>, queued: Sender, t: State, key: Key, durable: bool)
    requires OneByteId(key)
  {
    && t.immediate == before + [AckPacket(key)] + (if durable then [StoredPacket(key)] else [])
    && (durable ==> Q.Without(queued, t.sender, Q.OfBatch(queued, key), Compacted))
    && (!durable ==> t.sender == queued)
    && key !in t.tracker.items
  }

  lemma ConfirmReceiptIs(s: State, cfg: Settings, key: Key, now: nat, request: C.Object, answer: P.Answer)
    requires OneByteId(key) && BP.Inv(s.sender, cfg.policy)
    requires P.Recall(s.cache, cfg.limits, key, now).answer == Some(answer) && C.DecodeFrame(answer.request) == Ok(request)
    ensures var t := Forgotten(ConfirmReceipt(s, cfg, key, now), key);
            ConfirmedBy(s.immediate, s.sender, t, key, Durable(request, answer.responses)) && t.core == s.core
  {
    hide OneByteId, P.Recall, C.DecodeFrame, BP.Inv, CompactBatch, Q.Without;
    Q.CompactionIsExact(s.sender, cfg.policy, key);
    var acks := s.immediate + [AckPacket(key)];
    assert acks + [] == acks;
  }

  lemma ConfirmRemembers(s: State, cfg: Settings, key: Key, now: nat, frame: Bytes, responses: seq<Bytes>)
    requires OneByteId(key) && WellFormed(s.cache) && Remembers(s, cfg, key, frame, responses, now)
    ensures Remembers(Forgotten(ConfirmReceipt(s, cfg, key, now), key), cfg, key, frame, responses, now)
  {
    hide OneByteId, P.Recall, IsSend, WasStored, CompactBatch, WellFormed;
    AMO.RecallAgain(s.cache, cfg.limits, key, now);
  }

  // Core has answered, and what the new answer outdates is gone.
  function Answered(s: State, cfg: Settings, key: Key, frame: Bytes, responses: seq<Bytes>, now: nat): State {
    s.(sender := SupersedeStale(s.sender, key.peer, key),
       cache := P.Remember(s.cache, cfg.limits, key, frame, responses, now),
       trail := s.trail + [RP.Store(key, frame, responses, now)])
  }

  lemma AnsweredIs(s: State, cfg: Settings, key: Key, frame: Bytes, responses: seq<Bytes>, now: nat)
    requires cfg.Valid() && WellFormed(s.cache) && BP.Inv(s.sender, cfg.policy)
    ensures var t := Answered(s, cfg, key, frame, responses, now);
            && BP.Inv(t.sender, cfg.policy) && WellFormed(t.cache) && Remembers(t, cfg, key, frame, responses, now)
  {
    hide P.Recall, P.Remember, SupersedeStale, BP.Inv, WellFormed, Q.Without;
    Q.SupersessionIsExact(s.sender, cfg.policy, key.peer, key);
    RP.JustStored(s.cache, cfg.limits, key, frame, responses, now);
  }

  // What became of a request whose responses are queued one after another.
  ghost predicate Responded(before: State, t: State, outcome: Result<Disposition, Failure>, key: Key, queued: Sender,
                            complete: bool, durable: bool)
  {
    if !complete then outcome.Err? && outcome.error.QueueFailed? && t.immediate == before.immediate && t.sender == queued
    else if !OneByteId(key) then outcome == Err(Unsendable) && t.immediate == before.immediate && t.sender == queued
    else outcome == Ok(Completed) && ConfirmedBy(before.immediate, queued, t, key, durable)
  }

  lemma RespondedIs(s: State, cfg: Settings, key: Key, frame: Bytes, request: C.Object, responses: seq<Bytes>, now: nat)
    returns (bursts: seq<Burst>, queued: Sender)
    requires ValidPeer(key.peer) && BP.Inv(s.sender, cfg.policy) && WellFormed(s.cache)
    requires Remembers(s, cfg, key, frame, responses, now) && C.DecodeFrame(frame) == Ok(request)
    ensures var r := Settled(Respond(s, cfg, key, responses, !request.SendMessage?, true, Completed), cfg, key, now);
            && AnswersInOrder(s.sender, bursts, key, responses, !request.SendMessage?, true) && Gained(s.sender, queued, bursts)
            && (|bursts| == |responses| <==> AllFit(s.sender, cfg.policy, key.peer, responses))
            && AsFarAsFits(s.sender, cfg.policy, bursts, key.peer, responses, |responses|)
            && Responded(s, r.state, r.outcome, key, queued, |bursts| == |responses|, Durable(request, responses))
            && Remembers(r.state, cfg, key, frame, responses, now) && r.state.core == s.core
  {
    hide OneByteId, P.Recall, C.DecodeFrame, BP.Inv, ConfirmReceipt, AnswersInOrder, AllFit, AsFarAsFits, Gained;
    hide ValidPeer, WellFormed, ConfirmedBy, Durable, QueueAll;
    bursts := QueueAllIs(s.sender, cfg.policy, key, responses, !request.SendMessage?, true, |responses|);
    var q := QueueAll(s.sender, cfg.policy, key, responses, !request.SendMessage?, true, |responses|);
    queued := q.sender;
    AllAnsweredIff(s.sender, cfg.policy, bursts, key, responses, !request.SendMessage?, true);
    var t := s.(sender := queued);
    if q.failure.None? && OneByteId(key) {
      ConfirmReceiptIs(t, cfg, key, now, request, P.Answer(frame, responses, now));
      ConfirmRemembers(t, cfg, key, now, frame, responses);
    }
  }

  // A request completed and executed, without a commit id or not a send. The
  // outdated bursts leave first; then one burst is queued for each of Core's
  // responses, in Core's order, as far as there is room: for all of them if and
  // only if all of them fit. Only then is the request confirmed, by A2 and, if
  // it stored a message, by S2, which makes the queued answer redundant.
  lemma CompletionIsAnswered(s: State, cfg: Settings, peer: string, callsign: Bytes, body: string, f: Fragment, frame: Bytes,
                             request: C.Object, responses: seq<Bytes>, env: Env)
    returns (bursts: seq<Burst>, queued: Sender)
    requires cfg.Valid() && WellFormed(s.cache) && BP.Inv(s.sender, cfg.policy)
    requires Completes(s, cfg, peer, callsign, body, f, frame, request, responses, env)
    requires request.SendMessage? ==> CommitId(body).None?
    ensures var r, key := Receive(s, cfg, peer, body, env), KeyOf(peer, f);
            var base := SupersedeStale(s.sender, peer, key);
            && AnswersInOrder(base, bursts, key, responses, !request.SendMessage?, true) && Gained(base, queued, bursts)
            && (|bursts| == |responses| <==> AllFit(base, cfg.policy, peer, responses))
            && AsFarAsFits(base, cfg.policy, bursts, peer, responses, |responses|)
            && Responded(s, r.state, r.outcome, key, queued, |bursts| == |responses|, Durable(request, responses))
            && Remembers(r.state, cfg, key, frame, responses, env.now)
            && r.state.core == Handling(s, cfg, callsign, frame, env).state
  {
    hide Completes, Receive, Ready, BP.Inv, WellFormed, Answered, AnswersInOrder, AllFit, AsFarAsFits, Gained;
    hide Remembers, Responded, Durable, Handling, Settled, Respond, CommitId;
    CompletionFacts(s, cfg, peer, callsign, body, f, frame, request, responses, env);
    var key := KeyOf(peer, f);
    var ready := Ready(s, cfg, peer, callsign, f, frame, env);
    CompletedReceive(s, cfg, peer, callsign, body, f, frame, request, responses, env);
    ReadyKeeps(s, cfg, peer, callsign, f, frame, env);
    AnsweredIs(ready, cfg, key, frame, responses, env.now);
    AnsweredFields(ready, cfg, key, frame, responses, env.now);
    ExecutedUncommitted(ready, cfg, key, frame, request, responses, CommitId(body), env.now);
    var kept := Answered(ready, cfg, key, frame, responses, env.now);
    bursts, queued := RespondedIs(kept, cfg, key, frame, request, responses, env.now);
    SameBefore(s, kept, Receive(s, cfg, peer, body, env), key, queued, |bursts| == |responses|, Durable(request, responses));
  }

  lemma CompletionFacts(s: State, cfg: Settings, peer: string, callsign: Bytes, body: string, f: Fragment, frame: Bytes,
                        request: C.Object, responses: seq<Bytes>, env: Env)
    requires cfg.Valid() && Completes(s, cfg, peer, callsign, body, f, frame, request, responses, env)
    ensures ValidPeer(peer) && C.DecodeFrame(frame) == Ok(request)
  {
    hide C.DecodeFrame, ValidPeer, R.Add, P.Recall, Handling, ParseFragment, IsCallsign, CallsignIs;
  }

  lemma AnsweredFields(s: State, cfg: Settings, key: Key, frame: Bytes, responses: seq<Bytes>, now: nat)
    ensures var t := Answered(s, cfg, key, frame, responses, now);
            t.sender == SupersedeStale(s.sender, key.peer, key) && t.immediate == s.immediate && t.core == s.core
  {
    hide SupersedeStale, P.Remember;
  }

  lemma ExecutedUncommitted(s: State, cfg: Settings, key: Key, frame: Bytes, request: C.Object, responses: seq<Bytes>,
                            commitId: Option<string>, now: nat)
    requires C.DecodeFrame(frame) == Ok(request) && (request.SendMessage? ==> commitId.None?)
    ensures Executed(s, cfg, key, frame, responses, commitId, now)
            == Respond(Answered(s, cfg, key, frame, responses, now), cfg, key, responses, !request.SendMessage?, true, Completed)
  {
    hide C.DecodeFrame, SupersedeStale, P.Remember, Respond;
  }

  lemma SameBefore(s: State, kept: State, r: Received, key: Key, queued: Sender, complete: bool, durable: bool)
    requires s.immediate == kept.immediate && Responded(kept, r.state, r.outcome, key, queued, complete, durable)
    ensures Responded(s, r.state, r.outcome, key, queued, complete, durable)
  {
    hide OneByteId, ConfirmedBy;
  }

  // ------------------------------------------------------------ what Core says

  // Core's responses are frames, so all of them fit exactly when there are ids
  // and room enough for them.
  lemma CoreResponsesFit(core: Core.State, board: Core.Board, callsign: Bytes, frame: Bytes, clock: int, text: Core.PlainText,
                         responses: seq<Bytes>, s: Sender, p: Policy, peer: string)
    requires CP.CoreInv(core) && Core.HandleFrame(core, board, callsign, frame, clock, text).frames == Ok(responses)
    ensures AllFit(s, p, peer, responses) <==>
              && |responses| <= |FreeIds(s, peer)|
              && Load(s.queue) + Load(s.active) + AllPieces(responses, |responses|) <= p.queueCapacity
  {
    hide CP.CoreInv, Core.HandleFrame, C.DecodeFrame, C.DecodeFrameWithFlags, FreeIds, Load, AllPieces, Core.Answered;
    hide CP.ClockFails, CP.BoardFails;
    CP.HandlingIsClosed(core, board, callsign, frame, clock, text);
    forall i | 0 <= i < |responses|
      ensures C.DecodeFrameWithFlags(responses[i]).Ok?
    {
      CodecProofs.DecodersAgree(responses[i]);
    }
  }

  // -------------------------------------------------------------- other ends

  // What a body with a commit id is told when its transaction is refused.
  function Refusal(peer: string, body: string): seq<Packet> {
    if CommitId(body).Some? then [Packet(peer, "rej" + CommitId(body).value)] else []
  }

  lemma RejectedIs(s: State, peer: string, body: string)
    ensures Rejected(s, peer, CommitId(body)) == s.(immediate := s.immediate + Refusal(peer, body))
  {
    hide CommitId;
    assert s.immediate + [] == s.immediate;
  }

  // A send under a commit id gets no response frame: it is confirmed by A2 and
  // S2 when the message was stored, and rejected under its id, besides the A2,
  // when it was not.
  lemma CommittedSendIsAnswered(s: State, cfg: Settings, peer: string, callsign: Bytes, body: string, f: Fragment, frame: Bytes,
                                request: C.Object, responses: seq<Bytes>, env: Env)
    requires cfg.Valid() && WellFormed(s.cache) && BP.Inv(s.sender, cfg.policy)
    requires Completes(s, cfg, peer, callsign, body, f, frame, request, responses, env)
    requires request.SendMessage? && CommitId(body).Some?
    ensures var r, key := Receive(s, cfg, peer, body, env), KeyOf(peer, f);
            var base, durable := SupersedeStale(s.sender, peer, key), Durable(request, responses);
            var told := s.immediate + (if durable then [] else Refusal(peer, body));
            && (if OneByteId(key) then r.outcome == Ok(Completed) && ConfirmedBy(told, base, r.state, key, durable)
                else r.outcome == Err(Unsendable) && r.state.immediate == told && r.state.sender == base)
            && Remembers(r.state, cfg, key, frame, responses, env.now)
            && r.state.core == Handling(s, cfg, callsign, frame, env).state
  {
    hide Completes, Receive, Ready, BP.Inv, WellFormed, Answered, SupersedeStale, OneByteId, ConfirmReceipt;
    hide Remembers, Durable, Handling, Settled, ConfirmedBy, Refusal, Rejected, CommitId;
    CompletionFacts(s, cfg, peer, callsign, body, f, frame, request, responses, env);
    var key := KeyOf(peer, f);
    var ready := Ready(s, cfg, peer, callsign, f, frame, env);
    CompletedReceive(s, cfg, peer, callsign, body, f, frame, request, responses, env);
    ReadyKeeps(s, cfg, peer, callsign, f, frame, env);
    AnsweredIs(ready, cfg, key, frame, responses, env.now);
    AnsweredFields(ready, cfg, key, frame, responses, env.now);
    ExecutedCommitted(ready, cfg, key, body, frame, request, responses, env.now);
    var kept := Answered(ready, cfg, key, frame, responses, env.now);
    var told := if Durable(request, responses) then [] else Refusal(peer, body);
    var t := kept.(immediate := kept.immediate + told);
    SameAnswer(kept, t, cfg, key, frame, responses, env.now);
    SettledCommitted(t, cfg, key, frame, request, responses, env.now);
  }

  lemma SameAnswer(s: State, t: State, cfg: Settings, key: Key, frame: Bytes, responses: seq<Bytes>, now: nat)
    requires t.cache == s.cache && Remembers(s, cfg, key, frame, responses, now)
    ensures Remembers(t, cfg, key, frame, responses, now)
  {
    hide P.Recall;
  }

  lemma ExecutedCommitted(s: State, cfg: Settings, key: Key, body: string, frame: Bytes, request: C.Object, responses: seq<Bytes>, now: nat)
    requires C.DecodeFrame(frame) == Ok(request) && request.SendMessage? && CommitId(body).Some?
    ensures var kept := Answered(s, cfg, key, frame, responses, now);
            var told := if Durable(request, responses) then [] else Refusal(key.peer, body);
            Executed(s, cfg, key, frame, responses, CommitId(body), now)
            == Received(kept.(immediate := kept.immediate + told), Ok(Completed))
  {
    hide C.DecodeFrame, SupersedeStale, P.Remember, Respond, CommitId;
    var kept := Answered(s, cfg, key, frame, responses, now);
    assert kept.immediate + [] == kept.immediate;
  }

  lemma SettledCommitted(s: State, cfg: Settings, key: Key, frame: Bytes, request: C.Object, responses: seq<Bytes>, now: nat)
    requires BP.Inv(s.sender, cfg.policy) && WellFormed(s.cache)
    requires Remembers(s, cfg, key, frame, responses, now) && C.DecodeFrame(frame) == Ok(request)
    ensures var r := Settled(Received(s, Ok(Completed)), cfg, key, now);
            && (if OneByteId(key) then
                  r.outcome == Ok(Completed) && ConfirmedBy(s.immediate, s.sender, r.state, key, Durable(request, responses))
                else r.outcome == Err(Unsendable) && r.state == s)
            && Remembers(r.state, cfg, key, frame, responses, now) && r.state.core == s.core
  {
    hide OneByteId, P.Recall, C.DecodeFrame, BP.Inv, ConfirmReceipt, WellFormed, ConfirmedBy, Durable;
    if OneByteId(key) {
      ConfirmReceiptIs(s, cfg, key, now, request, P.Answer(frame, responses, now));
      ConfirmRemembers(s, cfg, key, now, frame, responses);
    }
  }

  // A fragment that belongs to no remembered answer.
  ghost predicate Arrives(s: State, cfg: Settings, peer: string, body: string, f: Fragment, env: Env) {
    && ValidPeer(peer) && ParseFragment(body) == Ok(f)
    && P.Recall(s.cache, cfg.limits, KeyOf(peer, f), env.now).answer.None?
  }

  lemma ArrivalCollected(s: State, cfg: Settings, peer: string, body: string, f: Fragment, env: Env)
    requires cfg.Valid() && Arrives(s, cfg, peer, body, f, env)
    ensures var noted := Consulted(s, cfg, KeyOf(peer, f), env.now)
                         .(tracker := Noted(s.tracker, cfg, KeyOf(peer, f), f, env.now));
            Receive(s, cfg, peer, body, env)
            == Settled(Collect(noted, cfg, peer, f, env, CommitId(body)), cfg, KeyOf(peer, f), env.now)
  {
    hide ParseFragment, ParseControl, ValidPeer, P.Recall, Noted, Collect, Settled, CommitId;
    if ParseControl(body).Some? {
      SP.ControlOrFragment(body);
      assert false;
    }
  }

  // The transmit side and Core are as they were, and only `told` is waiting more.
  predicate OnlyTells(s: State, t: State, told: seq<Packet>) {
    t.sender == s.sender && t.core == s.core && t.immediate == s.immediate + told
  }

  // What such an arrival comes to, when no request is executed.
  ghost predicate EndsUnexecuted(result: R.AddResult, d: Disposition) {
    match result
    case Waiting => d == FragmentHeld
    case Conflict => d == ConflictFound
    case Invalid => d == InvalidFound
    case Complete(frame) => d == InvalidFound && C.DecodeFrame(frame).Ok? && !AsksCore(C.DecodeFrame(frame).value)
  }

  lemma CollectedUnexecuted(s: State, cfg: Settings, peer: string, body: string, f: Fragment, env: Env, d: Disposition)
    requires cfg.Valid() && ValidPeer(peer) && EndsUnexecuted(R.Add(s.table, cfg.bounds, peer, f, env.now).result, d)
    requires P.Recall(s.cache, cfg.limits, KeyOf(peer, f), env.now).answer.None?
    ensures var r := Collect(s, cfg, peer, f, env, CommitId(body));
            && r.outcome == Ok(d) && r.state.tracker == s.tracker
            && OnlyTells(s, r.state, if d == FragmentHeld then [] else Refusal(peer, body))
  {
    hide ValidPeer, P.Recall, R.Add, C.DecodeFrame, CommitId, Refusal, Rejected, Repeated, Execute;
    var held := s.(table := R.Add(s.table, cfg.bounds, peer, f, env.now).table);
    RejectedIs(held, peer, body);
    RejectedIs(Consulted(held, cfg, KeyOf(peer, f), env.now), peer, body);
  }

  lemma SettledUnexecuted(r: Received, cfg: Settings, key: Key, now: nat, d: Disposition)
    requires r.outcome == Ok(d) && (d == FragmentHeld || d == ConflictFound || d == InvalidFound)
    ensures Settled(r, cfg, key, now) == if d == FragmentHeld then r else r.(state := Forgotten(r.state, key))
  {
    hide OneByteId, ConfirmReceipt, Delete;
  }

  // The fragment is noted: what was heard before, if it was of as many
  // fragments, and this one; and its transaction is waited for anew. No other
  // record changes.
  ghost predicate Records(t: Tracker, u: Tracker, cfg: Settings, key: Key, f: Fragment, now: nat) {
    && key in u.items
    && var p, known := u.items[key], key in t.items && t.items[key].total == f.total;
    && p.total == f.total && p.received == (if known then t.items[key].received else {}) + {f.index}
    && (p.sawFinal <==> f.index == f.total - 1 || (known && t.items[key].sawFinal))
    && p.deadline == now + Polling.Patience(cfg, p.sawFinal)
    && forall k :: k != key ==> (k in u.items <==> k in t.items) && (k in t.items ==> u.items[k] == t.items[k])
  }

  lemma NotedRecords(t: Tracker, cfg: Settings, key: Key, f: Fragment, now: nat)
    ensures Records(t, Noted(t, cfg, key, f, now), cfg, key, f, now)
  {
  }

  // A fragment that completes nothing is held without a word, and noted. One
  // that contradicts what is held, or completes something that is no request, ends
  // its transaction and is rejected if it asked for a commitment.
  lemma OtherArrivals(s: State, cfg: Settings, peer: string, body: string, f: Fragment, env: Env, d: Disposition)
    requires cfg.Valid() && WellFormed(s.cache) && Arrives(s, cfg, peer, body, f, env)
    requires EndsUnexecuted(R.Add(s.table, cfg.bounds, peer, f, env.now).result, d)
    ensures var r, key := Receive(s, cfg, peer, body, env), KeyOf(peer, f);
            && r.outcome == Ok(d)
            && OnlyTells(s, r.state, if d == FragmentHeld then [] else Refusal(peer, body))
            && (d == FragmentHeld ==> Records(s.tracker, r.state.tracker, cfg, key, f, env.now))
            && (d != FragmentHeld ==> key !in r.state.tracker.items)
  {
    hide ParseFragment, ValidPeer, P.Recall, R.Add, C.DecodeFrame, CommitId, Receive, Refusal, Collect, Settled, WellFormed;
    hide Noted, Records;
    NotedRecords(s.tracker, cfg, KeyOf(peer, f), f, env.now);
    var key := KeyOf(peer, f);
    ArrivalCollected(s, cfg, peer, body, f, env);
    AMO.RecallAgain(s.cache, cfg.limits, key, env.now);
    var noted := Consulted(s, cfg, key, env.now).(tracker := Noted(s.tracker, cfg, key, f, env.now));
    CollectedUnexecuted(noted, cfg, peer, body, f, env, d);
    SettledUnexecuted(Collect(noted, cfg, peer, f, env, CommitId(body)), cfg, key, env.now, d);
  }

  // A request that no valid caller makes, or on which Core raises, is not
  // answered: the exception escapes, and nothing is sent or remembered.
  lemma UnansweredRequest(s: State, cfg: Settings, peer: string, callsign: Bytes, body: string, f: Fragment, frame: Bytes,
                          request: C.Object, env: Env)
    requires cfg.Valid() && WellFormed(s.cache) && Arrives(s, cfg, peer, body, f, env) && CallsignIs(peer, callsign)
    requires R.Add(s.table, cfg.bounds, peer, f, env.now).result == R.Complete(frame)
    requires C.DecodeFrame(frame) == Ok(request) && AsksCore(request)
    ensures var r, h := Receive(s, cfg, peer, body, env), Handling(s, cfg, callsign, frame, env);
            && (!IsCallsign(callsign) ==> r.outcome == Err(BadCaller) && OnlyTells(s, r.state, []))
            && (IsCallsign(callsign) && h.frames.Err? ==>
                  && r.outcome == Err(CoreFailed(h.frames.error)) && r.state.core == h.state
                  && r.state.sender == s.sender && r.state.immediate == s.immediate)
  {
    hide ParseFragment, ValidPeer, P.Recall, R.Add, C.DecodeFrame, CommitId, Receive, WellFormed, Noted, CallsignOf, CallsignIs;
    hide Core.HandleFrame, IsCallsign, Executed, Repeated;
    ArrivalCollected(s, cfg, peer, body, f, env);
    AMO.RecallAgain(s.cache, cfg.limits, KeyOf(peer, f), env.now);
    CallsignFound(peer, callsign);
    assert s.immediate + [] == s.immediate;
  }

  // A body that is neither control message nor fragment changes nothing; it is
  // rejected only if it asked for a commitment and is no acknowledgement.
  lemma OtherBodies(s: State, cfg: Settings, peer: string, body: string, env: Env)
    requires cfg.Valid() && ValidPeer(peer) && ParseControl(body).None? && ParseFragment(body).Err?
    ensures var told := if IsPacketAck(body) then [] else Refusal(peer, body);
            Receive(s, cfg, peer, body, env) == Received(s.(immediate := s.immediate + told), Ok(Ignored))
  {
    hide ParseFragment, ParseControl, ValidPeer, CommitId, Refusal, Rejected, IsPacketAck;
    RejectedIs(s, peer, body);
    assert s.immediate + [] == s.immediate;
  }

  // ---------------------------------------------------------- routed messages

  // A message routed to a station is queued as one burst that the decoder reads
  // back as that message, sent unasked, and that reports its delivery; it is
  // queued exactly when it can be encoded and the sender accepts its frame.
  lemma RoutedMessageIsQueued(s: State, cfg: Settings, endpoint: string, message: C.Object) returns (r: Request)
    requires message.Message? && message.sequence >= 0 && BP.Inv(s.sender, cfg.policy)
    ensures var d := Deliver(s, cfg, endpoint, message);
            && d.state == s.(sender := d.state.sender)
            && (C.EncodePayload(message).Err? ==> d == Delivered(s, Err(Unframeable)))
            && (C.EncodePayload(message).Ok? ==>
                  && C.DecodeFrameWithFlags(r.frame) == Ok(C.Flagged(message, 1))
                  && r == Request(endpoint, r.frame, true, Some(Delivery(message.recipient, message.sequence)), None, true)
                  && d.result == QueueFrame(s.sender, cfg.policy, r).result
                  && (d.result.Ok? <==> Q.Accepts(Q.Cleared(s.sender, r), cfg.policy, r))
                  && (d.result.Ok? ==>
                        && d.state.sender.queue != []
                        && Q.Joins(Q.Cleared(s.sender, r), d.state.sender, r, d.result.value,
                                   d.state.sender.queue[|d.state.sender.queue| - 1])))
  {
    hide C.EncodePayload, C.DecodeFrameWithFlags, C.EncodeFrame, QueueFrame, BP.Inv, Q.Joins, Q.Accepts, Q.Cleared, Q.Without;
    CodecProofs.SizeCheckNeverFires(message, true);
    var frame := if C.EncodeFrame(message, true).Ok? then C.EncodeFrame(message, true).value else [];
    r := Request(endpoint, frame, true, Some(Delivery(message.recipient, message.sequence)), None, true);
    if C.EncodeFrame(message, true).Ok? {
      CodecProofs.FrameParses(message, true, frame);
      Q.QueueFrameIsExact(s.sender, cfg.policy, r);
    }
  }
}
