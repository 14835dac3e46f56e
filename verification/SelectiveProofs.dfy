// The selective adapter over whole runs: each step extends its transmit side by
// the moves the event allows, so all that is proved of those moves holds of it.
module SelectiveProofs {
  import opened Prelude
  import opened Text
  import opened Ordered
  import opened Carriage
  import opened Control
  import opened Burst
  import opened Selective
  import R = Reassembly
  import P = Replay
  import RP = ReplayProofs
  import C = Codec
  import Core
  import BP = BurstProofs
  import BR = BurstRuns
  import BO = BurstOutcomes

  datatype Event =
    | Arrive(peer: string, body: string, env: Env)
    | Tick(now: nat)
    | Route(endpoint: string, message: C.Object)

  predicate ValidEvent(e: Event) {
    e.Route? ==> e.message.Message? && e.message.sequence >= 0
  }

  function Step(s: State, cfg: Settings, e: Event): State
    requires cfg.Valid() && ValidEvent(e)
  {
    match e
    case Arrive(peer, body, env) => Receive(s, cfg, peer, body, env).state
    case Tick(now) => Poll(s, cfg, now).state
    case Route(endpoint, message) => Deliver(s, cfg, endpoint, message).state
  }

  function Start(core: Core.State): State {
    State(IDLE, Empty(), Empty(), Empty(), [], core, [])
  }

  ghost predicate Valid(cfg: Settings, events: seq<Event>) {
    cfg.Valid() && forall i :: 0 <= i < |events| ==> ValidEvent(events[i])
  }

  function After(cfg: Settings, core: Core.State, events: seq<Event>, n: nat): State
    requires Valid(cfg, events) && n <= |events|
  {
    if n == 0 then Start(core) else Step(After(cfg, core, events, n - 1), cfg, events[n - 1])
  }

  // ------------------------------------------------------- the transmit side

  // The transmit side after some moves, made one after another.
  function Run(s: Sender, p: Policy, moves: seq<BR.Event>): Sender {
    if moves == [] then s else BR.Step(Run(s, p, moves[..|moves| - 1]), p, moves[|moves| - 1])
  }

  // A move made to answer transaction `key`.
  predicate Answers(m: BR.Event, key: Key) {
    match m
    case Enqueue(r) => !r.proactive && r.peer == key.peer && r.batch == Some(key)
    case NewBatch(peer, batch) => peer == key.peer && batch == key
    case StoredBatch(batch) => batch == key
    case _ => false
  }

  ghost predicate AllAnswer(moves: seq<BR.Event>, key: Key) {
    forall i :: 0 <= i < |moves| ==> Answers(moves[i], key)
  }

  // From s to t by moves that answer `key`.
  ghost predicate Led(s: Sender, p: Policy, key: Key, moves: seq<BR.Event>, t: Sender) {
    Run(s, p, moves) == t && AllAnswer(moves, key)
  }

  lemma RunAppend(s: Sender, p: Policy, moves: seq<BR.Event>, m: BR.Event)
    ensures Run(s, p, moves + [m]) == BR.Step(Run(s, p, moves), p, m)
  {
    hide BR.Step;
    assert (moves + [m])[..|moves|] == moves;
  }

  lemma {:induction false} RunConcat(s: Sender, p: Policy, a: seq<BR.Event>, b: seq<BR.Event>)
    ensures Run(s, p, a + b) == Run(Run(s, p, a), p, b)
  {
    hide BR.Step;
    if b == [] {
      assert a + b == a;
    } else {
      var shorter, last := b[..|b| - 1], b[|b| - 1];
      RunConcat(s, p, a, shorter);
      assert a + b == (a + shorter) + [last];
      RunAppend(s, p, a + shorter, last);
    }
  }

  lemma LedOne(s: Sender, p: Policy, key: Key, m: BR.Event) returns (moves: seq<BR.Event>)
    requires Answers(m, key)
    ensures Led(s, p, key, moves, BR.Step(s, p, m))
  {
    hide Run;
    RunOne(s, p, m);
    moves := [m];
  }

  lemma LedThen(s: Sender, p: Policy, key: Key, a: seq<BR.Event>, t: Sender, b: seq<BR.Event>, u: Sender)
    requires Led(s, p, key, a, t) && Led(t, p, key, b, u)
    ensures Led(s, p, key, a + b, u)
  {
    hide Run, Answers;
    RunConcat(s, p, a, b);
  }

  lemma {:induction false} QueueAllLed(s: Sender, p: Policy, key: Key, responses: seq<Bytes>, supersedable: bool, firstTime: bool, n: nat)
    returns (moves: seq<BR.Event>)
    requires n <= |responses|
    ensures Led(s, p, key, moves, QueueAll(s, p, key, responses, supersedable, firstTime, n).sender)
  {
    hide QueueFrame, Led;
    if n == 0 {
      moves := [];
      LedNowhere(s, p, key);
    } else {
      moves := QueueAllLed(s, p, key, responses, supersedable, firstTime, n - 1);
      var before := QueueAll(s, p, key, responses, supersedable, firstTime, n - 1);
      if before.failure.None? {
        var more := LedOne(before.sender, p, key, BR.Enqueue(ResponseRequest(key, responses[n - 1], supersedable, firstTime)));
        LedThen(s, p, key, moves, before.sender, more, QueueAll(s, p, key, responses, supersedable, firstTime, n).sender);
        moves := moves + more;
      }
    }
  }

  lemma LedNowhere(s: Sender, p: Policy, key: Key)
    ensures Led(s, p, key, [], s)
  {
  }

  lemma RespondLed(s: State, cfg: Settings, key: Key, responses: seq<Bytes>, supersedable: bool, firstTime: bool, d: Disposition)
    returns (moves: seq<BR.Event>)
    ensures Led(s.sender, cfg.policy, key, moves, Respond(s, cfg, key, responses, supersedable, firstTime, d).state.sender)
  {
    hide Led, QueueAll;
    moves := QueueAllLed(s.sender, cfg.policy, key, responses, supersedable, firstTime, |responses|);
  }

  lemma SupersedeLed(s: Sender, p: Policy, key: Key) returns (moves: seq<BR.Event>)
    ensures Led(s, p, key, moves, SupersedeStale(s, key.peer, key))
  {
    hide Led, SupersedeStale;
    moves := LedOne(s, p, key, BR.NewBatch(key.peer, key));
  }

  lemma ExecutedLed(s: State, cfg: Settings, key: Key, frame: Bytes, responses: seq<Bytes>, commitId: Option<string>, now: nat)
    returns (moves: seq<BR.Event>)
    ensures Led(s.sender, cfg.policy, key, moves, Executed(s, cfg, key, frame, responses, commitId, now).state.sender)
  {
    hide Led, SupersedeStale, P.Remember, IsSend, WasStored, Respond;
    moves := SupersedeLed(s.sender, cfg.policy, key);
    if !(IsSend(frame) && commitId.Some?) {
      var kept := s.(sender := SupersedeStale(s.sender, key.peer, key),
                     cache := P.Remember(s.cache, cfg.limits, key, frame, responses, now),
                     trail := s.trail + [RP.Store(key, frame, responses, now)]);
      var more := RespondLed(kept, cfg, key, responses, !IsSend(frame), true, Completed);
      LedThen(s.sender, cfg.policy, key, moves, kept.sender, more, Executed(s, cfg, key, frame, responses, commitId, now).state.sender);
      moves := moves + more;
    }
  }

  lemma RepeatedLed(s: State, cfg: Settings, key: Key, frame: Bytes, answer: P.Answer, commitId: Option<string>)
    returns (moves: seq<BR.Event>)
    ensures Led(s.sender, cfg.policy, key, moves, Repeated(s, cfg, key, frame, answer, commitId).state.sender)
  {
    hide Led, SupersedeStale, IsSend, WasStored, Respond;
    moves := [];
    LedNowhere(s.sender, cfg.policy, key);
    if answer.request == frame {
      moves := SupersedeLed(s.sender, cfg.policy, key);
      if !(IsSend(frame) && commitId.Some?) {
        var cleared := s.(sender := SupersedeStale(s.sender, key.peer, key));
        var more := RespondLed(cleared, cfg, key, answer.responses, !IsSend(frame), false, Replayed);
        LedThen(s.sender, cfg.policy, key, moves, cleared.sender, more, Repeated(s, cfg, key, frame, answer, commitId).state.sender);
        moves := moves + more;
      }
    }
  }

  lemma AssembledLed(s: State, cfg: Settings, key: Key, frame: Bytes, env: Env, commitId: Option<string>)
    returns (moves: seq<BR.Event>)
    requires ValidPeer(key.peer)
    ensures Led(s.sender, cfg.policy, key, moves, Assembled(s, cfg, key, frame, env, commitId).state.sender)
  {
    hide Led, P.Recall, Executed, Repeated, C.DecodeFrame, IsRequest, Core.HandleFrame, CallsignOf, ValidPeer;
    moves := [];
    LedNowhere(s.sender, cfg.policy, key);
    var looked := Consulted(s, cfg, key, env.now);
    var found := P.Recall(s.cache, cfg.limits, key, env.now).answer;
    if found.Some? {
      moves := RepeatedLed(looked, cfg, key, frame, found.value, commitId);
    } else if C.DecodeFrame(frame).Ok? && IsRequest(C.DecodeFrame(frame).value) {
      moves := ExecuteLed(looked, cfg, key, frame, env, commitId);
    }
  }

  lemma ExecuteLed(s: State, cfg: Settings, key: Key, frame: Bytes, env: Env, commitId: Option<string>)
    returns (moves: seq<BR.Event>)
    requires ValidPeer(key.peer)
    ensures Led(s.sender, cfg.policy, key, moves, Execute(s, cfg, key, frame, env, commitId).state.sender)
  {
    hide Led, Executed, Core.HandleFrame, CallsignOf, ValidPeer;
    moves := [];
    LedNowhere(s.sender, cfg.policy, key);
    var h := Core.HandleFrame(s.core, cfg.board, CallsignOf(key.peer), frame, env.clock, env.text);
    if IsCallsign(CallsignOf(key.peer)) && h.frames.Ok? {
      moves := ExecutedLed(s.(core := h.state), cfg, key, frame, h.frames.value, commitId, env.now);
    }
  }

  lemma ConfirmLed(s: State, cfg: Settings, key: Key, now: nat) returns (moves: seq<BR.Event>)
    requires OneByteId(key)
    ensures Led(s.sender, cfg.policy, key, moves, ConfirmReceipt(s, cfg, key, now).sender)
  {
    hide Led, P.Recall, CompactBatch, IsSend, WasStored, OneByteId;
    moves := [];
    LedNowhere(s.sender, cfg.policy, key);
    if ConfirmReceipt(s, cfg, key, now).sender != s.sender {
      moves := LedOne(s.sender, cfg.policy, key, BR.StoredBatch(key));
    }
  }

  lemma SettledLed(r: Received, cfg: Settings, key: Key, now: nat) returns (moves: seq<BR.Event>)
    ensures Led(r.state.sender, cfg.policy, key, moves, Settled(r, cfg, key, now).state.sender)
  {
    hide Led, ConfirmReceipt, OneByteId;
    moves := [];
    LedNowhere(r.state.sender, cfg.policy, key);
    if r.outcome.Ok? && (r.outcome.value == Completed || r.outcome.value == Replayed) && OneByteId(key) {
      moves := ConfirmLed(r.state, cfg, key, now);
    }
  }

  lemma HandleFragmentLed(s: State, cfg: Settings, peer: string, f: Fragment, env: Env, commitId: Option<string>)
    returns (moves: seq<BR.Event>)
    requires cfg.Valid() && ValidPeer(peer)
    ensures Led(s.sender, cfg.policy, R.Key(peer, f.transactionId), moves, HandleFragment(s, cfg, peer, f, env, commitId).state.sender)
  {
    hide Led, Settled, Assembled, R.Add, Noted, ValidPeer;
    var key := R.Key(peer, f.transactionId);
    var noted := s.(tracker := Noted(s.tracker, cfg, key, f, env.now));
    var added := R.Add(s.table, cfg.bounds, peer, f, env.now);
    moves := [];
    LedNowhere(s.sender, cfg.policy, key);
    if added.result.Complete? {
      moves := AssembledLed(noted.(table := added.table), cfg, key, added.result.frame, env, commitId);
    }
    var r := Collect(noted, cfg, peer, f, env, commitId);
    var more := SettledLed(r, cfg, key, env.now);
    LedThen(s.sender, cfg.policy, key, moves, r.state.sender, more, Settled(r, cfg, key, env.now).state.sender);
    moves := moves + more;
  }

  // ------------------------------------------------------------- whole steps

  // What event `e` may make the transmit side do.
  predicate Permitted(e: Event, m: BR.Event) {
    match e
    case Tick(now) => m == BR.Poll(now)
    case Route(endpoint, message) => m.Enqueue? && m.request.proactive && m.request.peer == endpoint
    case Arrive(peer, body, _) =>
      match ParseControl(body)
      case Some(Ack(id)) => m == BR.Acked(peer, id)
      case Some(Missing(id, missing)) => m == BR.Nacked(peer, id, missing)
      case None => ParseFragment(body).Ok? && Answers(m, R.Key(peer, ParseFragment(body).value.transactionId))
  }

  ghost predicate AllPermitted(e: Event, moves: seq<BR.Event>) {
    forall i :: 0 <= i < |moves| ==> Permitted(e, moves[i])
  }

  predicate Raises(s: State, cfg: Settings, now: nat) {
    Poll(s, cfg, now).packets.Err?
  }

  // The step takes the transmit side through `moves` and through nothing else:
  // a poll makes one move, unless it raises, and a control message at most one.
  ghost predicate Makes(s: State, cfg: Settings, e: Event, moves: seq<BR.Event>)
    requires cfg.Valid() && ValidEvent(e)
  {
    && Step(s, cfg, e).sender == Run(s.sender, cfg.policy, moves)
    && AllPermitted(e, moves)
    && (e.Tick? ==> moves == if Raises(s, cfg, e.now) then [] else [BR.Poll(e.now)])
    && (e.Arrive? && ParseControl(e.body).Some? ==> |moves| <= 1)
  }

  lemma RunNone(s: Sender, p: Policy)
    ensures Run(s, p, []) == s
  {
  }

  lemma RunOne(s: Sender, p: Policy, m: BR.Event)
    ensures Run(s, p, [m]) == BR.Step(s, p, m)
  {
    hide BR.Step;
    assert [m][..0] == [];
  }

  lemma LedPermitted(peer: string, body: string, env: Env, moves: seq<BR.Event>)
    requires ParseControl(body).None? && ParseFragment(body).Ok?
    requires AllAnswer(moves, R.Key(peer, ParseFragment(body).value.transactionId))
    ensures AllPermitted(Arrive(peer, body, env), moves)
  {
    hide ParseControl, ParseFragment, Answers;
  }

  // No body is both a control message and a fragment.
  lemma ControlOrFragment(body: string)
    requires ParseControl(body).Some?
    ensures ParseFragment(body).Err?
  {
    hide ParseFragment, SingleByte, MissingOf, ParseHex4;
    if StartsWith(body, "Q2") {
      FragmentIsNoControl(body);
    } else {
      if |body| >= 4 {
        assert body[2] == body[..4][2] == body[..3][2];
      }
      OtherPrefixIsNoFragment(body);
    }
  }

  lemma ControlMoves(s: State, cfg: Settings, peer: string, body: string, env: Env) returns (moves: seq<BR.Event>)
    requires cfg.Valid() && ParseControl(body).Some?
    ensures Makes(s, cfg, Arrive(peer, body, env), moves)
  {
    hide ParseControl, ParseFragment, BR.Acknowledge, BR.Repair, InFlight, Wanted, ValidPeer, Run;
    ControlOrFragment(body);
    RunNone(s.sender, cfg.policy);
    var control := ParseControl(body).value;
    var m := if control.Ack? then BR.Acked(peer, control.transactionId) else BR.Nacked(peer, control.transactionId, control.indices);
    RunOne(s.sender, cfg.policy, m);
    moves := if Step(s, cfg, Arrive(peer, body, env)).sender == s.sender then [] else [m];
  }

  lemma FragmentMoves(s: State, cfg: Settings, peer: string, body: string, env: Env) returns (moves: seq<BR.Event>)
    requires cfg.Valid() && ParseControl(body).None? && ValidPeer(peer) && ParseFragment(body).Ok?
    ensures Makes(s, cfg, Arrive(peer, body, env), moves)
  {
    hide ParseControl, ParseFragment, ValidPeer, P.Recall, ConfirmReceipt, HandleFragment, OneByteId, Run;
    hide AllAnswer, CommitId;
    var f := ParseFragment(body).value;
    var key := R.Key(peer, f.transactionId);
    var looked := Consulted(s, cfg, key, env.now);
    RunNone(s.sender, cfg.policy);
    LedNowhere(s.sender, cfg.policy, key);
    if P.Recall(s.cache, cfg.limits, key, env.now).answer.None? {
      moves := HandleFragmentLed(looked, cfg, peer, f, env, CommitId(body));
    } else if OneByteId(key) {
      moves := ConfirmLed(Forgotten(looked, key), cfg, key, env.now);
    } else {
      moves := [];
    }
    LedPermitted(peer, body, env, moves);
  }

  // Whatever happens, the transmit side makes only the moves the event allows.
  lemma StepMoves(s: State, cfg: Settings, e: Event) returns (moves: seq<BR.Event>)
    requires cfg.Valid() && ValidEvent(e)
    ensures Makes(s, cfg, e, moves)
  {
    hide ParseControl, ParseFragment, Unguarded, ValidPeer, QueueFrame, PollSender, Nudge, C.EncodeFrame, Run;
    RunNone(s.sender, cfg.policy);
    moves := [];
    match e
    case Arrive(peer, body, env) =>
      if ParseControl(body).Some? {
        moves := ControlMoves(s, cfg, peer, body, env);
      } else if ValidPeer(peer) && ParseFragment(body).Ok? {
        moves := FragmentMoves(s, cfg, peer, body, env);
      } else {
        UnreadableMoves(s, cfg, peer, body, env);
      }
    case Tick(now) =>
      RunOne(s.sender, cfg.policy, BR.Poll(now));
      moves := if Raises(s, cfg, now) then [] else [BR.Poll(now)];
    case Route(endpoint, message) =>
      var frame := C.EncodeFrame(message, true);
      if frame.Ok? {
        var m := BR.Enqueue(Request(endpoint, frame.value, true, Some(Delivery(message.recipient, message.sequence)), None, true));
        RunOne(s.sender, cfg.policy, m);
        moves := [m];
      }
  }

  lemma UnreadableMoves(s: State, cfg: Settings, peer: string, body: string, env: Env)
    requires cfg.Valid() && ParseControl(body).None? && (!ValidPeer(peer) || ParseFragment(body).Err?)
    ensures Receive(s, cfg, peer, body, env).state.sender == s.sender
  {
    hide ParseControl, ParseFragment, ValidPeer, CommitId, IsPacketAck;
  }

  // So every state of the transmit side is one of its own runs'.
  lemma {:induction false} RunMoves(cfg: Settings, core: Core.State, events: seq<Event>, n: nat) returns (moves: seq<BR.Event>)
    requires Valid(cfg, events) && n <= |events|
    ensures Run(IDLE, cfg.policy, moves) == After(cfg, core, events, n).sender
  {
    hide Run, Step;
    if n == 0 {
      moves := [];
      RunNone(IDLE, cfg.policy);
    } else {
      var before := RunMoves(cfg, core, events, n - 1);
      var more := StepMoves(After(cfg, core, events, n - 1), cfg, events[n - 1]);
      RunConcat(IDLE, cfg.policy, before, more);
      moves := before + more;
    }
  }

  lemma {:induction false} RunIsAfter(p: Policy, moves: seq<BR.Event>, n: nat)
    requires n <= |moves|
    ensures Run(IDLE, p, moves[..n]) == BR.After(p, moves, n)
  {
    hide BR.Step;
    if n == 0 {
    } else {
      RunIsAfter(p, moves, n - 1);
      assert moves[..n] == moves[..n - 1] + [moves[n - 1]];
      RunAppend(IDLE, p, moves[..n - 1], moves[n - 1]);
    }
  }

  // And in every state the adapter reaches: ids distinct per peer, load within
  // capacity, requests that can be met, attempts within bounds; each burst sent
  // at most maxAttempts times and gone at most once; transmissions to a peer
  // spaced apart; Core told of each delivery just when its burst left for good;
  // nothing proactive superseded.
  lemma SenderSafe(cfg: Settings, core: Core.State, events: seq<Event>, n: nat, order: nat)
    requires Valid(cfg, events) && n <= |events|
    ensures var s := After(cfg, core, events, n).sender;
            && BP.Inv(s, cfg.policy) && BR.Accounted(s, cfg.policy, order)
            && BO.Orderly(s, cfg.policy) && BO.FarewellsJustified(s, cfg.policy)
  {
    hide After, BP.Inv, BR.Accounted, BO.Orderly, BO.FarewellsJustified, BR.After, Run;
    var moves := RunMoves(cfg, core, events, n);
    RunIsAfter(cfg.policy, moves, |moves|);
    assert moves[..|moves|] == moves;
    BR.RunKeepsInv(cfg.policy, moves, |moves|);
    BR.RunAccounts(cfg.policy, moves, |moves|, order);
    BO.RunOrderly(cfg.policy, moves, |moves|);
    BO.RunJustified(cfg.policy, moves, |moves|);
  }
}
