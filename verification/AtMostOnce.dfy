// Core executes a transaction at most once while its answer is remembered.
module AtMostOnce {
  import opened Prelude
  import opened Text
  import opened Ordered
  import opened Carriage
  import opened Control
  import opened Burst
  import opened Selective
  import opened SelectiveProofs
  import R = Reassembly
  import P = Replay
  import RP = ReplayProofs
  import C = Codec
  import Core
  import CP = CoreProofs
  import CR = CoreRuns

  // The cache is what its trail of uses made it, and every request Core
  // executed was missing from the cache when it came to be stored.
  ghost predicate Traced(cache: P.Cache, lim: P.Limits, trail: seq<RP.Event>) {
    && cache == RP.After(lim, trail, |trail|)
    && forall j :: 0 <= j < |trail| && trail[j].Store? ==> Unanswered(lim, trail, j)
  }

  ghost predicate TrailOk(s: State, cfg: Settings) {
    Traced(s.cache, cfg.limits, s.trail)
  }

  ghost predicate Unanswered(lim: P.Limits, trail: seq<RP.Event>, j: nat)
    requires j < |trail| && trail[j].Store?
  {
    trail[j].key !in RP.After(lim, trail, j).items
  }

  lemma {:induction false} TrailPrefix(lim: P.Limits, trail: seq<RP.Event>, more: seq<RP.Event>, n: nat)
    requires n <= |trail|
    ensures RP.After(lim, trail + more, n) == RP.After(lim, trail, n)
  {
    hide RP.Step;
    if n == 0 {
    } else {
      TrailPrefix(lim, trail, more, n - 1);
    }
  }

  // One more use of the cache.
  lemma TraceGrows(cache: P.Cache, lim: P.Limits, trail: seq<RP.Event>, e: RP.Event)
    requires Traced(cache, lim, trail) && (e.Store? ==> e.key !in cache.items)
    ensures Traced(RP.Step(cache, lim, e), lim, trail + [e])
  {
    hide RP.Step, RP.After;
    var more := trail + [e];
    LastStep(lim, trail, e);
    forall j | 0 <= j < |more| && more[j].Store?
      ensures Unanswered(lim, more, j)
    {
      TrailPrefix(lim, trail, [e], j);
      if j < |trail| {
        assert trail[j] == more[j];
        assert Unanswered(lim, trail, j);
      }
    }
  }

  lemma TrailGrows(s: State, cfg: Settings, e: RP.Event, t: State)
    requires TrailOk(s, cfg) && t.trail == s.trail + [e] && t.cache == RP.Step(s.cache, cfg.limits, e)
    requires e.Store? ==> e.key !in s.cache.items
    ensures TrailOk(t, cfg)
  {
    hide Traced;
    TraceGrows(s.cache, cfg.limits, s.trail, e);
  }

  // Between two executions of one request its answer was lost, for a reason.
  lemma TwiceHasReason(cache: P.Cache, lim: P.Limits, trail: seq<RP.Event>, i: nat, j: nat)
    requires lim.Valid() && Traced(cache, lim, trail)
    requires i < j < |trail| && trail[i].Store? && trail[j].Store? && trail[i].key == trail[j].key
    requires forall m :: i < m < j && trail[m].Store? ==> trail[m].key != trail[i].key
    ensures RP.AgedOut(lim, trail, i, j) || RP.CrowdedOut(lim, trail, trail[i].key, i, j)
  {
    hide RP.After, RP.AgedOut, RP.CrowdedOut;
    assert Unanswered(lim, trail, j);
    RP.MissHasReason(lim, trail, i, j);
  }

  lemma LastStep(lim: P.Limits, trail: seq<RP.Event>, e: RP.Event)
    ensures RP.After(lim, trail + [e], |trail| + 1) == RP.Step(RP.After(lim, trail, |trail|), lim, e)
  {
    hide RP.Step;
    TrailPrefix(lim, trail, [e], |trail|);
  }

  lemma ConsultedTrail(s: State, cfg: Settings, key: Key, now: nat)
    requires TrailOk(s, cfg)
    ensures TrailOk(Consulted(s, cfg, key, now), cfg)
    ensures P.Recall(s.cache, cfg.limits, key, now).answer.None? ==> key !in Consulted(s, cfg, key, now).cache.items
  {
    hide TrailOk;
    TrailGrows(s, cfg, RP.Lookup(key, now), Consulted(s, cfg, key, now));
  }

  lemma ConfirmTrail(s: State, cfg: Settings, key: Key, now: nat)
    requires TrailOk(s, cfg) && OneByteId(key)
    ensures TrailOk(ConfirmReceipt(s, cfg, key, now), cfg)
    ensures ConfirmReceipt(s, cfg, key, now).core == s.core && Stores(ConfirmReceipt(s, cfg, key, now).trail) == Stores(s.trail)
  {
    hide P.Recall, IsSend, WasStored, CompactBatch, RP.After, Unanswered, OneByteId;
    var acked := s.(immediate := s.immediate + [AckPacket(key)]);
    SameTrail(s, cfg, acked);
    ConsultedTrail(acked, cfg, key, now);
    StoresAppend(s.trail, RP.Lookup(key, now));
    SameTrail(Consulted(acked, cfg, key, now), cfg, ConfirmReceipt(s, cfg, key, now));
  }

  lemma SameTrail(s: State, cfg: Settings, t: State)
    requires t.trail == s.trail && t.cache == s.cache
    ensures TrailOk(s, cfg) ==> TrailOk(t, cfg)
  {
  }

  // How many requests Core has executed.
  function Stores(trail: seq<RP.Event>): nat {
    if trail == [] then 0
    else Stores(trail[..|trail| - 1]) + if trail[|trail| - 1].Store? then 1 else 0
  }

  lemma StoresAppend(trail: seq<RP.Event>, e: RP.Event)
    ensures Stores(trail + [e]) == Stores(trail) + if e.Store? then 1 else 0
  {
    assert (trail + [e])[..|trail|] == trail;
  }

  // Either Core was left alone, or it executed one request and the trail says
  // so.
  ghost predicate Counted(s: State, t: State) {
    || (t.core == s.core && Stores(t.trail) == Stores(s.trail))
    || Stores(t.trail) == Stores(s.trail) + 1
  }

  lemma RespondFrame(s: State, cfg: Settings, key: Key, responses: seq<Bytes>, supersedable: bool, firstTime: bool, d: Disposition)
    ensures var t := Respond(s, cfg, key, responses, supersedable, firstTime, d).state;
            t.trail == s.trail && t.cache == s.cache && t.core == s.core && t.table == s.table && t.tracker == s.tracker
  {
    hide QueueAll;
  }

  lemma ExecutedTrail(s: State, cfg: Settings, key: Key, frame: Bytes, responses: seq<Bytes>, commitId: Option<string>, now: nat)
    requires TrailOk(s, cfg) && key !in s.cache.items
    ensures var t := Executed(s, cfg, key, frame, responses, commitId, now).state;
            TrailOk(t, cfg) && Stores(t.trail) == Stores(s.trail) + 1 && t.table == s.table && t.tracker == s.tracker
  {
    hide IsSend, WasStored, SupersedeStale, P.Remember, Respond, TrailOk;
    var kept := s.(sender := SupersedeStale(s.sender, key.peer, key),
                   cache := P.Remember(s.cache, cfg.limits, key, frame, responses, now),
                   trail := s.trail + [RP.Store(key, frame, responses, now)]);
    TrailGrows(s, cfg, RP.Store(key, frame, responses, now), kept);
    StoresAppend(s.trail, RP.Store(key, frame, responses, now));
    RespondFrame(kept, cfg, key, responses, !IsSend(frame), true, Completed);
    SameTrail(kept, cfg, Executed(s, cfg, key, frame, responses, commitId, now).state);
  }

  lemma RepeatedTrail(s: State, cfg: Settings, key: Key, frame: Bytes, answer: P.Answer, commitId: Option<string>)
    requires TrailOk(s, cfg)
    ensures var t := Repeated(s, cfg, key, frame, answer, commitId).state;
            TrailOk(t, cfg) && t.trail == s.trail && t.core == s.core && t.table == s.table && t.tracker == s.tracker
  {
    hide IsSend, WasStored, SupersedeStale, Respond, TrailOk;
    var cleared := s.(sender := SupersedeStale(s.sender, key.peer, key));
    RespondFrame(cleared, cfg, key, answer.responses, !IsSend(frame), false, Replayed);
    SameTrail(s, cfg, Repeated(s, cfg, key, frame, answer, commitId).state);
  }

  ghost predicate CoreSafe(s: State, cfg: Settings) {
    CP.CoreInv(s.core)
  }

  // Core refuses to run only on its clock, and then nothing has changed.
  lemma FailedHandling(s: Core.State, board: Core.Board, callsign: Bytes, frame: Bytes, clock: int, text: Core.PlainText)
    requires CP.CoreInv(s)
    ensures var h := Core.HandleFrame(s, board, callsign, frame, clock, text);
            && CP.CoreInv(h.state)
            && (h.frames.Err? ==> h.state == s)
  {
    hide CP.CoreInv, Core.HandleFrame, Core.Answered, CP.ReadBack, C.DecodeFrame, CP.ClockFails;
    CP.HandlingIsClosed(s, board, callsign, frame, clock, text);
    CR.StoredMeansStored(s, board, callsign, frame, clock, text);
    HandledState(s, board, callsign, frame, clock, text);
  }

  lemma HandledState(s: Core.State, board: Core.Board, callsign: Bytes, frame: Bytes, clock: int, text: Core.PlainText)
    ensures var h := Core.HandleFrame(s, board, callsign, frame, clock, text);
            var a := Core.Answered(s, board, callsign, frame, clock, text);
            h.state == a.state && (h.frames.Err? ==> a.answer != Ok([C.Stored]))
  {
    hide Core.Answered;
    var a := Core.Answered(s, board, callsign, frame, clock, text);
    if a.answer == Ok([C.Stored]) {
      CP.StoredEncodable();
      CP.EncodedReadBack([C.Stored]);
    }
  }

  lemma ExecuteTrail(s: State, cfg: Settings, key: Key, frame: Bytes, env: Env, commitId: Option<string>)
    requires TrailOk(s, cfg) && key !in s.cache.items && ValidPeer(key.peer) && CoreSafe(s, cfg)
    ensures var t := Execute(s, cfg, key, frame, env, commitId).state;
            TrailOk(t, cfg) && Counted(s, t) && CoreSafe(t, cfg) && t.table == s.table && t.tracker == s.tracker
  {
    hide Executed, TrailOk, CallsignOf, IsCallsign, ValidPeer, Core.HandleFrame, CP.CoreInv, Stores;
    FailedHandling(s.core, cfg.board, CallsignOf(key.peer), frame, env.clock, env.text);
    var h := Core.HandleFrame(s.core, cfg.board, CallsignOf(key.peer), frame, env.clock, env.text);
    if IsCallsign(CallsignOf(key.peer)) {
      SameTrail(s, cfg, s.(core := h.state));
      if h.frames.Ok? {
        ExecutedTrail(s.(core := h.state), cfg, key, frame, h.frames.value, commitId, env.now);
        ExecutedCore(s.(core := h.state), cfg, key, frame, h.frames.value, commitId, env.now);
      }
    }
  }

  lemma ExecutedCore(s: State, cfg: Settings, key: Key, frame: Bytes, responses: seq<Bytes>, commitId: Option<string>, now: nat)
    ensures Executed(s, cfg, key, frame, responses, commitId, now).state.core == s.core
  {
    hide IsSend, WasStored, SupersedeStale, P.Remember, QueueAll;
  }

  lemma AssembledTrail(s: State, cfg: Settings, key: Key, frame: Bytes, env: Env, commitId: Option<string>)
    requires TrailOk(s, cfg) && ValidPeer(key.peer) && CoreSafe(s, cfg)
    ensures var t := Assembled(s, cfg, key, frame, env, commitId).state;
            TrailOk(t, cfg) && Counted(s, t) && CoreSafe(t, cfg) && t.table == s.table && t.tracker == s.tracker
  {
    hide P.Recall, Repeated, Execute, C.DecodeFrame, IsRequest, TrailOk, ValidPeer, Stores, CoreSafe;
    var looked := Consulted(s, cfg, key, env.now);
    var found := P.Recall(s.cache, cfg.limits, key, env.now).answer;
    ConsultedTrail(s, cfg, key, env.now);
    StoresAppend(s.trail, RP.Lookup(key, env.now));
    SameCore(s, cfg, looked);
    if found.Some? {
      RepeatedTrail(looked, cfg, key, frame, found.value, commitId);
      SameCore(looked, cfg, Repeated(looked, cfg, key, frame, found.value, commitId).state);
    } else {
      ExecuteTrail(looked, cfg, key, frame, env, commitId);
    }
    SameTrail(looked, cfg, Rejected(looked, key.peer, commitId));
    SameCore(looked, cfg, Rejected(looked, key.peer, commitId));
  }

  lemma SameCore(s: State, cfg: Settings, t: State)
    requires t.core == s.core
    ensures CoreSafe(s, cfg) ==> CoreSafe(t, cfg)
  {
  }

  lemma SettledTrail(r: Received, cfg: Settings, key: Key, now: nat)
    requires TrailOk(r.state, cfg)
    ensures var t := Settled(r, cfg, key, now).state;
            TrailOk(t, cfg) && t.core == r.state.core && Stores(t.trail) == Stores(r.state.trail)
  {
    hide ConfirmReceipt, TrailOk, Stores, OneByteId;
    if OneByteId(key) {
      ConfirmTrail(r.state, cfg, key, now);
      var c := ConfirmReceipt(r.state, cfg, key, now);
      SameTrail(c, cfg, Forgotten(c, key));
    }
    SameTrail(r.state, cfg, Forgotten(r.state, key));
  }

  lemma HandleFragmentTrail(s: State, cfg: Settings, peer: string, f: Fragment, env: Env, commitId: Option<string>)
    requires cfg.Valid() && ValidPeer(peer) && TrailOk(s, cfg) && CoreSafe(s, cfg)
    ensures var t := HandleFragment(s, cfg, peer, f, env, commitId).state;
            TrailOk(t, cfg) && Counted(s, t) && CoreSafe(t, cfg)
  {
    hide Settled, Assembled, R.Add, Noted, ValidPeer, TrailOk, Stores, CoreSafe;
    var key := R.Key(peer, f.transactionId);
    var noted := s.(tracker := Noted(s.tracker, cfg, key, f, env.now));
    var added := R.Add(s.table, cfg.bounds, peer, f, env.now);
    var held := noted.(table := added.table);
    SameTrail(s, cfg, held);
    SameCore(s, cfg, held);
    SameTrail(s, cfg, Rejected(held, peer, commitId));
    SameCore(s, cfg, Rejected(held, peer, commitId));
    if added.result.Complete? {
      AssembledTrail(held, cfg, key, added.result.frame, env, commitId);
    }
    var r := Collect(noted, cfg, peer, f, env, commitId);
    SettledTrail(r, cfg, key, env.now);
    SameCore(r.state, cfg, Settled(r, cfg, key, env.now).state);
  }

  lemma ControlFrame(s: State, peer: string, control: Control)
    ensures var t := HandleControl(s, peer, control).state;
            t.trail == s.trail && t.cache == s.cache && t.core == s.core && t.table == s.table && t.tracker == s.tracker
  {
    hide InFlight, Wanted;
  }

  lemma UnguardedTrail(s: State, cfg: Settings, peer: string, body: string, env: Env)
    requires cfg.Valid() && TrailOk(s, cfg) && CoreSafe(s, cfg)
    ensures var t := Unguarded(s, cfg, peer, body, env).state;
            TrailOk(t, cfg) && Counted(s, t) && CoreSafe(t, cfg)
  {
    hide ParseControl, ParseFragment, HandleFragment, HandleControl, ValidPeer, CommitId, IsPacketAck;
    hide TrailOk, Stores, CoreSafe;
    var control := ParseControl(body);
    if ValidPeer(peer) {
      if control.Some? {
        ControlFrame(s, peer, control.value);
        SameTrail(s, cfg, HandleControl(s, peer, control.value).state);
        SameCore(s, cfg, HandleControl(s, peer, control.value).state);
      } else if ParseFragment(body).Ok? {
        HandleFragmentTrail(s, cfg, peer, ParseFragment(body).value, env, CommitId(body));
      } else {
        SameTrail(s, cfg, Rejected(s, peer, CommitId(body)));
        SameCore(s, cfg, Rejected(s, peer, CommitId(body)));
      }
    }
  }

  lemma ReceiveTrail(s: State, cfg: Settings, peer: string, body: string, env: Env)
    requires cfg.Valid() && TrailOk(s, cfg) && CoreSafe(s, cfg)
    ensures var t := Receive(s, cfg, peer, body, env).state;
            TrailOk(t, cfg) && Counted(s, t) && CoreSafe(t, cfg)
  {
    hide ParseFragment, Unguarded, ValidPeer, P.Recall, ConfirmReceipt, TrailOk, Stores, CoreSafe, OneByteId;
    UnguardedTrail(s, cfg, peer, body, env);
    if ValidPeer(peer) && ParseFragment(body).Ok? {
      var key := R.Key(peer, ParseFragment(body).value.transactionId);
      var looked := Consulted(s, cfg, key, env.now);
      ConsultedTrail(s, cfg, key, env.now);
      StoresAppend(s.trail, RP.Lookup(key, env.now));
      SameCore(s, cfg, looked);
      UnguardedTrail(looked, cfg, peer, body, env);
      SameTrail(looked, cfg, Forgotten(looked, key));
      SameCore(s, cfg, Forgotten(looked, key));
      if OneByteId(key) {
        ConfirmTrail(Forgotten(looked, key), cfg, key, env.now);
        SameCore(s, cfg, ConfirmReceipt(Forgotten(looked, key), cfg, key, env.now));
      }
    }
  }

  lemma StepTrail(s: State, cfg: Settings, e: Event)
    requires cfg.Valid() && ValidEvent(e) && TrailOk(s, cfg) && CoreSafe(s, cfg)
    ensures var t := Step(s, cfg, e);
            TrailOk(t, cfg) && Counted(s, t) && CoreSafe(t, cfg)
  {
    hide Receive, QueueFrame, PollSender, Nudge, C.EncodeFrame, TrailOk, Stores, CoreSafe, RP.After;
    match e
    case Arrive(peer, body, env) => ReceiveTrail(s, cfg, peer, body, env);
    case Tick(now) =>
      if Raises(s, cfg, now) {
        SameTrail(s, cfg, Poll(s, cfg, now).state);
      } else {
        TrailGrows(s, cfg, RP.Sweep(now), Poll(s, cfg, now).state);
        StoresAppend(s.trail, RP.Sweep(now));
      }
      SameCore(s, cfg, Poll(s, cfg, now).state);
    case Route(endpoint, message) =>
      SameTrail(s, cfg, Deliver(s, cfg, endpoint, message).state);
      SameCore(s, cfg, Deliver(s, cfg, endpoint, message).state);
  }

  lemma {:induction false} RunTrail(cfg: Settings, core: Core.State, events: seq<Event>, n: nat)
    requires Valid(cfg, events) && n <= |events| && CoreSafe(Start(core), cfg)
    ensures TrailOk(After(cfg, core, events, n), cfg) && CoreSafe(After(cfg, core, events, n), cfg)
  {
    hide Step, TrailOk, CoreSafe;
    if n == 0 {
      NoTrail(cfg, core);
    } else {
      RunTrail(cfg, core, events, n - 1);
      StepTrail(After(cfg, core, events, n - 1), cfg, events[n - 1]);
    }
  }

  lemma NoTrail(cfg: Settings, core: Core.State)
    ensures TrailOk(Start(core), cfg)
  {
  }

  // Over any run of arrivals, polls and deliveries: if Core executes two
  // requests for the same (peer, transaction), with none for it in between,
  // then meanwhile the first answer aged past its time-to-live, or as many
  // other answers were used after its last use as the cache may hold.
  lemma ExecutedAtMostOnce(cfg: Settings, core: Core.State, events: seq<Event>, n: nat, i: nat, j: nat)
    requires Valid(cfg, events) && n <= |events| && CoreSafe(Start(core), cfg)
    requires var trail := After(cfg, core, events, n).trail;
             && i < j < |trail| && trail[i].Store? && trail[j].Store? && trail[i].key == trail[j].key
             && forall m :: i < m < j && trail[m].Store? ==> trail[m].key != trail[i].key
    ensures var trail := After(cfg, core, events, n).trail;
            RP.AgedOut(cfg.limits, trail, i, j) || RP.CrowdedOut(cfg.limits, trail, trail[i].key, i, j)
  {
    hide After, CoreSafe, Traced, RP.AgedOut, RP.CrowdedOut;
    RunTrail(cfg, core, events, n);
    var s := After(cfg, core, events, n);
    TwiceHasReason(s.cache, cfg.limits, s.trail, i, j);
  }

  // Core, and with it the mailbox, changes only with an execution so counted.
  lemma CoreChangesOnlyByExecution(cfg: Settings, core: Core.State, events: seq<Event>, n: nat)
    requires Valid(cfg, events) && n < |events| && CoreSafe(Start(core), cfg)
    ensures var s, t := After(cfg, core, events, n), After(cfg, core, events, n + 1);
            && Stores(s.trail) <= Stores(t.trail) <= Stores(s.trail) + 1
            && (Stores(t.trail) == Stores(s.trail) ==> t.core == s.core)
  {
    hide Step, TrailOk, CoreSafe, Stores;
    RunTrail(cfg, core, events, n);
    StepTrail(After(cfg, core, events, n), cfg, events[n]);
  }

  // ------------------------------------------------------ answered fragments

  lemma RecallAgain(c: P.Cache, lim: P.Limits, key: Key, now: nat)
    requires WellFormed(c)
    ensures P.Recall(P.Recall(c, lim, key, now).cache, lim, key, now).answer == P.Recall(c, lim, key, now).answer
  {
  }

  // While the answer is remembered, a late or repeated fragment reaches
  // neither Core nor the reassembler and its repair record is gone. It is
  // answered by A2, and by S2 with the now redundant response bursts dropped
  // when the answer was STORED; or, exactly when its id is too wide for A2, the
  // call raises with nothing answered and no burst touched.
  lemma AnsweredFragment(s: State, cfg: Settings, peer: string, body: string, env: Env, answer: P.Answer)
    requires cfg.Valid() && ValidPeer(peer) && ParseFragment(body).Ok? && WellFormed(s.cache)
    requires P.Recall(s.cache, cfg.limits, R.Key(peer, ParseFragment(body).value.transactionId), env.now).answer == Some(answer)
    ensures var key := R.Key(peer, ParseFragment(body).value.transactionId);
            var r := Receive(s, cfg, peer, body, env);
            && r.outcome == (if OneByteId(key) then Ok(Replayed) else Err(Unsendable))
            && r.state.core == s.core && r.state.table == s.table
            && r.state.tracker == Delete(s.tracker, key)
            && (OneByteId(key) ==> Acknowledged(s, r.state, key, IsSend(answer.request) && WasStored(answer.responses)))
            && (!OneByteId(key) ==> r.state.immediate == s.immediate && r.state.sender == s.sender)
  {
    hide ParseFragment, Unguarded, ValidPeer, IsSend, WasStored, CompactBatch, P.Recall, Delete, OneByteId;
    var key := R.Key(peer, ParseFragment(body).value.transactionId);
    RecallAgain(s.cache, cfg.limits, key, env.now);
    if OneByteId(key) {
      var acks := s.immediate + [AckPacket(key)];
      assert acks + [] == acks;
    }
  }

  ghost predicate Acknowledged(s: State, t: State, key: Key, durable: bool)
    requires OneByteId(key)
  {
    && t.immediate == s.immediate + [AckPacket(key)] + (if durable then [StoredPacket(key)] else [])
    && t.sender == (if durable then CompactBatch(s.sender, key) else s.sender)
  }
}
