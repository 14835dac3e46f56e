// The stop-and-wait adapter, too, executes a transaction at most once while its
// answer is remembered.
module StopAndWaitOnce {
  import opened Prelude
  import opened Text
  import opened Ordered
  import opened Carriage
  import opened StopAndWait
  import AO = AtMostOnce
  import B = Burst
  import S = Selective
  import SR = StopAndWaitReceive
  import R = Reassembly
  import P = Replay
  import RP = ReplayProofs
  import C = Codec
  import Core
  import CP = CoreProofs

  ghost predicate Sound(s: State, cfg: Settings) {
    AO.Traced(s.cache, cfg.limits, s.trail) && CP.CoreInv(s.core)
  }

  // Either Core was left alone, or it executed one request and the trail says
  // so.
  ghost predicate Counted(s: State, t: State) {
    || (t.core == s.core && AO.Stores(t.trail) == AO.Stores(s.trail))
    || AO.Stores(t.trail) == AO.Stores(s.trail) + 1
  }

  // Cache, trail and Core are as they were.
  predicate SameMemory(s: State, t: State) {
    t.cache == s.cache && t.trail == s.trail && t.core == s.core
  }

  lemma SameSound(s: State, t: State, cfg: Settings)
    requires SameMemory(s, t)
    ensures (Sound(t, cfg) <==> Sound(s, cfg)) && Counted(s, t)
  {
    hide AO.Traced, CP.CoreInv, AO.Stores;
  }

  lemma RespondMemory(s: State, cfg: Settings, key: Key, responses: seq<Bytes>, supersedable: bool, firstTime: bool, d: S.Disposition)
    requires cfg.transactionSpace > 0
    ensures SameMemory(s, Respond(s, cfg, key, responses, supersedable, firstTime, d).state)
  {
    hide QueueAll;
  }

  lemma RepeatedMemory(s: State, cfg: Settings, key: Key, frame: Bytes, answer: P.Answer, commitId: Option<string>)
    requires cfg.transactionSpace > 0
    ensures SameMemory(s, Repeated(s, cfg, key, frame, answer, commitId).state)
  {
    hide SupersedeStale, Respond, S.IsSend, S.WasStored, SameMemory;
    SameIsSame(s, key, commitId, S.WasStored(answer.responses));
    SameIsSame(s, key, commitId, true);
    SameIsSame(s, key, commitId, false);
    var ready := Confirm(Superseded(s, key), key.peer, commitId, true);
    RespondMemory(ready, cfg, key, answer.responses, !S.IsSend(frame), false, S.Replayed);
    MemoryThen(s, ready, Repeated(s, cfg, key, frame, answer, commitId).state);
  }

  lemma SameIsSame(s: State, key: Key, commitId: Option<string>, accepted: bool)
    ensures SameMemory(s, Confirm(Superseded(s, key), key.peer, commitId, accepted))
    ensures SameMemory(s, Confirm(s, key.peer, commitId, accepted))
  {
    hide SupersedeStale;
  }

  lemma MemoryThen(s: State, t: State, u: State)
    ensures SameMemory(s, t) && SameMemory(t, u) ==> SameMemory(s, u)
  {
  }

  // The answer is stored, once, and nothing else is done to memory.
  lemma ExecutedMemory(s: State, cfg: Settings, key: Key, frame: Bytes, responses: seq<Bytes>, commitId: Option<string>, now: nat)
    requires cfg.transactionSpace > 0
    ensures var t := Executed(s, cfg, key, frame, responses, commitId, now).state;
            && t.trail == s.trail + [RP.Store(key, frame, responses, now)]
            && t.cache == P.Remember(s.cache, cfg.limits, key, frame, responses, now) && t.core == s.core
  {
    hide SupersedeStale, Respond, S.IsSend, S.WasStored, P.Remember;
    var kept := Superseded(s, key).(cache := P.Remember(s.cache, cfg.limits, key, frame, responses, now),
                                    trail := s.trail + [RP.Store(key, frame, responses, now)]);
    RespondMemory(kept, cfg, key, responses, !S.IsSend(frame), true, S.Completed);
  }

  lemma ExecutedSound(s: State, cfg: Settings, key: Key, frame: Bytes, responses: seq<Bytes>, commitId: Option<string>, now: nat)
    requires cfg.transactionSpace > 0 && Sound(s, cfg) && key !in s.cache.items
    ensures var t := Executed(s, cfg, key, frame, responses, commitId, now).state;
            Sound(t, cfg) && AO.Stores(t.trail) == AO.Stores(s.trail) + 1
  {
    hide Executed, AO.Traced, CP.CoreInv, AO.Stores, P.Remember;
    ExecutedMemory(s, cfg, key, frame, responses, commitId, now);
    AO.TraceGrows(s.cache, cfg.limits, s.trail, RP.Store(key, frame, responses, now));
    AO.StoresAppend(s.trail, RP.Store(key, frame, responses, now));
  }

  lemma ExecuteSound(s: State, cfg: Settings, key: Key, frame: Bytes, request: C.Object, env: S.Env, commitId: Option<string>)
    requires B.ValidPeer(key.peer) && cfg.transactionSpace > 0 && Sound(s, cfg) && key !in s.cache.items
    ensures var t := Execute(s, cfg, key, frame, request, env, commitId).state;
            Sound(t, cfg) && Counted(s, t)
  {
    hide Executed, Sound, Core.HandleFrame, S.CallsignOf, IsCallsign, B.ValidPeer, Reconcile, AO.Stores;
    var confirmed := if request.SendMessage? then s else Confirm(s, key.peer, commitId, true);
    SameSound(s, confirmed, cfg);
    if IsCallsign(S.CallsignOf(key.peer)) {
      var ready := Reconciled(confirmed, key, request);
      SameSound(s, ready, cfg);
      var h := Core.HandleFrame(ready.core, cfg.board, S.CallsignOf(key.peer), frame, env.clock, env.text);
      CoreOf(ready, cfg);
      AO.FailedHandling(ready.core, cfg.board, S.CallsignOf(key.peer), frame, env.clock, env.text);
      NewCore(ready, cfg, h.state);
      if h.frames.Ok? {
        ExecutedSound(ready.(core := h.state), cfg, key, frame, h.frames.value, commitId, env.now);
      }
    }
  }

  lemma CoreOf(s: State, cfg: Settings)
    requires Sound(s, cfg)
    ensures CP.CoreInv(s.core)
  {
  }

  lemma NewCore(s: State, cfg: Settings, core: Core.State)
    requires Sound(s, cfg) && CP.CoreInv(core)
    ensures Sound(s.(core := core), cfg)
  {
    hide AO.Traced, CP.CoreInv;
  }

  lemma LookedSound(s: State, cfg: Settings, key: Key, now: nat)
    requires Sound(s, cfg)
    ensures var looked := s.(cache := P.Recall(s.cache, cfg.limits, key, now).cache, trail := s.trail + [RP.Lookup(key, now)]);
            && Sound(looked, cfg) && Counted(s, looked) && AO.Stores(looked.trail) == AO.Stores(s.trail)
            && (P.Recall(s.cache, cfg.limits, key, now).answer.None? ==> key !in looked.cache.items)
  {
    hide AO.Traced, CP.CoreInv, AO.Stores;
    AO.TraceGrows(s.cache, cfg.limits, s.trail, RP.Lookup(key, now));
    AO.StoresAppend(s.trail, RP.Lookup(key, now));
  }

  lemma AssembledSound(s: State, cfg: Settings, key: Key, frame: Bytes, env: S.Env, commitId: Option<string>)
    requires B.ValidPeer(key.peer) && cfg.transactionSpace > 0 && Sound(s, cfg)
    ensures var t := Assembled(s, cfg, key, frame, env, commitId).state;
            Sound(t, cfg) && Counted(s, t)
  {
    hide P.Recall, Repeated, Execute, C.DecodeFrame, S.IsRequest, Sound, B.ValidPeer, AO.Stores;
    var found := P.Recall(s.cache, cfg.limits, key, env.now);
    var looked := s.(cache := found.cache, trail := s.trail + [RP.Lookup(key, env.now)]);
    LookedSound(s, cfg, key, env.now);
    if found.answer.Some? {
      RepeatedMemory(looked, cfg, key, frame, found.answer.value, commitId);
      SameSound(looked, Repeated(looked, cfg, key, frame, found.answer.value, commitId).state, cfg);
    } else if C.DecodeFrame(frame).Ok? && S.IsRequest(C.DecodeFrame(frame).value) {
      ExecuteSound(looked, cfg, key, frame, C.DecodeFrame(frame).value, env, commitId);
    } else {
      SameSound(looked, Confirm(looked, key.peer, commitId, false), cfg);
    }
  }

  lemma CollectSound(s: State, cfg: Settings, peer: string, f: Fragment, env: S.Env, commitId: Option<string>)
    requires cfg.bounds.Valid() && B.ValidPeer(peer) && cfg.transactionSpace > 0 && Sound(s, cfg)
    ensures var t := Collect(s, cfg, peer, f, env, commitId).state;
            Sound(t, cfg) && Counted(s, t)
  {
    hide R.Add, Assembled, Sound, B.ValidPeer, AO.Stores;
    var added := R.Add(s.table, cfg.bounds, peer, f, env.now);
    var held := s.(table := added.table);
    SameSound(s, held, cfg);
    if added.result.Complete? {
      AssembledSound(held, cfg, R.Key(peer, f.transactionId), added.result.frame, env, commitId);
    } else {
      SameSound(s, Collect(s, cfg, peer, f, env, commitId).state, cfg);
    }
  }

  lemma ReceiveSound(s: State, cfg: Settings, peer: string, body: string, env: S.Env)
    requires cfg.bounds.Valid() && cfg.transactionSpace > 0 && Sound(s, cfg)
    ensures var t := Receive(s, cfg, peer, body, env).state;
            Sound(t, cfg) && Counted(s, t)
  {
    hide Collect, Sound, B.ValidPeer, ParseFragment, S.CommitId, S.MessageId, S.IsPacketAck, Acknowledge;
    hide FindPending, AO.Stores;
    var heard := if S.CommitId(body).None? then Confirm(s, peer, S.MessageId(body), true) else s;
    SameSound(s, heard, cfg);
    if B.ValidPeer(peer) && !S.IsPacketAck(body) && ParseFragment(body).Ok? {
      CollectSound(heard, cfg, peer, ParseFragment(body).value, env, S.CommitId(body));
    } else {
      SameSound(s, Receive(s, cfg, peer, body, env).state, cfg);
    }
  }

  lemma StepSound(s: State, cfg: Settings, e: SR.AdapterEvent)
    requires cfg.bounds.Valid() && cfg.transactionSpace > 0 && Sound(s, cfg)
    ensures var t := SR.AdapterStep(s, cfg, e);
            Sound(t, cfg) && Counted(s, t)
  {
    hide Receive, PollWaiter, QueueFrame, Sound, Deliveries, AO.Stores, RP.After;
    match e
    case Arrive(peer, body, env) => ReceiveSound(s, cfg, peer, body, env);
    case Tick(now) => SweptSound(s, cfg, now);
    case Route(request) => SameSound(s, SR.AdapterStep(s, cfg, e), cfg);
    case Lost => SameSound(s, SR.AdapterStep(s, cfg, e), cfg);
  }

  lemma SweptSound(s: State, cfg: Settings, now: nat)
    requires Sound(s, cfg)
    ensures Sound(Poll(s, cfg, now).state, cfg) && Counted(s, Poll(s, cfg, now).state)
  {
    hide PollWaiter, AO.Traced, CP.CoreInv, AO.Stores;
    AO.TraceGrows(s.cache, cfg.limits, s.trail, RP.Sweep(now));
    AO.StoresAppend(s.trail, RP.Sweep(now));
  }

  // An adapter that remembers nothing yet.
  predicate Fresh(s: State) {
    s.cache == Empty() && s.trail == []
  }

  lemma {:induction false} RunSound(s: State, cfg: Settings, events: seq<SR.AdapterEvent>, n: nat)
    requires cfg.bounds.Valid() && cfg.transactionSpace > 0 && n <= |events| && Fresh(s) && CP.CoreInv(s.core)
    ensures Sound(SR.AdapterAfter(s, cfg, events, n), cfg)
  {
    hide SR.AdapterStep, Sound;
    if n == 0 {
      FreshSound(s, cfg);
    } else {
      RunSound(s, cfg, events, n - 1);
      StepSound(SR.AdapterAfter(s, cfg, events, n - 1), cfg, events[n - 1]);
    }
  }

  lemma FreshSound(s: State, cfg: Settings)
    requires Fresh(s) && CP.CoreInv(s.core)
    ensures Sound(s, cfg)
  {
    hide CP.CoreInv;
  }

  // Over any run of arrivals, polls, routed frames and lost connections: two
  // executions of one (peer, transaction), with none in between, mean that the
  // answer aged out or came to be least recently used and was crowded out.
  lemma ExecutedAtMostOnce(s: State, cfg: Settings, events: seq<SR.AdapterEvent>, n: nat, i: nat, j: nat)
    requires cfg.Valid() && n <= |events| && Fresh(s) && CP.CoreInv(s.core)
    requires var trail := SR.AdapterAfter(s, cfg, events, n).trail;
             && i < j < |trail| && trail[i].Store? && trail[j].Store? && trail[i].key == trail[j].key
             && forall m :: i < m < j && trail[m].Store? ==> trail[m].key != trail[i].key
    ensures var trail := SR.AdapterAfter(s, cfg, events, n).trail;
            RP.AgedOut(cfg.limits, trail, i, j) || RP.CrowdedOut(cfg.limits, trail, trail[i].key, i, j)
  {
    hide SR.AdapterAfter, CP.CoreInv, AO.Traced, RP.AgedOut, RP.CrowdedOut, Fresh;
    RunSound(s, cfg, events, n);
    var t := SR.AdapterAfter(s, cfg, events, n);
    AO.TwiceHasReason(t.cache, cfg.limits, t.trail, i, j);
  }

  // And Core changes only with an execution so counted.
  lemma CoreChangesOnlyByExecution(s: State, cfg: Settings, events: seq<SR.AdapterEvent>, n: nat)
    requires cfg.bounds.Valid() && cfg.transactionSpace > 0 && n < |events| && Fresh(s) && CP.CoreInv(s.core)
    ensures var t, u := SR.AdapterAfter(s, cfg, events, n), SR.AdapterAfter(s, cfg, events, n + 1);
            && AO.Stores(t.trail) <= AO.Stores(u.trail) <= AO.Stores(t.trail) + 1
            && (AO.Stores(u.trail) == AO.Stores(t.trail) ==> u.core == t.core)
  {
    hide SR.AdapterStep, Sound, AO.Stores, CP.CoreInv, Fresh;
    RunSound(s, cfg, events, n);
    StepSound(SR.AdapterAfter(s, cfg, events, n), cfg, events[n]);
  }
}
