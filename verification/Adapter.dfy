// The selective adapter as the object it is: its methods change the queue, the
// bursts in flight and the bookkeeping in place, and each does exactly what the
// specification in Burst and Selective says.
module Adapter {
  import opened Prelude
  import opened Ordered
  import opened Carriage
  import opened Control
  import B = Burst
  import S = Selective
  import R = Reassembly
  import P = Replay
  import RP = ReplayProofs
  import C = Codec
  import Core
  import Text

  type Key = R.Key

  class SelectiveAdapter {
    const cfg: S.Settings
    const reassembly: R.Reassembler
    const replay: P.ReplayCache
    const core: Core.ServerCore

    var burstQueue: seq<B.Burst>
    var burstActive: seq<B.Burst>
    var nextTransaction: map<string, nat>
    var lastSend: map<string, nat>
    var burstOrder: nat
    var rxProgress: S.Tracker
    var immediate: seq<B.Packet>

    // What the methods have done, for the specification only.
    ghost var journal: seq<B.Entry>
    ghost var trail: seq<RP.Event>

    ghost predicate Valid()
      reads this, reassembly, replay
    {
      && cfg.Valid() && reassembly.bounds == cfg.bounds && replay.limits == cfg.limits
      && WellFormed(reassembly.entries) && WellFormed(replay.entries)
    }

    ghost function Sending(): B.Sender
      reads this
    {
      B.Sender(burstQueue, burstActive, nextTransaction, lastSend, burstOrder, journal)
    }

    ghost function Now(): S.State
      reads this, reassembly, replay, core, core.store
    {
      S.State(Sending(), rxProgress, reassembly.entries, replay.entries, immediate, core.Now(), trail)
    }

    constructor (cfg: S.Settings, core: Core.ServerCore)
      requires cfg.Valid()
      ensures Valid() && this.cfg == cfg && this.core == core
      ensures Sending() == B.IDLE && rxProgress == Empty() && immediate == [] && trail == []
      ensures reassembly.entries == Empty() && replay.entries == Empty()
    {
      this.cfg := cfg;
      this.core := core;
      this.reassembly := new R.Reassembler(cfg.bounds);
      this.replay := new P.ReplayCache(cfg.limits);
      this.burstQueue, this.burstActive, this.burstOrder := [], [], 0;
      this.nextTransaction, this.lastSend := map[], map[];
      this.rxProgress := Empty();
      this.immediate, this.journal, this.trail := [], [], [];
    }

    // -------------------------------------------------------- transmit side

    method Allocate(peer: string) returns (id: Option<string>)
      modifies this`nextTransaction
      ensures var found := B.Search(B.NextId(old(Sending()), peer), B.TakenIds(old(Sending()), peer), 256);
              id == found.id && nextTransaction == old(nextTransaction)[peer := found.next]
    {
      hide TransactionText, B.Search;
      ghost var start := B.NextId(Sending(), peer);
      var taken := set b | b in burstActive + burstQueue && b.peer == peer :: b.transactionId;
      assert taken == B.TakenIds(Sending(), peer);
      var next: nat := if peer in nextTransaction then nextTransaction[peer] else 0;
      for tries := 0 to 256
        invariant B.Search(start, taken, 256) == B.Search(next, taken, 256 - tries)
        invariant tries == 0 || peer in nextTransaction
        invariant tries > 0 ==> nextTransaction == old(nextTransaction)[peer := next]
        invariant tries == 0 ==> nextTransaction == old(nextTransaction)
      {
        SearchStep(next, taken, 256 - tries);
        var value: byte := next % 256;
        next := value + 1;
        nextTransaction := nextTransaction[peer := next];
        if TransactionText(value) !in taken {
          return Some(TransactionText(value));
        }
      }
      SearchEnds(next, taken);
      id := None;
    }

    method DropBursts(dropped: set<nat>, reason: B.Reason)
      modifies this`burstQueue, this`burstActive, this`journal
      ensures Sending() == B.Drop(old(Sending()), dropped, reason)
    {
      journal := journal + B.Departures(burstActive, dropped, reason) + B.Departures(burstQueue, dropped, reason);
      burstQueue := B.Kept(burstQueue, dropped);
      burstActive := B.Kept(burstActive, dropped);
    }

    method SupersedeForProactive(peer: string)
      modifies this`burstQueue, this`burstActive, this`journal
      ensures Sending() == B.Drop(old(Sending()), B.PushedOut(old(Sending()), peer), B.Superseded)
    {
      var active := B.ActiveOf(burstActive, peer);
      if active.None? || active.value.batch.None? || !active.value.supersedable {
        DropNobody(Sending(), B.Superseded);
        return;
      }
      var batch := active.value.batch;
      DropBursts({active.value.order} + set b | b in burstQueue && b.peer == peer && b.batch == batch :: b.order, B.Superseded);
    }

    method QueueFrame(r: B.Request) returns (result: Result<string, B.QueueError>)
      modifies this`burstQueue, this`burstActive, this`nextTransaction, this`burstOrder, this`journal
      ensures B.Queued(Sending(), result) == B.QueueFrame(old(Sending()), cfg.policy, r)
    {
      hide B.Search, B.Drop, B.PushedOut, B.TakenIds, FragmentFrame, B.Load, B.ValidPeer;
      if !B.ValidPeer(r.peer) {
        return Err(B.BadPeer);
      }
      if r.proactive {
        SupersedeForProactive(r.peer);
      }
      ghost var cleared := Sending();
      var id := Allocate(r.peer);
      ghost var found := B.Search(B.NextId(cleared, r.peer), B.TakenIds(cleared, r.peer), 256);
      assert id == found.id && Sending() == cleared.(nextId := cleared.nextId[r.peer := found.next]);
      if id.None? {
        return Err(B.NoFreeId);
      }
      var fragments := FragmentFrame(r.frame, id.value);
      if fragments.Err? {
        return Err(B.Unframeable);
      }
      if B.Load(burstQueue) + B.Load(burstActive) + |fragments.value| > cfg.policy.queueCapacity {
        return Err(B.QueueFull);
      }
      burstQueue := burstQueue + [B.NewBurst(r, id.value, fragments.value, burstOrder)];
      burstOrder := burstOrder + 1;
      result := Ok(id.value);
    }

    method SupersedeStale(peer: string, batch: Key)
      modifies this`burstQueue, this`burstActive, this`journal
      ensures Sending() == B.SupersedeStale(old(Sending()), peer, batch)
    {
      hide B.Drop, B.ActiveOf;
      var stale := set b | b in burstQueue && b.peer == peer && B.Replaceable(b) && b.batch.value != batch :: b.batch.value;
      var active := B.ActiveOf(burstActive, peer);
      if active.Some? && B.Replaceable(active.value) && active.value.batch.value != batch {
        stale := stale + {active.value.batch.value};
      }
      assert stale == B.StaleBatches(Sending(), peer, batch);
      if stale == {} {
        assert B.Outdated(Sending(), peer, batch) == {};
        DropNobody(Sending(), B.Superseded);
        return;
      }
      var dropped := set b | b in burstQueue && b.batch.Some? && b.batch.value in stale :: b.order;
      if active.Some? && active.value.batch.Some? && active.value.batch.value in stale {
        dropped := dropped + {active.value.order};
      }
      assert dropped == B.Outdated(Sending(), peer, batch);
      DropBursts(dropped, B.Superseded);
    }

    method CompactBatch(batch: Key)
      modifies this`burstQueue, this`burstActive, this`journal
      ensures Sending() == B.CompactBatch(old(Sending()), batch)
    {
      hide B.Drop, B.ActiveOf;
      var dropped := set b | b in burstQueue && b.batch == Some(batch) :: b.order;
      var active := B.ActiveOf(burstActive, batch.peer);
      if active.Some? && active.value.batch == Some(batch) {
        dropped := dropped + {active.value.order};
      }
      assert dropped == B.Redundant(Sending(), batch);
      DropBursts(dropped, B.Compacted);
    }

    method Leave(b: B.Burst, reason: B.Reason)
      modifies this`burstActive, this`journal
      ensures Sending() == B.Leave(old(Sending()), b, reason)
    {
      journal := B.Leave(Sending(), b, reason).journal;
      burstActive := B.Kept(burstActive, {b.order});
    }

    method Transmit(b: B.Burst, indices: set<nat>, now: nat) returns (packets: seq<B.Packet>)
      modifies this`burstActive, this`lastSend, this`journal
      ensures var s, c := old(Sending()), B.Again(b, cfg.policy, now);
              Sending() == B.Amend(s, c).(lastSend := s.lastSend[b.peer := now], journal := s.journal + [B.Transmitted(c, indices, now)])
      ensures packets == B.PacketsOf(B.Again(b, cfg.policy, now), indices, |b.fragments|)
    {
      var c := b.(requested := None, attempts := b.attempts + 1, deadline := now + cfg.policy.ackTimeout);
      packets := B.PacketsOf(c, indices, |b.fragments|);
      burstActive := B.Replaced(burstActive, c);
      lastSend := lastSend[b.peer := now];
      journal := journal + [B.Transmitted(c, indices, now)];
    }

    // One burst's turn in a poll.
    method PollBurst(b: B.Burst, now: nat) returns (packets: seq<B.Packet>)
      modifies this`burstActive, this`lastSend, this`journal
      ensures Sending() == B.PollBurst(old(Sending()), cfg.policy, b, now)
      ensures old(journal) <= journal && packets == B.Emitted(journal, |old(journal)|)
    {
      hide B.Replaced, B.Kept, B.PacketsOf, B.All, B.Emitted;
      NothingEmitted(journal);
      LeaveEmits(Sending(), b, B.Exhausted);
      var indices: Option<set<nat>> := None;
      if b.requested.Some? {
        indices := b.requested;
      } else if b.deadline != 0 && now >= b.deadline {
        if b.repairActive {
          if b.repairIndices.Some? && b.repairIndices.value != {} {
            indices := b.repairIndices;
          } else {
            Leave(b, B.Exhausted);
            return [];
          }
        } else {
          indices := Some(B.All(b));
        }
      }
      if indices.None? {
        return [];
      }
      if b.attempts >= cfg.policy.maxAttempts {
        Leave(b, B.Exhausted);
        return [];
      }
      if b.peer in lastSend && now - lastSend[b.peer] < cfg.policy.minInterval {
        burstActive := B.Replaced(burstActive, b.(requested := indices));
        return [];
      }
      OneEmitted(journal, B.Transmitted(B.Again(b, cfg.policy, now), indices.value, now));
      packets := Transmit(b, indices.value, now);
    }

    method PollActive(now: nat) returns (packets: seq<B.Packet>)
      modifies this`burstActive, this`lastSend, this`journal
      ensures Sending() == B.PollActive(old(Sending()), cfg.policy, old(burstActive), now, |old(burstActive)|)
      ensures old(journal) <= journal && packets == B.Emitted(journal, |old(journal)|)
    {
      hide B.PollBurst, B.Emitted;
      var snapshot := burstActive;
      packets := [];
      NothingEmitted(journal);
      for i := 0 to |snapshot|
        invariant Sending() == B.PollActive(old(Sending()), cfg.policy, snapshot, now, i)
        invariant old(journal) <= journal && packets == B.Emitted(journal, |old(journal)|)
      {
        ghost var before := journal;
        var more := PollBurst(snapshot[i], now);
        EmittedSplit(before, journal, |old(journal)|);
        packets := packets + more;
      }
    }

    // Queued bursts whose peer has none in flight, as far as the rate allows.
    method PollQueue(now: nat) returns (packets: seq<B.Packet>)
      modifies this`burstQueue, this`burstActive, this`lastSend, this`journal
      ensures var c := B.Candidates(old(burstQueue));
              Sending() == B.LaunchAll(old(Sending()), cfg.policy, c, now, |c|)
      ensures old(journal) <= journal && packets == B.Emitted(journal, |old(journal)|)
    {
      hide B.Emitted, B.Kept, B.ActiveOf, B.PacketsOf, B.Candidates, B.All;
      var candidates := B.Candidates(burstQueue);
      packets := [];
      NothingEmitted(journal);
      for i := 0 to |candidates|
        invariant Sending() == B.LaunchAll(old(Sending()), cfg.policy, candidates, now, i)
        invariant old(journal) <= journal && packets == B.Emitted(journal, |old(journal)|)
      {
        var b := candidates[i];
        if B.ActiveOf(burstActive, b.peer).Some? || (b.peer in lastSend && now - lastSend[b.peer] < cfg.policy.minInterval) {
          continue;
        }
        ghost var before := journal;
        var c := b.(attempts := 1, deadline := now + cfg.policy.ackTimeout);
        OneEmitted(journal, B.Transmitted(c, B.All(b), now));
        burstQueue := B.Kept(burstQueue, {b.order});
        burstActive := burstActive + [c];
        packets := packets + B.PacketsOf(c, B.All(b), |b.fragments|);
        lastSend := lastSend[b.peer := now];
        journal := journal + [B.Transmitted(c, B.All(b), now)];
        EmittedSplit(before, journal, |old(journal)|);
      }
    }

    // Repair requests for inbound transactions that have gone quiet.
    method Nudge(now: nat) returns (packets: Result<seq<B.Packet>, S.Failure>)
      modifies this`rxProgress
      ensures var n := S.Nudge(old(rxProgress), cfg, old(rxProgress).order, now, |old(rxProgress).order|);
              rxProgress == n.tracker && packets == if n.raised then Err(S.Unsendable) else Ok(n.packets)
    {
      hide Put, Delete, S.Unheard, EncodeMissing;
      var keys := rxProgress.order;
      var requests: seq<B.Packet> := [];
      for i := 0 to |keys|
        invariant S.Nudged(rxProgress, requests, false) == S.Nudge(old(rxProgress), cfg, keys, now, i)
      {
        var key := keys[i];
        if key !in rxProgress.items || now < rxProgress.items[key].deadline {
          continue;
        }
        var p := rxProgress.items[key];
        var missing := S.Unheard(p);
        if missing == {} {
          rxProgress := Delete(rxProgress, key);
          continue;
        }
        var text := EncodeMissing(key.transactionId, missing);
        if text.Err? {
          RaisedStays(old(rxProgress), cfg, keys, now, i + 1, |keys|);
          return Err(S.Unsendable);
        }
        requests := requests + [B.Packet(key.peer, text.value)];
        rxProgress := Put(rxProgress, key, p.(deadline := now + S.Grace(cfg, p.sawFinal)));
      }
      packets := Ok(requests);
    }

    method Poll(now: nat) returns (packets: Result<seq<B.Packet>, S.Failure>)
      requires Valid()
      modifies this, reassembly, replay
      ensures Valid()
      ensures S.PollResult(Now(), packets) == S.Poll(old(Now()), cfg, now)
    {
      hide B.PollActive, B.LaunchAll, B.Candidates, B.Emitted, S.Nudge, R.Expired, P.Aged, WellFormed;
      var waiting := immediate;
      immediate := [];
      var requests := Nudge(now);
      if requests.Err? {
        return requests;
      }
      ghost var start := journal;
      var again := PollActive(now);
      ghost var middle := journal;
      var first := PollQueue(now);
      EmittedSplit(middle, journal, |start|);
      packets := Ok(waiting + requests.value + (again + first));
      reassembly.Expire(now);
      replay.Expire(now);
      trail := trail + [RP.Sweep(now)];
    }

    // --------------------------------------------------------- receive side

    method Consult(key: Key, now: nat) returns (answer: Option<P.Answer>)
      requires Valid()
      modifies this`trail, replay
      ensures Valid()
      ensures Now() == S.Consulted(old(Now()), cfg, key, now)
      ensures answer == P.Recall(old(replay.entries), cfg.limits, key, now).answer
    {
      hide P.Recall, WellFormed;
      answer := replay.Lookup(key.peer, key.transactionId, now);
      trail := trail + [RP.Lookup(key, now)];
    }

    // A2, and S2 in place of the response bursts when the answer was STORED. An
    // id too wide for A2 stops it before anything is done.
    method ConfirmReceipt(key: Key, now: nat) returns (sent: bool)
      requires Valid()
      modifies this`burstQueue, this`burstActive, this`journal, this`immediate, this`trail, replay
      ensures Valid()
      ensures sent <==> S.OneByteId(key)
      ensures Now() == if S.OneByteId(key) then S.ConfirmReceipt(old(Now()), cfg, key, now) else old(Now())
    {
      hide P.Recall, WellFormed, B.CompactBatch, S.IsSend, S.WasStored, S.Consulted;
      var text := EncodeAck(key.transactionId);
      if text.Err? {
        return false;
      }
      sent := true;
      immediate := immediate + [B.Packet(key.peer, text.value)];
      ghost var acked := Now();
      var answer := Consult(key, now);
      ConsultedFields(acked, cfg, key, now);
      if answer.None? {
        return;
      }
      if !S.IsSend(answer.value.request) || !S.WasStored(answer.value.responses) {
        return;
      }
      CompactBatch(key);
      immediate := immediate + [S.StoredPacket(key)];
    }

    method Reject(peer: string, commitId: Option<string>)
      modifies this`immediate
      ensures Now() == S.Rejected(old(Now()), peer, commitId)
    {
      if commitId.Some? {
        immediate := immediate + [B.Packet(peer, "rej" + commitId.value)];
      }
    }

    method QueueAll(key: Key, responses: seq<Bytes>, supersedable: bool, firstTime: bool)
      returns (failure: Option<B.QueueError>)
      modifies this`burstQueue, this`burstActive, this`nextTransaction, this`burstOrder, this`journal
      ensures S.QueuedAll(Sending(), failure)
           == S.QueueAll(old(Sending()), cfg.policy, key, responses, supersedable, firstTime, |responses|)
    {
      hide B.QueueFrame, S.ResponseRequest;
      for i := 0 to |responses|
        invariant S.QueuedAll(Sending(), None)
               == S.QueueAll(old(Sending()), cfg.policy, key, responses, supersedable, firstTime, i)
      {
        var result := QueueFrame(S.ResponseRequest(key, responses[i], supersedable, firstTime));
        if result.Err? {
          FailureStays(old(Sending()), cfg.policy, key, responses, supersedable, firstTime, i + 1, |responses|);
          return Some(result.error);
        }
      }
      failure := None;
    }

    method Respond(key: Key, responses: seq<Bytes>, supersedable: bool, firstTime: bool, d: S.Disposition)
      returns (outcome: Result<S.Disposition, S.Failure>)
      modifies this`burstQueue, this`burstActive, this`nextTransaction, this`burstOrder, this`journal
      ensures S.Received(Now(), outcome) == S.Respond(old(Now()), cfg, key, responses, supersedable, firstTime, d)
    {
      hide S.QueueAll;
      var failure := QueueAll(key, responses, supersedable, firstTime);
      outcome := if failure.None? then Ok(d) else Err(S.QueueFailed(failure.value));
    }

    method Remember(key: Key, frame: Bytes, responses: seq<Bytes>, commitId: Option<string>, now: nat)
      returns (outcome: Result<S.Disposition, S.Failure>)
      requires Valid()
      modifies this, replay
      ensures Valid() && core.Now() == old(core.Now())
      ensures S.Received(Now(), outcome) == S.Executed(old(Now()), cfg, key, frame, responses, commitId, now)
    {
      hide P.Remember, WellFormed, B.SupersedeStale, S.IsSend, S.WasStored, S.Respond;
      SupersedeStale(key.peer, key);
      replay.Store(key.peer, key.transactionId, frame, responses, now);
      trail := trail + [RP.Store(key, frame, responses, now)];
      if S.IsSend(frame) && commitId.Some? {
        if !S.WasStored(responses) {
          Reject(key.peer, commitId);
        }
        return Ok(S.Completed);
      }
      outcome := Respond(key, responses, !S.IsSend(frame), true, S.Completed);
    }

    method Execute(key: Key, frame: Bytes, env: S.Env, commitId: Option<string>)
      returns (outcome: Result<S.Disposition, S.Failure>)
      requires Valid() && B.ValidPeer(key.peer)
      modifies this, replay, core, core.store
      ensures Valid()
      ensures S.Received(Now(), outcome) == S.Execute(old(Now()), cfg, key, frame, env, commitId)
    {
      hide WellFormed, Core.HandleFrame, S.Executed, S.CallsignOf, Text.IsCallsign, B.ValidPeer;
      var callsign := S.CallsignOf(key.peer);
      if !Text.IsCallsign(callsign) {
        return Err(S.BadCaller);
      }
      var responses := core.Handle(cfg.board, callsign, frame, env.clock, env.text);
      if responses.Err? {
        return Err(S.CoreFailed(responses.error));
      }
      outcome := Remember(key, frame, responses.value, commitId, env.now);
    }

    method Repeat(key: Key, frame: Bytes, answer: P.Answer, commitId: Option<string>)
      returns (outcome: Result<S.Disposition, S.Failure>)
      modifies this`burstQueue, this`burstActive, this`nextTransaction, this`burstOrder, this`journal, this`immediate
      ensures S.Received(Now(), outcome) == S.Repeated(old(Now()), cfg, key, frame, answer, commitId)
    {
      hide B.SupersedeStale, S.IsSend, S.WasStored, S.Respond;
      if answer.request != frame {
        Reject(key.peer, commitId);
        return Ok(S.ConflictFound);
      }
      SupersedeStale(key.peer, key);
      if S.IsSend(frame) && commitId.Some? {
        if !S.WasStored(answer.responses) {
          Reject(key.peer, commitId);
        }
        return Ok(S.Replayed);
      }
      outcome := Respond(key, answer.responses, !S.IsSend(frame), false, S.Replayed);
    }

    method Complete(key: Key, frame: Bytes, env: S.Env, commitId: Option<string>)
      returns (outcome: Result<S.Disposition, S.Failure>)
      requires Valid() && B.ValidPeer(key.peer)
      modifies this, replay, core, core.store
      ensures Valid()
      ensures S.Received(Now(), outcome) == S.Assembled(old(Now()), cfg, key, frame, env, commitId)
    {
      hide WellFormed, S.Consulted, S.Execute, S.Repeated, C.DecodeFrame, P.Recall, S.IsRequest, B.ValidPeer;
      var answer := Consult(key, env.now);
      if answer.Some? {
        outcome := Repeat(key, frame, answer.value, commitId);
        return;
      }
      var request := C.DecodeFrame(frame);
      if request.Err? {
        return Err(S.Unreadable);
      }
      if !S.IsRequest(request.value) {
        Reject(key.peer, commitId);
        return Ok(S.InvalidFound);
      }
      outcome := Execute(key, frame, env, commitId);
    }

    method Collect(peer: string, f: Fragment, env: S.Env, commitId: Option<string>)
      returns (outcome: Result<S.Disposition, S.Failure>)
      requires Valid() && B.ValidPeer(peer)
      modifies this, reassembly, replay, core, core.store
      ensures Valid()
      ensures S.Received(Now(), outcome) == S.Collect(old(Now()), cfg, peer, f, env, commitId)
    {
      hide WellFormed, S.Assembled, R.Add, B.ValidPeer;
      var added := reassembly.Receive(peer, f, env.now);
      match added {
        case Conflict =>
          Reject(peer, commitId);
          outcome := Ok(S.ConflictFound);
        case Invalid =>
          Reject(peer, commitId);
          outcome := Ok(S.InvalidFound);
        case Waiting =>
          outcome := Ok(S.FragmentHeld);
        case Complete(frame) =>
          outcome := Complete(R.Key(peer, f.transactionId), frame, env, commitId);
      }
    }

    method HandleFragment(peer: string, f: Fragment, env: S.Env, commitId: Option<string>)
      returns (outcome: Result<S.Disposition, S.Failure>)
      requires Valid() && B.ValidPeer(peer)
      modifies this, reassembly, replay, core, core.store
      ensures Valid()
      ensures S.Received(Now(), outcome) == S.HandleFragment(old(Now()), cfg, peer, f, env, commitId)
    {
      hide WellFormed, S.Collect, S.Noted, S.ConfirmReceipt, Delete, B.ValidPeer;
      var key := R.Key(peer, f.transactionId);
      rxProgress := S.Noted(rxProgress, cfg, key, f, env.now);
      outcome := Collect(peer, f, env, commitId);
      if outcome.Ok? {
        var d := outcome.value;
        if d == S.Completed || d == S.Replayed {
          var sent := ConfirmReceipt(key, env.now);
          if !sent {
            return Err(S.Unsendable);
          }
        }
        if d == S.Completed || d == S.Replayed || d == S.InvalidFound || d == S.ConflictFound {
          rxProgress := Delete(rxProgress, key);
        }
      }
    }

    method HandleControl(peer: string, control: Control) returns (outcome: Result<S.Disposition, S.Failure>)
      modifies this`burstActive, this`journal
      ensures S.Received(Now(), outcome) == S.HandleControl(old(Now()), peer, control)
    {
      hide B.ActiveOf, B.Kept, B.Replaced, B.Wanted;
      var active := B.ActiveOf(burstActive, peer);
      if active.None? || active.value.transactionId != control.transactionId {
        return Ok(S.Ignored);
      }
      match control {
        case Ack(_) =>
          Leave(active.value, B.Confirmed);
          outcome := Ok(S.Acknowledged);
        case Missing(_, indices) =>
          var wanted := B.Wanted(active.value, indices);
          if wanted == {} {
            return Ok(S.Ignored);
          }
          burstActive := B.Replaced(burstActive, active.value.(requested := Some(wanted), repairActive := true, repairIndices := Some(wanted)));
          outcome := Ok(S.RepairRequested);
      }
    }

    method ReceiveUnguarded(peer: string, body: string, env: S.Env) returns (outcome: Result<S.Disposition, S.Failure>)
      requires Valid()
      modifies this, reassembly, replay, core, core.store
      ensures Valid()
      ensures S.Received(Now(), outcome) == S.Unguarded(old(Now()), cfg, peer, body, env)
    {
      hide WellFormed, S.HandleFragment, S.HandleControl, ParseControl, ParseFragment, S.CommitId;
      hide S.IsPacketAck, B.ValidPeer;
      if !B.ValidPeer(peer) {
        return Ok(S.Ignored);
      }
      var control := ParseControl(body);
      if control.Some? {
        outcome := HandleControl(peer, control.value);
        return;
      }
      var fragment := ParseFragment(body);
      if fragment.Err? {
        if !S.IsPacketAck(body) {
          Reject(peer, S.CommitId(body));
        }
        return Ok(S.Ignored);
      }
      outcome := HandleFragment(peer, fragment.value, env, S.CommitId(body));
    }

    method Receive(peer: string, body: string, env: S.Env) returns (outcome: Result<S.Disposition, S.Failure>)
      requires Valid()
      modifies this, reassembly, replay, core, core.store
      ensures Valid()
      ensures S.Received(Now(), outcome) == S.Receive(old(Now()), cfg, peer, body, env)
    {
      hide WellFormed, S.Unguarded, ParseFragment, S.Consulted, S.ConfirmReceipt, P.Recall, Delete, B.ValidPeer;
      var fragment := ParseFragment(body);
      if !B.ValidPeer(peer) || fragment.Err? {
        outcome := ReceiveUnguarded(peer, body, env);
        return;
      }
      var key := R.Key(peer, fragment.value.transactionId);
      var answer := Consult(key, env.now);
      if answer.Some? {
        rxProgress := Delete(rxProgress, key);
        var sent := ConfirmReceipt(key, env.now);
        return if sent then Ok(S.Replayed) else Err(S.Unsendable);
      }
      outcome := ReceiveUnguarded(peer, body, env);
    }

    method Deliver(endpoint: string, message: C.Object) returns (result: Result<string, B.QueueError>)
      requires message.Message? && message.sequence >= 0
      modifies this`burstQueue, this`burstActive, this`nextTransaction, this`burstOrder, this`journal
      ensures S.Delivered(Now(), result) == S.Deliver(old(Now()), cfg, endpoint, message)
    {
      hide B.QueueFrame, C.EncodeFrame;
      var frame := C.EncodeFrame(message, true);
      if frame.Err? {
        return Err(B.Unframeable);
      }
      result := QueueFrame(B.Request(endpoint, frame.value, true,
                                     Some(B.Delivery(message.recipient, message.sequence)), None, true));
    }
  }

  lemma ConsultedFields(s: S.State, cfg: S.Settings, key: Key, now: nat)
    ensures var t := S.Consulted(s, cfg, key, now);
            && t.sender == s.sender && t.immediate == s.immediate && t.tracker == s.tracker
            && t.table == s.table && t.core == s.core
  {
  }

  lemma {:induction false} FailureStays(s: B.Sender, p: B.Policy, key: Key, responses: seq<Bytes>, supersedable: bool,
                                        firstTime: bool, i: nat, n: nat)
    requires i <= n <= |responses| && S.QueueAll(s, p, key, responses, supersedable, firstTime, i).failure.Some?
    ensures S.QueueAll(s, p, key, responses, supersedable, firstTime, n)
         == S.QueueAll(s, p, key, responses, supersedable, firstTime, i)
    decreases n - i
  {
    hide B.QueueFrame, S.ResponseRequest;
    if i < n {
      FailureStays(s, p, key, responses, supersedable, firstTime, i, n - 1);
    }
  }

  lemma {:induction false} RaisedStays(t: S.Tracker, cfg: S.Settings, keys: seq<Key>, now: nat, i: nat, n: nat)
    requires i <= n <= |keys| && S.Nudge(t, cfg, keys, now, i).raised
    ensures S.Nudge(t, cfg, keys, now, n) == S.Nudge(t, cfg, keys, now, i)
    decreases n - i
  {
    hide S.NudgeOne;
    if i < n {
      RaisedStays(t, cfg, keys, now, i, n - 1);
    }
  }

  lemma NothingEmitted(journal: seq<B.Entry>)
    ensures B.Emitted(journal, |journal|) == []
  {
  }

  lemma OneEmitted(journal: seq<B.Entry>, e: B.Entry)
    ensures B.Emitted(journal + [e], |journal|) == B.EntryPackets(e)
  {
    hide B.EntryPackets;
    assert (journal + [e])[..|journal|] == journal;
  }

  lemma LeaveEmits(s: B.Sender, b: B.Burst, reason: B.Reason)
    ensures var t := B.Leave(s, b, reason);
            s.journal <= t.journal && B.Emitted(t.journal, |s.journal|) == []
  {
    hide B.Kept, B.Emitted;
    var left := s.journal + [B.Left(b, reason)];
    OneEmitted(s.journal, B.Left(b, reason));
    if b.delivery.Some? {
      var t := B.Leave(s, b, reason);
      OneEmitted(left, t.journal[|left|]);
      assert t.journal == left + [t.journal[|left|]];
      EmittedSplit(left, t.journal, |s.journal|);
    } else {
      assert left + [] == left;
    }
  }

  lemma {:induction false} EmittedSplit(before: seq<B.Entry>, journal: seq<B.Entry>, start: nat)
    requires before <= journal && start <= |before|
    ensures B.Emitted(journal, start) == B.Emitted(before, start) + B.Emitted(journal, |before|)
    decreases |journal|
  {
    hide B.EntryPackets;
    if |journal| == |before| {
      assert journal == before;
    } else {
      EmittedSplit(before, journal[..|journal| - 1], start);
    }
  }

  lemma SearchStep(next: nat, taken: set<string>, tries: nat)
    requires tries > 0
    ensures var v: byte := next % 256;
            B.Search(next, taken, tries)
            == if TransactionText(v) !in taken then B.Allocation(Some(TransactionText(v)), v + 1)
               else B.Search(v + 1, taken, tries - 1)
  {
    hide TransactionText;
  }

  lemma SearchEnds(next: nat, taken: set<string>)
    ensures B.Search(next, taken, 0) == B.Allocation(None, next)
  {
  }

  lemma {:induction false} NobodyDeparts(bursts: seq<B.Burst>, reason: B.Reason)
    ensures B.Departures(bursts, {}, reason) == [] && B.Kept(bursts, {}) == bursts
  {
    if bursts == [] {
    } else {
      NobodyDeparts(bursts[..|bursts| - 1], reason);
    }
  }

  lemma DropNobody(s: B.Sender, reason: B.Reason)
    ensures B.Drop(s, {}, reason) == s
  {
    hide B.Departures, B.Kept;
    NobodyDeparts(s.queue, reason);
    NobodyDeparts(s.active, reason);
    assert s.journal + [] + [] == s.journal;
  }
}
