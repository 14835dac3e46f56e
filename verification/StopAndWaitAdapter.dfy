// The stop-and-wait adapter as the object it is: each method does in place
// exactly what the specification in StopAndWait says.
module StopAndWaitAdapter {
  import opened Prelude
  import opened Ordered
  import opened Base36
  import opened Carriage
  import W = StopAndWait
  import B = Burst
  import S = Selective
  import R = Reassembly
  import P = Replay
  import RP = ReplayProofs
  import C = Codec
  import Core
  import Text

  type Key = R.Key

  // Exactly one call for each delivery of the set.
  ghost predicate Tells(told: seq<B.CoreMark>, deliveries: set<B.Delivery>, failed: bool) {
    && |told| == |deliveries|
    && (forall d :: d in deliveries <==> (if failed then B.MarkFailed(d) else B.MarkDelivered(d)) in told)
    && (forall c :: c in told ==> c.MarkFailed? == failed)
  }

  class Adapter {
    const cfg: W.Settings
    const reassembly: R.Reassembler
    const replay: P.ReplayCache
    const core: Core.ServerCore

    // The heap, as the list of its items in the order they were pushed.
    var queue: seq<W.Item>
    var pending: seq<W.Pending>
    var nextTransaction: map<string, nat>
    var nextMessage: map<string, nat>
    var lastSend: map<string, nat>
    var order: nat
    var immediate: seq<B.Packet>

    // The calls made to Core, one by one.
    var told: seq<B.CoreMark>

    ghost var acked: set<nat>
    ghost var calls: seq<W.Report>
    ghost var trail: seq<RP.Event>

    ghost predicate Valid()
      reads this, reassembly, replay
    {
      && cfg.transactionSpace > 0 && cfg.bounds.Valid() && cfg.limits.Valid()
      && reassembly.bounds == cfg.bounds && replay.limits == cfg.limits
      && WellFormed(reassembly.entries) && WellFormed(replay.entries)
    }

    ghost function Sending(): W.Waiter
      reads this
    {
      W.Waiter(queue, pending, nextTransaction, nextMessage, lastSend, order, acked, calls)
    }

    ghost function Now(): W.State
      reads this, reassembly, replay, core, core.store
    {
      W.State(Sending(), reassembly.entries, replay.entries, immediate, core.Now(), trail)
    }

    constructor (cfg: W.Settings, core: Core.ServerCore)
      requires cfg.transactionSpace > 0 && cfg.bounds.Valid() && cfg.limits.Valid()
      ensures Valid() && this.cfg == cfg && this.core == core
      ensures Sending() == W.IDLE && immediate == [] && told == [] && trail == []
      ensures reassembly.entries == Empty() && replay.entries == Empty()
    {
      this.cfg := cfg;
      this.core := core;
      this.reassembly := new R.Reassembler(cfg.bounds);
      this.replay := new P.ReplayCache(cfg.limits);
      this.queue, this.pending, this.order := [], [], 0;
      this.nextTransaction, this.nextMessage, this.lastSend := map[], map[], map[];
      this.immediate, this.told := [], [];
      this.acked, this.calls, this.trail := {}, [], [];
    }

    // ------------------------------------------------------------- identifiers

    method AllocateTransaction(peer: string) returns (id: Option<string>)
      requires cfg.transactionSpace > 0
      modifies this`nextTransaction
      ensures var w := old(Sending());
              var found := W.SearchId(w, peer, cfg.transactionSpace, W.Counter(w.nextId, peer), cfg.transactionSpace);
              id == found.id && nextTransaction == old(nextTransaction)[peer := found.next]
    {
      hide Digits, W.SearchId, W.TransactionTaken;
      ghost var w := Sending();
      var next: nat := if peer in nextTransaction then nextTransaction[peer] else 0;
      var space := cfg.transactionSpace;
      var tries := 0;
      while tries < space
        invariant tries <= space
        invariant W.SearchId(w, peer, space, W.Counter(w.nextId, peer), space) == W.SearchId(w, peer, space, next, space - tries)
        invariant tries > 0 ==> nextTransaction == old(nextTransaction)[peer := next]
        invariant tries == 0 ==> nextTransaction == old(nextTransaction)
      {
        SearchIdStep(w, peer, space, next, space - tries);
        var value := next % space;
        next := value + 1;
        nextTransaction := nextTransaction[peer := next];
        SameTaken(w, Sending(), peer, Digits(value, 3));
        if !TransactionLive(peer, Digits(value, 3)) {
          return Some(Digits(value, 3));
        }
        tries := tries + 1;
      }
      SearchIdEnds(w, peer, space, next);
      id := None;
    }

    // Whether a live packet to the peer carries this transaction id.
    function TransactionLive(peer: string, id: string): bool
      reads this
      ensures TransactionLive(peer, id) == W.TransactionTaken(Sending(), peer, id)
    {
      || (exists x :: x in queue && x.peer == peer && x.fragment.transactionId == id)
      || (exists p :: p in pending && p.item.peer == peer && W.HasId(p.item.fragment, id))
    }

    method AllocateMessage(peer: string) returns (id: Option<string>)
      modifies this`nextMessage
      ensures var w := old(Sending());
              var found := W.SearchMessage(W.TakenMessages(w, peer), W.Counter(w.nextMessage, peer), W.MESSAGE_IDS);
              id == found.id && nextMessage == old(nextMessage)[peer := found.next]
    {
      hide Digits, W.SearchMessage;
      ghost var w := Sending();
      var taken := (set x | x in queue && x.peer == peer && x.fragment.messageId.Some? :: W.IdOf(x.fragment))
                   + (set p | p in pending && p.item.peer == peer :: W.IdOf(p.item.fragment));
      assert taken == W.TakenMessages(w, peer);
      var next: nat := if peer in nextMessage then nextMessage[peer] else 0;
      for tries := 0 to W.MESSAGE_IDS
        invariant W.SearchMessage(taken, W.Counter(w.nextMessage, peer), W.MESSAGE_IDS)
               == W.SearchMessage(taken, next, W.MESSAGE_IDS - tries)
        invariant tries > 0 ==> nextMessage == old(nextMessage)[peer := next]
        invariant tries == 0 ==> nextMessage == old(nextMessage)
      {
        SearchMessageStep(taken, next, W.MESSAGE_IDS - tries);
        var value := next % W.MESSAGE_IDS;
        next := value + 1;
        nextMessage := nextMessage[peer := next];
        if Digits(value, 2) !in taken {
          return Some(Digits(value, 2));
        }
      }
      SearchMessageEnds(taken, next);
      id := None;
    }

    // ----------------------------------------------------------------- queuing

    method QueueFrame(r: B.Request) returns (result: Result<string, B.QueueError>)
      requires cfg.transactionSpace > 0
      modifies this`queue, this`nextTransaction, this`nextMessage, this`order
      ensures W.Queued(Sending(), result) == W.QueueFrame(old(Sending()), cfg, r)
    {
      hide W.SearchId, W.Cut, W.Push, W.ExhaustedNext, B.ValidPeer, W.TransactionTaken;
      if !B.ValidPeer(r.peer) {
        return Err(B.BadPeer);
      }
      var id := AllocateTransaction(r.peer);
      if id.None? {
        return Err(B.NoFreeId);
      }
      var chunks := W.Cut(cfg, r.frame);
      if chunks.None? {
        return Err(B.Unframeable);
      }
      if |queue| + |chunks.value| > cfg.queueCapacity {
        return Err(B.QueueFull);
      }
      ghost var counted := Sending();
      for i := 0 to |chunks.value|
        invariant W.Pushed(Sending(), true) == W.PushAll(counted, r, id.value, chunks.value, i)
      {
        var pushed := PushFragment(r, id.value, chunks.value, i);
        if !pushed {
          FailureStays(counted, r, id.value, chunks.value, i + 1, |chunks.value|);
          return Err(B.NoFreeId);
        }
      }
      result := Ok(id.value);
    }

    method PushFragment(r: B.Request, id: string, chunks: seq<string>, i: nat) returns (ok: bool)
      requires i < |chunks|
      modifies this`queue, this`nextMessage, this`order
      ensures var w := old(Sending());
              match W.Push(w, r, id, chunks, i)
              case Some(t) => ok && Sending() == t
              case None => !ok && Sending() == w.(nextMessage := w.nextMessage[r.peer := W.ExhaustedNext(w, r.peer)])
    {
      hide W.SearchMessage, W.TakenMessages;
      var messageId := AllocateMessage(r.peer);
      if messageId.None? {
        return false;
      }
      queue := queue + [W.NewItem(r, id, chunks, i, messageId.value, order)];
      order := order + 1;
      ok := true;
    }

    // ---------------------------------------------------------------- removing

    // One call to Core for each delivery of the set, in whatever order.
    method TellCore(deliveries: set<B.Delivery>, failed: bool)
      modifies this`told, this`calls
      ensures old(told) <= told && Tells(told[|old(told)|..], deliveries, failed)
      ensures calls == old(calls) + [W.Report(failed, deliveries)]
    {
      hide Tells;
      var rest := deliveries;
      ghost var done: set<B.Delivery> := {};
      NothingTold(failed);
      assert told[|old(told)|..] == [];
      while rest != {}
        invariant calls == old(calls)
        invariant done + rest == deliveries && done !! rest
        invariant old(told) <= told && Tells(told[|old(told)|..], done, failed)
        decreases rest
      {
        var d :| d in rest;
        ghost var before := told[|old(told)|..];
        var c := if failed then B.MarkFailed(d) else B.MarkDelivered(d);
        told := told + [c];
        rest := rest - {d};
        TellsMore(before, done, failed, d);
        done := done + {d};
        assert told[|old(told)|..] == before + [c];
      }
      calls := calls + [W.Report(failed, deliveries)];
    }

    function LiveNow(): set<W.Item>
      reads this
      ensures LiveNow() == W.LiveItems(Sending())
    {
      (set x | x in queue) + (set p | p in pending :: p.item)
    }

    method SupersedeStale(peer: string, batch: Key)
      modifies this`queue, this`pending
      ensures Sending() == W.SupersedeStale(old(Sending()), peer, batch)
    {
      hide W.KeptItems, W.KeptPending, W.LiveItems;
      var stale := set x | x in LiveNow() && x.peer == peer && W.Replaceable(x) && x.batch.value != batch :: x.batch.value;
      assert stale == W.StaleBatches(Sending(), peer, batch);
      var dropped := (set x | x in queue && x.batch.Some? && x.batch.value in stale :: x.order)
                     + (set p | p in pending && p.item.peer == peer && p.item.batch.Some? && p.item.batch.value in stale :: p.item.order);
      assert dropped == W.Outdated(Sending(), peer, batch);
      queue := W.KeptItems(queue, dropped);
      pending := W.KeptPending(pending, dropped);
    }

    method FailTransaction(failed: W.Item)
      modifies this`queue, this`pending, this`told, this`calls
      ensures Sending() == W.FailTransaction(old(Sending()), failed)
      ensures old(told) <= told && Tells(told[|old(told)|..], W.Abandoned(old(Sending()), failed), true)
    {
      hide W.KeptItems, W.KeptPending, W.LiveItems, Tells;
      var abandoned := (if failed.delivery.Some? then {failed.delivery.value} else {})
                       + set x | x in LiveNow() && W.FailsWith(x, failed) && x.delivery.Some? :: x.delivery.value;
      assert abandoned == W.Abandoned(Sending(), failed);
      var dropped := set x | x in LiveNow() && W.FailsWith(x, failed) :: x.order;
      assert dropped == W.FailedOrders(Sending(), failed);
      queue := W.KeptItems(queue, dropped);
      pending := W.KeptPending(pending, dropped);
      TellCore(abandoned, true);
    }

    method ReconcileCursor(peer: string, callsign: Bytes, since: int)
      modifies this`queue, this`pending, this`told, this`calls
      ensures Sending() == W.Reconcile(old(Sending()), peer, callsign, since)
      ensures old(told) <= told && Tells(told[|old(told)|..], W.Confirmed(old(Sending()), peer, callsign, since), false)
    {
      hide W.KeptItems, W.KeptPending, W.LiveItems, Tells;
      var confirmed := set x | x in LiveNow() && W.Covered(x, peer, callsign, since) :: x.delivery.value;
      assert confirmed == W.Confirmed(Sending(), peer, callsign, since);
      var dropped := set x | x in LiveNow() && W.Covered(x, peer, callsign, since) :: x.order;
      assert dropped == W.CoveredOrders(Sending(), peer, callsign, since);
      queue := W.KeptItems(queue, dropped);
      pending := W.KeptPending(pending, dropped);
      TellCore(confirmed, false);
    }

    method ConnectionLost()
      modifies this
      ensures Now() == W.ConnectionLost(old(Now()))
      ensures old(told) <= told && Tells(told[|old(told)|..], W.Deliveries(old(Sending())), true)
    {
      hide W.LiveItems, Tells;
      var abandoned := set x | x in LiveNow() && x.delivery.Some? :: x.delivery.value;
      assert abandoned == W.Deliveries(Sending());
      queue := [];
      pending := [];
      immediate := [];
      TellCore(abandoned, true);
    }

    method Acknowledge(p: W.Pending)
      modifies this`pending, this`acked, this`told, this`calls
      ensures Sending() == W.Acknowledge(old(Sending()), p)
    {
      hide W.KeptPending, Tells;
      pending := W.KeptPending(pending, {p.item.order});
      acked := acked + {p.item.order};
      var peer, id := p.item.peer, p.item.fragment.transactionId;
      var outstanding := || (exists x :: x in queue && x.peer == peer && x.fragment.transactionId == id)
                         || (exists q :: q in pending && q.item.peer == peer && q.item.fragment.transactionId == id);
      if p.item.delivery.Some? && !outstanding {
        TellCore({p.item.delivery.value}, false);
      }
    }

    // ----------------------------------------------------------------- polling

    method PollOne(p: W.Pending, now: nat) returns (packets: seq<B.Packet>)
      modifies this`queue, this`pending, this`lastSend, this`told, this`calls
      ensures W.Polled(Sending(), packets) == W.PollOne(old(Sending()), cfg, p, now)
    {
      hide W.ReplacedPending, W.FailTransaction;
      if p !in pending || now < p.deadline {
        return [];
      }
      if p.attempts >= cfg.maxAttempts {
        FailTransaction(p.item);
        return [];
      }
      var peer := p.item.peer;
      if peer in lastSend && now - lastSend[peer] < cfg.minInterval {
        return [];
      }
      pending := W.ReplacedPending(pending, p.(attempts := p.attempts + 1, deadline := now + cfg.ackTimeout));
      lastSend := lastSend[peer := now];
      packets := [W.PacketOf(p.item)];
    }

    method PollHead(now: nat) returns (packets: seq<B.Packet>)
      modifies this`queue, this`pending, this`lastSend
      ensures W.Polled(Sending(), packets) == W.PollHead(old(Sending()), cfg, now)
    {
      hide W.KeptItems, W.Head;
      if queue == [] {
        return [];
      }
      var x := W.Head(queue);
      var waiting := exists p :: p in pending && p.item.peer == x.peer;
      if waiting || (x.peer in lastSend && now - lastSend[x.peer] < cfg.minInterval) {
        return [];
      }
      queue := W.KeptItems(queue, {x.order});
      pending := pending + [W.Pending(x, 1, now + cfg.ackTimeout)];
      lastSend := lastSend[x.peer := now];
      packets := [W.PacketOf(x)];
    }

    method Poll(now: nat) returns (packets: seq<B.Packet>)
      requires Valid()
      modifies this, reassembly, replay
      ensures Valid()
      ensures W.PollResult(Now(), packets) == W.Poll(old(Now()), cfg, now)
    {
      hide W.PollOne, W.PollHead, R.Expired, P.Aged, WellFormed;
      var waiting := immediate;
      immediate := [];
      var snapshot := pending;
      ghost var start := Sending();
      var sent: seq<B.Packet> := [];
      for i := 0 to |snapshot|
        invariant Valid() && immediate == [] && core.Now() == old(core.Now()) && trail == old(trail)
        invariant reassembly.entries == old(reassembly.entries) && replay.entries == old(replay.entries)
        invariant W.Polled(Sending(), sent) == W.PollPending(start, cfg, snapshot, now, i)
      {
        var more := PollOne(snapshot[i], now);
        sent := sent + more;
      }
      var first := PollHead(now);
      packets := waiting + (sent + first);
      reassembly.Expire(now);
      replay.Expire(now);
      trail := trail + [RP.Sweep(now)];
    }

    // --------------------------------------------------------------- receiving

    method Confirm(peer: string, id: Option<string>, accepted: bool)
      modifies this`immediate
      ensures Now() == W.Confirm(old(Now()), peer, id, accepted)
    {
      if id.Some? {
        immediate := immediate + [B.Packet(peer, (if accepted then "ack" else "rej") + id.value)];
      }
    }

    method QueueAll(key: Key, responses: seq<Bytes>, supersedable: bool, firstTime: bool) returns (failure: Option<B.QueueError>)
      requires cfg.transactionSpace > 0
      modifies this`queue, this`nextTransaction, this`nextMessage, this`order
      ensures W.QueuedAll(Sending(), failure)
           == W.QueueAll(old(Sending()), cfg, key, responses, supersedable, firstTime, |responses|)
    {
      hide W.QueueFrame, S.ResponseRequest;
      for i := 0 to |responses|
        invariant W.QueuedAll(Sending(), None) == W.QueueAll(old(Sending()), cfg, key, responses, supersedable, firstTime, i)
      {
        var result := QueueFrame(S.ResponseRequest(key, responses[i], supersedable, firstTime));
        if result.Err? {
          RefusalStays(old(Sending()), cfg, key, responses, supersedable, firstTime, i + 1, |responses|);
          return Some(result.error);
        }
      }
      failure := None;
    }

    method Respond(key: Key, responses: seq<Bytes>, supersedable: bool, firstTime: bool, d: S.Disposition)
      returns (outcome: Result<S.Disposition, S.Failure>)
      requires cfg.transactionSpace > 0
      modifies this`queue, this`nextTransaction, this`nextMessage, this`order
      ensures W.Received(Now(), outcome) == W.Respond(old(Now()), cfg, key, responses, supersedable, firstTime, d)
    {
      hide W.QueueAll;
      var failure := QueueAll(key, responses, supersedable, firstTime);
      outcome := if failure.None? then Ok(d) else Err(S.QueueFailed(failure.value));
    }

    method Repeat(key: Key, frame: Bytes, answer: P.Answer, commitId: Option<string>)
      returns (outcome: Result<S.Disposition, S.Failure>)
      requires cfg.transactionSpace > 0
      modifies this`queue, this`pending, this`nextTransaction, this`nextMessage, this`order, this`immediate
      ensures W.Received(Now(), outcome) == W.Repeated(old(Now()), cfg, key, frame, answer, commitId)
    {
      hide W.SupersedeStale, S.IsSend, S.WasStored, W.Respond;
      if answer.request != frame {
        Confirm(key.peer, commitId, false);
        return Ok(S.ConflictFound);
      }
      SupersedeStale(key.peer, key);
      if S.IsSend(frame) && commitId.Some? {
        Confirm(key.peer, commitId, S.WasStored(answer.responses));
        return Ok(S.Replayed);
      }
      Confirm(key.peer, commitId, true);
      outcome := Respond(key, answer.responses, !S.IsSend(frame), false, S.Replayed);
    }

    method Remember(key: Key, frame: Bytes, responses: seq<Bytes>, commitId: Option<string>, now: nat)
      returns (outcome: Result<S.Disposition, S.Failure>)
      requires Valid()
      modifies this, replay
      ensures Valid()
      ensures W.Received(Now(), outcome) == W.Executed(old(Now()), cfg, key, frame, responses, commitId, now)
    {
      hide P.Remember, WellFormed, W.SupersedeStale, S.IsSend, S.WasStored, W.Respond;
      SupersedeStale(key.peer, key);
      replay.Store(key.peer, key.transactionId, frame, responses, now);
      trail := trail + [RP.Store(key, frame, responses, now)];
      if S.IsSend(frame) && commitId.Some? {
        Confirm(key.peer, commitId, S.WasStored(responses));
        return Ok(S.Completed);
      }
      outcome := Respond(key, responses, !S.IsSend(frame), true, S.Completed);
    }

    method Execute(key: Key, frame: Bytes, request: C.Object, env: S.Env, commitId: Option<string>)
      returns (outcome: Result<S.Disposition, S.Failure>)
      requires Valid() && B.ValidPeer(key.peer)
      modifies this, replay, core, core.store
      ensures Valid()
      ensures W.Received(Now(), outcome) == W.Execute(old(Now()), cfg, key, frame, request, env, commitId)
    {
      hide WellFormed, Core.HandleFrame, W.Executed, S.CallsignOf, Text.IsCallsign, B.ValidPeer, W.Reconcile, Tells;
      if !request.SendMessage? {
        Confirm(key.peer, commitId, true);
      }
      var callsign := S.CallsignOf(key.peer);
      if !Text.IsCallsign(callsign) {
        return Err(S.BadCaller);
      }
      if request.GetNewMessages? {
        ReconcileCursor(key.peer, callsign, request.since);
      }
      var responses := core.Handle(cfg.board, callsign, frame, env.clock, env.text);
      if responses.Err? {
        return Err(S.CoreFailed(responses.error));
      }
      outcome := Remember(key, frame, responses.value, commitId, env.now);
    }

    method Complete(key: Key, frame: Bytes, env: S.Env, commitId: Option<string>)
      returns (outcome: Result<S.Disposition, S.Failure>)
      requires Valid() && B.ValidPeer(key.peer)
      modifies this, replay, core, core.store
      ensures Valid()
      ensures W.Received(Now(), outcome) == W.Assembled(old(Now()), cfg, key, frame, env, commitId)
    {
      hide WellFormed, W.Execute, W.Repeated, C.DecodeFrame, P.Recall, S.IsRequest, B.ValidPeer;
      var answer := replay.Lookup(key.peer, key.transactionId, env.now);
      trail := trail + [RP.Lookup(key, env.now)];
      if answer.Some? {
        outcome := Repeat(key, frame, answer.value, commitId);
        return;
      }
      var request := C.DecodeFrame(frame);
      if request.Err? {
        return Err(S.Unreadable);
      }
      if !S.IsRequest(request.value) {
        Confirm(key.peer, commitId, false);
        return Ok(S.InvalidFound);
      }
      outcome := Execute(key, frame, request.value, env, commitId);
    }

    method Collect(peer: string, f: Fragment, env: S.Env, commitId: Option<string>)
      returns (outcome: Result<S.Disposition, S.Failure>)
      requires Valid() && B.ValidPeer(peer)
      modifies this, reassembly, replay, core, core.store
      ensures Valid()
      ensures W.Received(Now(), outcome) == W.Collect(old(Now()), cfg, peer, f, env, commitId)
    {
      hide WellFormed, W.Assembled, R.Add, B.ValidPeer;
      var added := reassembly.Receive(peer, f, env.now);
      match added {
        case Conflict =>
          Confirm(peer, commitId, false);
          outcome := Ok(S.ConflictFound);
        case Invalid =>
          Confirm(peer, commitId, false);
          outcome := Ok(S.InvalidFound);
        case Waiting =>
          Confirm(peer, commitId, true);
          outcome := Ok(S.FragmentHeld);
        case Complete(frame) =>
          outcome := Complete(R.Key(peer, f.transactionId), frame, env, commitId);
      }
    }

    method Receive(peer: string, body: string, env: S.Env) returns (outcome: Result<S.Disposition, S.Failure>)
      requires Valid()
      modifies this, reassembly, replay, core, core.store
      ensures Valid()
      ensures W.Received(Now(), outcome) == W.Receive(old(Now()), cfg, peer, body, env)
    {
      hide WellFormed, W.Collect, ParseFragment, S.CommitId, S.MessageId, IsMessageId, B.ValidPeer;
      hide W.Acknowledge, W.FindPending;
      if !B.ValidPeer(peer) {
        return Ok(S.Ignored);
      }
      if S.IsPacketAck(body) {
        var p := W.FindPending(pending, peer, body[3..]);
        if p.None? {
          return Ok(S.Ignored);
        }
        Acknowledge(p.value);
        return Ok(S.Acknowledged);
      }
      var id, commitId := S.MessageId(body), S.CommitId(body);
      if commitId.None? {
        Confirm(peer, id, true);
      }
      var fragment := ParseFragment(body);
      if fragment.Err? {
        Confirm(peer, commitId, false);
        return Ok(S.Ignored);
      }
      outcome := Collect(peer, fragment.value, env, commitId);
    }
  }

  lemma NothingTold(failed: bool)
    ensures Tells([], {}, failed)
  {
  }

  lemma TellsMore(told: seq<B.CoreMark>, done: set<B.Delivery>, failed: bool, d: B.Delivery)
    requires Tells(told, done, failed) && d !in done
    ensures Tells(told + [if failed then B.MarkFailed(d) else B.MarkDelivered(d)], done + {d}, failed)
  {
  }

  lemma SearchIdStep(w: W.Waiter, peer: string, space: nat, next: nat, tries: nat)
    requires 0 < space && 0 < tries
    ensures var value := next % space;
            W.SearchId(w, peer, space, next, tries)
            == if !W.TransactionTaken(w, peer, Digits(value, 3)) then B.Allocation(Some(Digits(value, 3)), value + 1)
               else W.SearchId(w, peer, space, value + 1, tries - 1)
  {
    hide Digits, W.TransactionTaken;
  }

  lemma SearchIdEnds(w: W.Waiter, peer: string, space: nat, next: nat)
    requires 0 < space
    ensures W.SearchId(w, peer, space, next, 0) == B.Allocation(None, next)
  {
  }

  lemma SearchMessageStep(taken: set<string>, next: nat, tries: nat)
    requires 0 < tries
    ensures var value := next % W.MESSAGE_IDS;
            W.SearchMessage(taken, next, tries)
            == if Digits(value, 2) !in taken then B.Allocation(Some(Digits(value, 2)), value + 1)
               else W.SearchMessage(taken, value + 1, tries - 1)
  {
    hide Digits;
  }

  lemma SearchMessageEnds(taken: set<string>, next: nat)
    ensures W.SearchMessage(taken, next, 0) == B.Allocation(None, next)
  {
  }

  lemma SameTaken(w: W.Waiter, t: W.Waiter, peer: string, id: string)
    requires t.queue == w.queue && t.pending == w.pending
    ensures W.TransactionTaken(w, peer, id) == W.TransactionTaken(t, peer, id)
  {
    hide W.HasId;
  }

  lemma {:induction false} FailureStays(w: W.Waiter, r: B.Request, id: string, chunks: seq<string>, i: nat, n: nat)
    requires i <= n <= |chunks| && !W.PushAll(w, r, id, chunks, i).complete
    ensures W.PushAll(w, r, id, chunks, n) == W.PushAll(w, r, id, chunks, i)
    decreases n - i
  {
    hide W.Push, W.ExhaustedNext;
    if i < n {
      FailureStays(w, r, id, chunks, i, n - 1);
    }
  }

  lemma {:induction false} RefusalStays(w: W.Waiter, cfg: W.Settings, key: Key, responses: seq<Bytes>, supersedable: bool,
                                        firstTime: bool, i: nat, n: nat)
    requires cfg.transactionSpace > 0
    requires i <= n <= |responses| && W.QueueAll(w, cfg, key, responses, supersedable, firstTime, i).failure.Some?
    ensures W.QueueAll(w, cfg, key, responses, supersedable, firstTime, n)
         == W.QueueAll(w, cfg, key, responses, supersedable, firstTime, i)
    decreases n - i
  {
    hide W.QueueFrame, S.ResponseRequest;
    if i < n {
      RefusalStays(w, cfg, key, responses, supersedable, firstTime, i, n - 1);
    }
  }
}
