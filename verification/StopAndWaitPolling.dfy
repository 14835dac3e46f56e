// What a poll of the stop-and-wait adapter sends, gives up and starts.
module StopAndWaitPolling {
  import opened Prelude
  import opened Carriage
  import opened StopAndWait
  import opened StopAndWaitProofs
  import opened StopAndWaitRuns
  import B = Burst
  import R = Reassembly
  import P = Replay

  // ------------------------------------------------------- packets in flight

  // Nothing went to the peer for the least interval.
  predicate RateAllows(w: Waiter, peer: string, cfg: Settings, now: nat) {
    peer in w.lastSend ==> w.lastSend[peer] + cfg.minInterval <= now
  }

  // Pieces of the frame that failed, and responses of its batch, to that peer.
  predicate FallsWith(x: Item, failed: Item) {
    SameFrame(x, failed) || (x.peer == failed.peer && failed.batch.Some? && x.batch == failed.batch)
  }

  lemma RuleIs(w: Waiter, peer: string, cfg: Settings, now: nat)
    ensures MaySend(w, peer, cfg, now) <==> RateAllows(w, peer, cfg, now)
    ensures forall x, failed :: FailsWith(x, failed) <==> FallsWith(x, failed)
    ensures forall x, failed :: FallsWith(x, failed) ==> x.peer == failed.peer
  {
  }

  // It was sent as often as allowed and is due again.
  predicate Spent(p: Pending, cfg: Settings, now: nat) {
    now >= p.deadline && p.attempts >= cfg.maxAttempts
  }

  // It is due, may be sent once more, and its peer may be sent to.
  predicate Repeats(w: Waiter, p: Pending, cfg: Settings, now: nat) {
    now >= p.deadline && p.attempts < cfg.maxAttempts && RateAllows(w, p.item.peer, cfg, now)
  }

  // What one of them is afterwards, if it still is in flight.
  function Fate(w: Waiter, p: Pending, cfg: Settings, now: nat): Option<Pending> {
    if Spent(p, cfg, now) then None
    else if Repeats(w, p, cfg, now) then Some(p.(attempts := p.attempts + 1, deadline := now + cfg.ackTimeout))
    else Some(p)
  }

  // The work a spent one among the first n takes with it.
  ghost predicate Lost(w: Waiter, cfg: Settings, x: Item, now: nat, n: nat)
    requires n <= |w.pending|
  {
    exists i :: 0 <= i < n && Spent(w.pending[i], cfg, now) && FallsWith(x, w.pending[i].item)
  }

  ghost predicate SentTo(w: Waiter, cfg: Settings, peer: string, now: nat, n: nat)
    requires n <= |w.pending|
  {
    exists i :: 0 <= i < n && Repeats(w, w.pending[i], cfg, now) && w.pending[i].item.peer == peer
  }

  ghost predicate StillPending(w: Waiter, cfg: Settings, q: Pending, now: nat, n: nat)
    requires n <= |w.pending|
  {
    exists i :: 0 <= i < |w.pending| && Some(q) == (if i < n then Fate(w, w.pending[i], cfg, now) else Some(w.pending[i]))
  }

  // The packets sent again by the first n, in order.
  function Repetitions(w: Waiter, cfg: Settings, now: nat, n: nat): seq<B.Packet>
    requires n <= |w.pending|
  {
    if n == 0 then []
    else
      Repetitions(w, cfg, now, n - 1)
      + (if Repeats(w, w.pending[n - 1], cfg, now) then [PacketOf(w.pending[n - 1].item)] else [])
  }

  // What Core is told of the spent ones among the first n.
  ghost predicate ReportsLoss(w: Waiter, report: Report, failed: Item) {
    && report.failed
    && forall d :: d in report.deliveries <==> exists x :: x in LiveItems(w) && FallsWith(x, failed) && x.delivery == Some(d)
  }

  function SpentAmong(w: Waiter, cfg: Settings, now: nat, n: nat): seq<Item>
    requires n <= |w.pending|
  {
    if n == 0 then []
    else SpentAmong(w, cfg, now, n - 1) + (if Spent(w.pending[n - 1], cfg, now) then [w.pending[n - 1].item] else [])
  }

  ghost predicate Reported(w: Waiter, t: Waiter, failed: seq<Item>) {
    && |t.calls| == |w.calls| + |failed| && w.calls <= t.calls
    && forall j :: 0 <= j < |failed| ==> ReportsLoss(w, t.calls[|w.calls| + j], failed[j])
  }

  // The first n have been looked at.
  ghost predicate Swept(w: Waiter, t: Waiter, cfg: Settings, now: nat, n: nat)
    requires n <= |w.pending|
  {
    && (forall x :: x in t.queue <==> x in w.queue && !Lost(w, cfg, x, now, n))
    && (forall q :: q in t.pending <==> StillPending(w, cfg, q, now, n))
    && (forall peer :: if SentTo(w, cfg, peer, now, n) then peer in t.lastSend && t.lastSend[peer] == now
                       else (peer in t.lastSend <==> peer in w.lastSend) && (peer in w.lastSend ==> t.lastSend[peer] == w.lastSend[peer]))
    && Reported(w, t, SpentAmong(w, cfg, now, n))
    && t == w.(queue := t.queue, pending := t.pending, lastSend := t.lastSend, calls := t.calls)
  }

  lemma NothingSwept(w: Waiter, cfg: Settings, now: nat)
    ensures Swept(w, w, cfg, now, 0)
  {
    hide RateAllows, FallsWith, LiveItems;
    forall q
      ensures q in w.pending <==> StillPending(w, cfg, q, now, 0)
    {
    }
  }

  // The packets in flight to other peers are not the ones looked at.
  lemma OthersApart(w: Waiter, n: nat)
    requires OnePending(w.pending) && n < |w.pending|
    ensures forall i :: 0 <= i < |w.pending| && i != n ==>
              w.pending[i].item.peer != w.pending[n].item.peer && w.pending[i].item.order != w.pending[n].item.order
  {
  }

  lemma NotYetSent(w: Waiter, t: Waiter, cfg: Settings, now: nat, n: nat)
    requires OnePending(w.pending) && n < |w.pending| && Swept(w, t, cfg, now, n)
    ensures w.pending[n] in t.pending
    ensures RateAllows(t, w.pending[n].item.peer, cfg, now) <==> RateAllows(w, w.pending[n].item.peer, cfg, now)
    ensures !SentTo(w, cfg, w.pending[n].item.peer, now, n)
  {
    hide Reported, Lost, Spent, Repeats, FallsWith;
    OthersApart(w, n);
    assert StillPending(w, cfg, w.pending[n], now, n);
  }

  lemma FateKeepsItem(w: Waiter, p: Pending, cfg: Settings, now: nat)
    ensures Fate(w, p, cfg, now).Some? ==> Fate(w, p, cfg, now).value.item == p.item
  {
    hide RateAllows;
  }

  // What is pending beside packet n, before and after it is looked at.
  ghost predicate Besides(w: Waiter, cfg: Settings, q: Pending, now: nat, n: nat)
    requires n < |w.pending|
  {
    exists i :: 0 <= i < |w.pending| && i != n && Some(q) == (if i < n then Fate(w, w.pending[i], cfg, now) else Some(w.pending[i]))
  }

  lemma BesidesApart(w: Waiter, cfg: Settings, q: Pending, now: nat, n: nat)
    requires OnePending(w.pending) && n < |w.pending| && Besides(w, cfg, q, now, n)
    ensures q.item.peer != w.pending[n].item.peer && q.item.order != w.pending[n].item.order
  {
    hide Fate;
    OthersApart(w, n);
    var i :| 0 <= i < |w.pending| && i != n && Some(q) == (if i < n then Fate(w, w.pending[i], cfg, now) else Some(w.pending[i]));
    FateKeepsItem(w, w.pending[i], cfg, now);
  }

  lemma PendingSplit(w: Waiter, cfg: Settings, now: nat, n: nat)
    requires n < |w.pending|
    ensures forall q :: StillPending(w, cfg, q, now, n) <==> q == w.pending[n] || Besides(w, cfg, q, now, n)
    ensures forall q :: StillPending(w, cfg, q, now, n + 1) <==>
              Fate(w, w.pending[n], cfg, now) == Some(q) || Besides(w, cfg, q, now, n)
  {
    hide Fate;
    forall q
      ensures StillPending(w, cfg, q, now, n) <==> q == w.pending[n] || Besides(w, cfg, q, now, n)
      ensures StillPending(w, cfg, q, now, n + 1) <==> Fate(w, w.pending[n], cfg, now) == Some(q) || Besides(w, cfg, q, now, n)
    {
      if Besides(w, cfg, q, now, n) {
        var i :| 0 <= i < |w.pending| && i != n && Some(q) == (if i < n then Fate(w, w.pending[i], cfg, now) else Some(w.pending[i]));
        assert i < n + 1 <==> i < n;
      }
    }
  }

  // One that is neither spent nor due stays, and nothing else happens.
  lemma RestSwept(w: Waiter, t: Waiter, cfg: Settings, now: nat, n: nat)
    requires n < |w.pending| && Swept(w, t, cfg, now, n)
    requires !Spent(w.pending[n], cfg, now) && !Repeats(w, w.pending[n], cfg, now)
    ensures Swept(w, t, cfg, now, n + 1)
  {
    hide Spent, Repeats, FallsWith, Reported, StillPending, Besides;
    PendingSplit(w, cfg, now, n);
    assert Fate(w, w.pending[n], cfg, now) == Some(w.pending[n]);
    assert SpentAmong(w, cfg, now, n + 1) == SpentAmong(w, cfg, now, n);
    assert forall x :: Lost(w, cfg, x, now, n + 1) <==> Lost(w, cfg, x, now, n);
    assert forall peer :: SentTo(w, cfg, peer, now, n + 1) <==> SentTo(w, cfg, peer, now, n);
  }

  lemma RepeatedSwept(w: Waiter, t: Waiter, u: Waiter, cfg: Settings, now: nat, n: nat)
    requires OnePending(w.pending) && n < |w.pending| && Swept(w, t, cfg, now, n) && OnePending(t.pending)
    requires !Spent(w.pending[n], cfg, now) && Repeats(w, w.pending[n], cfg, now)
    requires u == t.(pending := ReplacedPending(t.pending, Resent(w.pending[n], cfg, now)),
                     lastSend := t.lastSend[w.pending[n].item.peer := now])
    ensures Swept(w, u, cfg, now, n + 1)
  {
    hide Spent, Repeats, FallsWith, ReportsLoss, StillPending, Besides, OnePending;
    PendingSplit(w, cfg, now, n);
    assert forall x :: Lost(w, cfg, x, now, n + 1) <==> Lost(w, cfg, x, now, n);
    var peer := w.pending[n].item.peer;
    forall other
      ensures SentTo(w, cfg, other, now, n + 1) <==> SentTo(w, cfg, other, now, n) || other == peer
    {
      if other == peer {
        assert Repeats(w, w.pending[n], cfg, now);
      }
    }
    forall q
      ensures q in u.pending <==> StillPending(w, cfg, q, now, n + 1)
    {
      ReplacedIs(t.pending, w.pending[n], Resent(w.pending[n], cfg, now), q);
      if Besides(w, cfg, q, now, n) {
        BesidesApart(w, cfg, q, now, n);
      }
    }
  }

  lemma ReplacedIs(pending: seq<Pending>, p: Pending, q: Pending, x: Pending)
    requires OnePending(pending) && p in pending && q.item == p.item
    ensures x in ReplacedPending(pending, q) <==> x == q || (x in pending && x.item.order != p.item.order)
  {
    var r := ReplacedPending(pending, q);
    var k :| 0 <= k < |pending| && pending[k] == p;
    assert r[k] == q;
    if x in pending && x.item.order != p.item.order {
      var j :| 0 <= j < |pending| && pending[j] == x;
      assert r[j] == x;
    }
  }

  // To the peer of packet n, everything is as the poll found it.
  lemma SamePeerItems(w: Waiter, t: Waiter, cfg: Settings, now: nat, n: nat)
    requires OnePending(w.pending) && n < |w.pending| && Swept(w, t, cfg, now, n)
    ensures forall x: Item :: x.peer == w.pending[n].item.peer ==> (x in LiveItems(t) <==> x in LiveItems(w))
  {
    hide Spent, Reported, StillPending, Besides, OnePending;
    OthersApart(w, n);
    PendingSplit(w, cfg, now, n);
    var p := w.pending[n];
    forall x: Item | x.peer == p.item.peer
      ensures x in LiveItems(t) <==> x in LiveItems(w)
    {
      assert !Lost(w, cfg, x, now, n);
      forall q | q in t.pending && q.item == x
        ensures q == p
      {
        if Besides(w, cfg, q, now, n) {
          BesidesApart(w, cfg, q, now, n);
        }
      }
      assert p in t.pending && p in w.pending;
    }
  }

  lemma FailedOrdersIs(t: Waiter, cfg: Settings, failed: Item, x: Item)
    requires Inv(t, cfg) && x in LiveItems(t)
    ensures x.order in FailedOrders(t, failed) <==> FailsWith(x, failed)
  {
    hide Inv, LiveItems, FailsWith;
    if x.order in FailedOrders(t, failed) {
      var y :| y in LiveItems(t) && FailsWith(y, failed) && y.order == x.order;
      LiveOrders(t, cfg, x, y);
    }
  }

  lemma SpentSwept(w: Waiter, t: Waiter, cfg: Settings, now: nat, n: nat)
    requires OnePending(w.pending) && n < |w.pending| && Swept(w, t, cfg, now, n) && Inv(t, cfg)
    requires Spent(w.pending[n], cfg, now)
    ensures Swept(w, FailTransaction(t, w.pending[n].item), cfg, now, n + 1)
  {
    hide Spent, Repeats, FailsWith, FallsWith, Reported, StillPending, Besides, OnePending, Inv, FailedOrders, LiveItems, Abandoned;
    RuleIs(w, "", cfg, now);
    PendingSplit(w, cfg, now, n);
    var failed := w.pending[n].item;
    var u := FailTransaction(t, failed);
    SpentReported(w, t, cfg, now, n);
    assert forall peer :: SentTo(w, cfg, peer, now, n + 1) <==> SentTo(w, cfg, peer, now, n) by {
      SpentNotRepeated(w, w.pending[n], cfg, now);
    }
    forall x
      ensures Lost(w, cfg, x, now, n + 1) <==> Lost(w, cfg, x, now, n) || FallsWith(x, failed)
    {
      if FallsWith(x, failed) {
        assert Spent(w.pending[n], cfg, now);
      }
    }
    forall x
      ensures x in u.queue <==> x in t.queue && !FallsWith(x, failed)
    {
      if x in t.queue {
        QueuedLive(t, x);
        FailedOrdersIs(t, cfg, failed, x);
      }
    }
    forall q
      ensures q in u.pending <==> Besides(w, cfg, q, now, n)
    {
      if q in t.pending {
        PendingIsLive(t, q);
        FailedOrdersIs(t, cfg, failed, q.item);
        FailsApart(w, cfg, q, now, n);
      }
    }
  }

  lemma SpentNotRepeated(w: Waiter, p: Pending, cfg: Settings, now: nat)
    requires Spent(p, cfg, now)
    ensures !Repeats(w, p, cfg, now) && Fate(w, p, cfg, now) == None
  {
  }

  lemma QueuedLive(t: Waiter, x: Item)
    requires x in t.queue
    ensures x in LiveItems(t)
  {
  }

  lemma FailsApart(w: Waiter, cfg: Settings, q: Pending, now: nat, n: nat)
    requires OnePending(w.pending) && n < |w.pending| && (q == w.pending[n] || Besides(w, cfg, q, now, n))
    ensures FailsWith(q.item, w.pending[n].item) <==> q == w.pending[n]
    ensures q == w.pending[n] ==> !Besides(w, cfg, q, now, n)
  {
    hide Besides, OnePending;
    if Besides(w, cfg, q, now, n) {
      BesidesApart(w, cfg, q, now, n);
    }
  }

  lemma SpentReported(w: Waiter, t: Waiter, cfg: Settings, now: nat, n: nat)
    requires OnePending(w.pending) && n < |w.pending| && Swept(w, t, cfg, now, n) && Inv(t, cfg)
    requires Spent(w.pending[n], cfg, now)
    ensures Reported(w, FailTransaction(t, w.pending[n].item), SpentAmong(w, cfg, now, n + 1))
  {
    hide Spent, Repeats, StillPending, Besides, OnePending, Inv, FailedOrders, LiveItems, Abandoned, Lost, SentTo, FailsWith, FallsWith;
    RuleIs(w, "", cfg, now);
    var failed := w.pending[n].item;
    SamePeerItems(w, t, cfg, now, n);
    PendingSplit(w, cfg, now, n);
    PendingIsLive(t, w.pending[n]);
    AbortIsExact(t, cfg, failed);
    var u := FailTransaction(t, failed);
    forall d
      ensures d in u.calls[|t.calls|].deliveries <==> exists x :: x in LiveItems(w) && FallsWith(x, failed) && x.delivery == Some(d)
    {
      if d in u.calls[|t.calls|].deliveries {
        var x :| x in LiveItems(t) && FailsWith(x, failed) && x.delivery == Some(d);
        assert x in LiveItems(w);
      }
      if x :| x in LiveItems(w) && FallsWith(x, failed) && x.delivery == Some(d) {
        assert x in LiveItems(t);
      }
    }
    assert ReportsLoss(w, u.calls[|t.calls|], failed);
  }

  lemma TurnSwept(w: Waiter, t: Waiter, cfg: Settings, now: nat, n: nat)
    requires OnePending(w.pending) && n < |w.pending| && Swept(w, t, cfg, now, n) && Inv(t, cfg)
    ensures var one := PollOne(t, cfg, w.pending[n], now);
            && Swept(w, one.waiter, cfg, now, n + 1)
            && one.packets == if Repeats(w, w.pending[n], cfg, now) then [PacketOf(w.pending[n].item)] else []
  {
    hide Swept, Inv, OnePending, MaySend, RateAllows, FailTransaction, ReplacedPending, PacketOf;
    var p := w.pending[n];
    NotYetSent(w, t, cfg, now, n);
    RuleIs(t, p.item.peer, cfg, now);
    InvPending(t, cfg);
    if Spent(p, cfg, now) {
      SpentSwept(w, t, cfg, now, n);
    } else if Repeats(w, p, cfg, now) {
      RepeatedSwept(w, t, PollOne(t, cfg, p, now).waiter, cfg, now, n);
    } else {
      RestSwept(w, t, cfg, now, n);
    }
  }

  lemma {:induction false} PendingSwept(w: Waiter, cfg: Settings, now: nat, n: nat)
    requires Inv(w, cfg) && n <= |w.pending|
    ensures var r := PollPending(w, cfg, w.pending, now, n);
            Swept(w, r.waiter, cfg, now, n) && r.packets == Repetitions(w, cfg, now, n) && Inv(r.waiter, cfg)
  {
    hide Inv, Swept, PollOne, Repeats;
    if n == 0 {
      NothingSwept(w, cfg, now);
    } else {
      PendingSwept(w, cfg, now, n - 1);
      InvPending(w, cfg);
      var t := PollPending(w, cfg, w.pending, now, n - 1).waiter;
      TurnSwept(w, t, cfg, now, n - 1);
      PollOneKeepsInv(t, cfg, w.pending[n - 1], now);
    }
  }

  // ------------------------------------------------------------- a new packet

  // The first of the queue by (priority, order).
  ghost predicate IsFirst(x: Item, queue: seq<Item>) {
    x in queue && forall y :: y in queue && y != x ==>
      x.priority < y.priority || (x.priority == y.priority && x.order < y.order)
  }

  // The peer has nothing in flight and may be sent to.
  ghost predicate Ready(t: Waiter, x: Item, cfg: Settings, now: nat) {
    (forall p :: p in t.pending ==> p.item.peer != x.peer) && RateAllows(t, x.peer, cfg, now)
  }

  // `x` leaves the queue and is in flight with its first attempt made.
  ghost predicate Starts(t: Waiter, u: Waiter, x: Item, cfg: Settings, now: nat) {
    && (forall y :: y in u.queue <==> y in t.queue && y != x)
    && u == t.(queue := u.queue, pending := t.pending + [Pending(x, 1, now + cfg.ackTimeout)], lastSend := t.lastSend[x.peer := now])
  }

  lemma HeadStarts(t: Waiter, cfg: Settings, x: Item, now: nat)
    requires Inv(t, cfg) && IsFirst(x, t.queue)
    ensures PollHead(t, cfg, now)
            == if Ready(t, x, cfg, now) then Polled(Start(t, cfg, x, now), [PacketOf(x)]) else Polled(t, [])
    ensures Starts(t, Start(t, cfg, x, now), x, cfg, now)
  {
    hide MessagesUnique, FramesUnique, NothingLost, GoodItem, LiveItems, OnePending, KeptItems, MaySend, RateAllows;
    RuleIs(t, x.peer, cfg, now);
    HeadIsLeast(t.queue);
    forall y | y in t.queue && y.order == x.order
      ensures y == x
    {
    }
  }

  lemma FirstExists(t: Waiter, cfg: Settings)
    requires Inv(t, cfg) && t.queue != []
    ensures exists x :: IsFirst(x, t.queue)
  {
    hide MessagesUnique, FramesUnique, NothingLost, GoodItem, LiveItems, OnePending, Head;
    HeadIsLeast(t.queue);
    assert IsFirst(Head(t.queue), t.queue);
  }

  // --------------------------------------------------------------- a whole poll

  // A poll returns what was waiting, all of it and first; then each packet in
  // flight that is due, within its attempts and within the rate, in order; then
  // at most one new packet, the first of the queue, if its peer is ready for
  // it. What is spent falls with the rest of its work and is reported.
  lemma PollIsExact(s: State, cfg: Settings, now: nat) returns (swept: Waiter)
    requires Inv(s.waiter, cfg) && cfg.maxAttempts > 0
    ensures var r := Poll(s, cfg, now);
            var again := Repetitions(s.waiter, cfg, now, |s.waiter.pending|);
            && Swept(s.waiter, swept, cfg, now, |s.waiter.pending|) && r.state.immediate == [] && r.state.core == s.core
            && (swept.queue == [] ==> r.state.waiter == swept && r.packets == s.immediate + again)
            && (swept.queue != [] ==> exists x :: IsFirst(x, swept.queue))
            && (forall x :: IsFirst(x, swept.queue) ==>
                  if Ready(swept, x, cfg, now) then
                    r.packets == s.immediate + again + [PacketOf(x)] && Starts(swept, r.state.waiter, x, cfg, now)
                  else r.state.waiter == swept && r.packets == s.immediate + again)
  {
    hide Inv, Swept, PollPending, PollHead, IsFirst, Ready, Start, Starts, PacketOf, R.Expired, P.Aged, Repetitions;
    PendingSwept(s.waiter, cfg, now, |s.waiter.pending|);
    swept := PollPending(s.waiter, cfg, s.waiter.pending, now, |s.waiter.pending|).waiter;
    var again := Repetitions(s.waiter, cfg, now, |s.waiter.pending|);
    assert s.immediate + (again + []) == s.immediate + again;
    if swept.queue == [] {
      EmptyHead(swept, cfg, now);
    } else {
      FirstExists(swept, cfg);
    }
    forall x | IsFirst(x, swept.queue)
      ensures PollHead(swept, cfg, now)
              == if Ready(swept, x, cfg, now) then Polled(Start(swept, cfg, x, now), [PacketOf(x)]) else Polled(swept, [])
      ensures Starts(swept, Start(swept, cfg, x, now), x, cfg, now)
      ensures s.immediate + (again + [PacketOf(x)]) == s.immediate + again + [PacketOf(x)]
    {
      HeadStarts(swept, cfg, x, now);
    }
  }

  lemma EmptyHead(t: Waiter, cfg: Settings, now: nat)
    requires t.queue == []
    ensures PollHead(t, cfg, now) == Polled(t, [])
  {
  }
}
