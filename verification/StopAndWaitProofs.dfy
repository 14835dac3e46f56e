// What every step of the stop-and-wait adapter's transmit side keeps.
module StopAndWaitProofs {
  import opened Prelude
  import opened Base36
  import opened Carriage
  import opened StopAndWait
  import B = Burst

  function Base(x: Item): int {
    x.order - x.fragment.index
  }

  // Pieces of one frame carry its transaction id.
  predicate SameFrame(x: Item, y: Item) {
    x.peer == y.peer && x.fragment.transactionId == y.fragment.transactionId
  }

  // What two pieces of one frame have in common.
  predicate Alike(x: Item, y: Item) {
    && Base(x) == Base(y) && x.fragment.total == y.fragment.total && x.delivery == y.delivery
    && x.batch == y.batch && x.supersedable == y.supersedable
  }

  predicate GoodItem(x: Item) {
    && ValidQ1(x.fragment) && x.fragment.messageId.Some? && Base(x) >= 0
    && (x.batch.Some? ==> x.batch.value.peer == x.peer)
  }

  ghost predicate InOrder(queue: seq<Item>) {
    forall i, j :: 0 <= i < j < |queue| ==> queue[i].order < queue[j].order
  }

  // At most one packet per peer awaits an acknowledgement.
  ghost predicate OnePending(pending: seq<Pending>) {
    forall i, j :: 0 <= i < j < |pending| ==>
      pending[i].item.peer != pending[j].item.peer && pending[i].item.order != pending[j].item.order
  }

  ghost predicate Apart(w: Waiter) {
    forall x, p :: x in w.queue && p in w.pending ==> x.order != p.item.order
  }

  // Live message ids are unique per peer.
  ghost predicate MessagesUnique(w: Waiter) {
    forall x, y :: x in LiveItems(w) && y in LiveItems(w) && x.peer == y.peer && IdOf(x.fragment) == IdOf(y.fragment) ==> x == y
  }

  // Live pieces with one peer and transaction id are pieces of one frame.
  ghost predicate FramesUnique(w: Waiter) {
    forall x, y :: x in LiveItems(w) && y in LiveItems(w) && SameFrame(x, y) ==> Alike(x, y)
  }

  // Piece i of x's frame has been acknowledged or is still live.
  ghost predicate Handled(w: Waiter, x: Item, i: int) {
    Base(x) + i in w.acked || exists y :: y in LiveItems(w) && SameFrame(x, y) && y.fragment.index == i
  }

  ghost predicate NothingLost(w: Waiter) {
    forall x, i :: x in LiveItems(w) && 0 <= i < x.fragment.total ==> Handled(w, x, i)
  }

  ghost predicate Inv(w: Waiter, cfg: Settings) {
    && InOrder(w.queue) && OnePending(w.pending) && Apart(w)
    && MessagesUnique(w) && FramesUnique(w) && NothingLost(w)
    && |w.queue| <= cfg.queueCapacity
    && (forall x :: x in LiveItems(w) ==> GoodItem(x) && x.order < w.order)
    && (forall p :: p in w.pending ==> 1 <= p.attempts <= cfg.maxAttempts)
  }

  lemma IdleInv(cfg: Settings)
    ensures Inv(IDLE, cfg)
  {
  }

  lemma LiveOrders(w: Waiter, cfg: Settings, x: Item, y: Item)
    requires Inv(w, cfg) && x in LiveItems(w) && y in LiveItems(w) && x.order == y.order
    ensures x == y
  {
    hide MessagesUnique, FramesUnique, NothingLost, GoodItem;
  }

  // ---------------------------------------------------- sequences of items

  lemma KeptStep(items: seq<Item>, dropped: set<nat>)
    requires items != []
    ensures var prefix, last := items[..|items| - 1], items[|items| - 1];
            KeptItems(items, dropped) == if last.order in dropped then KeptItems(prefix, dropped) else KeptItems(prefix, dropped) + [last]
  {
  }

  lemma {:induction false} KeptInOrder(items: seq<Item>, dropped: set<nat>)
    requires InOrder(items)
    ensures InOrder(KeptItems(items, dropped))
  {
    hide KeptItems;
    if items == [] {
    } else {
      var prefix, last := items[..|items| - 1], items[|items| - 1];
      KeptStep(items, dropped);
      KeptInOrder(prefix, dropped);
      var r := KeptItems(prefix, dropped);
      forall i | 0 <= i < |r|
        ensures r[i].order < last.order
      {
        assert r[i] in r;
      }
    }
  }

  lemma KeptPendingStep(pending: seq<Pending>, dropped: set<nat>)
    requires pending != []
    ensures var prefix, last := pending[..|pending| - 1], pending[|pending| - 1];
            KeptPending(pending, dropped)
            == if last.item.order in dropped then KeptPending(prefix, dropped) else KeptPending(prefix, dropped) + [last]
  {
  }

  lemma {:induction false} KeptOnePending(pending: seq<Pending>, dropped: set<nat>)
    requires OnePending(pending)
    ensures OnePending(KeptPending(pending, dropped))
  {
    hide KeptPending;
    if pending == [] {
    } else {
      var prefix, last := pending[..|pending| - 1], pending[|pending| - 1];
      KeptPendingStep(pending, dropped);
      KeptOnePending(prefix, dropped);
      var r := KeptPending(prefix, dropped);
      forall i | 0 <= i < |r|
        ensures r[i].item.peer != last.item.peer && r[i].item.order != last.item.order
      {
        assert r[i] in r;
      }
    }
  }

  // ------------------------------------------------------------- whole frames

  // Frames are dropped whole or not at all.
  ghost predicate ByFrames(w: Waiter, dropped: set<nat>) {
    forall x, y :: x in LiveItems(w) && y in LiveItems(w) && SameFrame(x, y) ==> (x.order in dropped <==> y.order in dropped)
  }

  lemma DropLive(w: Waiter, dropped: set<nat>)
    ensures forall x :: x in LiveItems(Drop(w, dropped)) <==> x in LiveItems(w) && x.order !in dropped
  {
    hide KeptItems, KeptPending;
    var t := Drop(w, dropped);
    forall x | x in LiveItems(w) && x.order !in dropped
      ensures x in LiveItems(t)
    {
      if x !in w.queue {
        var p :| p in w.pending && p.item == x;
        assert p in t.pending;
      }
    }
  }

  lemma DropKeepsInv(w: Waiter, cfg: Settings, dropped: set<nat>)
    requires Inv(w, cfg) && ByFrames(w, dropped)
    ensures Inv(Drop(w, dropped), cfg)
  {
    hide KeptItems, KeptPending, GoodItem, LiveItems, InOrder, OnePending, NothingLost, FramesUnique, MessagesUnique;
    var t := Drop(w, dropped);
    KeptInOrder(w.queue, dropped);
    KeptOnePending(w.pending, dropped);
    DropLive(w, dropped);
    FewerUnique(w, t);
    DropLosesNothing(w, dropped);
  }

  lemma FewerUnique(w: Waiter, t: Waiter)
    requires MessagesUnique(w) && FramesUnique(w) && forall x :: x in LiveItems(t) ==> x in LiveItems(w)
    ensures MessagesUnique(t) && FramesUnique(t)
  {
    hide LiveItems, Alike, SameFrame;
  }

  lemma DropLosesNothing(w: Waiter, dropped: set<nat>)
    requires NothingLost(w) && ByFrames(w, dropped)
    ensures NothingLost(Drop(w, dropped))
  {
    hide LiveItems, SameFrame;
    var t := Drop(w, dropped);
    DropLive(w, dropped);
    forall x, i | x in LiveItems(t) && 0 <= i < x.fragment.total
      ensures Handled(t, x, i)
    {
      assert Handled(w, x, i);
      if Base(x) + i !in w.acked {
        var y :| y in LiveItems(w) && SameFrame(x, y) && y.fragment.index == i;
        assert y in LiveItems(t);
      }
    }
  }

  lemma OutdatedByFrames(w: Waiter, cfg: Settings, peer: string, current: Key)
    requires Inv(w, cfg)
    ensures ByFrames(w, Outdated(w, peer, current))
  {
    hide NothingLost, MessagesUnique, InOrder, OnePending, Apart, StaleBatches;
    var stale := StaleBatches(w, peer, current);
    StaleAreOurs(w, cfg, peer, current);
    forall x | x in LiveItems(w)
      ensures x.order in Outdated(w, peer, current) <==> x.batch.Some? && x.batch.value in stale
    {
      OutdatedIs(w, cfg, peer, current, x);
    }
  }

  lemma StaleAreOurs(w: Waiter, cfg: Settings, peer: string, current: Key)
    requires Inv(w, cfg)
    ensures forall k :: k in StaleBatches(w, peer, current) ==> k.peer == peer
  {
    hide NothingLost, MessagesUnique, FramesUnique, LiveItems, ValidQ1, InOrder, OnePending, Apart;
  }

  lemma OutdatedIs(w: Waiter, cfg: Settings, peer: string, current: Key, x: Item)
    requires Inv(w, cfg) && x in LiveItems(w)
    ensures x.order in Outdated(w, peer, current) <==> x.batch.Some? && x.batch.value in StaleBatches(w, peer, current)
  {
    hide NothingLost, MessagesUnique, FramesUnique, ValidQ1, InOrder, OnePending, Apart, StaleBatches;
    StaleAreOurs(w, cfg, peer, current);
    var stale := StaleBatches(w, peer, current);
    if x.order in Outdated(w, peer, current) {
      if y :| y in w.queue && y.batch.Some? && y.batch.value in stale && y.order == x.order {
        LiveOrders(w, cfg, x, y);
      } else {
        var p :| p in w.pending && p.item.peer == peer && p.item.batch.Some? && p.item.batch.value in stale && p.item.order == x.order;
        LiveOrders(w, cfg, x, p.item);
      }
    }
  }

  // `x` belongs to a response batch, other than the current one, of which some
  // replaceable piece is still live to this peer.
  ghost predicate GivesWay(w: Waiter, x: Item, peer: string, current: Key) {
    && x.batch.Some? && x.batch.value != current
    && exists y :: y in LiveItems(w) && y.peer == peer && y.supersedable && y.batch == x.batch
  }

  // A new response to a peer pushes out the older replaceable batches to that
  // peer, each whole, and nothing else; nobody is told of it. So what that peer
  // is left with is of the current batch, of no batch, or not replaceable.
  lemma SupersessionIsExact(w: Waiter, cfg: Settings, peer: string, current: Key)
    requires Inv(w, cfg)
    ensures var t := SupersedeStale(w, peer, current);
            && Inv(t, cfg) && t.acked == w.acked && t.calls == w.calls
            && (forall x :: x in LiveItems(t) <==> x in LiveItems(w) && !GivesWay(w, x, peer, current))
            && (forall x :: x in LiveItems(w) && x.peer != peer ==> x in LiveItems(t))
            && (forall x :: x in LiveItems(t) && x.peer == peer && Replaceable(x) ==> x.batch == Some(current))
  {
    hide Inv, Outdated, LiveItems;
    OutdatedByFrames(w, cfg, peer, current);
    DropKeepsInv(w, cfg, Outdated(w, peer, current));
    DropLive(w, Outdated(w, peer, current));
    StaleAreOurs(w, cfg, peer, current);
    forall x | x in LiveItems(w)
      ensures x.order in Outdated(w, peer, current) <==> GivesWay(w, x, peer, current)
      ensures x.batch.Some? ==> x.batch.value.peer == x.peer
    {
      OutdatedIs(w, cfg, peer, current, x);
      StaleIs(w, peer, current, x);
      BatchOfPeer(w, cfg, x);
    }
  }

  lemma StaleIs(w: Waiter, peer: string, current: Key, x: Item)
    ensures x.batch.Some? && x.batch.value in StaleBatches(w, peer, current) <==> GivesWay(w, x, peer, current)
  {
    hide LiveItems;
  }

  lemma BatchOfPeer(w: Waiter, cfg: Settings, x: Item)
    requires Inv(w, cfg) && x in LiveItems(w)
    ensures x.batch.Some? ==> x.batch.value.peer == x.peer
  {
    hide NothingLost, MessagesUnique, FramesUnique, InOrder, OnePending, Apart, LiveItems, ValidQ1;
  }

  lemma FailedByFrames(w: Waiter, cfg: Settings, failed: Item)
    requires Inv(w, cfg)
    ensures ByFrames(w, FailedOrders(w, failed))
    ensures forall x :: x in LiveItems(w) ==> (x.order in FailedOrders(w, failed) <==> FailsWith(x, failed))
  {
    hide NothingLost, MessagesUnique, LiveItems, ValidQ1, InOrder, OnePending, Apart;
    forall x | x in LiveItems(w)
      ensures x.order in FailedOrders(w, failed) <==> FailsWith(x, failed)
    {
      if x.order in FailedOrders(w, failed) {
        var y :| y in LiveItems(w) && FailsWith(y, failed) && y.order == x.order;
        LiveOrders(w, cfg, x, y);
      }
    }
  }

  lemma CoveredByFrames(w: Waiter, cfg: Settings, peer: string, callsign: Bytes, since: int)
    requires Inv(w, cfg)
    ensures ByFrames(w, CoveredOrders(w, peer, callsign, since))
    ensures forall x :: x in LiveItems(w) ==> (x.order in CoveredOrders(w, peer, callsign, since) <==> Covered(x, peer, callsign, since))
  {
    hide NothingLost, MessagesUnique, LiveItems, ValidQ1, InOrder, OnePending, Apart;
    forall x | x in LiveItems(w)
      ensures x.order in CoveredOrders(w, peer, callsign, since) <==> Covered(x, peer, callsign, since)
    {
      if x.order in CoveredOrders(w, peer, callsign, since) {
        var y :| y in LiveItems(w) && Covered(y, peer, callsign, since) && y.order == x.order;
        LiveOrders(w, cfg, x, y);
      }
    }
  }

  // ---------------------------------------------------------- abort and cursor

  lemma SameLiveInv(w: Waiter, cfg: Settings, t: Waiter)
    requires Inv(w, cfg) && t.queue == w.queue && t.pending == w.pending && t.order == w.order && t.acked == w.acked
    ensures Inv(t, cfg)
  {
    hide InOrder, OnePending, GoodItem, Alike;
    assert LiveItems(t) == LiveItems(w);
    forall x, i | x in LiveItems(t) && 0 <= i < x.fragment.total
      ensures Handled(t, x, i)
    {
      assert Handled(w, x, i);
    }
  }

  // Exhausting one fragment takes exactly its transaction and its response
  // batch for that peer out of the adapter, and fails exactly the deliveries
  // among them.
  lemma AbortIsExact(w: Waiter, cfg: Settings, failed: Item)
    requires Inv(w, cfg) && failed in LiveItems(w)
    ensures var t := FailTransaction(w, failed);
            && Inv(t, cfg)
            && (forall x :: x in LiveItems(t) <==> x in LiveItems(w) && !FailsWith(x, failed))
            && |t.calls| == |w.calls| + 1 && t.calls[|w.calls|].failed
            && (forall d :: d in t.calls[|w.calls|].deliveries <==>
                  exists x :: x in LiveItems(w) && FailsWith(x, failed) && x.delivery == Some(d))
  {
    hide Inv, LiveItems, FailedOrders;
    FailedByFrames(w, cfg, failed);
    DropKeepsInv(w, cfg, FailedOrders(w, failed));
    DropLive(w, FailedOrders(w, failed));
    var t := FailTransaction(w, failed);
    SameLiveInv(Drop(w, FailedOrders(w, failed)), cfg, t);
    SameLive(Drop(w, FailedOrders(w, failed)), t);
    forall d
      ensures d in Abandoned(w, failed) <==> exists x :: x in LiveItems(w) && FailsWith(x, failed) && x.delivery == Some(d)
    {
      AbandonedIs(w, failed, d);
    }
  }

  lemma AbandonedIs(w: Waiter, failed: Item, d: B.Delivery)
    requires failed in LiveItems(w)
    ensures d in Abandoned(w, failed) <==> exists x :: x in LiveItems(w) && FailsWith(x, failed) && x.delivery == Some(d)
  {
    hide LiveItems;
    if failed.delivery == Some(d) {
      assert FailsWith(failed, failed);
    }
  }

  lemma SameLive(w: Waiter, t: Waiter)
    requires t.queue == w.queue && t.pending == w.pending
    ensures LiveItems(t) == LiveItems(w)
  {
  }

  // After a cursor, nothing it covers is queued or pending for that peer, and
  // exactly what it covered is reported delivered.
  lemma CursorIsHonoured(w: Waiter, cfg: Settings, peer: string, callsign: Bytes, since: int)
    requires Inv(w, cfg)
    ensures var t := Reconcile(w, peer, callsign, since);
            && Inv(t, cfg)
            && (forall x :: x in LiveItems(t) <==> x in LiveItems(w) && !Covered(x, peer, callsign, since))
            && t.calls == w.calls + [Report(false, Confirmed(w, peer, callsign, since))]
            && (forall d :: d in Confirmed(w, peer, callsign, since) <==>
                  exists x :: x in LiveItems(w) && Covered(x, peer, callsign, since) && x.delivery == Some(d))
  {
    hide Inv, LiveItems, CoveredOrders;
    CoveredByFrames(w, cfg, peer, callsign, since);
    DropKeepsInv(w, cfg, CoveredOrders(w, peer, callsign, since));
    DropLive(w, CoveredOrders(w, peer, callsign, since));
    SameLiveInv(Drop(w, CoveredOrders(w, peer, callsign, since)), cfg, Reconcile(w, peer, callsign, since));
    SameLive(Drop(w, CoveredOrders(w, peer, callsign, since)), Reconcile(w, peer, callsign, since));
  }

  lemma SupersedeKeepsInv(w: Waiter, cfg: Settings, peer: string, current: Key)
    requires Inv(w, cfg)
    ensures Inv(SupersedeStale(w, peer, current), cfg)
  {
    hide Inv, ByFrames, Outdated;
    OutdatedByFrames(w, cfg, peer, current);
    DropKeepsInv(w, cfg, Outdated(w, peer, current));
  }

  // ---------------------------------------------------------- acknowledgement

  lemma AckedLive(w: Waiter, p: Pending)
    requires OnePending(w.pending) && Apart(w) && p in w.pending
    ensures forall x :: x in LiveItems(Acknowledge(w, p)) <==> x in LiveItems(w) && x.order != p.item.order
  {
    hide KeptPending, Outstanding;
    var t := Acknowledge(w, p);
    forall x | x in LiveItems(w) && x.order != p.item.order
      ensures x in LiveItems(t)
    {
      if x !in w.queue {
        var q :| q in w.pending && q.item == x;
        assert q in t.pending;
      }
    }
  }

  lemma AckLosesNothing(w: Waiter, p: Pending)
    requires NothingLost(w) && FramesUnique(w) && OnePending(w.pending) && Apart(w) && p in w.pending
    ensures NothingLost(Acknowledge(w, p))
  {
    hide LiveItems, KeptPending, Outstanding;
    var t := Acknowledge(w, p);
    AckedLive(w, p);
    PendingIsLive(w, p);
    forall x, i | x in LiveItems(t) && 0 <= i < x.fragment.total
      ensures Handled(t, x, i)
    {
      assert Handled(w, x, i);
      if Base(x) + i !in w.acked {
        var y :| y in LiveItems(w) && SameFrame(x, y) && y.fragment.index == i;
        if y.order == p.item.order {
          assert Alike(x, y);
        } else {
          assert y in LiveItems(t);
        }
      }
    }
  }

  lemma PendingIsLive(w: Waiter, p: Pending)
    requires p in w.pending
    ensures p.item in LiveItems(w)
  {
  }

  lemma AckKeepsInv(w: Waiter, cfg: Settings, p: Pending)
    requires Inv(w, cfg) && p in w.pending
    ensures Inv(Acknowledge(w, p), cfg)
  {
    hide LiveItems, KeptPending, Outstanding, GoodItem, InOrder, NothingLost, MessagesUnique, FramesUnique;
    KeptOnePending(w.pending, {p.item.order});
    AckedLive(w, p);
    AckLosesNothing(w, p);
    FewerUnique(w, Acknowledge(w, p));
  }

  predicate PieceAcked(w: Waiter, x: Item, i: int) {
    Base(x) + i in w.acked
  }

  ghost predicate FullyAcked(w: Waiter, x: Item) {
    forall i :: 0 <= i < x.fragment.total ==> PieceAcked(w, x, i)
  }

  // Core hears that a delivery was made exactly when the last piece of its
  // frame is acknowledged: then all of them have been.
  lemma DeliveredOnlyWhenComplete(w: Waiter, cfg: Settings, p: Pending)
    requires Inv(w, cfg) && p in w.pending
    ensures var t := Acknowledge(w, p);
            && (t.calls != w.calls ==>
                  && p.item.delivery.Some? && t.calls == w.calls + [Report(false, {p.item.delivery.value})]
                  && FullyAcked(t, p.item))
            && (t.calls == w.calls && p.item.delivery.Some? ==>
                  exists y :: y in LiveItems(t) && SameFrame(p.item, y))
  {
    hide Inv, LiveItems, Outstanding, Acknowledge, SameFrame, PieceAcked;
    var t := Acknowledge(w, p);
    CallsTell(w, p);
    OutstandingIs(t, p.item);
    forall i | t.calls != w.calls && 0 <= i < p.item.fragment.total
      ensures PieceAcked(t, p.item, i)
    {
      PieceWasAcked(w, cfg, p, i);
    }
  }

  lemma PieceWasAcked(w: Waiter, cfg: Settings, p: Pending, i: int)
    requires Inv(w, cfg) && p in w.pending && 0 <= i < p.item.fragment.total
    requires forall y :: y in LiveItems(Acknowledge(w, p)) ==> !SameFrame(p.item, y)
    ensures PieceAcked(Acknowledge(w, p), p.item, i)
  {
    hide KeptPending, GoodItem, InOrder, MessagesUnique, LiveItems, Outstanding;
    AckedLive(w, p);
    PendingIsLive(w, p);
    assert Handled(w, p.item, i);
    if Base(p.item) + i !in w.acked {
      var y :| y in LiveItems(w) && SameFrame(p.item, y) && y.fragment.index == i;
      assert Alike(p.item, y);
    }
  }

  lemma CallsTell(w: Waiter, p: Pending)
    ensures var t := Acknowledge(w, p);
            && (t.calls != w.calls <==> p.item.delivery.Some? && !Outstanding(t, p.item.peer, p.item.fragment.transactionId))
            && (t.calls != w.calls ==> t.calls == w.calls + [Report(false, {p.item.delivery.value})])
  {
    hide KeptPending;
  }

  lemma OutstandingIs(w: Waiter, x: Item)
    ensures Outstanding(w, x.peer, x.fragment.transactionId) <==> exists y :: y in LiveItems(w) && SameFrame(x, y)
  {
    if Outstanding(w, x.peer, x.fragment.transactionId) {
      if y :| y in w.queue && y.peer == x.peer && y.fragment.transactionId == x.fragment.transactionId {
        assert y in LiveItems(w) && SameFrame(x, y);
      } else {
        var p :| p in w.pending && p.item.peer == x.peer && p.item.fragment.transactionId == x.fragment.transactionId;
        assert p.item in LiveItems(w) && SameFrame(x, p.item);
      }
    }
  }
}
