// Polling, queuing, and whole runs of the stop-and-wait transmit side.
module StopAndWaitRuns {
  import opened Prelude
  import opened Base36
  import opened Carriage
  import opened StopAndWait
  import opened StopAndWaitProofs
  import B = Burst

  // ------------------------------------------------------------------ polling

  // The same live pieces, standing elsewhere.
  lemma MovedKeepsInv(w: Waiter, cfg: Settings, t: Waiter)
    requires Inv(w, cfg) && LiveItems(t) == LiveItems(w) && t.order == w.order && t.acked == w.acked
    requires InOrder(t.queue) && OnePending(t.pending) && Apart(t) && |t.queue| <= cfg.queueCapacity
    requires forall p :: p in t.pending ==> 1 <= p.attempts <= cfg.maxAttempts
    ensures Inv(t, cfg)
  {
    hide LiveItems, InOrder, OnePending, GoodItem, Alike;
    forall x, i | x in LiveItems(t) && 0 <= i < x.fragment.total
      ensures Handled(t, x, i)
    {
      assert Handled(w, x, i);
    }
  }

  lemma ResentLive(w: Waiter, p: Pending, q: Pending)
    requires OnePending(w.pending) && p in w.pending && q.item == p.item
    ensures var t := w.(pending := ReplacedPending(w.pending, q));
            && LiveItems(t) == LiveItems(w) && OnePending(t.pending)
            && (forall x :: x in t.pending ==> x == q || x in w.pending)
  {
    var r := ReplacedPending(w.pending, q);
    forall x | x in w.pending
      ensures exists y :: y in r && y.item == x.item
    {
      var i :| 0 <= i < |w.pending| && w.pending[i] == x;
      assert r[i] in r && r[i].item == x.item by {
        var k :| 0 <= k < |w.pending| && w.pending[k] == p;
      }
    }
    forall y | y in r
      ensures y == q || y in w.pending
    {
      var i :| 0 <= i < |r| && r[i] == y;
    }
    ResentOne(w.pending, p, q);
    SameItems(w, w.(pending := r), p, q);
  }

  lemma ResentOne(pending: seq<Pending>, p: Pending, q: Pending)
    requires OnePending(pending) && p in pending && q.item == p.item
    ensures OnePending(ReplacedPending(pending, q))
  {
    var k :| 0 <= k < |pending| && pending[k] == p;
    var r := ReplacedPending(pending, q);
    forall i | 0 <= i < |r|
      ensures r[i].item == pending[i].item
    {
      if pending[i].item.order == q.item.order {
        SamePlace(pending, i, k);
      }
    }
  }

  lemma SamePlace(pending: seq<Pending>, i: nat, k: nat)
    requires OnePending(pending) && i < |pending| && k < |pending| && pending[i].item.order == pending[k].item.order
    ensures i == k
  {
  }

  lemma SameItems(w: Waiter, t: Waiter, p: Pending, q: Pending)
    requires t.queue == w.queue && q.item == p.item && p in w.pending
    requires forall x :: x in w.pending ==> exists y :: y in t.pending && y.item == x.item
    requires forall y :: y in t.pending ==> y == q || y in w.pending
    ensures LiveItems(t) == LiveItems(w)
  {
  }

  lemma PollOneKeepsInv(w: Waiter, cfg: Settings, p: Pending, now: nat)
    requires Inv(w, cfg)
    ensures Inv(PollOne(w, cfg, p, now).waiter, cfg)
  {
    hide Inv, LiveItems, FailTransaction, MaySend, ReplacedPending;
    if p in w.pending && now >= p.deadline {
      PendingIsLive(w, p);
      if p.attempts >= cfg.maxAttempts {
        AbortIsExact(w, cfg, p.item);
      } else if MaySend(w, p.item.peer, cfg, now) {
        ResendKeepsInv(w, cfg, p, now);
        SameLiveInv(w.(pending := ReplacedPending(w.pending, Resent(p, cfg, now))), cfg, PollOne(w, cfg, p, now).waiter);
      }
    }
  }

  lemma ResendKeepsInv(w: Waiter, cfg: Settings, p: Pending, now: nat)
    requires Inv(w, cfg) && p in w.pending && p.attempts < cfg.maxAttempts
    ensures Inv(w.(pending := ReplacedPending(w.pending, Resent(p, cfg, now))), cfg)
  {
    hide LiveItems, ReplacedPending, OnePending, InOrder, FramesUnique, MessagesUnique, NothingLost, GoodItem;
    ResentLive(w, p, Resent(p, cfg, now));
    MovedKeepsInv(w, cfg, w.(pending := ReplacedPending(w.pending, Resent(p, cfg, now))));
  }

  lemma {:induction false} PollPendingKeepsInv(w: Waiter, cfg: Settings, snapshot: seq<Pending>, now: nat, n: nat)
    requires Inv(w, cfg) && n <= |snapshot|
    ensures Inv(PollPending(w, cfg, snapshot, now, n).waiter, cfg)
  {
    hide Inv, PollOne;
    if n == 0 {
    } else {
      PollPendingKeepsInv(w, cfg, snapshot, now, n - 1);
      PollOneKeepsInv(PollPending(w, cfg, snapshot, now, n - 1).waiter, cfg, snapshot[n - 1], now);
    }
  }

  lemma StartKeepsInv(w: Waiter, cfg: Settings, x: Item, now: nat)
    requires Inv(w, cfg) && cfg.maxAttempts > 0 && x in w.queue && !PeerHasPending(w, x.peer)
    ensures Inv(Start(w, cfg, x, now), cfg)
  {
    hide LiveItems, KeptItems, InOrder, OnePending, FramesUnique, MessagesUnique, NothingLost, GoodItem;
    var t := Start(w, cfg, x, now);
    KeptInOrder(w.queue, {x.order});
    StartedLive(w, cfg, x, now);
    StartedOne(w, cfg, x, now);
    StartedApart(w, x, t);
    MovedKeepsInv(w, cfg, t);
  }

  lemma StartedLive(w: Waiter, cfg: Settings, x: Item, now: nat)
    requires InOrder(w.queue) && x in w.queue
    ensures LiveItems(Start(w, cfg, x, now)) == LiveItems(w)
  {
    hide KeptItems;
    var t := Start(w, cfg, x, now);
    var p := Pending(x, 1, now + cfg.ackTimeout);
    assert p in t.pending;
    forall y | y in w.queue && y.order == x.order
      ensures y == x
    {
    }
    forall q | q in w.pending
      ensures q in t.pending
    {
    }
  }

  lemma StartedOne(w: Waiter, cfg: Settings, x: Item, now: nat)
    requires OnePending(w.pending) && Apart(w) && x in w.queue && !PeerHasPending(w, x.peer)
    ensures OnePending(Start(w, cfg, x, now).pending)
  {
    hide KeptItems;
    forall i | 0 <= i < |w.pending|
      ensures w.pending[i].item.peer != x.peer && w.pending[i].item.order != x.order
    {
      assert w.pending[i] in w.pending;
    }
  }

  lemma StartedApart(w: Waiter, x: Item, t: Waiter)
    requires Apart(w) && t.queue == KeptItems(w.queue, {x.order})
    requires forall p :: p in t.pending ==> p in w.pending || p.item == x
    ensures Apart(t)
  {
    hide KeptItems;
  }

  lemma PollKeepsInv(w: Waiter, cfg: Settings, now: nat)
    requires Inv(w, cfg) && cfg.maxAttempts > 0
    ensures Inv(PollWaiter(w, cfg, now).waiter, cfg)
  {
    hide Inv, PollPending, MaySend, Start, PeerHasPending, Head;
    PollPendingKeepsInv(w, cfg, w.pending, now, |w.pending|);
    var t := PollPending(w, cfg, w.pending, now, |w.pending|).waiter;
    if t.queue != [] && !PeerHasPending(t, Head(t.queue).peer) && MaySend(t, Head(t.queue).peer, cfg, now) {
      StartKeepsInv(t, cfg, Head(t.queue), now);
    }
  }

  // The heap's head is the least queued piece by (priority, order).
  lemma {:induction false} HeadIsLeast(queue: seq<Item>)
    requires queue != [] && InOrder(queue)
    ensures forall x :: x in queue && x != Head(queue) ==> Precedes(Head(queue), x)
  {
    if |queue| == 1 {
    } else {
      var prefix, last := queue[..|queue| - 1], queue[|queue| - 1];
      HeadIsLeast(prefix);
      forall x | x in queue && x != Head(queue)
        ensures Precedes(Head(queue), x)
      {
        assert Head(prefix).order < last.order;
        assert x in prefix || x == last;
      }
    }
  }

  // --------------------------------------------------------------- message ids

  lemma {:induction false} MessageSearchFails(taken: set<string>, next: nat, tries: nat, k: nat)
    requires SearchMessage(taken, next, tries).id.None? && k < tries
    ensures Digits((next + k) % MESSAGE_IDS, 2) in taken
    decreases tries
  {
    hide Digits;
    if k > 0 {
      MessageSearchFails(taken, next % MESSAGE_IDS + 1, tries - 1, k - 1);
      CyclicSum(next, k);
    }
  }

  lemma CyclicSum(next: nat, k: nat)
    ensures (next % MESSAGE_IDS + k) % MESSAGE_IDS == (next + k) % MESSAGE_IDS
  {
  }

  function FirstMessages(n: nat): set<string> {
    if n == 0 then {} else FirstMessages(n - 1) + {Digits(n - 1, 2)}
  }

  lemma {:induction false} FirstMessagesSize(n: nat)
    requires n <= MESSAGE_IDS
    ensures |FirstMessages(n)| == n
    ensures forall v: nat :: v < MESSAGE_IDS ==> (Digits(v, 2) in FirstMessages(n) <==> v < n)
  {
    hide Digits, FirstMessages;
    if n == 0 {
      NoMessages();
    } else {
      FirstMessagesSize(n - 1);
      OneMoreMessage(n);
      forall v: nat | v < MESSAGE_IDS
        ensures Digits(v, 2) in FirstMessages(n) <==> v < n
      {
        DigitsApart(v, n - 1);
      }
    }
  }

  lemma NoMessages()
    ensures FirstMessages(0) == {}
  {
  }

  lemma OneMoreMessage(n: nat)
    requires n > 0
    ensures FirstMessages(n) == FirstMessages(n - 1) + {Digits(n - 1, 2)}
  {
    hide Digits;
  }

  lemma DigitsApart(a: nat, b: nat)
    requires a < MESSAGE_IDS && b < MESSAGE_IDS
    ensures Digits(a, 2) == Digits(b, 2) <==> a == b
  {
    hide Digits, Number;
    Pow36Values();
    DigitsRoundTrip(a, 2);
    DigitsRoundTrip(b, 2);
  }

  // With fewer than 1296 message ids live to a peer one is always found.
  lemma MessageFound(taken: set<string>, next: nat)
    requires |taken| < MESSAGE_IDS
    ensures SearchMessage(taken, next, MESSAGE_IDS).id.Some?
  {
    hide Digits, SearchMessage, FirstMessages;
    if SearchMessage(taken, next, MESSAGE_IDS).id.None? {
      FirstMessagesSize(MESSAGE_IDS);
      AllMessagesTaken(taken, next, MESSAGE_IDS);
      SubsetSize(FirstMessages(MESSAGE_IDS), taken);
    }
  }

  lemma {:induction false} AllMessagesTaken(taken: set<string>, next: nat, n: nat)
    requires n <= MESSAGE_IDS && SearchMessage(taken, next, MESSAGE_IDS).id.None?
    ensures FirstMessages(n) <= taken
  {
    hide Digits, SearchMessage;
    if n == 0 {
    } else {
      AllMessagesTaken(taken, next, n - 1);
      var k: nat := (n - 1 - next % MESSAGE_IDS) % MESSAGE_IDS;
      MessageSearchFails(taken, next, MESSAGE_IDS, k);
      CyclicSum(next, k);
      Around(next % MESSAGE_IDS, n - 1);
    }
  }

  lemma Around(a: nat, b: nat)
    requires a < MESSAGE_IDS && b < MESSAGE_IDS
    ensures (a + (b - a) % MESSAGE_IDS) % MESSAGE_IDS == b
  {
  }

  lemma {:induction false} MessageFoundIs(taken: set<string>, next: nat, tries: nat)
    ensures var r := SearchMessage(taken, next, tries).id;
            r.Some? ==> r.value !in taken && IsMessageId(r.value)
    decreases tries
  {
    hide Digits;
    if tries > 0 {
      MessageFoundIs(taken, next % MESSAGE_IDS + 1, tries - 1);
    }
  }

  // ---------------------------------------------------- how many ids are live

  function ItemIds(items: seq<Item>): set<string> {
    if items == [] then {} else ItemIds(items[..|items| - 1]) + {IdOf(items[|items| - 1].fragment)}
  }

  lemma {:induction false} ItemIdsSize(items: seq<Item>)
    ensures |ItemIds(items)| <= |items|
    ensures forall x :: x in items ==> IdOf(x.fragment) in ItemIds(items)
  {
    if items == [] {
    } else {
      ItemIdsSize(items[..|items| - 1]);
    }
  }

  lemma TakenSize(w: Waiter, peer: string)
    requires OnePending(w.pending)
    ensures |TakenMessages(w, peer)| <= |w.queue| + 1
  {
    ItemIdsSize(w.queue);
    if p :| p in w.pending && p.item.peer == peer {
      forall q | q in w.pending && q.item.peer == peer
        ensures q == p
      {
      }
      var few := ItemIds(w.queue) + {IdOf(p.item.fragment)};
      assert TakenMessages(w, peer) <= few;
      SubsetSize(TakenMessages(w, peer), few);
    } else {
      assert TakenMessages(w, peer) <= ItemIds(w.queue);
      SubsetSize(TakenMessages(w, peer), ItemIds(w.queue));
    }
  }

  // ----------------------------------------------------------------- queuing

  // The pieces pushed for one frame: consecutive orders, free distinct ids.
  ghost predicate FreshPieces(w: Waiter, r: B.Request, id: string, chunks: seq<string>, pieces: seq<Item>, n: nat) {
    && |pieces| == n <= |chunks|
    && (forall i :: 0 <= i < n ==> PieceIs(w, r, id, chunks, pieces[i], i))
    && (forall i, j :: 0 <= i < j < n ==> IdOf(pieces[i].fragment) != IdOf(pieces[j].fragment))
  }

  ghost predicate PieceIs(w: Waiter, r: B.Request, id: string, chunks: seq<string>, x: Item, i: nat) {
    && i < |chunks|
    && x.fragment.messageId.Some? && IsMessageId(IdOf(x.fragment)) && IdOf(x.fragment) !in TakenMessages(w, r.peer)
    && x == NewItem(r, id, chunks, i, IdOf(x.fragment), w.order + i)
  }

  ghost predicate PushedOk(w: Waiter, r: B.Request, id: string, chunks: seq<string>, n: nat, t: Waiter) {
    && |w.queue| <= |t.queue| && t.queue[..|w.queue|] == w.queue
    && FreshPieces(w, r, id, chunks, t.queue[|w.queue|..], n)
    && t.pending == w.pending && t.acked == w.acked && t.order == w.order + n
  }

  lemma {:induction false} PushAllOk(w: Waiter, cfg: Settings, r: B.Request, id: string, chunks: seq<string>, n: nat)
    requires OnePending(w.pending) && n <= |chunks|
    requires |w.queue| + |chunks| <= cfg.queueCapacity < MESSAGE_IDS
    ensures var p := PushAll(w, r, id, chunks, n);
            p.complete && PushedOk(w, r, id, chunks, n, p.waiter)
  {
    hide OnePending, SearchMessage, TakenMessages, PushedOk, Push;
    if n == 0 {
      NothingPushed(w, r, id, chunks);
    } else {
      PushAllOk(w, cfg, r, id, chunks, n - 1);
      var before := PushAll(w, r, id, chunks, n - 1).waiter;
      PushedCount(w, r, id, chunks, n - 1, before);
      PushOk(w, r, id, chunks, n - 1, before);
    }
  }

  lemma NothingPushed(w: Waiter, r: B.Request, id: string, chunks: seq<string>)
    ensures PushedOk(w, r, id, chunks, 0, w)
  {
  }

  lemma PushedCount(w: Waiter, r: B.Request, id: string, chunks: seq<string>, n: nat, t: Waiter)
    requires PushedOk(w, r, id, chunks, n, t)
    ensures |t.queue| == |w.queue| + n && t.pending == w.pending
  {
    hide FreshPieces;
    assert FreshPieces(w, r, id, chunks, t.queue[|w.queue|..], n) ==> |t.queue[|w.queue|..]| == n by {
      PieceCount(w, r, id, chunks, t.queue[|w.queue|..], n);
    }
  }

  lemma PieceCount(w: Waiter, r: B.Request, id: string, chunks: seq<string>, pieces: seq<Item>, n: nat)
    ensures FreshPieces(w, r, id, chunks, pieces, n) ==> |pieces| == n
  {
    hide PieceIs;
  }

  lemma PushOk(w: Waiter, r: B.Request, id: string, chunks: seq<string>, n: nat, before: Waiter)
    requires PushedOk(w, r, id, chunks, n, before) && n < |chunks| && OnePending(before.pending) && |before.queue| + 1 < MESSAGE_IDS
    ensures var t := Push(before, r, id, chunks, n);
            t.Some? && PushedOk(w, r, id, chunks, n + 1, t.value)
  {
    hide SearchMessage, TakenMessages, PieceIs;
    var taken := TakenMessages(before, r.peer);
    TakenSize(before, r.peer);
    MessageFound(taken, Counter(before.nextMessage, r.peer));
    MessageFoundIs(taken, Counter(before.nextMessage, r.peer), MESSAGE_IDS);
    var t := Push(before, r, id, chunks, n).value;
    var x := t.queue[|before.queue|];
    assert t.queue == before.queue + [x];
    assert t.queue[|w.queue|..] == before.queue[|w.queue|..] + [x];
    TakenGrows(w, r, id, chunks, n, before);
    assert PieceIs(w, r, id, chunks, x, n) by {
      PieceFromParts(w, r, id, chunks, x, n);
    }
  }

  lemma PieceFromParts(w: Waiter, r: B.Request, id: string, chunks: seq<string>, x: Item, i: nat)
    requires i < |chunks| && x.fragment.messageId.Some? && IsMessageId(IdOf(x.fragment))
    requires IdOf(x.fragment) !in TakenMessages(w, r.peer) && x == NewItem(r, id, chunks, i, IdOf(x.fragment), w.order + i)
    ensures PieceIs(w, r, id, chunks, x, i)
  {
    hide TakenMessages;
  }

  // Earlier ids, and the ids of the pieces already pushed, are all taken.
  lemma TakenGrows(w: Waiter, r: B.Request, id: string, chunks: seq<string>, n: nat, t: Waiter)
    requires PushedOk(w, r, id, chunks, n, t)
    ensures TakenMessages(w, r.peer) <= TakenMessages(t, r.peer)
    ensures forall i :: |w.queue| <= i < |t.queue| ==> IdOf(t.queue[i].fragment) in TakenMessages(t, r.peer)
  {
    forall x | x in w.queue
      ensures x in t.queue
    {
      assert x in t.queue[..|w.queue|];
    }
    forall i | |w.queue| <= i < |t.queue|
      ensures IdOf(t.queue[i].fragment) in TakenMessages(t, r.peer)
    {
      assert PieceIs(w, r, id, chunks, t.queue[|w.queue|..][i - |w.queue|], i - |w.queue|);
      assert t.queue[i] in t.queue && t.queue[i].peer == r.peer;
    }
  }

  // ------------------------------------------------------ a frame is queued

  lemma PushedLive(w: Waiter, r: B.Request, id: string, chunks: seq<string>, n: nat, t: Waiter)
    requires PushedOk(w, r, id, chunks, n, t)
    ensures forall x :: x in LiveItems(t) <==> x in LiveItems(w) || (exists i: nat :: i < n && PieceAt(w, t, x, i))
  {
    hide FreshPieces;
    PushedCount(w, r, id, chunks, n, t);
    forall x | x in t.queue
      ensures x in w.queue || exists i: nat :: i < n && PieceAt(w, t, x, i)
    {
      var k :| 0 <= k < |t.queue| && t.queue[k] == x;
      if k < |w.queue| {
        assert x == t.queue[..|w.queue|][k];
      } else {
        assert PieceAt(w, t, x, k - |w.queue|);
      }
    }
    forall x | x in w.queue
      ensures x in t.queue
    {
      assert x in t.queue[..|w.queue|];
    }
  }

  ghost predicate PieceAt(w: Waiter, t: Waiter, x: Item, i: nat) {
    |w.queue| + i < |t.queue| && t.queue[|w.queue| + i] == x
  }

  lemma PieceFacts(w: Waiter, r: B.Request, id: string, chunks: seq<string>, n: nat, t: Waiter, x: Item, i: nat)
    requires PushedOk(w, r, id, chunks, n, t) && i < n && PieceAt(w, t, x, i)
    ensures PieceIs(w, r, id, chunks, x, i)
    ensures forall j: nat, y :: j < n && j != i && PieceAt(w, t, y, j) ==> IdOf(y.fragment) != IdOf(x.fragment)
  {
    hide PieceIs;
    var pieces := t.queue[|w.queue|..];
    assert pieces[i] == x;
    forall j: nat, y | j < n && j != i && PieceAt(w, t, y, j)
      ensures IdOf(y.fragment) != IdOf(x.fragment)
    {
      assert pieces[j] == y;
    }
  }

  // The chunks of a frame that the encoder accepts can all be carried.
  lemma ChunksCarry(cfg: Settings, frame: Bytes)
    requires cfg.Valid() && Cut(cfg, frame).Some?
    ensures var chunks := Cut(cfg, frame).value;
            1 <= |chunks| <= MAX_FRAGMENTS && forall i :: 0 <= i < |chunks| ==> IsQ1Data(chunks[i])
  {
    var text := cfg.encodeText(frame).value;
    assert UrlSafe(text);
    var chunks := TextChunks(text);
    forall i | 0 <= i < |chunks|
      ensures IsQ1Data(chunks[i])
    {
      forall k | 0 <= k < |chunks[i]|
        ensures IsUrlSafe(chunks[i][k])
      {
        assert chunks[i][k] == text[48 * i + k];
      }
    }
  }

  // What a queued request looks like when the transaction id is free.
  ghost predicate Queueable(w: Waiter, r: B.Request, id: string, chunks: seq<string>) {
    && |id| == 3 && IsBase36(id) && !TransactionTaken(w, r.peer, id)
    && 1 <= |chunks| <= MAX_FRAGMENTS && (forall i :: 0 <= i < |chunks| ==> IsQ1Data(chunks[i]))
    && (r.batch.Some? ==> r.batch.value.peer == r.peer)
  }

  lemma PieceIsGood(w: Waiter, r: B.Request, id: string, chunks: seq<string>, x: Item, i: nat)
    requires Queueable(w, r, id, chunks) && PieceIs(w, r, id, chunks, x, i)
    ensures GoodItem(x) && w.order <= x.order < w.order + |chunks|
    ensures Base(x) == w.order && x.fragment.index == i && x.fragment.total == |chunks|
    ensures x.peer == r.peer && x.fragment.transactionId == id
    ensures x.delivery == r.delivery && x.batch == r.batch && x.supersedable == r.supersedable
  {
    hide TakenMessages, TransactionTaken;
  }

  // A live piece's own packet names its transaction, so a free id is new.
  lemma FreeIdIsNew(w: Waiter, cfg: Settings, peer: string, id: string, x: Item)
    requires Inv(w, cfg) && !TransactionTaken(w, peer, id) && x in LiveItems(w) && x.peer == peer
    ensures x.fragment.transactionId != id
  {
    hide NothingLost, MessagesUnique, FramesUnique, InOrder, OnePending, Apart, ValidQ1;
    if x !in w.queue {
      var p :| p in w.pending && p.item == x;
      PendingIsLive(w, p);
      Q1RoundTrip(x.fragment);
      ParsedIdIs(x.fragment);
    }
  }

  lemma ParsedIdIs(f: Fragment)
    requires ValidQ1(f) && Body(f).Ok? && ParseFragment(Body(f).value) == Ok(f)
    ensures HasId(f, f.transactionId)
  {
    hide ParseFragment, Body, ValidQ1;
  }

  lemma OldIdTaken(w: Waiter, peer: string, x: Item)
    requires x in LiveItems(w) && x.peer == peer && x.fragment.messageId.Some?
    ensures IdOf(x.fragment) in TakenMessages(w, peer)
  {
  }

  lemma QueuedUnique(w: Waiter, cfg: Settings, r: B.Request, id: string, chunks: seq<string>, t: Waiter)
    requires Inv(w, cfg) && Queueable(w, r, id, chunks) && PushedOk(w, r, id, chunks, |chunks|, t)
    ensures MessagesUnique(t)
  {
    hide NothingLost, FramesUnique, InOrder, OnePending, Apart, ValidQ1, LiveItems, Queueable, PushedOk;
    hide PieceIs, PieceAt;
    PushedLive(w, r, id, chunks, |chunks|, t);
    forall x, y | x in LiveItems(t) && y in LiveItems(t) && x.peer == y.peer && IdOf(x.fragment) == IdOf(y.fragment)
      ensures x == y
    {
      if x !in LiveItems(w) {
        NewIdDiffers(w, cfg, r, id, chunks, t, x, y);
      } else if y !in LiveItems(w) {
        NewIdDiffers(w, cfg, r, id, chunks, t, y, x);
      }
    }
  }

  lemma NewIdDiffers(w: Waiter, cfg: Settings, r: B.Request, id: string, chunks: seq<string>, t: Waiter, x: Item, y: Item)
    requires Inv(w, cfg) && Queueable(w, r, id, chunks) && PushedOk(w, r, id, chunks, |chunks|, t)
    requires x !in LiveItems(w) && x in LiveItems(t) && y in LiveItems(t) && x.peer == y.peer
    requires IdOf(x.fragment) == IdOf(y.fragment)
    ensures x == y
  {
    hide NothingLost, FramesUnique, MessagesUnique, InOrder, OnePending, Apart, ValidQ1, LiveItems, Queueable;
    hide PushedOk, TakenMessages;
    PushedLive(w, r, id, chunks, |chunks|, t);
    var i: nat :| i < |chunks| && PieceAt(w, t, x, i);
    PieceFacts(w, r, id, chunks, |chunks|, t, x, i);
    PieceIsGood(w, r, id, chunks, x, i);
    if y in LiveItems(w) {
      OldIdTaken(w, r.peer, y);
    } else {
      var j: nat :| j < |chunks| && PieceAt(w, t, y, j);
    }
  }

  lemma QueuedFrames(w: Waiter, cfg: Settings, r: B.Request, id: string, chunks: seq<string>, t: Waiter)
    requires Inv(w, cfg) && Queueable(w, r, id, chunks) && PushedOk(w, r, id, chunks, |chunks|, t)
    ensures FramesUnique(t)
  {
    hide NothingLost, MessagesUnique, InOrder, OnePending, Apart, GoodItem, LiveItems, Queueable, PushedOk;
    hide PieceIs, PieceAt;
    PushedLive(w, r, id, chunks, |chunks|, t);
    forall x, y | x in LiveItems(t) && y in LiveItems(t) && SameFrame(x, y)
      ensures Alike(x, y)
    {
      NewPiece(w, r, id, chunks, t, x);
      NewPiece(w, r, id, chunks, t, y);
      if x in LiveItems(w) && x.peer == r.peer {
        FreeId(w, cfg, r, id, chunks, x);
      }
      if y in LiveItems(w) && y.peer == r.peer {
        FreeId(w, cfg, r, id, chunks, y);
      }
    }
  }

  lemma FreeId(w: Waiter, cfg: Settings, r: B.Request, id: string, chunks: seq<string>, x: Item)
    requires Inv(w, cfg) && Queueable(w, r, id, chunks) && x in LiveItems(w) && x.peer == r.peer
    ensures x.fragment.transactionId != id
  {
    hide Inv, TransactionTaken, LiveItems;
    FreeIdIsNew(w, cfg, r.peer, id, x);
  }

  lemma NewPiece(w: Waiter, r: B.Request, id: string, chunks: seq<string>, t: Waiter, x: Item)
    requires Queueable(w, r, id, chunks) && PushedOk(w, r, id, chunks, |chunks|, t) && x in LiveItems(t)
    ensures x in LiveItems(w) || (
              && GoodItem(x) && w.order <= x.order < w.order + |chunks|
              && Base(x) == w.order && x.fragment.total == |chunks| && x.peer == r.peer && x.fragment.transactionId == id
              && x.delivery == r.delivery && x.batch == r.batch && x.supersedable == r.supersedable)
  {
    hide LiveItems, Queueable, PushedOk, PieceIs, PieceAt, GoodItem;
    PushedLive(w, r, id, chunks, |chunks|, t);
    if x !in LiveItems(w) {
      var i: nat :| i < |chunks| && PieceAt(w, t, x, i);
      PieceFacts(w, r, id, chunks, |chunks|, t, x, i);
      PieceIsGood(w, r, id, chunks, x, i);
    }
  }

  lemma QueuedLosesNothing(w: Waiter, cfg: Settings, r: B.Request, id: string, chunks: seq<string>, t: Waiter)
    requires Inv(w, cfg) && Queueable(w, r, id, chunks) && PushedOk(w, r, id, chunks, |chunks|, t)
    ensures NothingLost(t)
  {
    hide FramesUnique, MessagesUnique, InOrder, OnePending, Apart, GoodItem, LiveItems, Queueable, PieceIs, FreshPieces;
    PushedLive(w, r, id, chunks, |chunks|, t);
    PushedCount(w, r, id, chunks, |chunks|, t);
    forall x, i | x in LiveItems(t) && 0 <= i < x.fragment.total
      ensures Handled(t, x, i)
    {
      if x in LiveItems(w) {
        assert Handled(w, x, i);
      } else {
        NewPiece(w, r, id, chunks, t, x);
        var y := t.queue[|w.queue| + i];
        assert PieceAt(w, t, y, i);
        PieceFacts(w, r, id, chunks, |chunks|, t, y, i);
        PieceIsGood(w, r, id, chunks, y, i);
      }
    }
  }

  lemma QueuedInOrder(w: Waiter, cfg: Settings, r: B.Request, id: string, chunks: seq<string>, t: Waiter)
    requires Inv(w, cfg) && Queueable(w, r, id, chunks) && PushedOk(w, r, id, chunks, |chunks|, t)
    ensures InOrder(t.queue) && Apart(t)
  {
    hide FramesUnique, MessagesUnique, NothingLost, GoodItem, Queueable, PieceIs, FreshPieces;
    PushedCount(w, r, id, chunks, |chunks|, t);
    forall i | |w.queue| <= i < |t.queue|
      ensures t.queue[i].order == w.order + (i - |w.queue|)
    {
      assert PieceAt(w, t, t.queue[i], i - |w.queue|);
      PieceFacts(w, r, id, chunks, |chunks|, t, t.queue[i], i - |w.queue|);
      PieceIsGood(w, r, id, chunks, t.queue[i], i - |w.queue|);
    }
    forall i | 0 <= i < |w.queue|
      ensures t.queue[i] == w.queue[i] && t.queue[i] in LiveItems(w)
    {
      assert t.queue[..|w.queue|][i] == w.queue[i];
    }
    forall p | p in w.pending
      ensures p.item.order < w.order
    {
      PendingIsLive(w, p);
    }
    forall x, p | x in t.queue && p in t.pending
      ensures x.order != p.item.order
    {
      var k :| 0 <= k < |t.queue| && t.queue[k] == x;
    }
  }

  lemma FrameQueuedKeepsInv(w: Waiter, cfg: Settings, r: B.Request, id: string, chunks: seq<string>, t: Waiter)
    requires Inv(w, cfg) && Queueable(w, r, id, chunks) && PushedOk(w, r, id, chunks, |chunks|, t)
    requires |w.queue| + |chunks| <= cfg.queueCapacity
    ensures Inv(t, cfg)
  {
    hide FramesUnique, MessagesUnique, NothingLost, GoodItem, Queueable, InOrder, Apart, OnePending;
    hide LiveItems, FreshPieces;
    QueuedUnique(w, cfg, r, id, chunks, t);
    QueuedFrames(w, cfg, r, id, chunks, t);
    QueuedLosesNothing(w, cfg, r, id, chunks, t);
    QueuedInOrder(w, cfg, r, id, chunks, t);
    PushedCount(w, r, id, chunks, |chunks|, t);
    forall x | x in LiveItems(t)
      ensures GoodItem(x) && x.order < t.order
    {
      NewPiece(w, r, id, chunks, t, x);
    }
  }

  lemma {:induction false} SearchIdIs(w: Waiter, peer: string, space: nat, next: nat, tries: nat)
    requires 0 < space <= 46656
    ensures var r := SearchId(w, peer, space, next, tries).id;
            r.Some? ==> |r.value| == 3 && IsBase36(r.value) && !TransactionTaken(w, peer, r.value)
    decreases tries
  {
    hide Digits, TransactionTaken;
    if tries > 0 {
      SearchIdIs(w, peer, space, next % space + 1, tries - 1);
    }
  }

  // How many steps up, turning over at `space`, lead from one value to another.
  function Steps(start: nat, v: nat, space: nat): int {
    if v >= start then v - start else v + space - start
  }

  lemma NextResidue(m: nat, space: nat)
    requires m < space
    ensures (m + 1) % space == if m + 1 == space then 0 else m + 1
  {
    if m + 1 == space {
      Residue(m + 1, space, 1, 0);
    } else {
      Residue(m + 1, space, 0, m + 1);
    }
  }

  lemma Residue(x: int, space: nat, q: int, r: nat)
    requires 0 < space && x == space * q + r && r < space
    ensures x % space == r
  {
    var p := x / space;
    assert space * (q - p) == x % space - r;
    if q > p {
      AtLeast(space, q - p);
    } else if q < p {
      AtLeast(space, p - q);
    }
  }

  lemma AtLeast(a: nat, k: int)
    requires k >= 1
    ensures a * k >= a
  {
  }

  // A search that finds nothing has come past every value.
  lemma {:induction false} SearchIdFails(w: Waiter, peer: string, space: nat, next: nat, tries: nat, v: nat)
    requires 0 < space && SearchId(w, peer, space, next, tries).id.None? && v < space
    requires Steps(next % space, v, space) < tries
    ensures TransactionTaken(w, peer, Digits(v, 3))
    decreases tries
  {
    hide Digits, TransactionTaken;
    var m := next % space;
    if m != v {
      NextResidue(m, space);
      SearchIdFails(w, peer, space, m + 1, tries - 1, v);
    }
  }

  ghost predicate IdFree(w: Waiter, peer: string, space: nat) {
    exists v: nat :: v < space && !TransactionTaken(w, peer, Digits(v, 3))
  }

  // The cyclic search finds a transaction id if and only if one is free.
  lemma SearchIdIsComplete(w: Waiter, peer: string, space: nat, next: nat)
    requires 0 < space <= 46656
    ensures SearchId(w, peer, space, next, space).id.Some? <==> IdFree(w, peer, space)
  {
    hide Digits, TransactionTaken, SearchId;
    if SearchId(w, peer, space, next, space).id.None? {
      forall v: nat | v < space
        ensures TransactionTaken(w, peer, Digits(v, 3))
      {
        SearchIdFails(w, peer, space, next, space, v);
      }
    } else {
      SearchIdLands(w, peer, space, next, space);
    }
  }

  lemma {:induction false} SearchIdLands(w: Waiter, peer: string, space: nat, next: nat, tries: nat)
    requires 0 < space && SearchId(w, peer, space, next, tries).id.Some?
    ensures IdFree(w, peer, space)
    decreases tries
  {
    hide Digits, TransactionTaken;
    if !TransactionTaken(w, peer, Digits(next % space, 3)) {
      assert next % space < space;
    } else {
      SearchIdLands(w, peer, space, next % space + 1, tries - 1);
    }
  }

  // Queuing keeps the invariant. With the capacity below the message-id space
  // it is all or nothing: it succeeds exactly when the peer is valid, a
  // transaction id is free and the frame can be cut into pieces that fit; then
  // every piece is queued, in order, under one free id and each with a message
  // id of its own; and otherwise nothing is.
  lemma QueueFrameKeepsInv(w: Waiter, cfg: Settings, r: B.Request)
    requires Inv(w, cfg) && cfg.Valid() && cfg.queueCapacity < MESSAGE_IDS && (r.batch.Some? ==> r.batch.value.peer == r.peer)
    ensures var q := QueueFrame(w, cfg, r);
            && Inv(q.waiter, cfg)
            && (q.result.Ok? <==> B.ValidPeer(r.peer) && IdFree(w, r.peer, cfg.transactionSpace) && Fitting(w, cfg, r.frame))
            && (q.result.Ok? ==>
                  && !TransactionTaken(w, r.peer, q.result.value)
                  && PushedOk(w, r, q.result.value, Cut(cfg, r.frame).value, |Cut(cfg, r.frame).value|, q.waiter))
            && (q.result.Err? ==> q.waiter.queue == w.queue && q.waiter.pending == w.pending)
  {
    hide Inv, SearchId, TransactionTaken, Cut, PushAll, PushedOk, B.ValidPeer, Settings.Valid, IdFree;
    SearchSpace(cfg);
    SearchIdIs(w, r.peer, cfg.transactionSpace, Counter(w.nextId, r.peer), cfg.transactionSpace);
    SearchIdIsComplete(w, r.peer, cfg.transactionSpace, Counter(w.nextId, r.peer));
    var found := SearchId(w, r.peer, cfg.transactionSpace, Counter(w.nextId, r.peer), cfg.transactionSpace);
    var counted := w.(nextId := w.nextId[r.peer := found.next]);
    SameLiveInv(w, cfg, counted);
    if found.id.Some? && Cut(cfg, r.frame).Some? {
      var chunks := Cut(cfg, r.frame).value;
      ChunksCarry(cfg, r.frame);
      SameTransactions(w, counted, r.peer, found.id.value);
      if |w.queue| + |chunks| <= cfg.queueCapacity {
        InvPending(counted, cfg);
        PushAllOk(counted, cfg, r, found.id.value, chunks, |chunks|);
        var pushed := PushAll(counted, r, found.id.value, chunks, |chunks|).waiter;
        FrameQueuedKeepsInv(counted, cfg, r, found.id.value, chunks, pushed);
        SamePushed(w, counted, r, found.id.value, chunks, pushed);
      }
    }
  }

  // The frame can be cut, and its pieces fit the queue.
  predicate Fitting(w: Waiter, cfg: Settings, frame: Bytes) {
    Cut(cfg, frame).Some? && |w.queue| + |Cut(cfg, frame).value| <= cfg.queueCapacity
  }

  lemma SamePushed(w: Waiter, counted: Waiter, r: B.Request, id: string, chunks: seq<string>, t: Waiter)
    requires counted == w.(nextId := counted.nextId) && PushedOk(counted, r, id, chunks, |chunks|, t)
    ensures PushedOk(w, r, id, chunks, |chunks|, t)
  {
    hide NewItem, IsMessageId;
    forall i | 0 <= i < |chunks|
      ensures PieceIs(w, r, id, chunks, t.queue[|w.queue|..][i], i)
    {
      assert PieceIs(counted, r, id, chunks, t.queue[|w.queue|..][i], i);
    }
  }

  lemma SearchSpace(cfg: Settings)
    requires cfg.Valid()
    ensures 0 < cfg.transactionSpace <= 46656
  {
  }

  lemma InvPending(w: Waiter, cfg: Settings)
    requires Inv(w, cfg)
    ensures OnePending(w.pending)
  {
  }

  lemma SameTransactions(w: Waiter, t: Waiter, peer: string, id: string)
    requires t.queue == w.queue && t.pending == w.pending
    ensures TransactionTaken(w, peer, id) <==> TransactionTaken(t, peer, id)
  {
    hide HasId;
  }

  // --------------------------------------------------------------------- runs

  datatype Event =
    | Enqueue(request: B.Request)
    | Acked(peer: string, id: string)
    | NewBatch(peer: string, batch: Key)
    | Cursor(peer: string, callsign: Bytes, since: int)
    | PollAt(now: nat)
    | LinkLost

  function Step(w: Waiter, cfg: Settings, e: Event): Waiter
    requires cfg.transactionSpace > 0
  {
    match e
    case Enqueue(request) => QueueFrame(w, cfg, request).waiter
    case Acked(peer, id) =>
      (match FindPending(w.pending, peer, id)
       case None => w
       case Some(p) => Acknowledge(w, p))
    case NewBatch(peer, batch) => SupersedeStale(w, peer, batch)
    case Cursor(peer, callsign, since) => Reconcile(w, peer, callsign, since)
    case PollAt(now) => PollWaiter(w, cfg, now).waiter
    case LinkLost => w.(queue := [], pending := [], calls := w.calls + [Report(true, Deliveries(w))])
  }

  // Requests as the adapter itself makes them.
  predicate ValidEvent(e: Event) {
    e.Enqueue? && e.request.batch.Some? ==> e.request.batch.value.peer == e.request.peer
  }

  ghost predicate Fits(cfg: Settings) {
    cfg.Valid() && cfg.queueCapacity < MESSAGE_IDS
  }

  lemma StepKeepsInv(w: Waiter, cfg: Settings, e: Event)
    requires Inv(w, cfg) && Fits(cfg) && ValidEvent(e)
    ensures Inv(Step(w, cfg, e), cfg)
  {
    hide Inv, QueueFrame, Acknowledge, SupersedeStale, Reconcile, PollWaiter, LiveItems;
    match e
    case Enqueue(request) => QueueFrameKeepsInv(w, cfg, request);
    case Acked(peer, id) =>
      var p := FindPending(w.pending, peer, id);
      if p.Some? {
        AckKeepsInv(w, cfg, p.value);
      }
    case NewBatch(peer, batch) => SupersedeKeepsInv(w, cfg, peer, batch);
    case Cursor(peer, callsign, since) => CursorIsHonoured(w, cfg, peer, callsign, since);
    case PollAt(now) => PollKeepsInv(w, cfg, now);
    case LinkLost => LostKeepsInv(w, cfg);
  }

  lemma LostKeepsInv(w: Waiter, cfg: Settings)
    requires cfg.transactionSpace > 0
    ensures Inv(Step(w, cfg, LinkLost), cfg)
  {
    hide QueueFrame, Acknowledge, SupersedeStale, Reconcile, PollWaiter, Deliveries;
    assert LiveItems(Step(w, cfg, LinkLost)) == {};
  }

  function After(cfg: Settings, events: seq<Event>, n: nat): Waiter
    requires cfg.transactionSpace > 0 && n <= |events|
  {
    if n == 0 then IDLE else Step(After(cfg, events, n - 1), cfg, events[n - 1])
  }

  // In every reachable state: one packet per peer awaits an acknowledgement,
  // message ids are unique per peer, a (peer, transaction id) names one frame,
  // and of a frame with anything live every piece is live or acknowledged.
  lemma {:induction false} RunKeepsInv(cfg: Settings, events: seq<Event>, n: nat)
    requires Fits(cfg) && n <= |events| && forall i :: 0 <= i < |events| ==> ValidEvent(events[i])
    ensures Inv(After(cfg, events, n), cfg)
  {
    hide Inv, Step;
    if n == 0 {
      IdleInv(cfg);
    } else {
      RunKeepsInv(cfg, events, n - 1);
      StepKeepsInv(After(cfg, events, n - 1), cfg, events[n - 1]);
    }
  }
}
