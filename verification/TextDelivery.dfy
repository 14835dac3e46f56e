// A frame of the stop-and-wait adapter from its queue to the other side: the
// text that spells it, cut into pieces, put into packets, and joined again.
module TextDelivery {
  import opened Prelude
  import opened Base36
  import opened Ordered
  import opened Carriage
  import opened StopAndWait
  import SR = StopAndWaitRuns
  import SP = StopAndWaitProofs
  import B = Burst
  import R = Reassembly
  import RRP = ReassemblyProofs

  lemma {:induction false} TextPrefix(text: string, n: nat)
    requires n <= |TextChunks(text)|
    ensures RRP.Spelling(TextChunks(text)[..n]) == text[..Min(48 * n, |text|)]
  {
    if n == 0 {
    } else {
      var chunks := TextChunks(text);
      TextPrefix(text, n - 1);
      assert chunks[..n][..n - 1] == chunks[..n - 1];
      assert text[..Min(48 * n, |text|)] == text[..48 * (n - 1)] + chunks[n - 1];
    }
  }

  // The pieces a text is cut into spell it again.
  lemma TextJoins(text: string)
    ensures RRP.Spelling(TextChunks(text)) == text
  {
    TextPrefix(text, |TextChunks(text)|);
    assert TextChunks(text)[..|TextChunks(text)|] == TextChunks(text);
  }

  // Each queued piece of a frame goes out in a packet that reads back as it,
  // and as a piece of the text.
  lemma PieceArrives(w: Waiter, cfg: Settings, r: B.Request, id: string, x: Item, i: nat)
    requires cfg.Valid() && |id| == 3 && IsBase36(id) && Cut(cfg, r.frame).Some?
    requires SR.PieceIs(w, r, id, Cut(cfg, r.frame).value, x, i)
    ensures PacketOf(x).destination == r.peer
    ensures ParseFragment(PacketOf(x).body) == Ok(x.fragment)
    ensures x.fragment.transactionId == id && x.fragment.index == i
    ensures RRP.IsPiece(x.fragment, RRP.Spelled(Cut(cfg, r.frame).value))
  {
    hide Cut, ParseFragment, Body, TakenMessages, Settings.Valid;
    SR.ChunksCarry(cfg, r.frame);
    Q1RoundTrip(x.fragment);
  }

  // A fragment read from a packet of the frame just queued.
  ghost predicate ReadFrom(before: Waiter, after: Waiter, f: Fragment) {
    && |before.queue| <= |after.queue|
    && exists x :: x in after.queue[|before.queue|..] && ParseFragment(PacketOf(x).body) == Ok(f)
  }

  // The fragments that arrive for k are read from the packets of that frame.
  ghost predicate AllRead(before: Waiter, after: Waiter, events: seq<RRP.Arrival>, k: R.Key) {
    forall n :: 0 <= n < |events| && events[n].Key() == k ==> ReadFrom(before, after, events[n].fragment)
  }

  lemma ReadIsPiece(w: Waiter, cfg: Settings, r: B.Request, id: string, t: Waiter, f: Fragment)
    requires cfg.Valid() && |id| == 3 && IsBase36(id) && Cut(cfg, r.frame).Some?
    requires SR.PushedOk(w, r, id, Cut(cfg, r.frame).value, |Cut(cfg, r.frame).value|, t) && ReadFrom(w, t, f)
    ensures RRP.IsPiece(f, RRP.Spelled(Cut(cfg, r.frame).value))
  {
    hide Cut, ParseFragment, PacketOf, SR.PieceIs, RRP.IsPiece, Settings.Valid;
    var pieces := t.queue[|w.queue|..];
    var x :| x in pieces && ParseFragment(PacketOf(x).body) == Ok(f);
    var i :| 0 <= i < |pieces| && pieces[i] == x;
    PieceArrives(w, cfg, r, id, x, i);
  }

  lemma QueuedId(w: Waiter, cfg: Settings, r: B.Request)
    requires cfg.Valid() && QueueFrame(w, cfg, r).result.Ok?
    ensures |QueueFrame(w, cfg, r).result.value| == 3 && IsBase36(QueueFrame(w, cfg, r).result.value)
  {
    hide SearchId, TransactionTaken, Cut, PushAll, B.ValidPeer, Digits;
    SR.SearchSpace(cfg);
    SR.SearchIdIs(w, r.peer, cfg.transactionSpace, Counter(w.nextId, r.peer), cfg.transactionSpace);
  }

  lemma SpelledFrame(cfg: Settings, frame: Bytes, b: R.Bounds)
    requires Cut(cfg, frame).Some? && b.decodeText(cfg.encodeText(frame).value) == Some(frame)
    ensures RRP.Spelled(Cut(cfg, frame).value).Whole(b) == R.Complete(frame)
  {
    TextJoins(cfg.encodeText(frame).value);
  }

  // What one adapter queues and another reassembles: the packets in any order,
  // repeated and among other traffic give nothing until the last missing piece
  // and then the frame itself, for any decoder that inverts the encoder on it.
  lemma FrameArrives(w: Waiter, cfg: Settings, r: B.Request, b: R.Bounds, events: seq<RRP.Arrival>, start: int, k: R.Key)
    requires SP.Inv(w, cfg) && SR.Fits(cfg) && (r.batch.Some? ==> r.batch.value.peer == r.peer)
    requires QueueFrame(w, cfg, r).result.Ok? && Cut(cfg, r.frame).Some?
    requires b.Valid() && RRP.Quiet(b, events, start) && b.decodeText(cfg.encodeText(r.frame).value) == Some(r.frame)
    requires AllRead(w, QueueFrame(w, cfg, r).waiter, events, k)
    requires RRP.LastCompletes(events, k, RRP.Spelled(Cut(cfg, r.frame).value))
    ensures var results := RRP.Run(Empty(), b, events).results;
            && results[|events| - 1] == R.Complete(r.frame)
            && RRP.AllWaiting(events[..|events| - 1], k, results[..|events| - 1])
  {
    hide SP.Inv, QueueFrame, Cut, ReadFrom, RRP.Run, RRP.Quiet, RRP.LastCompletes, RRP.IsPiece, RRP.AllWaiting;
    hide SR.PushedOk, SR.IdFree, B.ValidPeer, Settings.Valid, R.Bounds.Valid, R.Add, SR.Fitting;
    hide RRP.Goods.Whole, TransactionTaken;
    SR.QueueFrameKeepsInv(w, cfg, r);
    QueuedId(w, cfg, r);
    SR.SearchSpace(cfg);
    var q := QueueFrame(w, cfg, r);
    var goods := RRP.Spelled(Cut(cfg, r.frame).value);
    forall n | 0 <= n < |events| && events[n].Key() == k
      ensures RRP.IsPiece(events[n].fragment, goods)
    {
      ReadIsPiece(w, cfg, r, q.result.value, q.waiter, events[n].fragment);
    }
    SpelledFrame(cfg, r.frame, b);
    RRP.QuietlyWhole(b, events, start, k, goods);
  }
}
