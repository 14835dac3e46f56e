// What the stop-and-wait adapter queues for a frame, and for each response to
// an executed request.
module StopAndWaitQueuing {
  import opened Prelude
  import opened Base36
  import opened Carriage
  import opened StopAndWait
  import opened StopAndWaitProofs
  import opened StopAndWaitRuns
  import B = Burst
  import RRP = ReassemblyProofs
  import TD = TextDelivery

  const LONGEST_TEXT: nat := 768

  // How many packets a text takes.
  function Packets(text: string): nat {
    (|text| + 47) / 48
  }

  // A frame is cut up if and only if its text has 1 to 768 characters.
  lemma CutIsExact(cfg: Settings, frame: Bytes)
    ensures var text, cut := cfg.encodeText(frame), Cut(cfg, frame);
            && (cut.Some? <==> text.Some? && 1 <= |text.value| <= LONGEST_TEXT)
            && (cut.Some? ==> |cut.value| == Packets(text.value) && RRP.Spelling(cut.value) == text.value)
  {
    if cfg.encodeText(frame).Some? {
      TD.TextJoins(cfg.encodeText(frame).value);
    }
  }

  // A queued packet that carries piece i of n of the request, and reads back so.
  ghost predicate IsPieceOf(x: Item, r: B.Request, id: string, i: nat, n: nat, order: nat) {
    && x.peer == r.peer && x.priority == (if r.proactive then 1 else 0) && x.order == order
    && x.delivery == r.delivery && x.batch == r.batch && x.supersedable == r.supersedable
    && x.fragment.transactionId == id && x.fragment.index == i && x.fragment.total == n
    && PacketOf(x).destination == r.peer && ParseFragment(PacketOf(x).body) == Ok(x.fragment)
    && x.fragment.messageId.Some?
  }

  function Texts(pieces: seq<Item>): seq<string> {
    seq(|pieces|, i requires 0 <= i < |pieces| => pieces[i].fragment.data)
  }

  // All of the request, spelled by `text`, in order and each packet under a
  // message id of its own.
  ghost predicate CarriesText(pieces: seq<Item>, r: B.Request, id: string, text: string, order: nat) {
    && |pieces| == Packets(text) && RRP.Spelling(Texts(pieces)) == text
    && (forall i :: 0 <= i < |pieces| ==> IsPieceOf(pieces[i], r, id, i, |pieces|, order + i))
    && (forall i, j :: 0 <= i < j < |pieces| ==> IdOf(pieces[i].fragment) != IdOf(pieces[j].fragment))
  }

  // Neither the transaction id nor any of the message ids was in use there.
  ghost predicate FreshIds(w: Waiter, pieces: seq<Item>, peer: string, id: string) {
    && !TransactionTaken(w, peer, id)
    && forall i :: 0 <= i < |pieces| ==> IdOf(pieces[i].fragment) !in TakenMessages(w, peer)
  }

  // `w` with the pieces queued behind what it had; its id counters moved on.
  ghost predicate Gains(w: Waiter, t: Waiter, pieces: seq<Item>) {
    t == w.(queue := w.queue + pieces, order := w.order + |pieces|, nextId := t.nextId, nextMessage := t.nextMessage)
  }

  lemma {:induction false} PushAllFrame(w: Waiter, r: B.Request, id: string, chunks: seq<string>, n: nat)
    requires n <= |chunks|
    ensures var t := PushAll(w, r, id, chunks, n).waiter;
            t == w.(queue := t.queue, order := t.order, nextMessage := t.nextMessage) && t.order == w.order + |t.queue| - |w.queue|
  {
    hide SearchMessage, TakenMessages;
    if n > 0 {
      PushAllFrame(w, r, id, chunks, n - 1);
    }
  }

  lemma PieceSpelled(w: Waiter, cfg: Settings, r: B.Request, id: string, x: Item, i: nat)
    requires cfg.Valid() && |id| == 3 && IsBase36(id) && Cut(cfg, r.frame).Some?
    requires PieceIs(w, r, id, Cut(cfg, r.frame).value, x, i)
    ensures IsPieceOf(x, r, id, i, |Cut(cfg, r.frame).value|, w.order + i)
    ensures x.fragment.data == Cut(cfg, r.frame).value[i] && IdOf(x.fragment) !in TakenMessages(w, r.peer)
  {
    hide Cut, ParseFragment, Body, TakenMessages, Settings.Valid, B.FragmentText;
    TD.PieceArrives(w, cfg, r, id, x, i);
  }

  lemma PiecesCarry(w: Waiter, cfg: Settings, r: B.Request, id: string, t: Waiter)
    requires cfg.Valid() && |id| == 3 && IsBase36(id) && Cut(cfg, r.frame).Some?
    requires PushedOk(w, r, id, Cut(cfg, r.frame).value, |Cut(cfg, r.frame).value|, t)
    ensures var pieces := t.queue[|w.queue|..];
            && CarriesText(pieces, r, id, cfg.encodeText(r.frame).value, w.order)
            && (forall i :: 0 <= i < |pieces| ==> IdOf(pieces[i].fragment) !in TakenMessages(w, r.peer))
            && t.queue == w.queue + pieces
  {
    hide Cut, PieceIs, TakenMessages, Settings.Valid, IsPieceOf, Packets, IdOf;
    CutIsExact(cfg, r.frame);
    var chunks, pieces := Cut(cfg, r.frame).value, t.queue[|w.queue|..];
    forall i | 0 <= i < |pieces|
      ensures IsPieceOf(pieces[i], r, id, i, |chunks|, w.order + i) && pieces[i].fragment.data == chunks[i]
      ensures IdOf(pieces[i].fragment) !in TakenMessages(w, r.peer)
    {
      PieceSpelled(w, cfg, r, id, pieces[i], i);
    }
    assert Texts(pieces) == chunks;
  }

  // There is a transaction id for the frame, it has a text, and the pieces fit.
  ghost predicate Accepts(w: Waiter, cfg: Settings, peer: string, frame: Bytes) {
    var text := cfg.encodeText(frame);
    && IdFree(w, peer, cfg.transactionSpace) && text.Some? && 1 <= |text.value| <= LONGEST_TEXT
    && |w.queue| + Packets(text.value) <= cfg.queueCapacity
  }

  lemma AcceptsIs(w: Waiter, cfg: Settings, peer: string, frame: Bytes)
    ensures Accepts(w, cfg, peer, frame) <==> IdFree(w, peer, cfg.transactionSpace) && Fitting(w, cfg, frame)
  {
    hide IdFree, Cut, Packets;
    CutIsExact(cfg, frame);
  }

  // Queuing a frame, completely: the packets that spell it join the queue if
  // and only if it is accepted, and nothing else changes but the id counters.
  lemma QueueFrameIsExact(w: Waiter, cfg: Settings, r: B.Request) returns (pieces: seq<Item>)
    requires Inv(w, cfg) && Fits(cfg) && cfg.transactionSpace > 0 && (r.batch.Some? ==> r.batch.value.peer == r.peer)
    ensures var q := QueueFrame(w, cfg, r);
            && Gains(w, q.waiter, pieces)
            && (q.result.Ok? <==> B.ValidPeer(r.peer) && Accepts(w, cfg, r.peer, r.frame))
            && (q.result.Ok? ==>
                  && CarriesText(pieces, r, q.result.value, cfg.encodeText(r.frame).value, w.order)
                  && FreshIds(w, pieces, r.peer, q.result.value))
            && (q.result.Err? ==> pieces == [])
  {
    hide Inv, QueueFrame, Accepts, B.ValidPeer, CarriesText, TakenMessages, TransactionTaken, PushedOk, Cut, IdFree, Fitting;
    hide Settings.Valid;
    QueueFrameKeepsInv(w, cfg, r);
    AcceptsIs(w, cfg, r.peer, r.frame);
    QueueFrameFrame(w, cfg, r);
    var q := QueueFrame(w, cfg, r);
    pieces := [];
    if q.result.Ok? {
      FittingCut(w, cfg, r.frame);
      TD.QueuedId(w, cfg, r);
      PushedCount(w, r, q.result.value, Cut(cfg, r.frame).value, |Cut(cfg, r.frame).value|, q.waiter);
      PushedFields(w, r, q.result.value, Cut(cfg, r.frame).value, |Cut(cfg, r.frame).value|, q.waiter);
      PiecesCarry(w, cfg, r, q.result.value, q.waiter);
      pieces := q.waiter.queue[|w.queue|..];
    } else {
      assert w.queue + pieces == w.queue;
    }
  }

  lemma FittingCut(w: Waiter, cfg: Settings, frame: Bytes)
    requires Fitting(w, cfg, frame)
    ensures Cut(cfg, frame).Some?
  {
  }

  lemma PushedFields(w: Waiter, r: B.Request, id: string, chunks: seq<string>, n: nat, t: Waiter)
    requires PushedOk(w, r, id, chunks, n, t)
    ensures t.order == w.order + n && t.pending == w.pending
  {
    hide FreshPieces;
  }

  lemma QueueFrameFrame(w: Waiter, cfg: Settings, r: B.Request)
    requires cfg.transactionSpace > 0
    ensures var t := QueueFrame(w, cfg, r).waiter;
            t == w.(queue := t.queue, order := t.order, nextId := t.nextId, nextMessage := t.nextMessage)
            && t.order == w.order + |t.queue| - |w.queue|
  {
    hide B.ValidPeer, SearchId, Cut, PushAll;
    if Cut(cfg, r.frame).Some? {
      var chunks := Cut(cfg, r.frame).value;
      var found := SearchId(w, r.peer, cfg.transactionSpace, Counter(w.nextId, r.peer), cfg.transactionSpace);
      if found.id.Some? {
        PushAllFrame(w.(nextId := w.nextId[r.peer := found.next]), r, found.id.value, chunks, |chunks|);
      }
    }
  }
}
