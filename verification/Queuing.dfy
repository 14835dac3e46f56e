// What a queued burst carries, when a frame is queued at all, and which other
// bursts give way to it.
module Queuing {
  import opened Prelude
  import opened Codec
  import opened Carriage
  import opened Reassembly
  import opened Burst
  import opened BurstProofs
  import opened BurstRuns
  import opened BurstOutcomes

  // ------------------------------------------------------ what a burst carries

  function RawOf(f: Fragment): Bytes {
    if f.rawData.Some? then f.rawData.value else []
  }

  function Joined(fragments: seq<Fragment>): Bytes {
    if fragments == [] then [] else Joined(fragments[..|fragments| - 1]) + RawOf(fragments[|fragments| - 1])
  }

  // Piece i of n, in a packet that reads back as it.
  predicate IsNth(f: Fragment, id: string, i: nat, n: nat) {
    && f.transactionId == id && f.index == i && f.total == n && f.version == 2
    && ParseFragment(FragmentText(f)) == Ok(f)
  }

  // The whole of `frame`, in order, and how many packets that takes.
  ghost predicate Carries(fragments: seq<Fragment>, id: string, frame: Bytes) {
    && |fragments| == Pieces(frame) && Joined(fragments) == frame
    && forall i :: 0 <= i < |fragments| ==> IsNth(fragments[i], id, i, |fragments|)
  }

  function Pieces(frame: Bytes): nat {
    (|frame| + CHUNK_SIZE - 1) / CHUNK_SIZE
  }

  lemma {:induction false} JoinedChunks(fragments: seq<Fragment>, chunks: seq<Bytes>)
    requires |fragments| == |chunks| && forall i :: 0 <= i < |chunks| ==> fragments[i].rawData == Some(chunks[i])
    ensures Joined(fragments) == Concat(chunks)
  {
    if fragments == [] {
    } else {
      JoinedChunks(fragments[..|fragments| - 1], chunks[..|chunks| - 1]);
    }
  }

  // Every frame the decoder accepts can be cut up, and the pieces carry it.
  lemma CutCarries(frame: Bytes, n: byte)
    ensures var cut := FragmentFrame(frame, TransactionText(n));
            && (cut.Ok? <==> DecodeFrameWithFlags(frame).Ok?)
            && (cut.Ok? ==> Carries(cut.value, TransactionText(n), frame))
  {
    hide TransactionText, Fragments;
    if DecodeFrameWithFlags(frame).Ok? {
      CutPieces(frame, n);
    } else {
      RefusedCut(frame, TransactionText(n));
    }
  }

  lemma RefusedCut(frame: Bytes, id: string)
    requires DecodeFrameWithFlags(frame).Err?
    ensures FragmentFrame(frame, id).Err?
  {
    hide TransactionByte, Chunks, Fragments, DecodeFrameWithFlags;
  }

  lemma CutPieces(frame: Bytes, n: byte)
    requires DecodeFrameWithFlags(frame).Ok?
    ensures FragmentFrame(frame, TransactionText(n)).Ok?
    ensures Carries(FragmentFrame(frame, TransactionText(n)).value, TransactionText(n), frame)
  {
    hide TransactionText, FragmentFrame, DecodeFrameWithFlags, ParseFragment, Body;
    FragmentingIsTotal(frame, n);
    ChunksJoin(frame);
    JoinedChunks(FragmentFrame(frame, TransactionText(n)).value, Chunks(frame));
  }

  // ---------------------------------------------------------- transaction ids

  // The id k steps on from a counter.
  function IdAt(next: nat, k: nat): string {
    TransactionText((next + k) % 256)
  }

  ghost predicate FirstFree(next: nat, taken: set<string>, k: nat) {
    IdAt(next, k) !in taken && forall j: nat :: j < k ==> IdAt(next, j) in taken
  }

  // What the search finds is the first id from the counter on that is not
  // taken, and it leaves the counter behind it.
  lemma {:induction false} FirstFreeId(next: nat, taken: set<string>, tries: nat)
    ensures var found := Search(next, taken, tries);
            found.id.Some? ==>
              exists k: nat :: k < tries && FirstFree(next, taken, k) && found == Allocation(Some(IdAt(next, k)), (next + k) % 256 + 1)
    decreases tries
  {
    hide TransactionText, FirstFree;
    if tries > 0 {
      var v: byte := next % 256;
      if TransactionText(v) in taken {
        FirstFreeId(v + 1, taken, tries - 1);
        var later := Search(v + 1, taken, tries - 1);
        if later.id.Some? {
          var k: nat :| k < tries - 1 && FirstFree(v + 1, taken, k)
                        && later == Allocation(Some(IdAt(v + 1, k)), (v + 1 + k) % 256 + 1);
          LaterFree(next, taken, k);
        }
      } else {
        FreeAtOnce(next, taken);
      }
    }
  }

  lemma FreeAtOnce(next: nat, taken: set<string>)
    requires TransactionText(next % 256) !in taken
    ensures FirstFree(next, taken, 0) && IdAt(next, 0) == TransactionText(next % 256)
  {
    hide TransactionText;
  }

  lemma LaterFree(next: nat, taken: set<string>, k: nat)
    requires TransactionText(next % 256) in taken && FirstFree(next % 256 + 1, taken, k)
    ensures FirstFree(next, taken, k + 1) && (next % 256 + 1 + k) % 256 == (next + (k + 1)) % 256
    ensures IdAt(next % 256 + 1, k) == IdAt(next, k + 1)
  {
    hide TransactionText;
    CyclicSum(next, k + 1);
    forall j: nat | j < k + 1
      ensures IdAt(next, j) in taken
    {
      if j > 0 {
        CyclicSum(next, j);
        assert IdAt(next % 256 + 1, j - 1) in taken;
      }
    }
  }

  // No burst live to the peer uses the id.
  ghost predicate Unused(s: Sender, peer: string, id: string) {
    forall b :: Live(s, b) && b.peer == peer ==> b.transactionId != id
  }

  ghost predicate HasFreeId(s: Sender, peer: string) {
    exists v: byte :: Unused(s, peer, TransactionText(v))
  }

  lemma TakenMeansUsed(s: Sender, peer: string, id: string)
    ensures id in TakenIds(s, peer) <==> !Unused(s, peer, id)
  {
    if !Unused(s, peer, id) {
      var b :| Live(s, b) && b.peer == peer && b.transactionId == id;
      assert b in s.active + s.queue;
    }
  }

  lemma SearchFindsFree(s: Sender, peer: string)
    ensures var found := Search(NextId(s, peer), TakenIds(s, peer), 256);
            && (found.id.Some? <==> HasFreeId(s, peer))
            && (found.id.Some? ==> Unused(s, peer, found.id.value) && exists v: byte :: found.id.value == TransactionText(v))
  {
    hide TransactionText, Search, TakenIds, Unused;
    var found := Search(NextId(s, peer), TakenIds(s, peer), 256);
    SearchIsComplete(NextId(s, peer), TakenIds(s, peer));
    forall v: byte
      ensures TransactionText(v) in TakenIds(s, peer) <==> !Unused(s, peer, TransactionText(v))
    {
      TakenMeansUsed(s, peer, TransactionText(v));
    }
    if found.id.Some? {
      FoundIsFree(NextId(s, peer), TakenIds(s, peer));
      TakenMeansUsed(s, peer, found.id.value);
    }
  }

  lemma FoundIsFree(next: nat, taken: set<string>)
    ensures var id := Search(next, taken, 256).id;
            id.Some? ==> id.value !in taken && exists v: byte :: id.value == TransactionText(v)
  {
  }

  // ------------------------------------------------------------- giving way

  // A proactive frame takes a replaceable response to its peer off the air,
  // and with it the rest of that response's batch to that peer.
  ghost predicate GivesWay(s: Sender, r: Request, b: Burst) {
    && r.proactive && b.peer == r.peer && b.batch.Some?
    && exists a :: a in s.active && a.peer == r.peer && a.batch == b.batch && a.supersedable && (b == a || b in s.queue)
  }

  ghost function Yielding(s: Sender, r: Request): iset<Burst> {
    iset b | GivesWay(s, r, b)
  }

  function Cleared(s: Sender, r: Request): Sender {
    if r.proactive then Drop(s, PushedOut(s, r.peer), Superseded) else s
  }

  // `t` is `s` without the bursts in the set, each of which has left for `reason`.
  ghost predicate Without(s: Sender, t: Sender, gone: iset<Burst>, reason: Reason) {
    && (forall b :: b in t.queue <==> b in s.queue && b !in gone)
    && (forall b :: b in t.active <==> b in s.active && b !in gone)
    && InOrder(t.queue) && Solo(t.active)
    && t == s.(queue := t.queue, active := t.active, journal := t.journal)
    && s.journal <= t.journal
    && (forall e :: e in t.journal[|s.journal|..] <==> e.Left? && e.reason == reason && Live(s, e.burst) && e.burst in gone)
  }

  lemma {:induction false} DeparturesAll(bursts: seq<Burst>, dropped: set<nat>, reason: Reason)
    ensures forall e :: e in Departures(bursts, dropped, reason) <==> Farewell(e, bursts, dropped, reason)
  {
    hide Departures;
    if bursts == [] {
      NoDepartures(dropped, reason, 0);
    } else {
      DeparturesStep(bursts, dropped, reason);
      DeparturesAll(bursts[..|bursts| - 1], dropped, reason);
    }
  }

  lemma DropIsExact(s: Sender, p: Policy, dropped: set<nat>, reason: Reason, gone: iset<Burst>)
    requires Inv(s, p) && forall b :: Live(s, b) ==> (b.order in dropped <==> b in gone)
    ensures Without(s, Drop(s, dropped, reason), gone, reason)
  {
    hide Departures, Kept, Load, Flying, Unsent;
    DropKeepsInv(s, p, dropped, reason);
    DeparturesAll(s.active, dropped, reason);
    DeparturesAll(s.queue, dropped, reason);
    var t := Drop(s, dropped, reason);
    assert t.journal[|s.journal|..] == Departures(s.active, dropped, reason) + Departures(s.queue, dropped, reason);
  }

  lemma ClearedIsExact(s: Sender, p: Policy, r: Request)
    requires Inv(s, p)
    ensures Inv(Cleared(s, r), p)
    ensures Without(s, Cleared(s, r), Yielding(s, r), Superseded)
  {
    hide Inv, Drop, PushedOut, Without;
    var gone := Yielding(s, r);
    if r.proactive {
      DropKeepsInv(s, p, PushedOut(s, r.peer), Superseded);
      PushedOutIs(s, p, r);
      DropIsExact(s, p, PushedOut(s, r.peer), Superseded, gone);
    } else {
      NothingGone(s, p, gone);
    }
  }

  lemma NothingGone(s: Sender, p: Policy, gone: iset<Burst>)
    requires Inv(s, p) && gone == iset{}
    ensures Without(s, s, gone, Superseded)
  {
    hide Load, Flying, Unsent;
    assert s.journal[|s.journal|..] == [];
  }

  lemma PushedOutIs(s: Sender, p: Policy, r: Request)
    requires Inv(s, p) && r.proactive
    ensures forall b :: Live(s, b) ==> (b.order in PushedOut(s, r.peer) <==> GivesWay(s, r, b))
  {
    hide Load, Flying, Unsent, InOrder, IdsDistinct;
    LiveBound(s, p);
    var a := ActiveOf(s.active, r.peer);
    forall b | Live(s, b)
      ensures b.order in PushedOut(s, r.peer) <==> GivesWay(s, r, b)
    {
      if b.order in PushedOut(s, r.peer) {
        assert Live(s, a.value);
      }
      if GivesWay(s, r, b) {
        var x :| x in s.active && x.peer == r.peer && x.batch == b.batch && x.supersedable && (b == x || b in s.queue);
        OneActive(s.active, x, a.value);
      }
    }
  }

  lemma OneActive(active: seq<Burst>, a: Burst, b: Burst)
    requires Solo(active) && a in active && b in active && a.peer == b.peer
    ensures a == b
  {
  }

  // ----------------------------------------------------------- queuing a frame

  // There is an id for it, it is a frame, and its pieces fit.
  ghost predicate Accepts(s: Sender, p: Policy, r: Request) {
    && ValidPeer(r.peer) && HasFreeId(s, r.peer) && DecodeFrameWithFlags(r.frame).Ok?
    && Load(s.queue) + Load(s.active) + Pieces(r.frame) <= p.queueCapacity
  }

  // A burst that carries the request under the id, and has not been sent.
  ghost predicate IsFor(b: Burst, r: Request, id: string, order: nat) {
    && b.peer == r.peer && b.transactionId == id && Carries(b.fragments, id, r.frame)
    && b.priority == (if r.proactive then 1 else 0) && b.order == order
    && b.delivery == r.delivery && b.batch == r.batch && b.supersedable == r.supersedable
    && Unsent(b)
  }

  // The request is queued, and nothing else changes but the peer's id counter.
  ghost predicate Joins(s: Sender, t: Sender, r: Request, id: string, b: Burst) {
    && IsFor(b, r, id, s.nextOrder) && Unused(s, r.peer, id)
    && t == s.(queue := s.queue + [b], nextOrder := s.nextOrder + 1, nextId := t.nextId)
  }

  lemma AdmitIsExact(s: Sender, p: Policy, r: Request, v: byte)
    requires Unused(s, r.peer, TransactionText(v)) && ValidPeer(r.peer)
    ensures var q := Admit(s, p, r, TransactionText(v));
            && (q.result.Ok? <==> Accepts(s, p, r))
            && (q.result == Err(Unframeable) <==> DecodeFrameWithFlags(r.frame).Err?)
            && (q.result.Err? ==> q.sender == s && (q.result.error == Unframeable || q.result.error == QueueFull))
            && (q.result.Ok? ==> q.result.value == TransactionText(v) && q.sender.queue != []
                                 && Joins(s, q.sender, r, TransactionText(v), q.sender.queue[|q.sender.queue| - 1]))
  {
    hide TransactionText, FragmentFrame, DecodeFrameWithFlags, Load, ValidPeer, Unused, Carries, Pieces;
    CutCarries(r.frame, v);
    var cut := FragmentFrame(r.frame, TransactionText(v));
    if cut.Ok? {
      FragmentCount(r.frame, TransactionText(v));
      CarriedCount(cut.value, TransactionText(v), r.frame);
    }
  }

  lemma CarriedCount(fragments: seq<Fragment>, id: string, frame: Bytes)
    requires Carries(fragments, id, frame)
    ensures |fragments| == Pieces(frame)
  {
  }

  // Queuing a frame, completely. What gives way to it leaves first, and stays
  // away even when the frame is then refused. It is queued if and only if the
  // peer is valid, some id is free there, it is a frame, and its pieces fit;
  // then exactly one burst joins the queue, which carries all of it under an id
  // no burst to the peer was using, and otherwise nothing does.
  lemma QueueFrameIsExact(s: Sender, p: Policy, r: Request)
    requires Inv(s, p)
    ensures var q := QueueFrame(s, p, r);
            var t := Cleared(s, r);
            && (q.result.Ok? <==> Accepts(t, p, r))
            && (q.result == Err(BadPeer) <==> !ValidPeer(r.peer))
            && (q.result == Err(NoFreeId) <==> ValidPeer(r.peer) && !HasFreeId(t, r.peer))
            && (q.result == Err(Unframeable) <==>
                  ValidPeer(r.peer) && HasFreeId(t, r.peer) && DecodeFrameWithFlags(r.frame).Err?)
            && (q.result == Err(BadPeer) ==> q.sender == s)
            && (q.result.Err? && ValidPeer(r.peer) ==> q.sender == t.(nextId := q.sender.nextId))
            && (q.result.Ok? ==> q.sender.queue != []
                                 && Joins(t, q.sender, r, q.result.value, q.sender.queue[|q.sender.queue| - 1]))
    ensures Without(s, Cleared(s, r), Yielding(s, r), Superseded)
  {
    hide Inv, Admit, Search, TakenIds, ValidPeer, Cleared, Without, HasFreeId, DecodeFrameWithFlags, Joins;
    ClearedIsExact(s, p, r);
    var t := Cleared(s, r);
    QueueFrameUnfolded(s, p, r);
    if ValidPeer(r.peer) {
      SearchFindsFree(t, r.peer);
      var found := Search(NextId(t, r.peer), TakenIds(t, r.peer), 256);
      if found.id.Some? {
        var counted := t.(nextId := t.nextId[r.peer := found.next]);
        var v: byte :| found.id.value == TransactionText(v);
        SameUse(t, counted, p, r, TransactionText(v));
        AdmitIsExact(counted, p, r, v);
        var q := Admit(counted, p, r, TransactionText(v));
        if q.result.Ok? {
          JoinsToo(t, counted, q.sender, r, TransactionText(v));
        }
      }
    }
  }

  // And the id is the first unused one from the peer's counter on, which is
  // left behind it.
  lemma AllocatedInTurn(s: Sender, p: Policy, r: Request) returns (k: nat)
    requires QueueFrame(s, p, r).result.Ok?
    ensures var t, q := Cleared(s, r), QueueFrame(s, p, r);
            && k < 256 && FirstFree(NextId(t, r.peer), TakenIds(t, r.peer), k)
            && q.result.value == IdAt(NextId(t, r.peer), k)
            && q.sender.nextId == t.nextId[r.peer := (NextId(t, r.peer) + k) % 256 + 1]
  {
    hide Search, TakenIds, ValidPeer, Cleared, FragmentFrame, FirstFree, TransactionText, Load;
    var t := Cleared(s, r);
    QueueFrameUnfolded(s, p, r);
    var next, taken := NextId(t, r.peer), TakenIds(t, r.peer);
    FirstFreeId(next, taken, 256);
    k :| k < 256 && FirstFree(next, taken, k) && Search(next, taken, 256) == Allocation(Some(IdAt(next, k)), (next + k) % 256 + 1);
  }

  lemma QueueFrameUnfolded(s: Sender, p: Policy, r: Request)
    ensures var t := Cleared(s, r);
            var found := Search(NextId(t, r.peer), TakenIds(t, r.peer), 256);
            var counted := t.(nextId := t.nextId[r.peer := found.next]);
            QueueFrame(s, p, r)
            == if !ValidPeer(r.peer) then Queued(s, Err(BadPeer))
               else if found.id.None? then Queued(counted, Err(NoFreeId))
               else Admit(counted, p, r, found.id.value)
  {
    hide Admit, Search, TakenIds, ValidPeer, PushedOut, Drop;
  }

  lemma SameUse(s: Sender, t: Sender, p: Policy, r: Request, id: string)
    requires t == s.(nextId := t.nextId)
    ensures Unused(t, r.peer, id) <==> Unused(s, r.peer, id)
    ensures HasFreeId(t, r.peer) <==> HasFreeId(s, r.peer)
    ensures Accepts(t, p, r) <==> Accepts(s, p, r)
  {
    hide TransactionText, DecodeFrameWithFlags, Load, ValidPeer;
    forall v: byte
      ensures Unused(t, r.peer, TransactionText(v)) <==> Unused(s, r.peer, TransactionText(v))
    {
      assert forall b :: Live(t, b) <==> Live(s, b);
    }
    assert forall b :: Live(t, b) <==> Live(s, b);
  }

  lemma JoinsToo(s: Sender, counted: Sender, t: Sender, r: Request, id: string)
    requires counted == s.(nextId := counted.nextId) && t.queue != []
    requires Joins(counted, t, r, id, t.queue[|t.queue| - 1])
    ensures Joins(s, t, r, id, t.queue[|t.queue| - 1])
  {
    hide IsFor;
    assert forall b :: Live(counted, b) <==> Live(s, b);
  }

  // --------------------------------------------------- superseding, compacting

  // A response burst goes when a replaceable one of its batch, and of another
  // than the current one, is live to that peer.
  ghost predicate Outlived(s: Sender, peer: string, current: Key, b: Burst) {
    && b.batch.Some? && (b in s.queue || b.peer == peer)
    && exists x :: Live(s, x) && x.peer == peer && x.supersedable && x.batch == b.batch && x.batch != Some(current)
  }

  lemma OutdatedAre(s: Sender, p: Policy, peer: string, current: Key)
    requires Inv(s, p)
    ensures forall b :: Live(s, b) ==> (b.order in Outdated(s, peer, current) <==> Outlived(s, peer, current, b))
  {
    hide Load, Flying, Unsent, InOrder, IdsDistinct, StaleBatches;
    LiveBound(s, p);
    var stale := StaleBatches(s, peer, current);
    forall b | Live(s, b)
      ensures b.order in Outdated(s, peer, current) <==> Outlived(s, peer, current, b)
    {
      if b.batch.Some? {
        StaleIs(s, p, peer, current, b);
      }
      if b.order in Outdated(s, peer, current) {
        var x :| Live(s, x) && x.order == b.order && x.batch.Some? && x.batch.value in stale && (x in s.queue || x.peer == peer);
        assert x == b;
      }
      if Outlived(s, peer, current, b) && b !in s.queue {
        OneActive(s.active, b, ActiveOf(s.active, peer).value);
      }
    }
  }

  lemma StaleIs(s: Sender, p: Policy, peer: string, current: Key, b: Burst)
    requires Inv(s, p) && b.batch.Some?
    ensures b.batch.value in StaleBatches(s, peer, current) <==>
              exists x :: Live(s, x) && x.peer == peer && x.supersedable && x.batch == b.batch && x.batch != Some(current)
  {
    hide Load, Flying, Unsent, InOrder, IdsDistinct;
    var a := ActiveOf(s.active, peer);
    if x :| Live(s, x) && x.peer == peer && x.supersedable && x.batch == b.batch && x.batch != Some(current) {
      if x in s.active {
        OneActive(s.active, x, a.value);
      }
    }
    if b.batch.value in StaleBatches(s, peer, current) {
      if y :| y in s.queue && y.peer == peer && Replaceable(y) && y.batch == b.batch && y.batch.value != current {
        assert Live(s, y);
      } else {
        assert Live(s, a.value);
      }
    }
  }

  // Superseding takes exactly those bursts, and leaves the peer nothing
  // replaceable but the current batch.
  lemma SupersessionIsExact(s: Sender, p: Policy, peer: string, current: Key)
    requires Inv(s, p)
    ensures var t := SupersedeStale(s, peer, current);
            && Inv(t, p)
            && Without(s, t, (iset b | Outlived(s, peer, current, b)), Superseded)
            && (forall b :: Live(t, b) && b.peer == peer && b.batch.Some? && b.supersedable ==> b.batch == Some(current))
  {
    hide Inv, Drop, Outdated;
    DropKeepsInv(s, p, Outdated(s, peer, current), Superseded);
    OutdatedAre(s, p, peer, current);
    DropIsExact(s, p, Outdated(s, peer, current), Superseded, (iset b | Outlived(s, peer, current, b)));
    forall b | Live(SupersedeStale(s, peer, current), b) && b.peer == peer && b.batch.Some? && b.supersedable
      ensures b.batch == Some(current)
    {
      assert Live(s, b);
    }
  }

  ghost function OfBatch(s: Sender, batch: Key): iset<Burst> {
    iset b: Burst | b.batch == Some(batch) && (b in s.queue || b.peer == batch.peer)
  }

  // Compacting takes exactly the bursts of the batch: those queued, and what
  // its peer has in flight of it.
  lemma CompactionIsExact(s: Sender, p: Policy, batch: Key)
    requires Inv(s, p)
    ensures Inv(CompactBatch(s, batch), p)
    ensures Without(s, CompactBatch(s, batch), OfBatch(s, batch), Compacted)
  {
    hide Inv, Drop, Without;
    DropKeepsInv(s, p, Redundant(s, batch), Compacted);
    RedundantAre(s, p, batch);
    DropIsExact(s, p, Redundant(s, batch), Compacted, OfBatch(s, batch));
  }

  lemma RedundantAre(s: Sender, p: Policy, batch: Key)
    requires Inv(s, p)
    ensures forall b :: Live(s, b) ==>
              (b.order in Redundant(s, batch) <==> b.batch == Some(batch) && (b in s.queue || b.peer == batch.peer))
  {
    hide Load, Flying, Unsent, InOrder, IdsDistinct;
    LiveBound(s, p);
    forall b | Live(s, b)
      ensures b.order in Redundant(s, batch) <==> b.batch == Some(batch) && (b in s.queue || b.peer == batch.peer)
    {
      if b.order in Redundant(s, batch) {
        var x :| Live(s, x) && x.order == b.order && x.batch == Some(batch) && (x in s.queue || x.peer == batch.peer);
        assert x == b;
      }
      if b.batch == Some(batch) && b !in s.queue && b.peer == batch.peer {
        OneActive(s.active, b, ActiveOf(s.active, batch.peer).value);
      }
    }
  }
}
