// An executed request is answered: one burst for each of Core's responses, in
// Core's order, and a confirmation of the request itself.
module Answers {
  import opened Prelude
  import opened Carriage
  import opened Burst
  import opened BurstProofs
  import opened Selective
  import opened Queuing
  import C = Codec

  // ------------------------------------------------------------- the responses

  // What Core is to hear of when the response is confirmed.
  ghost predicate Announces(delivery: Option<Delivery>, response: Bytes) {
    var o := C.DecodeFrame(response);
    forall d :: delivery == Some(d) <==> o.Ok? && o.value.Message? && o.value.recipient == d.recipient && o.value.sequence == d.sequence
  }

  // A burst that carries the response to the peer of the request, first among
  // the priorities and as part of the request's batch.
  ghost predicate AnswersWith(b: Burst, key: Key, response: Bytes, supersedable: bool, firstTime: bool, order: nat) {
    && b.peer == key.peer && Carries(b.fragments, b.transactionId, response) && Unsent(b)
    && b.priority == 0 && b.order == order && b.batch == Some(key) && b.supersedable == supersedable
    && (if firstTime then Announces(b.delivery, response) else b.delivery == None)
  }

  // `base` with the bursts queued behind what it had.
  function Behind(base: Sender, bursts: seq<Burst>): Sender {
    base.(queue := base.queue + bursts, nextOrder := base.nextOrder + |bursts|)
  }

  // The bursts carry the first responses in order, each under an id that was
  // not in use at its peer.
  ghost predicate AnswersInOrder(base: Sender, bursts: seq<Burst>, key: Key, responses: seq<Bytes>, supersedable: bool, firstTime: bool) {
    && |bursts| <= |responses|
    && forall i :: 0 <= i < |bursts| ==>
         && AnswersWith(bursts[i], key, responses[i], supersedable, firstTime, base.nextOrder + i)
         && Unused(Behind(base, bursts[..i]), key.peer, bursts[i].transactionId) && ByteId(bursts[i].transactionId)
  }

  // There is an id for a response, it is a frame, and its pieces fit.
  ghost predicate HasRoom(s: Sender, p: Policy, peer: string, response: Bytes) {
    && HasFreeId(s, peer) && C.DecodeFrameWithFlags(response).Ok?
    && Load(s.queue) + Load(s.active) + Pieces(response) <= p.queueCapacity
  }

  // Each burst had room behind those before it; the next response has none.
  ghost predicate AsFarAsFits(base: Sender, p: Policy, bursts: seq<Burst>, peer: string, responses: seq<Bytes>, n: nat)
    requires |bursts| <= n <= |responses|
  {
    && (forall i :: 0 <= i < |bursts| ==> HasRoom(Behind(base, bursts[..i]), p, peer, responses[i]))
    && (|bursts| < n ==> !HasRoom(Behind(base, bursts), p, peer, responses[|bursts|]))
  }

  ghost predicate Gained(base: Sender, t: Sender, bursts: seq<Burst>) {
    t == Behind(base, bursts).(nextId := t.nextId)
  }

  lemma ResponseAnswers(b: Burst, key: Key, response: Bytes, supersedable: bool, firstTime: bool, id: string, order: nat)
    requires IsFor(b, ResponseRequest(key, response, supersedable, firstTime), id, order)
    ensures AnswersWith(b, key, response, supersedable, firstTime, order) && b.transactionId == id
  {
    hide Carries, C.DecodeFrame, Unsent;
  }

  ghost predicate ByteId(id: string) {
    exists v: byte :: id == TransactionText(v)
  }

  lemma IdsAreBytes(next: nat, k: nat)
    ensures ByteId(IdAt(next, k))
  {
    hide TransactionText;
    var v: byte := (next + k) % 256;
    assert IdAt(next, k) == TransactionText(v);
  }

  // One response more.
  lemma OneResponse(base: Sender, p: Policy, t: Sender, bursts: seq<Burst>, key: Key, response: Bytes, supersedable: bool, firstTime: bool)
    returns (more: seq<Burst>)
    requires ValidPeer(key.peer) && Inv(t, p) && Gained(base, t, bursts)
    ensures var q := QueueFrame(t, p, ResponseRequest(key, response, supersedable, firstTime));
            && Inv(q.sender, p)
            && (q.result.Ok? <==> HasRoom(Behind(base, bursts), p, key.peer, response))
            && |more| == (if q.result.Ok? then 1 else 0) && Gained(base, q.sender, bursts + more)
            && (q.result.Ok? ==>
                  && AnswersWith(more[0], key, response, supersedable, firstTime, base.nextOrder + |bursts|)
                  && Unused(Behind(base, bursts), key.peer, more[0].transactionId) && ByteId(more[0].transactionId))
  {
    hide Inv, QueueFrame, ValidPeer, IsFor, AnswersWith, HasFreeId, Unused, Load, C.DecodeFrameWithFlags;
    hide Pieces, DeliveryIn, Without, Yielding, TransactionText, FirstFree, TakenIds, ByteId;
    var r := ResponseRequest(key, response, supersedable, firstTime);
    QueueFrameKeepsInv(t, p, r);
    QueueFrameIsExact(t, p, r);
    var q := QueueFrame(t, p, r);
    SameUse(Behind(base, bursts), t, p, r, if q.result.Ok? then q.result.value else "");
    more := [];
    assert bursts + more == bursts;
    if q.result.Ok? {
      var b := q.sender.queue[|q.sender.queue| - 1];
      more := [b];
      var k := AllocatedInTurn(t, p, r);
      IdsAreBytes(NextId(t, key.peer), k);
      ResponseAnswers(b, key, response, supersedable, firstTime, q.result.value, t.nextOrder);
      assert base.queue + bursts + [b] == base.queue + (bursts + [b]);
    }
  }

  lemma {:induction false} QueueAllIs(base: Sender, p: Policy, key: Key, responses: seq<Bytes>, supersedable: bool, firstTime: bool, n: nat)
    returns (bursts: seq<Burst>)
    requires ValidPeer(key.peer) && Inv(base, p) && n <= |responses|
    ensures var q := QueueAll(base, p, key, responses, supersedable, firstTime, n);
            && Inv(q.sender, p) && Gained(base, q.sender, bursts) && |bursts| <= n
            && (q.failure.None? <==> |bursts| == n)
            && AnswersInOrder(base, bursts, key, responses, supersedable, firstTime)
            && AsFarAsFits(base, p, bursts, key.peer, responses, n)
  {
    hide Inv, QueueFrame, ValidPeer, AnswersWith, HasRoom, Unused, ResponseRequest, ByteId;
    bursts := [];
    if n > 0 {
      bursts := QueueAllIs(base, p, key, responses, supersedable, firstTime, n - 1);
      var before := QueueAll(base, p, key, responses, supersedable, firstTime, n - 1);
      if before.failure.None? {
        var more := OneResponse(base, p, before.sender, bursts, key, responses[n - 1], supersedable, firstTime);
        var q := QueueFrame(before.sender, p, ResponseRequest(key, responses[n - 1], supersedable, firstTime));
        if q.result.Ok? {
          OneMoreAnswer(base, p, bursts, more[0], key, responses, supersedable, firstTime);
          assert more == [more[0]];
          bursts := bursts + more;
        } else {
          assert bursts + more == bursts;
        }
      }
    }
  }

  lemma OneMoreAnswer(base: Sender, p: Policy, bursts: seq<Burst>, b: Burst, key: Key, responses: seq<Bytes>, supersedable: bool, firstTime: bool)
    requires AnswersInOrder(base, bursts, key, responses, supersedable, firstTime) && |bursts| < |responses|
    requires AsFarAsFits(base, p, bursts, key.peer, responses, |bursts|)
    requires AnswersWith(b, key, responses[|bursts|], supersedable, firstTime, base.nextOrder + |bursts|)
    requires Unused(Behind(base, bursts), key.peer, b.transactionId) && ByteId(b.transactionId)
    requires HasRoom(Behind(base, bursts), p, key.peer, responses[|bursts|])
    ensures AnswersInOrder(base, bursts + [b], key, responses, supersedable, firstTime)
    ensures AsFarAsFits(base, p, bursts + [b], key.peer, responses, |bursts| + 1)
  {
    hide AnswersWith, HasRoom, Unused, Behind, ByteId;
    forall i | 0 <= i < |bursts| + 1
      ensures (bursts + [b])[..i] == bursts[..i]
    {
    }
    assert bursts[..|bursts|] == bursts;
  }

  // --------------------------------------------------- when all of them fit

  ghost function FreeIds(s: Sender, peer: string): set<int> {
    set v | 0 <= v < 256 && Unused(s, peer, TransactionText(v))
  }

  function AllPieces(responses: seq<Bytes>, n: nat): nat
    requires n <= |responses|
  {
    if n == 0 then 0 else AllPieces(responses, n - 1) + Pieces(responses[n - 1])
  }

  // A frame each, an id for each, and room for all their pieces.
  ghost predicate AllFit(s: Sender, p: Policy, peer: string, responses: seq<Bytes>) {
    && (forall i :: 0 <= i < |responses| ==> C.DecodeFrameWithFlags(responses[i]).Ok?)
    && |responses| <= |FreeIds(s, peer)|
    && Load(s.queue) + Load(s.active) + AllPieces(responses, |responses|) <= p.queueCapacity
  }

  lemma FreeIdsLeft(s: Sender, peer: string)
    ensures HasFreeId(s, peer) <==> |FreeIds(s, peer)| > 0
  {
    hide Unused, TransactionText;
    if HasFreeId(s, peer) {
      var v: byte :| Unused(s, peer, TransactionText(v));
      assert v in FreeIds(s, peer);
    } else {
      assert FreeIds(s, peer) == {};
    }
  }

  lemma UsedNow(base: Sender, bursts: seq<Burst>, b: Burst, peer: string, id: string)
    requires b.peer == peer
    ensures Unused(Behind(base, bursts + [b]), peer, id) <==> Unused(Behind(base, bursts), peer, id) && id != b.transactionId
  {
    var s, t := Behind(base, bursts), Behind(base, bursts + [b]);
    assert t.queue == s.queue + [b];
    assert Live(t, b);
    assert forall x :: Live(t, x) <==> Live(s, x) || x == b;
  }

  lemma OneIdLess(base: Sender, bursts: seq<Burst>, b: Burst, peer: string)
    requires b.peer == peer && Unused(Behind(base, bursts), peer, b.transactionId)
    requires ByteId(b.transactionId)
    ensures |FreeIds(Behind(base, bursts + [b]), peer)| == |FreeIds(Behind(base, bursts), peer)| - 1
  {
    hide Unused, TransactionText, TransactionByte, Behind;
    var v: byte :| b.transactionId == TransactionText(v);
    forall w: byte
      ensures Unused(Behind(base, bursts + [b]), peer, TransactionText(w)) <==>
                Unused(Behind(base, bursts), peer, TransactionText(w)) && w != v
    {
      TransactionRoundTrip(v);
      TransactionRoundTrip(w);
      UsedNow(base, bursts, b, peer, TransactionText(w));
    }
    assert FreeIds(Behind(base, bursts + [b]), peer) == FreeIds(Behind(base, bursts), peer) - {v as int};
  }

  // What the first k bursts take up.
  lemma {:induction false} TakenUp(base: Sender, bursts: seq<Burst>, key: Key, responses: seq<Bytes>, supersedable: bool, firstTime: bool, k: nat)
    requires AnswersInOrder(base, bursts, key, responses, supersedable, firstTime) && k <= |bursts|
    ensures var s := Behind(base, bursts[..k]);
            && Load(s.queue) == Load(base.queue) + AllPieces(responses, k) && s.active == base.active
            && |FreeIds(s, key.peer)| == |FreeIds(base, key.peer)| - k
  {
    hide Load, FreeIds, Unused, ByteId, Carries, Unsent, Announces, Pieces;
    if k == 0 {
      NothingBehind(base);
      assert bursts[..0] == [];
    } else {
      TakenUp(base, bursts, key, responses, supersedable, firstTime, k - 1);
      var b := bursts[k - 1];
      assert bursts[..k] == bursts[..k - 1] + [b];
      OneIdLess(base, bursts[..k - 1], b, key.peer);
      assert base.queue + (bursts[..k - 1] + [b]) == (base.queue + bursts[..k - 1]) + [b];
      LoadAppend(base.queue + bursts[..k - 1], b);
      CarriedCount(b.fragments, b.transactionId, responses[k - 1]);
    }
  }

  lemma NothingBehind(base: Sender)
    ensures Behind(base, []) == base
  {
    assert base.queue + [] == base.queue;
  }

  lemma {:induction false} PiecesGrow(responses: seq<Bytes>, k: nat, n: nat)
    requires k <= n <= |responses|
    ensures AllPieces(responses, k) <= AllPieces(responses, n)
  {
    hide Pieces;
    if k < n {
      PiecesGrow(responses, k, n - 1);
    }
  }

  // Every response is queued if and only if all of them fit.
  lemma AllAnsweredIff(base: Sender, p: Policy, bursts: seq<Burst>, key: Key, responses: seq<Bytes>, supersedable: bool, firstTime: bool)
    requires Inv(base, p) && |bursts| <= |responses| && AnswersInOrder(base, bursts, key, responses, supersedable, firstTime)
    requires AsFarAsFits(base, p, bursts, key.peer, responses, |responses|)
    ensures |bursts| == |responses| <==> AllFit(base, p, key.peer, responses)
  {
    hide Inv, AnswersInOrder, FreeIds, Load, HasFreeId, C.DecodeFrameWithFlags, Pieces, Behind;
    LoadBounded(base, p);
    TakenUp(base, bursts, key, responses, supersedable, firstTime, |bursts|);
    assert bursts[..|bursts|] == bursts;
    if |bursts| < |responses| {
      FreeIdsLeft(Behind(base, bursts), key.peer);
      PiecesGrow(responses, |bursts| + 1, |responses|);
    } else {
      forall i | 0 <= i < |responses|
        ensures C.DecodeFrameWithFlags(responses[i]).Ok?
      {
        assert HasRoom(Behind(base, bursts[..i]), p, key.peer, responses[i]);
      }
      if responses != [] {
        var last := |responses| - 1;
        TakenUp(base, bursts, key, responses, supersedable, firstTime, last);
        assert HasRoom(Behind(base, bursts[..last]), p, key.peer, responses[last]);
        FreeIdsLeft(Behind(base, bursts[..last]), key.peer);
      }
    }
  }

  lemma LoadBounded(s: Sender, p: Policy)
    requires Inv(s, p)
    ensures Load(s.queue) + Load(s.active) <= p.queueCapacity
  {
  }
}
