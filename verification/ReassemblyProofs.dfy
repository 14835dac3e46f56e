// The fragments of one frame, in any order, repeated and mixed with other
// traffic, give nothing until the last missing one and then the frame.
module ReassemblyProofs {
  import opened Prelude
  import opened Ordered
  import opened Codec
  import opened Carriage
  import opened Reassembly

  datatype Arrival = Arrival(peer: string, fragment: Fragment, now: int) {
    function Key(): Reassembly.Key {
      Reassembly.Key(peer, fragment.transactionId)
    }
  }

  datatype Outcome = Outcome(table: Table, results: seq<AddResult>)

  function Run(t: Table, b: Bounds, events: seq<Arrival>): (r: Outcome)
    requires b.Valid()
    ensures |r.results| == |events|
  {
    if events == [] then Outcome(t, [])
    else
      var before := Run(t, b, events[..|events| - 1]);
      var e := events[|events| - 1];
      var added := Add(before.table, b, e.peer, e.fragment, e.now);
      Outcome(added.table, before.results + [added.result])
  }

  // Housekeeping for `e` leaves the entry under k alone.
  ghost predicate Spared(t: Table, b: Bounds, e: Arrival, k: Key)
    requires b.Valid()
  {
    k in t.items ==>
      var ready := Prepared(t, b, e.Key(), e.now);
      k in ready.items && ready.items[k] == t.items[k]
  }

  ghost predicate AlwaysSpared(t: Table, b: Bounds, events: seq<Arrival>, k: Key)
    requires b.Valid()
  {
    forall n :: 0 <= n < |events| ==> Spared(Run(t, b, events[..n]).table, b, events[n], k)
  }

  function Spelling(texts: seq<string>): string {
    if texts == [] then "" else Spelling(texts[..|texts| - 1]) + texts[|texts| - 1]
  }

  // What the fragments of one transaction carry: the chunks of a frame, or the
  // pieces of the text that spells it.
  datatype Goods = Chunked(chunks: seq<Bytes>) | Spelled(texts: seq<string>) {
    function Count(): nat {
      if Chunked? then |chunks| else |texts|
    }

    function Version(): nat {
      if Chunked? then 2 else 1
    }

    function Piece(i: nat): Part
      requires i < Count()
    {
      if Chunked? then Raw(chunks[i]) else Text(texts[i])
    }

    // What all of it amounts to: the frame, when it is one.
    function Whole(b: Bounds): AddResult {
      match this
      case Chunked(_) => if DecodeFrameWithFlags(Concat(chunks)).Ok? then Complete(Concat(chunks)) else Invalid
      case Spelled(_) =>
        var frame := b.decodeText(Spelling(texts));
        if frame.Some? then Complete(frame.value) else Invalid
    }
  }

  predicate IsPiece(f: Fragment, goods: Goods) {
    && 0 <= f.index < goods.Count() && f.total == goods.Count()
    && f.version == goods.Version() && PartOf(f) == Some(goods.Piece(f.index))
  }

  lemma FragmentIsPiece(transactionId: string, chunks: seq<Bytes>, i: nat)
    requires i < |chunks|
    ensures IsPiece(FragmentOf(transactionId, chunks, i), Chunked(chunks))
  {
  }

  // The indices that have arrived for k.
  function Seen(events: seq<Arrival>, k: Key): set<int> {
    set n | 0 <= n < |events| && events[n].Key() == k :: events[n].fragment.index
  }

  // The table holds exactly the pieces in `seen` for k.
  ghost predicate Holds(t: Table, k: Key, goods: Goods, seen: set<int>) {
    if seen == {} then k !in t.items
    else
      && k in t.items
      && var a := t.items[k];
      && a.version == goods.Version() && a.total == goods.Count() && a.parts.Keys == seen
      && forall i :: i in seen ==> 0 <= i < goods.Count() && a.parts[i] == goods.Piece(i)
  }

  lemma PreparedIsPart(t: Table, b: Bounds, key: Key, now: int)
    requires b.Valid() && WellFormed(t)
    ensures var ready := Prepared(t, b, key, now);
            WellFormed(ready) && forall k :: k in ready.items ==> k in t.items && ready.items[k] == t.items[k]
  {
    RestrictKeepsForm(t, Fresh(t, b.ttl, now));
    EvictKeepsForm(Expired(t, b.ttl, now), b.maxEntries);
  }

  // After housekeeping, only the arriving fragment's own entry can change.
  ghost predicate OnlyKeyChanged(before: Table, after: Table, key: Key, now: int) {
    && WellFormed(after)
    && (forall k :: k != key ==> (k in after.items <==> k in before.items))
    && (forall k :: k != key && k in after.items ==> after.items[k] == before.items[k])
    && (key in after.items ==> after.items[key].lastSeen == now)
  }

  lemma AddLocal(t: Table, b: Bounds, e: Arrival)
    requires b.Valid() && WellFormed(t)
    ensures WellFormed(Prepared(t, b, e.Key(), e.now))
    ensures OnlyKeyChanged(Prepared(t, b, e.Key(), e.now), Add(t, b, e.peer, e.fragment, e.now).table, e.Key(), e.now)
  {
    hide Prepared, WellFormed, Placed, OnlyKeyChanged;
    var key := e.Key();
    PreparedIsPart(t, b, key, e.now);
    var ready := Prepared(t, b, key, e.now);
    if key in ready.items && (ready.items[key].total != e.fragment.total || ready.items[key].version != e.fragment.version) {
      DeleteLocal(ready, ready, key, e.now);
    } else {
      var entry := if key in ready.items then ready.items[key]
                   else Assembly(e.fragment.total, e.now, e.now, e.fragment.version, map[]);
      PlacedLocal(ready, b, key, entry, e.fragment, e.now);
    }
  }

  lemma DeleteLocal(ready: Table, t: Table, key: Key, now: int)
    requires WellFormed(ready) && WellFormed(t)
    requires SameBut(ready, t, key)
    ensures OnlyKeyChanged(ready, Delete(t, key), key, now)
  {
    RestrictKeepsForm(t, t.items.Keys - {key});
  }

  ghost predicate SameBut(a: Table, b: Table, key: Key) {
    && (forall k :: k != key ==> (k in a.items <==> k in b.items))
    && (forall k :: k != key && k in a.items ==> a.items[k] == b.items[k])
  }

  lemma PlacedLocal(ready: Table, b: Bounds, key: Key, entry: Assembly, f: Fragment, now: int)
    requires WellFormed(ready)
    ensures OnlyKeyChanged(ready, Placed(Put(ready, key, entry), b, key, entry, f, now).table, key, now)
  {
    hide WellFormed, PartOf, Assembled, Recorded, Put, Delete, OnlyKeyChanged, SameBut;
    var t := Put(ready, key, entry);
    RecordedLocal(ready, key, entry, now);
    if PartOf(f).Some? {
      RecordedAgain(ready, t, key, Grown(entry, f.index, PartOf(f).value, now), now);
    }
  }

  lemma RecordedLocal(ready: Table, key: Key, entry: Assembly, now: int)
    requires WellFormed(ready)
    ensures WellFormed(Put(ready, key, entry)) && SameBut(ready, Put(ready, key, entry), key)
    ensures key in Put(ready, key, entry).items
    ensures OnlyKeyChanged(ready, Delete(Put(ready, key, entry), key), key, now)
  {
    PutKeepsForm(ready, key, entry);
    DeleteLocal(ready, Put(ready, key, entry), key, now);
  }

  lemma RecordedAgain(ready: Table, t: Table, key: Key, grown: Assembly, now: int)
    requires WellFormed(ready) && WellFormed(t) && key in t.items && SameBut(ready, t, key) && grown.lastSeen == now
    ensures OnlyKeyChanged(ready, Recorded(t, key, grown), key, now)
    ensures OnlyKeyChanged(ready, Delete(Recorded(t, key, grown), key), key, now)
  {
    hide WellFormed;
    PutKeepsForm(t, key, grown);
    MoveKeepsForm(Put(t, key, grown), key);
    DeleteLocal(ready, Recorded(t, key, grown), key, now);
  }

  lemma OtherKeyUntouched(t: Table, b: Bounds, e: Arrival, k: Key)
    requires b.Valid() && WellFormed(t) && e.Key() != k && Spared(t, b, e, k)
    ensures var after := Add(t, b, e.peer, e.fragment, e.now).table;
            && (k in after.items <==> k in t.items)
            && (k in t.items ==> after.items[k] == t.items[k])
  {
    hide Add, Prepared, WellFormed;
    AddLocal(t, b, e);
    PreparedIsPart(t, b, e.Key(), e.now);
  }

  // A fragment that does not go with what is held of its transaction.
  predicate Contradicts(a: Assembly, f: Fragment) {
    || a.total != f.total || a.version != f.version
    || (PartOf(f).Some? && f.index in a.parts && a.parts[f.index] != PartOf(f).value)
  }

  // A conflict is reported exactly then, and like an invalid frame it ends the
  // transaction.
  lemma ConflictIsExact(t: Table, b: Bounds, e: Arrival)
    requires b.Valid() && WellFormed(t) && Spared(t, b, e, e.Key())
    ensures var r := Add(t, b, e.peer, e.fragment, e.now);
            && (r.result == Conflict <==> e.Key() in t.items && Contradicts(t.items[e.Key()], e.fragment))
            && (r.result != Waiting ==> e.Key() !in r.table.items)
  {
    hide Prepared, Assembled, PartOf, WellFormed, Recorded;
    var ready := Prepared(t, b, e.Key(), e.now);
    PreparedIsPart(t, b, e.Key(), e.now);
    var entry := if e.Key() in ready.items then ready.items[e.Key()]
                 else Assembly(e.fragment.total, e.now, e.now, e.fragment.version, map[]);
    if PartOf(e.fragment).Some? {
      AssembledIsEnd(Grown(entry, e.fragment.index, PartOf(e.fragment).value, e.now), b);
    }
  }

  lemma AssembledIsEnd(a: Assembly, b: Bounds)
    ensures Assembled(a, b).Complete? || Assembled(a, b).Invalid?
  {
    hide DecodeFrameWithFlags, JoinBytes, JoinText;
  }

  lemma {:induction false} RunKeepsForm(t: Table, b: Bounds, events: seq<Arrival>)
    requires b.Valid() && WellFormed(t)
    ensures WellFormed(Run(t, b, events).table)
  {
    if events == [] {
    } else {
      hide Add, Prepared;
      RunKeepsForm(t, b, events[..|events| - 1]);
      AddLocal(Run(t, b, events[..|events| - 1]).table, b, events[|events| - 1]);
    }
  }

  lemma {:induction false} JoinOfChunks(parts: map<int, Part>, chunks: seq<Bytes>, n: nat)
    requires n <= |chunks|
    requires forall i :: 0 <= i < n ==> i in parts && parts[i] == Raw(chunks[i])
    ensures JoinBytes(parts, n) == Concat(chunks[..n])
  {
    if n == 0 {
    } else {
      JoinOfChunks(parts, chunks, n - 1);
      assert chunks[..n][..n - 1] == chunks[..n - 1];
    }
  }

  lemma {:induction false} JoinOfTexts(parts: map<int, Part>, texts: seq<string>, n: nat)
    requires n <= |texts|
    requires forall i :: 0 <= i < n ==> i in parts && parts[i] == Text(texts[i])
    ensures JoinText(parts, n) == Spelling(texts[..n])
  {
    if n == 0 {
    } else {
      JoinOfTexts(parts, texts, n - 1);
      assert texts[..n][..n - 1] == texts[..n - 1];
    }
  }

  // One piece arrives for k.
  lemma PieceStep(t: Table, b: Bounds, e: Arrival, goods: Goods, seen: set<int>)
    requires b.Valid() && WellFormed(t)
    requires IsPiece(e.fragment, goods) && Spared(t, b, e, e.Key())
    requires Holds(t, e.Key(), goods, seen) && seen != Range(goods.Count())
    ensures var r := Add(t, b, e.peer, e.fragment, e.now);
            var now := seen + {e.fragment.index};
            if now == Range(goods.Count()) then r.result == goods.Whole(b) && e.Key() !in r.table.items
            else r.result == Waiting && Holds(r.table, e.Key(), goods, now)
  {
    hide Goods.Whole, Prepared;
    var key, f := e.Key(), e.fragment;
    var ready := Prepared(t, b, key, e.now);
    PreparedIsPart(t, b, key, e.now);
    var entry := if key in ready.items then ready.items[key] else Assembly(f.total, e.now, e.now, f.version, map[]);
    assert entry.parts.Keys == seen;
    PiecePlaced(Put(ready, key, entry), b, key, entry, f, e.now, goods, seen);
  }

  lemma PiecePlaced(t: Table, b: Bounds, key: Key, entry: Assembly, f: Fragment, now: int, goods: Goods, seen: set<int>)
    requires IsPiece(f, goods)
    requires entry.version == goods.Version() && entry.total == goods.Count() && entry.parts.Keys == seen
    requires forall i :: i in seen ==> 0 <= i < goods.Count() && entry.parts[i] == goods.Piece(i)
    ensures var r := Placed(t, b, key, entry, f, now);
            var all := seen + {f.index};
            if all == Range(goods.Count()) then r.result == goods.Whole(b) && key !in r.table.items
            else r.result == Waiting && Holds(r.table, key, goods, all)
  {
    hide WellFormed, Assembled, Placed, Recorded, Holds, Goods.Whole, Goods.Piece, Goods.Version, Goods.Count, PartOf;
    var part := goods.Piece(f.index);
    var grown := Grown(entry, f.index, part, now);
    PlacedGrows(t, b, key, entry, f, now, part);
    GrownParts(entry, f.index, part, now, goods.Count());
    if seen + {f.index} == Range(goods.Count()) {
      PiecesAssemble(grown, b, goods);
    } else {
      RecordedHolds(t, key, grown, goods, seen + {f.index});
    }
  }

  lemma PlacedGrows(t: Table, b: Bounds, key: Key, entry: Assembly, f: Fragment, now: int, part: Part)
    requires PartOf(f) == Some(part) && (f.index in entry.parts ==> entry.parts[f.index] == part)
    ensures var grown := Grown(entry, f.index, part, now);
            var r := Placed(t, b, key, entry, f, now);
            if |grown.parts| != grown.total then r == Added(Recorded(t, key, grown), Waiting)
            else r.result == Assembled(grown, b) && key !in r.table.items
  {
    hide Assembled, Recorded, PartOf;
  }

  lemma GrownParts(entry: Assembly, index: int, part: Part, now: int, n: nat)
    requires 0 <= index < n && forall i :: i in entry.parts ==> 0 <= i < n
    ensures var grown := Grown(entry, index, part, now);
            && grown.parts.Keys == entry.parts.Keys + {index}
            && (|grown.parts| == n <==> grown.parts.Keys == Range(n))
  {
    var grown := Grown(entry, index, part, now);
    assert grown.parts.Keys == entry.parts.Keys + {index};
    assert |grown.parts| == |grown.parts.Keys|;
    SubsetSize(grown.parts.Keys, Range(n));
  }

  lemma RecordedHolds(t: Table, key: Key, grown: Assembly, goods: Goods, all: set<int>)
    requires grown.version == goods.Version() && grown.total == goods.Count() && grown.parts.Keys == all && all != {}
    requires forall i :: i in all ==> 0 <= i < goods.Count() && grown.parts[i] == goods.Piece(i)
    ensures Holds(Recorded(t, key, grown), key, goods, all)
  {
    hide Goods.Piece, Goods.Version, Goods.Count;
  }

  lemma ChunksAssemble(a: Assembly, b: Bounds, chunks: seq<Bytes>)
    requires a.version == 2 && a.total == |chunks|
    requires forall i :: 0 <= i < |chunks| ==> i in a.parts && a.parts[i] == Raw(chunks[i])
    ensures Assembled(a, b) == Chunked(chunks).Whole(b)
  {
    hide DecodeFrameWithFlags;
    JoinOfChunks(a.parts, chunks, |chunks|);
    assert chunks[..|chunks|] == chunks;
  }

  lemma TextsAssemble(a: Assembly, b: Bounds, texts: seq<string>)
    requires a.version == 1 && a.total == |texts|
    requires forall i :: 0 <= i < |texts| ==> i in a.parts && a.parts[i] == Text(texts[i])
    ensures Assembled(a, b) == Spelled(texts).Whole(b)
  {
    hide DecodeFrameWithFlags;
    JoinOfTexts(a.parts, texts, |texts|);
    assert texts[..|texts|] == texts;
  }

  lemma PiecesAssemble(a: Assembly, b: Bounds, goods: Goods)
    requires a.version == goods.Version() && a.total == goods.Count() && a.parts.Keys == Range(goods.Count())
    requires forall i :: i in a.parts ==> 0 <= i < goods.Count() && a.parts[i] == goods.Piece(i)
    ensures Assembled(a, b) == goods.Whole(b)
  {
    hide Assembled, Goods.Whole;
    forall i | 0 <= i < goods.Count()
      ensures i in a.parts && a.parts[i] == goods.Piece(i)
    {
      assert i in Range(goods.Count());
    }
    match goods
    case Chunked(chunks) => ChunksAssemble(a, b, chunks);
    case Spelled(texts) => TextsAssemble(a, b, texts);
  }

  lemma SparedPrefix(t: Table, b: Bounds, events: seq<Arrival>, k: Key)
    requires b.Valid() && events != [] && AlwaysSpared(t, b, events, k)
    ensures var last := |events| - 1;
            AlwaysSpared(t, b, events[..last], k) && Spared(Run(t, b, events[..last]).table, b, events[last], k)
  {
    hide Run, Spared;
    var prefix := events[..|events| - 1];
    forall n | 0 <= n < |prefix|
      ensures Spared(Run(t, b, prefix[..n]).table, b, prefix[n], k)
    {
      assert prefix[..n] == events[..n];
    }
  }

  ghost predicate AllPieces(events: seq<Arrival>, k: Key, goods: Goods) {
    forall n :: 0 <= n < |events| && events[n].Key() == k ==> IsPiece(events[n].fragment, goods)
  }

  ghost predicate AllWaiting(events: seq<Arrival>, k: Key, results: seq<AddResult>)
    requires |events| == |results|
  {
    forall n :: 0 <= n < |events| && events[n].Key() == k ==> results[n] == Waiting
  }

  // While some index is missing: every fragment for k was answered with
  // nothing, and the table holds exactly what has arrived.
  lemma {:induction false} WaitsWhileIncomplete(t: Table, b: Bounds, events: seq<Arrival>, k: Key, goods: Goods)
    requires b.Valid() && WellFormed(t) && k !in t.items
    requires AlwaysSpared(t, b, events, k) && AllPieces(events, k, goods)
    requires Seen(events, k) != Range(goods.Count())
    ensures Holds(Run(t, b, events).table, k, goods, Seen(events, k))
    ensures AllWaiting(events, k, Run(t, b, events).results)
  {
    if events == [] {
    } else {
      hide Add, Spared, Holds, AlwaysSpared, WellFormed, IsPiece, AllWaiting, Goods.Whole;
      var last := |events| - 1;
      var prefix, e := events[..last], events[last];
      SparedPrefix(t, b, events, k);
      SeenGrows(events, k);
      SeenInRange(events, k, goods);
      assert AllPieces(prefix, k, goods);
      WaitsWhileIncomplete(t, b, prefix, k, goods);
      RunKeepsForm(t, b, prefix);
      WaitStep(Run(t, b, prefix).table, b, e, k, goods, Seen(prefix, k), Seen(events, k));
      WaitingGrows(events, k, Run(t, b, prefix).results, Add(Run(t, b, prefix).table, b, e.peer, e.fragment, e.now).result);
    }
  }

  lemma WaitingGrows(events: seq<Arrival>, k: Key, results: seq<AddResult>, r: AddResult)
    requires |events| == |results| + 1 && AllWaiting(events[..|results|], k, results)
    requires events[|results|].Key() == k ==> r == Waiting
    ensures AllWaiting(events, k, results + [r])
  {
    forall n | 0 <= n < |events| && events[n].Key() == k
      ensures (results + [r])[n] == Waiting
    {
      if n < |results| {
        assert events[..|results|][n] == events[n];
      }
    }
  }

  lemma WaitStep(t: Table, b: Bounds, e: Arrival, k: Key, goods: Goods, before: set<int>, after: set<int>)
    requires b.Valid() && WellFormed(t)
    requires Spared(t, b, e, k) && (e.Key() == k ==> IsPiece(e.fragment, goods))
    requires after == before + if e.Key() == k then {e.fragment.index} else {}
    requires Holds(t, k, goods, before) && before != Range(goods.Count()) && after != Range(goods.Count())
    ensures var r := Add(t, b, e.peer, e.fragment, e.now);
            Holds(r.table, k, goods, after) && (e.Key() == k ==> r.result == Waiting)
  {
    hide Add, Spared, WellFormed, IsPiece;
    if e.Key() == k {
      PieceStep(t, b, e, goods, before);
    } else {
      OtherKeyUntouched(t, b, e, k);
    }
  }

  lemma SeenInRange(events: seq<Arrival>, k: Key, goods: Goods)
    requires AllPieces(events, k, goods)
    ensures Seen(events, k) <= Range(goods.Count())
  {
  }

  lemma SeenGrows(events: seq<Arrival>, k: Key)
    requires events != []
    ensures var last := |events| - 1;
            Seen(events, k) == Seen(events[..last], k) + (if events[last].Key() == k then {events[last].fragment.index} else {})
  {
    var last := |events| - 1;
    var prefix := events[..last];
    forall i | i in Seen(events, k)
      ensures i in Seen(prefix, k) || (events[last].Key() == k && i == events[last].fragment.index)
    {
      var n :| 0 <= n < |events| && events[n].Key() == k && events[n].fragment.index == i;
      if n < last {
        assert prefix[n] == events[n];
      }
    }
    forall i | i in Seen(prefix, k)
      ensures i in Seen(events, k)
    {
      var n :| 0 <= n < |prefix| && prefix[n].Key() == k && prefix[n].fragment.index == i;
      assert events[n] == prefix[n];
    }
  }

  // The last event brings the last missing index of k's frame.
  ghost predicate LastCompletes(events: seq<Arrival>, k: Key, goods: Goods) {
    && events != [] && events[|events| - 1].Key() == k
    && Seen(events[..|events| - 1], k) != Range(goods.Count())
    && Seen(events, k) == Range(goods.Count())
  }

  // The whole delivery: nothing until the last missing index, then the frame.
  lemma DeliversExactlyOnce(t: Table, b: Bounds, events: seq<Arrival>, k: Key, goods: Goods)
    requires b.Valid() && WellFormed(t) && k !in t.items
    requires AlwaysSpared(t, b, events, k) && AllPieces(events, k, goods)
    requires LastCompletes(events, k, goods)
    ensures var results := Run(t, b, events).results;
            && results[|events| - 1] == goods.Whole(b)
            && AllWaiting(events[..|events| - 1], k, results[..|events| - 1])
    ensures k !in Run(t, b, events).table.items
  {
    hide Add, Spared, AlwaysSpared, Holds, WellFormed, IsPiece;
    var last := |events| - 1;
    var prefix := events[..last];
    SparedPrefix(t, b, events, k);
    assert AllPieces(prefix, k, goods);
    WaitsWhileIncomplete(t, b, prefix, k, goods);
    RunKeepsForm(t, b, prefix);
    SeenGrows(events, k);
    assert IsPiece(events[last].fragment, goods);
    PieceStep(Run(t, b, prefix).table, b, events[last], goods, Seen(prefix, k));
    assert Run(t, b, events).results[..last] == Run(t, b, prefix).results;
  }

  // ------------------------------------- when no entry is ever lost

  // Few enough transactions, close enough in time: a condition on the traffic.
  ghost predicate Quiet(b: Bounds, events: seq<Arrival>, start: int) {
    && (forall n :: 0 <= n < |events| ==> start <= events[n].now < start + b.ttl)
    && |Keys(events)| <= b.maxEntries
  }

  function Keys(events: seq<Arrival>): set<Key> {
    set n | 0 <= n < |events| :: events[n].Key()
  }

  lemma {:induction false} QuietTable(b: Bounds, events: seq<Arrival>, start: int)
    requires b.Valid() && Quiet(b, events, start)
    ensures var t := Run(Empty(), b, events).table;
            && WellFormed(t) && t.items.Keys <= Keys(events)
            && forall k :: k in t.items ==> t.items[k].lastSeen >= start
  {
    if events == [] {
    } else {
      hide Add, Prepared, Keys;
      var last := |events| - 1;
      var prefix, e := events[..last], events[last];
      KeysGrow(events);
      QuietTable(b, prefix, start);
      var t := Run(Empty(), b, prefix).table;
      AddLocal(t, b, e);
      PreparedIsPart(t, b, e.Key(), e.now);
    }
  }

  lemma KeysGrow(events: seq<Arrival>)
    requires events != []
    ensures var last := |events| - 1;
            Keys(events) == Keys(events[..last]) + {events[last].Key()} && |Keys(events[..last])| <= |Keys(events)|
  {
    var last := |events| - 1;
    var prefix := events[..last];
    forall k | k in Keys(events)
      ensures k in Keys(prefix) + {events[last].Key()}
    {
      var n :| 0 <= n < |events| && events[n].Key() == k;
      if n < last {
        assert prefix[n] == events[n];
      }
    }
    forall k | k in Keys(prefix)
      ensures k in Keys(events)
    {
      var n :| 0 <= n < |prefix| && prefix[n].Key() == k;
      assert events[n] == prefix[n];
    }
    SubsetSize(Keys(prefix), Keys(events));
    assert events[last].Key() in Keys(events);
  }

  lemma {:induction false} QuietPrefix(b: Bounds, events: seq<Arrival>, start: int, n: nat)
    requires b.Valid() && Quiet(b, events, start) && n <= |events|
    ensures Quiet(b, events[..n], start)
    decreases |events| - n
  {
    if n == |events| {
      assert events[..n] == events;
    } else {
      QuietPrefix(b, events, start, n + 1);
      KeysGrow(events[..n + 1]);
      assert events[..n + 1][..n] == events[..n];
    }
  }

  lemma QuietSpares(b: Bounds, events: seq<Arrival>, start: int, n: nat, k: Key)
    requires b.Valid() && Quiet(b, events, start) && n < |events|
    ensures Spared(Run(Empty(), b, events[..n]).table, b, events[n], k)
  {
    var t, e := Run(Empty(), b, events[..n]).table, events[n];
    QuietPrefix(b, events, start, n);
    QuietPrefix(b, events, start, n + 1);
    QuietTable(b, events[..n], start);
    assert events[..n + 1][..n] == events[..n];
    KeysGrow(events[..n + 1]);
    assert Fresh(t, b.ttl, e.now) == t.items.Keys;
    RestrictAll(t, Fresh(t, b.ttl, e.now));
    if e.Key() !in t.items {
      SmallerKeys(t.items.Keys, e.Key(), Keys(events[..n + 1]));
    }
  }

  lemma SmallerKeys(a: set<Key>, k: Key, b: set<Key>)
    requires a + {k} <= b && k !in a
    ensures |a| < |b|
  {
    SubsetSize(a + {k}, b);
  }

  // Quiet traffic into an empty reassembler delivers whatever was sent exactly
  // once.
  lemma QuietlyWhole(b: Bounds, events: seq<Arrival>, start: int, k: Key, goods: Goods)
    requires b.Valid() && Quiet(b, events, start)
    requires AllPieces(events, k, goods) && LastCompletes(events, k, goods)
    ensures var results := Run(Empty(), b, events).results;
            && results[|events| - 1] == goods.Whole(b)
            && AllWaiting(events[..|events| - 1], k, results[..|events| - 1])
    ensures k !in Run(Empty(), b, events).table.items
  {
    hide Goods.Whole, Add, Quiet, IsPiece;
    forall n | 0 <= n < |events|
      ensures Spared(Run(Empty(), b, events[..n]).table, b, events[n], k)
    {
      QuietSpares(b, events, start, n, k);
    }
    DeliversExactlyOnce(Empty(), b, events, k, goods);
  }

  // So every Q2 frame.
  lemma QuietDelivery(b: Bounds, events: seq<Arrival>, start: int, k: Key, frame: Bytes)
    requires b.Valid() && Quiet(b, events, start) && DecodeFrameWithFlags(frame).Ok?
    requires AllPieces(events, k, Chunked(Chunks(frame))) && LastCompletes(events, k, Chunked(Chunks(frame)))
    ensures var results := Run(Empty(), b, events).results;
            && results[|events| - 1] == Complete(frame)
            && AllWaiting(events[..|events| - 1], k, results[..|events| - 1])
  {
    hide Add, Quiet, Run, IsPiece, LastCompletes, AllWaiting;
    ChunksJoin(frame);
    QuietlyWhole(b, events, start, k, Chunked(Chunks(frame)));
  }
}
