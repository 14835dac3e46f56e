// What the two tables drop to make room, and that they stay within their
// bounds.
module Housekeeping {
  import opened Prelude
  import opened Ordered
  import opened Carriage
  import opened Reassembly
  import RRP = ReassemblyProofs
  import P = Replay
  import RP = ReplayProofs

  // --------------------------------------------------------- ordered tables

  lemma {:induction false} SelectRest<K(!new)>(order: seq<K>, keys: set<K>)
    requires order != [] && Distinct(order) && forall k :: k in order ==> (k in keys <==> k != order[0])
    ensures Select(order, keys) == order[1..]
  {
    if |order| > 1 {
      var prefix, last := order[..|order| - 1], order[|order| - 1];
      SelectRest(prefix, keys);
      assert last in order && order[1..] == prefix[1..] + [last];
    } else {
      assert order[0] in order;
    }
  }

  lemma DropFirst<K(!new), V>(d: OrderedDict<K, V>)
    requires WellFormed(d) && d.order != []
    ensures Delete(d, d.order[0]).order == d.order[1..]
  {
    SelectRest(d.order, d.items.Keys - {d.order[0]});
  }

  lemma {:induction false} DistinctSize<K(!new)>(order: seq<K>, keys: set<K>)
    requires Distinct(order) && forall k :: k in keys <==> k in order
    ensures |keys| == |order|
  {
    if order == [] {
      if k :| k in keys {
        assert false;
      }
    } else {
      var prefix, last := order[..|order| - 1], order[|order| - 1];
      DistinctSize(prefix, keys - {last});
    }
  }

  lemma EvictStep<K(!new), V>(d: OrderedDict<K, V>, bound: nat)
    requires bound > 0 && WellFormed(d)
    ensures |d.items| == |d.order|
    ensures |d.order| < bound ==> EvictBelow(d, bound) == d
    ensures |d.order| >= bound ==>
              var rest := Delete(d, d.order[0]);
              EvictBelow(d, bound) == EvictBelow(rest, bound) && WellFormed(rest) && rest.order == d.order[1..] && |rest.items| < |d.items|
  {
    hide Delete;
    DistinctSize(d.order, d.items.Keys);
    if |d.items| >= bound {
      NonemptyOrder(d);
      RestrictKeepsForm(d, d.items.Keys - {d.order[0]});
      SmallerAfterDelete(d, d.order[0]);
      DropFirst(d);
      assert Delete(d, d.order[0]) == Restrict(d, d.items.Keys - {d.order[0]}) by {
        DeleteIs(d, d.order[0]);
      }
    }
  }

  lemma DeleteIs<K(!new), V>(d: OrderedDict<K, V>, k: K)
    ensures Delete(d, k) == Restrict(d, d.items.Keys - {k})
  {
  }

  // Eviction keeps the last keys in order, as many as there may be.
  lemma {:induction false} EvictionKeepsLast<K(!new), V>(d: OrderedDict<K, V>, bound: nat)
    requires bound > 0 && WellFormed(d)
    ensures EvictBelow(d, bound).order == d.order[|d.order| - Min(|d.order|, bound - 1)..]
    decreases |d.items|
  {
    hide Delete, WellFormed, EvictBelow;
    EvictStep(d, bound);
    if |d.order| >= bound {
      var rest := Delete(d, d.order[0]);
      EvictionKeepsLast(rest, bound);
      assert d.order[1..][|d.order| - 1 - (bound - 1)..] == d.order[|d.order| - (bound - 1)..];
    } else {
      assert d.order[0..] == d.order;
    }
  }

  // ----------------------------------------------------------- reassembly

  // The transactions heard within the time-to-live, least recently heard first.
  function StillFresh(t: Table, b: Bounds, now: int): seq<Key> {
    Select(t.order, set k | k in t.items && now - t.items[k].lastSeen < b.ttl)
  }

  // Before a fragment is added, what is stale goes; and if its transaction is
  // new, the least recently heard others go until there is room for one more.
  lemma RoomIsMade(t: Table, b: Bounds, key: Key, now: int)
    requires b.Valid() && WellFormed(t)
    ensures var ready, young := Prepared(t, b, key, now), StillFresh(t, b, now);
            && (forall k :: k in young <==> k in t.items && now - t.items[k].lastSeen < b.ttl)
            && ready.order == (if key in young then young else young[|young| - Min(|young|, b.maxEntries - 1)..])
            && WellFormed(ready) && forall k :: k in ready.items ==> k in t.items && ready.items[k] == t.items[k]
  {
    hide EvictBelow, Select, Distinct;
    var live := Expired(t, b.ttl, now);
    assert Fresh(t, b.ttl, now) == set k | k in t.items && now - t.items[k].lastSeen < b.ttl;
    RRP.PreparedIsPart(t, b, key, now);
    RestrictKeepsForm(t, Fresh(t, b.ttl, now));
    EvictionKeepsLast(live, b.maxEntries);
  }

  lemma PreparedFits(t: Table, b: Bounds, key: Key, now: int)
    requires b.Valid() && WellFormed(t) && |t.items| <= b.maxEntries
    ensures var ready := Prepared(t, b, key, now);
            |ready.items| <= b.maxEntries && (key !in ready.items ==> |ready.items| < b.maxEntries)
  {
    hide EvictBelow;
    var live := Expired(t, b.ttl, now);
    RestrictKeepsForm(t, Fresh(t, b.ttl, now));
    EvictKeepsForm(live, b.maxEntries);
    SubsetSize(live.items.Keys, t.items.Keys);
    assert |live.items| == |live.items.Keys| && |t.items| == |t.items.Keys|;
  }

  lemma AddFits(t: Table, b: Bounds, e: RRP.Arrival)
    requires b.Valid() && WellFormed(t) && |t.items| <= b.maxEntries
    ensures var u := Add(t, b, e.peer, e.fragment, e.now).table;
            WellFormed(u) && |u.items| <= b.maxEntries
  {
    hide Add, Prepared, WellFormed;
    PreparedFits(t, b, e.Key(), e.now);
    RRP.AddLocal(t, b, e);
    var ready, u := Prepared(t, b, e.Key(), e.now), Add(t, b, e.peer, e.fragment, e.now).table;
    SubsetSize(u.items.Keys, ready.items.Keys + {e.Key()});
    assert |u.items| == |u.items.Keys| && |ready.items| == |ready.items.Keys|;
    if e.Key() in ready.items {
      assert ready.items.Keys + {e.Key()} == ready.items.Keys;
    }
  }

  // Whatever arrives, no more transactions are held than the table may hold.
  lemma {:induction false} TableIsBounded(b: Bounds, events: seq<RRP.Arrival>)
    requires b.Valid()
    ensures var t := RRP.Run(Empty(), b, events).table;
            WellFormed(t) && |t.items| <= b.maxEntries
  {
    hide Add, WellFormed;
    if events == [] {
      EmptyForm();
    } else {
      TableIsBounded(b, events[..|events| - 1]);
      AddFits(RRP.Run(Empty(), b, events[..|events| - 1]).table, b, events[|events| - 1]);
    }
  }

  lemma EmptyForm()
    ensures var t: Table := Empty(); WellFormed(t) && |t.items| == 0
  {
  }

  // ---------------------------------------------------------- in order of use

  // What comes first was heard no later.
  ghost predicate ByUse(order: seq<Key>, items: map<Key, Assembly>) {
    && (forall k :: k in order ==> k in items)
    && forall i, j :: 0 <= i < j < |order| ==> items[order[i]].lastSeen <= items[order[j]].lastSeen
  }

  ghost predicate HeardBy(t: Table, now: int) {
    forall k :: k in t.items ==> t.items[k].lastSeen <= now
  }

  lemma {:induction false} SelectByUse(order: seq<Key>, items: map<Key, Assembly>, keys: set<Key>)
    requires ByUse(order, items)
    ensures ByUse(Select(order, keys), items)
  {
    if order != [] {
      var prefix, last := order[..|order| - 1], order[|order| - 1];
      assert forall k :: k in prefix ==> k in order;
      SelectByUse(prefix, items, keys);
      var inner := Select(prefix, keys);
      forall i | 0 <= i < |inner|
        ensures items[inner[i]].lastSeen <= items[last].lastSeen
      {
        assert inner[i] in inner;
        var j :| 0 <= j < |prefix| && prefix[j] == inner[i];
        assert order[j] == inner[i];
      }
    }
  }

  lemma OtherItems(order: seq<Key>, a: map<Key, Assembly>, b: map<Key, Assembly>)
    requires ByUse(order, a) && forall k :: k in order ==> k in b && b[k] == a[k]
    ensures ByUse(order, b)
  {
    forall i, j | 0 <= i < j < |order|
      ensures b[order[i]].lastSeen <= b[order[j]].lastSeen
    {
      assert order[i] in order && order[j] in order;
    }
  }

  lemma SuffixByUse(order: seq<Key>, items: map<Key, Assembly>, n: nat)
    requires ByUse(order, items) && n <= |order|
    ensures ByUse(order[n..], items)
  {
    forall k | k in order[n..]
      ensures k in items
    {
      var i :| 0 <= i < |order[n..]| && order[n..][i] == k;
      assert order[n + i] == k;
    }
  }

  lemma PreparedByUse(t: Table, b: Bounds, key: Key, now: int)
    requires b.Valid() && WellFormed(t) && ByUse(t.order, t.items)
    ensures var ready := Prepared(t, b, key, now); ByUse(ready.order, ready.items)
  {
    hide Prepared, StillFresh, ByUse, Distinct;
    RoomIsMade(t, b, key, now);
    var ready, young := Prepared(t, b, key, now), StillFresh(t, b, now);
    FreshByUse(t, b, now);
    SuffixByUse(young, t.items, if key in young then 0 else |young| - Min(|young|, b.maxEntries - 1));
    assert young[0..] == young;
    OtherItems(ready.order, t.items, ready.items);
  }

  lemma FreshByUse(t: Table, b: Bounds, now: int)
    requires ByUse(t.order, t.items)
    ensures ByUse(StillFresh(t, b, now), t.items)
  {
    SelectByUse(t.order, t.items, set k | k in t.items && now - t.items[k].lastSeen < b.ttl);
  }

  lemma DeletedByUse(t: Table, key: Key)
    requires ByUse(t.order, t.items)
    ensures ByUse(Delete(t, key).order, Delete(t, key).items)
  {
    hide ByUse;
    SelectByUse(t.order, t.items, t.items.Keys - {key});
    OtherItems(Delete(t, key).order, t.items, Delete(t, key).items);
  }

  lemma RecordedByUse(t: Table, key: Key, entry: Assembly, now: int)
    requires ByUse(t.order, t.items) && HeardBy(t, now) && key in t.items && entry.lastSeen == now
    ensures ByUse(Recorded(t, key, entry).order, Recorded(t, key, entry).items)
  {
    hide Select;
    var put := Put(t, key, entry);
    var others := Select(t.order, put.items.Keys - {key});
    SelectByUse(t.order, t.items, put.items.Keys - {key});
    OtherItems(others, t.items, put.items);
    forall i | 0 <= i < |others|
      ensures put.items[others[i]].lastSeen <= now
    {
      assert others[i] in others;
    }
  }

  lemma EnteredByUse(t: Table, key: Key, entry: Assembly, now: int)
    requires ByUse(t.order, t.items) && HeardBy(t, now)
    requires if key in t.items then entry == t.items[key] else entry.lastSeen == now && key !in t.order
    ensures var u := Put(t, key, entry);
            ByUse(u.order, u.items) && HeardBy(u, now) && key in u.items
  {
    var u := Put(t, key, entry);
    if key in t.items {
      assert u.items == t.items;
    } else {
      OtherItems(t.order, t.items, u.items);
      forall i | 0 <= i < |t.order|
        ensures u.items[t.order[i]].lastSeen <= now
      {
        assert t.order[i] in t.order;
      }
    }
  }

  lemma PlacedByUse(t: Table, b: Bounds, key: Key, entry: Assembly, f: Fragment, now: int)
    requires ByUse(t.order, t.items) && HeardBy(t, now) && key in t.items
    ensures var u := Placed(t, b, key, entry, f, now).table; ByUse(u.order, u.items)
  {
    hide ByUse, PartOf, Assembled, Recorded, Delete, HeardBy;
    DeletedByUse(t, key);
    if PartOf(f).Some? {
      var moved := Recorded(t, key, Grown(entry, f.index, PartOf(f).value, now));
      RecordedByUse(t, key, Grown(entry, f.index, PartOf(f).value, now), now);
      DeletedByUse(moved, key);
    }
  }

  lemma AddByUse(t: Table, b: Bounds, e: RRP.Arrival)
    requires b.Valid() && WellFormed(t) && ByUse(t.order, t.items) && HeardBy(t, e.now)
    ensures var u := Add(t, b, e.peer, e.fragment, e.now).table; ByUse(u.order, u.items) && HeardBy(u, e.now)
  {
    hide ByUse, Prepared, Placed, Delete, Put, Distinct;
    var key := e.Key();
    PreparedByUse(t, b, key, e.now);
    RRP.AddLocal(t, b, e);
    RRP.PreparedIsPart(t, b, key, e.now);
    var ready := Prepared(t, b, key, e.now);
    DeletedByUse(ready, key);
    var entry := if key in ready.items then ready.items[key]
                 else Assembly(e.fragment.total, e.now, e.now, e.fragment.version, map[]);
    EnteredByUse(ready, key, entry, e.now);
    PlacedByUse(Put(ready, key, entry), b, key, entry, e.fragment, e.now);
  }

  ghost predicate InTime(events: seq<RRP.Arrival>) {
    forall i, j :: 0 <= i < j < |events| ==> events[i].now <= events[j].now
  }

  // While the clock does not go back, the table stands in the order in which
  // its transactions were last heard, so what goes first was heard least
  // recently.
  lemma {:induction false} TableIsByUse(b: Bounds, events: seq<RRP.Arrival>)
    requires b.Valid() && InTime(events)
    ensures var t := RRP.Run(Empty(), b, events).table;
            && WellFormed(t) && ByUse(t.order, t.items)
            && (events != [] ==> HeardBy(t, events[|events| - 1].now))
  {
    hide Add, WellFormed;
    if events == [] {
      EmptyForm();
    } else {
      var prefix, e := events[..|events| - 1], events[|events| - 1];
      TableIsByUse(b, prefix);
      var t := RRP.Run(Empty(), b, prefix).table;
      assert HeardBy(t, e.now);
      AddByUse(t, b, e);
      RRP.AddLocal(t, b, e);
    }
  }

  // ------------------------------------------------------------ the replay cache

  // No more answers than the cache may hold, in all and for each peer.
  ghost predicate Bounded(c: P.Cache, lim: P.Limits) {
    && WellFormed(c) && |c.items| <= lim.maxEntries
    && forall peer :: |P.OfPeer(c, peer)| <= lim.maxPerPeer
  }

  lemma FewerBounded(c: P.Cache, d: P.Cache, lim: P.Limits)
    requires Bounded(c, lim) && WellFormed(d) && forall k :: k in d.items ==> k in c.items
    ensures Bounded(d, lim)
  {
    hide WellFormed;
    SubsetSize(d.items.Keys, c.items.Keys);
    assert |d.items| == |d.items.Keys| && |c.items| == |c.items.Keys|;
    forall peer
      ensures |P.OfPeer(d, peer)| <= lim.maxPerPeer
    {
      SubsetSize(P.OfPeer(d, peer), P.OfPeer(c, peer));
    }
  }

  lemma {:induction false} FirstKeysSize(keys: seq<Key>, n: nat)
    requires Distinct(keys) && n <= |keys|
    ensures |P.FirstKeys(keys, n)| == n
  {
    if n == 0 {
      assert P.FirstKeys(keys, 0) == {};
    } else {
      FirstKeysSize(keys, n - 1);
      assert P.FirstKeys(keys, n) == P.FirstKeys(keys, n - 1) + {keys[n - 1]};
    }
  }

  lemma WithoutSize<T>(a: set<T>, b: set<T>)
    requires b <= a
    ensures |a - b| == |a| - |b|
  {
    assert a == (a - b) + b;
  }

  lemma SurplusSize(c: P.Cache, peer: string, bound: nat)
    requires WellFormed(c)
    ensures var all, surplus := P.OfPeer(c, peer), P.Surplus(c, peer, bound);
            surplus <= all && |all| <= bound + |surplus|
  {
    hide Distinct, Select, P.FirstKeys;
    var keys := P.PeerKeys(c, peer);
    SelectUnique(c.order, P.OfPeer(c, peer));
    DistinctSize(keys, P.OfPeer(c, peer));
    if |keys| > bound {
      FirstKeysSize(keys, |keys| - bound);
      FirstKeysAmong(keys, |keys| - bound);
    }
  }

  lemma FirstKeysAmong(keys: seq<Key>, n: nat)
    requires n <= |keys|
    ensures forall k :: k in P.FirstKeys(keys, n) ==> k in keys
  {
  }

  lemma TrimmedFits(c: P.Cache, peer: string, bound: nat)
    requires WellFormed(c)
    ensures WellFormed(P.TrimPeer(c, peer, bound)) && |P.OfPeer(P.TrimPeer(c, peer, bound), peer)| <= bound
    ensures forall k :: k in P.TrimPeer(c, peer, bound).items ==> k in c.items
  {
    hide WellFormed, P.Surplus, Select;
    var all, surplus := P.OfPeer(c, peer), P.Surplus(c, peer, bound);
    RestrictKeepsForm(c, c.items.Keys - surplus);
    SurplusSize(c, peer, bound);
    WithoutSize(all, surplus);
    assert P.OfPeer(P.TrimPeer(c, peer, bound), peer) == all - surplus;
  }

  lemma RememberFits(c: P.Cache, lim: P.Limits, key: Key, request: Bytes, responses: seq<Bytes>, now: int)
    requires lim.Valid() && Bounded(c, lim)
    ensures Bounded(P.Remember(c, lim, key, request, responses, now), lim)
  {
    hide WellFormed, EvictBelow, P.TrimPeer, P.Surplus, Select;
    var put := Put(c, key, P.Answer(request, responses, now));
    var stored := MoveToEnd(put, key);
    PutKeepsForm(c, key, P.Answer(request, responses, now));
    MoveKeepsForm(put, key);
    TrimmedFits(stored, key.peer, lim.maxPerPeer);
    var trimmed := P.TrimPeer(stored, key.peer, lim.maxPerPeer);
    EvictKeepsForm(trimmed, lim.maxEntries + 1);
    var r := EvictBelow(trimmed, lim.maxEntries + 1);
    forall peer
      ensures |P.OfPeer(r, peer)| <= lim.maxPerPeer
    {
      if peer == key.peer {
        SubsetSize(P.OfPeer(r, peer), P.OfPeer(trimmed, peer));
      } else {
        SubsetSize(P.OfPeer(r, peer), P.OfPeer(c, peer));
      }
    }
  }

  // So it is after any uses of the cache.
  lemma {:induction false} CacheIsBounded(lim: P.Limits, events: seq<RP.Event>, n: nat)
    requires lim.Valid() && n <= |events|
    ensures Bounded(RP.After(lim, events, n), lim)
  {
    hide Bounded, P.Remember;
    if n == 0 {
      NoAnswers(lim);
    } else {
      CacheIsBounded(lim, events, n - 1);
      var c := RP.After(lim, events, n - 1);
      match events[n - 1]
      case Sweep(now) => AgedBounded(c, lim, now);
      case Lookup(key, now) => RecalledBounded(c, lim, key, now);
      case Store(key, request, responses, now) => RememberFits(c, lim, key, request, responses, now);
    }
  }

  lemma NoAnswers(lim: P.Limits)
    ensures Bounded(Empty(), lim)
  {
    var c: P.Cache := Empty();
    forall peer
      ensures |P.OfPeer(c, peer)| == 0
    {
      assert P.OfPeer(c, peer) == {};
    }
  }

  lemma AgedBounded(c: P.Cache, lim: P.Limits, now: int)
    requires Bounded(c, lim)
    ensures Bounded(P.Aged(c, lim.ttl, now), lim)
  {
    RestrictKeepsForm(c, P.Live(c, lim.ttl, now));
    FewerBounded(c, P.Aged(c, lim.ttl, now), lim);
  }

  lemma RecalledBounded(c: P.Cache, lim: P.Limits, key: Key, now: int)
    requires Bounded(c, lim)
    ensures Bounded(P.Recall(c, lim, key, now).cache, lim)
  {
    hide WellFormed, Select;
    AgedBounded(c, lim, now);
    var live := P.Aged(c, lim.ttl, now);
    if key in live.items {
      MoveKeepsForm(live, key);
      FewerBounded(live, MoveToEnd(live, key), lim);
    }
  }
}
