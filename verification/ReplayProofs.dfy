// An answer leaves the replay cache only by age or because enough other
// answers were used after it.
module ReplayProofs {
  import opened Prelude
  import opened Ordered
  import opened Reassembly
  import opened Replay

  datatype Event =
    | Sweep(now: int)
    | Lookup(key: Key, now: int)
    | Store(key: Key, request: Bytes, responses: seq<Bytes>, now: int)

  function Step(c: Cache, lim: Limits, e: Event): Cache {
    match e
    case Sweep(now) => Aged(c, lim.ttl, now)
    case Lookup(key, now) => Recall(c, lim, key, now).cache
    case Store(key, request, responses, now) => Remember(c, lim, key, request, responses, now)
  }

  // The cache after the first n events of a run that starts empty.
  function After(lim: Limits, events: seq<Event>, n: nat): Cache
    requires n <= |events|
  {
    if n == 0 then Empty() else Step(After(lim, events, n - 1), lim, events[n - 1])
  }

  // Event n refreshes k: it stores k, or looks k up and finds it.
  predicate Uses(lim: Limits, events: seq<Event>, n: nat, k: Key)
    requires n < |events|
  {
    match events[n]
    case Sweep(_) => false
    case Lookup(key, now) => key == k && Recall(After(lim, events, n), lim, key, now).answer.Some?
    case Store(key, _, _, _) => key == k
  }

  function LastUse(lim: Limits, events: seq<Event>, n: nat, k: Key): (u: int)
    requires n <= |events|
    ensures -1 <= u < n
    ensures u >= 0 ==> Uses(lim, events, u, k)
  {
    if n == 0 then -1
    else if Uses(lim, events, n - 1, k) then n - 1
    else LastUse(lim, events, n - 1, k)
  }

  ghost predicate Ranked(lim: Limits, events: seq<Event>, n: nat, order: seq<Key>)
    requires n <= |events|
  {
    forall a, b :: 0 <= a < b < |order| ==> LastUse(lim, events, n, order[a]) < LastUse(lim, events, n, order[b])
  }

  // Least recently used first: the order of the cache is the order of last use.
  ghost predicate Recency(lim: Limits, events: seq<Event>, n: nat)
    requires n <= |events|
  {
    var c := After(lim, events, n);
    WellFormed(c) && Ranked(lim, events, n, c.order)
  }

  lemma {:induction false} SelectRanked(lim: Limits, events: seq<Event>, n: nat, order: seq<Key>, keys: set<Key>)
    requires n <= |events| && Ranked(lim, events, n, order)
    ensures Ranked(lim, events, n, Select(order, keys))
  {
    if order == [] {
    } else {
      hide LastUse;
      var prefix, last := order[..|order| - 1], order[|order| - 1];
      SelectRanked(lim, events, n, prefix, keys);
      var inner := Select(prefix, keys);
      forall a | 0 <= a < |inner|
        ensures LastUse(lim, events, n, inner[a]) < LastUse(lim, events, n, last)
      {
        assert inner[a] in inner;
        var i :| 0 <= i < |prefix| && prefix[i] == inner[a];
        assert order[i] == inner[a];
      }
    }
  }

  // One more event leaves the ranks of all keys it does not use.
  lemma RanksKept(lim: Limits, events: seq<Event>, n: nat, order: seq<Key>)
    requires n < |events| && Ranked(lim, events, n, order)
    requires forall k :: k in order ==> !Uses(lim, events, n, k)
    ensures Ranked(lim, events, n + 1, order)
  {
    hide Uses;
    forall a, b | 0 <= a < b < |order|
      ensures LastUse(lim, events, n + 1, order[a]) < LastUse(lim, events, n + 1, order[b])
    {
      assert order[a] in order && order[b] in order;
    }
  }

  // A key used by the newest event ranks above everything.
  lemma NewestRanksLast(lim: Limits, events: seq<Event>, n: nat, order: seq<Key>, k: Key)
    requires n < |events| && Ranked(lim, events, n + 1, order) && k !in order
    requires Uses(lim, events, n, k) && forall x :: x in order ==> !Uses(lim, events, n, x)
    ensures Ranked(lim, events, n + 1, order + [k])
  {
    hide Uses;
    forall a | 0 <= a < |order|
      ensures LastUse(lim, events, n + 1, order[a]) < n
    {
      assert order[a] in order;
    }
  }

  lemma MovedRanked(lim: Limits, events: seq<Event>, n: nat, c: Cache, k: Key)
    requires n < |events| && WellFormed(c) && k in c.items && Ranked(lim, events, n, Select(c.order, c.items.Keys - {k}))
    requires forall x :: Uses(lim, events, n, x) <==> x == k
    ensures Ranked(lim, events, n + 1, MoveToEnd(c, k).order)
  {
    var rest := Select(c.order, c.items.Keys - {k});
    assert k !in rest;
    RanksKept(lim, events, n, rest);
    NewestRanksLast(lim, events, n, rest, k);
  }

  // The cache a Store event builds before it trims.
  function Stored(c: Cache, e: Event): Cache
    requires e.Store?
  {
    MoveToEnd(Put(c, e.key, Answer(e.request, e.responses, e.now)), e.key)
  }

  // What a Store event leaves, in two trimming steps.
  function Trimmed(lim: Limits, c: Cache, e: Event): Cache
    requires e.Store?
  {
    TrimPeer(Stored(c, e), e.key.peer, lim.maxPerPeer)
  }

  lemma AfterStore(lim: Limits, events: seq<Event>, n: nat)
    requires n < |events| && events[n].Store?
    ensures After(lim, events, n + 1) == EvictBelow(Trimmed(lim, After(lim, events, n), events[n]), lim.maxEntries + 1)
  {
    hide EvictBelow, TrimPeer, MoveToEnd, Put;
  }

  lemma TrimmedRanked(lim: Limits, events: seq<Event>, n: nat)
    requires n < |events| && events[n].Store? && Recency(lim, events, n)
    ensures var d := Trimmed(lim, After(lim, events, n), events[n]);
            WellFormed(d) && Ranked(lim, events, n + 1, d.order)
  {
    hide After, LastUse, Surplus, Stored;
    StoredRanked(lim, events, n);
    var s := Stored(After(lim, events, n), events[n]);
    var surplus := Surplus(s, events[n].key.peer, lim.maxPerPeer);
    RestrictKeepsForm(s, s.items.Keys - surplus);
    SelectRanked(lim, events, n + 1, s.order, s.items.Keys - surplus);
  }

  lemma StoredRanked(lim: Limits, events: seq<Event>, n: nat)
    requires n < |events| && events[n].Store? && Recency(lim, events, n)
    ensures var s := Stored(After(lim, events, n), events[n]);
            WellFormed(s) && Ranked(lim, events, n + 1, s.order)
  {
    var c, e := After(lim, events, n), events[n];
    var answer := Answer(e.request, e.responses, e.now);
    var put := Put(c, e.key, answer);
    PutKeepsForm(c, e.key, answer);
    MoveKeepsForm(put, e.key);
    SelectSame(put.order, put.items.Keys - {e.key}, c.items.Keys - {e.key});
    SelectRanked(lim, events, n, c.order, c.items.Keys - {e.key});
    SelectPut(c, e.key, answer);
    MovedRanked(lim, events, n, put, e.key);
  }

  lemma SelectPut(c: Cache, k: Key, answer: Answer)
    requires WellFormed(c)
    ensures Select(Put(c, k, answer).order, c.items.Keys - {k}) == Select(c.order, c.items.Keys - {k})
  {
    if k !in c.items {
      assert (c.order + [k])[..|c.order|] == c.order;
    }
  }

  // --------------------------------------------------- what eviction removes

  lemma {:induction false} EvictIsRestrict(d: Cache, bound: nat)
    requires bound > 0 && WellFormed(d)
    ensures EvictBelow(d, bound) == Restrict(d, EvictBelow(d, bound).items.Keys)
    decreases |d.items|
  {
    if |d.items| < bound || d.order == [] || d.order[0] !in d.items {
      RestrictAll(d, d.items.Keys);
    } else {
      var k := d.order[0];
      SmallerAfterDelete(d, k);
      RestrictKeepsForm(d, d.items.Keys - {k});
      EvictIsRestrict(Delete(d, k), bound);
      EvictKeepsForm(Delete(d, k), bound);
      var kept := EvictBelow(Delete(d, k), bound).items.Keys;
      RestrictRestrict(d, d.items.Keys - {k}, kept);
      assert (d.items.Keys - {k}) * kept == kept;
    }
  }

  lemma {:induction false} SelectWithoutFirst(order: seq<Key>, keys: set<Key>)
    requires order != [] && Distinct(order)
    requires forall k :: k in order ==> (k in keys <==> k != order[0])
    ensures Select(order, keys) == order[1..]
  {
    var last := |order| - 1;
    if last == 0 {
      assert order[..0] == [];
    } else {
      var prefix := order[..last];
      forall k | k in prefix
        ensures k in keys <==> k != prefix[0]
      {
        assert k in order;
      }
      SelectWithoutFirst(prefix, keys);
      assert order[last] in order;
      assert prefix[1..] + [order[last]] == order[1..];
    }
  }

  // An entry evicted for space had at least bound - 1 entries behind it.
  lemma {:induction false} EvictedWasOld(d: Cache, bound: nat, k: Key) returns (a: nat)
    requires bound > 0 && WellFormed(d) && k in d.items && k !in EvictBelow(d, bound).items
    ensures a < |d.order| && d.order[a] == k && |d.order| - a >= bound
    decreases |d.items|
  {
    hide WellFormed, Delete, EvictBelow;
    OrderLength(d);
    OldestFirst(d, bound, k);
    var first := d.order[0];
    if k == first {
      a := 0;
    } else {
      SmallerAfterDelete(d, first);
      FirstDeleted(d);
      a := EvictedWasOld(Delete(d, first), bound, k);
      a := a + 1;
    }
  }

  // Where evicting anything begins.
  lemma OldestFirst(d: Cache, bound: nat, k: Key)
    requires bound > 0 && WellFormed(d) && k in d.items && k !in EvictBelow(d, bound).items
    ensures |d.items| >= bound && d.order != [] && d.order[0] in d.items
    ensures EvictBelow(d, bound) == EvictBelow(Delete(d, d.order[0]), bound)
  {
    hide Delete;
    NonemptyOrder(d);
  }

  lemma FirstDeleted(d: Cache)
    requires WellFormed(d) && d.order != []
    ensures WellFormed(Delete(d, d.order[0])) && Delete(d, d.order[0]).order == d.order[1..]
    ensures forall k :: k in d.items && k != d.order[0] ==> k in Delete(d, d.order[0]).items
  {
    RestrictKeepsForm(d, d.items.Keys - {d.order[0]});
    SelectWithoutFirst(d.order, d.items.Keys - {d.order[0]});
  }

  lemma OrderLength(d: Cache)
    requires WellFormed(d)
    ensures |d.order| == |d.items|
  {
    SeqSetSize(d.order, 0);
    assert Suffix(d.order, 0) == d.items.Keys;
  }

  function Suffix(s: seq<Key>, lo: nat): set<Key>
    requires lo <= |s|
  {
    set i | lo <= i < |s| :: s[i]
  }

  lemma {:induction false} SeqSetSize(s: seq<Key>, lo: nat)
    requires lo <= |s| && Distinct(s)
    ensures |Suffix(s, lo)| == |s| - lo
    decreases |s| - lo
  {
    if lo == |s| {
      assert Suffix(s, lo) == {};
    } else {
      SeqSetSize(s, lo + 1);
      assert Suffix(s, lo) == Suffix(s, lo + 1) + {s[lo]};
    }
  }

  // ------------------------------------------------------------- the invariant

  lemma {:induction false} RecencyHolds(lim: Limits, events: seq<Event>, n: nat)
    requires lim.Valid() && n <= |events|
    ensures Recency(lim, events, n)
  {
    hide Recency;
    if n == 0 {
      RecencyStarts(lim, events);
    } else {
      RecencyHolds(lim, events, n - 1);
      RecencyStep(lim, events, n - 1);
    }
  }

  lemma RecencyStarts(lim: Limits, events: seq<Event>)
    ensures Recency(lim, events, 0)
  {
  }

  lemma RecencyStep(lim: Limits, events: seq<Event>, n: nat)
    requires lim.Valid() && n < |events| && Recency(lim, events, n)
    ensures Recency(lim, events, n + 1)
  {
    var c := After(lim, events, n);
    match events[n]
    case Sweep(now) => SweepStep(lim, events, n, now);
    case Lookup(key, now) => LookupStep(lim, events, n, key, now);
    case Store(_, _, _, _) => StoreStep(lim, events, n);
  }

  lemma SweepStep(lim: Limits, events: seq<Event>, n: nat, now: int)
    requires n < |events| && Recency(lim, events, n) && events[n] == Sweep(now)
    ensures Recency(lim, events, n + 1)
  {
    var c := After(lim, events, n);
    RestrictKeepsForm(c, Live(c, lim.ttl, now));
    SelectRanked(lim, events, n, c.order, Live(c, lim.ttl, now));
    RanksKept(lim, events, n, Aged(c, lim.ttl, now).order);
  }

  lemma LookupStep(lim: Limits, events: seq<Event>, n: nat, key: Key, now: int)
    requires n < |events| && Recency(lim, events, n) && events[n] == Lookup(key, now)
    ensures Recency(lim, events, n + 1)
  {
    var c := After(lim, events, n);
    var live := Aged(c, lim.ttl, now);
    RestrictKeepsForm(c, Live(c, lim.ttl, now));
    SelectRanked(lim, events, n, c.order, Live(c, lim.ttl, now));
    if key in live.items {
      SelectRanked(lim, events, n, live.order, live.items.Keys - {key});
      MoveKeepsForm(live, key);
      MovedRanked(lim, events, n, live, key);
    } else {
      RanksKept(lim, events, n, live.order);
    }
  }

  lemma StoreStep(lim: Limits, events: seq<Event>, n: nat)
    requires lim.Valid() && n < |events| && Recency(lim, events, n) && events[n].Store?
    ensures Recency(lim, events, n + 1)
  {
    hide After, LastUse, Trimmed, EvictBelow;
    var d := Trimmed(lim, After(lim, events, n), events[n]);
    AfterStore(lim, events, n);
    TrimmedRanked(lim, events, n);
    EvictKeepsForm(d, lim.maxEntries + 1);
    EvictIsRestrict(d, lim.maxEntries + 1);
    SelectRanked(lim, events, n + 1, d.order, EvictBelow(d, lim.maxEntries + 1).items.Keys);
  }

  // --------------------------------------------------------------- the theorem

  predicate IsUse(lim: Limits, events: seq<Event>, m: nat)
    requires m < |events|
  {
    !events[m].Sweep? && Uses(lim, events, m, events[m].key)
  }

  // The keys refreshed by some event strictly between u and n.
  function UsedBetween(lim: Limits, events: seq<Event>, u: nat, n: nat): set<Key>
    requires n <= |events|
  {
    set m: nat | u < m < n && IsUse(lim, events, m) :: events[m].key
  }

  function SamePeer(keys: set<Key>, peer: string): set<Key> {
    set k | k in keys && k.peer == peer
  }

  // Since event u, enough other keys were refreshed to push k out.
  predicate Crowd(lim: Limits, events: seq<Event>, k: Key, u: nat, n: nat)
    requires n <= |events|
  {
    var others := UsedBetween(lim, events, u, n) - {k};
    |SamePeer(others, k.peer)| >= lim.maxPerPeer || |others| >= lim.maxEntries
  }

  // Stored at event i and refreshed since or not, k came to be the least
  // recently used: the crowd is counted from its very last use.
  ghost predicate CrowdedOut(lim: Limits, events: seq<Event>, k: Key, i: nat, n: nat)
    requires n <= |events|
  {
    var u := LastUse(lim, events, n, k);
    u >= i && Crowd(lim, events, k, u, n)
  }

  ghost predicate AgedOut(lim: Limits, events: seq<Event>, i: nat, n: nat)
    requires i < n <= |events|
  {
    exists m :: i < m < n && !events[m].Store? && events[m].now - events[i].now >= lim.ttl
  }

  lemma HigherRankWasUsed(lim: Limits, events: seq<Event>, n: nat, k: Key, u: nat)
    requires n <= |events| && LastUse(lim, events, n, k) > u
    ensures k in UsedBetween(lim, events, u, n)
  {
    var m := LastUse(lim, events, n, k);
    assert IsUse(lim, events, m);
  }

  lemma BehindWasUsed(lim: Limits, events: seq<Event>, n: nat, order: seq<Key>, a: nat)
    requires n <= |events| && Ranked(lim, events, n, order) && a < |order|
    requires LastUse(lim, events, n, order[a]) >= 0
    ensures Suffix(order, a + 1) <= UsedBetween(lim, events, LastUse(lim, events, n, order[a]), n) - {order[a]}
  {
    hide LastUse;
    forall x | x in Suffix(order, a + 1)
      ensures x in UsedBetween(lim, events, LastUse(lim, events, n, order[a]), n) - {order[a]}
    {
      HigherRankWasUsed(lim, events, n, x, LastUse(lim, events, n, order[a]));
    }
  }

  // A Store drops another key only when that key was crowded out.
  lemma DroppedByStore(lim: Limits, events: seq<Event>, n: nat, k: Key)
    requires lim.Valid() && n < |events| && events[n].Store? && events[n].key != k && Recency(lim, events, n)
    requires k in After(lim, events, n).items && k !in After(lim, events, n + 1).items
    requires LastUse(lim, events, n, k) >= 0
    ensures Crowd(lim, events, k, LastUse(lim, events, n, k), n + 1)
  {
    hide After, LastUse, Surplus, EvictBelow, Crowd, Ranked, Recency, Trimmed, Uses;
    var c, e := After(lim, events, n), events[n];
    LastUseKept(lim, events, n, k);
    AfterStore(lim, events, n);
    StoredRanked(lim, events, n);
    TrimmedRanked(lim, events, n);
    if k in Surplus(Stored(c, e), e.key.peer, lim.maxPerPeer) {
      SurplusWasOld(lim, events, n + 1, Stored(c, e), e.key.peer, k);
    } else {
      TrimKeeps(lim, c, e, k);
      EvictedCrowd(lim, events, n + 1, Trimmed(lim, c, e), k);
    }
  }

  lemma LastUseKept(lim: Limits, events: seq<Event>, n: nat, k: Key)
    requires n < |events| && events[n].Store? && events[n].key != k
    ensures LastUse(lim, events, n + 1, k) == LastUse(lim, events, n, k)
  {
  }

  lemma TrimKeeps(lim: Limits, c: Cache, e: Event, k: Key)
    requires e.Store? && k in c.items && k !in Surplus(Stored(c, e), e.key.peer, lim.maxPerPeer)
    ensures k in Trimmed(lim, c, e).items
  {
    hide Surplus;
  }

  lemma SurplusWasOld(lim: Limits, events: seq<Event>, n: nat, s: Cache, peer: string, k: Key)
    requires n <= |events| && WellFormed(s) && Ranked(lim, events, n, s.order)
    requires k in Surplus(s, peer, lim.maxPerPeer) && LastUse(lim, events, n, k) >= 0
    ensures Crowd(lim, events, k, LastUse(lim, events, n, k), n)
  {
    hide LastUse, UsedBetween, Suffix, Ranked;
    var keys := PeerKeys(s, peer);
    SelectUnique(s.order, OfPeer(s, peer));
    SelectRanked(lim, events, n, s.order, OfPeer(s, peer));
    var a :| 0 <= a < |keys| - lim.maxPerPeer && keys[a] == k;
    BehindWasUsed(lim, events, n, keys, a);
    SeqSetSize(keys, a + 1);
    PeerSuffix(s, peer, a);
    var others := UsedBetween(lim, events, LastUse(lim, events, n, k), n) - {k};
    SubsetSize(Suffix(keys, a + 1), SamePeer(others, k.peer));
  }

  lemma PeerSuffix(s: Cache, peer: string, a: nat)
    requires a < |PeerKeys(s, peer)|
    ensures PeerKeys(s, peer)[a].peer == peer
    ensures forall x :: x in Suffix(PeerKeys(s, peer), a + 1) ==> x.peer == peer
  {
    var keys := PeerKeys(s, peer);
    assert keys[a] in keys;
    forall x | x in Suffix(keys, a + 1)
      ensures x.peer == peer
    {
      assert x in keys;
    }
  }

  lemma FormDistinct(d: Cache)
    requires WellFormed(d)
    ensures Distinct(d.order)
  {
  }

  lemma EvictedCrowd(lim: Limits, events: seq<Event>, n: nat, d: Cache, k: Key)
    requires n <= |events| && WellFormed(d) && Ranked(lim, events, n, d.order)
    requires k in d.items && k !in EvictBelow(d, lim.maxEntries + 1).items && LastUse(lim, events, n, k) >= 0
    ensures Crowd(lim, events, k, LastUse(lim, events, n, k), n)
  {
    hide LastUse, UsedBetween, Suffix, Ranked, EvictBelow, WellFormed, SamePeer, Distinct;
    var a := EvictedWasOld(d, lim.maxEntries + 1, k);
    FormDistinct(d);
    BehindWasUsed(lim, events, n, d.order, a);
    SeqSetSize(d.order, a + 1);
    SubsetSize(Suffix(d.order, a + 1), UsedBetween(lim, events, LastUse(lim, events, n, k), n) - {k});
  }

  // A key just stored is never dropped by its own trimming.
  lemma StoredStays(lim: Limits, events: seq<Event>, n: nat)
    requires lim.Valid() && n < |events| && events[n].Store? && Recency(lim, events, n)
    ensures var e := events[n];
            var c := After(lim, events, n + 1);
            e.key in c.items && c.items[e.key] == Answer(e.request, e.responses, e.now)
  {
    hide After, Surplus, EvictBelow, Ranked, WellFormed, Dropping;
    var e := events[n];
    var s := Stored(After(lim, events, n), e);
    AfterStore(lim, events, n);
    StoredRanked(lim, events, n);
    TrimmedRanked(lim, events, n);
    LastNotSurplus(s, e.key, lim.maxPerPeer);
    LastStaysLast(s, Surplus(s, e.key.peer, lim.maxPerPeer), e.key);
    LastSurvives(Trimmed(lim, After(lim, events, n), e), e.key, lim.maxEntries + 1);
  }

  lemma LastSurvives(d: Cache, k: Key, bound: nat)
    requires WellFormed(d) && d.order != [] && d.order[|d.order| - 1] == k && k in d.items && bound > 1
    ensures k in EvictBelow(d, bound).items && EvictBelow(d, bound).items[k] == d.items[k]
  {
    hide EvictBelow;
    EvictKeepsForm(d, bound);
    if k !in EvictBelow(d, bound).items {
      var a := EvictedWasOld(d, bound, k);
    }
  }

  lemma LastNotSurplus(s: Cache, k: Key, bound: nat)
    requires WellFormed(s) && s.order != [] && s.order[|s.order| - 1] == k && bound > 0
    ensures k !in Surplus(s, k.peer, bound)
  {
    var keys := PeerKeys(s, k.peer);
    SelectUnique(s.order, OfPeer(s, k.peer));
    assert k in s.order;
    assert keys[|keys| - 1] == k;
  }

  lemma LastStaysLast(s: Cache, dropped: set<Key>, k: Key)
    requires WellFormed(s) && s.order != [] && s.order[|s.order| - 1] == k && k !in dropped
    ensures var d := Dropping(s, dropped);
            k in d.items && d.order != [] && d.order[|d.order| - 1] == k && d.items[k] == s.items[k]
  {
    assert k in s.order;
  }

  // An answer that is present is the one last stored, unchanged.
  lemma {:induction false} PresentIsOriginal(lim: Limits, events: seq<Event>, i: nat, n: nat)
    requires lim.Valid() && i < n <= |events| && events[i].Store?
    requires forall m :: i < m < n && events[m].Store? ==> events[m].key != events[i].key
    requires events[i].key in After(lim, events, n).items
    ensures After(lim, events, n).items[events[i].key] == Answer(events[i].request, events[i].responses, events[i].now)
    ensures LastUse(lim, events, n, events[i].key) >= i
  {
    hide After, Recency;
    RecencyHolds(lim, events, i);
    if n == i + 1 {
      StoredStays(lim, events, i);
    } else {
      KeptValue(lim, events, n - 1, events[i].key);
      PresentIsOriginal(lim, events, i, n - 1);
    }
  }

  // A key present after an event that did not store it was there before.
  lemma KeptValue(lim: Limits, events: seq<Event>, n: nat, k: Key)
    requires lim.Valid() && n < |events| && k in After(lim, events, n + 1).items
    requires events[n].Store? ==> events[n].key != k
    ensures k in After(lim, events, n).items
    ensures After(lim, events, n + 1).items[k] == After(lim, events, n).items[k]
  {
    if events[n].Store? {
      hide After, EvictBelow, Surplus, Recency;
      RecencyHolds(lim, events, n);
      TrimmedRanked(lim, events, n);
      AfterStore(lim, events, n);
      EvictKeepsForm(Trimmed(lim, After(lim, events, n), events[n]), lim.maxEntries + 1);
    }
  }

  lemma CrowdGrows(lim: Limits, events: seq<Event>, k: Key, u: nat, n: nat)
    requires n < |events| && Crowd(lim, events, k, u, n)
    ensures Crowd(lim, events, k, u, n + 1)
  {
    var before := UsedBetween(lim, events, u, n) - {k};
    var after := UsedBetween(lim, events, u, n + 1) - {k};
    SubsetSize(before, after);
    SubsetSize(SamePeer(before, k.peer), SamePeer(after, k.peer));
  }

  // The event that makes a stored answer disappear.
  lemma FirstMiss(lim: Limits, events: seq<Event>, i: nat, n: nat)
    requires lim.Valid() && i < n < |events| && events[i].Store?
    requires forall m :: i < m <= n && events[m].Store? ==> events[m].key != events[i].key
    requires events[i].key in After(lim, events, n).items && events[i].key !in After(lim, events, n + 1).items
    ensures AgedOut(lim, events, i, n + 1) || CrowdedOut(lim, events, events[i].key, i, n + 1)
  {
    hide EvictBelow, Recency, Crowd, LastUse, Uses;
    var k := events[i].key;
    RecencyHolds(lim, events, n);
    PresentIsOriginal(lim, events, i, n);
    if events[n].Store? {
      hide After;
      DroppedByStore(lim, events, n, k);
      LastUseKept(lim, events, n, k);
    } else {
      GoneByAge(lim, events, n, k);
      assert events[n].now - events[i].now >= lim.ttl;
    }
  }

  lemma GoneByAge(lim: Limits, events: seq<Event>, n: nat, k: Key)
    requires n < |events| && !events[n].Store?
    requires k in After(lim, events, n).items && k !in After(lim, events, n + 1).items
    ensures events[n].now - After(lim, events, n).items[k].createdAt >= lim.ttl
  {
  }

  // A key that is absent is refreshed by nothing but being stored.
  lemma AbsentUnused(lim: Limits, events: seq<Event>, n: nat, k: Key)
    requires n < |events| && k !in After(lim, events, n).items
    requires events[n].Store? ==> events[n].key != k
    ensures LastUse(lim, events, n + 1, k) == LastUse(lim, events, n, k)
  {
    hide After;
  }

  // Once stored, an answer is missing only if some sweep or lookup came at
  // least the time-to-live later, or if after its last use, whenever that was,
  // as many other answers were used as the cache may hold.
  lemma {:induction false} MissHasReason(lim: Limits, events: seq<Event>, i: nat, n: nat)
    requires lim.Valid() && i < n <= |events| && events[i].Store?
    requires forall m :: i < m < n && events[m].Store? ==> events[m].key != events[i].key
    requires events[i].key !in After(lim, events, n).items
    ensures AgedOut(lim, events, i, n) || CrowdedOut(lim, events, events[i].key, i, n)
  {
    hide After, Crowd, Uses, LastUse;
    var k := events[i].key;
    if n == i + 1 {
      RecencyHolds(lim, events, i);
      StoredStays(lim, events, i);
    } else if k !in After(lim, events, n - 1).items {
      MissHasReason(lim, events, i, n - 1);
      if CrowdedOut(lim, events, k, i, n - 1) {
        AbsentUnused(lim, events, n - 1, k);
        CrowdGrows(lim, events, k, LastUse(lim, events, n - 1, k), n - 1);
      }
    } else {
      FirstMiss(lim, events, i, n - 1);
    }
  }

  // ------------------------------------------------------------- aged answers

  // And an answer that aged is gone: it is never found again until stored anew.
  lemma {:induction false} AgedIsGone(lim: Limits, events: seq<Event>, i: nat, n: nat)
    requires lim.Valid() && i < n <= |events| && events[i].Store?
    requires forall m :: i < m < n && events[m].Store? ==> events[m].key != events[i].key
    requires AgedOut(lim, events, i, n)
    ensures events[i].key !in After(lim, events, n).items
  {
    hide After;
    var k := events[i].key;
    if k in After(lim, events, n).items {
      if n == i + 1 {
        assert false;
      }
      KeptValue(lim, events, n - 1, k);
      if AgedOut(lim, events, i, n - 1) {
        AgedIsGone(lim, events, i, n - 1);
        assert false;
      }
      PresentIsOriginal(lim, events, i, n - 1);
      SurvivorIsYoung(lim, events, n - 1, k);
      assert false;
    }
  }

  // What outlives housekeeping is younger than the time-to-live.
  lemma SurvivorIsYoung(lim: Limits, events: seq<Event>, n: nat, k: Key)
    requires n < |events| && !events[n].Store? && k in After(lim, events, n + 1).items
    ensures k in After(lim, events, n).items && events[n].now - After(lim, events, n).items[k].createdAt < lim.ttl
  {
  }

  lemma {:induction false} PresentWasStored(lim: Limits, events: seq<Event>, n: nat, k: Key) returns (i: nat)
    requires lim.Valid() && n <= |events| && k in After(lim, events, n).items
    ensures i < n && events[i].Store? && events[i].key == k
    ensures forall m :: i < m < n && events[m].Store? ==> events[m].key != k
  {
    hide After;
    NothingAtFirst(lim, events);
    i := 0;
    if n > 0 && events[n - 1].Store? && events[n - 1].key == k {
      i := n - 1;
    } else if n > 0 {
      KeptValue(lim, events, n - 1, k);
      i := PresentWasStored(lim, events, n - 1, k);
    }
  }

  lemma NothingAtFirst(lim: Limits, events: seq<Event>)
    ensures After(lim, events, 0) == Empty()
  {
  }

  // Whenever an answer is found it is the one stored last for that key, and
  // younger than the time-to-live.
  lemma AnswerIsFresh(lim: Limits, events: seq<Event>, n: nat, k: Key, now: int) returns (i: nat)
    requires lim.Valid() && n <= |events| && Recall(After(lim, events, n), lim, k, now).answer.Some?
    ensures i < n && events[i].Store? && events[i].key == k && now - events[i].now < lim.ttl
    ensures forall m :: i < m < n && events[m].Store? ==> events[m].key != k
    ensures Recall(After(lim, events, n), lim, k, now).answer == Some(Answer(events[i].request, events[i].responses, events[i].now))
  {
    hide After;
    i := PresentWasStored(lim, events, n, k);
    PresentIsOriginal(lim, events, i, n);
  }

  // An answer just stored is found.
  lemma JustStored(c: Cache, lim: Limits, key: Key, request: Bytes, responses: seq<Bytes>, now: int)
    requires lim.Valid() && WellFormed(c)
    ensures Recall(Remember(c, lim, key, request, responses, now), lim, key, now).answer == Some(Answer(request, responses, now))
    ensures WellFormed(Remember(c, lim, key, request, responses, now))
  {
    hide Surplus, EvictBelow, Dropping, WellFormed, Select;
    var put := Put(c, key, Answer(request, responses, now));
    var stored := MoveToEnd(put, key);
    PutKeepsForm(c, key, Answer(request, responses, now));
    MoveKeepsForm(put, key);
    LastNotSurplus(stored, key, lim.maxPerPeer);
    var dropped := Surplus(stored, key.peer, lim.maxPerPeer);
    LastStaysLast(stored, dropped, key);
    DropIsRestrict(stored, dropped, stored.items.Keys - dropped);
    LastSurvives(Dropping(stored, dropped), key, lim.maxEntries + 1);
    EvictKeepsForm(Dropping(stored, dropped), lim.maxEntries + 1);
  }
}
