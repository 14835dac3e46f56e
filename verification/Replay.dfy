// Answers to completed requests, kept so that a repeated request is answered
// again without being executed again: expiring, and least recently used out.
module Replay {
  import opened Prelude
  import opened Ordered
  import opened Reassembly

  datatype Answer = Answer(request: Bytes, responses: seq<Bytes>, createdAt: int)

  type Cache = OrderedDict<Key, Answer>

  datatype Limits = Limits(ttl: int, maxEntries: nat, maxPerPeer: nat) {
    predicate Valid() {
      ttl > 0 && maxEntries > 0 && maxPerPeer > 0
    }
  }

  function Live(c: Cache, ttl: int, now: int): set<Key> {
    set k | k in c.items && now - c.items[k].createdAt < ttl
  }

  function Aged(c: Cache, ttl: int, now: int): Cache {
    Restrict(c, Live(c, ttl, now))
  }

  datatype Found = Found(cache: Cache, answer: Option<Answer>)

  function Recall(c: Cache, lim: Limits, key: Key, now: int): Found {
    var live := Aged(c, lim.ttl, now);
    if key in live.items then Found(MoveToEnd(live, key), Some(live.items[key])) else Found(live, None)
  }

  function OfPeer(c: Cache, peer: string): set<Key> {
    set k | k in c.items && k.peer == peer
  }

  // One peer's keys, least recently used first.
  function PeerKeys(c: Cache, peer: string): seq<Key> {
    Select(c.order, OfPeer(c, peer))
  }

  function FirstKeys(keys: seq<Key>, n: nat): set<Key>
    requires n <= |keys|
  {
    set i | 0 <= i < n :: keys[i]
  }

  function Surplus(c: Cache, peer: string, bound: nat): set<Key> {
    var keys := PeerKeys(c, peer);
    if |keys| <= bound then {} else FirstKeys(keys, |keys| - bound)
  }

  function TrimPeer(c: Cache, peer: string, bound: nat): Cache {
    Dropping(c, Surplus(c, peer, bound))
  }

  function Remember(c: Cache, lim: Limits, key: Key, request: Bytes, responses: seq<Bytes>, now: int): Cache {
    var stored := MoveToEnd(Put(c, key, Answer(request, responses, now)), key);
    EvictBelow(TrimPeer(stored, key.peer, lim.maxPerPeer), lim.maxEntries + 1)
  }

  class ReplayCache {
    const limits: Limits
    var entries: Cache

    constructor (limits: Limits)
      requires limits.Valid()
      ensures this.limits == limits && entries == Empty()
    {
      this.limits := limits;
      this.entries := Empty();
    }

    method Expire(now: int)
      requires WellFormed(entries)
      modifies this
      ensures WellFormed(entries) && entries == Aged(old(entries), limits.ttl, now)
    {
      hide Delete, Dropping, Restrict;
      var snapshot := entries;
      ghost var dropped: set<Key> := {};
      DropNothing(snapshot);
      for i := 0 to |snapshot.order|
        invariant entries == Dropping(snapshot, dropped)
        invariant dropped == DeadAmong(snapshot, snapshot.order[..i], limits.ttl, now)
      {
        var key := snapshot.order[i];
        assert snapshot.order[..i + 1] == snapshot.order[..i] + [key];
        assert key in snapshot.order;
        if now - snapshot.items[key].createdAt >= limits.ttl {
          DropOneMore(snapshot, dropped, key);
          dropped := dropped + {key};
          entries := Delete(entries, key);
        }
      }
      assert snapshot.order[..|snapshot.order|] == snapshot.order;
      DropIsRestrict(snapshot, dropped, Live(snapshot, limits.ttl, now));
    }

    ghost function DeadAmong(c: Cache, keys: seq<Key>, ttl: int, now: int): set<Key> {
      set k | k in keys && k in c.items && now - c.items[k].createdAt >= ttl
    }

    method Lookup(peer: string, transactionId: string, now: int) returns (answer: Option<Answer>)
      requires WellFormed(entries)
      modifies this
      ensures WellFormed(entries)
      ensures Found(entries, answer) == Recall(old(entries), limits, Key(peer, transactionId), now)
    {
      Expire(now);
      var key := Key(peer, transactionId);
      if key !in entries.items {
        return None;
      }
      answer := Some(entries.items[key]);
      MoveKeepsForm(entries, key);
      entries := MoveToEnd(entries, key);
    }

    method Store(peer: string, transactionId: string, request: Bytes, responses: seq<Bytes>, now: int)
      requires WellFormed(entries)
      modifies this
      ensures WellFormed(entries)
      ensures entries == Remember(old(entries), limits, Key(peer, transactionId), request, responses, now)
    {
      hide WellFormed, MoveToEnd, TrimPeer, EvictBelow;
      var key := Key(peer, transactionId);
      var answer := Answer(request, responses, now);
      assert key in Put(entries, key, answer).items;
      PutKeepsForm(entries, key, answer);
      entries := Put(entries, key, answer);
      MoveKeepsForm(entries, key);
      entries := MoveToEnd(entries, key);
      DropSurplus(peer);
      DropOldest();
    }

    method DropOldest()
      requires WellFormed(entries)
      modifies this
      ensures WellFormed(entries) && entries == EvictBelow(old(entries), limits.maxEntries + 1)
    {
      while |entries.items| > limits.maxEntries
        invariant WellFormed(entries)
        invariant EvictBelow(entries, limits.maxEntries + 1) == EvictBelow(old(entries), limits.maxEntries + 1)
        decreases |entries.items|
      {
        NonemptyOrder(entries);
        RestrictKeepsForm(entries, entries.items.Keys - {entries.order[0]});
        SmallerAfterDelete(entries, entries.order[0]);
        entries := Delete(entries, entries.order[0]);
      }
    }

    method DropSurplus(peer: string)
      requires WellFormed(entries)
      modifies this
      ensures WellFormed(entries) && entries == TrimPeer(old(entries), peer, limits.maxPerPeer)
    {
      hide Delete, Dropping, Restrict, PeerKeys;
      var stored := entries;
      var keys := PeerKeys(entries, peer);
      ghost var all := keys;
      assert FirstKeys(all, 0) == {};
      DropNothing(stored);
      while |keys| > limits.maxPerPeer
        invariant |keys| <= |all| && keys == all[|all| - |keys|..]
        invariant |keys| < |all| ==> |keys| >= limits.maxPerPeer
        invariant entries == Dropping(stored, FirstKeys(all, |all| - |keys|))
      {
        ghost var gone := |all| - |keys|;
        assert keys[0] == all[gone];
        DropOneMore(stored, FirstKeys(all, gone), keys[0]);
        assert FirstKeys(all, gone) + {all[gone]} == FirstKeys(all, gone + 1);
        entries := Delete(entries, keys[0]);
        keys := keys[1..];
      }
      ghost var dropped := FirstKeys(all, |all| - |keys|);
      DropIsRestrict(stored, dropped, stored.items.Keys - dropped);
    }
  }
}
