// Bounded, expiring reassembly of fragments into frames.
module Reassembly {
  import opened Prelude
  import opened Ordered
  import opened Codec
  import opened Carriage

  datatype Key = Key(peer: string, transactionId: string)

  datatype Part = Text(text: string) | Raw(bytes: Bytes)

  datatype Assembly = Assembly(total: int, firstSeen: int, lastSeen: int, version: nat, parts: map<int, Part>)

  type Table = OrderedDict<Key, Assembly>

  // `decodeText` is the Q1 decoder, `None` where it raises.
  datatype Bounds = Bounds(ttl: int, maxEntries: nat, decodeText: string -> Option<Bytes>) {
    predicate Valid() {
      ttl > 0 && maxEntries > 0
    }
  }

  datatype AddResult = Waiting | Complete(frame: Bytes) | Conflict | Invalid

  predicate Stale(a: Assembly, ttl: int, now: int) {
    now - a.lastSeen >= ttl
  }

  function Fresh(t: Table, ttl: int, now: int): set<Key> {
    set k | k in t.items && !Stale(t.items[k], ttl, now)
  }

  function Expired(t: Table, ttl: int, now: int): Table {
    Restrict(t, Fresh(t, ttl, now))
  }

  // The table an arriving fragment finds: stale entries gone and, if its own
  // entry has to be created, room made by dropping the oldest.
  function Prepared(t: Table, b: Bounds, key: Key, now: int): Table
    requires b.Valid()
  {
    var live := Expired(t, b.ttl, now);
    if key in live.items then live else EvictBelow(live, b.maxEntries)
  }

  function PartOf(f: Fragment): Option<Part> {
    if f.version == 2 then (if f.rawData.None? then None else Some(Raw(f.rawData.value)))
    else Some(Text(f.data))
  }

  function PartBytes(parts: map<int, Part>, i: int): Bytes {
    if i in parts && parts[i].Raw? then parts[i].bytes else []
  }

  function PartText(parts: map<int, Part>, i: int): string {
    if i in parts && parts[i].Text? then parts[i].text else ""
  }

  function JoinBytes(parts: map<int, Part>, n: nat): Bytes {
    if n == 0 then [] else JoinBytes(parts, n - 1) + PartBytes(parts, n - 1)
  }

  function JoinText(parts: map<int, Part>, n: nat): string {
    if n == 0 then "" else JoinText(parts, n - 1) + PartText(parts, n - 1)
  }

  function Assembled(a: Assembly, b: Bounds): AddResult {
    var n := if a.total < 0 then 0 else a.total;
    if a.version == 2 then
      (if DecodeFrameWithFlags(JoinBytes(a.parts, n)).Ok? then Complete(JoinBytes(a.parts, n)) else Invalid)
    else match b.decodeText(JoinText(a.parts, n))
      case None => Invalid
      case Some(frame) => Complete(frame)
  }

  datatype Added = Added(table: Table, result: AddResult)

  function Add(t: Table, b: Bounds, peer: string, f: Fragment, now: int): Added
    requires b.Valid()
  {
    var key := Key(peer, f.transactionId);
    var ready := Prepared(t, b, key, now);
    if key in ready.items && (ready.items[key].total != f.total || ready.items[key].version != f.version) then
      Added(Delete(ready, key), Conflict)
    else
      var entry := if key in ready.items then ready.items[key] else Assembly(f.total, now, now, f.version, map[]);
      Placed(Put(ready, key, entry), b, key, entry, f, now)
  }

  function Grown(entry: Assembly, index: int, part: Part, now: int): Assembly {
    entry.(parts := entry.parts[index := part], lastSeen := now)
  }

  function Recorded(t: Table, key: Key, entry: Assembly): Table {
    MoveToEnd(Put(t, key, entry), key)
  }

  // The rest of `add`, once `entry` stands in the table under `key`.
  function Placed(t: Table, b: Bounds, key: Key, entry: Assembly, f: Fragment, now: int): Added {
    var part := PartOf(f);
    if part.None? then Added(Delete(t, key), Invalid)
    else if f.index in entry.parts && entry.parts[f.index] != part.value then Added(Delete(t, key), Conflict)
    else
      var grown := Grown(entry, f.index, part.value, now);
      var moved := Recorded(t, key, grown);
      if |grown.parts| != grown.total then Added(moved, Waiting)
      else Added(Delete(moved, key), Assembled(grown, b))
  }

  class Reassembler {
    const bounds: Bounds
    var entries: Table

    constructor (bounds: Bounds)
      requires bounds.Valid()
      ensures this.bounds == bounds && entries == Empty()
    {
      this.bounds := bounds;
      this.entries := Empty();
    }

    method Expire(now: int)
      requires WellFormed(entries)
      modifies this
      ensures WellFormed(entries) && entries == Expired(old(entries), bounds.ttl, now)
    {
      hide Delete, Dropping, Restrict;
      var snapshot := entries;
      ghost var dropped: set<Key> := {};
      DropNothing(snapshot);
      for i := 0 to |snapshot.order|
        invariant entries == Dropping(snapshot, dropped)
        invariant dropped == StaleAmong(snapshot, snapshot.order[..i], bounds.ttl, now)
      {
        var key := snapshot.order[i];
        assert snapshot.order[..i + 1] == snapshot.order[..i] + [key];
        assert key in snapshot.order;
        if now - snapshot.items[key].lastSeen >= bounds.ttl {
          DropOneMore(snapshot, dropped, key);
          dropped := dropped + {key};
          entries := Delete(entries, key);
        }
      }
      assert snapshot.order[..|snapshot.order|] == snapshot.order;
      DropIsRestrict(snapshot, dropped, Fresh(snapshot, bounds.ttl, now));
    }

    ghost function StaleAmong(t: Table, keys: seq<Key>, ttl: int, now: int): set<Key> {
      set k | k in keys && k in t.items && Stale(t.items[k], ttl, now)
    }

    method Receive(peer: string, fragment: Fragment, now: int) returns (r: AddResult)
      requires bounds.Valid() && WellFormed(entries)
      modifies this
      ensures WellFormed(entries)
      ensures Added(entries, r) == Add(old(entries), bounds, peer, fragment, now)
    {
      Expire(now);
      var key := Key(peer, fragment.transactionId);
      var entry;
      if key !in entries.items {
        MakeRoom();
        entry := Assembly(fragment.total, now, now, fragment.version, map[]);
        PutKeepsForm(entries, key, entry);
        entries := Put(entries, key, entry);
      } else {
        entry := entries.items[key];
        if entry.total != fragment.total || entry.version != fragment.version {
          RestrictKeepsForm(entries, entries.items.Keys - {key});
          entries := Delete(entries, key);
          return Conflict;
        }
        assert Put(entries, key, entry) == entries;
      }
      r := Place(key, entry, fragment, now);
    }

    method MakeRoom()
      requires bounds.Valid() && WellFormed(entries)
      modifies this
      ensures WellFormed(entries) && entries == EvictBelow(old(entries), bounds.maxEntries)
      ensures forall k :: k in entries.items ==> k in old(entries).items
    {
      while |entries.items| >= bounds.maxEntries
        invariant WellFormed(entries)
        invariant EvictBelow(entries, bounds.maxEntries) == EvictBelow(old(entries), bounds.maxEntries)
        invariant forall k :: k in entries.items ==> k in old(entries).items
        decreases |entries.items|
      {
        NonemptyOrder(entries);
        RestrictKeepsForm(entries, entries.items.Keys - {entries.order[0]});
        SmallerAfterDelete(entries, entries.order[0]);
        entries := Delete(entries, entries.order[0]);
      }
    }

    method Place(key: Key, entry: Assembly, f: Fragment, now: int) returns (r: AddResult)
      requires WellFormed(entries) && key in entries.items && entries.items[key] == entry
      modifies this
      ensures WellFormed(entries)
      ensures Added(entries, r) == Placed(old(entries), bounds, key, entry, f, now)
    {
      var part := PartOf(f);
      if part.None? {
        RestrictKeepsForm(entries, entries.items.Keys - {key});
        entries := Delete(entries, key);
        return Invalid;
      }
      if f.index in entry.parts && entry.parts[f.index] != part.value {
        RestrictKeepsForm(entries, entries.items.Keys - {key});
        entries := Delete(entries, key);
        return Conflict;
      }
      var grown := entry.(parts := entry.parts[f.index := part.value], lastSeen := now);
      PutKeepsForm(entries, key, grown);
      MoveKeepsForm(Put(entries, key, grown), key);
      entries := MoveToEnd(Put(entries, key, grown), key);
      if |grown.parts| != grown.total {
        return Waiting;
      }
      RestrictKeepsForm(entries, entries.items.Keys - {key});
      entries := Delete(entries, key);
      r := Assembled(grown, bounds);
    }
  }
}
