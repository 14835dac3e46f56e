// Python's OrderedDict as a value: a map and the order of its keys.
module Ordered {
  import opened Prelude

  datatype OrderedDict<!K(==), +V> = OrderedDict(items: map<K, V>, order: seq<K>)

  ghost predicate WellFormed<K(!new), V>(d: OrderedDict<K, V>) {
    && (forall k :: k in d.items <==> k in d.order)
    && Distinct(d.order)
  }

  ghost predicate Distinct<K>(order: seq<K>) {
    forall i, j :: 0 <= i < j < |order| ==> order[i] != order[j]
  }

  function Empty<K(!new), V>(): (d: OrderedDict<K, V>)
    ensures WellFormed(d) && d.items == map[]
  {
    OrderedDict(map[], [])
  }

  // The keys of `order` that lie in `keys`, in order.
  function Select<K(==,!new)>(order: seq<K>, keys: set<K>): (r: seq<K>)
    ensures forall k :: k in r <==> k in order && k in keys
  {
    if order == [] then []
    else
      var last := order[|order| - 1];
      Select(order[..|order| - 1], keys) + (if last in keys then [last] else [])
  }

  function Restrict<K(==,!new), V>(d: OrderedDict<K, V>, keys: set<K>): OrderedDict<K, V> {
    OrderedDict(map k | k in d.items && k in keys :: d.items[k], Select(d.order, keys))
  }

  function Delete<K(==,!new), V>(d: OrderedDict<K, V>, k: K): OrderedDict<K, V> {
    Restrict(d, d.items.Keys - {k})
  }

  function Put<K(==,!new), V>(d: OrderedDict<K, V>, k: K, v: V): OrderedDict<K, V> {
    OrderedDict(d.items[k := v], if k in d.items then d.order else d.order + [k])
  }

  function MoveToEnd<K(==,!new), V>(d: OrderedDict<K, V>, k: K): OrderedDict<K, V> {
    d.(order := Select(d.order, d.items.Keys - {k}) + [k])
  }

  lemma {:induction false} SelectUnique<K(!new)>(order: seq<K>, keys: set<K>)
    requires Distinct(order)
    ensures Distinct(Select(order, keys))
  {
    if order == [] {
    } else {
      var prefix, last := order[..|order| - 1], order[|order| - 1];
      SelectUnique(prefix, keys);
      assert last !in prefix;
      var inner := Select(prefix, keys);
      forall i | 0 <= i < |inner|
        ensures inner[i] != last
      {
        assert inner[i] in inner;
      }
    }
  }

  lemma {:induction false} SelectSelect<K(!new)>(order: seq<K>, a: set<K>, b: set<K>)
    ensures Select(Select(order, a), b) == Select(order, a * b)
  {
    if order == [] {
    } else {
      var prefix, last := order[..|order| - 1], order[|order| - 1];
      SelectSelect(prefix, a, b);
      var inner := Select(prefix, a);
      if last in a {
        assert Select(order, a) == inner + [last];
        assert (inner + [last])[..|inner|] == inner;
      } else {
        assert Select(order, a) == inner;
      }
    }
  }

  lemma {:induction false} SelectAll<K(!new)>(order: seq<K>, keys: set<K>)
    requires forall k :: k in order ==> k in keys
    ensures Select(order, keys) == order
  {
    if order == [] {
    } else {
      var prefix, last := order[..|order| - 1], order[|order| - 1];
      SelectAll(prefix, keys);
      assert last in order && order == prefix + [last];
    }
  }

  lemma {:induction false} SelectSame<K(!new)>(order: seq<K>, a: set<K>, b: set<K>)
    requires forall k :: k in order ==> (k in a <==> k in b)
    ensures Select(order, a) == Select(order, b)
  {
    if order == [] {
    } else {
      SelectSame(order[..|order| - 1], a, b);
    }
  }

  lemma RestrictKeepsForm<K(!new), V>(d: OrderedDict<K, V>, keys: set<K>)
    requires WellFormed(d)
    ensures WellFormed(Restrict(d, keys))
  {
    SelectUnique(d.order, keys);
  }

  lemma RestrictRestrict<K(!new), V>(d: OrderedDict<K, V>, a: set<K>, b: set<K>)
    ensures Restrict(Restrict(d, a), b) == Restrict(d, a * b)
  {
    SelectSelect(d.order, a, b);
  }

  lemma DeleteFromRestricted<K(!new), V>(d: OrderedDict<K, V>, keys: set<K>, k: K)
    requires WellFormed(d)
    ensures Delete(Restrict(d, keys), k) == Restrict(d, keys - {k})
  {
    var inner := Restrict(d, keys);
    RestrictRestrict(d, keys, inner.items.Keys - {k});
    SelectSame(d.order, keys * (inner.items.Keys - {k}), keys - {k});
  }

  // What is left of `d` once the keys in `dropped` are deleted.
  function Dropping<K(==,!new), V>(d: OrderedDict<K, V>, dropped: set<K>): OrderedDict<K, V> {
    Restrict(d, d.items.Keys - dropped)
  }

  lemma DropNothing<K(!new), V>(d: OrderedDict<K, V>)
    requires WellFormed(d)
    ensures Dropping(d, {}) == d
  {
    RestrictAll(d, d.items.Keys - {});
  }

  lemma DropOneMore<K(!new), V>(d: OrderedDict<K, V>, dropped: set<K>, k: K)
    requires WellFormed(d)
    ensures Delete(Dropping(d, dropped), k) == Dropping(d, dropped + {k})
  {
    DeleteFromRestricted(d, d.items.Keys - dropped, k);
    assert d.items.Keys - dropped - {k} == d.items.Keys - (dropped + {k});
  }

  lemma DropIsRestrict<K(!new), V>(d: OrderedDict<K, V>, dropped: set<K>, kept: set<K>)
    requires WellFormed(d) && forall k :: k in d.items ==> (k in kept <==> k !in dropped)
    ensures Dropping(d, dropped) == Restrict(d, kept) && WellFormed(Restrict(d, kept))
  {
    RestrictSame(d, d.items.Keys - dropped, kept);
    RestrictKeepsForm(d, kept);
  }

  lemma RestrictSame<K(!new), V>(d: OrderedDict<K, V>, a: set<K>, b: set<K>)
    requires WellFormed(d) && forall k :: k in d.items ==> (k in a <==> k in b)
    ensures Restrict(d, a) == Restrict(d, b)
  {
    SelectSame(d.order, a, b);
  }

  lemma RestrictAll<K(!new), V>(d: OrderedDict<K, V>, keys: set<K>)
    requires WellFormed(d) && d.items.Keys <= keys
    ensures Restrict(d, keys) == d
  {
    SelectAll(d.order, keys);
  }

  lemma PutKeepsForm<K(!new), V>(d: OrderedDict<K, V>, k: K, v: V)
    requires WellFormed(d)
    ensures WellFormed(Put(d, k, v))
  {
  }

  lemma MoveKeepsForm<K(!new), V>(d: OrderedDict<K, V>, k: K)
    requires WellFormed(d) && k in d.items
    ensures WellFormed(MoveToEnd(d, k))
  {
    SelectUnique(d.order, d.items.Keys - {k});
  }

  // Drop oldest entries until fewer than `bound` are left.
  function EvictBelow<K(==,!new), V>(d: OrderedDict<K, V>, bound: nat): OrderedDict<K, V>
    requires bound > 0
    decreases |d.items|
  {
    if |d.items| < bound || d.order == [] || d.order[0] !in d.items then d
    else
      SmallerAfterDelete(d, d.order[0]);
      EvictBelow(Delete(d, d.order[0]), bound)
  }

  lemma SmallerAfterDelete<K(!new), V>(d: OrderedDict<K, V>, k: K)
    requires k in d.items
    ensures |Delete(d, k).items| == |d.items| - 1
  {
    assert Delete(d, k).items.Keys == d.items.Keys - {k};
  }

  lemma NonemptyOrder<K(!new), V>(d: OrderedDict<K, V>)
    requires WellFormed(d) && |d.items| > 0
    ensures d.order != [] && d.order[0] in d.items
  {
    var k :| k in d.items.Keys;
    assert k in d.order;
    assert d.order[0] in d.order;
  }

  lemma {:induction false} EvictKeepsForm<K(!new), V>(d: OrderedDict<K, V>, bound: nat)
    requires bound > 0 && WellFormed(d)
    ensures var r := EvictBelow(d, bound);
            && WellFormed(r) && |r.items| < bound
            && (forall k :: k in r.items ==> k in d.items && r.items[k] == d.items[k])
    decreases |d.items|
  {
    if |d.items| >= bound {
      NonemptyOrder(d);
      RestrictKeepsForm(d, d.items.Keys - {d.order[0]});
      SmallerAfterDelete(d, d.order[0]);
      EvictKeepsForm(Delete(d, d.order[0]), bound);
    }
  }
}
