/**
 The bounded cache in front of a distributed array: the blocks held, and a queue of
 their keys in the order they came in.  The table and the queue appear here as the map
 and the sequence that HashMap.Map and FifoQueue.Queue are proved to behave like.
 */
module Cache {
  import opened Messages
  import opened HashMap

  /** The key order after key came in: from a full cache the oldest key leaves. */
  function Evicting<K>(order: seq<K>, max: nat, key: K): seq<K> {
    (if |order| >= max && order != [] then order[1..] else order) + [key]
  }

  predicate Distinct<K(==)>(ks: seq<K>) {
    forall i, j :: 0 <= i < j < |ks| ==> ks[i] != ks[j]
  }

  /** ks lists the set s, each element once. */
  ghost predicate Lists<K>(ks: seq<K>, s: set<K>) {
    && (forall k :: k in s ==> k in ks)
    && (forall k :: k in ks ==> k in s)
    && Distinct(ks)
  }

  class Cache<K(==), V> {
    const maxSize: nat
    var data: map<K, V>
    var keyOrder: seq<K>

    ghost predicate Valid()
      reads this
    {
      0 < maxSize && |data| <= maxSize && Lists(keyOrder, data.Keys)
    }

    constructor (max: nat)
      requires max > 0
      ensures Valid() && maxSize == max && data == map[] && keyOrder == []
    {
      maxSize, data, keyOrder := max, map[], [];
    }

    predicate IsFull()
      reads this
    {
      maxSize <= |data|
    }

    /** removeFirstAddedElement_: the key at the front of the queue leaves both. */
    method RemoveFirstAdded() returns (k: Option<K>)
      requires Valid()
      modifies this
      ensures Valid() && k == if old(keyOrder) == [] then None else Some(old(keyOrder)[0])
      ensures keyOrder == if k.None? then [] else old(keyOrder)[1..]
      ensures data == if k.None? then old(data) else old(data) - {k.value}
      ensures k.Some? ==> k.value in old(data) && |data| == |old(data)| - 1
    {
      if keyOrder == [] {
        return None;
      }
      k := Some(keyOrder[0]);
      assert (data - {k.value}).Keys == data.Keys - {k.value};
      keyOrder, data := keyOrder[1..], data - {k.value};
      DistinctCount(keyOrder, data.Keys);
      assert |data| == |keyOrder|;
    }

    /** put, for a key that is not there: putting one that is breaks the assert that the
        two sizes agree.  A full cache first loses its oldest key. */
    method Put(k: K, val: V)
      requires Valid() && k !in data
      modifies this
      ensures Valid() && keyOrder == Evicting(old(keyOrder), maxSize, k)
      ensures data == (if |old(data)| >= maxSize then old(data) - {old(keyOrder)[0]} else old(data))[k := val]
    {
      DistinctCount(keyOrder, data.Keys);
      if IsFull() {
        var evicted := RemoveFirstAdded();
      }
      data := data[k := val];
      keyOrder := keyOrder + [k];
      DistinctCount(keyOrder, data.Keys);
      assert |data| == |keyOrder|;
    }
  }

  // ----- the key order over any sequence of reads -----

  /** A read of a cached key leaves the order alone, any other brings its key in. */
  function AfterRead<K(==)>(order: seq<K>, max: nat, key: K): seq<K> {
    if key in order then order else Evicting(order, max, key)
  }

  /** The order that reading ks one after the other leaves in a cache that was empty. */
  function AfterReads<K(==)>(ks: seq<K>, max: nat): seq<K> {
    if ks == [] then [] else AfterRead(AfterReads(ks[..|ks| - 1], max), max, ks[|ks| - 1])
  }

  /** The reads that had to fetch their block. */
  function Misses<K(==)>(ks: seq<K>, max: nat): seq<K> {
    if ks == [] then []
    else
      var before := ks[..|ks| - 1];
      var key := ks[|ks| - 1];
      Misses(before, max) + if key in AfterReads(before, max) then [] else [key]
  }

  /** The last max elements. */
  function Latest<K>(ks: seq<K>, max: nat): seq<K> {
    ks[if |ks| > max then |ks| - max else 0..]
  }

  lemma LatestWith<K>(ks: seq<K>, max: nat, key: K)
    requires max > 0
    ensures Evicting(Latest(ks, max), max, key) == Latest(ks + [key], max)
  {
  }

  /** First in, first out: the cache always holds the last max keys that were fetched, in
      the order in which they were, whatever is read and however often. */
  lemma {:induction false} HoldsTheLatestMisses<K>(ks: seq<K>, max: nat)
    requires max > 0
    ensures AfterReads(ks, max) == Latest(Misses(ks, max), max)
    ensures Distinct(AfterReads(ks, max))
    ensures ks != [] ==> ks[|ks| - 1] in AfterReads(ks, max)
  {
    if ks != [] {
      var before, key := ks[..|ks| - 1], ks[|ks| - 1];
      HoldsTheLatestMisses(before, max);
      if key !in AfterReads(before, max) {
        LatestWith(Misses(before, max), max, key);
        EvictingDistinct(AfterReads(before, max), max, key);
      } else {
        assert Misses(before, max) + [] == Misses(before, max);
      }
    }
  }

  lemma EvictingDistinct<K>(order: seq<K>, max: nat, key: K)
    requires Distinct(order) && key !in order
    ensures Distinct(Evicting(order, max, key)) && key in Evicting(order, max, key)
  {
    var after := Evicting(order, max, key);
    assert after[|after| - 1] == key;
  }
}
