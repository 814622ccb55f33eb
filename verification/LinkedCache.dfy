/**
 The bounded cache over the structures the code gives it, the chained table and the
 linked queue, which share nothing.  It does what Cache.Cache does with a map and a
 sequence in their place.
 */
module LinkedCache {
  import opened Messages
  import opened HashMap
  import opened FifoQueue
  import C = Cache

  lemma FrontLeaves<K>(ks: seq<K>, s: set<K>)
    requires C.Lists(ks, s) && ks != []
    ensures ks[0] in s && C.Lists(ks[1..], s - {ks[0]})
  {
  }

  lemma BackJoins<K>(ks: seq<K>, s: set<K>, k: K)
    requires C.Lists(ks, s) && k !in s
    ensures C.Lists(ks + [k], s + {k})
  {
  }

  class LinkedCache<K(==), V> {
    const maxSize: nat
    const table: Map<K, V>
    const queue: Queue<K>

    /** Neither the queue nor one of its nodes is part of the table. */
    ghost predicate Separate()
      reads this, table, queue
    {
      queue !in table.Repr && this !in table.Repr && forall n :: n in queue.nodes ==> n !in table.Repr
    }

    /** The table and the queue are sound and share nothing. */
    ghost predicate Sound()
      reads this, table, table.Repr, queue, queue.nodes
    {
      Separate() && table.Valid() && queue.Valid()
    }

    /** The keys in the queue are those of the table, each once, at most maxSize of them. */
    ghost predicate Valid()
      reads this, table, table.Repr, queue, queue.nodes
    {
      && Sound()
      && 0 < maxSize && |table.M| <= maxSize && C.Lists(queue.Contents, table.M.Keys)
    }

    constructor (hash: K -> nat, max: nat)
      requires max > 0
      ensures Valid() && maxSize == max && table.M == map[] && queue.Contents == []
      ensures fresh(table) && fresh(table.Repr) && fresh(queue)
    {
      maxSize := max;
      table := new Map(hash, 4);
      queue := new Queue();
    }

    method ContainsKey(k: K) returns (b: bool)
      requires Valid()
      ensures b <==> k in table.M
    {
      b := table.ContainsKey(k);
    }

    method IsFull() returns (b: bool)
      requires Valid()
      ensures b <==> maxSize <= |table.M|
    {
      var size := table.Size();
      assert |table.M.Keys| == |table.M|;
      b := maxSize <= size;
    }

    method PopFromQueue() returns (k: Option<K>)
      requires Sound()
      modifies queue, queue.front
      ensures Sound() && table.M == old(table.M)
      ensures k == if old(queue.Contents) == [] then None else Some(old(queue.Contents)[0])
      ensures queue.Contents == if k.None? then [] else old(queue.Contents)[1..]
      ensures queue.back == old(queue.back) || queue.back == null
    {
      k := queue.Pop();
    }

    method RemoveFromTable(k: K)
      requires Sound() && k in table.M
      modifies table.Repr
      ensures Sound() && table.Repr == old(table.Repr) && table.M == old(table.M) - {k}
      ensures queue.Contents == old(queue.Contents)
    {
      var val := table.Remove(k);
    }

    /** removeFirstAddedElement_: the key at the front of the queue leaves both. */
    method RemoveFirstAdded() returns (k: Option<K>)
      requires Valid()
      modifies queue, queue.front, table.Repr
      ensures Valid() && k == if old(queue.Contents) == [] then None else Some(old(queue.Contents)[0])
      ensures queue.Contents == if k.None? then [] else old(queue.Contents)[1..]
      ensures table.M == if k.None? then old(table.M) else old(table.M) - {k.value}
      ensures k.Some? ==> k.value in old(table.M) && |table.M| == |old(table.M)| - 1
      ensures table.Repr == old(table.Repr) && (queue.back == old(queue.back) || queue.back == null)
    {
      ghost var keys := queue.Contents;
      k := PopFromQueue();
      if k.Some? {
        FrontLeaves(keys, table.M.Keys);
        RemoveFromTable(k.value);
        assert table.M.Keys == old(table.M).Keys - {k.value};
      }
    }

    method PutInTable(k: K, val: V)
      requires Sound()
      modifies table.Repr
      ensures Sound() && table.M == old(table.M)[k := val] && queue.Contents == old(queue.Contents)
    {
      var previous := table.Put(k, val);
    }

    method PutInQueue(k: K)
      requires Sound()
      modifies queue, queue.back
      ensures Sound() && queue.Contents == old(queue.Contents) + [k] && table.M == old(table.M)
    {
      queue.Push(k);
    }

    /** What put does once there is room. */
    method Insert(k: K, val: V)
      requires Valid() && k !in table.M && |table.M| < maxSize
      modifies queue, queue.back, table.Repr
      ensures Valid() && queue.Contents == old(queue.Contents) + [k] && table.M == old(table.M)[k := val]
    {
      BackJoins(queue.Contents, table.M.Keys, k);
      PutInTable(k, val);
      PutInQueue(k);
      assert table.M.Keys == old(table.M).Keys + {k};
    }

    /** put, for a key that is not there. */
    method Put(k: K, val: V)
      requires Valid() && k !in table.M
      modifies queue, queue.front, queue.back, table.Repr
      ensures Valid() && queue.Contents == C.Evicting(old(queue.Contents), maxSize, k)
      ensures table.M ==
              (if |old(table.M)| >= maxSize then old(table.M) - {old(queue.Contents)[0]} else old(table.M))[k := val]
    {
      DistinctCount(queue.Contents, table.M.Keys);
      var isFull := IsFull();
      if isFull {
        var evicted := RemoveFirstAdded();
      }
      Insert(k, val);
    }
  }
}
