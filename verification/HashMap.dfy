/**
 The chained hash table: an array of buckets, each a linked list of entries.
 The hash function is arbitrary, as it may be: nothing here depends on its spread.
 */
module HashMap {
  import opened Messages

  class Entry<K(==), V> {
    const key: K
    var value: V
    var next: Entry?<K, V>

    constructor (key: K, value: V)
      ensures this.key == key && this.value == value && next == null
    {
      this.key, this.value, this.next := key, value, null;
    }
  }

  /** A chain of entries is linked in order and ends in null. */
  ghost predicate Linked<K, V>(chain: seq<Entry<K, V>>, head: Entry?<K, V>)
    reads chain
  {
    && head == (if chain == [] then null else chain[0])
    && (forall j :: 0 <= j < |chain| - 1 ==> chain[j].next == chain[j + 1])
    && (chain != [] ==> chain[|chain| - 1].next == null)
  }

  ghost predicate DistinctKeys<K, V>(chain: seq<Entry<K, V>>) {
    forall j, k :: 0 <= j < k < |chain| ==> chain[j].key != chain[k].key
  }

  /** What a chain holds, as values. */
  ghost function Pairs<K, V>(chain: seq<Entry<K, V>>): (r: seq<(K, V)>)
    reads chain
    ensures |r| == |chain|
  {
    seq(|chain|, j requires 0 <= j < |chain| reads chain => (chain[j].key, chain[j].value))
  }

  function Keys<K, V>(pairs: seq<(K, V)>): seq<K> {
    seq(|pairs|, j requires 0 <= j < |pairs| => pairs[j].0)
  }

  function Values<K, V>(pairs: seq<(K, V)>): seq<V> {
    seq(|pairs|, j requires 0 <= j < |pairs| => pairs[j].1)
  }

  /** The entries bucket by bucket. */
  function Flatten<T>(view: seq<seq<T>>): seq<T> {
    if view == [] then [] else Flatten(view[..|view| - 1]) + view[|view| - 1]
  }

  /** Every key of m once, and at each index the value that m has for the key there. */
  ghost predicate ListsEntries<K, V>(keys: seq<K>, values: seq<V>, m: map<K, V>) {
    && |keys| == |values| == |m|
    && (forall k :: k in m ==> k in keys)
    && (forall i, j :: 0 <= i < j < |keys| ==> keys[i] != keys[j])
    && (forall i :: 0 <= i < |keys| ==> keys[i] in m && m[keys[i]] == values[i])
  }

  /** Each key of m stands, with its value and once, in the bucket it hashes to. */
  ghost predicate Holds<K, V>(view: seq<seq<(K, V)>>, hash: K -> nat, m: map<K, V>) {
    && (forall i, j :: 0 <= i < |view| && 0 <= j < |view[i]| ==>
          hash(view[i][j].0) % |view| == i && view[i][j].0 in m && m[view[i][j].0] == view[i][j].1)
    && (forall i, j, k :: 0 <= i < |view| && 0 <= j < k < |view[i]| ==> view[i][j].0 != view[i][k].0)
    && (forall k :: k in m ==>
          |view| > 0 && exists j :: 0 <= j < |view[hash(k) % |view|]| && view[hash(k) % |view|][j].0 == k)
  }

  class Map<K(==), V> {
    const hash: K -> nat
    const buckets: array<Entry?<K, V>>
    var size: nat

    ghost var M: map<K, V>
    ghost var chains: seq<seq<Entry<K, V>>>
    ghost var Repr: set<object>

    /** Bucket i holds, once each, entries of M whose keys hash to i. */
    ghost predicate BucketOk(i: nat)
      requires i < |chains| == buckets.Length
      reads this, buckets, Repr
    {
      && (forall e :: e in chains[i] ==> e in Repr)
      && Linked(chains[i], buckets[i])
      && DistinctKeys(chains[i])
      && (forall j :: 0 <= j < |chains[i]| ==>
            && hash(chains[i][j].key) % buckets.Length == i
            && chains[i][j].key in M && M[chains[i][j].key] == chains[i][j].value)
    }

    ghost predicate InChain(k: K, chain: seq<Entry<K, V>>) {
      exists j :: 0 <= j < |chain| && chain[j].key == k
    }

    ghost predicate Valid()
      reads this, Repr
    {
      && this in Repr && buckets in Repr
      && buckets.Length > 0 && |chains| == buckets.Length
      && (forall i {:trigger BucketOk(i)} :: 0 <= i < |chains| ==> BucketOk(i))
      && (forall k :: k in M ==> InChain(k, chains[hash(k) % buckets.Length]))
      && size == |M|
    }

    constructor (hash: K -> nat, capacity: nat)
      requires capacity > 0
      ensures Valid() && fresh(Repr) && M == map[] && this.hash == hash && buckets.Length == capacity
    {
      this.hash := hash;
      buckets := new Entry?<K, V>[capacity](_ => null);
      size := 0;
      M := map[];
      chains := seq(capacity, _ => []);
      new;
      Repr := {this, buckets};
    }

    /** The walk that insertIntoBucket_, getFromBucket_, removeFromBucket_ and
        bucketContainsKey_ share: the entry for key, and the one before it. */
    method Find(key: K) returns (prev: Entry?<K, V>, cur: Entry?<K, V>, ghost j: nat)
      requires Valid()
      ensures var chain := chains[hash(key) % buckets.Length];
        && j <= |chain|
        && cur == (if j < |chain| then chain[j] else null)
        && prev == (if j > 0 then chain[j - 1] else null)
        && (forall i :: 0 <= i < j ==> chain[i].key != key)
        && (cur != null ==> cur.key == key)
      ensures cur != null <==> key in M
      ensures cur != null ==> M[key] == cur.value
    {
      var index := hash(key) % buckets.Length;
      ghost var chain := chains[index];
      assert BucketOk(index);
      prev, cur, j := null, buckets[index], 0;
      while cur != null
        invariant j <= |chain|
        invariant cur == (if j < |chain| then chain[j] else null)
        invariant prev == (if j > 0 then chain[j - 1] else null)
        invariant forall i :: 0 <= i < j ==> chain[i].key != key
        decreases |chain| - j
      {
        if cur.key == key {
          return;
        }
        prev, cur, j := cur, cur.next, j + 1;
      }
      assert key in M ==> InChain(key, chain);
    }

    method Get(key: K) returns (val: Option<V>)
      requires Valid()
      ensures val == if key in M then Some(M[key]) else None
    {
      var prev, cur, j := Find(key);
      if cur == null {
        return None;
      }
      return Some(cur.value);
    }

    method ContainsKey(key: K) returns (b: bool)
      requires Valid()
      ensures b <==> key in M
    {
      var prev, cur, j := Find(key);
      return cur != null;
    }

    /** A bucket none of whose entries changed, and whose keys M maps as before. */
    twostate lemma BucketKept(new i: nat)
      requires i < |chains| == buckets.Length && |old(chains)| == buckets.Length
      requires chains[i] == old(chains[i]) && buckets[i] == old(buckets[i]) && old(BucketOk(i)) && old(Repr) <= Repr
      requires forall e :: e in chains[i] ==> unchanged(e)
      requires forall e :: e in chains[i] ==> e.key in M && M[e.key] == old(M)[e.key]
      ensures BucketOk(i)
    {
      var chain := chains[i];
      forall j | 0 <= j < |chain|
        ensures chain[j].next == old(chain[j].next) && chain[j].value == old(chain[j].value)
      {
        assert chain[j] in chain;
      }
    }

    /** The bucket in which one entry's value changed. */
    twostate lemma OverwrittenBucket(new i: nat, new j: nat)
      requires i < |chains| == buckets.Length && |old(chains)| == buckets.Length
      requires chains[i] == old(chains[i]) && buckets[i] == old(buckets[i]) && old(BucketOk(i)) && Repr == old(Repr)
      requires j < |chains[i]| && M == old(M)[chains[i][j].key := chains[i][j].value]
      requires forall x :: 0 <= x < |chains[i]| ==> chains[i][x].next == old(chains[i][x].next)
      requires forall x :: 0 <= x < |chains[i]| && x != j ==> chains[i][x].value == old(chains[i][x].value)
      ensures BucketOk(i)
    {
      assert Linked(chains[i], buckets[i]);
      assert DistinctKeys(chains[i]);
    }

    twostate lemma BucketsBeside(new index: nat, cur: Entry<K, V>)
      requires index < |chains| == buckets.Length && chains == old(chains) && Repr == old(Repr)
      requires old(forall i :: 0 <= i < |chains| ==> BucketOk(i))
      requires forall i :: 0 <= i < |chains| ==> buckets[i] == old(buckets[i])
      requires forall i, x :: 0 <= i < |chains| && x in chains[i] && x != cur ==> unchanged(x)
      requires cur in chains[index] && M == old(M)[cur.key := cur.value]
      ensures forall i :: 0 <= i < |chains| && i != index ==> BucketOk(i)
    {
      forall i | 0 <= i < |chains| && i != index
        ensures BucketOk(i)
      {
        assert old(BucketOk(i)) && old(BucketOk(index));
        BucketKept(i);
      }
    }

    method Overwrite(cur: Entry<K, V>, ghost j: nat, val: V)
      requires Valid()
      requires j < |chains[hash(cur.key) % buckets.Length]| && chains[hash(cur.key) % buckets.Length][j] == cur
      modifies this, cur
      ensures Valid() && Repr == old(Repr)
      ensures M == old(M)[cur.key := val]
    {
      ghost var index := hash(cur.key) % buckets.Length;
      assert BucketOk(index);
      cur.value := val;
      M := M[cur.key := val];
      BucketsBeside(index, cur);
      OverwrittenBucket(index, j);
    }

    /** The bucket to whose chain a new entry was linked. */
    twostate lemma AppendedBucket(new i: nat, new e: Entry<K, V>)
      requires i < |old(chains)| == buckets.Length && |chains| == buckets.Length && old(BucketOk(i))
      requires chains[i] == old(chains[i]) + [e] && e.next == null && e !in old(chains[i])
      requires hash(e.key) % buckets.Length == i && e.key !in old(M) && M == old(M)[e.key := e.value]
      requires Repr == old(Repr) + {e}
      requires buckets[i] == if old(chains[i]) == [] then e else old(buckets[i])
      requires forall j :: 0 <= j < |old(chains[i])| ==> old(chains[i])[j].value == old(chains[i][j].value)
      requires forall j :: 0 <= j < |old(chains[i])| - 1 ==> old(chains[i])[j].next == old(chains[i][j].next)
      requires old(chains[i]) != [] ==> old(chains[i])[|old(chains[i])| - 1].next == e
      ensures BucketOk(i)
    {
      ghost var chain := old(chains[i]);
      assert Linked(chains[i], buckets[i]);
      assert DistinctKeys(chains[i]);
    }

    twostate lemma OtherBuckets(new index: nat, new e: Entry<K, V>, prev: Entry?<K, V>)
      requires index < |old(chains)| == buckets.Length && |chains| == buckets.Length
      requires old(forall i :: 0 <= i < |chains| ==> BucketOk(i))
      requires forall i :: 0 <= i < |chains| && i != index ==>
                 chains[i] == old(chains[i]) && buckets[i] == old(buckets[i])
      requires forall i, x :: 0 <= i < |chains| && x in old(chains)[i] && x != prev ==> unchanged(x)
      requires prev != null ==> prev in old(chains[index])
      requires e.key !in old(M) && M == old(M)[e.key := e.value] && Repr == old(Repr) + {e}
      ensures forall i :: 0 <= i < |chains| && i != index ==> BucketOk(i)
    {
      forall i | 0 <= i < |chains| && i != index
        ensures BucketOk(i)
      {
        assert old(BucketOk(i)) && old(BucketOk(index));
        BucketKept(i);
      }
    }

    /** Link a new entry behind the last one of its bucket. */
    method Append(e: Entry<K, V>, prev: Entry?<K, V>)
      requires Valid() && e.key !in M && e !in Repr && e.next == null
      requires var chain := chains[hash(e.key) % buckets.Length];
        prev == (if chain == [] then null else chain[|chain| - 1])
      modifies this, buckets, prev
      ensures Valid() && Repr == old(Repr) + {e}
      ensures M == old(M)[e.key := e.value]
    {
      var index := hash(e.key) % buckets.Length;
      assert BucketOk(index);
      if prev == null {
        buckets[index] := e;
      } else {
        prev.next := e;
      }
      chains := chains[index := chains[index] + [e]];
      M := M[e.key := e.value];
      size := size + 1;
      Repr := Repr + {e};
      AppendKeepsValid(index, e, prev);
    }

    /** The pointer changes of Append, and the map with the new key, make a sound table. */
    twostate lemma AppendKeepsValid(new index: nat, new e: Entry<K, V>, prev: Entry?<K, V>)
      requires old(Valid()) && index < |old(chains)| && index == hash(e.key) % buckets.Length
      requires prev == (if old(chains[index]) == [] then null else old(chains[index][|chains[index]| - 1]))
      requires chains == old(chains)[index := old(chains[index]) + [e]] && e !in old(Repr) && e.next == null
      requires e.key !in old(M) && M == old(M)[e.key := e.value] && size == old(size) + 1 && Repr == old(Repr) + {e}
      requires forall b :: 0 <= b < buckets.Length ==>
                 buckets[b] == if b == index && prev == null then e else old(buckets[b])
      requires prev != null ==> prev.next == e && prev.value == old(prev.value)
      requires forall i, x :: 0 <= i < |old(chains)| && x in old(chains)[i] && x != prev ==> unchanged(x)
      ensures Valid()
    {
      OtherBuckets(index, e, prev);
      AppendInBucket(index, e, prev);
      StillInChains(old(M), old(chains), index, e);
    }

    twostate lemma AppendInBucket(new index: nat, new e: Entry<K, V>, prev: Entry?<K, V>)
      requires index < |old(chains)| == buckets.Length && |chains| == buckets.Length && old(BucketOk(index))
      requires index == hash(e.key) % buckets.Length
      requires prev == (if old(chains[index]) == [] then null else old(chains[index][|chains[index]| - 1]))
      requires chains[index] == old(chains[index]) + [e] && e !in old(chains[index]) && e.next == null
      requires e.key !in old(M) && M == old(M)[e.key := e.value] && Repr == old(Repr) + {e}
      requires buckets[index] == if prev == null then e else old(buckets[index])
      requires prev != null ==> prev.next == e && prev.value == old(prev.value)
      requires forall x :: x in old(chains)[index] && x != prev ==> unchanged(x)
      ensures BucketOk(index)
    {
      ghost var chain := old(chains[index]);
      forall x | 0 <= x < |chain| - 1
        ensures chain[x] != prev
      {
      }
      forall x | 0 <= x < |chain| && chain[x] != prev
        ensures chain[x].next == old(chain[x].next) && chain[x].value == old(chain[x].value)
      {
        assert chain[x] in old(chains)[index];
      }
      AppendedBucket(index, e);
    }

    /** Appending to one chain hides no key. */
    lemma StillInChains(before: map<K, V>, cs: seq<seq<Entry<K, V>>>, index: nat, e: Entry<K, V>)
      requires buckets.Length > 0 && index < |cs| == buckets.Length && hash(e.key) % buckets.Length == index
      requires forall k :: k in before ==> InChain(k, cs[hash(k) % buckets.Length])
      ensures forall k :: k in before || k == e.key ==>
                InChain(k, cs[index := cs[index] + [e]][hash(k) % buckets.Length])
    {
      var chain' := cs[index] + [e];
      assert chain'[|cs[index]|].key == e.key;
      forall k | k in before
        ensures InChain(k, cs[index := chain'][hash(k) % buckets.Length])
      {
        var b := hash(k) % buckets.Length;
        var j :| 0 <= j < |cs[b]| && cs[b][j].key == k;
        assert cs[index := chain'][b][j].key == k;
      }
    }

    /** put: overwrite the value of an entry that is there, or append a new entry. */
    method Put(key: K, val: V) returns (previous: Option<V>)
      requires Valid()
      modifies Repr
      ensures Valid() && fresh(Repr - old(Repr))
      ensures M == old(M)[key := val]
      ensures previous == if key in old(M) then Some(old(M)[key]) else None
    {
      var prev, cur, j := Find(key);
      assert BucketOk(hash(key) % buckets.Length);
      if cur != null {
        previous := Some(cur.value);
        Overwrite(cur, j, val);
      } else {
        previous := None;
        var e := new Entry(key, val);
        Append(e, prev);
      }
    }

    /** The bucket from whose chain the entry at position j was unlinked. */
    twostate lemma UnlinkedBucket(new i: nat, new j: nat, cur: Entry<K, V>)
      requires i < |old(chains)| == buckets.Length && |chains| == buckets.Length && old(BucketOk(i))
      requires j < |old(chains[i])| && cur == old(chains[i][j]) && Repr == old(Repr) && M == old(M) - {cur.key}
      requires chains[i] == old(chains[i])[..j] + old(chains[i])[j + 1..]
      requires buckets[i] == if j == 0 then old(cur.next) else old(buckets[i])
      requires forall x :: 0 <= x < |old(chains[i])| ==> old(chains[i])[x].value == old(chains[i][x].value)
      requires forall x :: 0 <= x < |old(chains[i])| && x != j && x + 1 != j ==>
                 old(chains[i])[x].next == old(chains[i][x].next)
      requires j > 0 ==> old(chains[i])[j - 1].next == old(cur.next)
      ensures BucketOk(i)
    {
      assert Linked(chains[i], buckets[i]);
      assert DistinctKeys(chains[i]);
      forall x | 0 <= x < |chains[i]|
        ensures chains[i][x].key != cur.key
      {
        assert x < j ==> chains[i][x] == old(chains[i])[x];
        assert x >= j ==> chains[i][x] == old(chains[i])[x + 1];
      }
    }

    twostate lemma BucketsWithout(new index: nat, cur: Entry<K, V>, new prev: Entry?<K, V>)
      requires index < |old(chains)| == buckets.Length && |chains| == buckets.Length
      requires old(forall i :: 0 <= i < |chains| ==> BucketOk(i))
      requires forall i :: 0 <= i < |chains| && i != index ==>
                 chains[i] == old(chains[i]) && buckets[i] == old(buckets[i])
      requires forall i, x :: 0 <= i < |chains| && x in old(chains)[i] && x != prev && x != cur ==> unchanged(x)
      requires prev != null ==> prev in old(chains[index])
      requires cur in old(chains[index])
      requires M == old(M) - {cur.key} && Repr == old(Repr)
      ensures forall i :: 0 <= i < |chains| && i != index ==> BucketOk(i)
    {
      forall i | 0 <= i < |chains| && i != index
        ensures BucketOk(i)
      {
        assert old(BucketOk(i)) && old(BucketOk(index));
        BucketKept(i);
      }
    }

    /** Unlinking from one chain hides only the key unlinked. */
    lemma StillInOtherChains(before: map<K, V>, cs: seq<seq<Entry<K, V>>>, index: nat, j: nat)
      requires buckets.Length > 0 && index < |cs| == buckets.Length && j < |cs[index]|
      requires forall k :: k in before ==> InChain(k, cs[hash(k) % buckets.Length])
      ensures forall k :: k in before && k != cs[index][j].key ==>
                InChain(k, cs[index := cs[index][..j] + cs[index][j + 1..]][hash(k) % buckets.Length])
    {
      var chain' := cs[index][..j] + cs[index][j + 1..];
      forall k | k in before && k != cs[index][j].key
        ensures InChain(k, cs[index := chain'][hash(k) % buckets.Length])
      {
        var b := hash(k) % buckets.Length;
        var x :| 0 <= x < |cs[b]| && cs[b][x].key == k;
        var x' := if b == index && x > j then x - 1 else x;
        assert cs[index := chain'][b][x'].key == k;
      }
    }

    twostate lemma StillOwned(new index: nat, new j: nat)
      requires old(Valid()) && index < |old(chains)| && j < |old(chains[index])| && Repr == old(Repr)
      requires chains == old(chains)[index := old(chains[index])[..j] + old(chains[index])[j + 1..]]
      ensures forall i :: 0 <= i < |chains| ==> forall e :: e in chains[i] ==> e in Repr
    {
      forall i | 0 <= i < |chains|
        ensures forall e :: e in chains[i] ==> e in Repr
      {
        assert old(BucketOk(i));
      }
    }

    /** Every key but the unlinked one is still in its bucket's chain. */
    twostate lemma KeysStillFound(new index: nat, cur: Entry<K, V>, new j: nat)
      requires old(Valid()) && index < |old(chains)| && j < |old(chains[index])|
      requires index == hash(cur.key) % buckets.Length && cur == old(chains[index][j])
      requires chains == old(chains)[index := old(chains[index])[..j] + old(chains[index])[j + 1..]]
      requires M == old(M) - {cur.key}
      ensures forall k :: k in M ==> InChain(k, chains[hash(k) % buckets.Length])
      ensures |M| == |old(M)| - 1
    {
      assert old(BucketOk(index));
      assert M.Keys == old(M).Keys - {cur.key} && cur.key in old(M);
      StillInOtherChains(old(M), old(chains), index, j);
    }

    /** The pointer changes of Unlink, and the map without the key, make a valid table. */
    twostate lemma UnlinkKeepsValid(new index: nat, new prev: Entry?<K, V>, cur: Entry<K, V>, new j: nat)
      requires old(Valid()) && index < |old(chains)| && j < |old(chains[index])|
      requires index == hash(cur.key) % buckets.Length
      requires cur == old(chains[index][j]) && prev == (if j > 0 then old(chains[index][j - 1]) else null)
      requires chains == old(chains)[index := old(chains[index])[..j] + old(chains[index])[j + 1..]]
      requires M == old(M) - {cur.key} && size == old(size) - 1 && Repr == old(Repr)
      requires forall b :: 0 <= b < buckets.Length ==>
                 buckets[b] == if b == index && j == 0 then old(cur.next) else old(buckets[b])
      requires prev != null ==> prev.next == old(cur.next) && prev.value == old(prev.value)
      requires cur.value == old(cur.value)
      requires forall i, x :: 0 <= i < |old(chains)| && x in old(chains)[i] && x != prev && x != cur ==> unchanged(x)
      ensures Valid()
    {
      BucketsWithout(index, cur, prev);
      UnlinkInBucket(index, prev, cur, j);
      StillOwned(index, j);
      KeysStillFound(index, cur, j);
      assert forall i :: 0 <= i < |chains| ==> BucketOk(i);
      assert Valid();
    }

    twostate lemma UnlinkInBucket(new index: nat, new prev: Entry?<K, V>, cur: Entry<K, V>, new j: nat)
      requires old(Valid()) && index < |old(chains)| == |chains| && j < |old(chains[index])|
      requires cur == old(chains[index][j]) && prev == (if j > 0 then old(chains[index][j - 1]) else null)
      requires chains[index] == old(chains[index])[..j] + old(chains[index])[j + 1..]
      requires M == old(M) - {cur.key} && Repr == old(Repr)
      requires buckets[index] == if j == 0 then old(cur.next) else old(buckets[index])
      requires prev != null ==> prev.next == old(cur.next) && prev.value == old(prev.value)
      requires cur.value == old(cur.value)
      requires forall x :: x in old(chains)[index] && x != prev && x != cur ==> unchanged(x)
      ensures BucketOk(index)
    {
      assert old(BucketOk(index));
      ghost var chain := old(chains[index]);
      forall x | 0 <= x < |chain|
        ensures chain[x] == cur <==> x == j
        ensures chain[x] == prev <==> x + 1 == j
      {
      }
      forall x | 0 <= x < |chain| && chain[x] != prev && chain[x] != cur
        ensures chain[x].next == old(chain[x].next) && chain[x].value == old(chain[x].value)
      {
        assert chain[x] in old(chains)[index];
      }
      UnlinkedBucket(index, j, cur);
    }

    method Unlink(prev: Entry?<K, V>, cur: Entry<K, V>, ghost j: nat)
      requires Valid()
      requires var chain := chains[hash(cur.key) % buckets.Length];
        && j < |chain| && chain[j] == cur && prev == (if j > 0 then chain[j - 1] else null)
      modifies this, buckets, prev, cur
      ensures Valid() && Repr == old(Repr)
      ensures M == old(M) - {cur.key}
    {
      var index := hash(cur.key) % buckets.Length;
      assert BucketOk(index);
      assert prev != cur;
      if prev == null {
        buckets[index] := cur.next;
      } else {
        prev.next := cur.next;
      }
      cur.next := null;
      chains := chains[index := chains[index][..j] + chains[index][j + 1..]];
      M := M - {cur.key};
      size := size - 1;
      UnlinkKeepsValid(index, prev, cur, j);
    }

    /** remove, which asserts that the key is there. */
    method Remove(key: K) returns (val: V)
      requires Valid() && key in M
      modifies Repr
      ensures Valid() && Repr == old(Repr)
      ensures val == old(M)[key] && M == old(M) - {key}
    {
      var prev, cur, j := Find(key);
      val := cur.value;
      assert BucketOk(hash(key) % buckets.Length);
      Unlink(prev, cur, j);
    }

    method Size() returns (n: nat)
      requires Valid()
      ensures n == |M.Keys|
    {
      assert |M.Keys| == |M|;
      n := size;
    }

    // ----- listing the entries -----

    ghost function View(): (r: seq<seq<(K, V)>>)
      requires Valid()
      reads this, Repr
      ensures |r| == |chains| == buckets.Length && forall i :: 0 <= i < |r| ==> r[i] == Pairs(chains[i])
    {
      assert forall i {:trigger chains[i]} :: 0 <= i < |chains| ==> BucketOk(i);
      seq(|chains|,
          i requires 0 <= i < |chains| && (forall e :: e in chains[i] ==> e in Repr) reads this, Repr =>
            Pairs(chains[i]))
    }

    lemma ViewHolds()
      requires Valid()
      ensures Holds(View(), hash, M)
    {
      var view: seq<seq<(K, V)>> := View();
      forall i | 0 <= i < |view|
        ensures forall j :: 0 <= j < |view[i]| ==>
                  hash(view[i][j].0) % |view| == i && view[i][j].0 in M && M[view[i][j].0] == view[i][j].1
        ensures forall j, k :: 0 <= j < k < |view[i]| ==> view[i][j].0 != view[i][k].0
      {
        assert BucketOk(i);
      }
      forall k | k in M
        ensures exists j :: 0 <= j < |view[hash(k) % |view|]| && view[hash(k) % |view|][j].0 == k
      {
        var b := hash(k) % buckets.Length;
        assert InChain(k, chains[b]);
        var j :| 0 <= j < |chains[b]| && chains[b][j].key == k;
        assert view[b][j].0 == k;
      }
    }

    /** Entry.addKeysToArr and addValuesToArr, from one entry to the end of its chain. */
    method AddPairs(e: Entry<K, V>, ghost chain: seq<Entry<K, V>>) returns (pairs: seq<(K, V)>)
      requires Linked(chain, e)
      ensures pairs == Pairs(chain)
      decreases |chain|
    {
      assert |chain| > 1 ==> chain[0].next == chain[0 + 1];
      pairs := [(e.key, e.value)];
      if e.next != null {
        var rest := AddPairs(e.next, chain[1..]);
        pairs := pairs + rest;
      }
    }

    /** The walk over the buckets that get_keys and get_values share. */
    method GetPairs() returns (pairs: seq<(K, V)>)
      requires Valid()
      ensures pairs == Flatten(View())
    {
      pairs := [];
      ghost var view := View();
      var i := 0;
      while i < buckets.Length
        invariant 0 <= i <= buckets.Length && pairs == Flatten(view[..i])
      {
        assert BucketOk(i) && view[..i + 1][..i] == view[..i];
        if buckets[i] != null {
          var more := AddPairs(buckets[i], chains[i]);
          pairs := pairs + more;
        } else {
          assert view[i] == [];
        }
        i := i + 1;
      }
      assert view[..|view|] == view;
    }

    /** get_keys and get_values: each key of the map is listed once, and its value stands at
        the same index. */
    method GetEntries() returns (keys: seq<K>, values: seq<V>)
      requires Valid()
      ensures keys == Keys(Flatten(View())) && values == Values(Flatten(View()))
      ensures ListsEntries(keys, values, M)
    {
      var pairs := GetPairs();
      keys := Keys(pairs);
      values := Values(pairs);
      ViewHolds();
      EntriesListed(View(), hash, M);
    }

    method IsNullBucket(i: nat) returns (r: bool)
      requires Valid() && i < buckets.Length
      ensures r == (View()[i] == [])
    {
      assert BucketOk(i);
      return buckets[i] == null;
    }

    /** Entry.length for the head of bucket i. */
    method BucketLength(i: nat) returns (n: nat)
      requires Valid() && i < buckets.Length && View()[i] != []
      ensures n == |View()[i]|
    {
      assert BucketOk(i);
      n := Length(buckets[i], chains[i]);
    }

    method Length(e: Entry<K, V>, ghost chain: seq<Entry<K, V>>) returns (n: nat)
      requires Linked(chain, e)
      ensures n == |chain| > 0
      decreases |chain|
    {
      assert |chain| > 1 ==> chain[0].next == chain[0 + 1];
      if e.next == null {
        return 1;
      }
      n := Length(e.next, chain[1..]);
      n := 1 + n;
    }

    /** Entry.getKey(idx) and getValue(idx) for the head of bucket i. */
    method EntryAt(i: nat, idx: nat) returns (key: K, value: V)
      requires Valid() && i < buckets.Length && idx < |View()[i]|
      ensures (key, value) == View()[i][idx]
    {
      assert BucketOk(i);
      var e := Walk(buckets[i], idx, chains[i]);
      key, value := e.key, e.value;
    }

    method Walk(e: Entry<K, V>, idx: nat, ghost chain: seq<Entry<K, V>>) returns (r: Entry<K, V>)
      requires Linked(chain, e) && idx < |chain|
      ensures r == chain[idx]
      decreases idx
    {
      if idx == 0 {
        return e;
      }
      assert chain[0].next == chain[0 + 1];
      r := Walk(e.next, idx - 1, chain[1..]);
    }
  }

  // ----- what a listing lists -----

  lemma {:induction false} FlattenMember<T>(view: seq<seq<T>>, x: T)
    ensures x in Flatten(view) <==> exists i :: 0 <= i < |view| && x in view[i]
  {
    if view != [] {
      FlattenMember(view[..|view| - 1], x);
    }
  }

  /** The buckets from 0 up to n list each of their keys once. */
  lemma {:induction false} FlattenDistinct<K, V>(view: seq<seq<(K, V)>>, hash: K -> nat, m: map<K, V>, n: nat)
    requires Holds(view, hash, m) && n <= |view|
    ensures forall a, b :: 0 <= a < b < |Flatten(view[..n])| ==> Flatten(view[..n])[a].0 != Flatten(view[..n])[b].0
    ensures forall a :: 0 <= a < |Flatten(view[..n])| ==> |view| > 0 && hash(Flatten(view[..n])[a].0) % |view| < n
  {
    if n > 0 {
      FlattenDistinct(view, hash, m, n - 1);
      assert view[..n][..n - 1] == view[..n - 1];
      var front, last := Flatten(view[..n - 1]), view[n - 1];
      assert Flatten(view[..n]) == front + last;
    }
  }

  /** Every entry listed is one of the map's. */
  lemma ListingIsSound<K, V>(view: seq<seq<(K, V)>>, hash: K -> nat, m: map<K, V>, a: nat)
    requires Holds(view, hash, m) && a < |Flatten(view)|
    ensures Flatten(view)[a].0 in m && m[Flatten(view)[a].0] == Flatten(view)[a].1
  {
    FlattenMember(view, Flatten(view)[a]);
  }

  /** Every key of the map is listed. */
  lemma ListingHasKey<K, V>(view: seq<seq<(K, V)>>, hash: K -> nat, m: map<K, V>, k: K) returns (a: nat)
    requires Holds(view, hash, m) && k in m
    ensures a < |Flatten(view)| && Flatten(view)[a].0 == k
  {
    var b := hash(k) % |view|;
    var j :| 0 <= j < |view[b]| && view[b][j].0 == k;
    FlattenMember(view, view[b][j]);
    a :| 0 <= a < |Flatten(view)| && Flatten(view)[a] == view[b][j];
  }

  /** A listing of the table lists every key of the map once, each with its value. */
  lemma ListingIsComplete<K, V>(view: seq<seq<(K, V)>>, hash: K -> nat, m: map<K, V>)
    requires Holds(view, hash, m)
    ensures forall k :: k in m <==> k in Keys(Flatten(view))
    ensures forall a :: 0 <= a < |Flatten(view)| ==>
              Flatten(view)[a].0 in m && m[Flatten(view)[a].0] == Flatten(view)[a].1
    ensures forall a, b :: 0 <= a < b < |Flatten(view)| ==> Flatten(view)[a].0 != Flatten(view)[b].0
    ensures |Flatten(view)| == |m|
  {
    assert view[..|view|] == view;
    FlattenDistinct(view, hash, m, |view|);
    var all := Flatten(view);
    forall a | 0 <= a < |all|
      ensures all[a].0 in m && m[all[a].0] == all[a].1
    {
      ListingIsSound(view, hash, m, a);
    }
    forall k | k in m
      ensures k in Keys(all)
    {
      var a := ListingHasKey(view, hash, m, k);
      assert Keys(all)[a] == k;
    }
    KeysListed(all, m);
  }

  /** The keys and the values of a listing, side by side, are those of the map. */
  lemma EntriesListed<K, V>(view: seq<seq<(K, V)>>, hash: K -> nat, m: map<K, V>)
    requires Holds(view, hash, m)
    ensures ListsEntries(Keys(Flatten(view)), Values(Flatten(view)), m)
  {
    ListingIsComplete(view, hash, m);
  }

  /** If all lists the keys of m, each once, there are as many entries as keys. */
  lemma KeysListed<K, V>(all: seq<(K, V)>, m: map<K, V>)
    requires forall k :: k in m ==> k in Keys(all)
    requires forall a :: 0 <= a < |all| ==> all[a].0 in m
    requires forall a, b :: 0 <= a < b < |all| ==> all[a].0 != all[b].0
    ensures (forall k :: k in m <==> k in Keys(all)) && |all| == |m|
  {
    forall k | k in Keys(all)
      ensures k in m
    {
      var a :| 0 <= a < |all| && Keys(all)[a] == k;
    }
    DistinctCount(Keys(all), m.Keys);
  }

  lemma {:induction false} DistinctCount<K>(ks: seq<K>, s: set<K>)
    requires forall a, b :: 0 <= a < b < |ks| ==> ks[a] != ks[b]
    requires forall k :: k in s <==> k in ks
    ensures |ks| == |s|
    decreases |ks|
  {
    if ks == [] {
      assert s == {};
    } else {
      var t, last := ks[..|ks| - 1], ks[|ks| - 1];
      assert ks == t + [last];
      DistinctCount(t, s - {last});
    }
  }

  // ----- copying -----

  /** What the first i entries of a listing make of an empty map. */
  ghost function MapOf<K, V>(keys: seq<K>, values: seq<V>, i: nat): map<K, V>
    requires i <= |keys| == |values|
  {
    if i == 0 then map[] else MapOf(keys, values, i - 1)[keys[i - 1] := values[i - 1]]
  }

  lemma {:induction false} MapOfListed<K, V>(keys: seq<K>, values: seq<V>, m: map<K, V>, i: nat)
    requires ListsEntries(keys, values, m) && i <= |keys|
    ensures forall k :: k in MapOf(keys, values, i) <==> k in keys[..i]
    ensures forall k :: k in MapOf(keys, values, i) ==> k in m && MapOf(keys, values, i)[k] == m[k]
  {
    if i > 0 {
      MapOfListed(keys, values, m, i - 1);
      assert keys[..i] == keys[..i - 1] + [keys[i - 1]];
    }
  }

  lemma AllIsTheMap<K, V>(keys: seq<K>, values: seq<V>, m: map<K, V>)
    requires ListsEntries(keys, values, m)
    ensures MapOf(keys, values, |keys|) == m
  {
    MapOfListed(keys, values, m, |keys|);
    assert keys[..|keys|] == keys;
  }
}
