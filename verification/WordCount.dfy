/**
 Word count: the cursor that turns a hash table into rows, the reader that counts words
 into one, and the two put together over the nodes.
 */
module WordCount {
  import opened Messages
  import opened HashMap
  import opened RowBlocks

  /** Bucket i, j entries into it, after seen entries in all. */
  ghost predicate CursorAt<T>(view: seq<seq<T>>, i: nat, j: nat, seen: nat) {
    && i <= |view| && (if i < |view| then j <= |view[i]| else j == 0)
    && seen == |Flatten(view[..i])| + j
  }

  twostate lemma TableStays<K, V>(table: Map<K, V>)
    requires old(table.Valid()) && unchanged(table) && forall o :: o in old(table.Repr) ==> unchanged(o)
    ensures table.Valid() && table.View() == old(table.View())
  {
  }

  /** Summer: a cursor over the buckets of a table. */
  class Summer<K(==), V> {
    const table: Map<K, V>
    var i: nat
    var j: nat
    var seen: nat

    /** The table's entries, bucket by bucket. */
    ghost const view: seq<seq<(K, V)>>

    ghost predicate Valid()
      reads this, table, table.Repr
    {
      table.Valid() && this !in table.Repr && table.View() == view && CursorAt(view, i, j, seen)
    }

    constructor (table: Map<K, V>)
      requires table.Valid()
      ensures Valid() && this.table == table && seen == 0 && view == table.View()
    {
      this.table, view, i, j, seen := table, table.View(), 0, 0, 0;
    }

    /** The test that k, v and next share: is there an entry at the cursor? */
    method AtEntry() returns (b: bool)
      requires Valid()
      ensures b == (i < |view| && j < |view[i]|)
    {
      if i == table.buckets.Length {
        return false;
      }
      var isEmpty := table.IsNullBucket(i);
      if isEmpty {
        return false;
      }
      var n := table.BucketLength(i);
      return j < n;
    }

    /** Where next moves the cursor: past the entry at it, or from the end of a bucket to
        the start of the next one that is not empty. */
    method Advance() returns (i': nat, j': nat, seen': nat)
      requires Valid()
      ensures CursorAt(view, i', j', seen')
      ensures if i == |view| then seen' == seen
              else if j < |view[i]| then seen' == seen + 1
              else seen' == seen && (i' < |view| ==> j' < |view[i']|)
    {
      i', j', seen' := i, j, seen;
      var atEntry := AtEntry();
      if atEntry {
        j', seen' := j + 1, seen + 1;
      } else if i < table.buckets.Length {
        i' := NextBucket(i + 1);
        j' := 0;
        FlattenMore(view, i);
        FlattenEmpty(view, i + 1, i');
      }
    }

    method SetCursor(i': nat, j': nat, seen': nat)
      requires Valid() && CursorAt(view, i', j', seen')
      modifies this
      ensures Valid() && i == i' && j == j' && seen == seen'
    {
      i, j, seen := i', j', seen';
      TableStays(table);
    }

    method Next()
      requires Valid()
      modifies this
      ensures Valid()
      ensures if old(i) == |view| then seen == old(seen)
              else if old(j) < |view[old(i)]| then seen == old(seen) + 1
              else seen == old(seen) && (i < |view| ==> j < |view[i]|)
    {
      var i', j', seen' := Advance();
      SetCursor(i', j', seen');
    }

    method IsEmpty(b: nat) returns (r: bool)
      requires Valid() && b < |view|
      ensures r == (view[b] == [])
    {
      r := table.IsNullBucket(b);
    }

    /** The loop of next over empty buckets. */
    method NextBucket(start: nat) returns (b: nat)
      requires Valid() && start <= |view|
      ensures start <= b <= |view| && (b < |view| ==> |view[b]| > 0)
      ensures forall k :: start <= k < b ==> view[k] == []
    {
      b := start;
      while b < table.buckets.Length
        invariant start <= b <= |view|
        invariant forall k :: start <= k < b ==> view[k] == []
      {
        var isEmpty := IsEmpty(b);
        if !isEmpty {
          break;
        }
        b := b + 1;
      }
    }

    method Done() returns (b: bool)
      requires Valid()
      ensures b == (seen == |table.M|) == (seen == |Flatten(view)|)
    {
      EntryCount(table);
      return seen == table.size;
    }

    /** k and v at an entry. */
    method Current() returns (row: (K, V))
      requires Valid() && i < |view| && j < |view[i]|
      ensures seen < |Flatten(view)| && row == Flatten(view)[seen]
    {
      var key, value := table.EntryAt(i, j);
      FlattenAt(view, i, j);
      row := (key, value);
    }

    /** visit, before done: the row gets the next entry of the table; the key the code
        dereferences is not null. */
    method Visit() returns (row: (K, V))
      requires Valid() && seen < |Flatten(view)|
      modifies this
      ensures Valid() && seen == old(seen) + 1 && row == Flatten(view)[old(seen)]
    {
      assert view[..|view|] == view;
      var atEntry := AtEntry();
      if !atEntry {
        Next();
      }
      row := Current();
      Next();
    }
  }

  method VisitOne<K(==), V>(writer: Summer<K, V>, rows: seq<(K, V)>) returns (rows': seq<(K, V)>)
    requires writer.Valid() && writer.seen < |Flatten(writer.view)| && rows == Flatten(writer.view)[..writer.seen]
    modifies writer
    ensures writer.Valid() && writer.seen == old(writer.seen) + 1 && rows' == Flatten(writer.view)[..writer.seen]
  {
    var row := writer.Visit();
    rows' := rows + [row];
    OneMore(Flatten(writer.view), writer.seen - 1);
  }

  method VisitNext<K(==), V>(writer: Summer<K, V>, rows: seq<(K, V)>) returns (rows': seq<(K, V)>, finished: bool)
    requires writer.Valid() && writer.seen < |Flatten(writer.view)| && rows == Flatten(writer.view)[..writer.seen]
    modifies writer
    ensures writer.Valid() && writer.seen == old(writer.seen) + 1 && rows' == Flatten(writer.view)[..writer.seen]
    ensures finished == (writer.seen == |Flatten(writer.view)|)
  {
    rows' := VisitOne(writer, rows);
    finished := writer.Done();
  }

  /** DataFrame.visit with a Summer: the rows of the frame built from a table are all its
      entries, in bucket order. */
  method SummedRows<K(==), V>(table: Map<K, V>) returns (rows: seq<(K, V)>)
    requires table.Valid()
    ensures rows == Flatten(table.View())
  {
    var writer := new Summer(table);
    rows := [];
    var finished := writer.Done();
    while !finished
      invariant writer.Valid()
      invariant writer.seen <= |Flatten(writer.view)| && finished == (writer.seen == |Flatten(writer.view)|)
      invariant rows == Flatten(writer.view)[..writer.seen]
      modifies writer
      decreases |Flatten(writer.view)| - writer.seen
    {
      rows, finished := VisitNext(writer, rows);
    }
  }

  lemma OneMore<T>(all: seq<T>, n: nat)
    requires n < |all|
    ensures all[..n + 1] == all[..n] + [all[n]]
  {
  }

  lemma EntryCount<K, V>(table: Map<K, V>)
    requires table.Valid()
    ensures |Flatten(table.View())| == |table.M|
  {
    table.ViewHolds();
    ListingIsComplete(table.View(), table.hash, table.M);
  }

  lemma {:induction false} FlattenEmpty<T>(view: seq<seq<T>>, lo: nat, hi: nat)
    requires lo <= hi <= |view| && forall k :: lo <= k < hi ==> view[k] == []
    ensures |Flatten(view[..hi])| == |Flatten(view[..lo])|
    decreases hi
  {
    if lo < hi {
      FlattenEmpty(view, lo, hi - 1);
      FlattenMore(view, hi - 1);
    }
  }

  lemma FlattenMore<T>(view: seq<seq<T>>, i: nat)
    requires i < |view|
    ensures |Flatten(view[..i + 1])| == |Flatten(view[..i])| + |view[i]|
  {
    assert view[..i + 1][..i] == view[..i];
  }

  lemma {:induction false} FlattenAt<T>(view: seq<seq<T>>, i: nat, j: nat)
    requires i < |view| && j < |view[i]|
    ensures |Flatten(view[..i])| + j < |Flatten(view)| && Flatten(view)[|Flatten(view[..i])| + j] == view[i][j]
  {
    var last := |view| - 1;
    if i < last {
      assert view[..last][..i] == view[..i];
      FlattenAt(view[..last], i, j);
    }
  }

  // ----- counting -----

  /** One more occurrence of the word. */
  function Bumped(m: map<String, nat>, word: String): map<String, nat> {
    m[word := (if word in m then m[word] else 0) + 1]
  }

  function Counted(words: seq<String>): map<String, nat> {
    if words == [] then map[] else Bumped(Counted(words[..|words| - 1]), words[|words| - 1])
  }

  /** Counting words one by one gives each word that occurs its number of occurrences. */
  lemma {:induction false} CountedIs(words: seq<String>, w: String)
    ensures w in Counted(words) <==> w in words
    ensures w in words ==> Counted(words)[w] == multiset(words)[w]
  {
    if words != [] {
      var front := words[..|words| - 1];
      CountedIs(front, w);
      assert words == front + [words[|words| - 1]];
    }
  }

  /** Adder.visit: fetch the count of the word or start at zero, add one, put it back. */
  method AdderVisit(table: Map<String, nat>, word: String)
    requires table.Valid()
    modifies table.Repr
    ensures table.Valid() && fresh(table.Repr - old(table.Repr)) && table.M == Bumped(old(table.M), word)
  {
    var num := CountOf(table, word);
    var previous := table.Put(word, num + 1);
  }

  method CountOf(table: Map<String, nat>, word: String) returns (num: nat)
    requires table.Valid()
    ensures num == if word in table.M then table.M[word] else 0
  {
    num := 0;
    var known := table.ContainsKey(word);
    if known {
      var n := table.Get(word);
      num := n.value;
    }
  }

  lemma CountedMore(before: seq<String>, words: seq<String>, i: nat)
    requires i < |words|
    ensures Counted(before + words[..i + 1]) == Bumped(Counted(before + words[..i]), words[i])
  {
    var all := before + words[..i + 1];
    assert all[..|all| - 1] == before + words[..i];
  }

  /** A frame of words mapped through an Adder. */
  method AddWords(table: Map<String, nat>, words: seq<String>, ghost before: seq<String>)
    requires table.Valid() && table.M == Counted(before)
    modifies table.Repr
    ensures table.Valid() && fresh(table.Repr - old(table.Repr)) && table.M == Counted(before + words)
  {
    assert before + words[..0] == before;
    ghost var counts := table.M;
    for i := 0 to |words|
      invariant table.Valid() && fresh(table.Repr - old(table.Repr)) && table.M == counts
      invariant counts == Counted(before + words[..i])
    {
      AdderVisit(table, words[i]);
      CountedMore(before, words, i);
      counts := Bumped(counts, words[i]);
    }
    assert words[..|words|] == words;
  }

  // ----- copying a map of counts -----

  function WithEntry(m: map<String, nat>, key: String, val: nat): map<String, nat> { m[key := val] }

  lemma OneMoreEntry(keys: seq<String>, values: seq<nat>, i: nat)
    requires i < |keys| == |values|
    ensures MapOf(keys, values, i + 1) == WithEntry(MapOf(keys, values, i), keys[i], values[i])
  {
  }

  /** SIMap::set. */
  method SetValue(table: Map<String, nat>, key: String, val: nat)
    requires table.Valid()
    modifies table.Repr
    ensures table.Valid() && fresh(table.Repr - old(table.Repr)) && table.M == WithEntry(old(table.M), key, val)
  {
    var previous := table.Put(key, val);
  }

  /** The loop of the copy constructor of SIMap: key by key, each with the value at the same
      index. */
  method PutAll(copy: Map<String, nat>, keys: seq<String>, values: seq<nat>)
    requires copy.Valid() && copy.M == map[] && |keys| == |values|
    modifies copy.Repr
    ensures copy.Valid() && fresh(copy.Repr - old(copy.Repr)) && copy.M == MapOf(keys, values, |keys|)
  {
    ghost var m := copy.M;
    for i := 0 to |keys|
      invariant copy.Valid() && fresh(copy.Repr - old(copy.Repr)) && copy.M == m
      invariant m == MapOf(keys, values, i)
    {
      SetValue(copy, keys[i], values[i]);
      OneMoreEntry(keys, values, i);
      m := WithEntry(m, keys[i], values[i]);
    }
  }

  /** The copy constructor of SIMap: the copy is the same map. */
  method CopyOf(other: Map<String, nat>, hash: String -> nat, capacity: nat) returns (copy: Map<String, nat>)
    requires other.Valid() && capacity > 0
    ensures copy.Valid() && fresh(copy.Repr) && copy.M == other.M
  {
    var keys, values := other.GetEntries();
    AllIsTheMap(keys, values, other.M);
    copy := new Map<String, nat>(hash, capacity);
    PutAll(copy, keys, values);
  }

  // ----- the words of one node -----

  /** The words at the given rows. */
  function WordsAt(words: seq<String>, idxs: seq<nat>): seq<String>
    requires forall k :: 0 <= k < |idxs| ==> idxs[k] < |words|
  {
    seq(|idxs|, k requires 0 <= k < |idxs| => words[idxs[k]])
  }

  /** Of the first n rows, the words whose rows are homed on node id. */
  function LocalWords(words: seq<String>, n: nat, bs: nat, numNodes: nat, id: nat): seq<String>
    requires bs > 0 && numNodes > 0 && n <= |words|
  {
    if n == 0 then []
    else if HomeOfRow(n - 1, bs, numNodes) == id then LocalWords(words, n - 1, bs, numNodes, id) + [words[n - 1]]
    else LocalWords(words, n - 1, bs, numNodes, id)
  }

  lemma {:induction false} LocalWordsAt(words: seq<String>, n: nat, bs: nat, numNodes: nat, id: nat)
    requires bs > 0 && numNodes > 0 && n <= |words|
    ensures var idxs := RowsOf(n, bs, numNodes, id);
      && (forall k :: 0 <= k < |idxs| ==> idxs[k] < |words|)
      && WordsAt(words, idxs) == LocalWords(words, n, bs, numNodes, id)
  {
    if n > 0 {
      LocalWordsAt(words, n - 1, bs, numNodes, id);
    }
  }

  /** rows gives every word of words once, with its number of occurrences. */
  ghost predicate Tallies(rows: seq<(String, nat)>, words: seq<String>) {
    && (forall a :: 0 <= a < |rows| ==> rows[a].0 in words && rows[a].1 == multiset(words)[rows[a].0])
    && (forall a, b :: 0 <= a < b < |rows| ==> rows[a].0 != rows[b].0)
    && (forall w :: w in words ==> w in Keys(rows))
  }

  lemma ListingTallies(table: Map<String, nat>, words: seq<String>)
    requires table.Valid() && table.M == Counted(words)
    ensures Tallies(Flatten(table.View()), words)
  {
    table.ViewHolds();
    var rows := Flatten(table.View());
    ListingIsComplete(table.View(), table.hash, table.M);
    forall a | 0 <= a < |rows|
      ensures rows[a].0 in words && rows[a].1 == multiset(words)[rows[a].0]
    {
      CountedIs(words, rows[a].0);
    }
    forall w | w in words
      ensures w in Keys(rows)
    {
      CountedIs(words, w);
    }
  }

  /** local_count: the frame a node builds has one row for every distinct word in its own
      blocks, with how often it occurs there. */
  method LocalCount(words: seq<String>, bs: nat, numNodes: nat, id: nat, hash: String -> nat, capacity: nat)
    returns (rows: seq<(String, nat)>)
    requires bs > 0 && numNodes > 0 && capacity > 0
    ensures Tallies(rows, LocalWords(words, |words|, bs, numNodes, id))
  {
    var idxs := LocalMap(|words|, bs, numNodes, id);
    LocalWordsAt(words, |words|, bs, numNodes, id);
    var table := new Map<String, nat>(hash, capacity);
    ghost var mine := LocalWords(words, |words|, bs, numNodes, id);
    AddWords(table, WordsAt(words, idxs), []);
    assert [] + mine == mine;
    rows := TallyRows(table, mine);
  }

  method TallyRows(table: Map<String, nat>, ghost words: seq<String>) returns (rows: seq<(String, nat)>)
    requires table.Valid() && table.M == Counted(words)
    ensures Tallies(rows, words)
  {
    ListingTallies(table, words);
    rows := SummedRows(table);
  }

  // ----- the reduction -----

  /** The words in the frames of all nodes, one after the other. */
  function AllKeys(parts: seq<seq<(String, nat)>>): seq<String> {
    if parts == [] then [] else AllKeys(parts[..|parts| - 1]) + Keys(parts[|parts| - 1])
  }

  /** On how many of the first n nodes the word w occurs. */
  function NodesWith(words: seq<String>, bs: nat, numNodes: nat, w: String, n: nat): nat
    requires bs > 0 && numNodes > 0
  {
    if n == 0 then 0
    else
      var here := if w in LocalWords(words, |words|, bs, numNodes, n - 1) then 1 else 0;
      NodesWith(words, bs, numNodes, w, n - 1) + here
  }

  /** The frames of the first n nodes. */
  ghost predicate PartsOf(parts: seq<seq<(String, nat)>>, words: seq<String>, bs: nat, numNodes: nat)
    requires bs > 0 && numNodes > 0
  {
    forall id :: 0 <= id < |parts| ==> Tallies(parts[id], LocalWords(words, |words|, bs, numNodes, id))
  }

  /** In the rows of one node a word stands once or not at all. */
  lemma KeyOnce(rows: seq<(String, nat)>, words: seq<String>, w: String)
    requires Tallies(rows, words)
    ensures multiset(Keys(rows))[w] == if w in words then 1 else 0
  {
    OnceIn(Keys(rows), w);
    if w in Keys(rows) {
      var a :| 0 <= a < |rows| && Keys(rows)[a] == w;
    }
  }

  lemma {:induction false} OnceIn(ks: seq<String>, w: String)
    requires forall a, b :: 0 <= a < b < |ks| ==> ks[a] != ks[b]
    ensures multiset(ks)[w] == if w in ks then 1 else 0
  {
    if ks != [] {
      var front := ks[..|ks| - 1];
      assert ks == front + [ks[|ks| - 1]];
      OnceIn(front, w);
    }
  }

  lemma FirstParts(parts: seq<seq<(String, nat)>>, words: seq<String>, bs: nat, numNodes: nat, n: nat)
    requires bs > 0 && numNodes > 0 && n <= |parts| && PartsOf(parts, words, bs, numNodes)
    ensures PartsOf(parts[..n], words, bs, numNodes)
  {
    assert forall id :: 0 <= id < n ==> parts[..n][id] == parts[id];
  }

  lemma OccurrencesAdd(a: seq<String>, b: seq<String>, w: String)
    ensures multiset(a + b)[w] == multiset(a)[w] + multiset(b)[w]
  {
  }

  lemma {:induction false} KeysCountNodes(parts: seq<seq<(String, nat)>>, words: seq<String>, bs: nat, numNodes: nat,
                                          w: String)
    requires bs > 0 && numNodes > 0 && PartsOf(parts, words, bs, numNodes)
    ensures multiset(AllKeys(parts))[w] == NodesWith(words, bs, numNodes, w, |parts|)
  {
    if parts != [] {
      var n := |parts| - 1;
      FirstParts(parts, words, bs, numNodes, n);
      KeysCountNodes(parts[..n], words, bs, numNodes, w);
      KeyOnce(parts[n], LocalWords(words, |words|, bs, numNodes, n), w);
      OccurrencesAdd(AllKeys(parts[..n]), Keys(parts[n]), w);
    }
  }

  // ----- what the reduction finds -----

  /** How often w occurs on the first n nodes together. */
  function OccurrencesOn(words: seq<String>, len: nat, bs: nat, numNodes: nat, w: String, n: nat): nat
    requires bs > 0 && numNodes > 0 && len <= |words|
  {
    if n == 0 then 0
    else OccurrencesOn(words, len, bs, numNodes, w, n - 1) + multiset(LocalWords(words, len, bs, numNodes, n - 1))[w]
  }

  /** One more row adds to the one node it is homed on. */
  lemma {:induction false} OneMoreOccurrence(words: seq<String>, len: nat, bs: nat, numNodes: nat, w: String, n: nat)
    requires bs > 0 && numNodes > 0 && len < |words|
    ensures OccurrencesOn(words, len + 1, bs, numNodes, w, n) == OccurrencesOn(words, len, bs, numNodes, w, n)
              + if words[len] == w && HomeOfRow(len, bs, numNodes) < n then 1 else 0
  {
    if n > 0 {
      OneMoreOccurrence(words, len, bs, numNodes, w, n - 1);
    }
  }

  /** The nodes share the words out: none is lost, none is counted twice. */
  lemma {:induction false} WordsAreShared(words: seq<String>, len: nat, bs: nat, numNodes: nat, w: String)
    requires bs > 0 && numNodes > 0 && len <= |words|
    ensures OccurrencesOn(words, len, bs, numNodes, w, numNodes) == multiset(words[..len])[w]
  {
    if len == 0 {
      NoOccurrence(words, bs, numNodes, w, numNodes);
    } else {
      WordsAreShared(words, len - 1, bs, numNodes, w);
      OneMoreOccurrence(words, len - 1, bs, numNodes, w, numNodes);
      assert words[..len] == words[..len - 1] + [words[len - 1]];
    }
  }

  lemma {:induction false} NoOccurrence(words: seq<String>, bs: nat, numNodes: nat, w: String, n: nat)
    requires bs > 0 && numNodes > 0
    ensures OccurrencesOn(words, 0, bs, numNodes, w, n) == 0
  {
    if n > 0 {
      NoOccurrence(words, bs, numNodes, w, n - 1);
    }
  }

  predicate AtMostOnceOn(words: seq<String>, bs: nat, numNodes: nat, w: String, id: nat)
    requires bs > 0 && numNodes > 0
  {
    multiset(LocalWords(words, |words|, bs, numNodes, id))[w] <= 1
  }

  /** The nodes with w are no more than its occurrences, and as many exactly if no node
      has w twice. */
  lemma {:induction false} NodesAgainstOccurrences(words: seq<String>, bs: nat, numNodes: nat, w: String, n: nat)
    requires bs > 0 && numNodes > 0
    ensures NodesWith(words, bs, numNodes, w, n) <= OccurrencesOn(words, |words|, bs, numNodes, w, n)
    ensures NodesWith(words, bs, numNodes, w, n) == OccurrencesOn(words, |words|, bs, numNodes, w, n)
       <==> forall id: nat :: id < n ==> AtMostOnceOn(words, bs, numNodes, w, id)
    ensures NodesWith(words, bs, numNodes, w, n) > 0 <==> OccurrencesOn(words, |words|, bs, numNodes, w, n) > 0
  {
    if n > 0 {
      NodesAgainstOccurrences(words, bs, numNodes, w, n - 1);
      var mine := LocalWords(words, |words|, bs, numNodes, n - 1);
      assert w in mine <==> multiset(mine)[w] > 0;
      assert (forall id: nat :: id < n ==> AtMostOnceOn(words, bs, numNodes, w, id))
        <==> (forall id: nat :: id < n - 1 ==> AtMostOnceOn(words, bs, numNodes, w, id))
             && AtMostOnceOn(words, bs, numNodes, w, n - 1);
    }
  }

  /** The words that occur. */
  function Distinct(words: seq<String>): set<String> { set w | w in words }

  /** The reduced table has exactly the words of the input as keys, for every block size
      and node count: its size, which the program prints, is the number of different
      words.  The count it keeps for a word is the number of nodes that have it. */
  lemma ReducedTable(words: seq<String>, bs: nat, numNodes: nat, parts: seq<seq<(String, nat)>>)
    requires bs > 0 && numNodes > 0 && |parts| == numNodes && PartsOf(parts, words, bs, numNodes)
    ensures Counted(AllKeys(parts)).Keys == Distinct(words)
    ensures forall w :: w in words ==> Counted(AllKeys(parts))[w] == NodesWith(words, bs, numNodes, w, numNodes)
  {
    var m := Counted(AllKeys(parts));
    forall w: String
      ensures w in m <==> w in words
      ensures w in words ==> m[w] == NodesWith(words, bs, numNodes, w, numNodes)
    {
      InReducedTable(words, bs, numNodes, parts, w);
    }
  }

  lemma InReducedTable(words: seq<String>, bs: nat, numNodes: nat, parts: seq<seq<(String, nat)>>, w: String)
    requires bs > 0 && numNodes > 0 && |parts| == numNodes && PartsOf(parts, words, bs, numNodes)
    ensures w in Counted(AllKeys(parts)) <==> w in words
    ensures w in words ==> Counted(AllKeys(parts))[w] == NodesWith(words, bs, numNodes, w, numNodes)
  {
    CountedIs(AllKeys(parts), w);
    KeysCountNodes(parts, words, bs, numNodes, w);
    NodesAgainstOccurrences(words, bs, numNodes, w, numNodes);
    WordsAreShared(words, |words|, bs, numNodes, w);
    assert words[..|words|] == words;
    assert w in words <==> multiset(words)[w] > 0;
    assert w in AllKeys(parts) <==> multiset(AllKeys(parts))[w] > 0;
  }

  /** The reduced counts are the numbers of occurrences exactly if no node has any word
      twice in its own blocks. */
  lemma CountsAreOccurrencesIff(words: seq<String>, bs: nat, numNodes: nat, parts: seq<seq<(String, nat)>>)
    requires bs > 0 && numNodes > 0 && |parts| == numNodes && PartsOf(parts, words, bs, numNodes)
    ensures (forall w :: w in words ==>
               w in Counted(AllKeys(parts)) && Counted(AllKeys(parts))[w] == multiset(words)[w])
       <==> (forall w, id: nat :: w in words && id < numNodes ==> AtMostOnceOn(words, bs, numNodes, w, id))
  {
    assert words[..|words|] == words;
    forall w | w in words
      ensures w in Counted(AllKeys(parts))
      ensures Counted(AllKeys(parts))[w] == multiset(words)[w]
         <==> forall id: nat :: id < numNodes ==> AtMostOnceOn(words, bs, numNodes, w, id)
    {
      InReducedTable(words, bs, numNodes, parts, w);
      NodesAgainstOccurrences(words, bs, numNodes, w, numNodes);
      WordsAreShared(words, |words|, bs, numNodes, w);
    }
  }

  lemma OneNodeHasAll(words: seq<String>, n: nat, bs: nat)
    requires bs > 0 && n <= |words|
    ensures LocalWords(words, n, bs, 1, 0) == words[..n]
  {
    if n > 0 {
      OneNodeHasAll(words, n - 1, bs);
      assert words[..n] == words[..n - 1] + [words[n - 1]];
    }
  }

  /** One node and one word written twice: it is counted once. */
  lemma TwiceCountedOnce(w: String, bs: nat, parts: seq<seq<(String, nat)>>)
    requires bs > 0 && |parts| == 1 && PartsOf(parts, [w, w], bs, 1)
    ensures w in Counted(AllKeys(parts)) && Counted(AllKeys(parts))[w] == 1 && multiset([w, w])[w] == 2
  {
    var words := [w, w];
    assert words[0] in words;
    InReducedTable(words, bs, 1, parts, w);
    OneNodeHasAll(words, |words|, bs);
    assert words[..|words|] == words;
    assert NodesWith(words, bs, 1, w, 1) == NodesWith(words, bs, 1, w, 0) + 1;
  }
}
