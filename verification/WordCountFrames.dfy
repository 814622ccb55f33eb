/**
 Word count as the nodes run it: the words and every node's counts are frames in the
 stores, fetched by whoever needs them, under keys that never collide.
 */
module WordCountFrames {
  import opened Messages
  import opened RowBlocks
  import opened BlockKeys
  import opened ColumnStore
  import opened Columns
  import opened DataFrame
  import opened StoredFrames
  import opened HashMap
  import opened WordCount

  // ----- the keys -----

  /** "data", the frame of words. */
  const DATA_KEY := Key([100, 97, 116, 97], 0)

  /** "wc-m" and the node, the frame of that node's counts. */
  function PartKey(id: nat): Key {
    Key([119, 99, DASH] + ([109] + Decimal(id)), 0)
  }

  /** No frame's block key is the key of a node's counts: it ends in a number. */
  lemma PartIsNoBlockKey(id: nat, base: String, numNodes: nat)
    requires numNodes > 0
    ensures !IsBlockKey(PartKey(id), base, numNodes)
  {
    assert ([109] + Decimal(id))[0] == 109;
    forall col: nat, b: nat
      ensures PartKey(id) != GenKey(base, col, b, numNodes)
    {
      if PartKey(id) == GenKey(base, col, b, numNodes) {
        assert PartKey(id).str == [119, 99] + [DASH] + ([109] + Decimal(id));
        LastDash([119, 99], [109] + Decimal(id), base + [DASH] + Decimal(col), Decimal(b));
        DecimalDigits(b);
        assert false;
      }
    }
  }

  lemma DataIsNoBlockKey(base: String, numNodes: nat)
    requires numNodes > 0
    ensures !IsBlockKey(DATA_KEY, base, numNodes)
  {
    forall col: nat, b: nat
      ensures DATA_KEY != GenKey(base, col, b, numNodes)
    {
      assert GenKey(base, col, b, numNodes).str[|base|] == DASH;
    }
  }

  lemma KeysDiffer(i: nat, j: nat)
    ensures PartKey(i).str != DATA_KEY.str
    ensures i != j ==> PartKey(i).str != PartKey(j).str
  {
    assert PartKey(i).str[2] == DASH && DATA_KEY.str[2] != DASH;
    if PartKey(i).str == PartKey(j).str {
      assert PartKey(i).str[4..] == Decimal(i) && PartKey(j).str[4..] == Decimal(j);
      DecimalRoundTrip(i);
      DecimalRoundTrip(j);
    }
  }

  // ----- rows -----

  function WordRows(words: seq<String>): (r: seq<Row>)
    ensures |r| == |words| && forall i :: 0 <= i < |r| ==> r[i] == [S(words[i])]
  {
    seq(|words|, i requires 0 <= i < |words| => [S(words[i])])
  }

  function CountRows(counts: seq<(String, nat)>): (r: seq<Row>)
    ensures |r| == |counts| && forall i :: 0 <= i < |r| ==> r[i] == [S(counts[i].0), I(counts[i].1)]
  {
    seq(|counts|, i requires 0 <= i < |counts| => [S(counts[i].0), I(counts[i].1)])
  }

  /** The words an Adder finds in the rows it is shown: the strings of column 0. */
  function WordsOf(rows: seq<Row>): (r: seq<String>)
    requires forall i :: 0 <= i < |rows| ==> |rows[i]| > 0
    ensures |r| == |rows| && forall i :: 0 <= i < |r| ==> r[i] == StrOf(rows[i][0])
  {
    seq(|rows|, i requires 0 <= i < |rows| => StrOf(rows[i][0]))
  }

  lemma ShownWords(words: seq<String>, idxs: seq<nat>, shown: seq<Row>)
    requires AreRowsAt(shown, WordRows(words), idxs)
    ensures (forall i :: 0 <= i < |shown| ==> |shown[i]| > 0) && WordsOf(shown) == WordsAt(words, idxs)
  {
    forall k | 0 <= k < |idxs|
      ensures shown[k] == [S(words[idxs[k]])]
    {
      assert shown[k] == WordRows(words)[idxs[k]];
    }
  }

  // ----- one node -----

  /** What a program run can be given: words that fit a string block, fewer than 2^31. */
  predicate ValidWords(words: seq<String>) {
    |words| < 0x8000_0000 && forall i :: 0 <= i < |words| ==> Codec.ValidString(words[i])
  }

  lemma TalliesFit(counts: seq<(String, nat)>, words: seq<String>, mine: seq<String>)
    requires ValidWords(words) && Tallies(counts, mine) && |mine| <= |words| && forall w :: w in mine ==> w in words
    ensures AllFit(CountRows(counts), [Codec.Str, Codec.Integer])
  {
    forall i | 0 <= i < |counts|
      ensures FitsSchema(CountRows(counts)[i], [Codec.Str, Codec.Integer])
    {
      assert multiset(mine)[counts[i].0] <= |multiset(mine)| == |mine|;
    }
  }

  /** local_count up to its frame: a node fetches the words, maps an Adder over the rows
      homed on it, and lists its table. */
  method CountLocally(store: Stores, ghost f: Codec.Frame, ghost words: seq<String>, id: nat, hash: String -> nat,
                      args: Args)
    returns (counts: seq<(String, nat)>)
    requires args.Valid() && IsStored(f, DATA_KEY, store.data, WordRows(words), args)
    ensures Tallies(counts, LocalWords(words, |words|, args.blockSize, args.numNodes, id))
  {
    var frame := WaitAndGetFrame(store, DATA_KEY, args, f, WordRows(words));
    var rows := frame.LocalMapRows(id, WordRows(words));
    ghost var mine := LocalWords(words, |words|, args.blockSize, args.numNodes, id);
    LocalWordsAt(words, |words|, args.blockSize, args.numNodes, id);
    ShownWords(words, RowsOf(|words|, args.blockSize, args.numNodes, id), rows);
    var table := new Map<String, nat>(hash, 4);
    AddWords(table, WordsOf(rows), []);
    assert [] + mine == mine;
    counts := TallyRows(table, mine);
  }

  // ----- all nodes -----

  /** The frames of the first nodes' counts are stored under their keys. */
  ghost predicate PartsStored(frames: seq<Codec.Frame>, parts: seq<seq<(String, nat)>>, data: map<Key, Value>,
                              args: Args)
    requires args.Valid()
  {
    && |frames| == |parts|
    && forall j :: 0 <= j < |frames| ==>
         IsStored(frames[j], PartKey(j), data, CountRows(parts[j]), args)
  }

  lemma PartStaysStored(f: Codec.Frame, j: nat, counts: seq<(String, nat)>, before: map<Key, Value>,
                        after: map<Key, Value>, args: Args, id: nat)
    requires args.Valid() && IsStored(f, PartKey(j), before, CountRows(counts), args) && j != id
    requires KeptApart(before, after, PartKey(id), args.numNodes)
    ensures IsStored(f, PartKey(j), after, CountRows(counts), args)
  {
    KeysDiffer(j, id);
    PartIsNoBlockKey(j, PartKey(id).str, args.numNodes);
    PartIsNoBlockKey(id, PartKey(j).str, args.numNodes);
    StaysStored(f, PartKey(j), before, after, CountRows(counts), args, PartKey(id));
  }

  lemma PartsStayStored(frames: seq<Codec.Frame>, parts: seq<seq<(String, nat)>>, before: map<Key, Value>,
                        after: map<Key, Value>, args: Args, id: nat)
    requires args.Valid() && PartsStored(frames, parts, before, args) && |frames| <= id
    requires KeptApart(before, after, PartKey(id), args.numNodes)
    ensures PartsStored(frames, parts, after, args)
  {
    forall j | 0 <= j < |frames|
      ensures IsStored(frames[j], PartKey(j), after, CountRows(parts[j]), args)
    {
      PartStaysStored(frames[j], j, parts[j], before, after, args, id);
    }
  }

  /** The next node's frame joins them. */
  lemma NextPartStored(frames: seq<Codec.Frame>, parts: seq<seq<(String, nat)>>, data: map<Key, Value>, args: Args,
                       f: Codec.Frame, counts: seq<(String, nat)>)
    requires args.Valid() && PartsStored(frames, parts, data, args)
    requires IsStored(f, PartKey(|frames|), data, CountRows(counts), args)
    ensures PartsStored(frames + [f], parts + [counts], data, args)
  {
  }

  lemma WordsStayStored(f: Codec.Frame, words: seq<String>, before: map<Key, Value>, after: map<Key, Value>,
                        args: Args, id: nat)
    requires args.Valid() && IsStored(f, DATA_KEY, before, WordRows(words), args)
    requires KeptApart(before, after, PartKey(id), args.numNodes)
    ensures IsStored(f, DATA_KEY, after, WordRows(words), args)
  {
    KeysDiffer(id, id);
    DataIsNoBlockKey(PartKey(id).str, args.numNodes);
    PartIsNoBlockKey(id, DATA_KEY.str, args.numNodes);
    StaysStored(f, DATA_KEY, before, after, WordRows(words), args, PartKey(id));
  }

  lemma PartKeyFits(id: nat, numNodes: nat, n: nat)
    requires id < numNodes && Codec.IsSize(numNodes + n + 20)
    ensures Codec.ValidKey(PartKey(id)) && Codec.IsSize(|PartKey(id).str| + 4 + n + 4)
  {
    DecimalLength(id);
  }

  /** local_count on node id: its counts are stored under its key, everything else stays. */
  method LocalCountOn(store: Stores, ghost f: Codec.Frame, ghost words: seq<String>, id: nat, hash: String -> nat,
                      args: Args,
                      ghost frames: seq<Codec.Frame>, ghost parts: seq<seq<(String, nat)>>)
    returns (ghost part: Codec.Frame, ghost counts: seq<(String, nat)>)
    requires args.Valid() && ValidWords(words) && Codec.IsSize(args.numNodes + |words| + 20)
    requires id == |parts| < args.numNodes
    requires IsStored(f, DATA_KEY, store.data, WordRows(words), args)
    requires PartsStored(frames, parts, store.data, args)
    modifies store
    ensures IsStored(f, DATA_KEY, store.data, WordRows(words), args)
    ensures PartsStored(frames + [part], parts + [counts], store.data, args)
    ensures Tallies(counts, LocalWords(words, |words|, args.blockSize, args.numNodes, id))
  {
    ghost var before := store.data;
    ghost var mine := LocalWords(words, |words|, args.blockSize, args.numNodes, id);
    var rows := CountLocally(store, f, words, id, hash, args);
    counts := rows;
    LocalWordsAmong(words, |words|, args.blockSize, args.numNodes, id);
    TalliesFit(rows, words, mine);
    FewTallies(rows, mine);
    PartKeyFits(id, args.numNodes, |rows|);
    part := StoreFrame(store, PartKey(id), [Codec.Str, Codec.Integer], CountRows(rows), args);
    WordsStayStored(f, words, before, store.data, args, id);
    PartsStayStored(frames, parts, before, store.data, args, id);
    NextPartStored(frames, parts, store.data, args, part, rows);
  }

  lemma {:induction false} LocalWordsAmong(words: seq<String>, n: nat, bs: nat, numNodes: nat, id: nat)
    requires bs > 0 && numNodes > 0 && n <= |words|
    ensures |LocalWords(words, n, bs, numNodes, id)| <= n
    ensures forall w :: w in LocalWords(words, n, bs, numNodes, id) ==> w in words
  {
    if n > 0 {
      LocalWordsAmong(words, n - 1, bs, numNodes, id);
    }
  }

  /** There are no more rows than words. */
  lemma FewTallies(counts: seq<(String, nat)>, words: seq<String>)
    requires Tallies(counts, words)
    ensures |counts| <= |words|
  {
    var keys, all := Keys(counts), set w | w in words;
    DistinctCount(keys, all);
    SetOfSeq(words);
  }

  lemma {:induction false} SetOfSeq<T>(s: seq<T>)
    ensures |set x | x in s| <= |s|
  {
    if s != [] {
      var t := s[..|s| - 1];
      SetOfSeq(t);
      assert (set x | x in s) == (set x | x in t) + {s[|s| - 1]};
    }
  }

  lemma WordsCounted(counts: seq<(String, nat)>)
    ensures WordsOf(CountRows(counts)) == Keys(counts)
    ensures CountRows(counts)[0..|counts|] == CountRows(counts)
  {
  }

  /** Node 0 fetches a node's counts and is shown their words. */
  method FetchPart(store: Stores, ghost f: Codec.Frame, id: nat, ghost counts: seq<(String, nat)>, args: Args)
    returns (words: seq<String>)
    requires args.Valid() && IsStored(f, PartKey(id), store.data, CountRows(counts), args)
    ensures words == Keys(counts)
  {
    var frame := WaitAndGetFrame(store, PartKey(id), args, f, CountRows(counts));
    var rows := frame.Map(0, frame.numRows, CountRows(counts));
    WordsCounted(counts);
    words := WordsOf(rows);
  }

  lemma NextTally(parts: seq<seq<(String, nat)>>, counts: seq<(String, nat)>, words: seq<String>, bs: nat,
                  numNodes: nat)
    requires bs > 0 && numNodes > 0 && PartsOf(parts, words, bs, numNodes)
    requires Tallies(counts, LocalWords(words, |words|, bs, numNodes, |parts|))
    ensures PartsOf(parts + [counts], words, bs, numNodes)
  {
  }

  lemma NextKeys(parts: seq<seq<(String, nat)>>, id: nat)
    requires id < |parts|
    ensures AllKeys(parts[..id + 1]) == AllKeys(parts[..id]) + Keys(parts[id])
  {
    assert parts[..id + 1][..id] == parts[..id];
  }

  /** local_count on all nodes. */
  method CountAll(store: Stores, ghost f: Codec.Frame, ghost words: seq<String>, hash: String -> nat, args: Args)
    returns (ghost frames: seq<Codec.Frame>, ghost parts: seq<seq<(String, nat)>>)
    requires args.Valid() && ValidWords(words) && Codec.IsSize(args.numNodes + |words| + 20)
    requires IsStored(f, DATA_KEY, store.data, WordRows(words), args)
    modifies store
    ensures IsStored(f, DATA_KEY, store.data, WordRows(words), args)
    ensures |parts| == args.numNodes && PartsStored(frames, parts, store.data, args)
    ensures PartsOf(parts, words, args.blockSize, args.numNodes)
  {
    frames, parts := [], [];
    for id := 0 to args.numNodes
      invariant IsStored(f, DATA_KEY, store.data, WordRows(words), args)
      invariant |parts| == id && PartsStored(frames, parts, store.data, args)
      invariant PartsOf(parts, words, args.blockSize, args.numNodes)
    {
      ghost var part, counts := LocalCountOn(store, f, words, id, hash, args, frames, parts);
      NextTally(parts, counts, words, args.blockSize, args.numNodes);
      frames, parts := frames + [part], parts + [counts];
    }
  }

  /** merge, for the counts of the next node. */
  method MergeNext(store: Stores, ghost frames: seq<Codec.Frame>, id: nat, ghost parts: seq<seq<(String, nat)>>,
                   args: Args, table: Map<String, nat>)
    requires args.Valid() && id < |parts| && PartsStored(frames, parts, store.data, args)
    requires table.Valid() && table.M == Counted(AllKeys(parts[..id]))
    modifies table.Repr
    ensures table.Valid() && fresh(table.Repr - old(table.Repr))
    ensures table.M == Counted(AllKeys(parts[..id + 1]))
  {
    var words := FetchPart(store, frames[id], id, parts[id], args);
    NextKeys(parts, id);
    AddWords(table, words, AllKeys(parts[..id]));
  }

  /** reduce: node 0 fetches and merges the counts of all nodes. */
  method ReduceAll(store: Stores, ghost frames: seq<Codec.Frame>, ghost parts: seq<seq<(String, nat)>>, args: Args,
                   table: Map<String, nat>)
    requires args.Valid() && |parts| == args.numNodes && PartsStored(frames, parts, store.data, args)
    requires table.Valid() && table.M == map[] && store !in table.Repr
    modifies table.Repr
    ensures table.Valid() && table.M == Counted(AllKeys(parts))
  {
    for id := 0 to args.numNodes
      invariant table.Valid() && fresh(table.Repr - old(table.Repr)) && store.data == old(store.data)
      invariant table.M == Counted(AllKeys(parts[..id]))
    {
      MergeNext(store, frames, id, parts, args, table);
    }
    assert parts[..args.numNodes] == parts;
  }

  /** reduce, and the number that it prints. */
  method ReduceAndPrint(store: Stores, ghost words: seq<String>, ghost frames: seq<Codec.Frame>,
                        ghost parts: seq<seq<(String, nat)>>, args: Args, table: Map<String, nat>)
    returns (different: nat)
    requires args.Valid() && |parts| == args.numNodes && PartsStored(frames, parts, store.data, args)
    requires PartsOf(parts, words, args.blockSize, args.numNodes)
    requires table.Valid() && table.M == map[] && store !in table.Repr
    modifies table.Repr
    ensures table.Valid() && table.M.Keys == Distinct(words) && different == |Distinct(words)|
    ensures forall w :: w in words ==> table.M[w] == NodesWith(words, args.blockSize, args.numNodes, w, args.numNodes)
    ensures store.data == old(store.data)
  {
    ReduceAll(store, frames, parts, args, table);
    ReducedTable(words, args.blockSize, args.numNodes, parts);
    different := table.Size();
  }

  /** Node 0 stores the words, and all nodes count them. */
  method StoreAndCount(store: Stores, words: seq<String>, hash: String -> nat, args: Args)
    returns (ghost f: Codec.Frame, ghost frames: seq<Codec.Frame>, ghost parts: seq<seq<(String, nat)>>)
    requires args.Valid() && ValidWords(words) && Codec.IsSize(args.numNodes + |words| + 20)
    modifies store
    ensures IsStored(f, DATA_KEY, store.data, WordRows(words), args)
    ensures |parts| == args.numNodes && PartsStored(frames, parts, store.data, args)
    ensures PartsOf(parts, words, args.blockSize, args.numNodes)
  {
    f := StoreFrame(store, DATA_KEY, [Codec.Str], WordRows(words), args);
    frames, parts := CountAll(store, f, words, hash, args);
  }

  /** The whole program over the stores: node 0 stores the words, every node fetches them,
      counts those homed on it and stores its counts, and node 0 fetches and merges these.
      Afterwards the words and the counts of every node can still be fetched. */
  method RunOnFrames(store: Stores, words: seq<String>, hash: String -> nat, args: Args, table: Map<String, nat>)
    returns (different: nat, ghost f: Codec.Frame, ghost frames: seq<Codec.Frame>,
             ghost parts: seq<seq<(String, nat)>>)
    requires args.Valid() && ValidWords(words) && Codec.IsSize(args.numNodes + |words| + 20)
    requires table.Valid() && table.M == map[] && store !in table.Repr
    modifies store, table.Repr
    ensures table.Valid() && table.M.Keys == Distinct(words) && different == |Distinct(words)|
    ensures forall w :: w in words ==> table.M[w] == NodesWith(words, args.blockSize, args.numNodes, w, args.numNodes)
    ensures IsStored(f, DATA_KEY, store.data, WordRows(words), args)
    ensures |parts| == args.numNodes && PartsStored(frames, parts, store.data, args)
    ensures PartsOf(parts, words, args.blockSize, args.numNodes)
  {
    f, frames, parts := StoreAndCount(store, words, hash, args);
    different := ReduceAndPrint(store, words, frames, parts, args, table);
  }
}
