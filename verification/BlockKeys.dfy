/**
 The keys under which a column stores its blocks, and how values are cut into blocks.
 */
module BlockKeys {
  import opened Messages
  import opened RowBlocks

  const DASH: byte := 45

  /** The decimal digits of n, as StrBuff.c prints a size_t. */
  function Decimal(n: nat): (r: String)
    ensures DASH !in r && 0 !in r
  {
    if n < 10 then [48 + n] else Decimal(n / 10) + [48 + n % 10]
  }

  lemma {:induction false} DecimalDigits(n: nat)
    ensures Decimal(n) != [] && forall i :: 0 <= i < |Decimal(n)| ==> 48 <= Decimal(n)[i] < 58
  {
    if n >= 10 {
      DecimalDigits(n / 10);
    }
  }

  lemma {:induction false} DecimalLength(n: nat)
    ensures |Decimal(n)| <= n + 1
  {
    if n >= 10 {
      DecimalLength(n / 10);
    }
  }

  function Parse(s: String): int {
    if s == [] then 0 else 10 * Parse(s[..|s| - 1]) + s[|s| - 1] - 48
  }

  lemma {:induction false} DecimalRoundTrip(n: nat)
    ensures Parse(Decimal(n)) == n
  {
    if n >= 10 {
      DecimalRoundTrip(n / 10);
      var front := Decimal(n / 10);
      assert Decimal(n)[..|Decimal(n)| - 1] == front;
    } else {
      assert Decimal(n)[..0] == [];
    }
  }

  function Pow10(k: nat): nat {
    if k == 0 then 1 else 10 * Pow10(k - 1)
  }

  lemma DivideByTen(n: nat, d: nat)
    requires d > 0
    ensures n / 10 / d == n / (10 * d)
  {
    var q, r := n / 10 / d, n / 10 % d;
    assert n / 10 == q * d + r;
    assert n == q * (10 * d) + (10 * r + n % 10);
    BlockAndOffset(q, 10 * r + n % 10, 10 * d);
  }

  /** Counted from its end, digit i stands for the i-th power of ten; there are enough
      digits for the number, and none in front that is zero but for zero itself. */
  lemma {:induction false} DecimalDigitIs(n: nat, i: nat)
    requires i < |Decimal(n)|
    ensures Pow10(i) > 0 && Decimal(n)[|Decimal(n)| - 1 - i] == 48 + n / Pow10(i) % 10
    ensures n < Pow10(|Decimal(n)|) && (n > 0 ==> Decimal(n)[0] != 48)
  {
    if n >= 10 {
      DecimalDigits(n / 10);
      DecimalDigitIs(n / 10, if i > 0 then i - 1 else 0);
      if i > 0 {
        DivideByTen(n, Pow10(i - 1));
      }
    }
  }

  /** genKey_: the base key's string, the column and the block; homed round-robin by block. */
  function GenKey(base: String, col: nat, block: nat, numNodes: nat): Key
    requires numNodes > 0
  {
    Key(base + [DASH] + Decimal(col) + [DASH] + Decimal(block), block % numNodes)
  }

  /** The blocks of a column go to the nodes in turn, from node 0 on. */
  lemma BlocksInTurn(base: String, col: nat, block: nat, numNodes: nat)
    requires numNodes > 0
    ensures GenKey(base, col, 0, numNodes).home == 0
    ensures GenKey(base, col, block + 1, numNodes).home == NextNode(GenKey(base, col, block, numNodes).home, numNodes)
  {
    BlockAndOffset(0, 0, numNodes);
    OneNodeOn(block, numNodes);
  }

  /** A string splits at its last dash in one way only. */
  lemma LastDash(x: String, d: String, y: String, e: String)
    requires DASH !in d && DASH !in e && x + [DASH] + d == y + [DASH] + e
    ensures x == y && d == e
  {
    var s := x + [DASH] + d;
    assert s == y + [DASH] + e;
    assert s[|x|] == DASH && s[|y|] == DASH;
    forall i | |x| < i < |s|
      ensures s[i] != DASH
    {
      assert s[i] == d[i - |x| - 1];
    }
    forall i | |y| < i < |s|
      ensures s[i] != DASH
    {
      assert s[i] == e[i - |y| - 1];
    }
    assert |x| == |y|;
    assert x == s[..|x|] && y == s[..|y|];
    assert d == s[|x| + 1..] && e == s[|y| + 1..];
  }

  /** Block keys never collide: whatever dashes or digits the bases contain, two equal key
      strings come from the same base, column and block. */
  lemma KeysNeverCollide(base1: String, col1: nat, block1: nat, base2: String, col2: nat, block2: nat, numNodes: nat)
    requires numNodes > 0
    requires GenKey(base1, col1, block1, numNodes).str == GenKey(base2, col2, block2, numNodes).str
    ensures base1 == base2 && col1 == col2 && block1 == block2
  {
    LastDash(base1 + [DASH] + Decimal(col1), Decimal(block1), base2 + [DASH] + Decimal(col2), Decimal(block2));
    LastDash(base1, Decimal(col1), base2, Decimal(col2));
    DecimalRoundTrip(col1);
    DecimalRoundTrip(col2);
    DecimalRoundTrip(block1);
    DecimalRoundTrip(block2);
  }

  // ----- values cut into blocks -----

  function Least(a: nat, b: nat): nat { if a <= b then a else b }

  /** The values in runs of bs, the last run possibly shorter. */
  function Chunks<T>(vals: seq<T>, bs: nat): seq<seq<T>>
    requires bs > 0
    decreases |vals|
  {
    if vals == [] then [] else [vals[..Least(|vals|, bs)]] + Chunks(vals[Least(|vals|, bs)..], bs)
  }

  /** There are just enough runs for the values. */
  lemma {:induction false} ChunkCount<T>(vals: seq<T>, bs: nat)
    requires bs > 0
    ensures |Chunks(vals, bs)| == (|vals| + bs - 1) / bs
    ensures |vals| % bs == 0 ==> |Chunks(vals, bs)| == |vals| / bs
    decreases |vals|
  {
    if |vals| > bs {
      var rest := vals[bs..];
      ChunkCount(rest, bs);
      OneBlockMore(|rest|, bs);
      OneBlockMore(|rest| + bs - 1, bs);
    } else if vals != [] {
      assert vals[|vals|..] == [];
      BlockAndOffset(1, |vals| - 1, bs);
      if |vals| < bs {
        BlockAndOffset(0, |vals|, bs);
      } else {
        BlockAndOffset(1, 0, bs);
      }
    } else {
      BlockAndOffset(0, bs - 1, bs);
      BlockAndOffset(0, 0, bs);
    }
  }

  lemma {:induction false} NoMoreChunksThanValues<T>(vals: seq<T>, bs: nat)
    requires bs > 0
    ensures |Chunks(vals, bs)| <= |vals|
    decreases |vals|
  {
    if vals != [] {
      NoMoreChunksThanValues(vals[Least(|vals|, bs)..], bs);
    }
  }

  lemma OneBlockMore(n: nat, bs: nat)
    requires bs > 0
    ensures (n + bs) / bs == n / bs + 1 && (n + bs) % bs == n % bs
  {
    BlockAfter(n, bs);
    BlockAndOffset(n / bs + 1, n % bs, bs);
  }

  lemma OneBlockLess(n: nat, bs: nat)
    requires bs > 0 && n > 0 && n % bs == 0
    ensures n >= bs && (n - bs) % bs == 0
  {
    if n < bs {
      BlockAndOffset(0, n, bs);
    } else {
      OneBlockMore(n - bs, bs);
    }
  }

  lemma Distribute(q: nat, bs: nat)
    ensures (q + 1) * bs == q * bs + bs
  {
  }

  lemma LaterChunk<T>(vals: seq<T>, bs: nat, b: nat)
    requires 0 < bs <= |vals| && b < |Chunks(vals[bs..], bs)|
    ensures |Chunks(vals, bs)| > b + 1 && Chunks(vals, bs)[b + 1] == Chunks(vals[bs..], bs)[b]
  {
    assert Chunks(vals, bs) == [vals[..bs]] + Chunks(vals[bs..], bs);
  }

  lemma {:induction false} ChunkAtOffset<T>(vals: seq<T>, bs: nat, i: nat, b: nat, r: nat)
    requires r < bs && i == b * bs + r && i < |vals|
    ensures b < |Chunks(vals, bs)| && r < |Chunks(vals, bs)[b]| && Chunks(vals, bs)[b][r] == vals[i]
    decreases b
  {
    if b > 0 {
      Distribute(b - 1, bs);
      ChunkAtOffset(vals[bs..], bs, i - bs, b - 1, r);
      LaterChunk(vals, bs, b - 1);
    }
  }

  /** Value i is in run i / bs, at i % bs. */
  lemma ChunkAt<T>(vals: seq<T>, bs: nat, i: nat)
    requires bs > 0 && i < |vals|
    ensures i / bs < |Chunks(vals, bs)| && i % bs < |Chunks(vals, bs)[i / bs]|
    ensures Chunks(vals, bs)[i / bs][i % bs] == vals[i]
  {
    ChunkAtOffset(vals, bs, i, i / bs, i % bs);
  }

  lemma HasChunk<T>(vals: seq<T>, bs: nat, i: nat)
    requires bs > 0 && i < |vals|
    ensures BlockOfRow(i, bs) < |Chunks(vals, bs)|
  {
    ChunkAt(vals, bs, i);
  }

  lemma {:induction false} ChunkIsSliceAt<T>(vals: seq<T>, bs: nat, b: nat, at: nat)
    requires bs > 0 && b < |Chunks(vals, bs)| && at == b * bs
    ensures at <= |vals| && Chunks(vals, bs)[b] == vals[at..Least(at + bs, |vals|)]
    decreases b
  {
    if b > 0 {
      Distribute(b - 1, bs);
      assert vals[Least(|vals|, bs)..] != [];
      ChunkIsSliceAt(vals[bs..], bs, b - 1, at - bs);
      SliceOfRest(vals, bs, at - bs);
    }
  }

  /** Run b holds the values from b * bs up to the end of the block or of the values. */
  lemma ChunkIsSlice<T>(vals: seq<T>, bs: nat, b: nat)
    requires bs > 0 && b < |Chunks(vals, bs)|
    ensures b * bs <= |vals| && Chunks(vals, bs)[b] == vals[b * bs..Least((b + 1) * bs, |vals|)]
  {
    ChunkIsSliceAt(vals, bs, b, b * bs);
    Distribute(b, bs);
  }

  lemma SliceOfRest<T>(vals: seq<T>, bs: nat, i: nat)
    requires i + bs <= |vals|
    ensures vals[bs..][i..Least(i + bs, |vals| - bs)] == vals[i + bs..Least(i + bs + bs, |vals|)]
  {
  }

  /** Values appended behind full blocks start a new block. */
  lemma {:induction false} ChunksAppend<T>(front: seq<T>, back: seq<T>, bs: nat)
    requires bs > 0 && |front| % bs == 0
    ensures Chunks(front + back, bs) == Chunks(front, bs) + Chunks(back, bs)
    decreases |front|
  {
    if front == [] {
      assert front + back == back;
    } else {
      OneBlockLess(|front|, bs);
      ChunksAppend(front[bs..], back, bs);
      assert (front + back)[..bs] == front[..bs];
      assert (front + back)[bs..] == front[bs..] + back;
    }
  }
}
