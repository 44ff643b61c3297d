/**
  lfs_ctz_index (lfs.c:2130): the closed form that maps a file position to a block
  index and an in-block offset. Block 0 of a CTZ list is all data; block i > 0 starts
  with ctz(i) + 1 pointers of four bytes.
 */
module CtzIndex {
  import opened Util

  const FILE_MAX: nat := 0x7fff_ffff

  /** Bytes of pointers at the start of block i. */
  function Header(i: nat): nat {
    if i == 0 then 0 else 4 * (Ctz(i) + 1)
  }

  /** The file position of the first data byte of block i: the capacities of the blocks before it. */
  function Start(blockSize: nat, i: nat): int {
    if i == 0 then 0 else Start(blockSize, i - 1) + blockSize - Header(i - 1)
  }

  ghost predicate InBlock(blockSize: nat, i: nat, pos: nat) {
    Start(blockSize, i) <= pos < Start(blockSize, i + 1)
  }

  function PointersUpTo(n: nat): nat {
    if n == 0 then 0 else PointersUpTo(n - 1) + Ctz(n) + 1
  }

  /** The identity behind the closed form: the first n blocks after block 0 hold 2n - popcount(n) pointers. */
  lemma {:induction false} PointerSum(n: nat)
    ensures PointersUpTo(n) + PopCount(n) == 2 * n
  {
    if n > 0 {
      PointerSum(n - 1);
      PopCountStep(n);
    }
  }

  lemma {:induction false} StartFromPointers(blockSize: nat, i: nat)
    requires i > 0
    ensures Start(blockSize, i) == blockSize * i - 4 * PointersUpTo(i - 1)
  {
    if i > 1 {
      StartFromPointers(blockSize, i - 1);
      assert blockSize * i == blockSize * (i - 1) + blockSize;
    }
  }

  lemma StartClosedForm(blockSize: nat, i: nat)
    requires i > 0 && blockSize >= 8
    ensures Start(blockSize, i) == (blockSize - 8) * i + 4 * (PopCount(i - 1) + 2)
  {
    StartFromPointers(blockSize, i);
    PointerSum(i - 1);
    assert (blockSize - 8) * i == blockSize * i - 8 * i;
  }

  /** A position lies in one block only. */
  lemma InBlockUnique(blockSize: nat, i: nat, j: nat, pos: nat)
    requires blockSize >= 104 && pos <= FILE_MAX
    requires InBlock(blockSize, i, pos) && InBlock(blockSize, j, pos)
    ensures i == j
  {
    if i < j { StartsAscend(blockSize, i + 1, j, pos); }
    if j < i { StartsAscend(blockSize, j + 1, i, pos); }
  }

  lemma {:induction false} StartsAscend(blockSize: nat, i: nat, j: nat, pos: nat)
    requires blockSize >= 104 && pos <= FILE_MAX && i <= j
    requires pos < Start(blockSize, i)
    ensures pos < Start(blockSize, j)
    decreases j
  {
    if i < j {
      StartsAscend(blockSize, i, j - 1, pos);
      if j - 1 > 0 {
        if j - 1 < Pow2(25) {
          SmallPowers();
          CtzSmall(j - 1, 25);
        } else {
          StartClosedForm(blockSize, j);
          SmallPowers();
          MulLe(96, blockSize - 8, j);
        }
      }
    }
  }

  lemma {:induction false} CtzSmall(n: nat, k: nat)
    requires 0 < n < Pow2(k)
    ensures Ctz(n) < k
  {
    if n % 2 == 0 {
      CtzSmall(n / 2, k - 1);
    }
  }

  /** Indices of positions up to FILE_MAX have at most 24 one bits. */
  lemma OneBits(n: nat)
    requires 96 * n <= FILE_MAX
    ensures PopCount(n) <= 24
  {
    SmallPowers();
    assert Pow2(23) == 0x800000 by { assert 2 * Pow2(23) == Pow2(24); }
    if n < Pow2(24) {
      PopCountBound(n, 24);
    } else {
      var u := n - Pow2(24);
      PopCountTop(u, 24);
      PopCountBound(u, 23);
    }
  }

  /**
    When the closed form is right, told from the size alone. With b = blockSize - 8 and the
    first guess g = size / b, the correction takes popcount(g - 1) where the block
    before g would need popcount(g - 2); the result is wrong when exactly one of the
    two corrections crosses a second block boundary.
  */
  predicate GuessCorrects(blockSize: nat, size: nat)
    requires blockSize > 8
  {
    CorrectionFits(blockSize - 8, size / (blockSize - 8), size % (blockSize - 8))
  }

  predicate CorrectionFits(b: nat, g: nat, d: nat) {
    || g <= 1
    || d >= 4 * (PopCount(g - 1) + 2)
    || (d + b >= 4 * (PopCount(g - 1) + 2) <==> d + b >= 4 * (PopCount(g - 2) + 2))
  }

  /** From 112 bytes per block on, it is right for every position a file can have. */
  lemma GuessCorrectsFrom112(blockSize: nat, size: nat)
    requires blockSize >= 112 && size <= FILE_MAX
    ensures GuessCorrects(blockSize, size)
  {
    var b := blockSize - 8;
    var g := size / b;
    if g > 1 {
      assert size == b * g + size % b;
      MulLe(96, b, g);
      OneBits(g - 1);
      OneBits(g - 2);
    }
  }

  /** A block size for which it is right up to a limit: any from 112 on, or a smaller one with short files. */
  ghost predicate Placed(blockSize: nat, limit: nat) {
    blockSize >= 104 && limit <= FILE_MAX && forall p: nat :: p <= limit ==> GuessCorrects(blockSize, p)
  }

  lemma PlacedAt(blockSize: nat, limit: nat, p: nat)
    requires Placed(blockSize, limit) && p <= limit
    ensures GuessCorrects(blockSize, p)
  {
    hide GuessCorrects;
  }

  lemma PlacedFrom112(blockSize: nat)
    requires blockSize >= 112
    ensures Placed(blockSize, FILE_MAX)
  {
    forall p: nat | p <= FILE_MAX
      ensures GuessCorrects(blockSize, p)
    {
      GuessCorrectsFrom112(blockSize, p);
    }
  }

  /** lfs_ctz_index. The in-out parameter `off` is the pair size, off here. */
  method Index(blockSize: nat, size: nat) returns (i: nat, off: int)
    requires blockSize >= 104 && size <= FILE_MAX
    ensures GuessCorrects(blockSize, size) <==> InBlock(blockSize, i, size)
    ensures GuessCorrects(blockSize, size) ==> off == size - Start(blockSize, i) + Header(i)
    ensures GuessCorrects(blockSize, size) ==> Header(i) <= off < blockSize
  {
    hide PopCount, Start, InBlock, Header, GuessCorrects;
    var b := blockSize - 2 * 4;
    i := size / b;
    if i == 0 {
      off := size;
      FirstBlock(blockSize, size);
      return;
    }
    Corrected(b, size, i);
    i := (size - 4 * (PopCount(i - 1) + 2)) / b;
    off := size - b * i - 4 * PopCount(i);
    if GuessCorrects(blockSize, size) {
      OffsetForm(blockSize, i, size);
    }
  }

  lemma FirstBlock(blockSize: nat, size: nat)
    requires blockSize >= 104 && size / (blockSize - 8) == 0
    ensures GuessCorrects(blockSize, size) && InBlock(blockSize, 0, size)
    ensures Start(blockSize, 0) == 0 && Header(0) == 0 && size < blockSize
  {
    assert Start(blockSize, 1) == blockSize;
  }

  /** The three quotients the correction can produce. */
  lemma Quotient(b: nat, g: nat, d: nat, size: nat, corr: nat)
    requires b >= 96 && g > 0 && d < b && size == b * g + d
    requires corr <= 104 && (g == 1 ==> corr <= b)
    ensures size >= corr
    ensures (size - corr) / b == if d >= corr then g else if d + b >= corr then g - 1 else g - 2
  {
    MulLe(1, g, b);
    if d >= corr {
      QuotientIs(size - corr, b, g, d - corr);
    } else if d + b >= corr {
      assert b * (g - 1) == b * g - b;
      QuotientIs(size - corr, b, g - 1, d + b - corr);
    } else {
      MulLe(2, g, b);
      assert b * (g - 2) == b * g - 2 * b;
      QuotientIs(size - corr, b, g - 2, d + 2 * b - corr);
    }
  }

  lemma BitsNear(b: nat, g: nat, size: nat)
    requires b >= 96 && g > 0 && b * g <= size <= FILE_MAX
    ensures PopCount(g - 1) <= 24 && PopCount(g) <= 24
    ensures g > 1 ==> PopCount(g - 2) <= 24
    ensures g > 2 ==> PopCount(g - 3) <= 24
    ensures g == 1 ==> PopCount(g - 1) == 0
  {
    MulLe(96, b, g);
    OneBits(g);
    OneBits(g - 1);
    if g > 1 { OneBits(g - 2); }
    if g > 2 { OneBits(g - 3); }
  }

  lemma Corrected(b: nat, size: nat, g: nat)
    requires b >= 96 && size <= FILE_MAX && g > 0 && g == size / b
    ensures var corr := 4 * (PopCount(g - 1) + 2);
            size >= corr && (size - corr) / b >= 0
            && (GuessCorrects(b + 8, size) <==> InBlock(b + 8, (size - corr) / b, size))
  {
    hide PopCount, InBlock, CorrectionFits;
    assert b + 8 - 8 == b;
    CorrectedDivided(b, size, g, size % b);
  }

  lemma CorrectedDivided(b: nat, size: nat, g: nat, d: nat)
    requires b >= 96 && g > 0 && d < b && size == b * g + d && size <= FILE_MAX
    ensures var corr := 4 * (PopCount(g - 1) + 2);
            size >= corr && (size - corr) / b >= 0
            && (CorrectionFits(b, g, d) <==> InBlock(b + 8, (size - corr) / b, size))
  {
    hide PopCount, InBlock, CorrectionFits;
    BitsNear(b, g, size);
    var corr := 4 * (PopCount(g - 1) + 2);
    Quotient(b, g, d, size, corr);
    var i := if d >= corr then g else if d + b >= corr then g - 1 else g - 2;
    CorrectedGuess(b, g, d, size, corr, i);
  }

  lemma CorrectedGuess(b: nat, g: nat, d: nat, size: nat, corr: nat, i: nat)
    requires b >= 96 && g > 0 && d < b && size == b * g + d
    requires corr == 4 * (PopCount(g - 1) + 2)
    requires i == if d >= corr then g else if d + b >= corr then g - 1 else g - 2
    requires g > 1 ==> PopCount(g - 2) <= 24
    requires g > 2 ==> PopCount(g - 3) <= 24
    requires g == 1 ==> PopCount(g - 1) == 0
    ensures CorrectionFits(b, g, d) <==> InBlock(b + 8, i, size)
  {
    if d >= corr {
      GuessedBlock(b, g, d, size);
    } else if g == 1 {
      assert Start(b + 8, 1) == b + 8;
    } else if d + b >= corr {
      assert b * (g - 1) == b * g - b;
      InBlockForm(b, g - 1, size);
    } else {
      TwoBack(b, g, d, size);
    }
  }

  lemma GuessedBlock(b: nat, g: nat, d: nat, size: nat)
    requires b >= 96 && g > 0 && d < b && size == b * g + d && d >= 4 * (PopCount(g - 1) + 2)
    ensures InBlock(b + 8, g, size)
  {
    InBlockForm(b, g, size);
  }

  lemma TwoBack(b: nat, g: nat, d: nat, size: nat)
    requires b >= 96 && g > 1 && d < b && size == b * g + d
    requires g > 2 ==> PopCount(g - 3) <= 24
    requires g == 2 ==> PopCount(g - 2) == 0
    ensures InBlock(b + 8, g - 2, size) <==> d + b < 4 * (PopCount(g - 2) + 2)
  {
    assert b * (g - 2) == b * g - 2 * b;
    if g > 2 {
      InBlockForm(b, g - 2, size);
    } else {
      assert Start(b + 8, 1) == b + 8;
    }
  }

  lemma InBlockForm(b: nat, i: nat, size: nat)
    requires i > 0
    ensures InBlock(b + 8, i, size) <==>
            b * i + 4 * (PopCount(i - 1) + 2) <= size < b * i + b + 4 * (PopCount(i) + 2)
  {
    StartClosedForm(b + 8, i);
    StartClosedForm(b + 8, i + 1);
    assert b * (i + 1) == b * i + b;
  }

  lemma QuotientIs(n: int, d: int, q: int, r: int)
    requires d > 0 && n == d * q + r && 0 <= r < d
    ensures n / d == q
  {
    DivModUnique(n, d, q, r);
  }

  lemma OffsetForm(blockSize: nat, i: nat, size: nat)
    requires blockSize >= 104 && InBlock(blockSize, i, size)
    ensures size - (blockSize - 8) * i - 4 * PopCount(i) == size - Start(blockSize, i) + Header(i)
    ensures Header(i) <= size - Start(blockSize, i) + Header(i) < blockSize
  {
    if i > 0 {
      StartClosedForm(blockSize, i);
      PopCountStep(i);
    }
  }

  /** The block sizes 104 to 111 pass the check in lfs_init but are misplaced at some positions. */
  lemma IndexWrongAt104()
    ensures !GuessCorrects(104, 96 * 0x800000) && 96 * 0x800000 <= FILE_MAX
    ensures 4 * CeilLog2(0xffff_ffff / (104 - 8)) <= 104
  {
    hide PopCount, Pow2, FloorLog2;
    var g: nat := 0x800000;
    OnesBelow(23);
    OnesBelow(22);
    SmallPowers();
    PowersAt22();
    CountBit(false, g / 2 - 1);
    GuessFails(104, g, 96 * g);
    assert 0xffff_ffff / (104 - 8) == 44739242;
    FloorLog2Unique(44739241, 25);
  }

  lemma PowersAt22()
    ensures Pow2(22) == 0x400000 && Pow2(23) == 0x800000 && Pow2(26) == 0x4000000
  {
    SmallPowers();
    assert 2 * Pow2(23) == Pow2(24);
    assert 2 * Pow2(22) == Pow2(23);
    assert 2 * Pow2(25) == Pow2(26);
  }

  lemma GuessFails(blockSize: nat, g: nat, size: nat)
    requires blockSize == 104 && g > 1 && size == 96 * g
    requires PopCount(g - 1) == 23 && PopCount(g - 2) == 22
    ensures !GuessCorrects(blockSize, size)
  {
    hide PopCount;
    DivModUnique(size, 96, g, 0);
  }

  lemma {:induction false} OnesBelow(k: nat)
    ensures PopCount(Pow2(k) - 1) == k
  {
    if k > 0 {
      OnesBelow(k - 1);
      assert (Pow2(k) - 1) / 2 == Pow2(k - 1) - 1;
    }
  }
}
