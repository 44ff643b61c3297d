/**
  The 32-bit helpers of lfs_util.h: the portable bodies of lfs_npw2, lfs_ctz and
  lfs_popc on machine words, each proved against plain arithmetic on natural numbers. The rest of the
  project reasons with the arithmetic side.
 */
module Util {

  // ----- arithmetic on natural numbers -----

  function Min(a: nat, b: nat): nat { if a < b then a else b }

  function Max(a: nat, b: nat): nat { if a > b then a else b }

  function AlignDown(a: nat, alignment: nat): nat
    requires alignment > 0
  {
    a - a % alignment
  }

  function AlignUp(a: nat, alignment: nat): nat
    requires alignment > 0
  {
    AlignDown(a + alignment - 1, alignment)
  }

  predicate Divides(d: nat, n: nat) { d > 0 && n % d == 0 }

  /** lfs_alignup names the least multiple of the alignment that is not below a. */
  lemma AlignUpIsLeast(a: nat, alignment: nat, m: nat)
    requires alignment > 0
    ensures AlignUp(a, alignment) % alignment == 0
    ensures a <= AlignUp(a, alignment) < a + alignment
    ensures m * alignment >= a ==> AlignUp(a, alignment) <= m * alignment
  {
    var b := a + alignment - 1;
    var q := b / alignment;
    assert b == q * alignment + b % alignment;
    assert AlignUp(a, alignment) == q * alignment;
    MultipleMod(q, alignment);
    if m * alignment >= a && m < q {
      assert (m + 1) * alignment == m * alignment + alignment;
      MulLe(m + 1, q, alignment);
    } else if q <= m {
      MulLe(q, m, alignment);
    }
  }

  lemma MultipleMod(q: nat, d: nat)
    requires d > 0
    ensures (q * d) % d == 0
  {
    DivModUnique(q * d, d, q, 0);
  }

  lemma MulLe(a: int, b: int, c: int)
    requires a <= b && c >= 0
    ensures a * c <= b * c
  {
    assert (b - a) * c >= 0;
    assert b * c - a * c == (b - a) * c;
  }

  /** Quotient and remainder are determined by the division equation. */
  lemma DivModUnique(n: int, d: int, q: int, r: int)
    requires d > 0 && n == q * d + r && 0 <= r < d
    ensures n / d == q && n % d == r
  {
    var dq := n / d - q;
    assert dq * d == r - n % d;
    if dq > 0 {
      MulLe(1, dq, d);
    } else if dq < 0 {
      MulLe(dq, -1, d);
    }
  }

  function Pow2(k: nat): (p: nat)
    ensures p >= 1
  {
    if k == 0 then 1 else 2 * Pow2(k - 1)
  }

  lemma {:induction false} Pow2Monotone(j: nat, k: nat)
    requires j < k
    ensures 2 * Pow2(j) <= Pow2(k)
    decreases k
  {
    if j < k - 1 {
      Pow2Monotone(j, k - 1);
    }
  }

  lemma Pow2Next(k: nat)
    ensures Pow2(k + 1) == 2 * Pow2(k)
  {
  }

  lemma TwiceProduct(a: nat, b: nat)
    ensures 2 * a * b == 2 * (a * b) == a * (2 * b)
  {
  }

  lemma {:induction false} Pow2Sum(j: nat, k: nat)
    ensures Pow2(j) * Pow2(k) == Pow2(j + k)
  {
    if j > 0 {
      Pow2Sum(j - 1, k);
      Pow2Next(j - 1);
      Pow2Next(j + k - 1);
      hide Pow2;
      TwiceProduct(Pow2(j - 1), Pow2(k));
    }
  }

  /** The number of one bits. */
  function PopCount(n: nat): nat {
    if n == 0 then 0 else n % 2 + PopCount(n / 2)
  }

  /** The number of trailing zero bits. */
  function Ctz(n: nat): nat
    requires n > 0
  {
    if n % 2 == 1 then 0 else 1 + Ctz(n / 2)
  }

  function FloorLog2(n: nat): nat
    requires n > 0
  {
    if n == 1 then 0 else 1 + FloorLog2(n / 2)
  }

  /** What lfs_npw2 computes: the exponent of the least power of two that is not below n. */
  function CeilLog2(n: nat): nat
    requires n > 1
  {
    FloorLog2(n - 1) + 1
  }

  lemma {:induction false} FloorLog2Bounds(n: nat)
    requires n > 0
    ensures Pow2(FloorLog2(n)) <= n < Pow2(FloorLog2(n) + 1)
  {
    if n > 1 {
      FloorLog2Bounds(n / 2);
    }
  }

  lemma FloorLog2Unique(n: nat, k: nat)
    requires Pow2(k) <= n < Pow2(k + 1)
    ensures FloorLog2(n) == k
  {
    FloorLog2Bounds(n);
    var f := FloorLog2(n);
    if f < k {
      if f + 1 < k { Pow2Monotone(f + 1, k); }
    } else if k < f {
      if k + 1 < f { Pow2Monotone(k + 1, f); }
    }
  }

  lemma FloorLog2Monotone(m: nat, n: nat)
    requires 0 < m <= n
    ensures FloorLog2(m) <= FloorLog2(n)
  {
    FloorLog2Bounds(m);
    FloorLog2Bounds(n);
    if FloorLog2(m) > FloorLog2(n) {
      if FloorLog2(m) > FloorLog2(n) + 1 { Pow2Monotone(FloorLog2(n) + 1, FloorLog2(m)); }
    }
  }

  /** lfs_npw2 rounds up: 2^r is the first power of two that reaches n. */
  lemma CeilLog2IsLeast(n: nat)
    requires n > 1
    ensures Pow2(CeilLog2(n) - 1) < n <= Pow2(CeilLog2(n))
  {
    FloorLog2Bounds(n - 1);
  }

  /** Ctz names the greatest power of two dividing n. */
  lemma {:induction false} CtzSplits(n: nat)
    requires n > 0
    ensures exists odd: nat :: odd % 2 == 1 && n == Times(odd, Pow2(Ctz(n)))
  {
    if n % 2 == 1 {
      assert n == Times(n, Pow2(Ctz(n)));
    } else {
      CtzSplits(n / 2);
      var odd: nat :| odd % 2 == 1 && n / 2 == Times(odd, Pow2(Ctz(n / 2)));
      assert 2 * (odd * Pow2(Ctz(n / 2))) == odd * (2 * Pow2(Ctz(n / 2)));
      assert n == Times(odd, Pow2(Ctz(n)));
    }
  }

  function Times(a: nat, b: nat): nat { a * b }

  lemma CtzDouble(n: nat)
    requires n > 0
    ensures Ctz(2 * n) == Ctz(n) + 1
  {
  }

  lemma {:induction false} CtzOfMultiple(odd: nat, k: nat)
    requires odd % 2 == 1
    ensures odd * Pow2(k) > 0 && Ctz(odd * Pow2(k)) == k
  {
    if k > 0 {
      CtzOfMultiple(odd, k - 1);
      Pow2Next(k - 1);
      TwiceProduct(odd, Pow2(k - 1));
      CtzDouble(odd * Pow2(k - 1));
      hide Pow2, Ctz;
    }
  }

  lemma {:induction false} PopCountStep(n: nat)
    requires n > 0
    ensures PopCount(n - 1) + 1 == PopCount(n) + Ctz(n)
  {
    if n % 2 == 0 {
      PopCountStep(n / 2);
      assert (n - 1) / 2 == n / 2 - 1;
    }
  }

  /** A number below 2^k has at most k one bits, and k only when it is 2^k - 1. */
  lemma {:induction false} PopCountBound(n: nat, k: nat)
    requires n < Pow2(k)
    ensures PopCount(n) <= k
    ensures PopCount(n) == k ==> n == Pow2(k) - 1
  {
    if n > 0 {
      PopCountBound(n / 2, k - 1);
    }
  }

  lemma {:induction false} PopCountTop(n: nat, k: nat)
    requires n < Pow2(k)
    ensures PopCount(Pow2(k) + n) == 1 + PopCount(n)
  {
    if k == 0 {
      PopCountUnfold(1);
    } else {
      Pow2Next(k - 1);
      PopCountUnfold(n);
      PopCountUnfold(Pow2(k) + n);
      hide PopCount, Pow2;
      HalfOfSum(Pow2(k - 1), n);
      PopCountTop(n / 2, k - 1);
    }
  }

  lemma HalfOfSum(p: nat, n: nat)
    ensures (2 * p + n) / 2 == p + n / 2 && (2 * p + n) % 2 == n % 2
  {
  }

  lemma PopCountUnfold(n: nat)
    ensures PopCount(n) == n % 2 + PopCount(n / 2)
  {
  }

  // ----- the portable bodies on 32-bit words -----

  const TWO_32: nat := 0x1_0000_0000

  /** The bitwise and of two words. */
  function And(a: nat, b: nat): nat {
    if a == 0 || b == 0 then 0 else (if a % 2 == 1 && b % 2 == 1 then 1 else 0) + 2 * And(a / 2, b / 2)
  }

  /** `n >> k` */
  function Shr(n: nat, k: nat): nat {
    if k == 0 then n else Shr(n / 2, k - 1)
  }

  lemma {:induction false} ShrBounds(n: nat, k: nat, j: nat)
    ensures n < Pow2(k + j) <==> Shr(n, k) < Pow2(j)
  {
    if k > 0 {
      ShrBounds(n / 2, k - 1, j);
    }
  }

  lemma {:induction false} FloorLog2Shift(n: nat, k: nat)
    requires Shr(n, k) > 0
    ensures n > 0 && FloorLog2(n) == k + FloorLog2(Shr(n, k))
  {
    if k > 0 {
      FloorLog2Shift(n / 2, k - 1);
    }
  }

  /** One step of the cascade: a value of 2k bits shifts down to k bits, by k or not at all. */
  lemma CascadeStep(a: nat, k: nat, s: nat)
    requires a < Pow2(k + k) && s == if a >= Pow2(k) then k else 0
    ensures Shr(a, s) < Pow2(k) && (a > 0 ==> Shr(a, s) > 0 && FloorLog2(a) == s + FloorLog2(Shr(a, s)))
    ensures a == 0 ==> Shr(a, s) == 0
  {
    if a >= Pow2(k) {
      ShrBounds(a, k, 0);
      ShrBounds(a, k, k);
      FloorLog2Shift(a, k);
    }
  }

  /**
    lfs_npw2, portable body. Every shift amount is a fresh power of two, so `r |= s`
    is addition. The decrement of 0 wraps.
  */
  method Npw2(x: nat) returns (r: nat)
    requires x < TWO_32
    ensures x > 1 ==> r == CeilLog2(x)
    ensures x == 1 ==> r == 1
    ensures x == 0 ==> r == 32
  {
    hide Pow2, FloorLog2, Shr;
    SmallPowers();
    FloorLog2Small();
    FloorLog2Max();
    var a := (x + TWO_32 - 1) % TWO_32;
    assert x > 0 ==> a == x - 1;
    assert x == 0 ==> a == 0xffff_ffff;
    ghost var m := a;
    var s: nat;
    r := 0;
    s := if a > 0xffff then 16 else 0; CascadeStep(a, 16, s); a := Shr(a, s); r := r + s;
    s := if a > 0xff then 8 else 0; CascadeStep(a, 8, s); a := Shr(a, s); r := r + s;
    s := if a > 0xf then 4 else 0; CascadeStep(a, 4, s); a := Shr(a, s); r := r + s;
    s := if a > 0x3 then 2 else 0; CascadeStep(a, 2, s); a := Shr(a, s); r := r + s;
    assert a < 4 && (m > 0 ==> a > 0 && FloorLog2(m) == r + FloorLog2(a));
    r := (r + a / 2) + 1;
  }

  lemma FloorLog2Max()
    ensures FloorLog2(0xffff_ffff) == 31
  {
    SmallPowers();
    FloorLog2Unique(0xffff_ffff, 31);
  }

  lemma FloorLog2Small()
    ensures FloorLog2(1) == 0 && FloorLog2(2) == 1 && FloorLog2(3) == 1
  {
  }

  lemma SmallPowers()
    ensures Pow2(16) == 0x10000 && Pow2(8) == 0x100 && Pow2(4) == 0x10 && Pow2(2) == 4
    ensures Pow2(24) == 0x1000000 && Pow2(25) == 0x2000000 && Pow2(31) == 0x80000000 && Pow2(32) == TWO_32
  {
    assert Pow2(4) == 16;
    Pow2Sum(4, 4);
    Pow2Sum(8, 8);
    Pow2Sum(16, 8);
    Pow2Sum(24, 1);
    Pow2Sum(16, 16);
    assert 2 * Pow2(31) == Pow2(32);
  }

  /** `a & -a` isolates the lowest one bit. */
  lemma {:induction false} LowestBit(a: nat, k: nat)
    requires 0 < a < Pow2(k)
    ensures And(a, Pow2(k) - a) == Pow2(Ctz(a))
  {
    if a % 2 == 0 {
      LowestBit(a / 2, k - 1);
      assert (Pow2(k) - a) / 2 == Pow2(k - 1) - a / 2;
    } else {
      Disjoint(a / 2, k - 1);
      assert (Pow2(k) - a) % 2 == 1 && (Pow2(k) - a) / 2 == Pow2(k - 1) - 1 - a / 2;
    }
  }

  /** A word and its complement have no bit in common. */
  lemma {:induction false} Disjoint(a: nat, k: nat)
    requires a < Pow2(k)
    ensures And(a, Pow2(k) - 1 - a) == 0
  {
    if k > 0 {
      Disjoint(a / 2, k - 1);
      assert (Pow2(k) - 1 - a) / 2 == Pow2(k - 1) - 1 - a / 2;
    }
  }

  /** lfs_ctz, portable body. */
  method TrailingZeros(a: nat) returns (r: nat)
    requires 0 < a < TWO_32
    ensures r == Ctz(a)
  {
    SmallPowers();
    LowestBit(a, 32);
    var low := And(a, TWO_32 - a);
    LowestBitFits(a, 32);
    r := Npw2(low + 1);
    FloorLog2Unique(low, Ctz(a));
    r := r - 1;
  }

  lemma {:induction false} LowestBitFits(a: nat, k: nat)
    requires 0 < a < Pow2(k)
    ensures Pow2(Ctz(a)) <= a
  {
    if a % 2 == 0 {
      LowestBitFits(a / 2, k - 1);
    }
  }

  /** The words with n digits 01, 0011 and 00001111. */
  function PairMask(n: nat): nat { if n == 0 then 0 else 1 + 4 * PairMask(n - 1) }
  function NibbleMask(n: nat): nat { if n == 0 then 0 else 3 + 16 * NibbleMask(n - 1) }
  function ByteMask(n: nat): nat { if n == 0 then 0 else 15 + 256 * ByteMask(n - 1) }

  /** The word whose n pairs, nibbles or bytes are the bit counts of those of a. */
  function PairCounts(a: nat, n: nat): nat {
    if n == 0 then 0 else PopCount(a % 4) + 4 * PairCounts(a / 4, n - 1)
  }
  function NibbleCounts(a: nat, n: nat): nat {
    if n == 0 then 0 else PopCount(a % 16) + 16 * NibbleCounts(a / 16, n - 1)
  }
  function ByteCounts(a: nat, n: nat): nat {
    if n == 0 then 0 else PopCount(a % 256) + 256 * ByteCounts(a / 256, n - 1)
  }

  /** lfs_popc, portable body: counts bits in pairs, nibbles and bytes side by side. */
  method CountOnes(x: nat) returns (r: nat)
    requires x < TWO_32
    ensures r == PopCount(x)
  {
    hide PairMask, NibbleMask, ByteMask, PairCounts, NibbleCounts, ByteCounts, AddPairs, AddNibbles, And, PopCount,
      Pow2;
    Masks();
    SmallPowers();
    CountsInPairs(x, 16);
    CountsInNibbles(x, 8);
    CountsInBytes(x, 4);
    SumOfBytes(x);
    var a := x;
    a := a - And(a / 2, 0x55555555);
    a := AddPairs(a, 0x33333333);
    a := AddNibbles(a, 0xf0f0f0f);
    r := (a * 0x1010101 % TWO_32) / 0x1000000;
  }

  function Bit(b: bool): nat { if b then 1 else 0 }

  /** Bitwise and, one bit at a time. */
  lemma AndBit(x: bool, a: nat, y: bool, b: nat)
    ensures And(Bit(x) + 2 * a, Bit(y) + 2 * b) == Bit(x && y) + 2 * And(a, b)
  {
    assert (Bit(x) + 2 * a) / 2 == a && (Bit(y) + 2 * b) / 2 == b;
  }

  lemma CountBit(x: bool, n: nat)
    ensures PopCount(Bit(x) + 2 * n) == Bit(x) + PopCount(n)
  {
    assert (Bit(x) + 2 * n) / 2 == n;
  }

  lemma AndPair(x0: bool, x1: bool, a: nat, y0: bool, y1: bool, b: nat)
    ensures And(Bit(x0) + 2 * Bit(x1) + 4 * a, Bit(y0) + 2 * Bit(y1) + 4 * b)
         == Bit(x0 && y0) + 2 * Bit(x1 && y1) + 4 * And(a, b)
  {
    AndBit(x0, Bit(x1) + 2 * a, y0, Bit(y1) + 2 * b);
    AndBit(x1, a, y1, b);
  }

  /** The masks of lfs_popc keep or clear whole pairs. */
  lemma KeepPair(lo: nat, a: nat, b: nat)
    requires lo < 4
    ensures And(lo + 4 * a, 3 + 4 * b) == lo + 4 * And(a, b)
  {
    AndPair(lo % 2 == 1, lo >= 2, a, true, true, b);
  }

  lemma DropPair(lo: nat, a: nat, b: nat)
    requires lo < 4
    ensures And(lo + 4 * a, 4 * b) == 4 * And(a, b)
  {
    AndPair(lo % 2 == 1, lo >= 2, a, false, false, b);
  }

  lemma KeepNibble(lo: nat, a: nat, b: nat)
    requires lo < 16
    ensures And(lo + 16 * a, 15 + 16 * b) == lo + 16 * And(a, b)
  {
    KeepPair(lo % 4, lo / 4 + 4 * a, 3 + 4 * b);
    KeepPair(lo / 4, a, b);
  }

  lemma DropNibble(lo: nat, a: nat, b: nat)
    requires lo < 16
    ensures And(lo + 16 * a, 16 * b) == 16 * And(a, b)
  {
    DropPair(lo % 4, lo / 4 + 4 * a, 4 * b);
    DropPair(lo / 4, a, b);
  }

  lemma CountSmall(lo: nat)
    requires lo < 4
    ensures PopCount(lo) == lo - lo / 2
  {
    CountBit(lo % 2 == 1, lo / 2);
    CountBit(lo >= 2, 0);
  }

  lemma CountPair(lo: nat, a: nat)
    requires lo < 4
    ensures PopCount(lo + 4 * a) == PopCount(lo) + PopCount(a)
  {
    CountSmall(lo);
    CountBit(lo % 2 == 1, Bit(lo >= 2) + 2 * a);
    CountBit(lo >= 2, a);
  }

  lemma {:induction false} CountsInPairs(a: nat, n: nat)
    requires a < Pow2(2 * n)
    ensures And(a / 2, PairMask(n)) <= a && a - And(a / 2, PairMask(n)) == PairCounts(a, n)
  {
    if n > 0 {
      CountsInPairs(a / 4, n - 1);
      PairsStep(a, n);
    }
  }

  lemma PairsStep(a: nat, n: nat)
    requires n > 0
    requires And(a / 4 / 2, PairMask(n - 1)) <= a / 4
    requires a / 4 - And(a / 4 / 2, PairMask(n - 1)) == PairCounts(a / 4, n - 1)
    ensures And(a / 2, PairMask(n)) <= a && a - And(a / 2, PairMask(n)) == PairCounts(a, n)
  {
    CountSmall(a % 4);
    PairPart(a % 4, a / 4, PairMask(n - 1));
    hide PopCount, And;
    assert a == a % 4 + 4 * (a / 4);
  }

  lemma PairPart(d: nat, a': nat, m: nat)
    requires d < 4
    ensures And((d + 4 * a') / 2, 1 + 4 * m) == d / 2 + 4 * And(a' / 2, m)
  {
    AndPair(d >= 2, a' % 2 == 1, a' / 2, true, false, m);
    assert (d + 4 * a') / 2 == Bit(d >= 2) + 2 * Bit(a' % 2 == 1) + 4 * (a' / 2);
  }

  lemma {:induction false} CountsInNibbles(a: nat, n: nat)
    ensures AddPairs(PairCounts(a, 2 * n), NibbleMask(n)) == NibbleCounts(a, n)
  {
    if n > 0 {
      CountsInNibbles(a / 16, n - 1);
      var p0, p1, rest := NibbleOfPairs(a, n);
      AddPairsStep(p0, p1, rest, NibbleMask(n - 1));
    }
  }

  /** The second and third statement of lfs_popc. */
  function AddPairs(s: nat, mask: nat): nat { And(s, mask) + And(s / 4, mask) }

  function AddNibbles(s: nat, mask: nat): nat { And(s + s / 16, mask) }

  lemma NibbleOfPairs(a: nat, n: nat) returns (p0: nat, p1: nat, rest: nat)
    requires n > 0
    ensures p0 < 4 && p1 < 4 && rest == PairCounts(a / 16, 2 * n - 2)
    ensures PairCounts(a, 2 * n) == p0 + 4 * p1 + 16 * rest
    ensures PopCount(a % 16) == p0 + p1
  {
    p0, p1, rest := PopCount(a % 4), PopCount(a / 4 % 4), PairCounts(a / 16, 2 * n - 2);
    assert a / 4 / 4 == a / 16;
    assert PairCounts(a / 4, 2 * n - 1) == p1 + 4 * PairCounts(a / 4 / 4, 2 * n - 2);
    CountPair(a % 4, a / 4 % 4);
    CountSmall(a % 4);
    CountSmall(a / 4 % 4);
    assert a % 16 == a % 4 + 4 * (a / 4 % 4);
  }

  lemma AddPairsStep(p0: nat, p1: nat, s': nat, m: nat)
    requires p0 < 4 && p1 < 4
    ensures AddPairs(p0 + 4 * p1 + 16 * s', 3 + 16 * m) == p0 + p1 + 16 * AddPairs(s', m)
  {
    KeepFirst(p0, p1, s', m);
    KeepFirst(p1, s' % 4, s' / 4, m);
    assert (p0 + 4 * p1 + 16 * s') / 4 == p1 + 4 * (s' % 4) + 16 * (s' / 4);
  }

  lemma KeepFirst(p0: nat, p1: nat, s: nat, m: nat)
    requires p0 < 4 && p1 < 4
    ensures And(p0 + 4 * p1 + 16 * s, 3 + 16 * m) == p0 + 16 * And(s, m)
  {
    KeepPair(p0, p1 + 4 * s, 4 * m);
    DropPair(p1, s, m);
  }

  lemma {:induction false} CountsInBytes(a: nat, n: nat)
    ensures AddNibbles(NibbleCounts(a, 2 * n), ByteMask(n)) == ByteCounts(a, n)
  {
    if n > 0 {
      CountsInBytes(a / 256, n - 1);
      BytesStep(a, n);
    } else {
      assert AddNibbles(0, 0) == 0;
    }
  }

  lemma BytesStep(a: nat, n: nat)
    requires n > 0
    requires AddNibbles(NibbleCounts(a / 256, 2 * n - 2), ByteMask(n - 1)) == ByteCounts(a / 256, n - 1)
    ensures AddNibbles(NibbleCounts(a, 2 * n), ByteMask(n)) == ByteCounts(a, n)
  {
    hide NibbleCounts, PopCount, AddNibbles, ByteCounts, ByteMask;
    ByteOfNibbles(a, n);
    CountNibbleMax(a % 16);
    CountNibbleMax(a / 16 % 16);
    LowNibble(a / 256, 2 * n - 2);
    AddNibblesStep(PopCount(a % 16), PopCount(a / 16 % 16), NibbleCounts(a / 256, 2 * n - 2), ByteMask(n - 1));
    ByteCountsStep(a, n);
    ByteMaskStep(n);
  }

  lemma ByteMaskStep(n: nat)
    requires n > 0
    ensures ByteMask(n) == 15 + 256 * ByteMask(n - 1)
  {
  }

  lemma LowNibble(a: nat, n: nat)
    ensures NibbleCounts(a, n) % 16 <= 4
  {
    if n > 0 {
      CountNibbleMax(a % 16);
      LowDigit(PopCount(a % 16), NibbleCounts(a / 16, n - 1));
      hide PopCount;
    }
  }

  lemma LowDigit(d: nat, rest: nat)
    requires d < 16
    ensures (d + 16 * rest) % 16 == d
  {
  }

  lemma ByteOfNibbles(a: nat, n: nat)
    requires n > 0
    ensures NibbleCounts(a, 2 * n) ==
              PopCount(a % 16) + 16 * PopCount(a / 16 % 16) + 256 * NibbleCounts(a / 256, 2 * n - 2)
    ensures PopCount(a % 256) == PopCount(a % 16) + PopCount(a / 16 % 16)
  {
    assert a / 16 / 16 == a / 256;
    assert NibbleCounts(a / 16, 2 * n - 1) == PopCount(a / 16 % 16) + 16 * NibbleCounts(a / 16 / 16, 2 * n - 2);
    CountNibble(a % 16, a / 16 % 16);
    assert a % 256 == a % 16 + 16 * (a / 16 % 16);
  }

  lemma CountNibbleMax(lo: nat)
    requires lo < 16
    ensures PopCount(lo) <= 4
  {
    CountPair(lo % 4, lo / 4);
    CountSmall(lo % 4);
    CountSmall(lo / 4);
  }

  lemma CountTwoPairs(l0: nat, l1: nat, a: nat)
    requires l0 < 4 && l1 < 4
    ensures PopCount(l0 + 4 * l1 + 16 * a) == PopCount(l0 + 4 * l1) + PopCount(a)
  {
    CountPair(l0, l1 + 4 * a);
    CountPair(l1, a);
    CountPair(l0, l1);
  }

  lemma CountNibble(lo: nat, a: nat)
    requires lo < 16
    ensures PopCount(lo + 16 * a) == PopCount(lo) + PopCount(a)
  {
    CountTwoPairs(lo % 4, lo / 4, a);
  }

  lemma CountTwoNibbles(l0: nat, l1: nat, a: nat)
    requires l0 < 16 && l1 < 16
    ensures PopCount(l0 + 16 * l1 + 256 * a) == PopCount(l0 + 16 * l1) + PopCount(a)
  {
    CountNibble(l0, l1 + 16 * a);
    CountNibble(l1, a);
    CountNibble(l0, l1);
  }

  lemma CountByte(lo: nat, a: nat)
    requires lo < 256
    ensures PopCount(lo + 256 * a) == PopCount(lo) + PopCount(a)
  {
    CountTwoNibbles(lo % 16, lo / 16, a);
  }

  lemma CountByteMax(lo: nat)
    requires lo < 256
    ensures PopCount(lo) <= 8
  {
    CountNibble(lo % 16, lo / 16);
    CountNibbleMax(lo % 16);
    CountNibbleMax(lo / 16);
  }

  lemma AddNibblesStep(q0: nat, q1: nat, s': nat, m: nat)
    requires q0 <= 4 && q1 <= 4 && s' % 16 <= 4
    ensures AddNibbles(q0 + 16 * q1 + 256 * s', 15 + 256 * m) == q0 + q1 + 256 * AddNibbles(s', m)
  {
    var q, r, t := q0 + q1, q1 + s' % 16, s' + s' / 16;
    var s := q0 + 16 * q1 + 256 * s';
    assert s + s / 16 == q + 16 * r + 256 * t by { assert s / 16 == q1 + 16 * s'; }
    KeepNibble(q, r + 16 * t, 16 * m);
    DropNibble(r, t, m);
  }

  lemma Masks()
    ensures PairMask(16) == 0x55555555 && NibbleMask(8) == 0x33333333 && ByteMask(4) == 0xf0f0f0f
  {
    assert PairMask(8) == 0x5555;
    assert NibbleMask(4) == 0x3333;
  }

  /** Multiplying by 0x1010101 adds the four bytes into the top one. */
  lemma SumOfBytes(x: nat)
    requires x < TWO_32
    ensures (ByteCounts(x, 4) * 0x1010101 % TWO_32) / 0x1000000 == PopCount(x)
  {
    var c0, c1, c2, c3 := CountBytes(x);
    TopByte(ByteCounts(x, 4), c0, c1, c2, c3);
  }

  lemma CountBytes(x: nat) returns (c0: nat, c1: nat, c2: nat, c3: nat)
    requires x < TWO_32
    ensures c0 <= 8 && c1 <= 8 && c2 <= 8 && c3 <= 8
    ensures PopCount(x) == c0 + c1 + c2 + c3
    ensures ByteCounts(x, 4) == c0 + 256 * (c1 + 256 * (c2 + 256 * c3))
  {
    var r1, r2, r3: nat;
    var d1, d2, d3, d4: nat;
    c0, r1, d1 := FirstByte(x, 4);
    c1, r2, d2 := FirstByte(x / 256, 3);
    c2, r3, d3 := FirstByte(x / 256 / 256, 2);
    var zero: nat;
    c3, zero, d4 := FirstByte(x / 256 / 256 / 256, 1);
    TopOfWord(x);
  }

  lemma TopOfWord(x: nat)
    requires x < TWO_32
    ensures PopCount(x / 256 / 256 / 256 / 256) == 0
  {
    assert x / 256 / 256 / 256 / 256 == 0;
  }

  lemma FirstByte(x: nat, n: nat) returns (c: nat, rest: nat, digits: nat)
    requires n > 0
    ensures c <= 8 && rest == PopCount(x / 256) && digits == ByteCounts(x / 256, n - 1)
    ensures PopCount(x) == c + rest && ByteCounts(x, n) == c + 256 * digits
  {
    c, rest, digits := PopCount(x % 256), PopCount(x / 256), ByteCounts(x / 256, n - 1);
    CountByte(x % 256, x / 256);
    CountByteMax(x % 256);
    ByteCountsStep(x, n);
  }

  lemma ByteCountsStep(a: nat, n: nat)
    requires n > 0
    ensures ByteCounts(a, n) == PopCount(a % 256) + 256 * ByteCounts(a / 256, n - 1)
  {
  }

  lemma TopByte(d: nat, c0: nat, c1: nat, c2: nat, c3: nat)
    requires c0 <= 8 && c1 <= 8 && c2 <= 8 && c3 <= 8
    requires d == c0 + 256 * (c1 + 256 * (c2 + 256 * c3))
    ensures (d * 0x1010101 % TWO_32) / 0x1000000 == c0 + c1 + c2 + c3
  {
    var low := c0 + 256 * (c0 + c1) + 65536 * (c0 + c1 + c2);
    var word := low + 0x1000000 * (c0 + c1 + c2 + c3);
    var carry := (c1 + c2 + c3) + 256 * (c2 + c3) + 65536 * c3;
    DivModUnique(d * 0x1010101, TWO_32, carry, word);
    DivModUnique(word, 0x1000000, c0 + c1 + c2 + c3, low);
  }

  // ----- sequences -----

  /** A block with some elements overwritten. */
  function Overwrite<T>(block: seq<T>, off: nat, data: seq<T>): (r: seq<T>)
    requires off + |data| <= |block|
    ensures |r| == |block|
  {
    block[..off] + data + block[off + |data|..]
  }

  /** A slice of a slice. */
  lemma Within<T>(s: seq<T>, start: nat, size: nat, at: nat, n: nat)
    requires start + size <= |s| && at + n <= size
    ensures s[start..start + size][at..at + n] == s[start + at..start + at + n]
  {
    var x, y := s[start..start + size][at..at + n], s[start + at..start + at + n];
    assert forall i :: 0 <= i < n ==> x[i] == s[start + (at + i)] == y[i];
  }
}
