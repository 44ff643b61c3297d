/**
  The lookahead allocator (lfs.c:433-492): a window of bits over the block device, refilled by
  traversing the filesystem, and a budget `ack` of blocks that may still be examined before
  blocks handed out since the last acknowledgement could come round again.
 */
module Allocator {
  import opened Util

  datatype Result = Ok(block: nat) | NoSpace

  // ----- bits of the lookahead buffer -----

  predicate BitSet(w: bv32, k: nat)
    requires k < 32
  {
    (w >> k) & 1 == 1
  }

  function WithBit(w: bv32, k: nat): bv32
    requires k < 32
  {
    w | (1 << k)
  }

  lemma SetBit(w: bv32, j: nat, k: nat)
    requires j < 32 && k < 32
    ensures BitSet(WithBit(w, j), k) <==> j == k || BitSet(w, k)
  {
    SetBitWords(w, j as bv32, k as bv32);
  }

  lemma SetBitWords(w: bv32, j: bv32, k: bv32)
    requires j < 32 && k < 32
    ensures ((w | (1 << j)) >> k) & 1 == if j == k then 1 else (w >> k) & 1
  {
  }

  lemma ZeroBit(k: nat)
    requires k < 32
    ensures !BitSet(0, k)
  {
  }

  /** Bit j of the buffer. */
  predicate MarkedIn(words: seq<bv32>, j: nat)
    requires j < 32 * |words|
  {
    BitSet(words[j / 32], j % 32)
  }

  lemma MarkOne(words: seq<bv32>, o: nat, j: nat)
    requires o < 32 * |words| && j < 32 * |words|
    ensures MarkedIn(words[o / 32 := WithBit(words[o / 32], o % 32)], j) <==> MarkedIn(words, j) || j == o
  {
    hide BitSet, WithBit;
    SamePosition(o, j);
    if j / 32 == o / 32 {
      SetBit(words[o / 32], o % 32, j % 32);
    }
  }

  lemma SamePosition(o: nat, j: nat)
    ensures o == j <==> o / 32 == j / 32 && o % 32 == j % 32
  {
  }

  // ----- positions around the device -----

  /** The block `n` steps after `base`, going round. */
  function At(base: nat, n: nat, count: nat): nat
    requires count > 0
  {
    (base + n) % count
  }

  lemma AtDistinct(base: nat, m: nat, n: nat, count: nat)
    requires count > 0 && m < n < m + count
    ensures At(base, m, count) != At(base, n, count)
  {
    if At(base, m, count) == At(base, n, count) {
      var q, q', r := (base + m) / count, (base + n) / count, (base + m) % count;
      assert base + m == count * q + r && base + n == count * q' + r;
      assert n - m == count * (q' - q);
      if q' > q { MulLe(1, q' - q, count); } else { MulLe(q' - q, 0, count); }
    }
  }

  /** Starting further along, or from the reduced starting point, makes no difference. */
  lemma AtShift(base: nat, m: nat, k: nat, count: nat)
    requires count > 0
    ensures At(At(base, m, count), k, count) == At(base, m + k, count)
    ensures At(base + m, k, count) == At(base, m + k, count)
  {
    var n := base + m;
    var q := (n % count + k) / count;
    var r := (n % count + k) % count;
    assert n % count + k == count * q + r;
    assert n + k == count * (n / count) + count * q + r;
    assert count * (n / count) + count * q == (n / count + q) * count;
    DivModUnique(n + k, count, n / count + q, r);
  }

  lemma AtRound(base: nat, count: nat)
    requires count > 0
    ensures At(base, count, count) == At(base, 0, count)
  {
    DivModUnique(base + count, count, base / count + 1, base % count);
  }

  /** lfs_alloc_lookahead computes the offset of a block in the window. */
  lemma OffsetOf(off: nat, block: nat, count: nat)
    requires off < count && block < count
    ensures var o := (block + count - off) % count;
            o < count && At(off, o, count) == block
  {
    if block >= off {
      DivModUnique(block + count - off, count, 1, block - off);
      DivModUnique(block, count, 0, block);
    } else {
      DivModUnique(block + count - off, count, 0, block + count - off);
      DivModUnique(block + count, count, 1, block);
    }
  }

  /** Offsets below the block count name different blocks. */
  lemma OffsetUnique(off: nat, j: nat, o: nat, count: nat)
    requires count > 0 && j < count && o < count && At(off, j, count) == At(off, o, count)
    ensures j == o
  {
    if j < o { AtDistinct(off, j, o, count); }
    if o < j { AtDistinct(off, o, j, count); }
  }

  /** Every block comes up within one round from any starting point. */
  lemma RoundCoversAll(base: nat, block: nat, count: nat) returns (k: nat)
    requires block < count
    ensures k < count && At(base, k, count) == block
  {
    OffsetOf(base % count, block, count);
    k := (block + count - base % count) % count;
    AtShift(base, 0, k, count);
  }

  /** None of the next `ack` blocks is in a set. */
  ghost predicate ClearAhead(base: nat, ack: nat, count: nat, blocks: set<nat>)
    requires count > 0
  {
    forall k: nat :: k < ack ==> At(base, k, count) !in blocks
  }

  /** All but the next `ack` blocks are in a set. */
  ghost predicate KnownBehind(base: nat, ack: nat, count: nat, blocks: set<nat>)
    requires count > 0
  {
    forall k: nat :: ack <= k < count ==> At(base, k, count) in blocks
  }

  /** Examining one block and handing it out keeps the rest of the budget clear. */
  lemma StepAhead(base: nat, ack: nat, count: nat, blocks: set<nat>)
    requires 0 < ack <= count && ClearAhead(base, ack, count, blocks)
    ensures ClearAhead(base + 1, ack - 1, count, blocks + {At(base, 0, count)})
  {
    var next := base + 1;
    forall k: nat | k < ack - 1
      ensures At(next, k, count) !in blocks + {At(base, 0, count)}
    {
      AtShift(base, 1, k, count);
      assert At(base, k + 1, count) !in blocks;
      AtDistinct(base, 0, k + 1, count);
    }
  }

  lemma StepBehind(base: nat, ack: nat, count: nat, blocks: set<nat>)
    requires 0 < ack <= count && KnownBehind(base, ack, count, blocks)
    ensures KnownBehind(base + 1, ack - 1, count, blocks + {At(base, 0, count)})
  {
    var next := base + 1;
    forall k: nat | ack - 1 <= k < count
      ensures At(next, k, count) in blocks + {At(base, 0, count)}
    {
      AtShift(base, 1, k, count);
      if k == count - 1 {
        AtRound(base, count);
      } else {
        assert At(base, k + 1, count) in blocks;
      }
    }
  }

  /** Refilling the window moves its start without moving the next block to examine. */
  lemma Restart(off: nat, size: nat, ack: nat, count: nat, handed: set<nat>, known: set<nat>)
    requires count > 0
    requires ClearAhead(off + size, ack, count, handed) && KnownBehind(off + size, ack, count, known)
    ensures ClearAhead(At(off, size, count), ack, count, handed)
    ensures KnownBehind(At(off, size, count), ack, count, known)
  {
    forall k: nat
      ensures At(At(off, size, count), k, count) == At(off + size, k, count)
    {
      AtShift(off, size, k, count);
    }
  }

  /** A spent budget means that every block is known. */
  lemma BudgetSpent(base: nat, count: nat, blocks: set<nat>, block: nat)
    requires KnownBehindAll(base, count, blocks) && block < count
    ensures block in blocks
  {
    var k := RoundCoversAll(base, block, count);
  }

  ghost predicate KnownBehindAll(base: nat, count: nat, blocks: set<nat>) {
    count > 0 && KnownBehind(base, 0, count, blocks)
  }

  // ----- the allocator -----

  class Lookahead {
    const blockCount: nat
    var off: nat
    var size: nat
    var i: nat
    var ack: nat
    const buffer: array<bv32>

    // the blocks reachable now, and those reachable when the window was filled
    ghost var live: set<nat>
    ghost var scanned: set<nat>
    // since the last acknowledgement: blocks handed out, and blocks passed over because they were marked
    ghost var handed: set<nat>
    ghost var passed: set<nat>

    predicate Marked(j: nat)
      requires j < 32 * buffer.Length
      reads buffer
    {
      MarkedIn(buffer[..], j)
    }

    ghost predicate Valid()
      reads this, buffer
    {
      && 0 < blockCount && 0 < buffer.Length
      && i <= size <= blockCount && size <= 32 * buffer.Length
      && size - i <= ack <= blockCount
      && (size > 0 ==> off < blockCount)
      && WindowKnown()
      // the next `ack` blocks have not been handed out since the last acknowledgement
      && ClearAhead(off + i, ack, blockCount, handed)
      // the other blocks were examined since then: handed out, or passed over
      && KnownBehind(off + i, ack, blockCount, handed + passed)
    }

    /** A bit still to be examined is clear only for a block that is not in use. */
    ghost predicate WindowKnown()
      requires 0 < blockCount && i <= size <= 32 * buffer.Length
      reads this, buffer
    {
      && (forall j: nat :: i <= j < size && !Marked(j) ==> At(off, j, blockCount) !in live)
      && (forall j: nat :: i <= j < size && Marked(j) ==> At(off, j, blockCount) in scanned)
    }

    /** lfs_mount: an empty window at a pseudorandom offset, which need not be a block number. */
    constructor (count: nat, lookaheadWords: nat, offset: nat, ghost reachable: set<nat>)
      requires count > 0 && lookaheadWords > 0
      ensures Valid() && blockCount == count && live == reachable && ack == count
      ensures handed == {} && fresh(buffer)
    {
      blockCount := count;
      buffer := new bv32[lookaheadWords];
      off, size, i, ack := offset, 0, 0, count;
      live, scanned, handed, passed := reachable, {}, {}, {};
    }

    /** lfs_alloc_ack: everything handed out so far is reachable or given up. */
    method Ack()
      requires Valid()
      modifies this
      ensures Valid() && ack == blockCount && handed == {} && passed == {}
      ensures live == old(live) && off == old(off) && size == old(size) && i == old(i)
    {
      ack := blockCount;
      handed, passed := {}, {};
    }

    /** The filesystem links blocks it was handed, and frees any others. */
    ghost method Relink(reachable: set<nat>)
      requires Valid() && reachable <= live + handed
      modifies this`live
      ensures Valid() && live == reachable
    {
      forall j: nat | i <= j < size && !Marked(j)
        ensures At(off, j, blockCount) !in reachable
      {
        AtShift(off, i, j - i, blockCount);
        assert At(off + i, j - i, blockCount) !in handed;
      }
      live := reachable;
    }

    /** lfs_alloc_lookahead, called for each block the traversal reports. */
    method Mark(block: nat)
      requires 0 < blockCount && off < blockCount && block < blockCount
      requires size <= blockCount && size <= 32 * buffer.Length
      modifies buffer
      ensures forall j: nat :: j < size ==> (Marked(j) <==> old(Marked(j)) || At(off, j, blockCount) == block)
    {
      var o := (block + blockCount - off) % blockCount;
      OffsetOf(off, block, blockCount);
      if o < size {
        SetMark(o);
      }
      forall j: nat | j < size
        ensures At(off, j, blockCount) == block <==> j == o
      {
        if At(off, j, blockCount) == block { OffsetUnique(off, j, o, blockCount); }
      }
    }

    method SetMark(o: nat)
      requires o < 32 * buffer.Length
      modifies buffer
      ensures forall j: nat :: j < 32 * buffer.Length ==> (Marked(j) <==> old(Marked(j)) || j == o)
    {
      ghost var words := buffer[..];
      buffer[o / 32] := WithBit(buffer[o / 32], o % 32);
      assert buffer[..] == words[o / 32 := WithBit(words[o / 32], o % 32)];
      forall j: nat | j < 32 * buffer.Length
        ensures Marked(j) <==> old(Marked(j)) || j == o
      {
        MarkOne(words, o, j);
      }
    }

    /** memset, then lfs_fs_traverse with lfs_alloc_lookahead: exactly the reported blocks are marked. */
    method Fill(traversal: seq<nat>)
      requires 0 < blockCount && off < blockCount && size <= blockCount && size <= 32 * buffer.Length
      requires forall b :: b in traversal ==> b < blockCount
      modifies buffer
      ensures forall j: nat :: j < size ==> (Marked(j) <==> At(off, j, blockCount) in traversal)
    {
      Clear();
      var n := 0;
      while n < |traversal|
        invariant n <= |traversal|
        invariant forall j: nat :: j < size ==> (Marked(j) <==> At(off, j, blockCount) in traversal[..n])
      {
        assert traversal[n] in traversal;
        Mark(traversal[n]);
        assert traversal[..n + 1] == traversal[..n] + [traversal[n]];
        n := n + 1;
      }
      assert traversal[..n] == traversal;
    }

    method Clear()
      modifies buffer
      ensures forall j: nat :: j < 32 * buffer.Length ==> !Marked(j)
    {
      var w := 0;
      while w < buffer.Length
        invariant w <= buffer.Length
        invariant forall v :: 0 <= v < w ==> buffer[v] == 0
      {
        buffer[w] := 0;
        w := w + 1;
      }
      forall j: nat | j < 32 * buffer.Length
        ensures !Marked(j)
      {
        ZeroBit(j % 32);
      }
    }

    /** Moves past one block of the window: hands it out, or passes over it because it is marked. */
    method Step(ghost hand: bool)
      requires Valid() && i < size
      requires !hand ==> Marked(i)
      modifies this
      ensures Valid()
      ensures i == old(i) + 1 && ack == old(ack) - 1 && off == old(off) && size == old(size)
      ensures live == old(live) && scanned == old(scanned)
      ensures var b := At(off, old(i), blockCount);
              if hand then handed == old(handed) + {b} && passed == old(passed)
              else handed == old(handed) && passed == old(passed) + {b} && b in scanned
    {
      hide At, MarkedIn;
      ghost var b := At(off, i, blockCount);
      AtShift(off, i, 0, blockCount);
      StepAhead(off + i, ack, blockCount, handed);
      StepBehind(off + i, ack, blockCount, handed + passed);
      assert handed + passed + {b} == (handed + {b}) + passed == handed + (passed + {b});
      if hand {
        handed := handed + {b};
      } else {
        passed := passed + {b};
      }
      i := i + 1;
      ack := ack - 1;
    }

    /**
      lfs_alloc. `traversal` is what lfs_fs_traverse reports. A block handed out is neither
      reachable nor was it handed out before since the last acknowledgement; running out means
      that since then every block was either handed out or seen marked, hence reachable at
      the time its window was filled.
    */
    method Alloc(traversal: seq<nat>) returns (r: Result)
      requires Valid()
      requires forall b :: b in traversal ==> b < blockCount
      requires live == set b | b in traversal
      modifies this, buffer
      ensures Valid() && live == old(live)
      ensures r.Ok? ==> r.block < blockCount && r.block !in live && r.block !in old(handed)
      ensures r.Ok? ==> handed == old(handed) + {r.block} && (i == size || !Marked(i))
      ensures r.NoSpace? ==> handed == old(handed) && forall b: nat :: b < blockCount ==> b in handed + passed
      ensures passed - old(passed) <= old(scanned) + live && passed >= old(passed)
      ensures scanned == old(scanned) || scanned == live
      ensures ack <= old(ack)
    {
      hide At, MarkedIn, ClearAhead, KnownBehind;
      ghost var budget := ack;
      while true
        invariant Valid() && live == old(live) && handed == old(handed)
        invariant scanned == old(scanned) || scanned == live
        invariant passed - old(passed) <= old(scanned) + live && passed >= old(passed)
        invariant ack <= budget
        decreases ack, if i == size then 1 else 0
      {
        ghost var next, start, end := i + ack, i, size;
        while i != size
          invariant Valid() && live == old(live) && handed == old(handed)
          invariant scanned == old(scanned) || scanned == live
          invariant passed - old(passed) <= old(scanned) + live && passed >= old(passed)
          invariant ack <= budget && i + ack == next && start <= i && size == end
          decreases size - i
        {
          var o := i;
          if !Marked(o) {
            r := Ok((off + o) % blockCount);
            InWindow(o, r.block);
            Step(true);
            while i != size && Marked(i)
              invariant Valid() && live == old(live) && handed == old(handed) + {r.block}
              invariant scanned == old(scanned) || scanned == live
              invariant passed - old(passed) <= old(scanned) + live && passed >= old(passed)
              invariant ack <= budget
              decreases size - i
            {
              Step(false);
            }
            return;
          }
          Step(false);
        }
        if ack == 0 {
          AllKnown();
          return NoSpace;
        }
        Refill(traversal);
      }
    }

    lemma InWindow(o: nat, block: nat)
      requires Valid() && i <= o < size && !Marked(o) && block == (off + o) % blockCount
      requires o == i
      ensures block == At(off, o, blockCount) && block < blockCount && block !in live && block !in handed
    {
      AtShift(off, i, 0, blockCount);
      assert At(off + i, 0, blockCount) !in handed;
    }

    lemma AllKnown()
      requires Valid() && ack == 0
      ensures forall b: nat :: b < blockCount ==> b in handed + passed
    {
      forall b: nat | b < blockCount
        ensures b in handed + passed
      {
        BudgetSpent(off + i, blockCount, handed + passed, b);
      }
    }

    /** Slides the window on and fills it from the traversal. */
    method Refill(traversal: seq<nat>)
      requires Valid() && i == size && ack > 0
      requires forall b :: b in traversal ==> b < blockCount
      requires live == set b | b in traversal
      modifies this, buffer
      ensures Valid() && i == 0 && 0 < size == Min(32 * buffer.Length, ack) && ack == old(ack)
      ensures off == (old(off) + old(size)) % blockCount
      ensures live == old(live) && handed == old(handed) && passed == old(passed) && scanned == live
    {
      Restart(off, size, ack, blockCount, handed, handed + passed);
      off := (off + size) % blockCount;
      size := Min(32 * buffer.Length, ack);
      i := 0;
      Fill(traversal);
      scanned := live;
    }
  }
}
