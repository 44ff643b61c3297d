/**
  CTZ skip-lists (lfs.c:2143-2320). Block n > 0 of a list begins with ctz(n) + 1 pointers;
  pointer k names block n - 2^k. Blocks are only ever added at the end or replaced there,
  so every older version of a file stays readable.
 */
module SkipList {
  import opened Util
  import opened CtzIndex
  import opened Flash

  /** Pointer k of a block. */
  function Pointer(block: seq<Byte>, k: nat): nat
    requires 4 * k + 4 <= |block|
  {
    FromLe32(block[4 * k..4 * k + 4])
  }

  predicate Blocks(mem: seq<seq<Byte>>, blockSize: nat) {
    forall b :: 0 <= b < |mem| ==> |mem[b]| == blockSize
  }

  /** blocks[n] is the device block that holds block n of the list. */
  ghost predicate List(mem: seq<seq<Byte>>, blockSize: nat, blocks: seq<nat>) {
    && Blocks(mem, blockSize)
    && (forall n :: 0 <= n < |blocks| ==> blocks[n] < |mem| && Header(n) <= blockSize)
    && (forall m, n :: 0 <= m < n < |blocks| ==> blocks[m] != blocks[n])
    && (forall n :: 0 < n < |blocks| ==> Linked(mem, blockSize, blocks, n))
  }

  ghost predicate Linked(mem: seq<seq<Byte>>, blockSize: nat, blocks: seq<nat>, n: nat)
    requires 0 < n < |blocks| && blocks[n] < |mem| && Blocks(mem, blockSize) && Header(n) <= blockSize
  {
    PointersOk(mem[blocks[n]], blocks, n, Ctz(n) + 1)
  }

  ghost predicate PointersOk(block: seq<Byte>, blocks: seq<nat>, n: nat, count: nat)
    requires 0 < n <= |blocks| && count <= Ctz(n) + 1 && Header(n) <= |block|
  {
    forall k: nat :: k < count ==> PointsBack(block, blocks, n, k)
  }

  ghost predicate PointsBack(block: seq<Byte>, blocks: seq<nat>, n: nat, k: nat)
    requires 0 < n <= |blocks| && k <= Ctz(n) && Header(n) <= |block|
  {
    PowerFits(n, k);
    Pointer(block, k) == blocks[n - Pow2(k)]
  }

  /** A block has a pointer of exponent k only if there is a block that far back. */
  lemma {:induction false} PowerFits(n: nat, k: nat)
    requires n > 0 && k <= Ctz(n)
    ensures Pow2(k) <= n
  {
    if k > 0 {
      PowerFits(n / 2, k - 1);
    }
  }

  // ----- lfs_ctz_find -----

  /** The exponent of the next pointer to follow. */
  function Skip(current: nat, target: nat): nat
    requires target < current
  {
    Min(CeilLog2(current - target + 1) - 1, Ctz(current))
  }

  lemma SkipReaches(current: nat, target: nat)
    requires target < current
    ensures Pow2(Skip(current, target)) <= current - target
    ensures Skip(current, target) == Min(FloorLog2(current - target), Ctz(current))
  {
    FloorLog2Bounds(current - target);
    if Skip(current, target) < FloorLog2(current - target) {
      Pow2Monotone(Skip(current, target), FloorLog2(current - target));
    }
  }

  /** The exponents followed on the way from one index to another. */
  function Skips(current: nat, target: nat): seq<nat>
    requires target <= current
    decreases current
  {
    if current == target then []
    else
      SkipReaches(current, target);
      var s := Skip(current, target);
      [s] + Skips(current - Pow2(s), target)
  }

  ghost predicate Increasing(s: seq<nat>) { forall i, j :: 0 <= i < j < |s| ==> s[i] < s[j] }

  ghost predicate Decreasing(s: seq<nat>) { forall i, j :: 0 <= i < j < |s| ==> s[i] > s[j] }

  /** Subtracting the lowest one bit leaves a number with more trailing zeros. */
  lemma {:induction false} CtzGrows(n: nat, k: nat)
    requires n > 0 && k <= Ctz(n) && Pow2(k) < n
    ensures k == Ctz(n) ==> Ctz(n - Pow2(k)) > k
    ensures k < Ctz(n) ==> Ctz(n - Pow2(k)) == k
  {
    if k == 0 {
    } else {
      CtzGrows(n / 2, k - 1);
      assert (n - Pow2(k)) / 2 == n / 2 - Pow2(k - 1) && (n - Pow2(k)) % 2 == 0;
    }
  }

  /** Once the distance decides, each step more than halves it: the exponents fall. */
  lemma {:induction false} SkipsFall(current: nat, target: nat)
    requires target < current && FloorLog2(current - target) <= Ctz(current)
    ensures Decreasing(Skips(current, target))
    ensures forall i :: 0 <= i < |Skips(current, target)| ==> Skips(current, target)[i] <= FloorLog2(current - target)
    decreases current
  {
    hide Ctz, Pow2, FloorLog2, CeilLog2;
    SkipReaches(current, target);
    var f := FloorLog2(current - target);
    var next := current - Pow2(f);
    if next > target {
      CtzGrows(current, f);
      MoreThanHalved(current - target);
      SkipsFall(next, target);
    }
  }

  lemma MoreThanHalved(d: nat)
    requires d > 0 && Pow2(FloorLog2(d)) < d
    ensures FloorLog2(d - Pow2(FloorLog2(d))) < FloorLog2(d)
  {
    var f := FloorLog2(d);
    FloorLog2Bounds(d);
    var g := FloorLog2(d - Pow2(f));
    FloorLog2Bounds(d - Pow2(f));
    if g > f {
      Pow2Monotone(f, g);
    }
  }

  /** Where the list runs the other way: until the distance decides, each step finds a longer pointer. */
  lemma {:induction false} SkipsRiseThenFall(current: nat, target: nat) returns (peak: nat)
    requires target <= current
    ensures peak <= |Skips(current, target)|
    ensures Increasing(Skips(current, target)[..peak]) && Decreasing(Skips(current, target)[peak..])
    ensures current > target && peak > 0 ==> Skips(current, target)[0] == Ctz(current)
    ensures forall i :: 0 <= i < |Skips(current, target)| ==>
              current > 0 && Skips(current, target)[i] <= FloorLog2(current)
    decreases current
  {
    peak := 0;
    if current > target {
      SkipReaches(current, target);
      FloorLog2Monotone(current - target, current);
      if FloorLog2(current - target) <= Ctz(current) {
        SkipsFall(current, target);
      } else {
        var c := Ctz(current);
        FloorLog2Bounds(current - target);
        Pow2Monotone(c, FloorLog2(current - target));
        CtzGrows(current, c);
        var next := current - Pow2(c);
        FloorLog2Monotone(next, current);
        SkipsUnfold(current, target);
        hide Skips, Increasing, Decreasing, FloorLog2, Ctz, Pow2;
        var rest := Skips(next, target);
        peak := SkipsRiseThenFall(next, target);
        RisingPrefix(c, rest, peak);
        peak := peak + 1;
      }
    }
  }

  lemma SkipsUnfold(current: nat, target: nat)
    requires target < current
    ensures Pow2(Skip(current, target)) <= current - target
    ensures Skips(current, target) == [Skip(current, target)] + Skips(current - Pow2(Skip(current, target)), target)
  {
    SkipReaches(current, target);
  }

  lemma RisingPrefix(c: nat, s: seq<nat>, peak: nat)
    requires peak <= |s| && Increasing(s[..peak]) && Decreasing(s[peak..]) && (peak > 0 ==> c < s[0])
    ensures Increasing(([c] + s)[..peak + 1]) && Decreasing(([c] + s)[peak + 1..])
  {
    var t := ([c] + s)[..peak + 1];
    assert ([c] + s)[peak + 1..] == s[peak..];
    forall i, j | 0 <= i < j < |t|
      ensures t[i] < t[j]
    {
      assert t[j] == s[..peak][j - 1];
      if i > 0 {
        assert t[i] == s[..peak][i - 1];
      } else if j > 1 {
        assert s[..peak][0] < s[..peak][j - 1];
      }
    }
  }

  lemma {:induction false} MonotoneIsShort(s: seq<nat>, bound: nat)
    requires Increasing(s) || Decreasing(s)
    requires forall i :: 0 <= i < |s| ==> s[i] <= bound
    ensures |s| <= bound + 1
    decreases |s|
  {
    if |s| > 1 {
      if Increasing(s) {
        var t := s[..|s| - 1];
        assert t[0] < s[|s| - 1];
        assert forall i :: 0 <= i < |t| ==> t[i] < s[|s| - 1];
        MonotoneIsShort(t, s[|s| - 1] - 1);
      } else {
        var t := s[1..];
        assert forall i :: 0 <= i < |t| ==> t[i] < s[0];
        MonotoneIsShort(t, s[0] - 1);
      }
    }
  }

  /** Finding any block takes at most two reads per bit of the starting index. */
  lemma FewSkips(current: nat, target: nat)
    requires target <= current && current > 0
    ensures |Skips(current, target)| <= 2 * (FloorLog2(current) + 1)
  {
    hide Skips, FloorLog2, Ctz, Increasing, Decreasing;
    var peak := SkipsRiseThenFall(current, target);
    var s := Skips(current, target);
    MonotoneIsShort(s[..peak], FloorLog2(current));
    MonotoneIsShort(s[peak..], FloorLog2(current));
  }

  /** The list holds the first `size` bytes of a file. */
  ghost predicate HoldsSize(blockSize: nat, blocks: seq<nat>, size: nat) {
    && 0 < size <= FILE_MAX + 1
    && |blocks| > 0
    && InBlock(blockSize, |blocks| - 1, size - 1)
  }

  /**
    lfs_ctz_find: from the head of a list holding `size` bytes to the block of position
    `pos`, following only pointers that exist. `hops` counts the device reads.
  */
  method Find(dev: BlockDevice, head: nat, size: nat, pos: nat, ghost blocks: seq<nat>)
    returns (block: nat, off: nat, hops: nat)
    requires dev.Valid()
    requires List(dev.mem, dev.blockSize, blocks)
    requires HoldsSize(dev.blockSize, blocks, size) && pos < size && head == blocks[|blocks| - 1]
    requires GuessCorrects(dev.blockSize, size - 1) && GuessCorrects(dev.blockSize, pos)
    ensures exists i :: 0 <= i < |blocks| && InBlock(dev.blockSize, i, pos) && block == blocks[i]
                        && off == pos - Start(dev.blockSize, i) + Header(i) && off < dev.blockSize
    ensures |blocks| == 1 ==> hops == 0
    ensures |blocks| > 1 ==> hops <= 2 * (FloorLog2(|blocks| - 1) + 1)
  {
    hide Pow2, FloorLog2, CeilLog2, Ctz, PopCount, Start;
    var current, lastOff := LastIndex(dev.blockSize, size, blocks);
    var target, offset := Index(dev.blockSize, pos);
    EarlierBlock(dev.blockSize, target, pos, current, size - 1);
    ghost var start := current;
    block, hops := head, 0;
    if current > 0 { FewSkips(current, target); }
    while current > target
      invariant target <= current <= start == |blocks| - 1
      invariant block == blocks[current]
      invariant hops + |Skips(current, target)| == |Skips(start, target)|
    {
      var skip := Skip(current, target);
      SkipReaches(current, target);
      assert Linked(dev.mem, dev.blockSize, blocks, current);
      assert PointsBack(dev.mem[block], blocks, current, skip);
      HeaderRoom(current, skip);
      var data := dev.Read(block, 4 * skip, 4);
      block := FromLe32(data);
      hops := hops + 1;
      current := current - Pow2(skip);
    }
    off := offset;
  }

  /** The index of the last block, computed from the size alone, and the offset of the last byte. */
  method LastIndex(blockSize: nat, size: nat, ghost blocks: seq<nat>) returns (index: nat, off: nat)
    requires blockSize >= 104 && HoldsSize(blockSize, blocks, size) && GuessCorrects(blockSize, size - 1)
    ensures index == |blocks| - 1
    ensures off == size - 1 - Start(blockSize, index) + Header(index) && Header(index) <= off < blockSize
    ensures off + 1 == blockSize <==> size == Start(blockSize, |blocks|)
  {
    var last: int;
    index, last := Index(blockSize, size - 1);
    InBlockUnique(blockSize, index, |blocks| - 1, size - 1);
    off := last;
  }

  lemma HeaderRoom(n: nat, k: nat)
    requires n > 0 && k <= Ctz(n)
    ensures 4 * k + 4 <= Header(n)
  {
  }

  /** Lower positions are in lower blocks. */
  lemma EarlierBlock(blockSize: nat, i: nat, pos: nat, j: nat, last: nat)
    requires blockSize >= 104 && pos <= last <= FILE_MAX
    requires InBlock(blockSize, i, pos) && InBlock(blockSize, j, last)
    ensures i <= j
  {
    if j < i {
      StartsAscend(blockSize, j + 1, i, last);
    }
  }

  // ----- lfs_ctz_traverse -----

  /**
    lfs_ctz_traverse: two pointers at a time on even indices, one on odd ones. The callback
    sees every block of the list exactly once, the last block first.
  */
  method Traverse(dev: BlockDevice, head: nat, size: nat, ghost blocks: seq<nat>) returns (seen: seq<nat>)
    requires dev.Valid()
    requires size > 0 ==> List(dev.mem, dev.blockSize, blocks) && HoldsSize(dev.blockSize, blocks, size)
    requires size > 0 ==> head == blocks[|blocks| - 1] && GuessCorrects(dev.blockSize, size - 1)
    requires size == 0 ==> blocks == []
    ensures |seen| == |blocks|
    ensures forall k :: 0 <= k < |seen| ==> seen[k] == blocks[|blocks| - 1 - k]
  {
    seen := [];
    if size == 0 {
      return;
    }
    var index, lastOff := LastIndex(dev.blockSize, size, blocks);
    var block := head;
    while true
      invariant 0 <= index < |blocks| && block == blocks[index]
      invariant |seen| == |blocks| - 1 - index
      invariant forall k :: 0 <= k < |seen| ==> seen[k] == blocks[|blocks| - 1 - k]
      decreases index
    {
      seen := seen + [block];
      if index == 0 {
        return;
      }
      var count := 2 - index % 2;
      assert Linked(dev.mem, dev.blockSize, blocks, index);
      var heads := ReadPointers(dev, block, index, count, blocks);
      if count == 2 {
        seen := seen + [heads[0]];
      }
      block := heads[count - 1];
      index := index - count;
    }
  }

  /** The one read of lfs_ctz_traverse. */
  method ReadPointers(dev: BlockDevice, block: nat, n: nat, count: nat, ghost blocks: seq<nat>)
    returns (heads: seq<nat>)
    requires dev.Valid() && block < |dev.mem|
    requires 0 < n < |blocks| && Header(n) <= dev.blockSize && 0 < count <= 2 && (count == 2 ==> n % 2 == 0)
    requires PointersOk(dev.mem[block], blocks, n, Ctz(n) + 1)
    ensures |heads| == count && n >= count && heads[0] == blocks[n - 1] && (count == 2 ==> heads[1] == blocks[n - 2])
  {
    assert PointsBack(dev.mem[block], blocks, n, 0);
    HeaderRoom(n, 0);
    var data := dev.Read(block, 0, count * 4);
    assert data[0..4] == dev.mem[block][0..4];
    heads := [FromLe32(data[0..4])];
    if count == 2 {
      assert PointsBack(dev.mem[block], blocks, n, 1);
      HeaderRoom(n, 1);
      assert data[4..8] == dev.mem[block][4..8];
      heads := heads + [FromLe32(data[4..8])];
    }
  }

  // ----- lfs_ctz_extend -----

  /** A device with one block rewritten. */
  ghost predicate OnlyChanged(mem: seq<seq<Byte>>, mem': seq<seq<Byte>>, block: nat) {
    |mem'| == |mem| && forall b :: 0 <= b < |mem| && b != block ==> mem'[b] == mem[b]
  }

  /** The list after extension: the last block is replaced if it was partly filled, else one is added. */
  function Extended(blocks: seq<nat>, full: bool, block: nat): seq<nat>
    requires |blocks| > 0
  {
    if full then blocks + [block] else blocks[..|blocks| - 1] + [block]
  }

  /** A list stays a list when a block outside it is rewritten. */
  lemma ListFrame(mem: seq<seq<Byte>>, mem': seq<seq<Byte>>, blockSize: nat, blocks: seq<nat>, block: nat)
    requires List(mem, blockSize, blocks) && Blocks(mem', blockSize) && OnlyChanged(mem, mem', block)
    requires block !in blocks
    ensures List(mem', blockSize, blocks)
  {
    forall n | 0 < n < |blocks|
      ensures Linked(mem', blockSize, blocks, n)
    {
      assert Linked(mem, blockSize, blocks, n);
      assert blocks[n] in blocks;
      assert mem'[blocks[n]] == mem[blocks[n]];
    }
  }

  /** Dropping the last block of a list leaves a list. */
  lemma ListPrefix(mem: seq<seq<Byte>>, blockSize: nat, blocks: seq<nat>, n: nat)
    requires List(mem, blockSize, blocks) && n <= |blocks|
    ensures List(mem, blockSize, blocks[..n])
  {
    var front := blocks[..n];
    forall i | 0 < i < n
      ensures Linked(mem, blockSize, front, i)
    {
      assert Linked(mem, blockSize, blocks, i);
      forall k: nat | k < Ctz(i) + 1
        ensures PointsBack(mem[front[i]], front, i, k)
      {
        PowerFits(i, k);
        assert PointsBack(mem[blocks[i]], blocks, i, k);
      }
    }
  }

  /** A block that points back correctly can be put at the end of a list. */
  lemma ListAppend(mem: seq<seq<Byte>>, blockSize: nat, blocks: seq<nat>, block: nat)
    requires List(mem, blockSize, blocks)
    requires block < |mem| && block !in blocks && Header(|blocks|) <= blockSize
    requires |blocks| > 0 ==> PointersOk(mem[block], blocks, |blocks|, Ctz(|blocks|) + 1)
    ensures List(mem, blockSize, blocks + [block])
  {
    hide PointersOk, Header, Ctz;
    var longer := blocks + [block];
    forall n | 0 < n < |longer|
      ensures Linked(mem, blockSize, longer, n)
    {
      if n < |blocks| { assert Linked(mem, blockSize, blocks, n); }
      LongerPointers(mem[longer[n]], blocks, block, n);
    }
  }

  lemma LongerPointers(content: seq<Byte>, blocks: seq<nat>, block: nat, n: nat)
    requires 0 < n <= |blocks| && Header(n) <= |content|
    requires PointersOk(content, blocks, n, Ctz(n) + 1)
    ensures PointersOk(content, blocks + [block], n, Ctz(n) + 1)
  {
    forall k: nat | k < Ctz(n) + 1
      ensures PointsBack(content, blocks + [block], n, k)
    {
      PowerFits(n, k);
      assert PointsBack(content, blocks, n, k);
    }
  }

  /** Pointers live in the header: equal headers point to the same blocks. */
  lemma SameHeader(block: seq<Byte>, block': seq<Byte>, blocks: seq<nat>, n: nat, size: nat)
    requires 0 < n <= |blocks| && Header(n) <= size <= |block| && size <= |block'|
    requires PointersOk(block, blocks, n, Ctz(n) + 1)
    requires block'[..size] == block[..size]
    ensures PointersOk(block', blocks, n, Ctz(n) + 1)
  {
    forall k: nat | k < Ctz(n) + 1
      ensures PointsBack(block', blocks, n, k)
    {
      assert PointsBack(block, blocks, n, k);
      HeaderRoom(n, k);
      assert block'[4 * k..4 * k + 4] == block'[..size][4 * k..4 * k + 4] == block[4 * k..4 * k + 4];
    }
  }

  /**
    lfs_ctz_extend onto the erased block `nblock`, which the allocator found outside every
    list in use: copies a partly filled last block, or starts a new one with its pointers,
    each read from the block the previous pointer names.
  */
  method Extend(dev: BlockDevice, nblock: nat, head: nat, size: nat, ghost blocks: seq<nat>)
    returns (off: nat, full: bool)
    requires dev.Valid() && nblock < |dev.mem|
    requires size > 0 ==> List(dev.mem, dev.blockSize, blocks) && HoldsSize(dev.blockSize, blocks, size)
    requires size > 0 ==> head == blocks[|blocks| - 1] && nblock !in blocks && size <= FILE_MAX
    requires size > 0 ==> GuessCorrects(dev.blockSize, size - 1)
    modifies dev
    ensures dev.Valid() && OnlyChanged(old(dev.mem), dev.mem, nblock)
    ensures forall b :: 0 <= b < |dev.mem| && b != nblock ==> dev.top[b] == old(dev.top[b])
    ensures off <= dev.blockSize && dev.top[nblock] == off
    ensures size == 0 ==> off == 0
    ensures size > 0 ==> (full <==> size == Start(dev.blockSize, |blocks|))
    ensures size > 0 && !full ==> off == size - Start(dev.blockSize, |blocks| - 1) + Header(|blocks| - 1)
    ensures size > 0 && !full ==> dev.mem[nblock][..off] == old(dev.mem[head])[..off]
    ensures size > 0 && full ==> off == Header(|blocks|)
    ensures size > 0 ==> List(dev.mem, dev.blockSize, Extended(blocks, full, nblock))
  {
    hide List, Start, Header, PointersOk, GuessCorrects, InBlock;
    dev.Erase(nblock);
    full := false;
    if size == 0 {
      off := 0;
      return;
    }
    var index, last := LastIndex(dev.blockSize, size, blocks);
    LastBlock(old(dev.mem), dev.blockSize, blocks);
    if last + 1 != dev.blockSize {
      off := last + 1;
      CopyFront(dev, head, nblock, off);
      LastReplaced(old(dev.mem), dev.mem, dev.blockSize, blocks, nblock, off);
    } else {
      full := true;
      ListFrame(old(dev.mem), dev.mem, dev.blockSize, blocks, nblock);
      off := WritePointers(dev, head, nblock, index + 1, size, blocks);
      ListFrame(old(dev.mem), dev.mem, dev.blockSize, blocks, nblock);
      ListAppend(dev.mem, dev.blockSize, blocks, nblock);
    }
  }

  lemma LastBlock(mem: seq<seq<Byte>>, blockSize: nat, blocks: seq<nat>)
    requires List(mem, blockSize, blocks) && blocks != []
    ensures blocks[|blocks| - 1] in blocks && blocks[|blocks| - 1] < |mem|
  {
  }

  /** A block that begins like the last one of a list can take its place. */
  lemma LastReplaced(mem: seq<seq<Byte>>, mem': seq<seq<Byte>>, blockSize: nat, blocks: seq<nat>, nblock: nat, off: nat)
    requires List(mem, blockSize, blocks) && Blocks(mem', blockSize) && OnlyChanged(mem, mem', nblock)
    requires nblock !in blocks && nblock < |mem'| && blocks != [] && Header(|blocks| - 1) <= off <= blockSize
    requires blocks[|blocks| - 1] < |mem| && mem'[nblock][..off] == mem[blocks[|blocks| - 1]][..off]
    ensures List(mem', blockSize, blocks[..|blocks| - 1] + [nblock])
  {
    hide List, Header, PointersOk;
    var n := |blocks| - 1;
    ListFrame(mem, mem', blockSize, blocks, nblock);
    ListPrefix(mem', blockSize, blocks, n);
    if n > 0 {
      LastPoints(mem, blockSize, blocks);
      FrontPointers(mem[blocks[n]], blocks, n);
      SameHeader(mem[blocks[n]], mem'[nblock], blocks[..n], n, off);
    }
    ListAppend(mem', blockSize, blocks[..n], nblock);
  }

  lemma LastPoints(mem: seq<seq<Byte>>, blockSize: nat, blocks: seq<nat>)
    requires List(mem, blockSize, blocks) && |blocks| > 1
    ensures var n := |blocks| - 1;
            && blocks[n] < |mem| && |mem[blocks[n]]| == blockSize && Header(n) <= blockSize
            && PointersOk(mem[blocks[n]], blocks, n, Ctz(n) + 1)
  {
    assert Linked(mem, blockSize, blocks, |blocks| - 1);
  }

  lemma FrontPointers(block: seq<Byte>, blocks: seq<nat>, n: nat)
    requires 0 < n < |blocks| && Header(n) <= |block| && PointersOk(block, blocks, n, Ctz(n) + 1)
    ensures PointersOk(block, blocks[..n], n, Ctz(n) + 1)
  {
    forall k: nat | k < Ctz(n) + 1
      ensures PointsBack(block, blocks[..n], n, k)
    {
      PowerFits(n, k);
      assert PointsBack(block, blocks, n, k);
    }
  }

  /** Copies the used part of the last block, byte by byte. */
  method CopyFront(dev: BlockDevice, head: nat, nblock: nat, size: nat)
    requires dev.Valid() && head < |dev.mem| && nblock < |dev.mem| && head != nblock
    requires size <= dev.blockSize && dev.top[nblock] == 0
    modifies dev
    ensures dev.Valid() && OnlyChanged(old(dev.mem), dev.mem, nblock)
    ensures forall b :: 0 <= b < |dev.mem| && b != nblock ==> dev.top[b] == old(dev.top[b])
    ensures dev.mem[nblock][..size] == old(dev.mem[head])[..size] && dev.top[nblock] == size
  {
    var i := 0;
    while i < size
      invariant i <= size && dev.Valid() && OnlyChanged(old(dev.mem), dev.mem, nblock)
      invariant forall b :: 0 <= b < |dev.mem| && b != nblock ==> dev.top[b] == old(dev.top[b])
      invariant dev.mem[nblock][..i] == old(dev.mem[head])[..i] && dev.top[nblock] == i
    {
      var data := dev.Read(head, i, 1);
      dev.Prog(nblock, i, data);
      i := i + 1;
    }
  }

  /** Appends the pointers of block n, following the list back as they are written. */
  method WritePointers(dev: BlockDevice, first: nat, nblock: nat, n: nat, size: nat, ghost blocks: seq<nat>)
    returns (off: nat)
    requires dev.Valid() && nblock < |dev.mem| && dev.top[nblock] == 0
    requires List(dev.mem, dev.blockSize, blocks) && 0 < n == |blocks| && nblock !in blocks && first == blocks[n - 1]
    requires HoldsSize(dev.blockSize, blocks, size) && size <= FILE_MAX
    modifies dev
    ensures dev.Valid() && OnlyChanged(old(dev.mem), dev.mem, nblock)
    ensures forall b :: 0 <= b < |dev.mem| && b != nblock ==> dev.top[b] == old(dev.top[b])
    ensures off == Header(n) <= dev.blockSize && dev.top[nblock] == off
    ensures PointersOk(dev.mem[nblock], blocks, n, Ctz(n) + 1)
  {
    var skips := Ctz(n) + 1;
    HeaderFits(dev.blockSize, n, size);
    var head := first;
    var i := 0;
    while i < skips
      invariant i <= skips && dev.Valid() && OnlyChanged(old(dev.mem), dev.mem, nblock)
      invariant forall b :: 0 <= b < |dev.mem| && b != nblock ==> dev.top[b] == old(dev.top[b])
      invariant dev.top[nblock] == 4 * i
      invariant PointersOk(dev.mem[nblock], blocks, n, i)
      invariant i < skips ==> Pow2(i) <= n && head == blocks[n - Pow2(i)]
    {
      label before:
      dev.Prog(nblock, 4 * i, Le32(head));
      PointerWritten(old@before(dev.mem[nblock]), dev.mem[nblock], blocks, n, i, head);
      if i != skips - 1 {
        head := NextHead(dev, head, n, i, blocks, old(dev.mem));
      }
      i := i + 1;
    }
    off := 4 * skips;
  }

  /** Pointer i of block n - 2^i names block n - 2^(i+1). */
  method NextHead(dev: BlockDevice, head: nat, n: nat, i: nat, ghost blocks: seq<nat>, ghost mem: seq<seq<Byte>>)
    returns (next: nat)
    requires dev.Valid() && n == |blocks| && n > 0 && i < Ctz(n)
    requires List(mem, dev.blockSize, blocks) && |mem| == |dev.mem|
    requires Pow2(i) <= n && head == blocks[n - Pow2(i)] && head < |dev.mem| && mem[head] == dev.mem[head]
    ensures Pow2(i + 1) <= n && next == blocks[n - Pow2(i + 1)]
  {
    PowerFits(n, i + 1);
    var m := n - Pow2(i);
    CtzGrows(n, i);
    assert Linked(mem, dev.blockSize, blocks, m);
    assert PointsBack(mem[head], blocks, m, i);
    HeaderRoom(m, i);
    var data := dev.Read(head, 4 * i, 4);
    next := FromLe32(data);
  }

  lemma PointerWritten(block: seq<Byte>, block': seq<Byte>, blocks: seq<nat>, n: nat, i: nat, head: nat)
    requires 0 < n <= |blocks| && i <= Ctz(n) && Header(n) <= |block| == |block'| && head < TWO_32
    requires PointersOk(block, blocks, n, i) && Pow2(i) <= n && head == blocks[n - Pow2(i)]
    requires block' == block[..4 * i] + Le32(head) + block[4 * i + 4..]
    ensures PointersOk(block', blocks, n, i + 1)
  {
    forall k: nat | k < i + 1
      ensures PointsBack(block', blocks, n, k)
    {
      HeaderRoom(n, k);
      if k < i {
        assert PointsBack(block, blocks, n, k);
        assert block'[4 * k..4 * k + 4] == block[4 * k..4 * k + 4];
      } else {
        assert block'[4 * i..4 * i + 4] == Le32(head);
        Le32RoundTrip(head);
      }
    }
  }

  /** The pointers of the next block fit, for every size a file can have. */
  lemma HeaderFits(blockSize: nat, n: nat, size: nat)
    requires blockSize >= 104 && n > 0 && 0 < size <= FILE_MAX && InBlock(blockSize, n - 1, size - 1)
    ensures Header(n) <= blockSize
  {
    SmallPowers();
    if n >= Pow2(25) {
      if n - 1 > 0 {
        StartClosedForm(blockSize, n - 1);
        MulLe(96, blockSize - 8, n - 1);
      }
    }
    CtzSmall(n, 25);
  }
}
