/**
  Files that are too large for their directory entry (lfs.c:2595-2980): a skip-list on the
  device, a position, and while something is being written a branch of the list that shares
  its front with the last flushed version.
 */
module File {
  import opened Util
  import opened Flash
  import opened CtzIndex
  import opened SkipList

  // ----- the bytes of a list -----

  ghost predicate Fits(mem: seq<seq<Byte>>, blockSize: nat, blocks: seq<nat>) {
    forall n :: 0 <= n < |blocks| ==> blocks[n] < |mem| && |mem[blocks[n]]| == blockSize && Header(n) <= blockSize
  }

  /** The data of all blocks of a list, without their pointers. */
  ghost function Bytes(mem: seq<seq<Byte>>, blockSize: nat, blocks: seq<nat>): (s: seq<Byte>)
    requires Fits(mem, blockSize, blocks)
    ensures |s| == Start(blockSize, |blocks|)
  {
    if blocks == [] then []
    else
      var n := |blocks| - 1;
      Bytes(mem, blockSize, blocks[..n]) + mem[blocks[n]][Header(n)..]
  }

  lemma ListFits(mem: seq<seq<Byte>>, blockSize: nat, blocks: seq<nat>)
    requires List(mem, blockSize, blocks)
    ensures Fits(mem, blockSize, blocks)
  {
  }

  lemma BytesLength(mem: seq<seq<Byte>>, blockSize: nat, blocks: seq<nat>)
    requires Fits(mem, blockSize, blocks)
    ensures |Bytes(mem, blockSize, blocks)| == Start(blockSize, |blocks|) >= 0
  {
  }

  lemma {:induction false} BytesFront(mem: seq<seq<Byte>>, blockSize: nat, blocks: seq<nat>, i: nat)
    requires Fits(mem, blockSize, blocks) && i <= |blocks|
    ensures 0 <= Start(blockSize, i) <= Start(blockSize, |blocks|)
    ensures Bytes(mem, blockSize, blocks[..i]) == Bytes(mem, blockSize, blocks)[..Start(blockSize, i)]
    decreases |blocks|
  {
    hide Header, Bytes, Start;
    BytesLength(mem, blockSize, blocks);
    if i == |blocks| {
      assert blocks[..i] == blocks;
    } else {
      var n := |blocks| - 1;
      BytesFront(mem, blockSize, blocks[..n], i);
      assert blocks[..n][..i] == blocks[..i];
      BytesLast(mem, blockSize, blocks);
      var front, last := Bytes(mem, blockSize, blocks[..n]), mem[blocks[n]][Header(n)..];
      TakeLeft(front, last, Start(blockSize, i));
    }
  }

  lemma TakeLeft(a: seq<Byte>, b: seq<Byte>, n: nat)
    requires n <= |a|
    ensures (a + b)[..n] == a[..n]
  {
  }

  lemma BytesLast(mem: seq<seq<Byte>>, blockSize: nat, blocks: seq<nat>)
    requires Fits(mem, blockSize, blocks) && blocks != []
    ensures var n := |blocks| - 1;
            && Start(blockSize, |blocks|) == Start(blockSize, n) + blockSize - Header(n)
            && 0 <= Start(blockSize, n) <= Start(blockSize, |blocks|)
            && |Bytes(mem, blockSize, blocks[..n])| == Start(blockSize, n)
            && Bytes(mem, blockSize, blocks) == Bytes(mem, blockSize, blocks[..n]) + mem[blocks[n]][Header(n)..]
  {
    var n := |blocks| - 1;
    assert blocks[n] < |mem| && Header(n) <= blockSize;
    BytesLength(mem, blockSize, blocks[..n]);
  }

  /** What block i of the list contributes. */
  lemma BytesBlock(mem: seq<seq<Byte>>, blockSize: nat, blocks: seq<nat>, i: nat)
    requires Fits(mem, blockSize, blocks) && i < |blocks|
    ensures 0 <= Start(blockSize, i) <= Start(blockSize, i + 1) <= Start(blockSize, |blocks|)
    ensures Start(blockSize, i + 1) == Start(blockSize, i) + blockSize - Header(i)
    ensures |Bytes(mem, blockSize, blocks)| == Start(blockSize, |blocks|)
    ensures Bytes(mem, blockSize, blocks)[Start(blockSize, i)..Start(blockSize, i + 1)] == mem[blocks[i]][Header(i)..]
  {
    hide Header, Bytes, Start;
    BytesLength(mem, blockSize, blocks);
    BytesFront(mem, blockSize, blocks, i);
    BytesFront(mem, blockSize, blocks, i + 1);
    BytesLast(mem, blockSize, blocks[..i + 1]);
    assert blocks[..i + 1][..i] == blocks[..i];
    var s := Bytes(mem, blockSize, blocks);
    assert s[..Start(blockSize, i + 1)][Start(blockSize, i)..] == s[Start(blockSize, i)..Start(blockSize, i + 1)];
  }

  /** A read inside one block. */
  lemma BytesSlice(mem: seq<seq<Byte>>, blockSize: nat, blocks: seq<nat>, i: nat, off: nat, n: nat)
    requires Fits(mem, blockSize, blocks) && i < |blocks| && Header(i) <= off && off + n <= blockSize
    ensures var p := Start(blockSize, i) + off - Header(i);
            0 <= p && p + n <= Start(blockSize, |blocks|)
            && Bytes(mem, blockSize, blocks)[p..p + n] == mem[blocks[i]][off..off + n]
  {
    hide Header, Start, Bytes;
    BytesBlock(mem, blockSize, blocks, i);
    var a, b := Start(blockSize, i), Start(blockSize, i + 1);
    var k := off - Header(i);
    var s, t := Bytes(mem, blockSize, blocks), mem[blocks[i]];
    Within(s, a, b - a, k, n);
    Within(t, Header(i), |t| - Header(i), k, n);
    assert t[Header(i)..] == t[Header(i)..Header(i) + (|t| - Header(i))];
  }

  /** These blocks are on the device as they were. */
  ghost predicate Kept(mem: seq<seq<Byte>>, mem': seq<seq<Byte>>, blocks: seq<nat>) {
    |mem'| == |mem| && forall b <- blocks :: b < |mem| ==> mem'[b] == mem[b]
  }

  lemma {:induction false} BytesSame(mem: seq<seq<Byte>>, mem': seq<seq<Byte>>, blockSize: nat, blocks: seq<nat>)
    requires Fits(mem, blockSize, blocks) && Kept(mem, mem', blocks)
    ensures Fits(mem', blockSize, blocks) && Bytes(mem', blockSize, blocks) == Bytes(mem, blockSize, blocks)
    decreases |blocks|
  {
    hide Header;
    if blocks != [] {
      BytesSame(mem, mem', blockSize, blocks[..|blocks| - 1]);
    }
  }

  /** The last block of a list was replaced, or continued behind `off`: everything before it reads the same. */
  lemma BytesBehind(mem: seq<seq<Byte>>, mem': seq<seq<Byte>>, blockSize: nat, blocks: seq<nat>, blocks': seq<nat>,
                    off: nat)
    requires Fits(mem, blockSize, blocks) && Fits(mem', blockSize, blocks') && |blocks'| == |blocks| > 0
    requires var n := |blocks| - 1;
             && blocks'[..n] == blocks[..n] && Kept(mem, mem', blocks[..n])
             && Header(n) <= off <= blockSize && mem'[blocks'[n]][..off] == mem[blocks[n]][..off]
    ensures var p := Start(blockSize, |blocks| - 1) + off - Header(|blocks| - 1);
            0 <= p <= Start(blockSize, |blocks|)
            && Bytes(mem', blockSize, blocks')[..p] == Bytes(mem, blockSize, blocks)[..p]
  {
    hide Header, Bytes, Start, Kept, Fits;
    var n := |blocks| - 1;
    FrontFits(mem, blockSize, blocks);
    BytesSame(mem, mem', blockSize, blocks[..n]);
    BytesLast(mem, blockSize, blocks);
    BytesLast(mem', blockSize, blocks');
    LastFits(mem, blockSize, blocks);
    LastFits(mem', blockSize, blocks');
    FrontParts(Bytes(mem, blockSize, blocks[..n]), mem[blocks[n]], mem'[blocks'[n]], Header(n), off);
  }

  lemma FrontFits(mem: seq<seq<Byte>>, blockSize: nat, blocks: seq<nat>)
    requires Fits(mem, blockSize, blocks) && |blocks| > 0
    ensures Fits(mem, blockSize, blocks[..|blocks| - 1])
  {
  }

  lemma LastFits(mem: seq<seq<Byte>>, blockSize: nat, blocks: seq<nat>)
    requires Fits(mem, blockSize, blocks) && |blocks| > 0
    ensures var n := |blocks| - 1; blocks[n] < |mem| && |mem[blocks[n]]| == blockSize && Header(n) <= blockSize
  {
  }

  lemma FrontParts(a: seq<Byte>, x: seq<Byte>, y: seq<Byte>, h: nat, off: nat)
    requires h <= off <= |x| && off <= |y| && y[..off] == x[..off]
    ensures (a + y[h..])[..|a| + off - h] == (a + x[h..])[..|a| + off - h]
  {
    Between(x, h, off);
    Between(y, h, off);
    assert (a + x[h..])[..|a| + off - h] == a + x[h..][..off - h];
    assert (a + y[h..])[..|a| + off - h] == a + y[h..][..off - h];
  }

  lemma Between(x: seq<Byte>, h: nat, off: nat)
    requires h <= off <= |x|
    ensures x[h..][..off - h] == x[..off][h..]
  {
  }

  /** Data programmed at `off` of the last block follows what was there. */
  lemma BytesAppended(mem: seq<seq<Byte>>, mem': seq<seq<Byte>>, blockSize: nat, blocks: seq<nat>, off: nat,
                      data: seq<Byte>)
    requires Fits(mem, blockSize, blocks) && Fits(mem', blockSize, blocks) && |blocks| > 0
    requires var n := |blocks| - 1;
             && Kept(mem, mem', blocks[..n]) && Header(n) <= off && off + |data| <= blockSize
             && mem'[blocks[n]] == mem[blocks[n]][..off] + data + mem[blocks[n]][off + |data|..]
    ensures var p := Start(blockSize, |blocks| - 1) + off - Header(|blocks| - 1);
            0 <= p && p + |data| <= Start(blockSize, |blocks|)
            && Bytes(mem', blockSize, blocks)[..p + |data|] == Bytes(mem, blockSize, blocks)[..p] + data
  {
    hide Header, Start, Bytes, Kept, Fits;
    var n := |blocks| - 1;
    FrontFits(mem, blockSize, blocks);
    BytesSame(mem, mem', blockSize, blocks[..n]);
    BytesLast(mem, blockSize, blocks);
    BytesLast(mem', blockSize, blocks);
    LastFits(mem, blockSize, blocks);
    LastFits(mem', blockSize, blocks);
    AppendParts(Bytes(mem, blockSize, blocks[..n]), mem[blocks[n]], mem'[blocks[n]], Header(n), off, data);
  }

  lemma AppendParts(a: seq<Byte>, x: seq<Byte>, y: seq<Byte>, h: nat, off: nat, data: seq<Byte>)
    requires h <= off && off + |data| <= |x| && y == x[..off] + data + x[off + |data|..]
    ensures (a + y[h..])[..|a| + off - h + |data|] == (a + x[h..])[..|a| + off - h] + data
  {
    Between(x, h, off);
    assert y[h..][..off - h + |data|] == x[..off][h..] + data;
    assert (a + y[h..])[..|a| + off - h + |data|] == a + y[h..][..off - h + |data|];
    assert (a + x[h..])[..|a| + off - h] == a + x[h..][..off - h];
  }

  // ----- positions in a list -----

  /** A file position, in block i of the list, as a block and an offset. */
  ghost predicate At(blockSize: nat, blocks: seq<nat>, i: nat, block: nat, off: nat, pos: nat) {
    i < |blocks| && block == blocks[i] && Header(i) <= off <= blockSize && pos == Start(blockSize, i) + off - Header(i)
  }

  /** Where a position is, and where in the list. */
  method FindAt(dev: BlockDevice, head: nat, size: nat, pos: nat, ghost blocks: seq<nat>, ghost limit: nat)
    returns (block: nat, off: nat, ghost at: nat)
    requires dev.Valid() && List(dev.mem, dev.blockSize, blocks) && HoldsSize(dev.blockSize, blocks, size)
    requires head == blocks[|blocks| - 1] && pos < size <= limit && Placed(dev.blockSize, limit)
    ensures At(dev.blockSize, blocks, at, block, off, pos) && off < dev.blockSize
  {
    hide Start, Header, List, HoldsSize, InBlock, Placed, GuessCorrects;
    var hops;
    PlacedAt(dev.blockSize, limit, size - 1);
    PlacedAt(dev.blockSize, limit, pos);
    block, off, hops := Find(dev, head, size, pos, blocks);
    at := FoundAt(dev.blockSize, blocks, block, off, pos);
  }

  /** A part of a block, and where the file goes on. */
  method ReadPart(dev: BlockDevice, block: nat, off: nat, n: nat, ghost blocks: seq<nat>, ghost at: nat, ghost pos: nat)
    returns (part: seq<Byte>)
    requires dev.Valid() && Fits(dev.mem, dev.blockSize, blocks) && At(dev.blockSize, blocks, at, block, off, pos)
    requires off + n <= dev.blockSize
    ensures pos + n <= |Bytes(dev.mem, dev.blockSize, blocks)|
    ensures part == Bytes(dev.mem, dev.blockSize, blocks)[pos..pos + n]
    ensures At(dev.blockSize, blocks, at, block, off + n, pos + n)
  {
    hide Start, Header, Bytes;
    part := dev.Read(block, off, n);
    BytesSlice(dev.mem, dev.blockSize, blocks, at, off, n);
  }

  lemma AtInside(blockSize: nat, blocks: seq<nat>, i: nat, block: nat, off: nat, pos: nat)
    requires At(blockSize, blocks, i, block, off, pos)
    ensures off <= blockSize
  {
  }

  /** The loop of lfs_file_read. */
  method ReadBytes(dev: BlockDevice, head: nat, size: nat, start: nat, n: nat, reading: bool, block0: nat, off0: nat,
                   ghost blocks: seq<nat>, ghost at0: nat, ghost limit: nat)
    returns (data: seq<Byte>, block: nat, off: nat, ghost at: nat)
    requires dev.Valid() && List(dev.mem, dev.blockSize, blocks) && HoldsSize(dev.blockSize, blocks, size)
    requires head == blocks[|blocks| - 1] && start + n <= size && Placed(dev.blockSize, limit) && size <= limit
    requires reading ==> At(dev.blockSize, blocks, at0, block0, off0, start)
    ensures Fits(dev.mem, dev.blockSize, blocks) && start + n <= |Bytes(dev.mem, dev.blockSize, blocks)|
    ensures data == Bytes(dev.mem, dev.blockSize, blocks)[start..start + n]
    ensures n > 0 || reading ==> At(dev.blockSize, blocks, at, block, off, start + n)
  {
    hide Start, Header, Bytes, List, HoldsSize, InBlock, Placed, GuessCorrects, At, Fits;
    ListFits(dev.mem, dev.blockSize, blocks);
    HoldsBytes(dev.mem, dev.blockSize, blocks, size);
    ghost var all := Bytes(dev.mem, dev.blockSize, blocks);
    block, off, at := block0, off0, at0;
    data := [];
    var pos, left := start, n;
    var found := reading;
    assert all[start..start] == [];
    while left > 0
      invariant 0 <= left && pos + left == start + n && start <= pos
      invariant data == all[start..pos]
      invariant found ==> At(dev.blockSize, blocks, at, block, off, pos)
      invariant left < n || reading ==> found
      decreases left
    {
      if !found || off == dev.blockSize {
        block, off, at := FindAt(dev, head, size, pos, blocks, limit);
        found := true;
      }
      AtInside(dev.blockSize, blocks, at, block, off, pos);
      var diff := Min(left, dev.blockSize - off);
      var part := ReadPart(dev, block, off, diff, blocks, at, pos);
      SliceOn(all, start, pos, pos + diff);
      data := data + part;
      pos, off, left := pos + diff, off + diff, left - diff;
    }
  }

  lemma SliceOn(s: seq<Byte>, a: nat, b: nat, c: nat)
    requires a <= b <= c <= |s|
    ensures s[a..c] == s[a..b] + s[b..c]
  {
  }

  lemma HoldsBytes(mem: seq<seq<Byte>>, blockSize: nat, blocks: seq<nat>, size: nat)
    requires Fits(mem, blockSize, blocks) && HoldsSize(blockSize, blocks, size)
    ensures size <= |Bytes(mem, blockSize, blocks)|
  {
    BytesLength(mem, blockSize, blocks);
  }

  lemma FoundAt(blockSize: nat, blocks: seq<nat>, block: nat, off: nat, pos: nat) returns (i: nat)
    requires exists i :: 0 <= i < |blocks| && InBlock(blockSize, i, pos) && block == blocks[i]
                         && off == pos - Start(blockSize, i) + Header(i) && off < blockSize
    ensures At(blockSize, blocks, i, block, off, pos) && off < blockSize && InBlock(blockSize, i, pos)
  {
    i :| 0 <= i < |blocks| && InBlock(blockSize, i, pos) && block == blocks[i]
         && off == pos - Start(blockSize, i) + Header(i) && off < blockSize;
  }

  // ----- growing a list -----

  /** There is room for data behind the pointers of every block a file can have. */
  lemma HeaderBelow(blockSize: nat, n: nat, size: nat)
    requires blockSize >= 104 && n > 0 && 0 < size <= FILE_MAX && InBlock(blockSize, n - 1, size - 1)
    ensures Header(n) < blockSize
  {
    SmallPowers();
    if n >= Pow2(25) {
      if n - 1 > 0 {
        StartClosedForm(blockSize, n - 1);
        MulLe(96, blockSize - 8, n - 1);
      }
    }
    CtzSmall(n, 25);
  }

  /** The index of the block a position is in. */
  ghost function BlockOf(blockSize: nat, pos: nat): (i: nat)
    requires blockSize >= 104 && pos <= FILE_MAX
    ensures InBlock(blockSize, i, pos)
  {
    if pos == 0 then 0
    else
      var i := BlockOf(blockSize, pos - 1);
      HeaderBelow(blockSize, i + 1, pos);
      if pos < Start(blockSize, i + 1) then i else i + 1
  }

  /** How many blocks a file of n bytes takes. */
  ghost function BlocksFor(blockSize: nat, n: nat): nat
    requires blockSize >= 104 && n <= FILE_MAX + 1
  {
    if n == 0 then 0 else BlockOf(blockSize, n - 1) + 1
  }

  lemma {:induction false} BlocksAscend(blockSize: nat, a: nat, b: nat)
    requires blockSize >= 104 && a <= b <= FILE_MAX
    ensures BlockOf(blockSize, a) <= BlockOf(blockSize, b) && BlocksFor(blockSize, a) <= BlocksFor(blockSize, b)
    ensures BlocksFor(blockSize, a) <= BlockOf(blockSize, a) + 1 && BlockOf(blockSize, a) <= BlocksFor(blockSize, a)
    decreases b
  {
    hide Start, Header, InBlock;
    if a < b {
      BlocksAscend(blockSize, a, b - 1);
    }
  }

  /** The blocks of a list in front of a position, and what is new behind it. */
  lemma BranchedFront(blockSize: nat, cut: seq<nat>, pos: nat, full: bool, nblock: nat)
    requires blockSize >= 104 && pos <= FILE_MAX
    requires pos > 0 ==> HoldsSize(blockSize, cut, pos) && (full <==> pos == Start(blockSize, |cut|))
    ensures BlockOf(blockSize, pos) <= |cut|
    ensures Branched(cut, pos, full, nblock) == cut[..BlockOf(blockSize, pos)] + [nblock]
  {
    hide Header, Start;
    if pos > 0 {
      InBlockUnique(blockSize, |cut| - 1, BlockOf(blockSize, pos - 1), pos - 1);
    }
  }

  /** A version has all blocks in front of any position in it. */
  lemma VersionFront(mem: seq<seq<Byte>>, blockSize: nat, blocks: seq<nat>, head: nat, size: nat, p: nat)
    requires blockSize >= 104 && Version(mem, blockSize, blocks, head, size) && p <= size <= FILE_MAX
    ensures BlockOf(blockSize, p) <= |blocks| == BlocksFor(blockSize, size)
  {
    hide Header, Start, List;
    if size > 0 {
      InBlockUnique(blockSize, |blocks| - 1, BlockOf(blockSize, size - 1), size - 1);
    }
    BlocksAscend(blockSize, p, size);
  }

  lemma CutFront(blockSize: nat, blocks: seq<nat>, pos: nat, i: nat)
    requires blockSize >= 104 && 0 < pos <= FILE_MAX && i < |blocks| && InBlock(blockSize, i, pos - 1)
    ensures var n := BlockOf(blockSize, pos); n <= i + 1 && blocks[..i + 1][..n] == blocks[..n]
  {
    hide InBlock;
    InBlockUnique(blockSize, i, BlockOf(blockSize, pos - 1), pos - 1);
    BlocksAscend(blockSize, pos, pos);
  }

  /** A list whose last block is written up to `off`. */
  lemma BranchBlocks(mem: seq<seq<Byte>>, blockSize: nat, blocks: seq<nat>, block: nat, off: nat, pos: nat)
    requires blockSize >= 104 && List(mem, blockSize, blocks) && blocks != []
             && At(blockSize, blocks, |blocks| - 1, block, off, pos)
    requires Header(|blocks| - 1) < off && pos <= FILE_MAX
    ensures pos > 0 && |blocks| == BlocksFor(blockSize, pos)
    ensures off == blockSize ==> BlockOf(blockSize, pos) == |blocks|
  {
    hide Header, List;
    StartedHolds(mem, blockSize, blocks, block, off, pos);
    InBlockUnique(blockSize, |blocks| - 1, BlockOf(blockSize, pos - 1), pos - 1);
  }

  /** A list went on with blocks of the supply, in their order, and the rest of it is left. */
  ghost predicate Spent(front: seq<nat>, supply: seq<nat>, branch: seq<nat>, left: seq<nat>) {
    && |front| <= |branch| <= |front| + |supply|
    && branch == front + supply[..|branch| - |front|] && left == supply[|branch| - |front|..]
  }

  lemma NoneSpent(front: seq<nat>, supply: seq<nat>)
    ensures Spent(front, supply, front, supply)
  {
    assert front + supply[..0] == front;
  }

  lemma OneSpent(front: seq<nat>, supply: seq<nat>)
    requires supply != []
    ensures Spent(front, supply, front + [supply[0]], supply[1..])
  {
    assert supply[..1] == [supply[0]];
  }

  lemma SpentLength(front: seq<nat>, supply: seq<nat>, branch: seq<nat>, left: seq<nat>)
    requires Spent(front, supply, branch, left)
    ensures |branch| + |left| == |front| + |supply|
  {
  }

  lemma SpentThen(front: seq<nat>, supply: seq<nat>, branch: seq<nat>, left: seq<nat>, longer: seq<nat>, rest: seq<nat>)
    requires Spent(front, supply, branch, left) && Spent(branch, left, longer, rest)
    ensures Spent(front, supply, longer, rest) && |branch| + |left| == |front| + |supply|
  {
    var k, n := |branch| - |front|, |longer| - |branch|;
    assert supply[..k] + left[..n] == supply[..k + n];
    assert front + (supply[..k] + left[..n]) == front + supply[..k] + left[..n];
    assert left[n..] == supply[k + n..];
  }

  /** The last bytes of a list that was cut behind the block of position size - 1. */
  lemma CutHolds(blockSize: nat, blocks: seq<nat>, i: nat, size: nat)
    requires i < |blocks| && 0 < size <= FILE_MAX + 1 && InBlock(blockSize, i, size - 1)
    ensures HoldsSize(blockSize, blocks[..i + 1], size)
  {
  }

  /** After lfs_ctz_extend the list reads the same up to where it was cut, and goes on from there. */
  lemma ExtendedBytes(mem: seq<seq<Byte>>, mem': seq<seq<Byte>>, blockSize: nat, blocks: seq<nat>, size: nat,
                      nblock: nat, full: bool, off: nat)
    requires blockSize >= 104 && List(mem, blockSize, blocks) && HoldsSize(blockSize, blocks, size) && size <= FILE_MAX
    requires OnlyChanged(mem, mem', nblock) && nblock !in blocks
             && List(mem', blockSize, Extended(blocks, full, nblock))
    requires full <==> size == Start(blockSize, |blocks|)
    requires if full then off == Header(|blocks|)
             else off == size - Start(blockSize, |blocks| - 1) + Header(|blocks| - 1)
                  && off <= blockSize && mem'[nblock][..off] == mem[blocks[|blocks| - 1]][..off]
    ensures Fits(mem, blockSize, blocks) && Fits(mem', blockSize, Extended(blocks, full, nblock))
    ensures size <= |Bytes(mem, blockSize, blocks)| && size <= |Bytes(mem', blockSize, Extended(blocks, full, nblock))|
    ensures Bytes(mem', blockSize, Extended(blocks, full, nblock))[..size] == Bytes(mem, blockSize, blocks)[..size]
    ensures At(blockSize, Extended(blocks, full, nblock), |Extended(blocks, full, nblock)| - 1, nblock, off, size)
    ensures Header(|Extended(blocks, full, nblock)| - 1) <= off < blockSize
  {
    hide Bytes, List, Start, Header, Fits, InBlock;
    var longer := Extended(blocks, full, nblock);
    ListFits(mem, blockSize, blocks);
    ListFits(mem', blockSize, longer);
    BytesLength(mem, blockSize, blocks);
    BytesLength(mem', blockSize, longer);
    if full {
      ExtendedFull(mem, mem', blockSize, blocks, size, nblock);
    } else {
      ExtendedPartly(mem, mem', blockSize, blocks, size, nblock, off);
    }
  }

  lemma ExtendedFull(mem: seq<seq<Byte>>, mem': seq<seq<Byte>>, blockSize: nat, blocks: seq<nat>, size: nat,
                     nblock: nat)
    requires blockSize >= 104 && List(mem, blockSize, blocks) && HoldsSize(blockSize, blocks, size) && size <= FILE_MAX
    requires OnlyChanged(mem, mem', nblock) && nblock !in blocks && List(mem', blockSize, blocks + [nblock])
    requires size == Start(blockSize, |blocks|) && Fits(mem, blockSize, blocks)
             && Fits(mem', blockSize, blocks + [nblock])
    ensures size == |Bytes(mem, blockSize, blocks)| && size <= |Bytes(mem', blockSize, blocks + [nblock])|
    ensures Bytes(mem', blockSize, blocks + [nblock])[..size] == Bytes(mem, blockSize, blocks)
    ensures At(blockSize, blocks + [nblock], |blocks|, nblock, Header(|blocks|), size) && Header(|blocks|) < blockSize
  {
    hide Bytes, List, Start, Header, Fits, InBlock;
    var longer := blocks + [nblock];
    HeaderBelow(blockSize, |blocks|, size);
    BytesFront(mem', blockSize, longer, |blocks|);
    assert longer[..|blocks|] == blocks;
    BytesSame(mem, mem', blockSize, blocks);
    BytesLength(mem, blockSize, blocks);
  }

  lemma ExtendedPartly(mem: seq<seq<Byte>>, mem': seq<seq<Byte>>, blockSize: nat, blocks: seq<nat>, size: nat,
                       nblock: nat, off: nat)
    requires blockSize >= 104 && List(mem, blockSize, blocks) && HoldsSize(blockSize, blocks, size)
    requires OnlyChanged(mem, mem', nblock) && nblock !in blocks
             && List(mem', blockSize, blocks[..|blocks| - 1] + [nblock])
    requires size != Start(blockSize, |blocks|) && off == size - Start(blockSize, |blocks| - 1) + Header(|blocks| - 1)
    requires off <= blockSize && mem'[nblock][..off] == mem[blocks[|blocks| - 1]][..off]
    requires Fits(mem, blockSize, blocks) && Fits(mem', blockSize, blocks[..|blocks| - 1] + [nblock])
    ensures var longer := blocks[..|blocks| - 1] + [nblock];
            && size <= |Bytes(mem, blockSize, blocks)| && size <= |Bytes(mem', blockSize, longer)|
            && Bytes(mem', blockSize, longer)[..size] == Bytes(mem, blockSize, blocks)[..size]
            && At(blockSize, longer, |blocks| - 1, nblock, off, size) && Header(|blocks| - 1) <= off < blockSize
  {
    hide Bytes, List;
    var longer, n := blocks[..|blocks| - 1] + [nblock], |blocks| - 1;
    BytesLength(mem, blockSize, blocks);
    BytesLength(mem', blockSize, longer);
    assert longer[..n] == blocks[..n];
    BytesBehind(mem, mem', blockSize, blocks, longer, off);
  }

  // ----- what a file is -----

  /** A byte array written at a position: zeros fill the gap if it lies behind the end. */
  function Padded(content: seq<Byte>, pos: nat): (s: seq<Byte>)
    ensures |s| == Max(|content|, pos)
  {
    if pos <= |content| then content else content + seq(pos - |content|, i => 0)
  }

  function Written(content: seq<Byte>, pos: nat, data: seq<Byte>): (s: seq<Byte>) {
    var c := Padded(content, pos);
    c[..pos] + data + (if pos + |data| <= |c| then c[pos + |data|..] else [])
  }

  /** The flushed version of a file: nothing, or a list. */
  ghost predicate Version(mem: seq<seq<Byte>>, blockSize: nat, blocks: seq<nat>, head: nat, size: nat) {
    if size == 0 then blocks == []
    else List(mem, blockSize, blocks) && HoldsSize(blockSize, blocks, size) && head == blocks[|blocks| - 1]
  }

  /** Blocks the allocator may hand out: each once, and none in use by this file. */
  ghost predicate Spare(supply: seq<nat>, count: nat, flushed: seq<nat>, branch: seq<nat>) {
    && (forall i, j :: 0 <= i < j < |supply| ==> supply[i] != supply[j])
    && (forall b <- supply :: b < count && b !in flushed && b !in branch)
  }

  /** The first n bytes of a version. */
  ghost function FirstBytes(mem: seq<seq<Byte>>, blockSize: nat, blocks: seq<nat>, n: nat): (s: seq<Byte>)
    requires blockSize >= 8 && List(mem, blockSize, blocks) && n <= Start(blockSize, |blocks|)
    ensures |s| == n
  {
    ListFits(mem, blockSize, blocks);
    Bytes(mem, blockSize, blocks)[..n]
  }

  ghost function VersionBytes(mem: seq<seq<Byte>>, blockSize: nat, blocks: seq<nat>, head: nat,
                              size: nat): (s: seq<Byte>)
    requires blockSize >= 8 && Version(mem, blockSize, blocks, head, size)
    ensures |s| == size
  {
    if size == 0 then []
    else
      ListFits(mem, blockSize, blocks);
      BytesLength(mem, blockSize, blocks);
      FirstBytes(mem, blockSize, blocks, size)
  }

  function RestOf(content: seq<Byte>, pos: nat): seq<Byte> { if pos <= |content| then content[pos..] else [] }

  lemma PartsWritten(before: seq<Byte>, last: seq<Byte>, pos: nat, data: seq<Byte>)
    requires |before| == pos
    ensures before + data + RestOf(last, pos + |data|) == Written(before + RestOf(last, pos), pos, data)
  {
  }

  lemma PaddedTwice(content: seq<Byte>, pos: nat, data: seq<Byte>)
    ensures Written(Padded(content, pos), pos, data) == Written(content, pos, data)
    ensures forall k: nat :: k <= |data| ==>
              Written(Padded(content, pos), pos, data[..k]) == Written(content, pos, data[..k])
  {
    assert Padded(Padded(content, pos), pos) == Padded(content, pos);
  }

  lemma OneZero(content: seq<Byte>, pos: nat)
    requires pos >= |content|
    ensures Written(Padded(content, pos), pos, [0]) == Padded(content, pos + 1)
    ensures Written(Padded(content, pos), pos, [0][..0]) == Padded(content, pos)
  {
  }

  /** Up to n bytes from a position, as many as there are. */
  function Slice(content: seq<Byte>, pos: nat, n: nat): seq<Byte> {
    if pos >= |content| then [] else content[pos..Min(pos + n, |content|)]
  }

  datatype Result = Done | TooBig | NoSpace

  datatype Whence = FromStart | FromHere | FromEnd

  /** lfs_file_t of a file that is not inline. */
  class File {
    const dev: BlockDevice
    const fileMax: nat
    const append: bool

    // ctz.head and ctz.size: the last flushed version
    var head: nat
    var size: nat
    // the cursor, and where it is on the device while reading or writing
    var pos: nat
    var block: nat
    var off: nat
    var reading: bool
    var writing: bool
    // what the allocator will hand out
    var supply: seq<nat>

    ghost var flushed: seq<nat>
    ghost var branch: seq<nat>
    ghost var at: nat

    ghost predicate Valid()
      reads this, dev
    {
      && dev.Valid() && fileMax <= FILE_MAX && Placed(dev.blockSize, fileMax) && size <= fileMax && pos <= fileMax
      && Version(dev.mem, dev.blockSize, flushed, head, size)
      && Spare(supply, |dev.mem|, flushed, branch)
      && !(reading && writing)
      && (if writing then Branching() else branch == [])
      && (reading ==> At(dev.blockSize, flushed, at, block, off, pos))
    }

    /** Between operations the last block of the branch has data in it. */
    ghost predicate Ready()
      reads this, dev
    {
      Valid() && (writing ==> Header(|branch| - 1) < off)
    }

    /** The list under construction ends in the block being programmed, which no version shares. */
    ghost predicate Branching()
      reads this, dev
    {
      && List(dev.mem, dev.blockSize, branch) && branch != []
      && At(dev.blockSize, branch, |branch| - 1, block, off, pos) && Header(|branch| - 1) < dev.blockSize
      && block < |dev.top| && dev.top[block] == off && block !in flushed
      && (append ==> size <= pos)
    }

    /** The bytes in front of the cursor. */
    ghost function Before(): (s: seq<Byte>)
      requires Valid() && (writing || pos <= size)
      reads this, dev
      ensures |s| == pos
    {
      if writing then
        BranchLength();
        FirstBytes(dev.mem, dev.blockSize, branch, pos)
      else VersionBytes(dev.mem, dev.blockSize, flushed, head, size)[..pos]
    }

    /** The file as a byte array: the branch as far as it is written, then the flushed version. */
    ghost function Contents(): (s: seq<Byte>)
      requires Valid()
      reads this, dev
      ensures |s| == if writing then Max(pos, size) else size
    {
      var old_ := VersionBytes(dev.mem, dev.blockSize, flushed, head, size);
      if writing then Before() + (if pos <= size then old_[pos..] else []) else old_
    }

    /** The last flushed version. */
    ghost function Last(): (s: seq<Byte>)
      requires Valid()
      reads this, dev
      ensures |s| == size
    {
      VersionBytes(dev.mem, dev.blockSize, flushed, head, size)
    }

    /** The blocks in front of what is written next, at p: the branch, or a part of the last version. */
    ghost function Front(p: nat): seq<nat>
      requires Valid() && (writing || p <= size)
      reads this, dev
    {
      if writing then branch
      else
        VersionFront(dev.mem, dev.blockSize, flushed, head, size, p);
        flushed[..BlockOf(dev.blockSize, p)]
    }

    /**
      Of a supply and the blocks in front of what is written: what is left is the rest of the supply behind the
      blocks that were linked into the branch, and these are as many as the bytes up to the cursor take.
     */
    ghost predicate Used(front: seq<nat>, before: seq<nat>)
      requires dev.blockSize >= 104 && pos <= FILE_MAX
      reads this
    {
      if writing then Spent(front, before, branch, supply) && |branch| == BlocksFor(dev.blockSize, pos)
      else supply == before
    }

    lemma BranchCovers()
      requires Ready() && writing
      ensures |branch| == BlocksFor(dev.blockSize, pos)
    {
      hide List, At, Placed, GuessCorrects, Header;
      BranchBlocks(dev.mem, dev.blockSize, branch, block, off, pos);
    }

    lemma NoneUsed()
      requires Ready() && (writing || pos <= size)
      ensures Used(Front(pos), supply)
    {
      hide List, At, Placed, GuessCorrects, Header, Spent, Branching;
      if writing {
        BranchCovers();
        NoneSpent(branch, supply);
      }
    }

    lemma FrontNow(front: seq<nat>, before: seq<nat>)
      requires Valid() && (writing || (pos <= size && Front(pos) == front)) && Used(front, before)
      ensures Spent(front, before, Front(pos), supply)
      ensures writing ==> Front(pos) == branch
    {
      hide Spent;
      NoneSpent(front, before);
    }

    lemma StillUsed(front: seq<nat>, before: seq<nat>)
      requires Ready() && writing && Spent(front, before, branch, supply)
      ensures Used(front, before)
    {
      hide Spent;
      BranchCovers();
    }

    /** A new block at the cursor. */
    lemma UsedOne(front: seq<nat>, before: seq<nat>, was: seq<nat>, left: seq<nat>)
      requires left != [] && branch == was + [left[0]] && supply == left[1..]
      requires Spent(front, before, was, left)
      ensures Spent(front, before, branch, supply)
    {
      hide Spent;
      OneSpent(was, left);
      SpentThen(front, before, was, left, branch, supply);
    }

    lemma FrontIsBranch()
      requires Valid() && writing
      ensures Front(pos) == branch
    {
    }

    lemma UsedIs(front: seq<nat>, before: seq<nat>)
      requires dev.blockSize >= 104 && pos <= FILE_MAX && Used(front, before)
      ensures if writing then Spent(front, before, branch, supply) else supply == before
    {
      hide Spent;
    }

    lemma UsedThen(front: seq<nat>, before: seq<nat>, was: seq<nat>, left: seq<nat>)
      requires dev.blockSize >= 104 && pos <= FILE_MAX && Used(was, left) && writing && Spent(front, before, was, left)
      ensures Used(front, before) && |was| + |left| == |front| + |before|
    {
      hide Spent;
      SpentThen(front, before, was, left, branch, supply);
    }

    /** More was written behind what was written before. */
    lemma UsedOn(front: seq<nat>, before: seq<nat>, was: seq<nat>, left: seq<nat>)
      requires dev.blockSize >= 104 && pos <= FILE_MAX && Used(was, left) && Spent(front, before, was, left)
      requires !writing ==> left == before
      ensures Used(front, before) && |was| + |left| == |front| + |before|
    {
      hide Spent;
      if writing {
        SpentThen(front, before, was, left, branch, supply);
      } else {
        SpentLength(front, before, was, left);
      }
    }

    lemma UsedFits(front: seq<nat>, before: seq<nat>)
      requires dev.blockSize >= 104 && pos <= FILE_MAX && writing && Used(front, before)
      ensures BlocksFor(dev.blockSize, pos) <= |front| + |before|
    {
    }

    /** With the supply used up, the next byte takes a block too many. */
    lemma UsedUp(front: seq<nat>, before: seq<nat>, t: nat)
      requires dev.blockSize >= 104 && pos < t <= FILE_MAX && Used(front, before) && supply == []
      requires BlockOf(dev.blockSize, pos) == if writing then |branch| else |front|
      ensures BlockOf(dev.blockSize, pos) == |front| + |before| < BlocksFor(dev.blockSize, t)
    {
      BlocksAscend(dev.blockSize, pos, t - 1);
    }

    lemma BranchLength()
      requires Valid() && writing
      ensures List(dev.mem, dev.blockSize, branch) && pos <= Start(dev.blockSize, |branch|)
    {
      hide List, Placed, GuessCorrects;
      ListFits(dev.mem, dev.blockSize, branch);
      BytesLast(dev.mem, dev.blockSize, branch);
    }

    /** A file opened at its last version, at the start. */
    constructor Open(dev: BlockDevice, fileMax: nat, append: bool, head: nat, size: nat, supply: seq<nat>,
                     ghost blocks: seq<nat>)
      requires dev.Valid() && size <= fileMax <= FILE_MAX && Placed(dev.blockSize, fileMax)
      requires Version(dev.mem, dev.blockSize, blocks, head, size) && Spare(supply, |dev.mem|, blocks, [])
      ensures Valid() && this.dev == dev && this.fileMax == fileMax && this.append == append && flushed == blocks
              && pos == 0
      ensures !reading && !writing && this.head == head && this.size == size && this.supply == supply
    {
      hide Placed, GuessCorrects;
      this.dev, this.fileMax, this.append := dev, fileMax, append;
      this.head, this.size, this.pos, this.block, this.off := head, size, 0, 0, 0;
      reading, writing, this.supply := false, false, supply;
      flushed, branch, at := blocks, [], 0;
      new;
    }

    /** The part of lfs_file_write that finds where to go on and takes a new block for it. */
    method Grow() returns (ok: bool)
      requires Valid() && !reading && pos < fileMax
      requires if writing then off == dev.blockSize else pos <= size && (append ==> size <= pos)
      modifies this`block, this`off, this`writing, this`supply, this`branch, dev
      ensures Valid()
      ensures ok <==> old(supply) != []
      ensures OnlyOf(old(dev.mem), dev.mem, old(supply)) && (forall b <- supply :: b in old(supply))
      ensures ok ==> writing && off < dev.blockSize && block in old(supply)
      ensures ok ==> branch == old(Front(pos)) + [old(supply)[0]] && supply == old(supply)[1..]
      ensures |old(Front(pos))| == BlockOf(dev.blockSize, pos)
      ensures !ok ==> writing == old(writing) && supply == [] && dev.mem == old(dev.mem)
      ensures !ok && writing ==> block == old(block) && off == old(off) && branch == old(branch)
      ensures Before() == old(Before()) && Last() == old(Last())
      ensures Kept(old(dev.mem), dev.mem, flushed)
    {
      hide List, Bytes, HoldsSize, Start, Header, InBlock, At, Fits, Version, VersionBytes, FirstBytes, Before,
        Branched, Extended, Spare, Placed, GuessCorrects;
      var from;
      ghost var cut;
      from, cut := Source();
      if supply == [] {
        return false;
      }
      Attach(from, cut);
      return true;
    }

    /** A list that ends at the cursor and holds the bytes in front of it. */
    ghost predicate Extends(from: nat, cut: seq<nat>)
      requires Valid() && (writing || pos <= size)
      reads this, dev
    {
      && (forall b <- cut :: b in flushed || b in branch)
      && BlockOf(dev.blockSize, pos) <= |cut| && cut[..BlockOf(dev.blockSize, pos)] == Front(pos)
      && (pos > 0 ==>
            && List(dev.mem, dev.blockSize, cut) && HoldsSize(dev.blockSize, cut, pos) && cut != []
               && from == cut[|cut| - 1]
            && Fits(dev.mem, dev.blockSize, cut) && pos <= |Bytes(dev.mem, dev.blockSize, cut)|
            && Bytes(dev.mem, dev.blockSize, cut)[..pos] == Before())
    }

    /** lfs_ctz_extend onto the next block of the supply. */
    method Attach(from: nat, ghost cut: seq<nat>)
      requires Valid() && !reading && pos < fileMax && supply != [] && (writing || pos <= size)
      requires (append ==> size <= pos) && Extends(from, cut)
      modifies this`block, this`off, this`writing, this`supply, this`branch, dev
      ensures Valid() && writing && off < dev.blockSize && block in old(supply)
      ensures branch == old(Front(pos)) + [old(supply)[0]] && supply == old(supply)[1..]
      ensures OnlyOf(old(dev.mem), dev.mem, old(supply)) && (forall b <- supply :: b in old(supply))
      ensures Before() == old(Before()) && Last() == old(Last())
      ensures Kept(old(dev.mem), dev.mem, flushed)
    {
      hide List, Bytes, HoldsSize, Start, Header, InBlock, At, Fits, Version, VersionBytes, FirstBytes, Before,
        Branched, Extended, Spare, Placed, GuessCorrects;
      var nblock := supply[0];
      SpareFirst(supply, |dev.mem|, flushed, branch, cut, pos);
      ghost var mem := dev.mem;
      if pos > 0 { PlacedAt(dev.blockSize, fileMax, pos - 1); }
      var o, full := Extend(dev, nblock, from, pos, cut);
      VersionFrame(mem, dev.mem, dev.blockSize, flushed, head, size, nblock);
      NewBranch(mem, dev.mem, dev.blockSize, cut, pos, nblock, full, o);
      BranchedFront(dev.blockSize, cut, pos, full, nblock);
      branch := Branched(cut, pos, full, nblock);
      supply, block, off, writing := supply[1..], nblock, o, true;
      BeforeIs();
    }

    /** Which list the next block extends: the branch, or the last version up to the cursor. */
    method Source() returns (from: nat, ghost cut: seq<nat>)
      requires Valid() && !reading && pos < fileMax
      requires if writing then off == dev.blockSize else pos <= size
      modifies this`block, this`off
      ensures Valid() && (writing ==> block == old(block) && off == old(off)) && Before() == old(Before())
      ensures Extends(from, cut)
    {
      hide List, Bytes, HoldsSize, Start, Header, InBlock, At, Fits, Placed, GuessCorrects;
      from, cut := block, branch;
      if writing {
        FullBranch(dev.mem, dev.blockSize, branch, block, off, pos);
        BranchBlocks(dev.mem, dev.blockSize, branch, block, off, pos);
        assert branch[..|branch|] == branch;
        BranchLength();
      } else if pos > 0 {
        var o, hops;
        PlacedAt(dev.blockSize, fileMax, size - 1);
        PlacedAt(dev.blockSize, fileMax, pos - 1);
        from, o, hops := Find(dev, head, size, pos - 1, flushed);
        ghost var i := FoundAt(dev.blockSize, flushed, from, o, pos - 1);
        block, off := from, o;
        cut := flushed[..i + 1];
        CutVersion(dev.mem, dev.blockSize, flushed, head, size, pos, i);
        CutFront(dev.blockSize, flushed, pos, i);
        AtLast(dev.blockSize, flushed, i, from, o, pos - 1);
      }
    }

    /** lfs_bd_prog of data that fits the current block. */
    method Put(data: seq<Byte>)
      requires Valid() && writing && off + |data| <= dev.blockSize && pos + |data| <= fileMax
      modifies this`pos, this`off, dev
      ensures Valid() && pos == old(pos) + |data| && off == old(off) + |data| && (data != [] ==> Ready())
      ensures Before() == old(Before()) + data && Last() == old(Last())
      ensures OnlyChanged(old(dev.mem), dev.mem, block) && Kept(old(dev.mem), dev.mem, flushed)
    {
      hide List, Bytes, Start, Header, InBlock, Fits, Version, VersionBytes, FirstBytes, Before, HoldsSize, Kept,
        Placed, GuessCorrects;
      BeforeIs();
      AtFits(dev.mem, dev.blockSize, branch, block, off, pos);
      ghost var mem := dev.mem;
      dev.Prog(block, off, data);
      VersionFrame(mem, dev.mem, dev.blockSize, flushed, head, size, block);
      PutBranch(mem, dev.mem, dev.blockSize, branch, block, off, pos, data);
      pos, off := pos + |data|, off + |data|;
      BeforeIs();
    }

    /** A new block, unless the one that is written goes on. */
    method MakeRoom(ghost front: seq<nat>, ghost stock: seq<nat>) returns (ok: bool)
      requires Ready() && !reading && pos < fileMax && (writing || (pos <= size && (append ==> size <= pos)))
      requires dev.blockSize >= 104 && fileMax <= FILE_MAX && Used(front, stock) && (!writing ==> Front(pos) == front)
      modifies this`block, this`off, this`writing, this`supply, this`branch, dev
      ensures Valid() && !reading && (writing || pos <= size) && Before() == old(Before()) && Last() == old(Last())
      ensures ok ==> writing && off < dev.blockSize && Spent(front, stock, branch, supply)
      ensures !ok ==> Ready() && writing == old(writing) && supply == [] && Used(front, stock)
                      && BlockOf(dev.blockSize, pos) == |front| + |stock| < BlocksFor(dev.blockSize, pos + 1)
      ensures OnlyOf(old(dev.mem), dev.mem, old(Mine())) && (forall b <- Mine() :: b in old(Mine()))
      ensures Kept(old(dev.mem), dev.mem, flushed)
    {
      hide List, Bytes, Start, Header, InBlock, Fits, Version, VersionBytes, FirstBytes, Before, HoldsSize, Last, At,
        Spare, Branching, Valid, OnlyOf, Kept, Placed, GuessCorrects, Spent, Front, BlockOf, BlocksFor;
      InBounds();
      FrontNow(front, stock);
      ok := true;
      KeptAll(dev.mem, flushed, Mine());
      if !writing || off == dev.blockSize {
        ghost var mem, mine, sup, was := dev.mem, Mine(), supply, Front(pos);
        ok := Grow();
        OnlyOfMore(mem, mem, dev.mem, sup, mine);
        if ok {
          UsedOne(front, stock, was, sup);
        } else {
          UsedUp(front, stock, pos + 1);
        }
      }
    }

    /** The loop of lfs_file_write. */
    method WriteBytes(data: seq<Byte>) returns (ok: bool, done: nat)
      requires Ready() && !reading && pos + |data| <= fileMax && (writing || (pos <= size && (append ==> size <= pos)))
      modifies this`pos, this`block, this`off, this`writing, this`supply, this`branch, dev
      ensures Ready() && !reading && done <= |data| && pos == old(pos) + done
              && (writing || (pos <= size && (append ==> size <= pos)))
      ensures Before() == old(Before()) + data[..done] && Last() == old(Last())
      ensures ok <==> done == |data|
      ensures done > 0 || old(writing) ==> writing
      ensures !ok ==> supply == []
      ensures dev.blockSize >= 104 && pos <= fileMax <= FILE_MAX && Used(old(Front(pos)), old(supply))
      ensures !ok ==> pos < fileMax && BlockOf(dev.blockSize, pos) == |old(Front(pos))| + |old(supply)|
      ensures data != [] ==>
                (ok <==> BlocksFor(dev.blockSize, pos - done + |data|) <= |old(Front(pos))| + |old(supply)|)
      ensures OnlyOf(old(dev.mem), dev.mem, old(Mine())) && (forall b <- Mine() :: b in old(Mine()))
      ensures Kept(old(dev.mem), dev.mem, flushed)
    {
      hide List, Bytes, Start, Header, InBlock, Fits, Version, VersionBytes, FirstBytes, Before, HoldsSize, Last, At,
        Spare, Branching, Valid, OnlyOf, Kept, Placed, GuessCorrects, Spent, Used, Front, BlockOf, BlocksFor;
      ghost var mine, before, mem := Mine(), Before(), dev.mem;
      KeptAll(mem, flushed, mine);
      ghost var front, stock := Front(pos), supply;
      InRange();
      NoneUsed();
      ok, done := true, 0;
      while done < |data|
        invariant done <= |data| && Ready() && !reading && pos == old(pos) + done
                  && (writing || (pos <= size && (append ==> size <= pos)))
        invariant Before() == before + data[..done] && Last() == old(Last())
        invariant done > 0 || old(writing) ==> writing
        invariant OnlyOf(mem, dev.mem, mine) && (forall b <- Mine() :: b in mine)
        invariant Kept(mem, dev.mem, flushed)
        invariant Used(front, stock) && (!writing ==> Front(pos) == front)
        decreases |data| - done
      {
        ghost var mem1, mine1 := dev.mem, Mine();
        ok := MakeRoom(front, stock);
        OnlyOfMore(mem, mem1, dev.mem, mine1, mine);
        KeptMore(mem, mem1, dev.mem, flushed);
        if !ok {
          BlocksAscend(dev.blockSize, pos + 1, old(pos) + |data|);
          return;
        }
        InBounds();
        var diff := Min(|data| - done, dev.blockSize - off);
        var part := data[done..done + diff];
        ghost var mem2 := dev.mem;
        Put(part);
        OnlyOfOne(mem, mem2, dev.mem, block, mine);
        KeptMore(mem, mem2, dev.mem, flushed);
        assert data[..done] + part == data[..done + diff];
        done := done + diff;
        StillUsed(front, stock);
      }
      assert data[..done] == data;
      if writing {
        UsedFits(front, stock);
      }
    }

    /** The supply is enough for what is still to be copied behind the cursor. */
    ghost predicate Enough()
      requires Valid()
      reads this, dev
    {
      writing ==> BlocksFor(dev.blockSize, Max(pos, size)) <= |branch| + |supply|
    }

    /** lfs_file_flush: what is behind the cursor is copied, then the branch becomes the version. */
    method Flush() returns (ok: bool)
      requires Ready()
      modifies this`pos, this`block, this`off, this`reading, this`writing, this`supply, this`branch, this`flushed,
                 this`head, this`size, dev
      ensures Ready() && !reading && Contents() == old(Contents())
      ensures ok ==> !writing && pos == old(pos) && Last() == Contents()
      ensures ok <==> old(Enough())
      ensures dev.blockSize >= 104 && size <= FILE_MAX
      ensures ok ==>
                if old(writing)
                  then Spent(old(branch), old(supply), flushed, supply) && |flushed| == BlocksFor(dev.blockSize, size)
                else supply == old(supply) && flushed == old(flushed)
      ensures !ok ==> Spent(old(branch), old(supply), branch, supply)
      ensures !ok ==> supply == [] && pos >= old(pos) && flushed == old(flushed) && head == old(head)
                      && size == old(size)
      ensures OnlyOf(old(dev.mem), dev.mem, old(Mine())) && (forall b <- Mine() :: b in old(Mine()))
      ensures Kept(old(dev.mem), dev.mem, old(flushed))
    {
      hide List, Bytes, Start, Header, InBlock, Fits, Version, VersionBytes, FirstBytes, HoldsSize, At, Spare, OnlyOf,
        Kept, Placed, GuessCorrects, Spent, BlockOf, BlocksFor;
      KeptAll(dev.mem, flushed, Mine());
      reading := false;
      if !writing {
        return true;
      }
      var back := pos;
      ok := CopyRest();
      if ok {
        Adopt();
        pos := back;
      }
    }

    /** The copying loop: the rest of the last version, a byte at a time. */
    method CopyRest() returns (ok: bool)
      requires Ready() && writing
      modifies this`pos, this`block, this`off, this`writing, this`supply, this`branch, dev
      ensures Ready() && writing && Contents() == old(Contents()) && pos >= old(pos) && Last() == old(Last())
      ensures ok ==> pos >= size
      ensures !ok ==> supply == []
      ensures dev.blockSize >= 104 && pos <= fileMax <= FILE_MAX && Used(old(branch), old(supply))
      ensures ok <==> BlocksFor(dev.blockSize, Max(old(pos), size)) <= |old(branch)| + |old(supply)|
      ensures OnlyOf(old(dev.mem), dev.mem, old(Mine())) && (forall b <- Mine() :: b in old(Mine()))
      ensures Kept(old(dev.mem), dev.mem, flushed)
    {
      hide List, Bytes, Start, Header, InBlock, Fits, Version, VersionBytes, FirstBytes, HoldsSize, At, Spare, OnlyOf,
        Kept, Valid, Before, Last, Branching, Contents, Placed, GuessCorrects, Spent, Used, Front,
        BlockOf, BlocksFor;
      ghost var mem, mine, last, all := dev.mem, Mine(), Last(), Contents();
      KeptAll(mem, flushed, mine);
      ghost var front, stock := branch, supply;
      InRange();
      NoneUsed();
      FrontIsBranch();
      // the cursor of the copy of the file that is read
      var going, from, o := false, 0, 0;
      ghost var i := 0;
      while pos < size
        invariant Ready() && writing && old(pos) <= pos <= fileMax && Last() == last && Contents() == all
        invariant pos <= Max(old(pos), size)
        invariant going ==> At(dev.blockSize, flushed, i, from, o, pos)
        invariant OnlyOf(mem, dev.mem, mine) && (forall b <- Mine() :: b in mine)
        invariant Kept(mem, dev.mem, flushed)
        invariant Used(front, stock)
        decreases size - pos
      {
        var data;
        data, from, o, i := ReadLast(1, going, from, o, i);
        going := true;
        ghost var before, mem1, mine1, p := Before(), dev.mem, Mine(), pos;
        CopyStep(data);
        ContentsIs();
        FrontIsBranch();
        UsedIs(front, stock);
        ghost var was, left := branch, supply;
        var done;
        ok, done := WriteBytes(data);
        OnlyOfMore(mem, mem1, dev.mem, mine1, mine);
        KeptMore(mem, mem1, dev.mem, flushed);
        assert data[..1] == data;
        UsedThen(front, stock, was, left);
        if !ok {
          BlocksAscend(dev.blockSize, p + 1, Max(old(pos), size));
          assert data[..done] == [] && before + [] == before;
          SameContents(before, last, all);
          return;
        }
        CopiedContents(before, data, last, p, all);
      }
      ok := true;
      UsedFits(front, stock);
    }

    /** A read of the last version. */
    method ReadLast(n: nat, going: bool, from0: nat, o0: nat, ghost i0: nat)
      returns (data: seq<Byte>, from: nat, o: nat, ghost i: nat)
      requires Valid() && pos + n <= size && (going ==> At(dev.blockSize, flushed, i0, from0, o0, pos))
      ensures pos + n <= |Last()| && data == Last()[pos..pos + n]
      ensures n > 0 || going ==> At(dev.blockSize, flushed, i, from, o, pos + n)
    {
      hide List, Bytes, Start, Header, InBlock, HoldsSize, At, Spare, Branching, Placed, GuessCorrects;
      data, from, o, i := [], from0, o0, i0;
      if n > 0 {
        data, from, o, i := ReadBytes(dev, head, size, pos, n, going, from0, o0, flushed, i0, fileMax);
      }
    }

    lemma CopyStep(data: seq<Byte>)
      requires Valid() && pos < size && pos + 1 <= |Last()| && data == Last()[pos..pos + 1]
      ensures |data| == 1 && pos + |data| <= fileMax && !(reading && writing)
    {
    }

    lemma ContentsIs()
      requires Valid() && writing && pos <= size
      ensures |Last()| == size && Contents() == Before() + Last()[pos..]
    {
    }

    lemma SameContents(before: seq<Byte>, last: seq<Byte>, all: seq<Byte>)
      requires Valid() && writing && Before() == before && Last() == last && pos <= size
      requires |last| == size && all == before + last[pos..]
      ensures Contents() == all
    {
      hide Valid, Before, Last, Contents;
      ContentsIs();
    }

    lemma CopiedContents(before: seq<Byte>, data: seq<Byte>, last: seq<Byte>, p: nat, all: seq<Byte>)
      requires Valid() && writing && Before() == before + data && Last() == last && pos == p + 1 <= size == |last|
      requires data == last[p..p + 1] && all == before + last[p..]
      ensures Contents() == all
    {
      hide Valid, Before, Last, Contents;
      ContentsIs();
      assert last[p..] == data + last[p + 1..];
      assert before + (data + last[p + 1..]) == before + data + last[p + 1..];
    }

    /** The branch becomes the version that is flushed. */
    method Adopt()
      requires Ready() && writing && pos >= size
      modifies this`flushed, this`branch, this`head, this`size, this`writing
      ensures Valid() && !writing && Last() == Contents() == old(Contents()) && size == pos && flushed == old(branch)
    {
      hide List, Bytes, Start, Header, InBlock, HoldsSize, Fits, Placed, GuessCorrects;
      ghost var all := Contents();
      BeforeIs();
      StartedHolds(dev.mem, dev.blockSize, branch, block, off, pos);
      assert all == Before() + [];
      head, size := block, pos;
      flushed, branch := branch, [];
      writing := false;
    }

    /** lfs_file_write */
    method Write(data: seq<Byte>) returns (r: Result)
      requires Ready()
      modifies this`pos, this`block, this`off, this`reading, this`writing, this`supply, this`branch, dev
      ensures Ready()
      ensures OnlyOf(old(dev.mem), dev.mem, old(Mine())) && (forall b <- Mine() :: b in old(Mine()))
      ensures Kept(old(dev.mem), dev.mem, flushed)
      ensures var p := if append && old(pos) < size then size else old(pos);
              && (r == TooBig <==> p + |data| > fileMax)
              && (r == TooBig ==> Contents() == old(Contents()) && pos == p)
              && (r == Done ==> Contents() == Written(old(Contents()), p, data) && pos == p + |data|)
              && (r == NoSpace ==> supply == [] && pos < p + |data|
                                   && Contents() ==
                                        if pos < p then Padded(old(Contents()), pos)
                                          else Written(old(Contents()), p, data[..pos - p]))
      ensures var p := if append && old(pos) < size then size else old(pos);
              var from := if old(writing) then p else Min(p, size);
              && dev.blockSize >= 104 && pos <= fileMax <= FILE_MAX
              && (r == TooBig ==> supply == old(supply) && branch == old(branch) && writing == old(writing))
              && (r != TooBig ==>
                    && Used(old(Front(from)), old(supply))
                    && (r == Done <==>
                          || p + |data| == from
                          || BlocksFor(dev.blockSize, p + |data|) <= |old(Front(from))| + |old(supply)|)
                    && (r == NoSpace ==> BlockOf(dev.blockSize, pos) == |old(Front(from))| + |old(supply)|))
    {
      hide List, Bytes, Start, Header, InBlock, Fits, Version, VersionBytes, FirstBytes, HoldsSize, At, Spare, OnlyOf,
        Kept, Before, Last, Contents, Padded, Written, Branching, Valid, Placed, GuessCorrects, Spent, Used, Front,
        BlockOf, BlocksFor;
      KeptAll(dev.mem, flushed, Mine());
      StopReading();
      AppendsBehind();
      InRange();
      if append && pos < size {
        ToEnd();
      }
      if pos + |data| > fileMax {
        return TooBig;
      }
      r := WriteOn(data);
    }

    /** The part of lfs_file_write behind the check of the size. */
    method WriteOn(data: seq<Byte>) returns (r: Result)
      requires Ready() && !reading && pos + |data| <= fileMax && (append ==> size <= pos)
      modifies this`pos, this`block, this`off, this`writing, this`supply, this`branch, dev
      ensures Ready() && r != TooBig
      ensures OnlyOf(old(dev.mem), dev.mem, old(Mine())) && (forall b <- Mine() :: b in old(Mine()))
      ensures Kept(old(dev.mem), dev.mem, flushed)
      ensures r == Done ==> Contents() == Written(old(Contents()), old(pos), data) && pos == old(pos) + |data|
      ensures r == NoSpace ==>
                && supply == [] && pos < old(pos) + |data|
                && Contents() == if pos < old(pos) then Padded(old(Contents()), pos)
                                 else Written(old(Contents()), old(pos), data[..pos - old(pos)])
      ensures var p := old(pos);
              var from := if old(writing) then p else Min(p, size);
              && dev.blockSize >= 104 && pos <= fileMax <= FILE_MAX && Used(old(Front(from)), old(supply))
              && (r == Done <==>
                    || p + |data| == from
                    || BlocksFor(dev.blockSize, p + |data|) <= |old(Front(from))| + |old(supply)|)
              && (r == NoSpace ==> BlockOf(dev.blockSize, pos) == |old(Front(from))| + |old(supply)|)
    {
      hide List, Bytes, Start, Header, InBlock, Fits, Version, VersionBytes, FirstBytes, HoldsSize, At, Spare, OnlyOf,
        Kept, Before, Last, Contents, Padded, Written, Branching, Valid, Placed, GuessCorrects, Spent, Used, Front,
        BlockOf, BlocksFor;
      InRange();
      KeptAll(dev.mem, flushed, Mine());
      ghost var all, mem, mine, p := Contents(), dev.mem, Mine(), pos;
      PaddedTwice(all, pos, data);
      ghost var from := if writing then pos else Min(pos, size);
      ghost var front, stock := Front(from), supply;
      if !writing && pos > size {
        var ok := FillZeros();
        if !ok {
          BlocksAscend(dev.blockSize, p, p + |data|);
          return NoSpace;
        }
      } else {
        NoneUsed();
      }
      FrontNow(front, stock);
      UsedIs(front, stock);
      ghost var was, left := Front(pos), supply;
      ghost var mem1, mine1 := dev.mem, Mine();
      var ok, done := WriteHere(data);
      UsedOn(front, stock, was, left);
      if writing {
        UsedFits(front, stock);
      }
      OnlyOfMore(mem, mem1, dev.mem, mine1, mine);
      KeptMore(mem, mem1, dev.mem, flushed);
      assert data[..|data|] == data;
      return if ok then Done else NoSpace;
    }

    /** The gap between the end of the file and the cursor. */
    method FillZeros() returns (ok: bool)
      requires Ready() && !reading && !writing && pos > size
      modifies this`pos, this`block, this`off, this`writing, this`supply, this`branch, dev
      ensures Ready() && !reading && pos <= old(pos) && (writing || pos <= size)
      ensures Contents() == Padded(old(Contents()), pos)
      ensures if ok then pos == old(pos) && writing else pos < old(pos) && supply == []
      ensures dev.blockSize >= 104 && fileMax <= FILE_MAX && Used(old(Front(size)), old(supply))
      ensures !ok ==> BlockOf(dev.blockSize, pos) == |old(Front(size))| + |old(supply)|
      ensures ok <==> BlocksFor(dev.blockSize, old(pos)) <= |old(Front(size))| + |old(supply)|
      ensures OnlyOf(old(dev.mem), dev.mem, old(Mine())) && (forall b <- Mine() :: b in old(Mine()))
      ensures Kept(old(dev.mem), dev.mem, flushed)
    {
      hide List, Bytes, Start, Header, InBlock, Fits, Version, VersionBytes, FirstBytes, HoldsSize, At, Spare, OnlyOf,
        Kept, Valid, Before, Last, Branching, Contents, Padded, Placed, GuessCorrects, Spent, Used, Front,
        BlockOf, BlocksFor;
      ghost var mem, mine, all := dev.mem, Mine(), Contents();
      KeptAll(mem, flushed, mine);
      var target := pos;
      FillStart(all);
      InRange();
      ghost var front, stock := Front(size), supply;
      ToEnd();
      NoneUsed();
      while pos < target
        invariant Ready() && !reading && size <= pos <= target <= fileMax && (pos > size <==> writing)
        invariant Contents() == Padded(all, pos)
        invariant OnlyOf(mem, dev.mem, mine) && (forall b <- Mine() :: b in mine)
        invariant Kept(mem, dev.mem, flushed)
        invariant Used(front, stock) && (!writing ==> Front(pos) == front)
        decreases target - pos
      {
        ghost var mem1, mine1, p := dev.mem, Mine(), pos;
        FrontNow(front, stock);
        UsedIs(front, stock);
        ghost var was, left := Front(pos), supply;
        var done;
        ok, done := WriteHere([0]);
        UsedOn(front, stock, was, left);
        OnlyOfMore(mem, mem1, dev.mem, mine1, mine);
        KeptMore(mem, mem1, dev.mem, flushed);
        OneZero(all, p);
        if !ok {
          BlocksAscend(dev.blockSize, p + 1, target);
          return;
        }
      }
      ok := true;
      UsedFits(front, stock);
    }

    /** Data at the cursor, which is not behind the end. */
    method WriteHere(data: seq<Byte>) returns (ok: bool, done: nat)
      requires Ready() && !reading && pos + |data| <= fileMax && (writing || (pos <= size && (append ==> size <= pos)))
      modifies this`pos, this`block, this`off, this`writing, this`supply, this`branch, dev
      ensures Ready() && !reading && done <= |data| && pos == old(pos) + done
              && (writing || (pos <= size && (append ==> size <= pos)))
      ensures Contents() == Written(old(Contents()), old(pos), data[..done])
      ensures ok <==> done == |data|
      ensures done > 0 || old(writing) ==> writing
      ensures !ok ==> supply == []
      ensures dev.blockSize >= 104 && pos <= fileMax <= FILE_MAX && Used(old(Front(pos)), old(supply))
      ensures !ok ==> pos < fileMax && BlockOf(dev.blockSize, pos) == |old(Front(pos))| + |old(supply)|
      ensures data != [] ==>
                (ok <==> BlocksFor(dev.blockSize, pos - done + |data|) <= |old(Front(pos))| + |old(supply)|)
      ensures OnlyOf(old(dev.mem), dev.mem, old(Mine())) && (forall b <- Mine() :: b in old(Mine()))
      ensures Kept(old(dev.mem), dev.mem, flushed)
    {
      hide List, Bytes, Start, Header, InBlock, Fits, Version, VersionBytes, FirstBytes, HoldsSize, At, Spare, OnlyOf,
        Kept, Valid, Before, Last, Branching, Contents, Written, Placed, GuessCorrects, Used, Front, BlocksFor;
      ContentsParts();
      ghost var before, last, p := Before(), Last(), pos;
      ok, done := WriteBytes(data);
      ContentsParts();
      PartsWritten(before, last, p, data[..done]);
    }

    lemma ContentsParts()
      requires Valid() && (writing || pos <= size)
      ensures |Before()| == pos && Contents() == Before() + RestOf(Last(), pos)
    {
      hide VersionBytes, FirstBytes, Branching;
      if !writing {
        assert Last()[..pos] + Last()[pos..] == Last();
      }
    }

    lemma FillStart(all: seq<Byte>)
      requires Ready() && !writing && pos > size && all == Contents()
      ensures |all| == size && Padded(all, size) == all && pos <= fileMax
    {
    }

    lemma AppendsBehind()
      requires Valid()
      ensures writing && append ==> size <= pos
    {
    }

    method StopReading()
      requires Ready()
      modifies this`reading
      ensures Ready() && !reading && Contents() == old(Contents())
      ensures forall p: nat :: writing || p <= size ==> Front(p) == old(Front(p))
    {
      hide List, VersionBytes, FirstBytes, Placed, GuessCorrects;
      reading := false;
    }

    method ToEnd()
      requires Ready() && !reading && !writing
      modifies this`pos
      ensures Ready() && pos == size && Contents() == old(Contents()) && Front(size) == old(Front(size))
    {
      hide List, VersionBytes, FirstBytes, Placed, GuessCorrects;
      pos := size;
    }

    /** lfs_file_read */
    method Read(n: nat) returns (ok: bool, data: seq<Byte>)
      requires Ready()
      modifies this`pos, this`block, this`off, this`reading, this`writing, this`supply, this`branch, this`flushed,
                 this`head, this`size, this`at, dev
      ensures Ready() && Contents() == old(Contents())
      ensures ok ==> data == Slice(Contents(), old(pos), n) && pos == old(pos) + |data| && !writing
      ensures ok <==> old(Enough())
      ensures ok ==>
                if old(writing) then dev.blockSize >= 104 && size <= FILE_MAX
                                     && Spent(old(branch), old(supply), flushed, supply)
                                     && |flushed| == BlocksFor(dev.blockSize, size)
                else supply == old(supply) && flushed == old(flushed)
      ensures !ok ==> supply == [] && Spent(old(branch), old(supply), branch, supply)
      ensures OnlyOf(old(dev.mem), dev.mem, old(Mine())) && (forall b <- Mine() :: b in old(Mine()))
      ensures Kept(old(dev.mem), dev.mem, old(flushed))
    {
      hide List, Bytes, Start, Header, InBlock, Fits, Version, VersionBytes, FirstBytes, HoldsSize, At, Spare, OnlyOf,
        Kept, Before, Branching, Placed, GuessCorrects, Spent, BlockOf, BlocksFor;
      KeptAll(dev.mem, flushed, Mine());
      if writing {
        ok := Flush();
        if !ok {
          return false, [];
        }
      }
      if pos >= size {
        return true, [];
      }
      var m := Min(n, size - pos);
      var from, o;
      ghost var i;
      data, from, o, i := ReadLast(m, reading, block, off, at);
      if m > 0 {
        block, off, at, reading := from, o, i, true;
      }
      pos := pos + m;
      return true, data;
    }

    /** lfs_file_seek; a position below zero is a large unsigned number in the source. */
    method Seek(offset: int, whence: Whence) returns (ok: bool, found: bool)
      requires Ready() && -0x8000_0000 <= offset < 0x8000_0000
      modifies this`pos, this`block, this`off, this`reading, this`writing, this`supply, this`branch, this`flushed,
                 this`head, this`size, dev
      ensures Ready() && Contents() == old(Contents())
      ensures OnlyOf(old(dev.mem), dev.mem, old(Mine())) && (forall b <- Mine() :: b in old(Mine()))
      ensures Kept(old(dev.mem), dev.mem, old(flushed))
      ensures ok <==> old(Enough())
      ensures ok ==>
                if old(writing) then dev.blockSize >= 104 && size <= FILE_MAX
                                     && Spent(old(branch), old(supply), flushed, supply)
                                     && |flushed| == BlocksFor(dev.blockSize, size)
                else supply == old(supply) && flushed == old(flushed)
      ensures !ok ==> supply == [] && Spent(old(branch), old(supply), branch, supply)
      ensures ok ==> !writing && !reading
      ensures ok ==> var from :=
                       if whence == FromStart then 0 else if whence == FromHere then old(pos) else |Contents()|;
                     var npos: int := offset + from;
                     && (found <==> 0 <= npos <= fileMax)
                     && pos as int == if found then npos else old(pos)
    {
      hide List, Bytes, Start, Header, InBlock, Fits, Version, VersionBytes, FirstBytes, HoldsSize, At, Spare, OnlyOf,
        Kept, Before, Branching, Placed, GuessCorrects, Spent, BlockOf, BlocksFor;
      found := false;
      ok := Flush();
      if !ok {
        return;
      }
      var npos: int := offset + (match whence case FromStart => 0 case FromHere => pos case FromEnd => size);
      if npos < 0 || npos > fileMax {
        return;
      }
      pos, found := npos, true;
    }

    lemma InRange()
      requires Valid()
      ensures dev.blockSize >= 104 && pos <= fileMax <= FILE_MAX && size <= fileMax
    {
    }

    lemma InBounds()
      requires Valid()
      ensures writing ==> off <= dev.blockSize
    {
    }

    /** The blocks this file may change. */
    ghost function Mine(): seq<nat>
      reads this
    {
      supply + (if writing then [block] else [])
    }

    lemma BeforeIs()
      requires Valid() && writing
      ensures Fits(dev.mem, dev.blockSize, branch) && pos <= |Bytes(dev.mem, dev.blockSize, branch)|
      ensures Before() == Bytes(dev.mem, dev.blockSize, branch)[..pos]
    {
      hide List, At, Bytes, Placed, GuessCorrects;
      BranchLength();
      ListFits(dev.mem, dev.blockSize, branch);
      BytesLength(dev.mem, dev.blockSize, branch);
    }
  }

  lemma AtFits(mem: seq<seq<Byte>>, blockSize: nat, blocks: seq<nat>, block: nat, off: nat, pos: nat)
    requires List(mem, blockSize, blocks) && blocks != [] && At(blockSize, blocks, |blocks| - 1, block, off, pos)
    ensures block < |mem| && |mem[block]| == blockSize && off <= blockSize
  {
  }

  /** Behind the pointers of its last block a list can change. */
  lemma ListGoesOn(mem: seq<seq<Byte>>, mem': seq<seq<Byte>>, blockSize: nat, blocks: seq<nat>, off: nat)
    requires List(mem, blockSize, blocks) && blocks != [] && Blocks(mem', blockSize)
    requires var n := |blocks| - 1;
             OnlyChanged(mem, mem', blocks[n]) && Header(n) <= off <= blockSize
             && mem'[blocks[n]][..off] == mem[blocks[n]][..off]
    ensures List(mem', blockSize, blocks)
  {
    hide PointersOk, Header;
    var n := |blocks| - 1;
    var front := blocks[..n];
    ListPrefix(mem, blockSize, blocks, n);
    ListFrame(mem, mem', blockSize, front, blocks[n]);
    if n > 0 {
      assert Linked(mem, blockSize, blocks, n);
      FrontPointers(mem[blocks[n]], blocks, n);
      SameHeader(mem[blocks[n]], mem'[blocks[n]], front, n, off);
    }
    ListAppend(mem', blockSize, front, blocks[n]);
    assert front + [blocks[n]] == blocks;
  }

  lemma PutBranch(mem: seq<seq<Byte>>, mem': seq<seq<Byte>>, blockSize: nat, blocks: seq<nat>, block: nat, off: nat,
                  pos: nat, data: seq<Byte>)
    requires List(mem, blockSize, blocks) && blocks != [] && At(blockSize, blocks, |blocks| - 1, block, off, pos)
    requires off + |data| <= blockSize && Blocks(mem', blockSize) && OnlyChanged(mem, mem', block)
    requires block < |mem| && |mem[block]| == blockSize
             && mem'[block] == mem[block][..off] + data + mem[block][off + |data|..]
    ensures List(mem', blockSize, blocks) && At(blockSize, blocks, |blocks| - 1, block, off + |data|, pos + |data|)
    ensures Fits(mem, blockSize, blocks) && pos <= |Bytes(mem, blockSize, blocks)|
    ensures Fits(mem', blockSize, blocks) && pos + |data| <= |Bytes(mem', blockSize, blocks)|
    ensures Bytes(mem', blockSize, blocks)[..pos + |data|] == Bytes(mem, blockSize, blocks)[..pos] + data
  {
    hide List, Bytes, Start, Header, Fits, HoldsSize, Placed, GuessCorrects;
    ListFits(mem, blockSize, blocks);
    FrontApart(mem, blockSize, blocks);
    assert mem'[block][..off] == mem[block][..off];
    ListGoesOn(mem, mem', blockSize, blocks, off);
    ListFits(mem', blockSize, blocks);
    BytesLength(mem, blockSize, blocks);
    BytesLength(mem', blockSize, blocks);
    BytesLast(mem, blockSize, blocks);
    BytesAppended(mem, mem', blockSize, blocks, off, data);
  }

  lemma FrontApart(mem: seq<seq<Byte>>, blockSize: nat, blocks: seq<nat>)
    requires List(mem, blockSize, blocks) && blocks != []
    ensures blocks[|blocks| - 1] !in blocks[..|blocks| - 1]
  {
  }

  /** A full branch holds all of its blocks. */
  lemma FullBranch(mem: seq<seq<Byte>>, blockSize: nat, blocks: seq<nat>, block: nat, off: nat, pos: nat)
    requires List(mem, blockSize, blocks) && blocks != [] && off == blockSize
             && At(blockSize, blocks, |blocks| - 1, block, off, pos)
    requires Header(|blocks| - 1) < blockSize && pos <= FILE_MAX
    ensures pos > 0 && HoldsSize(blockSize, blocks, pos) && block == blocks[|blocks| - 1]
    ensures Fits(mem, blockSize, blocks) && pos <= |Bytes(mem, blockSize, blocks)|
  {
    hide List, Placed, GuessCorrects;
    ListFits(mem, blockSize, blocks);
    BytesLast(mem, blockSize, blocks);
    BytesLength(mem, blockSize, blocks);
  }

  lemma StartedHolds(mem: seq<seq<Byte>>, blockSize: nat, blocks: seq<nat>, block: nat, off: nat, pos: nat)
    requires blockSize >= 8 && List(mem, blockSize, blocks) && blocks != []
             && At(blockSize, blocks, |blocks| - 1, block, off, pos)
    requires Header(|blocks| - 1) < off && pos <= FILE_MAX
    ensures pos > 0 && HoldsSize(blockSize, blocks, pos) && block == blocks[|blocks| - 1]
  {
    hide List, Placed, GuessCorrects;
    ListFits(mem, blockSize, blocks);
    BytesLast(mem, blockSize, blocks);
  }

  lemma AtLast(blockSize: nat, blocks: seq<nat>, i: nat, block: nat, off: nat, pos: nat)
    requires At(blockSize, blocks, i, block, off, pos)
    ensures |blocks[..i + 1]| == i + 1 && blocks[..i + 1][i] == block
  {
  }

  /** The front of a version up to a position is a list by itself. */
  lemma CutVersion(mem: seq<seq<Byte>>, blockSize: nat, blocks: seq<nat>, head: nat, size: nat, pos: nat, i: nat)
    requires blockSize >= 8 && Version(mem, blockSize, blocks, head, size) && 0 < pos <= size <= FILE_MAX
    requires i < |blocks| && InBlock(blockSize, i, pos - 1)
    ensures var cut := blocks[..i + 1];
            && List(mem, blockSize, cut) && HoldsSize(blockSize, cut, pos) && Fits(mem, blockSize, cut)
            && pos <= |Bytes(mem, blockSize, cut)|
            && Bytes(mem, blockSize, cut)[..pos] == VersionBytes(mem, blockSize, blocks, head, size)[..pos]
  {
    hide List, Bytes, Placed, GuessCorrects;
    ListPrefix(mem, blockSize, blocks, i + 1);
    CutHolds(blockSize, blocks, i, pos);
    ListFits(mem, blockSize, blocks);
    ListFits(mem, blockSize, blocks[..i + 1]);
    BytesFront(mem, blockSize, blocks, i + 1);
    BytesLength(mem, blockSize, blocks);
    BytesLength(mem, blockSize, blocks[..i + 1]);
  }

  /** The list after a block was added for position pos. */
  function Branched(cut: seq<nat>, pos: nat, full: bool, nblock: nat): seq<nat> {
    if pos == 0 || cut == [] then [nblock] else Extended(cut, full, nblock)
  }

  lemma NewBranch(mem: seq<seq<Byte>>, mem': seq<seq<Byte>>, blockSize: nat, cut: seq<nat>, pos: nat, nblock: nat,
                  full: bool, off: nat)
    requires blockSize >= 104 && Blocks(mem', blockSize) && OnlyChanged(mem, mem', nblock) && nblock < |mem'|
             && nblock !in cut && pos <= FILE_MAX
    requires if pos == 0 then off == 0
             else cut != [] && List(mem, blockSize, cut) && HoldsSize(blockSize, cut, pos)
                  && List(mem', blockSize, Extended(cut, full, nblock))
                  && (full <==> pos == Start(blockSize, |cut|))
                  && (if full then off == Header(|cut|)
                      else off == pos - Start(blockSize, |cut| - 1) + Header(|cut| - 1)
                           && off <= blockSize && mem'[nblock][..off] == mem[cut[|cut| - 1]][..off])
    ensures var b := Branched(cut, pos, full, nblock);
            && b != [] && List(mem', blockSize, b) && At(blockSize, b, |b| - 1, nblock, off, pos)
            && Header(|b| - 1) < blockSize && off < blockSize
            && Fits(mem', blockSize, b) && pos <= |Bytes(mem', blockSize, b)|
            && (pos > 0 ==> Fits(mem, blockSize, cut) && pos <= |Bytes(mem, blockSize, cut)|
                            && Bytes(mem', blockSize, b)[..pos] == Bytes(mem, blockSize, cut)[..pos])
  {
    hide List, Bytes, HoldsSize, Start, Header, InBlock, At, Fits, Placed, GuessCorrects;
    if pos > 0 {
      ExtendedBytes(mem, mem', blockSize, cut, pos, nblock, full, off);
    } else {
      OneBlock(mem', blockSize, nblock, off);
      ListFits(mem', blockSize, [nblock]);
    }
  }

  lemma SpareFirst(supply: seq<nat>, count: nat, flushed: seq<nat>, branch: seq<nat>, cut: seq<nat>, pos: nat)
    requires Spare(supply, count, flushed, branch) && supply != [] && (forall b <- cut :: b in flushed || b in branch)
    ensures supply[0] in supply && supply[0] < count && supply[0] !in flushed && supply[0] !in cut
    ensures forall b <- supply[1..] :: b in supply
    ensures forall full :: Spare(supply[1..], count, flushed, Branched(cut, pos, full, supply[0]))
  {
    assert forall b <- supply[1..] :: b in supply && b != supply[0];
    forall full
      ensures Spare(supply[1..], count, flushed, Branched(cut, pos, full, supply[0]))
    {
      assert forall b <- Branched(cut, pos, full, supply[0]) :: b in cut || b == supply[0];
    }
  }

  lemma VersionFrame(mem: seq<seq<Byte>>, mem': seq<seq<Byte>>, blockSize: nat, blocks: seq<nat>, head: nat, size: nat,
                     block: nat)
    requires blockSize >= 8 && Version(mem, blockSize, blocks, head, size) && Blocks(mem', blockSize)
             && OnlyChanged(mem, mem', block)
    requires block !in blocks
    ensures Version(mem', blockSize, blocks, head, size)
    ensures VersionBytes(mem', blockSize, blocks, head, size) == VersionBytes(mem, blockSize, blocks, head, size)
    ensures Kept(mem, mem', blocks)
  {
    hide List, Bytes, HoldsSize, Placed, GuessCorrects;
    if size > 0 {
      ListFrame(mem, mem', blockSize, blocks, block);
      ListFits(mem, blockSize, blocks);
      ListFits(mem', blockSize, blocks);
      BytesSame(mem, mem', blockSize, blocks);
    }
  }

  lemma OneBlock(mem: seq<seq<Byte>>, blockSize: nat, block: nat, off: nat)
    requires blockSize >= 104 && Blocks(mem, blockSize) && block < |mem| && off == 0
    ensures List(mem, blockSize, [block]) && At(blockSize, [block], 0, block, off, 0)
    ensures Header(0) == 0
  {
  }

  lemma OnlyOfMore(mem: seq<seq<Byte>>, mem1: seq<seq<Byte>>, mem2: seq<seq<Byte>>, some: seq<nat>, all: seq<nat>)
    requires OnlyOf(mem, mem1, all) && OnlyOf(mem1, mem2, some) && forall b <- some :: b in all
    ensures OnlyOf(mem, mem2, all)
  {
  }

  lemma OnlyOfOne(mem: seq<seq<Byte>>, mem1: seq<seq<Byte>>, mem2: seq<seq<Byte>>, block: nat, all: seq<nat>)
    requires OnlyOf(mem, mem1, all) && OnlyChanged(mem1, mem2, block) && block in all
    ensures OnlyOf(mem, mem2, all)
  {
  }

  lemma KeptAll(mem: seq<seq<Byte>>, blocks: seq<nat>, mine: seq<nat>)
    ensures Kept(mem, mem, blocks) && OnlyOf(mem, mem, mine)
  {
  }

  lemma KeptMore(mem: seq<seq<Byte>>, mem1: seq<seq<Byte>>, mem2: seq<seq<Byte>>, blocks: seq<nat>)
    requires Kept(mem, mem1, blocks) && Kept(mem1, mem2, blocks)
    ensures Kept(mem, mem2, blocks)
  {
  }

  /** Only blocks of the supply changed. */
  ghost predicate OnlyOf(mem: seq<seq<Byte>>, mem': seq<seq<Byte>>, supply: seq<nat>) {
    |mem'| == |mem| && forall b :: 0 <= b < |mem| && b !in supply ==> mem'[b] == mem[b]
  }
}
