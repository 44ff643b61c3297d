/**
  The block caches of lfs.c:27-215: reads through a program cache and a read cache, programs
  that gather in the program cache, and flushes that look at what the device kept.
 */
module Cache {
  import opened Util
  import opened Flash
  import opened ByteOrder

  const NULL: nat := 0xffff_ffff

  /** Bytes a cache holds for part of a block. */
  datatype Window = Empty | Window(block: nat, off: nat, data: seq<Byte>)

  /** A block as seen through a window. */
  function Overlay(bytes: seq<Byte>, block: nat, w: Window): (r: seq<Byte>)
    requires w.Window? && w.block == block ==> w.off + |w.data| <= |bytes|
    ensures |r| == |bytes|
  {
    if w.Window? && w.block == block then bytes[..w.off] + w.data + bytes[w.off + |w.data|..] else bytes
  }

  lemma {:induction false} CompareAt(a: seq<Byte>, b: seq<Byte>, i: nat)
    requires i < |a| == |b| && a[..i] == b[..i] && a[i] != b[i]
    ensures Compare(a, b) == if a[i] < b[i] then Less else Greater
  {
    if i > 0 {
      assert a[0] == a[..i][0] == b[..i][0] == b[0];
      assert a[1..][..i - 1] == a[..i][1..] == b[..i][1..] == b[1..][..i - 1];
      CompareAt(a[1..], b[1..], i - 1);
    }
  }

  // ----- what a cache miss loads -----

  function LoadSize(off: nat, hint: nat, readSize: nat, blockSize: nat, cacheSize: nat): nat
    requires readSize > 0 && off < blockSize
  {
    var end := Min(AlignUp(off + hint, readSize), blockSize);
    var start := AlignDown(off, readSize);
    if start <= end then Min(end - start, cacheSize) else 0
  }

  lemma AlignDownBelow(off: nat, d: nat)
    requires d > 0
    ensures AlignDown(off, d) <= off < AlignDown(off, d) + d && AlignDown(off, d) % d == 0
    ensures AlignDown(off, d) == off <==> off % d == 0
  {
    var q := off / d;
    assert off == q * d + off % d;
    MultipleMod(q, d);
  }

  /** The end of a load lies behind its start exactly if something is hinted at, or the offset is inside a read unit. */
  lemma LoadEdges(off: nat, hint: nat, d: nat)
    requires d > 0
    ensures AlignUp(off + hint, d) % d == 0 && AlignDown(off, d) <= AlignUp(off + hint, d)
    ensures AlignDown(off, d) < AlignUp(off + hint, d) <==> hint > 0 || off % d != 0
  {
    AlignDownBelow(off, d);
    AlignUpIsLeast(off + hint, d, off / d);
    assert off == off / d * d + off % d;
    hide AlignUp, AlignDown;
  }

  /** A load covers the offset it is for under the same condition. */
  lemma LoadCovers(off: nat, hint: nat, readSize: nat, blockSize: nat, cacheSize: nat)
    requires Divides(readSize, cacheSize) && Divides(readSize, blockSize) && cacheSize > 0 && off < blockSize
    ensures var start, size := AlignDown(off, readSize), LoadSize(off, hint, readSize, blockSize, cacheSize);
            && start <= off && start % readSize == 0 && size % readSize == 0
            && start + size <= blockSize && size <= cacheSize
            && (off < start + size <==> hint > 0 || off % readSize != 0)
  {
    hide AlignUp, AlignDown;
    var start, up := AlignDown(off, readSize), AlignUp(off + hint, readSize);
    AlignDownBelow(off, readSize);
    LoadEdges(off, hint, readSize);
    AtLeastOne(readSize, cacheSize);
    var end := Min(up, blockSize);
    DifferenceMod(end, start, readSize);
    if start < end {
      Above(start, end, readSize);
    }
  }

  lemma AtLeastOne(d: nat, n: nat)
    requires Divides(d, n) && n > 0
    ensures n >= d
  {
    if n < d {
      DivModUnique(n, d, 0, n);
    }
  }

  /** A multiple above another is at least one unit above it. */
  lemma Above(a: nat, b: nat, d: nat)
    requires d > 0 && a % d == 0 && b % d == 0 && a < b
    ensures a + d <= b
  {
    var x, y := a / d, b / d;
    assert a == x * d && b == y * d;
    if x >= y {
      MulLe(y, x, d);
    } else {
      MulLe(x + 1, y, d);
      assert (x + 1) * d == x * d + d;
    }
  }

  lemma DifferenceMod(a: nat, b: nat, d: nat)
    requires d > 0 && a % d == 0 && b % d == 0 && b <= a
    ensures (a - b) % d == 0
  {
    var x, y := a / d, b / d;
    assert a == x * d && b == y * d;
    if y <= x {
      assert a - b == (x - y) * d;
      MultipleMod(x - y, d);
    } else {
      MulLe(x + 1, y, d);
      assert false;
    }
  }

  lemma {:induction false} DividesThrough(d: nat, m: nat, n: nat)
    requires Divides(d, m) && Divides(m, n)
    ensures Divides(d, n)
  {
    var x, y := m / d, n / m;
    assert m == x * d && n == y * m;
    assert n == (y * x) * d by {
      assert y * (x * d) == (y * x) * d;
    }
    MultipleMod(y * x, d);
  }

  // ----- slices of overlays -----

  lemma OverlayInside(bytes: seq<Byte>, block: nat, w: Window, off: nat, n: nat)
    requires w.Window? && w.block == block && w.off + |w.data| <= |bytes|
    requires w.off <= off && off + n <= w.off + |w.data|
    ensures Overlay(bytes, block, w)[off..off + n] == w.data[off - w.off..off - w.off + n]
  {
  }

  lemma OverlayOutside(bytes: seq<Byte>, block: nat, w: Window, off: nat, n: nat)
    requires w.Window? && w.block == block ==>
               w.off + |w.data| <= |bytes| && (off + n <= w.off || w.off + |w.data| <= off)
    requires off + n <= |bytes|
    ensures Overlay(bytes, block, w)[off..off + n] == bytes[off..off + n]
  {
  }

  lemma Longer(s: seq<Byte>, a: nat, b: nat, c: nat)
    requires a <= b <= c <= |s|
    ensures s[a..b] + s[b..c] == s[a..c]
  {
  }

  /** lfs_cache_t */
  class Buffer {
    var block: nat
    var off: nat
    var size: nat
    const buffer: array<Byte>

    constructor (cacheSize: nat)
      ensures block == NULL && size == 0 && buffer.Length == cacheSize && fresh(buffer)
    {
      block, off, size := NULL, 0, 0;
      buffer := new Byte[cacheSize](i => 0xff);
    }

    predicate Fits(blockSize: nat, blockCount: nat, cacheSize: nat)
      reads this
    {
      && buffer.Length == cacheSize && size <= cacheSize
      && (block != NULL ==> block < blockCount && off + size <= blockSize)
    }

    function Held(): (w: Window)
      requires size <= buffer.Length
      reads this, buffer
      ensures w.Window? ==> |w.data| == size
    {
      if block == NULL then Empty else Window(block, off, buffer[..size])
    }

    predicate Covers(block: nat, off: nat)
      reads this
    {
      this.block == block && this.off <= off < this.off + size
    }

    /** lfs_cache_drop */
    method Drop()
      modifies this`block
      ensures block == NULL
    {
      block := NULL;
    }

    /** lfs_cache_zero */
    method Zero()
      modifies this`block, buffer
      ensures block == NULL && forall i :: 0 <= i < buffer.Length ==> buffer[i] == 0xff
    {
      forall i | 0 <= i < buffer.Length {
        buffer[i] := 0xff;
      }
      block := NULL;
    }
  }

  /** The device with its configuration. */
  class BlockIo {
    const readSize: nat
    const progSize: nat
    const cacheSize: nat
    const blockSize: nat
    const blockCount: nat
    // whether every program operation leaves what it was given
    ghost const sound: bool
    var mem: seq<seq<Byte>>

    /** What lfs_init asserts. */
    predicate Configured() {
      && Divides(readSize, cacheSize) && Divides(progSize, cacheSize) && Divides(cacheSize, blockSize)
      && cacheSize > 0 && 0 < blockCount < NULL
    }

    predicate Valid()
      reads this
    {
      Configured() && |mem| == blockCount && forall b :: 0 <= b < blockCount ==> |mem[b]| == blockSize
    }

    /** What the read cache holds is on the device, in whole read units. */
    predicate Truthful(r: Buffer)
      requires Valid()
      reads this, r, r.buffer
    {
      && r.Fits(blockSize, blockCount, cacheSize)
      && (r.block != NULL ==>
            && r.off % readSize == 0 && r.size % readSize == 0
            && r.buffer[..r.size] == mem[r.block][r.off..r.off + r.size])
    }

    method DeviceRead(block: nat, off: nat, buffer: array<Byte>, size: nat)
      requires Valid() && block < blockCount && off + size <= blockSize && size <= buffer.Length
      requires off % readSize == 0 && size % readSize == 0
      modifies buffer
      ensures buffer[..size] == mem[block][off..off + size]
    {
      forall i | 0 <= i < size {
        buffer[i] := mem[block][off + i];
      }
    }

    /** A worn block may keep something else. */
    method DeviceProg(block: nat, off: nat, data: seq<Byte>)
      requires Valid() && block < blockCount && off + |data| <= blockSize
      requires off % progSize == 0 && |data| % progSize == 0
      modifies this`mem
      ensures Valid()
      ensures forall b :: 0 <= b < blockCount && b != block ==> mem[b] == old(mem)[b]
      ensures mem[block][..off] == old(mem)[block][..off]
              && mem[block][off + |data|..] == old(mem)[block][off + |data|..]
      ensures sound ==> mem[block] == Overwrite(old(mem)[block], off, data)
    {
      mem := mem[block := Overwrite(mem[block], off, data)];
    }

    /** lfs_bd_read: device bytes, overlaid by the program cache if there is one. */
    method Read(p: Buffer?, r: Buffer, hint: nat, block: nat, start: nat, size: nat) returns (ok: bool, data: seq<Byte>)
      requires Valid() && Truthful(r) && hint > 0 && block < blockCount
      requires p != null ==> p != r && p.buffer != r.buffer && p.Fits(blockSize, blockCount, cacheSize)
      modifies r, r.buffer
      ensures Truthful(r)
      ensures ok <==> start + size <= blockSize
      ensures ok ==> data == Overlay(mem[block], block, if p == null then Empty else p.Held())[start..start + size]
    {
      data := [];
      if start + size > blockSize {
        return false, [];
      }
      var w := if p == null then Empty else p.Held();
      ghost var sees := Overlay(mem[block], block, w);
      hide Overlay, Configured, Truthful, Buffer.Held;
      var off: nat, left: nat := start, size;
      assert |sees| == blockSize && sees[start..start] == [];
      while left > 0
        invariant off + left == start + size <= blockSize && start <= off && |sees| == blockSize
        invariant Truthful(r)
        invariant data == sees[start..off]
        decreases left, if r.Covers(block, off) then 0 as int else 1
      {
        var part := ReadSome(w, r, hint, block, off, left);
        Longer(sees, start, off, off + |part|);
        data := data + part;
        off, left := off + |part|, left - |part|;
      }
      return true, data;
    }

    /** One turn of the loop of lfs_bd_read: bytes from a cache, or else a load. */
    method ReadSome(w: Window, r: Buffer, hint: nat, block: nat, off: nat, left: nat) returns (part: seq<Byte>)
      requires Valid() && Truthful(r) && hint > 0 && block < blockCount && left > 0 && off + left <= blockSize
      requires w.Window? && w.block == block ==> w.off + |w.data| <= blockSize
      modifies r, r.buffer
      ensures Truthful(r) && |part| <= left
      ensures part == Overlay(mem[block], block, w)[off..off + |part|]
      ensures part == [] ==> !old(r.Covers(block, off)) && r.Covers(block, off)
    {
      hide Overlay, Divides, Truthful;
      var diff := left;
      if w.Window? && block == w.block && off < w.off + |w.data| {
        if off >= w.off {
          diff := Min(diff, |w.data| - (off - w.off));
          OverlayInside(mem[block], block, w, off, diff);
          return w.data[off - w.off..off - w.off + diff];
        }
        // the program cache takes priority
        diff := Min(diff, w.off - off);
      }
      if r.Covers(block, off) {
        diff := Min(diff, r.size - (off - r.off));
        Served(r, off, diff);
        OverlayOutside(mem[block], block, w, off, diff);
        return r.buffer[off - r.off..off - r.off + diff];
      }
      Load(r, hint, block, off);
      return [];
    }

    lemma Served(r: Buffer, off: nat, n: nat)
      requires Valid() && Truthful(r) && r.block != NULL && r.off <= off && off + n <= r.off + r.size
      ensures r.block < blockCount && off + n <= blockSize && r.size <= r.buffer.Length
      ensures r.buffer[off - r.off..off - r.off + n] == mem[r.block][off..off + n]
    {
      var at := off - r.off;
      Within(r.buffer[..], 0, r.size, at, n);
      Within(mem[r.block], r.off, r.size, at, n);
      assert r.buffer[..][0..r.size] == r.buffer[..r.size];
    }

    /** The part of lfs_bd_read that fills the read cache. */
    method Load(r: Buffer, hint: nat, block: nat, off: nat)
      requires Valid() && Truthful(r) && hint > 0 && block < blockCount && off < blockSize
      modifies r, r.buffer
      ensures Truthful(r) && r.block == block && r.off <= off < r.off + r.size
    {
      DividesThrough(readSize, cacheSize, blockSize);
      LoadCovers(off, hint, readSize, blockSize, cacheSize);
      hide Divides, LoadSize, AlignDown;
      r.block := block;
      r.off := AlignDown(off, readSize);
      r.size := LoadSize(off, hint, readSize, blockSize, cacheSize);
      DeviceRead(r.block, r.off, r.buffer, r.size);
    }

    /** lfs_bd_cmp without a program cache. */
    method Cmp(r: Buffer, hint: nat, block: nat, off: nat, data: seq<Byte>) returns (order: Order)
      requires Valid() && Truthful(r) && hint >= |data| && block < blockCount && off + |data| <= blockSize
      modifies r, r.buffer
      ensures Truthful(r)
      ensures order == Compare(mem[block][off..off + |data|], data)
    {
      hide Truthful, Compare, Divides;
      ghost var kept := mem[block][off..off + |data|];
      var i := 0;
      while i < |data|
        invariant i <= |data| && Truthful(r) && kept[..i] == data[..i]
      {
        var ok, dat := Read(null, r, hint - i, block, off + i, 1);
        assert dat[0] == kept[i];
        if dat[0] != data[i] {
          CompareAt(kept, data, i);
          return if dat[0] < data[i] then Less else Greater;
        }
        i := i + 1;
      }
      assert kept[..i] == kept && data[..i] == data;
      CompareEqual(kept, data);
      return Equal;
    }

    function Padded(size: nat): nat
      requires Configured()
    {
      AlignUp(size, progSize)
    }

    /** Padding to program units stays inside the cache and inside the block. */
    lemma PaddedFits(off: nat, size: nat)
      requires Configured() && off % progSize == 0 && size <= cacheSize && off + size <= blockSize
      ensures size <= Padded(size) <= cacheSize && off + Padded(size) <= blockSize
      ensures Padded(size) % progSize == 0
              && (size == cacheSize ==> Padded(size) == size && (off + size) % progSize == 0)
    {
      DividesThrough(progSize, cacheSize, blockSize);
      AlignUpIsLeast(size, progSize, cacheSize / progSize);
      DifferenceMod(blockSize, off, progSize);
      AlignUpIsLeast(size, progSize, (blockSize - off) / progSize);
      assert cacheSize == cacheSize / progSize * progSize;
      assert blockSize - off == (blockSize - off) / progSize * progSize;
      SumMod(off, cacheSize, progSize);
      hide AlignUp;
    }

    /** lfs_bd_flush */
    method Flush(p: Buffer, r: Buffer, validate: bool) returns (ok: bool)
      requires Valid() && p != r && p.buffer != r.buffer
      requires p.Fits(blockSize, blockCount, cacheSize) && r.Fits(blockSize, blockCount, cacheSize)
      requires p.block != NULL ==> p.off % progSize == 0
      modifies this`mem, p`block, p.buffer, r, r.buffer
      ensures Valid() && r.Fits(blockSize, blockCount, cacheSize)
      ensures p.off == old(p.off) && p.size == old(p.size)
      ensures old(p.block) == NULL ==> ok && mem == old(mem) && p.block == NULL
      ensures old(p.block) != NULL ==>
                var b, o, n := old(p.block), old(p.off), Padded(old(p.size));
                && n <= cacheSize && o + n <= blockSize
                && (forall c :: 0 <= c < blockCount && c != b ==> mem[c] == old(mem)[c])
                && mem[b][..o] == old(mem)[b][..o] && mem[b][o + n..] == old(mem)[b][o + n..]
                && (ok && (sound || validate) ==> mem[b] == Overwrite(old(mem)[b], o, old(p.buffer[..])[..n]))
                && (ok && (sound || validate) ==> SameBut(mem[b], old(View(p, b)), o + old(p.size), o + n))
      ensures ok ==> p.block == NULL
      ensures !ok ==> validate && !sound && p.block == old(p.block) && p.buffer[..] == old(p.buffer[..])
      ensures if validate && old(p.block) != NULL then Truthful(r) else unchanged(r) && unchanged(r.buffer)
    {
      if p.block == NULL {
        return true;
      }
      PaddedFits(p.off, p.size);
      hide Divides, AlignUp, Overwrite, Compare, Padded, SameBut, Overlay, Truthful;
      var diff := Padded(p.size);
      var data := p.buffer[..diff];
      PaddingOnly(mem[p.block], p.block, p.off, p.size, data);
      assert data[..p.size] == p.buffer[..p.size];
      DeviceProg(p.block, p.off, data);
      if validate {
        ok := Kept(r, p.block, p.off, data);
        SpliceIs(old(mem)[p.block], mem[p.block], p.off, data);
        if !ok {
          return false;
        }
      }
      p.Zero();
      return true;
    }

    /** Whether the device kept what was programmed. */
    method Kept(r: Buffer, block: nat, off: nat, data: seq<Byte>) returns (ok: bool)
      requires Valid() && r.Fits(blockSize, blockCount, cacheSize) && block < blockCount && off + |data| <= blockSize
      modifies r, r.buffer
      ensures Truthful(r) && (ok <==> mem[block][off..off + |data|] == data)
    {
      hide Divides, Compare;
      r.Drop();
      var order := Cmp(r, |data|, block, off, data);
      CompareEqual(mem[block][off..off + |data|], data);
      ok := order == Equal;
    }

    /** lfs_bd_sync: afterwards the read cache is truthful again. */
    method Sync(p: Buffer, r: Buffer, validate: bool) returns (ok: bool)
      requires Valid() && p != r && p.buffer != r.buffer
      requires p.Fits(blockSize, blockCount, cacheSize) && r.Fits(blockSize, blockCount, cacheSize)
      requires p.block != NULL ==> p.off % progSize == 0
      modifies this`mem, p`block, p.buffer, r, r.buffer
      ensures Valid() && Truthful(r)
      ensures p.off == old(p.off) && p.size == old(p.size)
      ensures old(p.block) == NULL ==> ok && mem == old(mem)
      ensures old(p.block) != NULL ==>
                var b, o, n := old(p.block), old(p.off), Padded(old(p.size));
                && n <= cacheSize && o + n <= blockSize
                && (forall c :: 0 <= c < blockCount && c != b ==> mem[c] == old(mem)[c])
                && mem[b][..o] == old(mem)[b][..o] && mem[b][o + n..] == old(mem)[b][o + n..]
                && (ok && (sound || validate) ==> SameBut(mem[b], old(View(p, b)), o + old(p.size), o + n))
      ensures ok ==> p.block == NULL
      ensures !ok ==> validate && !sound && p.block == old(p.block) && p.buffer[..] == old(p.buffer[..])
    {
      r.Drop();
      ok := Flush(p, r, validate);
    }

    /** Where the next contiguous program operation may go. */
    predicate Ready(p: Buffer, block: nat, off: nat)
      requires Configured()
      reads p
    {
      && p.Fits(blockSize, blockCount, cacheSize)
      && (if p.block == NULL then off % progSize == 0
          else p.block == block && p.off + p.size == off && p.off % progSize == 0 && p.size < cacheSize)
    }

    /** The block as the program cache has it. */
    function View(p: Buffer, block: nat): (s: seq<Byte>)
      requires Valid() && block < blockCount && p.Fits(blockSize, blockCount, cacheSize)
      reads this, p, p.buffer
      ensures |s| == blockSize
    {
      Overlay(mem[block], block, p.Held())
    }

    /** lfs_bd_prog, called with one stretch after the other: each shows in the view, and only it. */
    method Prog(p: Buffer, r: Buffer, validate: bool, block: nat, start: nat, data: seq<Byte>) returns (ok: bool)
      requires Valid() && p != r && p.buffer != r.buffer && r.Fits(blockSize, blockCount, cacheSize)
      requires block < blockCount && start + |data| <= blockSize
      requires p.Fits(blockSize, blockCount, cacheSize) && Ready(p, block, start)
      modifies this`mem, p, p.buffer, r, r.buffer
      ensures Valid() && p.Fits(blockSize, blockCount, cacheSize) && r.Fits(blockSize, blockCount, cacheSize)
      ensures forall c :: 0 <= c < blockCount && c != block ==> mem[c] == old(mem)[c]
      ensures ok ==> Ready(p, block, start + |data|)
      ensures ok && (sound || validate) ==> View(p, block) == Overwrite(old(View(p, block)), start, data)
      ensures !ok ==> validate && !sound
    {
      hide Ready, View, Overwrite, Divides;
      ghost var before := View(p, block);
      var i := 0;
      SpliceNone(before, start, data);
      while i < |data|
        invariant i <= |data| && Valid() && p.Fits(blockSize, blockCount, cacheSize)
                  && r.Fits(blockSize, blockCount, cacheSize)
        invariant forall c :: 0 <= c < blockCount && c != block ==> mem[c] == old(mem)[c]
        invariant Ready(p, block, start + i)
        invariant sound || validate ==> View(p, block) == Overwrite(before, start, data[..i])
        decreases |data| - i, if p.block == NULL then 1 else 0 as int
      {
        var done;
        ok, done := ProgSome(p, r, validate, block, start + i, data[i..]);
        if !ok {
          return;
        }
        SpliceMore(before, start, data, i, done);
        i := i + done;
      }
      assert data[..i] == data;
      ok := true;
    }

    /** One turn of the loop of lfs_bd_prog: bytes into the cache, flushed when it is full, or else a fresh cache. */
    method ProgSome(p: Buffer, r: Buffer, validate: bool, block: nat, off: nat, data: seq<Byte>)
      returns (ok: bool, done: nat)
      requires Valid() && p != r && p.buffer != r.buffer && r.Fits(blockSize, blockCount, cacheSize)
      requires block < blockCount && off + |data| <= blockSize && data != []
      requires p.Fits(blockSize, blockCount, cacheSize) && Ready(p, block, off)
      modifies this`mem, p, p.buffer, r, r.buffer
      ensures Valid() && p.Fits(blockSize, blockCount, cacheSize) && r.Fits(blockSize, blockCount, cacheSize)
      ensures forall c :: 0 <= c < blockCount && c != block ==> mem[c] == old(mem)[c]
      ensures done <= |data|
      ensures ok ==> Ready(p, block, off + done)
      ensures ok && (sound || validate) ==> View(p, block) == Overwrite(old(View(p, block)), off, data[..done])
      ensures ok && done == 0 ==> old(p.block) == NULL && p.block != NULL
      ensures !ok ==> validate && !sound
    {
      hide Overwrite, Overlay, AlignDown, Divides, Padded;
      if p.block == NULL {
        Aligned(off);
        EmptyWindow(mem[block], block, off);
        p.block, p.off, p.size := block, AlignDown(off, progSize), 0;
        assert p.buffer[..0] == [];
        SpliceNone(mem[block], off, data);
        return true, 0;
      }
      PaddedFits(p.off, p.size);
      ghost var o, held := p.off, p.buffer[..p.size];
      done := Gather(p, off, data);
      GrowWindow(mem[block], block, o, held, data[..done]);
      ok := true;
      if p.size == cacheSize {
        PaddedFits(p.off, p.size);
        ghost var full := Window(block, o, held + data[..done]);
        FullWindow(mem[block], block, full);
        assert p.buffer[..][..p.size] == p.buffer[..p.size];
        ok := Flush(p, r, validate);
      }
    }

    lemma Aligned(off: nat)
      requires Configured() && off % progSize == 0
      ensures progSize > 0 && AlignDown(off, progSize) == off
    {
      AlignDownBelow(off, progSize);
    }

    method Gather(p: Buffer, off: nat, data: seq<Byte>) returns (done: nat)
      requires Configured() && p.Fits(blockSize, blockCount, cacheSize) && p.block != NULL
      requires p.off + p.size == off && p.size < cacheSize && off + |data| <= blockSize && data != []
      modifies p`size, p.buffer
      ensures 0 < done <= |data| && p.Fits(blockSize, blockCount, cacheSize) && p.size == old(p.size) + done
      ensures p.buffer[..p.size] == old(p.buffer[..p.size]) + data[..done]
    {
      hide Divides;
      done := Min(|data|, cacheSize - (off - p.off));
      ghost var at := p.size;
      forall i | 0 <= i < done {
        p.buffer[off - p.off + i] := data[i];
      }
      p.size := Max(p.size, off + done - p.off);
      Gathered(old(p.buffer[..]), p.buffer[..], at, data[..done]);
    }
  }

  lemma Gathered(before: seq<Byte>, after: seq<Byte>, at: nat, data: seq<Byte>)
    requires |before| == |after| && at + |data| <= |after|
    requires forall i :: 0 <= i < at ==> after[i] == before[i]
    requires forall i :: 0 <= i < |data| ==> after[at + i] == data[i]
    ensures after[..at + |data|] == before[..at] + data
  {
  }

  lemma EmptyWindow(bytes: seq<Byte>, block: nat, off: nat)
    requires off <= |bytes|
    ensures Overlay(bytes, block, Window(block, off, [])) == Overlay(bytes, block, Empty) == bytes
  {
  }

  lemma GrowWindow(bytes: seq<Byte>, block: nat, off: nat, held: seq<Byte>, data: seq<Byte>)
    requires off + |held| + |data| <= |bytes|
    ensures Overlay(bytes, block, Window(block, off, held + data))
         == Overwrite(Overlay(bytes, block, Window(block, off, held)), off + |held|, data)
  {
  }

  lemma FullWindow(bytes: seq<Byte>, block: nat, w: Window)
    requires w.Window? && w.block == block && w.off + |w.data| <= |bytes|
    ensures Overlay(Overwrite(bytes, w.off, w.data), block, Empty) == Overlay(bytes, block, w)
  {
  }

  lemma SpliceNone(s: seq<Byte>, off: nat, data: seq<Byte>)
    requires off <= |s|
    ensures Overwrite(s, off, data[..0]) == s
  {
  }

  lemma SpliceMore(s: seq<Byte>, off: nat, data: seq<Byte>, i: nat, n: nat)
    requires i + n <= |data| && off + |data| <= |s|
    ensures Overwrite(Overwrite(s, off, data[..i]), off + i, data[i..][..n]) == Overwrite(s, off, data[..i + n])
  {
  }

  /** Equal outside a range. */
  predicate SameBut(a: seq<Byte>, b: seq<Byte>, lo: nat, hi: nat) {
    |a| == |b| && forall i :: 0 <= i < |a| && !(lo <= i < hi) ==> a[i] == b[i]
  }

  /** What a flush programs shows what the cache held, except for padding. */
  lemma PaddingOnly(bytes: seq<Byte>, block: nat, off: nat, size: nat, data: seq<Byte>)
    requires size <= |data| && off + |data| <= |bytes|
    ensures SameBut(Overwrite(bytes, off, data), Overlay(bytes, block, Window(block, off, data[..size])), off + size,
                    off + |data|)
  {
  }

  lemma SumMod(a: nat, b: nat, d: nat)
    requires d > 0 && a % d == 0 && b % d == 0
    ensures (a + b) % d == 0
  {
    assert a == a / d * d && b == b / d * d;
    assert a + b == (a / d + b / d) * d;
    MultipleMod(a / d + b / d, d);
  }

  lemma SpliceIs(before: seq<Byte>, after: seq<Byte>, off: nat, data: seq<Byte>)
    requires |before| == |after| && off + |data| <= |before|
    requires after[..off] == before[..off] && after[off + |data|..] == before[off + |data|..]
    ensures after == Overwrite(before, off, data) <==> after[off..off + |data|] == data
  {
    if after[off..off + |data|] == data {
      assert after == after[..off] + after[off..off + |data|] + after[off + |data|..];
    }
  }
}
