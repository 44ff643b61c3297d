/**
  The block device of lfs.h: blocks of bytes that are erased as a whole and programmed
  once, front to back, between erases. What erase leaves behind is not specified.
 */
module Flash {
  import opened Util

  type Byte = x: int | 0 <= x < 256

  /** lfs_tole32 */
  function Le32(x: nat): (s: seq<Byte>)
    requires x < TWO_32
    ensures |s| == 4
  {
    [x % 256, x / 256 % 256, x / 65536 % 256, x / 16777216]
  }

  /** lfs_fromle32 */
  function FromLe32(s: seq<Byte>): (x: nat)
    requires |s| == 4
    ensures x < TWO_32
  {
    s[0] as nat + 256 * (s[1] as nat) + 65536 * (s[2] as nat) + 16777216 * (s[3] as nat)
  }

  lemma Le32RoundTrip(x: nat)
    requires x < TWO_32
    ensures FromLe32(Le32(x)) == x
  {
    var x1: nat := x / 256;
    assert x / 65536 == x1 / 256 && x / 16777216 == x1 / 256 / 256;
  }

  class BlockDevice {
    const blockSize: nat
    var mem: seq<seq<Byte>>
    // the first offset of each block that was not programmed since the last erase
    var top: seq<nat>

    ghost predicate Valid()
      reads this
    {
      && blockSize >= 104 && |mem| < TWO_32
      && |top| == |mem|
      && (forall b :: 0 <= b < |mem| ==> |mem[b]| == blockSize)
      && (forall b :: 0 <= b < |mem| ==> top[b] <= blockSize)
    }

    method Read(block: nat, off: nat, size: nat) returns (data: seq<Byte>)
      requires Valid() && block < |mem| && off + size <= blockSize
      ensures data == mem[block][off..off + size]
    {
      data := mem[block][off..off + size];
    }

    method Erase(block: nat)
      requires Valid() && block < |mem|
      modifies this
      ensures Valid() && |mem| == old(|mem|)
      ensures forall b :: 0 <= b < |mem| && b != block ==> mem[b] == old(mem[b]) && top[b] == old(top[b])
      ensures top[block] == 0
    {
      var left: seq<Byte> := mem[block];
      if * {
        left := seq(blockSize, i => 0xff);
      }
      mem := mem[block := left];
      top := top[block := 0];
    }

    method Prog(block: nat, off: nat, data: seq<Byte>)
      requires Valid() && block < |mem| && off + |data| <= blockSize
      requires top[block] <= off
      modifies this
      ensures Valid() && |mem| == old(|mem|)
      ensures forall b :: 0 <= b < |mem| && b != block ==> mem[b] == old(mem[b]) && top[b] == old(top[b])
      ensures mem[block] == old(mem[block])[..off] + data + old(mem[block])[off + |data|..]
      ensures top[block] == off + |data|
    {
      mem := mem[block := mem[block][..off] + data + mem[block][off + |data|..]];
      top := top[block := off + |data|];
    }
  }
}
