/** The order of bytes on the device and of names: the first difference decides. */
module ByteOrder {
  import opened Flash

  datatype Order = Equal | Less | Greater

  /** A longer sequence precedes its own prefixes, as lfs_dir_find_match has it for names. */
  function Compare(disk: seq<Byte>, name: seq<Byte>): Order {
    if disk == [] && name == [] then Equal
    else if disk == [] then Greater
    else if name == [] then Less
    else if disk[0] < name[0] then Less
    else if disk[0] > name[0] then Greater
    else Compare(disk[1..], name[1..])
  }

  lemma {:induction false} CompareEqual(a: seq<Byte>, b: seq<Byte>)
    ensures Compare(a, b) == Equal <==> a == b
  {
    if a != [] && b != [] && a[0] == b[0] {
      CompareEqual(a[1..], b[1..]);
      assert a == [a[0]] + a[1..] && b == [b[0]] + b[1..];
    }
  }
}
