/**
  The metadata log of a directory (lfs.c:496-752). A directory is a sequence of tagged
  entries; CREATE and DELETE entries renumber all others. Its meaning is a forward replay
  into columns: for every class of attributes, a table from ids to the latest attribute.
  The backward lookup and the compacting traversal are proved against that replay.
 */
module DirLog {
  import opened Flash
  import opened Optional

  // major types of a tag: the three bits 0x700 of its type
  const NAME: nat := 0
  const STRUCT: nat := 2
  const USERATTR: nat := 3
  const SPLICE: nat := 4

  // the size that marks a deleted attribute
  const DELETED: nat := 0x3ff

  /** A tag with its payload: type = 0x100 * major + chunk. */
  datatype Entry = Entry(major: nat, chunk: nat, id: nat, size: nat, data: seq<Byte>)

  /** What an entry says about its id. */
  datatype Attr = Attr(chunk: nat, size: nat, data: seq<Byte>)

  function AttrOf(e: Entry): Attr { Attr(e.chunk, e.size, e.data) }

  predicate IsCreate(e: Entry) { e.major == SPLICE && e.chunk == 1 }

  predicate IsRemove(e: Entry) { e.major == SPLICE && e.chunk == 0xff }

  /** lfs_tag_splice: the chunk read as a signed byte. */
  function Splice(e: Entry): int { if e.chunk < 0x80 then e.chunk as int else e.chunk as int - 0x100 }

  /** The splices the filesystem writes. */
  predicate WellFormed(e: Entry) {
    e.major == SPLICE ==> (e.chunk == 1 || e.chunk == 0xff) && e.size == 0
  }

  predicate AllWellFormed(log: seq<Entry>) {
    forall i :: 0 <= i < |log| ==> WellFormed(log[i])
  }

  /** A CREATE tag. */
  function CreateAt(id: nat): Entry { Entry(SPLICE, 1, id, 0, []) }

  /** A DELETE tag. */
  function DeleteAt(id: nat): Entry { Entry(SPLICE, 0xff, id, 0, []) }

  // ----- forward replay -----

  /**
    A class of attributes, given like the type part of a lookup: masks 0x700 (Major), 0x780 (Half)
    and 0x7ff (Exact) against a type.
  */
  datatype Mask = Major | Half | Exact

  datatype Class = Class(mask: Mask, major: nat, chunk: nat)

  predicate Selects(c: Class, e: Entry) {
    && e.major == c.major
    && (c.mask == Half ==> e.chunk / 0x80 == c.chunk / 0x80)
    && (c.mask == Exact ==> e.chunk == c.chunk)
  }

  /** A column: which ids have an attribute of the class, and which. */
  type Table = imap<nat, Attr>

  function Down(i: nat, id: nat): nat { if i > id then i - 1 else i }

  function Up(i: nat, id: nat): nat { if i >= id then i + 1 else i }

  /** Makes room for a new id. */
  ghost function OpenGap(t: Table, id: nat): Table {
    imap i: nat | i != id && Down(i, id) in t :: t[Down(i, id)]
  }

  /** Drops an id and closes the gap. */
  ghost function CloseGap(t: Table, id: nat): Table {
    imap i: nat | Up(i, id) in t :: t[Up(i, id)]
  }

  /** Replays one entry on the column of a class. */
  ghost function Apply(c: Class, t: Table, e: Entry): Table {
    if IsCreate(e) then OpenGap(t, e.id)
    else if IsRemove(e) then CloseGap(t, e.id)
    else if !Selects(c, e) then t
    else if e.size == DELETED then t - {e.id}
    else t[e.id := AttrOf(e)]
  }

  /** The column a full forward replay leaves. */
  ghost function Column(c: Class, log: seq<Entry>): Table {
    if log == [] then imap[] else Apply(c, Column(c, log[..|log| - 1]), log[|log| - 1])
  }

  ghost function Lookup(t: Table, id: nat): Option<Attr> {
    if id in t then Some(t[id]) else None
  }

  // ----- lfs_dir_getslice -----

  datatype Found = NoEnt | Found(id: int, attr: Attr)

  /** One step backward: where an id was before an entry, or what the entry says about it. */
  lemma LookupStep(c: Class, log: seq<Entry>, id: nat)
    requires |log| > 0 && WellFormed(log[|log| - 1])
    ensures var e, t := log[|log| - 1], Column(c, log[..|log| - 1]);
            Lookup(Column(c, log), id) ==
              if IsCreate(e) then (if e.id == id then None else Lookup(t, Down(id, e.id)))
              else if IsRemove(e) then Lookup(t, Up(id, e.id))
              else if Selects(c, e) && e.id == id then (if e.size == DELETED then None else Some(AttrOf(e)))
              else Lookup(t, id)
  {
  }

  /** Where the source starts to look for an id while a move is pending on the pair. */
  function Adjusted(gid: nat, move: Option<nat>): nat { if move.Some? && gid <= move.value then gid + 1 else gid }

  /**
    lfs_dir_getslice: walks the log backward, drifting the id across splices. `gdiff` is the distance
    from the id asked for to the id at that point of the log; `move` is the id of an entry of this pair
    that is pending to be moved away.
  */
  method GetSlice(log: seq<Entry>, c: Class, gid: nat, move: Option<nat>) returns (r: Found)
    requires AllWellFormed(log)
    requires c.major != SPLICE
    ensures r == match Lookup(Column(c, log), Adjusted(gid, move))
                 case None => NoEnt
                 case Some(a) => Found(gid, a)
  {
    hide Column, Apply;
    var i := |log|;
    var gdiff: int := 0;
    if move.Some? && gid <= move.value {
      gdiff := gdiff - 1;
    }
    assert log[..i] == log;
    while i > 0
      invariant 0 <= i <= |log| && gid - gdiff >= 0
      invariant Lookup(Column(c, log), Adjusted(gid, move)) == Lookup(Column(c, log[..i]), gid - gdiff)
    {
      i := i - 1;
      var tag := log[i];
      assert log[..i + 1][..i] == log[..i] && log[..i + 1][i] == tag;
      LookupStep(c, log[..i + 1], gid - gdiff);
      if tag.major == SPLICE && tag.id <= gid - gdiff {
        if IsCreate(tag) && tag.id == gid - gdiff {
          return NoEnt;
        }
        gdiff := gdiff + Splice(tag);
      }
      if Selects(c, tag) && tag.id == gid - gdiff {
        if tag.size == DELETED {
          return NoEnt;
        }
        return Found(tag.id + gdiff, AttrOf(tag));
      }
    }
    EmptyColumn(c, log[..0], gid - gdiff);
    r := NoEnt;
  }

  /** Entries with a name of any kind. */
  const NAMES := Class(Major, NAME, 0)

  /** What a lookup ought to find while a move is pending: the log as it will be. */
  ghost function Pending(c: Class, log: seq<Entry>, m: nat, gid: nat): Option<Attr> {
    Lookup(Column(c, log + [DeleteAt(m)]), gid)
  }

  /**
    The adjustment for a pending move compares the wrong way round: in front of the moved entry
    it finds the next one, the moved one included, and behind it the one before.
   */
  lemma MoveMisplaces(c: Class, log: seq<Entry>, m: nat, gid: nat)
    requires c.major != SPLICE
    ensures var got := Lookup(Column(c, log), Adjusted(gid, Some(m)));
            && (gid == m ==> got == Pending(c, log, m, gid))
            && (gid > m ==> got == Pending(c, log, m, gid - 1))
            && (gid + 1 < m ==> got == Pending(c, log, m, gid + 1))
            && (gid + 1 == m ==> got == Lookup(Column(c, log), m))
  {
    hide Column;
    assert (log + [DeleteAt(m)])[..|log|] == log;
    LookupStep(c, log + [DeleteAt(m)], gid);
    LookupStep(c, log + [DeleteAt(m)], gid + 1);
    if gid > m {
      LookupStep(c, log + [DeleteAt(m)], gid - 1);
    }
  }

  /** So it is right for every log with the moved entry only at the id of that entry itself. */
  lemma MoveAdjusts(m: nat, gid: nat)
    ensures (forall c: Class, log: seq<Entry> :: c.major != SPLICE && AllWellFormed(log) && m in Column(NAMES, log) ==>
               Lookup(Column(c, log), Adjusted(gid, Some(m))) == Pending(c, log, m, gid)) <==> gid == m
  {
    hide Column;
    if gid == m {
      forall c: Class, log: seq<Entry> | c.major != SPLICE
        ensures Lookup(Column(c, log), Adjusted(gid, Some(m))) == Pending(c, log, m, gid)
      {
        MoveMisplaces(c, log, m, gid);
      }
    } else {
      // the moved entry and one under the id asked for
      var c, a, b := Class(Exact, NAME, 1), Entry(NAME, 1, m, 1, [1]), Entry(NAME, 1, gid, 0, []);
      TwoEntries(NAMES, a, b, m);
      TwoEntries(c, a, b, Adjusted(gid, Some(m)));
      TwoEntries(c, a, b, Up(gid, m));
      assert ([a, b] + [DeleteAt(m)])[..2] == [a, b];
      LookupStep(c, [a, b] + [DeleteAt(m)], gid);
      assert AllWellFormed([a, b]);
    }
  }

  lemma TwoEntries(c: Class, a: Entry, b: Entry, id: nat)
    requires a.major != SPLICE && Selects(c, a) && a.size != DELETED
    requires b.major != SPLICE && Selects(c, b) && b.size != DELETED
    ensures Lookup(Column(c, [a, b]), id) ==
              if b.id == id then Some(AttrOf(b)) else if a.id == id then Some(AttrOf(a)) else None
  {
    hide Column;
    assert [a, b][..1] == [a];
    LookupStep(c, [a, b], id);
    LookupStep(c, [a], id);
    EmptyColumn(c, [a][..0], id);
  }

  lemma EmptyColumn(c: Class, log: seq<Entry>, id: nat)
    requires log == []
    ensures Lookup(Column(c, log), id) == None
  {
  }
}
