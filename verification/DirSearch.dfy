/**
  Finding a name while fetching a directory (lfs.c:869-969, 1047-1069): one forward pass over
  the log keeps a cursor to the best candidate and drags it along through creates, deletes
  and names that arrive out of order.
 */
module DirSearch {
  import opened Flash
  import opened ByteOrder
  import opened DirLog
  import opened DirSplit
  import opened Optional

  // ----- the order of names -----

  /** lfs_dir_find_match: compares the common length with lfs_bd_cmp, then the lengths. */
  method FindMatch(disk: seq<Byte>, name: seq<Byte>) returns (r: Order)
    ensures r == Compare(disk, name)
  {
    var diff := if |name| < |disk| then |name| else |disk|;
    var i := 0;
    while i < diff
      invariant i <= diff
      invariant Compare(disk, name) == Compare(disk[i..], name[i..])
    {
      if disk[i] != name[i] {
        return if disk[i] < name[i] then Less else Greater;
      }
      i := i + 1;
    }
    if |name| != |disk| {
      return if |name| < |disk| then Less else Greater;
    }
    return Equal;
  }

  predicate Before(a: seq<Byte>, b: seq<Byte>) { Compare(a, b) == Less }

  lemma {:induction false} CompareFlips(a: seq<Byte>, b: seq<Byte>)
    ensures Compare(a, b) == Less <==> Compare(b, a) == Greater
  {
    if a != [] && b != [] && a[0] == b[0] {
      CompareFlips(a[1..], b[1..]);
    }
  }

  lemma {:induction false} BeforeTransitive(a: seq<Byte>, b: seq<Byte>, c: seq<Byte>)
    requires Before(a, b) && Before(b, c)
    ensures Before(a, c)
  {
    if a != [] && b != [] && c != [] && a[0] == b[0] && b[0] == c[0] {
      BeforeTransitive(a[1..], b[1..], c[1..]);
    }
  }

  /** The order is total: exactly one of the three holds. */
  lemma BeforeIsTotal(a: seq<Byte>, b: seq<Byte>)
    ensures Before(a, b) || a == b || Before(b, a)
    ensures !(Before(a, b) && Before(b, a)) && !Before(a, a)
  {
    CompareEqual(a, b);
    CompareEqual(a, a);
    CompareFlips(a, b);
    CompareFlips(b, a);
  }

  /** A longer name comes before its own prefix. */
  lemma {:induction false} LongerFirst(a: seq<Byte>, more: seq<Byte>)
    requires more != []
    ensures Before(a + more, a)
  {
    if a != [] {
      LongerFirst(a[1..], more);
      assert (a + more)[1..] == a[1..] + more;
    }
  }

  // ----- the logs a filesystem writes -----

  /** fmask of a search by name; the superblock entry (chunk 0xff) does not match it. */
  const FINDABLE := Class(Half, NAME, 0)

  ghost function Names(log: seq<Entry>): Table { Column(FINDABLE, log) }

  ghost predicate Sorted(t: Table) {
    forall i, j :: i in t && j in t && i < j ==> Before(t[i].data, t[j].data)
  }

  /** Every id from `base` on has a name. */
  ghost predicate Complete(log: seq<Entry>, base: nat) {
    forall i: nat :: base <= i < Count(log) ==> i in Names(log)
  }

  predicate NoSplices(log: seq<Entry>) {
    forall i :: 0 <= i < |log| ==> log[i].major != SPLICE
  }

  /**
    What may follow a log whose names start at id `base` (1 in the superblock pair, 0 elsewhere):
    ids are created and deleted only in a complete directory; a name goes to an unnamed id,
    which is the only one once the compacted part of the log is over.
  */
  ghost predicate MayFollow(log: seq<Entry>, e: Entry, base: nat) {
    && WellFormed(e)
    && (IsCreate(e) ==> Complete(log, base) && base <= e.id <= Count(log))
    && (IsRemove(e) ==> Complete(log, base) && base <= e.id < Count(log))
    && (e.major == NAME ==> e.size != DELETED)
    && (e.major == NAME && e.chunk >= 0x80 ==> e.id < base && NoSplices(log))
    && (e.major == NAME && e.chunk < 0x80 ==> base <= e.id && e.id !in Names(log))
    && (e.major == NAME && !NoSplices(log) ==> e.id < Count(log) && OnlyHole(log, e.id, base))
  }

  ghost predicate OnlyHole(log: seq<Entry>, id: nat, base: nat) {
    forall i: nat :: base <= i < Count(log) && i != id ==> i in Names(log)
  }

  /** A log whose names are in order after every entry. */
  ghost predicate Disciplined(log: seq<Entry>, base: nat) {
    log == [] || (
      var front, e := log[..|log| - 1], log[|log| - 1];
      Disciplined(front, base) && MayFollow(front, e, base) && Sorted(Names(log)))
  }

  // ----- the cursor -----

  /** tempbesttag: -1, a match, or the id in front of which the name belongs. */
  datatype Cursor = Nothing | Best(valid: bool, chunk: nat, id: nat)

  /** What the cursor knows about the names so far. */
  ghost predicate Knows(best: Cursor, t: Table, name: seq<Byte>) {
    match best
    case Nothing => forall i :: i in t ==> Before(t[i].data, name)
    case Best(valid, chunk, id) =>
      if valid then id in t && t[id].data == name
      else forall i :: i in t ==> (if i < id then Before(t[i].data, name) else Before(name, t[i].data))
  }

  /** The three updates lfs_dir_fetchmatch makes for a tag. */
  function Advance(best: Cursor, e: Entry, name: seq<Byte>): Cursor
    requires WellFormed(e)
  {
    var best :=
      if e.major == SPLICE then
        if best.Best? && IsRemove(e) && e.id == best.id then best.(valid := false)
        else if best.Best? && e.id <= best.id then best.(id := (best.id + Splice(e)) as nat)
        else best
      else best;
    if e.major == NAME && e.chunk < 0x80 then
      var res := Compare(e.data, name);
      if res == Equal then Best(true, e.chunk, e.id)
      else if best.Best? && e.chunk == best.chunk && e.id == best.id then Nothing
      else if res == Greater && (best.Nothing? || e.id <= best.id) then Best(false, e.chunk, e.id)
      else best
    else best
  }

  lemma {:induction false} NamesBelowCount(log: seq<Entry>, base: nat)
    requires Disciplined(log, base)
    ensures Count(log) >= 0
    ensures forall i :: i in Names(log) ==> base <= i < Count(log)
  {
    if log != [] {
      var front, e := log[..|log| - 1], log[|log| - 1];
      NamesBelowCount(front, base);
      assert Names(log) == Apply(FINDABLE, Names(front), e);
      assert e.chunk / 0x80 == 0 <==> e.chunk < 0x80;
    }
  }

  /** The cursor invariant: what it knows, and that it never sits on an unnamed id. */
  ghost predicate Tracks(best: Cursor, log: seq<Entry>, base: nat, name: seq<Byte>) {
    && Knows(best, Names(log), name)
    && (best.Best? ==> base <= best.id <= Count(log))
    && (best.Best? && (NoSplices(log) || best.id < Count(log)) ==> best.id in Names(log))
  }

  lemma KnowsAfterCreate(best: Cursor, t: Table, id: nat, name: seq<Byte>)
    requires Knows(best, t, name)
    ensures Knows(if best.Best? && id <= best.id then best.(id := best.id + 1) else best, OpenGap(t, id), name)
  {
  }

  lemma KnowsAfterRemove(best: Cursor, t: Table, id: nat, name: seq<Byte>)
    requires Knows(best, t, name) && Sorted(t)
    ensures best.Best? && id == best.id ==> Knows(best.(valid := false), CloseGap(t, id), name)
    ensures best.Best? && id < best.id ==> Knows(best.(id := best.id - 1), CloseGap(t, id), name)
    ensures best.Nothing? || id > best.id ==> Knows(best, CloseGap(t, id), name)
  {
    if best.Best? && best.valid {
      forall i | i in t && i != best.id
        ensures i < best.id ==> Before(t[i].data, name)
        ensures i > best.id ==> Before(name, t[i].data)
      {
      }
    }
  }

  /** A new name: a match, a closer successor, or a name on the far side of the cursor. */
  lemma KnowsAfterName(best: Cursor, t: Table, e: Entry, name: seq<Byte>)
    requires WellFormed(e) && e.major == NAME && e.chunk < 0x80
    requires Knows(best, t, name) && e.id !in t && Sorted(t[e.id := AttrOf(e)])
    requires best.Best? ==> best.id != e.id
    requires best.Best? && best.id < e.id ==> best.id in t
    ensures Knows(Advance(best, e, name), t[e.id := AttrOf(e)], name)
    ensures Advance(best, e, name) == best || (Advance(best, e, name).Best? && Advance(best, e, name).id == e.id)
  {
    var t' := t[e.id := AttrOf(e)];
    CompareEqual(e.data, name);
    CompareFlips(e.data, name);
    CompareFlips(name, e.data);
    BeforeIsTotal(e.data, name);
    if e.data == name {
    } else if Before(e.data, name) {
      NameBefore(best, t, e, name);
    } else {
      NameAfter(best, t, e, name);
    }
  }

  lemma NameBefore(best: Cursor, t: Table, e: Entry, name: seq<Byte>)
    requires WellFormed(e) && e.major == NAME && e.chunk < 0x80
    requires Knows(best, t, name) && e.id !in t && Sorted(t[e.id := AttrOf(e)])
    requires best.Best? ==> best.id != e.id
    requires best.Best? && best.id < e.id ==> best.id in t
    requires Before(e.data, name)
    ensures Advance(best, e, name) == best && Knows(best, t[e.id := AttrOf(e)], name)
  {
    var t' := t[e.id := AttrOf(e)];
    BeforeIsTotal(e.data, name);
    if best.Best? && !best.valid && best.id < e.id {
      assert Before(t'[best.id].data, t'[e.id].data);
      BeforeTransitive(name, t[best.id].data, e.data);
    }
  }

  lemma NameAfter(best: Cursor, t: Table, e: Entry, name: seq<Byte>)
    requires WellFormed(e) && e.major == NAME && e.chunk < 0x80
    requires Knows(best, t, name) && e.id !in t && Sorted(t[e.id := AttrOf(e)])
    requires best.Best? ==> best.id != e.id
    requires Before(name, e.data) && Compare(e.data, name) == Greater
    ensures Knows(Advance(best, e, name), t[e.id := AttrOf(e)], name)
  {
    var t' := t[e.id := AttrOf(e)];
    BeforeIsTotal(name, e.data);
    assert best.Best? && best.valid ==> best.id in t' && t'[best.id].data == name;
    if best.Nothing? || e.id < best.id {
      forall i | i in t' && i > e.id
        ensures Before(name, t'[i].data)
      {
        assert Before(t'[e.id].data, t'[i].data);
        BeforeTransitive(name, e.data, t'[i].data);
      }
    }
  }

  lemma AppendNames(log: seq<Entry>, e: Entry)
    ensures Names(log + [e]) == Apply(FINDABLE, Names(log), e)
    ensures Count(log + [e]) == (if e.major == NAME then (if e.id >= Count(log) then e.id + 1 else Count(log))
                                 else if e.major == SPLICE then Count(log) + Splice(e)
                                 else Count(log))
    ensures NoSplices(log + [e]) <==> NoSplices(log) && e.major != SPLICE
  {
    var longer := log + [e];
    assert longer[..|log|] == log && longer[|log|] == e;
    assert forall i :: 0 <= i < |log| ==> longer[i] == log[i];
  }

  lemma CreateTracks(best: Cursor, log: seq<Entry>, e: Entry, base: nat, name: seq<Byte>)
    requires Disciplined(log, base) && MayFollow(log, e, base) && IsCreate(e)
    requires Tracks(best, log, base, name)
    ensures Tracks(Advance(best, e, name), log + [e], base, name)
  {
    hide Column, Count, Disciplined, Sorted, Knows;
    AppendNames(log, e);
    NamesBelowCount(log, base);
    KnowsAfterCreate(best, Names(log), e.id, name);
  }

  lemma RemoveTracks(best: Cursor, log: seq<Entry>, e: Entry, base: nat, name: seq<Byte>)
    requires Disciplined(log, base) && MayFollow(log, e, base) && IsRemove(e) && Sorted(Names(log))
    requires Tracks(best, log, base, name)
    ensures Tracks(Advance(best, e, name), log + [e], base, name)
  {
    hide Column, Count, Disciplined, Sorted, Knows;
    AppendNames(log, e);
    NamesBelowCount(log, base);
    KnowsAfterRemove(best, Names(log), e.id, name);
  }

  lemma NameTracks(best: Cursor, log: seq<Entry>, e: Entry, base: nat, name: seq<Byte>)
    requires Disciplined(log, base) && MayFollow(log, e, base) && e.major == NAME && e.chunk < 0x80
    requires Sorted(Names(log + [e]))
    requires Tracks(best, log, base, name)
    ensures Tracks(Advance(best, e, name), log + [e], base, name)
  {
    AppendNames(log, e);
    NamesBelowCount(log, base);
    assert Selects(FINDABLE, e);
    KnowsAfterName(best, Names(log), e, name);
    hide Column, Count, Disciplined, Sorted, Advance;
  }

  lemma AdvanceTracks(best: Cursor, log: seq<Entry>, e: Entry, base: nat, name: seq<Byte>)
    requires Disciplined(log, base) && MayFollow(log, e, base)
    requires Sorted(Names(log + [e])) && Sorted(Names(log))
    requires Tracks(best, log, base, name)
    ensures Tracks(Advance(best, e, name), log + [e], base, name)
  {
    AppendNames(log, e);
    hide Column, Count, Disciplined, Sorted;
    if IsCreate(e) {
      CreateTracks(best, log, e, base, name);
    } else if IsRemove(e) {
      RemoveTracks(best, log, e, base, name);
    } else if e.major == NAME && e.chunk < 0x80 {
      NameTracks(best, log, e, base, name);
    } else {
      assert !Selects(FINDABLE, e);
    }
  }

  /** The result of a search: the id of the name, or where it belongs. */
  datatype Match = Hit(id: nat) | Insert(id: nat)

  /** The right answer for a directory. */
  ghost predicate Finds(r: Match, t: Table, count: int, name: seq<Byte>) {
    match r
    case Hit(id) => id in t && t[id].data == name
    case Insert(id) => id <= count && forall i :: i in t ==>
                                        (if i < id then Before(t[i].data, name) else Before(name, t[i].data))
  }

  /** The cursor once the entry that is pending to be moved away is taken out. */
  function Taken(best: Cursor, move: Option<nat>): Cursor {
    if best.Nothing? || move == None then best
    else if move.value == best.id then best.(valid := false)
    else if move.value < best.id then best.(id := best.id - 1)
    else best
  }

  /**
    The pass of lfs_dir_fetchmatch over the entries of a committed log, and its answer. An entry that
    is pending to be moved away is not found, but still counted where a name belongs behind all others.
   */
  method FetchMatch(log: seq<Entry>, name: seq<Byte>, move: Option<nat>, ghost base: nat) returns (r: Match, count: nat)
    requires Disciplined(log, base) && AllWellFormed(log) && (move.Some? ==> move.value < Count(log))
    ensures count == Count(log) && (move == None ==> Finds(r, Names(log), Count(log), name))
    ensures move == None && r.Insert? && base <= Count(log) ==> base <= r.id
    ensures move.Some? ==>
              Finds(if r == Insert(Count(log)) then Insert(Count(log) - 1) else r,
                    CloseGap(Names(log), move.value), Count(log) - 1, name)
  {
    hide Column, Count, Disciplined, Sorted, Before, Tracks, Finds, Advance, MayFollow, CloseGap, Taken, Answer;
    NothingTracks(log[..0], base, name);
    var best := Nothing;
    count := 0;
    var i := 0;
    assert log[..0] == [];
    while i < |log|
      invariant 0 <= i <= |log| && count == Count(log[..i])
      invariant Disciplined(log[..i], base) && Tracks(best, log[..i], base, name)
    {
      var tag := log[i];
      PrefixDisciplined(log, i, base);
      PrefixDisciplined(log, i + 1, base);
      assert log[..i + 1] == log[..i] + [tag];
      AppendNames(log[..i], tag);
      AdvanceTracks(best, log[..i], tag, base, name);
      if tag.major == NAME {
        count := if tag.id >= count then tag.id + 1 else count;
      } else if tag.major == SPLICE {
        count := count + Splice(tag);
      }
      best := Advance(best, tag, name);
      i := i + 1;
    }
    assert log[..i] == log;
    CursorAnswers(best, log, name, move, base);
    NamesBelowCount(log, base);
    return Answer(Taken(best, move), count), count;
  }

  lemma NothingTracks(log: seq<Entry>, base: nat, name: seq<Byte>)
    requires log == []
    ensures Count(log) == 0 && Disciplined(log, base) && Tracks(Nothing, log, base, name)
  {
  }

  function Answer(best: Cursor, count: nat): Match {
    if best.Best? && best.valid then Hit(best.id) else Insert(if best.Best? && best.id < count then best.id else count)
  }

  lemma CursorAnswers(best: Cursor, log: seq<Entry>, name: seq<Byte>, move: Option<nat>, base: nat)
    requires Disciplined(log, base) && Tracks(best, log, base, name) && (move.Some? ==> move.value < Count(log))
    ensures Count(log) >= 0
    ensures var r := Answer(Taken(best, move), Count(log)); move == None && r.Insert? && base <= Count(log) ==>
              base <= r.id
    ensures var t, count, r := Names(log), Count(log), Answer(Taken(best, move), Count(log));
            if move.Some?
              then Finds(if r == Insert(count) then Insert(count - 1) else r, CloseGap(t, move.value), count - 1, name)
            else Finds(r, t, count, name)
  {
    hide Column, Count, Disciplined, Sorted, Before, Knows, CloseGap, Finds, Answer;
    NamesBelowCount(log, base);
    PrefixDisciplined(log, |log|, base);
    assert log[..|log|] == log;
    KnownAnswers(best, Names(log), Count(log), Count(log), name);
    AnswerInside(best, Count(log), base);
    if move.Some? {
      TakenKnows(best, Names(log), move.value, name);
      OneLess(Names(log), Count(log), move.value);
      KnownAnswers(Taken(best, move), CloseGap(Names(log), move.value), Count(log), Count(log) - 1, name);
    }
  }

  lemma AnswerInside(best: Cursor, count: nat, base: nat)
    requires best.Best? ==> base <= best.id
    ensures var r := Answer(best, count); r.Insert? && base <= count ==> base <= r.id
  {
  }

  /** The answer, if it is bounded by `count` and there are `live` names. */
  lemma KnownAnswers(best: Cursor, t: Table, count: nat, live: nat, name: seq<Byte>)
    requires Knows(best, t, name) && live <= count <= live + 1 && forall i :: i in t ==> i < live
    ensures var r := Answer(best, count); Finds(if r == Insert(count) then Insert(live) else r, t, live, name)
  {
    hide Before;
  }

  lemma TakenKnows(best: Cursor, t: Table, m: nat, name: seq<Byte>)
    requires Knows(best, t, name) && Sorted(t)
    ensures Knows(Taken(best, Some(m)), CloseGap(t, m), name)
  {
    hide Knows, Sorted, CloseGap;
    KnowsAfterRemove(best, t, m, name);
  }

  lemma OneLess(t: Table, count: int, m: nat)
    requires m < count && forall i :: i in t ==> i < count
    ensures forall i :: i in CloseGap(t, m) ==> i < count - 1
  {
  }

  lemma {:induction false} PrefixDisciplined(log: seq<Entry>, n: nat, base: nat)
    requires Disciplined(log, base) && n <= |log|
    ensures Disciplined(log[..n], base) && Sorted(Names(log[..n]))
    ensures n < |log| ==> MayFollow(log[..n], log[n], base)
  {
    if n == |log| {
      assert log[..n] == log;
    } else if n == |log| - 1 {
      PrefixDisciplined(log[..n], n, base);
      assert log[..n][..n] == log[..n];
    } else {
      var front := log[..|log| - 1];
      assert front[..n] == log[..n];
      PrefixDisciplined(front, n, base);
    }
  }

  /** A name put where the search says keeps the directory strictly sorted. */
  lemma InsertKeepsSorted(t: Table, id: nat, count: int, name: seq<Byte>, a: Attr)
    requires Sorted(t) && Finds(Insert(id), t, count, name) && a.data == name
    ensures Sorted(OpenGap(t, id)[id := a])
  {
  }

  /** Searching a sorted directory has one answer only. */
  lemma AnswerUnique(t: Table, count: int, name: seq<Byte>, r: Match, s: Match, base: nat)
    requires Sorted(t) && (forall i: nat :: base <= i < count <==> i in t)
    requires Finds(r, t, count, name) && Finds(s, t, count, name)
    requires r.Insert? ==> base <= r.id
    requires s.Insert? ==> base <= s.id
    ensures r == s
  {
    if r.Hit? && s.Hit? {
      NoTwoHits(t, r.id, s.id, name);
      NoTwoHits(t, s.id, r.id, name);
    } else if r.Insert? && s.Insert? {
      NoTwoGaps(t, r.id, s.id, name);
      NoTwoGaps(t, s.id, r.id, name);
    } else {
      BeforeIsTotal(name, name);
    }
  }

  lemma NoTwoHits(t: Table, i: nat, j: nat, name: seq<Byte>)
    requires Sorted(t) && i in t && j in t && t[i].data == name && t[j].data == name
    ensures i >= j
  {
    BeforeIsTotal(name, name);
  }

  lemma NoTwoGaps(t: Table, i: nat, j: nat, name: seq<Byte>)
    requires forall k :: k in t ==> (if k < i then Before(t[k].data, name) else Before(name, t[k].data))
    requires forall k :: k in t ==> (if k < j then Before(t[k].data, name) else Before(name, t[k].data))
    requires i < j ==> i in t
    ensures i >= j
  {
    if i in t {
      BeforeIsTotal(t[i].data, name);
    }
  }
}
