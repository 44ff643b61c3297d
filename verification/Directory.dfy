/**
  A directory on its metadata pair: names are searched in what was fetched, commits put or remove
  what is under a name, and a compaction writes what the traversal of the log on disk emits
  (lfs.c:1563-1622). So what is stored under each name survives every loss of power.
 */
module Directory {
  import opened Commit
  import opened Tag
  import opened MetaPair
  import opened Optional
  import opened TagFields
  import Flash
  import DirLog
  import DirCompact
  import DirSplit
  import DirSearch
  import DirWrites
  import DirMap

  /** Every column of a log is that of another, restricted to the ids below a count. */
  ghost predicate Compacts(log: seq<DirLog.Entry>, all: seq<DirLog.Entry>, count: nat) {
    forall c: DirLog.Class :: DirCompact.WantedClass(DirCompact.Compact, c) ==>
      DirLog.Column(c, log) == DirCompact.CutTable(DirLog.Column(c, all), 0, count, 0)
  }

  lemma {:induction false} CutRange(log: seq<DirLog.Entry>, count: nat)
    ensures forall g <- DirCompact.Cut(log, 0, count, 0) :: g.id < count && g in log
  {
    if log != [] {
      CutRange(log[..|log| - 1], count);
    }
  }

  /** What is emitted fits a tag again. */
  lemma EmittedStorable(all: seq<DirLog.Entry>, count: nat)
    requires DirLog.AllWellFormed(all) && (forall e <- all :: Storable(e)) && count <= 0x400
    ensures forall g <- DirCompact.Cut(DirCompact.Emitted(DirCompact.Compact, all), 0, count, 0) :: Storable(g)
  {
    hide DirCompact.Cut, DirCompact.Emitted;
    DirWrites.EmittedFrom(DirCompact.Compact, all);
    CutRange(DirCompact.Emitted(DirCompact.Compact, all), count);
    forall g | g in DirCompact.Cut(DirCompact.Emitted(DirCompact.Compact, all), 0, count, 0)
      ensures Storable(g)
    {
      assert DirWrites.From(all, g);
      var f: DirLog.Entry :| f in all && g == f.(id := g.id);
    }
  }

  /** What the traversal emits for a directory, with tails and global state behind it. */
  method Rewritten(log: seq<Attr>, attrs: seq<Attr>, move: Option<nat>, rest: seq<Attr>, count: nat)
    returns (contents: seq<Attr>)
    requires AllOk(log) && AllOk(attrs) && AllOk(rest) && Foreign(DecodeAll(rest)) && count <= 0x400
    requires (move.Some? ==> move.value < 0x400)
    requires DirLog.AllWellFormed(DecodeAll(log)) && DirLog.AllWellFormed(DecodeAll(attrs))
    ensures AllOk(contents) && DirLog.AllWellFormed(Pending(log, attrs, move))
    ensures DecodeAll(contents) == DirMap.Contents(Pending(log, attrs, move), DecodeAll(rest), count)
    ensures Compacts(DecodeAll(contents), Pending(log, attrs, move), count)
  {
    hide Storable, Ok, Foreign, DirLog.Column, DirCompact.Emitted, DirCompact.Cut, DirCompact.CutTable,
      DirCompact.WantedClass, DecodeAll, EncodeAll, DirLog.WellFormed;
    var front, back := DecodeAll(log), DecodeAll(attrs);
    var out := DirCompact.Traverse(DirCompact.Compact, front, back, move, 0, count, 0);
    ghost var all := Pending(log, attrs, move);
    AllStorable(log);
    AllStorable(attrs);
    PendingStorable(move);
    EmittedStorable(all, count);
    AllRoundTrip(out);
    contents := EncodeAll(out) + rest;
    DecodeConcat(EncodeAll(out), rest);
    forall c: DirLog.Class | DirCompact.WantedClass(DirCompact.Compact, c)
      ensures DirLog.Column(c, DecodeAll(contents)) == DirCompact.CutTable(DirLog.Column(c, all), 0, count, 0)
    {
      DirCompact.CompactionPreservesMeaning(c, DirCompact.Compact, front, back, move, 0, count, 0);
      ForeignColumn(c, out, DecodeAll(rest));
    }
  }

  /** The log with what is committed to it, and the deletion of an entry that is pending to be moved away. */
  function Pending(log: seq<Attr>, attrs: seq<Attr>, move: Option<nat>): seq<DirLog.Entry> {
    DecodeAll(log) + DecodeAll(attrs) + DirCompact.PendingDelete(move)
  }

  lemma PendingStorable(move: Option<nat>)
    requires move.Some? ==> move.value < 0x400
    ensures forall e <- DirCompact.PendingDelete(move) :: Storable(e)
  {
  }

  // ----- what is committed -----

  /** Attributes are put under a name, which is created if it is not there, or all that is under it is removed. */
  datatype Change = Put(name: seq<Flash.Byte>, kind: nat, body: seq<DirLog.Entry>) | Drop(name: seq<Flash.Byte>)

  predicate ChangeOk(change: Change) {
    && |change.name| < DirLog.DELETED
    && (change.Put? ==>
        change.kind < 0x80 && DirMap.IsBody(change.body) && forall e <- change.body :: Storable(e.(id := 0)))
  }

  function NameTag(change: Change, id: nat): DirLog.Entry
    requires change.Put?
  {
    DirLog.Entry(DirLog.NAME, change.kind, id, |change.name|, change.name)
  }

  /** The entries of the commit, once the name was searched for (lfs.c:1926-1934, 2374-2379, 2710-2715, 3145-3147). */
  function Entries(change: Change, r: DirSearch.Match): seq<DirLog.Entry> {
    match change
    case Put(name, kind, body) =>
      (if r.Insert? then [DirLog.CreateAt(r.id), NameTag(change, r.id)] else []) + DirMap.At(body, r.id)
    case Drop(name) => if r.Hit? then [DirLog.DeleteAt(r.id)] else []
  }

  /** What the commit does to what is stored under the names. */
  ghost predicate Changed(before: seq<DirLog.Entry>, change: Change, after: seq<DirLog.Entry>) {
    match change
    case Put(name, kind, body) =>
      var es := if DirMap.Exists(before, name) then body
                else [DirLog.Entry(DirLog.NAME, kind, 0, |name|, name)] + body;
      DirMap.Sets(before, name, es, after)
    case Drop(name) => DirMap.Removes(before, name, after)
  }

  /** The answer of the search. */
  ghost predicate Answers(log: seq<DirLog.Entry>, base: nat, name: seq<Flash.Byte>, r: DirSearch.Match) {
    DirSearch.Finds(r, DirSearch.Names(log), DirSplit.Count(log), name) && (r.Insert? ==> base <= r.id)
  }

  lemma {:induction false} OverlaidConcat(was: Option<DirLog.Attr>, a: seq<DirLog.Entry>, b: seq<DirLog.Entry>,
                                          c: DirLog.Class)
    ensures DirMap.Overlaid(was, a + b, c) == DirMap.Overlaid(DirMap.Overlaid(was, a, c), b, c)
    decreases |b|
  {
    if b == [] {
      assert a + b == a;
    } else {
      assert (a + b)[..|a + b| - 1] == a + b[..|b| - 1];
      OverlaidConcat(was, a, b[..|b| - 1], c);
    }
  }

  lemma AnswerExists(log: seq<DirLog.Entry>, base: nat, name: seq<Flash.Byte>, r: DirSearch.Match)
    requires DirMap.Orderly(log, base) && Answers(log, base, name, r)
    ensures r.Hit? <==> DirMap.Exists(log, name)
    ensures r.Hit? ==> DirMap.Has(log, name, r.id)
  {
    hide DirLog.Column, DirSplit.Count, DirMap.Orderly;
    if r.Hit? {
      assert DirMap.Has(log, name, r.id);
    } else {
      DirSearch.BeforeIsTotal(name, name);
    }
  }

  /** The entries of a commit do what they are for. */
  lemma EntriesChange(log: seq<DirLog.Entry>, base: nat, change: Change, r: DirSearch.Match)
    requires DirMap.Orderly(log, base) && ChangeOk(change) && Answers(log, base, change.name, r)
             && Entries(change, r) != []
    ensures DirMap.Orderly(log + Entries(change, r), base) && Changed(log, change, log + Entries(change, r))
    ensures DirSplit.Count(log + Entries(change, r)) == DirSplit.Count(log) + Grows(change, r)
  {
    hide DirLog.Column, DirSplit.Count, DirMap.Orderly, DirMap.Value, DirMap.Overlaid, DirMap.At, DirSearch.Finds;
    AnswerExists(log, base, change.name, r);
    if change.Drop? {
      DirMap.DeleteRemoves(log, base, change.name, r.id);
    } else if r.Hit? {
      DirMap.BodySets(log, base, change.name, r.id, change.body);
      assert Entries(change, r) == DirMap.At(change.body, r.id);
    } else {
      var e := NameTag(change, r.id);
      var created := DirMap.Created(log, e);
      DirMap.CreateSets(log, base, e);
      DirMap.Opened(log, base, e);
      DirMap.BodySets(created, base, change.name, r.id, change.body);
      assert log + Entries(change, r) == created + DirMap.At(change.body, r.id);
      forall n: seq<Flash.Byte>, c: DirLog.Class | DirCompact.WantedClass(DirCompact.Compact, c)
        ensures DirMap.Value(log + Entries(change, r), n, c) ==
                  if n == change.name
                    then DirMap.Overlaid(DirMap.Value(log, n, c), [NameTag(change, 0)] + change.body, c)
                  else DirMap.Value(log, n, c)
      {
        OverlaidConcat(DirMap.Value(log, n, c), [NameTag(change, 0)], change.body, c);
        AnyId(DirMap.Value(log, n, c), change, r.id, c);
      }
    }
  }

  lemma AnyId(was: Option<DirLog.Attr>, change: Change, id: nat, c: DirLog.Class)
    requires change.Put?
    ensures DirMap.Overlaid(was, [NameTag(change, id)], c) == DirMap.Overlaid(was, [NameTag(change, 0)], c)
  {
    assert [NameTag(change, id)][..0] == [NameTag(change, 0)][..0];
  }

  /** How many ids a commit adds. */
  function Grows(change: Change, r: DirSearch.Match): int {
    if change.Put? then (if r.Insert? then 1 else 0) else if r.Hit? then -1 else 0
  }

  lemma {:induction false} AtStorable(body: seq<DirLog.Entry>, id: nat)
    requires (forall e <- body :: Storable(e.(id := 0))) && id < 0x400
    ensures forall e <- DirMap.At(body, id) :: Storable(e)
  {
    if body != [] {
      var front := body[..|body| - 1];
      assert forall e <- front :: e in body;
      AtStorable(front, id);
      assert Storable(body[|body| - 1].(id := 0));
    }
  }

  lemma EntriesStorable(change: Change, r: DirSearch.Match)
    requires ChangeOk(change) && r.id < 0x400
    ensures forall e <- Entries(change, r) :: Storable(e)
  {
    if change.Put? {
      AtStorable(change.body, r.id);
    }
  }

  // ----- runs -----

  /**
    One step of a run: a commit with its deltas of global state, what a compaction puts behind the
    directory, and what becomes of the writes; or a fetch, or a loss of power.
   */
  datatype Op =
    | Write(change: Change, delta: seq<Attr>, rest: seq<Attr>, left: seq<bv8>, spill: nat, appendFate: Fate,
            compactFate: Fate)
    | Look
    | Lose

  ghost predicate OpOk(op: Op, blockSize: nat) {
    op.Write? ==>
      && ChangeOk(op.change) && |op.left| == blockSize
      && AllOk(op.delta) && Foreign(DecodeAll(op.delta)) && AllOk(op.rest) && Foreign(DecodeAll(op.rest))
      && WholeWords(op.spill) && WholeFate(op.appendFate) && WholeFate(op.compactFate) && !op.compactFate.Garbled?
  }

  /** The log on the device is that of a directory. */
  ghost predicate Kept(log: seq<Attr>, base: nat) {
    AllOk(log) && DirMap.Orderly(DecodeAll(log), base) && DirSplit.Count(DecodeAll(log)) <= 0x3ff
  }

  /** There is nothing to be committed, or the pair has no id left for a new name. */
  ghost predicate Nothing(log: seq<DirLog.Entry>, change: Change) {
    match change
    case Put(name, kind, body) =>
      if DirMap.Exists(log, name) then body == [] else DirSplit.Count(log) >= 0x3ff
    case Drop(name) => !DirMap.Exists(log, name)
  }

  /** What is committed, and what a compaction in place of the append would write. */
  ghost predicate Prescribed(log: seq<DirLog.Entry>, op: Op, base: nat, attrs: seq<Attr>, contents: seq<Attr>,
                             count: nat)
    requires op.Write?
  {
    exists r: DirSearch.Match ::
      && Answers(log, base, op.change.name, r) && AllOk(attrs) && AllOk(contents)
      && DecodeAll(attrs) == Entries(op.change, r) + DecodeAll(op.delta)
      && DirLog.AllWellFormed(log + DecodeAll(attrs)) && count == DirSplit.Count(log + DecodeAll(attrs))
      && DecodeAll(contents) == DirMap.Contents(log + DecodeAll(attrs), DecodeAll(op.rest), count)
  }

  function StepOf(op: Op, attrs: seq<Attr>, contents: seq<Attr>, count: nat): Step
    requires op.Write?
  {
    CommitStep(attrs, contents, count, op.left, op.spill, op.appendFate, op.compactFate)
  }

  /** What a step does to the log, bit by bit. */
  ghost predicate Does(v: Seen, op: Op, base: nat, v': Seen, blockSize: nat, progSize: nat)
    requires progSize > 0
  {
    match op
    case Look => Moves(v, FetchStep, v', blockSize, progSize)
    case Lose => Moves(v, PowerStep, v', blockSize, progSize)
    case Write(change, _, _, _, _, _, _) =>
      if !v.usable || Nothing(DecodeAll(v.log), change) then v' == v
      else exists attrs, contents, count: nat ::
        Prescribed(DecodeAll(v.log), op, base, attrs, contents, count)
        && Moves(v, StepOf(op, attrs, contents, count), v', blockSize, progSize)
  }

  /** What it does to the directory. */
  ghost predicate Becomes(before: seq<DirLog.Entry>, op: Op, after: seq<DirLog.Entry>) {
    DirMap.Same(before, after) || (op.Write? && Changed(before, op.change, after))
  }

  /** The commit of a directory, with or without the compaction: it is a directory again, with the change in it. */
  lemma CommittedChange(log: seq<Attr>, op: Op, base: nat, r: DirSearch.Match, attrs: seq<Attr>)
    requires Kept(log, base) && op.Write? && ChangeOk(op.change) && Answers(DecodeAll(log), base, op.change.name, r)
    requires AllOk(attrs) && Entries(op.change, r) != [] && Foreign(DecodeAll(op.delta))
    requires DecodeAll(attrs) == Entries(op.change, r) + DecodeAll(op.delta)
    ensures var all := DecodeAll(log) + DecodeAll(attrs);
            && DecodeAll(log + attrs) == all && DirMap.Orderly(all, base) && Changed(DecodeAll(log), op.change, all)
            && DirSplit.Count(all) == DirSplit.Count(DecodeAll(log)) + Grows(op.change, r)
  {
    hide DirMap.Orderly, DirSplit.Count, DecodeAll, DirMap.Value, Entries, Ok;
    var before, es, delta := DecodeAll(log), Entries(op.change, r), DecodeAll(op.delta);
    DecodeConcat(log, attrs);
    EntriesChange(before, base, op.change, r);
    DirMap.ForeignAll(before + es, base, delta);
    assert before + (es + delta) == before + es + delta;
    ChangedThen(before, op.change, before + es, before + es + delta);
  }

  lemma ChangedThen(a: seq<DirLog.Entry>, change: Change, b: seq<DirLog.Entry>, c: seq<DirLog.Entry>)
    requires Changed(a, change, b) && DirMap.Same(b, c)
    ensures Changed(a, change, c)
  {
    hide DirMap.Value, DirMap.Exists, DirMap.Overlaid;
  }

  lemma CompactedChange(log: seq<Attr>, op: Op, base: nat, attrs: seq<Attr>, contents: seq<Attr>, count: nat)
    requires var all := DecodeAll(log) + DecodeAll(attrs);
             && DirMap.Orderly(all, base) && count == DirSplit.Count(all) && op.Write? && Foreign(DecodeAll(op.rest))
             && DecodeAll(contents) == DirMap.Contents(all, DecodeAll(op.rest), count)
             && Changed(DecodeAll(log), op.change, all)
    ensures DirMap.Orderly(DecodeAll(contents), base) && DirSplit.Count(DecodeAll(contents)) == count
    ensures Changed(DecodeAll(log), op.change, DecodeAll(contents))
  {
    hide DirMap.Orderly, DirSplit.Count, DecodeAll, DirMap.Value, DirMap.Contents;
    var all := DecodeAll(log) + DecodeAll(attrs);
    DirMap.CompactSame(all, base, DecodeAll(op.rest));
    ChangedThen(DecodeAll(log), op.change, all, DecodeAll(contents));
  }

  lemma SameRefl(log: seq<DirLog.Entry>)
    ensures DirMap.Same(log, log)
  {
  }

  lemma BothOk(a: seq<Attr>, b: seq<Attr>)
    requires AllOk(a) && AllOk(b)
    ensures AllOk(a + b)
  {
  }

  /** A step leaves the log, or what was appended, or the compacted contents. */
  lemma ThreeLogs(v: Seen, step: Step, after: seq<Attr>, blockSize: nat)
    requires Follows(v, step, after, blockSize)
    ensures after == v.log || (step.CommitStep? && (after == v.log + step.attrs || after == step.contents))
  {
  }

  /** All that is left after the commit of a change is a directory, the old one or the new one. */
  lemma AfterCommit(v: Seen, op: Op, base: nat, r: DirSearch.Match, attrs: seq<Attr>, contents: seq<Attr>, count: nat,
                    v': Seen, blockSize: nat, progSize: nat)
    requires progSize > 0 && Kept(v.log, base) && op.Write? && OpOk(op, blockSize)
             && Answers(DecodeAll(v.log), base, op.change.name, r)
    requires AllOk(attrs) && AllOk(contents) && Entries(op.change, r) != []
    requires DecodeAll(attrs) == Entries(op.change, r) + DecodeAll(op.delta)
    requires var all := DecodeAll(v.log) + DecodeAll(attrs);
             && DirLog.AllWellFormed(all) && count == DirSplit.Count(all) && count <= 0x3ff
             && DecodeAll(contents) == DirMap.Contents(all, DecodeAll(op.rest), count)
    requires Moves(v, StepOf(op, attrs, contents, count), v', blockSize, progSize)
    ensures Kept(v'.log, base) && Becomes(DecodeAll(v.log), op, DecodeAll(v'.log))
  {
    hide DirMap.Orderly, DirSplit.Count, DecodeAll, DirMap.Same, Changed, DirMap.Contents, Follows, Ok, Entries,
      Answers;
    CommittedChange(v.log, op, base, r, attrs);
    CompactedChange(v.log, op, base, attrs, contents, count);
    ThreeLogs(v, StepOf(op, attrs, contents, count), v'.log, blockSize);
    BothOk(v.log, attrs);
    SameRefl(DecodeAll(v.log));
  }

  /** The directory after a fetch: what it holds, where the name is or belongs, and the count. */
  method Search(p: Pair, name: seq<Flash.Byte>, ghost base: nat)
    returns (log: seq<Attr>, r: DirSearch.Match, count: nat)
    requires p.Usable() && Kept(p.log, base)
    ensures log == p.log && Answers(DecodeAll(log), base, name, r) && count == DirSplit.Count(DecodeAll(log))
  {
    hide DirMap.Orderly, DecodeAll, Scan, FetchBlock, Superseded;
    var found := Fetch(p.halves[p.cur].block, p.progSize);
    HoldsFetch(p.halves[p.main], p.progSize, p.log, p.end, p.endTag);
    log := found.attrs;
    OrderlySearch(DecodeAll(log), base);
    r, count := DirSearch.FetchMatch(DecodeAll(log), name, None, base);
  }

  lemma OrderlySearch(log: seq<DirLog.Entry>, base: nat)
    requires DirMap.Orderly(log, base)
    ensures DirSearch.Disciplined(log, base) && DirLog.AllWellFormed(log) && base <= DirSplit.Count(log)
  {
  }

  /** One block does not hold the directory with the change, even compacted. */
  ghost predicate Full(log: seq<DirLog.Entry>, op: Op, base: nat, blockSize: nat)
    requires op.Write?
  {
    exists attrs, contents, count: nat ::
      Prescribed(log, op, base, attrs, contents, count) && !HasRoom(4, NULL, contents, blockSize)
  }

  /** The power lasts, and one block holds the directory with the change. */
  ghost predicate OpLasts(log: seq<DirLog.Entry>, op: Op, base: nat, blockSize: nat) {
    op.Write? ==> Alive(op.appendFate) && op.compactFate.Survives? && !Full(log, op, base, blockSize)
  }

  /** And nothing but the commit gets to the device. */
  ghost predicate Undisturbed(log: seq<DirLog.Entry>, op: Op, base: nat, blockSize: nat) {
    OpLasts(log, op, base, blockSize) && (op.Write? ==> op.spill == 0 && op.appendFate.Survives?)
  }

  /** A change that the power lasts for leaves the directory usable, unless it is missed. */
  ghost predicate StaysReady(v: Seen, op: Op, base: nat, v': Seen, missed: bool, blockSize: nat) {
    op.Write? && OpLasts(DecodeAll(v.log), op, base, blockSize) && v.usable ==> v'.usable || missed
  }

  lemma StepLasts(log: seq<DirLog.Entry>, op: Op, base: nat, attrs: seq<Attr>, contents: seq<Attr>, count: nat,
                  blockSize: nat)
    requires op.Write? && Prescribed(log, op, base, attrs, contents, count)
    ensures OpLasts(log, op, base, blockSize) ==> Lasts(StepOf(op, attrs, contents, count), blockSize)
    ensures Undisturbed(log, op, base, blockSize) ==> !Incomplete(StepOf(op, attrs, contents, count), blockSize)
  {
    hide Prescribed, HasRoom;
  }

  /** lfs_dir_commit of a change, with the search before it and the compaction it falls back to. */
  method Update(p: Pair, op: Op, ghost base: nat) returns (usable: bool, missed: bool)
    requires p.Usable() && op.Write? && OpOk(op, p.blockSize) && Kept(p.log, base)
    modifies p
    ensures Kept(p.log, base) && Becomes(DecodeAll(old(p.log)), op, DecodeAll(p.log))
    ensures p.progSize > 0 && Does(old(p.Now(true)), op, base, p.Now(usable), p.blockSize, p.progSize)
    ensures if missed then p.Misled() && !usable else p.Stored() && (usable ==> p.Usable())
    ensures missed ==> !Undisturbed(DecodeAll(old(p.log)), op, base, p.blockSize)
    ensures OpLasts(DecodeAll(old(p.log)), op, base, p.blockSize) ==> usable || missed
  {
    hide Pair.Misled, Pair.Stored, Pair.Usable, DecodeAll, EncodeAll, AllOk, Storable, Foreign, Scan, FetchBlock,
      Superseded, DirMap.Orderly, DirMap.Same, Changed, Entries, Answers, DirMap.Contents, Moves, ChangeOk,
        DirSplit.Count, Prescribed, StepOk, StepOf, Incomplete, Pair.Fooled, Undisturbed, OpLasts, Lasts;
    var log, r, count := Search(p, op.change.name, base);
    ghost var before := p.Now(true);
    p.UsableIsSound();
    p.StoredSizes();
    var es := Entries(op.change, r);
    NothingToDo(DecodeAll(log), base, op.change, r);
    SameRefl(DecodeAll(log));
    if es == [] || (op.change.Put? && r.Insert? && count >= 0x3ff) {
      return true, false;
    }
    Planned(log, op, base, r, count);
    var attrs := EncodeAll(es) + op.delta;
    count := count + Grows(op.change, r);
    var contents := Rewritten(log, attrs, None, op.rest, count);
    NoneMoved(log, attrs);
    StepIsOk(op, attrs, contents, count, p.blockSize);
    var step := CommitStep(attrs, contents, count, op.left, op.spill, op.appendFate, op.compactFate);
    StepIs(op, attrs, contents, count, step);
    usable, missed := p.Take(step, true);
    AfterCommit(before, op, base, r, attrs, contents, count, p.Now(usable), p.blockSize, p.progSize);
    IsPrescribed(DecodeAll(log), op, base, r, attrs, contents, count);
    StepLasts(DecodeAll(log), op, base, attrs, contents, count, p.blockSize);
  }

  lemma StepIs(op: Op, attrs: seq<Attr>, contents: seq<Attr>, count: nat, step: Step)
    requires op.Write?
    requires step == CommitStep(attrs, contents, count, op.left, op.spill, op.appendFate, op.compactFate)
    ensures step == StepOf(op, attrs, contents, count)
  {
  }

  lemma NoneMoved(log: seq<Attr>, attrs: seq<Attr>)
    ensures Pending(log, attrs, None) == DecodeAll(log) + DecodeAll(attrs)
  {
    hide DecodeAll;
  }

  lemma NothingToDo(log: seq<DirLog.Entry>, base: nat, change: Change, r: DirSearch.Match)
    requires DirMap.Orderly(log, base) && Answers(log, base, change.name, r)
    ensures Nothing(log, change) <==>
              Entries(change, r) == [] || (change.Put? && r.Insert? && DirSplit.Count(log) >= 0x3ff)
  {
    hide DirMap.Orderly, DirMap.Exists, DirSplit.Count;
    AnswerExists(log, base, change.name, r);
    if change.Put? && r.Hit? && change.body != [] {
      assert DirMap.At(change.body, r.id) != [];
    }
  }

  /** The entries of a commit, as tags, are committed behind the log. */
  lemma Planned(log: seq<Attr>, op: Op, base: nat, r: DirSearch.Match, count: nat)
    requires Kept(log, base) && op.Write? && ChangeOk(op.change) && Answers(DecodeAll(log), base, op.change.name, r)
    requires AllOk(op.delta) && Foreign(DecodeAll(op.delta)) && count == DirSplit.Count(DecodeAll(log))
    requires Entries(op.change, r) != [] && !(op.change.Put? && r.Insert? && count >= 0x3ff)
    ensures forall e <- Entries(op.change, r) :: Storable(e)
    ensures var attrs := EncodeAll(Entries(op.change, r)) + op.delta;
            && attrs != [] && AllOk(attrs) && DecodeAll(attrs) == Entries(op.change, r) + DecodeAll(op.delta)
            && DirMap.Orderly(DecodeAll(log) + DecodeAll(attrs), base)
            && DirLog.AllWellFormed(DecodeAll(log)) && DirLog.AllWellFormed(DecodeAll(attrs))
            && 0 <= count + Grows(op.change, r) == DirSplit.Count(DecodeAll(log) + DecodeAll(attrs)) <= 0x3ff
  {
    hide DecodeAll, EncodeAll, Storable, Foreign, DirMap.Orderly, DirMap.Value, DirSplit.Count, Entries, Answers, Ok,
      Changed;
    AnswerBelow(DecodeAll(log), base, op.change.name, r);
    EntriesStorable(op.change, r);
    var es := Entries(op.change, r);
    AllRoundTrip(es);
    var attrs := EncodeAll(es) + op.delta;
    DecodeConcat(EncodeAll(es), op.delta);
    BothOk(EncodeAll(es), op.delta);
    CommittedChange(log, op, base, r, attrs);
    WellFormedParts(DecodeAll(log), DecodeAll(attrs), base);
  }

  lemma AnswerBelow(log: seq<DirLog.Entry>, base: nat, name: seq<Flash.Byte>, r: DirSearch.Match)
    requires DirMap.Orderly(log, base) && Answers(log, base, name, r)
    ensures if r.Hit? then r.id < DirSplit.Count(log) else r.id <= DirSplit.Count(log)
  {
    hide DirLog.Column, DirSplit.Count;
    DirMap.OrderlyFacts(log, base);
  }

  lemma WellFormedParts(a: seq<DirLog.Entry>, b: seq<DirLog.Entry>, base: nat)
    requires DirMap.Orderly(a + b, base)
    ensures DirLog.AllWellFormed(a) && DirLog.AllWellFormed(b) && DirSplit.Count(a + b) >= 0
  {
    DirMap.OrderlyFacts(a + b, base);
    assert forall i :: 0 <= i < |a| ==> a[i] == (a + b)[i];
    assert forall i :: 0 <= i < |b| ==> b[i] == (a + b)[|a| + i];
  }

  lemma StepIsOk(op: Op, attrs: seq<Attr>, contents: seq<Attr>, count: nat, blockSize: nat)
    requires op.Write? && OpOk(op, blockSize) && AllOk(attrs) && attrs != [] && AllOk(contents)
    ensures StepOk(StepOf(op, attrs, contents, count), blockSize)
  {
    hide AllOk, ChangeOk, Foreign, DecodeAll;
  }

  lemma IsPrescribed(log: seq<DirLog.Entry>, op: Op, base: nat, r: DirSearch.Match, attrs: seq<Attr>,
                     contents: seq<Attr>, count: nat)
    requires op.Write? && Answers(log, base, op.change.name, r) && AllOk(attrs) && AllOk(contents)
    requires DecodeAll(attrs) == Entries(op.change, r) + DecodeAll(op.delta)
    requires DirLog.AllWellFormed(log + DecodeAll(attrs)) && count == DirSplit.Count(log + DecodeAll(attrs))
    requires DecodeAll(contents) == DirMap.Contents(log + DecodeAll(attrs), DecodeAll(op.rest), count)
    ensures Prescribed(log, op, base, attrs, contents, count)
  {
    hide DecodeAll, Answers, AllOk, Entries, DirMap.Contents, DirSplit.Count;
  }

  /** The versions of a run: what each operation does to the log, and to what is stored under the names. */
  ghost predicate Performed(versions: seq<Seen>, ops: seq<Op>, base: nat, missed: bool, blockSize: nat, progSize: nat)
    requires progSize > 0
  {
    && |versions| <= |ops| + 1
    && forall i :: 0 <= i < |versions| - 1 ==>
         && Does(versions[i], ops[i], base, versions[i + 1], blockSize, progSize)
         && Becomes(DecodeAll(versions[i].log), ops[i], DecodeAll(versions[i + 1].log))
         && StaysReady(versions[i], ops[i], base, versions[i + 1], missed && i == |versions| - 2, blockSize)
  }

  lemma NothingPerformed(versions: seq<Seen>, ops: seq<Op>, base: nat, blockSize: nat, progSize: nat)
    requires progSize > 0 && |versions| == 1
    ensures Performed(versions, ops, base, false, blockSize, progSize)
  {
  }

  lemma PerformedNext(versions: seq<Seen>, ops: seq<Op>, base: nat, v: Seen, missed: bool, blockSize: nat,
                      progSize: nat)
    requires progSize > 0 && Performed(versions, ops, base, false, blockSize, progSize) && 0 < |versions| <= |ops|
    requires var i := |versions| - 1;
             && Does(versions[i], ops[i], base, v, blockSize, progSize)
             && Becomes(DecodeAll(versions[i].log), ops[i], DecodeAll(v.log))
             && StaysReady(versions[i], ops[i], base, v, missed, blockSize)
    ensures Performed(versions + [v], ops, base, missed, blockSize, progSize)
  {
    hide Does, Becomes, StaysReady, DecodeAll;
  }

  /**
    Any run of commits, fetches and losses of power: each step does to the log exactly what `Does`
    says, and to what is stored under the names either nothing or all of its change. The run stops
    early only where a checksum was fooled; otherwise the log read at the end is the one reached.
   */
  method Run(p: Pair, ops: seq<Op>, ghost base: nat) returns (missed: bool, attrs: seq<Attr>, ghost versions: seq<Seen>)
    requires p.Stored() && Kept(p.log, base) && forall i :: 0 <= i < |ops| ==> OpOk(ops[i], p.blockSize)
    modifies p
    ensures 0 < |versions| <= |ops| + 1 && versions[0] == old(p.Now(false)) && versions[|versions| - 1].log == p.log
    ensures forall i :: 0 <= i < |versions| ==> Kept(versions[i].log, base)
    ensures p.progSize > 0 && Performed(versions, ops, base, missed, p.blockSize, p.progSize)
    ensures missed ==>
              p.Misled() && |versions| > 1 && ops[|versions| - 2].Write?
              && !Undisturbed(DecodeAll(versions[|versions| - 2].log), ops[|versions| - 2], base, p.blockSize)
    ensures !missed ==> |versions| == |ops| + 1 && p.Usable() && p.Looked() && attrs == p.log
  {
    hide Pair.Misled, Pair.Stored, Pair.Usable, DecodeAll, Kept, OpOk, Becomes, Does, Pair.Looked, Pair.Current,
      Undisturbed, StaysReady, Performed;
    p.StoredSizes();
    var usable := false;
    versions := [p.Now(usable)];
    NothingPerformed(versions, ops, base, p.blockSize, p.progSize);
    for i := 0 to |ops|
      invariant p.Stored() && (usable ==> p.Usable())
      invariant |versions| == i + 1 && versions[0] == old(p.Now(false)) && versions[i] == p.Now(usable)
      invariant forall j :: 0 <= j <= i ==> Kept(versions[j].log, base)
      invariant Performed(versions, ops, base, false, p.blockSize, p.progSize)
    {
      usable, missed := Turn(p, ops[i], usable, base);
      PerformedNext(versions, ops, base, p.Now(usable), missed, p.blockSize, p.progSize);
      versions := versions + [p.Now(usable)];
      if missed {
        return true, [], versions;
      }
    }
    var ok, found := p.Mount();
    p.LookedErased();
    return false, found, versions;
  }

  /**
    A commit that was cut off counts if its first checksum was programmed. It does not if neither
    write came that far; it does if the append is undisturbed, and the compaction, should it come
    to that, fits and came that far.
   */
  lemma ChecksumDecides(v: Seen, op: Op, base: nat, v': Seen, blockSize: nat, progSize: nat)
    requires progSize > 0 && Kept(v.log, base) && op.Write? && OpOk(op, blockSize)
             && Does(v, op, base, v', blockSize, progSize)
    ensures !FirstDone(op.appendFate) && !FirstDone(op.compactFate) ==> v'.log == v.log
    ensures v.usable && !Nothing(DecodeAll(v.log), op.change) && op.spill == 0 && op.appendFate.Survives? ==>
              FirstDone(op.compactFate) && !Full(DecodeAll(v.log), op, base, blockSize) ==>
              Changed(DecodeAll(v.log), op.change, DecodeAll(v'.log))
  {
    hide DirMap.Orderly, DirSplit.Count, DecodeAll, Changed, DirMap.Contents, Ok, Entries, Answers, Nothing, HasRoom,
      ChangeOk;
    var log := DecodeAll(v.log);
    if v.usable && !Nothing(log, op.change) {
      var attrs, contents, count: nat :|
        Prescribed(log, op, base, attrs, contents, count)
        && Moves(v, StepOf(op, attrs, contents, count), v', blockSize, progSize);
      var r: DirSearch.Match :|
        && Answers(log, base, op.change.name, r) && AllOk(attrs) && AllOk(contents)
        && DecodeAll(attrs) == Entries(op.change, r) + DecodeAll(op.delta)
        && DirLog.AllWellFormed(log + DecodeAll(attrs)) && count == DirSplit.Count(log + DecodeAll(attrs))
        && DecodeAll(contents) == DirMap.Contents(log + DecodeAll(attrs), DecodeAll(op.rest), count);
      NothingToDo(log, base, op.change, r);
      CommittedChange(v.log, op, base, r, attrs);
      CompactedChange(v.log, op, base, attrs, contents, count);
    }
  }

  /**
    A look at the directory and then a change in which nothing is lost: it is appended to the log exactly
    if that is tried, which space that is not programmed behind an aligned end is enough for, and fits.
    Either way the change is there, and the next one finds such space again.
   */
  lemma LookAndWrite(v: Seen, v1: Seen, op: Op, base: nat, v2: Seen, blockSize: nat, progSize: nat)
    requires progSize > 0 && Kept(v.log, base) && op.Write? && OpOk(op, blockSize)
    requires Does(v, Look, base, v1, blockSize, progSize) && Does(v1, op, base, v2, blockSize, progSize)
    requires op.spill == 0 && op.appendFate.Survives? && op.compactFate.Survives?
    requires !Nothing(DecodeAll(v.log), op.change) && !Full(DecodeAll(v.log), op, base, blockSize)
    ensures Changed(DecodeAll(v.log), op.change, DecodeAll(v2.log))
    ensures v2.usable && v2.clean && v2.end % progSize == 0
    ensures exists attrs, contents, count: nat ::
              && Prescribed(DecodeAll(v.log), op, base, attrs, contents, count)
              && v2.log == if ((v.clean && v.end % progSize == 0) || count >= 0xff)
                              && HasRoom(v.end, v.tag, attrs, blockSize) then v.log + attrs else contents
  {
    hide DirMap.Orderly, DecodeAll, Changed, Nothing, HasRoom, ChangeOk, Prescribed, Moves, AllOk, Foreign;
    Looks(v, v1, blockSize, progSize);
    ChecksumDecides(v1, op, base, v2, blockSize, progSize);
    var log := DecodeAll(v.log);
    var attrs, contents, count: nat :|
      Prescribed(log, op, base, attrs, contents, count)
      && Moves(v1, StepOf(op, attrs, contents, count), v2, blockSize, progSize);
    assert HasRoom(4, NULL, contents, blockSize);
    FetchAndCommit(v, v1, StepOf(op, attrs, contents, count), v2, blockSize, progSize);
  }

  lemma Looks(v: Seen, v1: Seen, blockSize: nat, progSize: nat)
    requires progSize > 0 && Moves(v, FetchStep, v1, blockSize, progSize)
    ensures v1.log == v.log && v1.usable
  {
  }

  /** One step of a run. */
  method Turn(p: Pair, op: Op, ready: bool, ghost base: nat) returns (usable: bool, missed: bool)
    requires p.Stored() && Kept(p.log, base) && OpOk(op, p.blockSize) && (ready ==> p.Usable())
    modifies p
    ensures Kept(p.log, base) && Becomes(DecodeAll(old(p.log)), op, DecodeAll(p.log))
    ensures p.progSize > 0 && Does(old(p.Now(ready)), op, base, p.Now(usable), p.blockSize, p.progSize)
    ensures if missed then p.Misled() && op.Write? else p.Stored() && (usable ==> p.Usable())
    ensures missed ==> !Undisturbed(DecodeAll(old(p.log)), op, base, p.blockSize)
    ensures StaysReady(old(p.Now(ready)), op, base, p.Now(usable), missed, p.blockSize)
  {
    hide Pair.Misled, Pair.Stored, Pair.Usable, DecodeAll, Kept, DirMap.Same, Changed, Prescribed, Follows, Leaves,
      Nothing, Pair.Looked, Pair.Current, OpOk, Undisturbed, OpLasts;
    p.StoredSizes();
    SameRefl(DecodeAll(p.log));
    usable, missed := false, false;
    match op {
      case Look =>
        var ok, found := p.Mount();
        p.LookedErased();
        usable := true;
      case Lose =>
        p.PowerLoss();
      case Write(_, _, _, _, _, _, _) =>
        if ready {
          usable, missed := Update(p, op, base);
        }
    }
  }

  /** Reading an attribute by name, as lfs_stat does: a fetch, the search, and the walk back. */
  method Get(p: Pair, name: seq<Flash.Byte>, c: DirLog.Class, ghost base: nat) returns (r: Option<DirLog.Attr>)
    requires p.Usable() && Kept(p.log, base) && DirCompact.WantedClass(DirCompact.Compact, c)
    ensures r == DirMap.Value(DecodeAll(p.log), name, c)
  {
    hide DirMap.Orderly, DecodeAll, DirMap.Value, DirLog.Column, Answers;
    var log, m, count := Search(p, name, base);
    OrderlySearch(DecodeAll(log), base);
    DirMap.OrderlyFacts(DecodeAll(log), base);
    AnswerExists(DecodeAll(log), base, name, m);
    if m.Insert? {
      DirMap.NoName(DecodeAll(log), name, c);
      return None;
    }
    var found := DirLog.GetSlice(DecodeAll(log), c, m.id, None);
    DirMap.ValueAt(DecodeAll(log), name, m.id, c);
    return if found.Found? then Some(found.attr) else None;
  }
}
