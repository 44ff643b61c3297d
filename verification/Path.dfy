/**
  Path names (lfs.c:1071-1168): lfs_dir_find walks a path from left to right in constant memory
  and looks ahead from every name for a '..' that takes it back.
 */
module Path {
  import opened Util

  // ----- components -----

  /** strspn(s, "/") */
  function Slashes(s: string): (n: nat)
    ensures n <= |s| && (n < |s| ==> s[n] != '/')
  {
    if s == [] || s[0] != '/' then 0 else 1 + Slashes(s[1..])
  }

  /** strcspn(s, "/") */
  function NameLength(s: string): (n: nat)
    ensures n <= |s| && (n < |s| ==> s[n] == '/')
    ensures s != [] && s[0] != '/' ==> n > 0
  {
    if s == [] || s[0] == '/' then 0 else 1 + NameLength(s[1..])
  }

  /** What lies between the slashes. */
  function Components(s: string): seq<string>
    decreases |s|
  {
    var t := s[Slashes(s)..];
    var n := NameLength(t);
    if n == 0 then [] else [t[..n]] + Components(t[n..])
  }

  predicate IsDot(c: string) { c == "." }

  predicate IsUp(c: string) { c == ".." }

  predicate IsName(c: string) { !IsDot(c) && !IsUp(c) }

  // ----- the meaning of a path -----

  /** A name is pushed, '..' pops if there is anything to pop, and '.' does nothing. */
  function Normal(cs: seq<string>, stack: seq<string>): seq<string>
    decreases |cs|
  {
    if cs == [] then stack
    else if IsUp(cs[0]) then Normal(cs[1..], if stack == [] then [] else stack[..|stack| - 1])
    else if IsDot(cs[0]) then Normal(cs[1..], stack)
    else Normal(cs[1..], stack + [cs[0]])
  }

  // ----- looking ahead -----

  /**
    How many components pass until `depth` levels are taken back, if they are. The source takes
    '.' for a level; `dots` says whether that is done.
   */
  datatype Ahead = Never | After(count: nat)

  function OneMore(a: Ahead): Ahead { if a.Never? then a else After(a.count + 1) }

  function Look(cs: seq<string>, depth: nat, dots: bool): (a: Ahead)
    requires depth > 0
    ensures a.After? ==> 0 < a.count <= |cs|
    decreases |cs|
  {
    if cs == [] then Never
    else if IsUp(cs[0]) then if depth == 1 then After(1) else OneMore(Look(cs[1..], depth - 1, dots))
    else if IsDot(cs[0]) && !dots then OneMore(Look(cs[1..], depth, dots))
    else OneMore(Look(cs[1..], depth + 1, dots))
  }

  /** The names that the walk looks up. */
  function Walked(cs: seq<string>, dots: bool): seq<string>
    decreases |cs|
  {
    if cs == [] then []
    else if !IsName(cs[0]) then Walked(cs[1..], dots)
    else
      var a := Look(cs[1..], 1, dots);
      if a.Never? then [cs[0]] + Walked(cs[1..], dots) else Walked(cs[1..][a.count..], dots)
  }

  // ----- the walk is the meaning if '.' is no level -----

  /** What is never taken back stays at the bottom. */
  lemma {:induction false} StaysBelow(cs: seq<string>, base: seq<string>, top: seq<string>)
    requires top != [] && Look(cs, |top|, false).Never?
    ensures Normal(cs, base + top) == base + [top[0]] + Normal(cs, top[1..])
    decreases |cs|
  {
    if cs == [] {
      assert top == [top[0]] + top[1..];
    } else if IsUp(cs[0]) {
      var less := top[..|top| - 1];
      assert (base + top)[..|base + top| - 1] == base + less;
      StaysBelow(cs[1..], base, less);
      assert less[1..] == top[1..][..|top[1..]| - 1];
    } else if IsDot(cs[0]) {
      StaysBelow(cs[1..], base, top);
    } else {
      assert base + top + [cs[0]] == base + (top + [cs[0]]);
      StaysBelow(cs[1..], base, top + [cs[0]]);
      assert (top + [cs[0]])[1..] == top[1..] + [cs[0]];
    }
  }

  /** What is taken back leaves the stack as it was below. */
  lemma {:induction false} TakenBack(cs: seq<string>, base: seq<string>, top: seq<string>)
    requires top != [] && Look(cs, |top|, false).After?
    ensures Normal(cs, base + top) == Normal(cs[Look(cs, |top|, false).count..], base)
    decreases |cs|
  {
    if IsUp(cs[0]) {
      var less := top[..|top| - 1];
      assert (base + top)[..|base + top| - 1] == base + less;
      if |top| == 1 {
        assert base + less == base;
      } else {
        TakenBack(cs[1..], base, less);
      }
    } else if IsDot(cs[0]) {
      TakenBack(cs[1..], base, top);
    } else {
      assert base + top + [cs[0]] == base + (top + [cs[0]]);
      TakenBack(cs[1..], base, top + [cs[0]]);
    }
  }

  lemma {:induction false} WalkIsNormal(cs: seq<string>)
    ensures Walked(cs, false) == Normal(cs, [])
    decreases |cs|
  {
    if cs != [] {
      var c, rest := cs[0], cs[1..];
      if !IsName(c) {
        WalkIsNormal(rest);
      } else if Look(rest, 1, false).Never? {
        StaysBelow(rest, [], [c]);
        assert [] + [c] == [c] && [c][1..] == [];
        WalkIsNormal(rest);
      } else {
        TakenBack(rest, [], [c]);
        assert [] + [c] == [c];
        WalkIsNormal(rest[Look(rest, 1, false).count..]);
      }
    }
  }

  // ----- and in exactly which other cases -----

  lemma {:induction false} NoDotsNoMatter(cs: seq<string>, depth: nat)
    requires depth > 0 && forall c <- cs :: !IsDot(c)
    ensures Look(cs, depth, true) == Look(cs, depth, false)
    decreases |cs|
  {
    if cs != [] {
      if IsUp(cs[0]) {
        if depth > 1 {
          NoDotsNoMatter(cs[1..], depth - 1);
        }
      } else {
        NoDotsNoMatter(cs[1..], depth + 1);
      }
    }
  }

  /** Deeper down, or with '.' for a level, it takes longer to be taken back. */
  lemma {:induction false} LookLater(cs: seq<string>, depth: nat, deeper: nat, dots: bool)
    requires 0 < depth <= deeper && Look(cs, deeper, dots).After?
    ensures Look(cs, depth, false).After? && (dots ==> Look(cs, depth, true).After?)
    decreases |cs|
  {
    if IsUp(cs[0]) {
      if depth > 1 {
        LookLater(cs[1..], depth - 1, deeper - 1, dots);
      }
    } else if IsDot(cs[0]) {
      if dots {
        LookLater(cs[1..], depth, deeper + 1, dots);
        LookLater(cs[1..], depth + 1, deeper + 1, dots);
      } else {
        LookLater(cs[1..], depth, deeper, dots);
      }
    } else {
      LookLater(cs[1..], depth + 1, deeper + 1, dots);
    }
  }

  /** The names that are not taken back, one by one. */
  function Survivors(cs: seq<string>, dots: bool): seq<string>
    decreases |cs|
  {
    if cs == [] then []
    else if IsName(cs[0]) && Look(cs[1..], 1, dots).Never? then [cs[0]] + Survivors(cs[1..], dots)
    else Survivors(cs[1..], dots)
  }

  lemma {:induction false} NoneSurvives(cs: seq<string>, depth: nat, dots: bool)
    requires depth > 0 && Look(cs, depth, dots).After?
    ensures Survivors(cs, dots) == Survivors(cs[Look(cs, depth, dots).count..], dots)
    decreases |cs|
  {
    if IsUp(cs[0]) {
      if depth > 1 {
        NoneSurvives(cs[1..], depth - 1, dots);
      }
    } else if IsDot(cs[0]) && !dots {
      NoneSurvives(cs[1..], depth, dots);
    } else {
      NoneSurvives(cs[1..], depth + 1, dots);
      LookLater(cs[1..], 1, depth + 1, dots);
    }
  }

  lemma {:induction false} WalkSurvivors(cs: seq<string>, dots: bool)
    ensures Walked(cs, dots) == Survivors(cs, dots)
    decreases |cs|
  {
    if cs != [] {
      var rest := cs[1..];
      var a := Look(rest, 1, dots);
      if IsName(cs[0]) && a.After? {
        WalkSurvivors(rest[a.count..], dots);
        NoneSurvives(rest, 1, dots);
      } else {
        WalkSurvivors(rest, dots);
      }
    }
  }

  /** How many '..' there are. */
  function Ups(cs: seq<string>): nat {
    if cs == [] then 0 else (if IsUp(cs[0]) then 1 else 0) + Ups(cs[1..])
  }

  /** How many names there are, and '.' if they are counted. */
  function Levels(cs: seq<string>, dots: bool): nat {
    if cs == [] then 0 else (if IsName(cs[0]) || (IsDot(cs[0]) && dots) then 1 else 0) + Levels(cs[1..], dots)
  }

  /** Somewhere in what follows there have been more '..' than levels, by at least `depth`. */
  ghost predicate Outnumbered(cs: seq<string>, depth: nat, dots: bool) {
    exists k :: 0 < k <= |cs| && Ups(cs[..k]) >= Levels(cs[..k], dots) + depth
  }

  lemma FirstOfPrefix(cs: seq<string>, k: nat, dots: bool)
    requires 0 < k <= |cs|
    ensures Ups(cs[..k]) == (if IsUp(cs[0]) then 1 else 0) + Ups(cs[1..][..k - 1])
    ensures Levels(cs[..k], dots) ==
              (if IsName(cs[0]) || (IsDot(cs[0]) && dots) then 1 else 0) + Levels(cs[1..][..k - 1], dots)
  {
    assert cs[..k][1..] == cs[1..][..k - 1] && cs[..k][0] == cs[0];
  }

  /** Looking ahead finds exactly that. */
  lemma {:induction false} LookCounts(cs: seq<string>, depth: nat, dots: bool)
    requires depth > 0
    ensures Look(cs, depth, dots).After? <==> Outnumbered(cs, depth, dots)
    decreases |cs|
  {
    if cs != [] {
      var up := IsUp(cs[0]);
      var next: int := if up then depth - 1 else if IsDot(cs[0]) && !dots then depth else depth + 1;
      if next > 0 {
        LookCounts(cs[1..], next, dots);
        OutnumberedRest(cs, depth, next, dots);
      } else {
        FirstOfPrefix(cs, 1, dots);
        assert cs[1..][..0] == [];
        assert Ups(cs[..1]) >= Levels(cs[..1], dots) + depth;
      }
    }
  }

  lemma OutnumberedRest(cs: seq<string>, depth: nat, next: nat, dots: bool)
    requires cs != [] && depth > 0 && next > 0
    requires next == if IsUp(cs[0]) then depth - 1 else if IsDot(cs[0]) && !dots then depth else depth + 1
    ensures Outnumbered(cs, depth, dots) <==> Outnumbered(cs[1..], next, dots)
  {
    var rest := cs[1..];
    forall k | 0 < k <= |cs|
      ensures Ups(cs[..k]) >= Levels(cs[..k], dots) + depth <==>
                Ups(rest[..k - 1]) >= Levels(rest[..k - 1], dots) + next
    {
      FirstOfPrefix(cs, k, dots);
    }
    if k :| 0 < k <= |rest| && Ups(rest[..k]) >= Levels(rest[..k], dots) + next {
      assert Ups(cs[..k + 1]) >= Levels(cs[..k + 1], dots) + depth;
    }
    if k :| 0 < k <= |cs| && Ups(cs[..k]) >= Levels(cs[..k], dots) + depth {
      assert Ups(rest[..k - 1]) >= Levels(rest[..k - 1], dots) + next;
      assert k > 1 by {
        assert rest[..0] == [];
      }
    }
  }

  /** If '..' outnumber the names behind this name somewhere, they do so somewhere with '.' counted as names, too. */
  ghost predicate HarmlessAt(cs: seq<string>, i: nat)
    requires i < |cs|
  {
    IsName(cs[i]) && Outnumbered(cs[i + 1..], 1, false) ==> Outnumbered(cs[i + 1..], 1, true)
  }

  ghost predicate DotsHarmless(cs: seq<string>) {
    forall i :: 0 <= i < |cs| ==> HarmlessAt(cs, i)
  }

  lemma {:induction false} FewerSurvivors(cs: seq<string>)
    ensures |Survivors(cs, false)| <= |Survivors(cs, true)|
    ensures Survivors(cs, true) == Survivors(cs, false) <==> DotsHarmless(cs)
    decreases |cs|
  {
    if cs != [] {
      var rest := cs[1..];
      FewerSurvivors(rest);
      HarmlessRest(cs);
      assert cs[0 + 1..] == rest;
      LookCounts(rest, 1, false);
      LookCounts(rest, 1, true);
      if Look(rest, 1, true).After? {
        LookLater(rest, 1, 1, true);
      } else if IsName(cs[0]) && Look(rest, 1, false).After? {
        assert !HarmlessAt(cs, 0);
        assert |Survivors(cs, true)| > |Survivors(cs, false)|;
      } else if IsName(cs[0]) {
        assert Survivors(cs, true)[1..] == Survivors(rest, true) && Survivors(cs, false)[1..] == Survivors(rest, false);
      }
    }
  }

  lemma HarmlessRest(cs: seq<string>)
    requires cs != []
    ensures DotsHarmless(cs) <==> DotsHarmless(cs[1..]) && HarmlessAt(cs, 0)
  {
    forall i | 0 <= i < |cs| - 1
      ensures HarmlessAt(cs[1..], i) == HarmlessAt(cs, i + 1)
    {
      assert cs[1..][i + 1..] == cs[i + 2..];
    }
    if DotsHarmless(cs[1..]) && HarmlessAt(cs, 0) {
      forall i | 0 <= i < |cs|
        ensures HarmlessAt(cs, i)
      {
        if i > 0 {
          assert HarmlessAt(cs[1..], i - 1);
        }
      }
    }
  }

  /** The walk of the source looks up the names the path means, in order, exactly if no '.' gets in the way. */
  lemma WalkMeans(cs: seq<string>)
    ensures Walked(cs, true) == Normal(cs, []) <==> DotsHarmless(cs)
  {
    WalkSurvivors(cs, true);
    WalkSurvivors(cs, false);
    WalkIsNormal(cs);
    FewerSurvivors(cs);
  }

  /** In particular for paths without '.'. */
  lemma DotFreeMeans(cs: seq<string>)
    requires forall c <- cs :: !IsDot(c)
    ensures Walked(cs, true) == Normal(cs, [])
  {
    forall i | 0 <= i < |cs|
      ensures HarmlessAt(cs, i)
    {
      NoDotsNoMatter(cs[i + 1..], 1);
      LookCounts(cs[i + 1..], 1, false);
      LookCounts(cs[i + 1..], 1, true);
    }
    WalkMeans(cs);
  }

  lemma ComponentsSkip(s: string)
    ensures Components(s[Slashes(s)..]) == Components(s)
  {
  }

  lemma FirstComponent(t: string)
    requires t != [] ==> t[0] != '/'
    ensures if NameLength(t) == 0 then t == [] && Components(t) == []
            else Components(t) == [t[..NameLength(t)]] + Components(t[NameLength(t)..])
  {
    assert Slashes(t) == 0;
    assert t[0..] == t;
  }

  lemma {:induction false} NameStops(c: string, rest: string)
    requires c != [] && '/' !in c && (rest != [] ==> rest[0] == '/')
    ensures NameLength(c + rest) == |c|
    decreases |c|
  {
    assert (c + rest)[1..] == c[1..] + rest;
    if |c| > 1 {
      NameStops(c[1..], rest);
    } else {
      assert c[1..] + rest == rest;
    }
  }

  lemma SlashAhead(rest: string)
    ensures Components("/" + rest) == Components(rest)
  {
    var tail := "/" + rest;
    assert tail[1..] == rest;
    assert Slashes(tail) == 1 + Slashes(rest);
    assert tail[Slashes(tail)..] == rest[Slashes(rest)..];
    ComponentsSkip(tail);
    ComponentsSkip(rest);
    hide *;
  }

  /** Components put together with slashes come apart again. */
  lemma ComponentsOfJoin(c: string, rest: string)
    requires c != [] && '/' !in c
    ensures Components(c) == [c] && Components(c + "/" + rest) == [c] + Components(rest)
  {
    hide Components, NameLength;
    NameStops(c, []);
    assert c + [] == c && c[|c|..] == [] && c[..|c|] == c;
    FirstComponent(c);
    FirstComponent([]);
    NameOfNothing();
    var tail := "/" + rest;
    NameStops(c, tail);
    var s := c + tail;
    assert c + "/" + rest == s && s[..|c|] == c && s[|c|..] == tail;
    FirstComponent(s);
    SlashAhead(rest);
  }

  lemma NameOfNothing()
    ensures NameLength([]) == 0
  {
  }

  /** Going up from "a/." stays in a, though it should lead back to the root. */
  lemma DotIsALevel()
    ensures Components("a/./..") == ["a", ".", ".."]
    ensures Walked(["a", ".", ".."], true) == ["a"] && Normal(["a", ".", ".."], []) == []
  {
    hide Components, Walked, Look;
    assert "a/./.." == "a" + "/" + ("." + "/" + "..");
    ComponentsOfJoin("a", "." + "/" + "..");
    ComponentsOfJoin(".", "..");
    ComponentsOfJoin("..", "");
    var cs := ["a", ".", ".."];
    assert cs[1..] == [".", ".."] && [".", ".."][1..] == [".."] && [".."][1..] == [];
    LookStep([".", ".."], 1);
    LookStep([".."], 2);
    LookStep([], 1);
    WalkedStep(cs);
    WalkedStep([".", ".."]);
    WalkedStep([".."]);
    WalkedStep([]);
  }

  lemma WalkedStep(cs: seq<string>)
    ensures cs == [] ==> Walked(cs, true) == []
    ensures cs != [] && !IsName(cs[0]) ==> Walked(cs, true) == Walked(cs[1..], true)
    ensures cs != [] && IsName(cs[0]) ==>
              var a := Look(cs[1..], 1, true);
              Walked(cs, true) == if a.Never? then [cs[0]] + Walked(cs[1..], true) else Walked(cs[1..][a.count..], true)
  {
  }

  lemma LookStep(cs: seq<string>, depth: nat)
    requires depth > 0
    ensures cs == [] ==> Look(cs, depth, true) == Never
    ensures cs != [] && IsUp(cs[0]) ==>
              Look(cs, depth, true) == if depth == 1 then After(1) else OneMore(Look(cs[1..], depth - 1, true))
    ensures cs != [] && !IsUp(cs[0]) ==> Look(cs, depth, true) == OneMore(Look(cs[1..], depth + 1, true))
  {
  }

  // ----- the code -----

  /** lfs_dir_find; lookups succeed the first `hits` times. */
  method Find(path: string, hits: nat) returns (names: seq<string>, ok: bool)
    ensures ok <==> |Walked(Components(path), true)| <= hits
    ensures names == Walked(Components(path), true)[..Min(hits + 1, |Walked(Components(path), true)|)]
  {
    hide Walked, Components, Slashes, NameLength, Look;
    names := [];
    ghost var all := Walked(Components(path), true);
    var name := path;
    while true
      invariant |names| <= hits && all == names + Walked(Components(name), true)
      decreases |name|
    {
      ComponentsSkip(name);
      name := name[Slashes(name)..];
      var n := NameLength(name);
      FirstComponent(name);
      WalkedStep(Components(name));
      if name[..n] == "." || name[..n] == ".." {
        name := name[n..];
        continue;
      }
      // a name that is taken back is not looked up
      var matched, rest := LookAhead(name[n..]);
      LookStep(Components(name[n..]), 1);
      if matched {
        name := rest;
        continue;
      }
      if name == [] {
        return names, true;
      }
      assert all == names + [name[..n]] + Walked(Components(name[n..]), true);
      names := names + [name[..n]];
      if |names| > hits {
        return names, false;
      }
      name := name[n..];
    }
  }

  /** The inner loop: whether a '..' matches, and what follows it. */
  method LookAhead(from: string) returns (matched: bool, rest: string)
    ensures matched <==> Look(Components(from), 1, true).After?
    ensures matched ==>
              |rest| <= |from| && Components(rest) == Components(from)[Look(Components(from), 1, true).count..]
  {
    hide Components, Slashes, NameLength, Look;
    var suffix := from;
    var depth: nat := 1;
    ghost var passed := 0;
    while true
      invariant depth > 0 && |suffix| <= |from|
      invariant passed <= |Components(from)| && Components(suffix) == Components(from)[passed..]
      invariant var a, b := Look(Components(from), 1, true), Look(Components(suffix), depth, true);
                a == if b.Never? then Never else After(b.count + passed)
      decreases |suffix|
    {
      ComponentsSkip(suffix);
      suffix := suffix[Slashes(suffix)..];
      var n := NameLength(suffix);
      FirstComponent(suffix);
      LookStep(Components(suffix), depth);
      if n == 0 {
        return false, "";
      }
      assert Components(suffix[n..]) == Components(suffix)[1..] == Components(from)[passed..][1..] ==
               Components(from)[passed + 1..];
      passed := passed + 1;
      if suffix[..n] == ".." {
        depth := depth - 1;
        if depth == 0 {
          return true, suffix[n..];
        }
      } else {
        depth := depth + 1;
      }
      suffix := suffix[n..];
    }
  }
}
