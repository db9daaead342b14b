/** The rules of src/ports/resolve.rs, stated on the results alone: which range each project gets, and whose conflict it reports. */
module PortRules {
  import opened Basics
  import opened PortRanges

  /** The results of one pass among the first `n`, in input order. */
  function Pick(rs: seq<Resolved>, pass: nat, n: nat): seq<Placed>
    requires n <= |rs|
  {
    if n == 0 then []
    else Pick(rs, pass, n - 1) + Share(rs[n - 1], pass)
  }

  function Share(r: Resolved, pass: nat): seq<Placed>
  {
    if Pass(r.source) == pass then [Placed(r.range, r.name)] else []
  }

  /** What is placed before project `i`: the earlier passes, then its own pass up to it. */
  function Earlier(rs: seq<Resolved>, i: nat): seq<Placed>
    requires i < |rs|
  {
    match Pass(rs[i].source)
    case 1 => Pick(rs, 1, i)
    case 2 => Pick(rs, 1, |rs|) + Pick(rs, 2, i)
    case _ => Pick(rs, 1, |rs|) + Pick(rs, 2, |rs|) + Pick(rs, 3, i)
  }

  /** The owner of the first of them that overlaps. */
  ghost predicate NamesFirst(o: Option<string>, range: Range, placed: seq<Placed>)
  {
    match o
    case None => Clears(range, placed)
    case Some(owner) =>
      exists a | 0 <= a < |placed| ::
        placed[a].owner == owner && Overlaps(placed[a].range, range) && Clears(range, placed[..a])
  }

  /** The owner of the last of them that overlaps. */
  ghost predicate NamesLast(o: Option<string>, range: Range, placed: seq<Placed>)
  {
    match o
    case None => Clears(range, placed)
    case Some(owner) =>
      exists a | 0 <= a < |placed| ::
        placed[a].owner == owner && Overlaps(placed[a].range, range) && Clears(range, placed[a + 1..])
  }

  predicate Free(k: int, size: Port, placed: seq<Placed>)
    requires size >= 1
  {
    k >= 0 && 4000 + k * size + size - 1 <= 65535 && Clears(BlockAt(k, size), placed)
  }

  function BlockAt(k: int, size: Port): Range
    requires size >= 1 && k >= 0 && 4000 + k * size + size - 1 <= 65535
  {
    assert k * size >= 0;
    Range(4000 + k * size, 4000 + k * size + size - 1)
  }

  /** The least free block without a conflict, or, if there is none, the last ports there are. */
  ghost predicate LeastBlock(r: Resolved, size: Port, placed: seq<Placed>)
    requires size >= 1
  {
    if exists k :: Free(k, size, placed) then
      && r.conflictWith.None?
      && exists k :: Free(k, size, placed) && r.range == BlockAt(k, size) && forall j | 0 <= j < k :: !Free(j, size, placed)
    else
      r.range.last == 65535 && r.range.first == 65535 - size + 1 && NamesLast(r.conflictWith, r.range, placed)
  }

  /** The width of a sticky range, at least 1 and no more than a `u16` holds; 100 without one. */
  predicate IsWidth(size: int, sticky: Option<Range>)
  {
    match sticky
    case None => size == 100
    case Some(r) => size == if r.first > r.last then 1 else Min(r.last - r.first + 1, 65535)
  }

  /** What the result of a project may be, given what is placed before it. */
  ghost predicate Right(p: Project, r: Resolved, placed: seq<Placed>)
  {
    && r.name == p.name
    && match r.source
       case LocalOverride => p.localOverride == Some(r.range) && NamesFirst(r.conflictWith, r.range, placed)
       case Declared => p.localOverride.None? && p.declared == Some(r.range) && NamesFirst(r.conflictWith, r.range, placed)
       case Sticky => p.Explicit().None? && p.sticky == Some(r.range) && Clears(r.range, placed) && r.conflictWith.None?
       case Assigned => p.Explicit().None? && exists size: Port :: size >= 1 && IsWidth(size, p.sticky) && LeastBlock(r, size, placed)
  }

  /** A sticky range is given up only if a range of the first pass, or an earlier kept one, overlaps it. */
  predicate GivenUp(p: Project, rs: seq<Resolved>, i: nat)
    requires i < |rs|
  {
    p.Explicit().None? && p.sticky.Some? && rs[i].source == Assigned ==>
      !Clears(p.sticky.value, Pick(rs, 1, |rs|) + Pick(rs, 2, i))
  }

  ghost predicate Resolution(ps: seq<Project>, rs: seq<Resolved>)
  {
    |rs| == |ps| && forall i | 0 <= i < |ps| :: Right(ps[i], rs[i], Earlier(rs, i)) && GivenUp(ps[i], rs, i)
  }

  // ----- the passes follow the rules -----

  ghost predicate IsFinal(ps: seq<Project>, rs: seq<Resolved>)
  {
    |rs| == |ps| && forall i | 0 <= i < |ps| :: Final(ps).results[i] == Some(rs[i])
  }

  /** A result of the first pass is the one its own step put. */
  lemma {:induction false} ExplicitAt(ps: seq<Project>, n: nat, i: nat)
    requires i < n <= |ps| && ps[i].Explicit().Some?
    ensures var range := ps[i].Explicit().value;
            Explicits(ps, n).results[i]
            == Some(Resolved(ps[i].name, range, ExplicitSource(ps[i]), FirstOverlap(Explicits(ps, i).placed, range)))
  {
    if i < n - 1 {
      ExplicitAt(ps, n - 1, i);
    }
  }

  lemma {:induction false} StickyAt(ps: seq<Project>, n: nat, i: nat)
    requires i < n <= |ps| && ps[i].Explicit().None?
    ensures Stickies(ps, n).results[i]
            == if ps[i].sticky.Some? && Clears(ps[i].sticky.value, Stickies(ps, i).placed)
               then Some(Resolved(ps[i].name, ps[i].sticky.value, Sticky, None)) else None
  {
    if i < n - 1 {
      StickyAt(ps, n - 1, i);
    } else {
      StickiesFill(ps, i);
    }
  }

  lemma {:induction false} AssignedAt(ps: seq<Project>, n: nat, i: nat)
    requires i < n <= |ps| && Stickies(ps, |ps|).results[i].None?
    ensures Assigneds(ps, n).results[i] == Some(Assign(Assigneds(ps, i).placed, ps[i]))
  {
    if i < n - 1 {
      AssignedAt(ps, n - 1, i);
    } else {
      AssignedsFill(ps, i);
      AssignedNow(ps, i);
    }
  }

  lemma AssignedNow(ps: seq<Project>, i: nat)
    requires i < |ps| && Assigneds(ps, i).results[i].None?
    ensures Assigneds(ps, i + 1).results[i] == Some(Assign(Assigneds(ps, i).placed, ps[i]))
  {
  }

  /** The final result of each project, by the pass that put it. */
  lemma FinalAt(ps: seq<Project>, rs: seq<Resolved>, i: nat)
    requires IsFinal(ps, rs) && i < |ps|
    ensures ps[i].Explicit().Some? ==>
              var range := ps[i].Explicit().value;
              rs[i] == Resolved(ps[i].name, range, ExplicitSource(ps[i]), FirstOverlap(Explicits(ps, i).placed, range))
    ensures ps[i].Explicit().None? ==>
              rs[i] == if ps[i].sticky.Some? && Clears(ps[i].sticky.value, Stickies(ps, i).placed)
                       then Resolved(ps[i].name, ps[i].sticky.value, Sticky, None) else Assign(Assigneds(ps, i).placed, ps[i])
  {
    AssignedsFill(ps, |ps|);
    StickiesFill(ps, |ps|);
    if ps[i].Explicit().Some? {
      ExplicitAt(ps, |ps|, i);
    } else {
      StickyAt(ps, |ps|, i);
      if Stickies(ps, |ps|).results[i].None? {
        AssignedAt(ps, |ps|, i);
      }
    }
  }

  lemma ExplicitStep(ps: seq<Project>, rs: seq<Resolved>, i: nat)
    requires IsFinal(ps, rs) && i < |ps|
    ensures Explicits(ps, i + 1).placed == Explicits(ps, i).placed + Share(rs[i], 1)
  {
    FinalAt(ps, rs, i);
  }

  lemma StickyStep(ps: seq<Project>, rs: seq<Resolved>, i: nat)
    requires IsFinal(ps, rs) && i < |ps|
    ensures Stickies(ps, i + 1).placed == Stickies(ps, i).placed + Share(rs[i], 2)
  {
    FinalAt(ps, rs, i);
    StickiesFill(ps, i);
  }

  lemma AssignedStep(ps: seq<Project>, rs: seq<Resolved>, i: nat)
    requires IsFinal(ps, rs) && i < |ps|
    ensures Assigneds(ps, i + 1).placed == Assigneds(ps, i).placed + Share(rs[i], 3)
  {
    FinalAt(ps, rs, i);
    StepsAgree(ps, i);
  }

  lemma {:induction false} ExplicitPlaced(ps: seq<Project>, rs: seq<Resolved>, n: nat)
    requires IsFinal(ps, rs) && n <= |ps|
    ensures Explicits(ps, n).placed == Pick(rs, 1, n)
  {
    if n > 0 {
      ExplicitPlaced(ps, rs, n - 1);
      ExplicitStep(ps, rs, n - 1);
    }
  }

  lemma {:induction false} StickyPlaced(ps: seq<Project>, rs: seq<Resolved>, n: nat)
    requires IsFinal(ps, rs) && n <= |ps|
    ensures Stickies(ps, n).placed == Pick(rs, 1, |ps|) + Pick(rs, 2, n)
  {
    if n == 0 {
      ExplicitPlaced(ps, rs, |ps|);
    } else {
      StickyPlaced(ps, rs, n - 1);
      StickyStep(ps, rs, n - 1);
      Associate(Pick(rs, 1, |ps|), Pick(rs, 2, n - 1), Share(rs[n - 1], 2));
    }
  }

  lemma {:induction false} AssignedPlaced(ps: seq<Project>, rs: seq<Resolved>, n: nat)
    requires IsFinal(ps, rs) && n <= |ps|
    ensures Assigneds(ps, n).placed == Pick(rs, 1, |ps|) + Pick(rs, 2, |ps|) + Pick(rs, 3, n)
  {
    if n == 0 {
      StickyPlaced(ps, rs, |ps|);
    } else {
      AssignedPlaced(ps, rs, n - 1);
      AssignedStep(ps, rs, n - 1);
      Associate(Pick(rs, 1, |ps|) + Pick(rs, 2, |ps|), Pick(rs, 3, n - 1), Share(rs[n - 1], 3));
    }
  }

  /** The third pass skips exactly the projects that have a result. */
  lemma StepsAgree(ps: seq<Project>, i: nat)
    requires i < |ps|
    ensures Assigneds(ps, i).results[i].Some? <==>
            ps[i].Explicit().Some? || (ps[i].sticky.Some? && Clears(ps[i].sticky.value, Stickies(ps, i).placed))
  {
    AssignedsFill(ps, i);
    StickiesFill(ps, |ps|);
    if ps[i].Explicit().None? {
      StickyAt(ps, |ps|, i);
    }
  }

  lemma {:induction false} FirstIsFirst(placed: seq<Placed>, range: Range)
    ensures NamesFirst(FirstOverlap(placed, range), range, placed)
  {
    if placed != [] && !Overlaps(placed[0].range, range) {
      FirstIsFirst(placed[1..], range);
      if FirstOverlap(placed, range).Some? {
        var a :| 0 <= a < |placed| - 1 && placed[1..][a].owner == FirstOverlap(placed, range).value
                 && Overlaps(placed[1..][a].range, range) && Clears(range, placed[1..][..a]);
        assert placed[..a + 1] == [placed[0]] + placed[1..][..a];
        assert placed[a + 1] == placed[1..][a];
      }
    } else if placed != [] {
      assert placed[..0] == [];
    }
  }

  lemma {:induction false} LastIsLast(placed: seq<Placed>, range: Range)
    ensures NamesLast(LastOverlap(placed, range), range, placed)
  {
    var n := |placed| - 1;
    if placed != [] && !Overlaps(placed[n].range, range) {
      LastIsLast(placed[..n], range);
      if LastOverlap(placed, range).Some? {
        var a :| 0 <= a < n && placed[..n][a].owner == LastOverlap(placed, range).value
                 && Overlaps(placed[..n][a].range, range) && Clears(range, placed[..n][a + 1..]);
        assert placed[a + 1..] == placed[..n][a + 1..] + [placed[n]];
        assert placed[a] == placed[..n][a];
      }
    } else if placed != [] {
      assert placed[n + 1..] == [];
    }
  }

  lemma FreeIs(k: int, size: Port, placed: seq<Placed>)
    requires size >= 1
    ensures Free(k, size, placed) <==> Fits(k, size) && Clears(Block(k, size), placed)
    ensures Fits(k, size) ==> k >= 0 && 4000 + k * size + size - 1 <= 65535 && Block(k, size) == BlockAt(k, size)
  {
  }

  /** A free block with none free below it. */
  lemma LeastIs(r: Resolved, size: Port, placed: seq<Placed>, k: int)
    requires size >= 1 && Free(k, size, placed) && r.range == BlockAt(k, size) && r.conflictWith.None?
    requires forall j | 0 <= j < k :: !Free(j, size, placed)
    ensures LeastBlock(r, size, placed)
  {
  }

  lemma NoneIs(r: Resolved, size: Port, placed: seq<Placed>)
    requires size >= 1 && forall k :: !Free(k, size, placed)
    requires r.range == Clamp(size) && NamesLast(r.conflictWith, r.range, placed)
    ensures LeastBlock(r, size, placed)
  {
  }

  lemma FreeBlockIsFree(placed: seq<Placed>, size: Port)
    requires size >= 1
    ensures FreeBlock(placed, size, 0).None? ==> forall k :: !Free(k, size, placed)
    ensures FreeBlock(placed, size, 0).Some? ==>
              exists k :: Free(k, size, placed) && FreeBlock(placed, size, 0).value == BlockAt(k, size)
                          && forall j | 0 <= j < k :: !Free(j, size, placed)
  {
    FreeBlockIsLeast(placed, size, 0);
    forall k
      ensures Free(k, size, placed) <==> Fits(k, size) && Clears(Block(k, size), placed)
    {
      FreeIs(k, size, placed);
    }
    if FreeBlock(placed, size, 0).Some? {
      var range := FreeBlock(placed, size, 0).value;
      var k :| k >= 0 && Fits(k, size) && range == Block(k, size) && Clears(range, placed)
               && forall i | 0 <= i < k && Fits(i, size) :: !Clears(Block(i, size), placed);
      FreeIs(k, size, placed);
      assert Free(k, size, placed);
    }
  }

  lemma AssignIsLeast(placed: seq<Placed>, p: Project)
    ensures var r := Assign(placed, p);
            && r.name == p.name && r.source == Assigned
            && exists size: Port :: size >= 1 && IsWidth(size, p.sticky) && LeastBlock(r, size, placed)
  {
    var size, r := WantedSize(p), Assign(placed, p);
    FreeBlockIsFree(placed, size);
    if FreeBlock(placed, size, 0).Some? {
      var k :| Free(k, size, placed) && r.range == BlockAt(k, size) && forall j | 0 <= j < k :: !Free(j, size, placed);
      LeastIs(r, size, placed, k);
    } else {
      LastIsLast(placed, r.range);
      NoneIs(r, size, placed);
    }
    assert IsWidth(size, p.sticky) && LeastBlock(r, size, placed);
  }

  /**
   * Every result follows the rules: explicit ranges as given, with the conflict
   * of the first one before it that overlaps; sticky ranges kept unless a range
   * placed before overlaps; everything else the least free block of its size,
   * or the last ports, with the conflict of the last one placed that overlaps.
   */
  lemma ResolutionFollowsRules(ps: seq<Project>, rs: seq<Resolved>)
    requires IsFinal(ps, rs)
    ensures Resolution(ps, rs)
  {
    forall i | 0 <= i < |ps|
      ensures Right(ps[i], rs[i], Earlier(rs, i)) && GivenUp(ps[i], rs, i)
    {
      FinalAt(ps, rs, i);
      if ps[i].Explicit().Some? {
        ExplicitPlaced(ps, rs, i);
        FirstIsFirst(Pick(rs, 1, i), ps[i].Explicit().value);
      } else {
        StickyPlaced(ps, rs, i);
        AssignedPlaced(ps, rs, i);
        AssignIsLeast(Assigneds(ps, i).placed, ps[i]);
      }
    }
  }
}
