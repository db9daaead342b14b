/** Port-range resolution (src/ports/resolve.rs): explicit ranges, then sticky ones, then assigned blocks. */
module PortRanges {
  import opened Basics

  const MAX_PORT: int := 65535
  const SCAN_BASE: int := 4000
  const DEFAULT_RANGE_SIZE: int := 100

  /** A `u16`. */
  type Port = x: int | 0 <= x <= 65535

  datatype Range = Range(first: Port, last: Port)

  datatype Project = Project(name: string, declared: Option<Range>, sticky: Option<Range>, localOverride: Option<Range>)
  {
    function Explicit(): Option<Range> { if localOverride.Some? then localOverride else declared }
  }

  datatype Source = LocalOverride | Declared | Sticky | Assigned

  datatype Resolved = Resolved(name: string, range: Range, source: Source, conflictWith: Option<string>)

  datatype Placed = Placed(range: Range, owner: string)

  predicate Overlaps(a: Range, b: Range) { a.first <= b.last && b.first <= a.last }

  predicate Clears(range: Range, placed: seq<Placed>)
  {
    forall p <- placed :: !Overlaps(p.range, range)
  }

  /** Owner of the first placed range that overlaps, if any. */
  function FirstOverlap(placed: seq<Placed>, range: Range): (o: Option<string>)
    ensures o.None? <==> Clears(range, placed)
  {
    if placed == [] then None
    else if Overlaps(placed[0].range, range) then Some(placed[0].owner)
    else FirstOverlap(placed[1..], range)
  }

  function LastOverlap(placed: seq<Placed>, range: Range): (o: Option<string>)
    ensures o.None? <==> Clears(range, placed)
  {
    if placed == [] then None
    else
      var p := placed[|placed| - 1];
      if Overlaps(p.range, range) then Some(p.owner) else LastOverlap(placed[..|placed| - 1], range)
  }

  // ----- the block scan -----

  function Block(k: int, size: Port): Range
    requires size >= 1 && k >= 0 && SCAN_BASE + k * size + size - 1 <= MAX_PORT
  {
    assert k * size >= 0;
    Range(SCAN_BASE + k * size, SCAN_BASE + k * size + size - 1)
  }

  predicate Fits(k: int, size: Port) { k >= 0 && SCAN_BASE + k * size + size - 1 <= MAX_PORT }

  /** Which block a scan from block `k` finds. */
  function FreeBlock(placed: seq<Placed>, size: Port, k: nat): (r: Option<Range>)
    requires size >= 1
    decreases MAX_PORT - k * size
  {
    if !Fits(k, size) then None
    else if Clears(Block(k, size), placed) then Some(Block(k, size))
    else
      assert (k + 1) * size == k * size + size;
      FreeBlock(placed, size, k + 1)
  }

  /** The scan answers the least free block, and None only when no block up to the last port is free. */
  lemma {:induction false} FreeBlockIsLeast(placed: seq<Placed>, size: Port, k: nat)
    requires size >= 1
    ensures match FreeBlock(placed, size, k)
            case Some(range) =>
              exists j :: j >= k && Fits(j, size) && range == Block(j, size) && Clears(range, placed)
                && forall i | k <= i < j && Fits(i, size) :: !Clears(Block(i, size), placed)
            case None => forall j | j >= k && Fits(j, size) :: !Clears(Block(j, size), placed)
    decreases MAX_PORT - k * size
  {
    if !Fits(k, size) {
      forall j | j >= k
        ensures !Fits(j, size)
      {
        assert j * size >= k * size by { Monotone(k, j, size); }
      }
    } else if !Clears(Block(k, size), placed) {
      assert (k + 1) * size == k * size + size;
      FreeBlockIsLeast(placed, size, k + 1);
    }
  }

  lemma Monotone(a: int, b: int, size: int)
    requires a <= b && size >= 0
    ensures a * size <= b * size
  {
  }

  lemma NextBlock(k: nat, size: int)
    ensures (k + 1) * size == k * size + size
  {
  }

  method FirstFreeBlock(placed: seq<Placed>, wanted: Port) returns (r: Option<Range>)
    ensures r == FreeBlock(placed, if wanted < 1 then 1 else wanted, 0)
  {
    var size: Port := if wanted < 1 then 1 else wanted;
    var candidate := SCAN_BASE;
    ghost var k: nat := 0;
    while true
      invariant candidate == SCAN_BASE + k * size
      invariant FreeBlock(placed, size, 0) == FreeBlock(placed, size, k)
      decreases MAX_PORT - candidate
    {
      var end := candidate + size - 1;
      if end > MAX_PORT {
        return None;
      }
      var block := Range(candidate, end);
      var taken := AnyOverlap(placed, block);
      if !taken {
        return Some(block);
      }
      NextBlock(k, size);
      candidate := candidate + size;
      k := k + 1;
    }
  }

  method AnyOverlap(placed: seq<Placed>, range: Range) returns (any: bool)
    ensures any <==> !Clears(range, placed)
  {
    for i := 0 to |placed|
      invariant forall j | 0 <= j < i :: !Overlaps(placed[j].range, range)
    {
      if Overlaps(placed[i].range, range) {
        return true;
      }
    }
    return false;
  }

  // ----- the three passes -----

  /** Results so far, the placed ranges, and the project placed at each position. */
  datatype Table = Table(results: seq<Option<Resolved>>, placed: seq<Placed>, order: seq<nat>)

  function Put(t: Table, i: nat, r: Resolved): Table
    requires i < |t.results|
  {
    Table(t.results[i := Some(r)], t.placed + [Placed(r.range, r.name)], t.order + [i])
  }

  function Empty(n: nat): Table { Table(seq(n, _ => None), [], []) }

  function ExplicitSource(p: Project): Source { if p.localOverride.Some? then LocalOverride else Declared }

  /** Pass 1 over the first `n` projects: explicit ranges, in input order. */
  function Explicits(ps: seq<Project>, n: nat): (t: Table)
    requires n <= |ps|
    ensures |t.results| == |ps|
  {
    if n == 0 then Empty(|ps|)
    else
      var t := Explicits(ps, n - 1);
      var p := ps[n - 1];
      if p.Explicit().None? then t
      else
        var range := p.Explicit().value;
        Put(t, n - 1, Resolved(p.name, range, ExplicitSource(p),
                               FirstOverlap(t.placed, range)))
  }

  /** Pass 2a: every sticky range that clears what is placed. */
  function Stickies(ps: seq<Project>, n: nat): (t: Table)
    requires n <= |ps|
    ensures |t.results| == |ps|
  {
    if n == 0 then Explicits(ps, |ps|)
    else
      var t := Stickies(ps, n - 1);
      var p := ps[n - 1];
      if t.results[n - 1].Some? || p.sticky.None? || !Clears(p.sticky.value, t.placed) then t
      else Put(t, n - 1, Resolved(p.name, p.sticky.value, Sticky, None))
  }

  /** `u16` saturating size of a sticky range, or the default. */
  function WantedSize(p: Project): (size: Port)
    ensures size >= 1
  {
    match p.sticky
    case None => DEFAULT_RANGE_SIZE
    case Some(r) =>
      var width := if r.last >= r.first then r.last - r.first else 0;
      if width + 1 > MAX_PORT then MAX_PORT else width + 1
  }

  /** The last ports there are. */
  function Clamp(size: Port): Range
    requires size >= 1
  {
    Range(MAX_PORT - size + 1, MAX_PORT)
  }

  function Assign(placed: seq<Placed>, p: Project): Resolved
  {
    var size := WantedSize(p);
    match FreeBlock(placed, size, 0)
    case Some(range) => Resolved(p.name, range, Assigned, None)
    case None =>
      Resolved(p.name, Clamp(size), Assigned, LastOverlap(placed, Clamp(size)))
  }

  /** Pass 2b: everything left gets the first free block, or the clamp. */
  function Assigneds(ps: seq<Project>, n: nat): (t: Table)
    requires n <= |ps|
    ensures |t.results| == |ps|
  {
    if n == 0 then Stickies(ps, |ps|)
    else
      var t := Assigneds(ps, n - 1);
      if t.results[n - 1].Some? then t else Put(t, n - 1, Assign(t.placed, ps[n - 1]))
  }

  function Final(ps: seq<Project>): (t: Table)
    ensures |t.results| == |ps|
  {
    Assigneds(ps, |ps|)
  }

  // ----- what every pass keeps -----

  /** The answer at position `j` of the placement order. */
  function At(t: Table, j: nat): Resolved
    requires j < |t.order| && t.order[j] < |t.results| && t.results[t.order[j]].Some?
  {
    t.results[t.order[j]].value
  }

  ghost predicate Consistent(ps: seq<Project>, t: Table)
  {
    && |t.results| == |ps| && |t.order| == |t.placed|
    && (forall j | 0 <= j < |t.order| :: t.order[j] < |ps| && t.results[t.order[j]].Some?)
    && (forall j | 0 <= j < |t.order| :: t.placed[j] == Placed(At(t, j).range, At(t, j).name))
    && (forall i, j | 0 <= i < |t.order| && 0 <= j < |t.order| && t.order[i] == t.order[j] :: i == j)
    && (forall i | 0 <= i < |ps| && t.results[i].Some? :: i in t.order && t.results[i].value.name == ps[i].name)
  }

  /** The conflict reported for a range, given what was placed before it. */
  ghost predicate TruthfulFor(r: Resolved, before: seq<Placed>)
  {
    && (r.conflictWith.None? <==> Clears(r.range, before))
    && (r.conflictWith.Some? ==> exists p <- before :: p.owner == r.conflictWith.value && Overlaps(p.range, r.range))
  }

  ghost predicate Truthful(t: Table)
    requires |t.order| == |t.placed|
    requires forall j | 0 <= j < |t.order| :: t.order[j] < |t.results| && t.results[t.order[j]].Some?
  {
    forall j | 0 <= j < |t.order| :: TruthfulFor(At(t, j), t.placed[..j])
  }

  ghost predicate Sound(ps: seq<Project>, t: Table) { Consistent(ps, t) && Truthful(t) }

  /** What placing one more leaves as it was. */
  lemma PutExtends(t: Table, i: nat, r: Resolved, j: nat)
    requires i < |t.results| && t.results[i].None? && |t.order| == |t.placed| && j < |t.order|
    requires t.order[j] < |t.results| && t.results[t.order[j]].Some?
    ensures var u := Put(t, i, r);
            && u.order[j] == t.order[j] != i && u.placed[j] == t.placed[j]
            && u.results[u.order[j]].Some? && At(u, j) == At(t, j) && u.placed[..j] == t.placed[..j]
  {
  }

  lemma PutLast(t: Table, i: nat, r: Resolved)
    requires i < |t.results| && |t.order| == |t.placed|
    ensures var u, n := Put(t, i, r), |t.order|;
            && u.order[n] == i && u.placed[n] == Placed(r.range, r.name)
            && u.results[u.order[n]].Some? && At(u, n) == r && u.placed[..n] == t.placed
  {
  }

  lemma PutKeepsPlaced(ps: seq<Project>, t: Table, i: nat, r: Resolved)
    requires Consistent(ps, t) && i < |ps| && t.results[i].None?
    ensures var u := Put(t, i, r);
            && (forall j | 0 <= j < |u.order| :: u.order[j] < |ps| && u.results[u.order[j]].Some?)
            && (forall j | 0 <= j < |u.order| :: u.placed[j] == Placed(At(u, j).range, At(u, j).name))
  {
    var u := Put(t, i, r);
    PutLast(t, i, r);
    forall j | 0 <= j < |u.order|
      ensures u.order[j] < |ps| && u.results[u.order[j]].Some? && u.placed[j] == Placed(At(u, j).range, At(u, j).name)
    {
      if j < |t.order| {
        PutExtends(t, i, r, j);
      }
    }
  }

  lemma PutKeepsOnce(ps: seq<Project>, t: Table, i: nat, r: Resolved)
    requires Consistent(ps, t) && i < |ps| && t.results[i].None?
    ensures var u := Put(t, i, r);
            forall a, b | 0 <= a < |u.order| && 0 <= b < |u.order| && u.order[a] == u.order[b] :: a == b
  {
    var n := |t.order|;
    assert forall a | 0 <= a < n :: t.order[a] != i;
  }

  lemma PutKeepsNames(ps: seq<Project>, t: Table, i: nat, r: Resolved)
    requires Consistent(ps, t) && i < |ps| && t.results[i].None? && r.name == ps[i].name
    ensures var u := Put(t, i, r);
            forall k | 0 <= k < |ps| && u.results[k].Some? :: k in u.order && u.results[k].value.name == ps[k].name
  {
    var u := Put(t, i, r);
    forall k | 0 <= k < |ps| && u.results[k].Some?
      ensures k in u.order && u.results[k].value.name == ps[k].name
    {
      if k == i {
        assert u.order[|t.order|] == k;
      } else {
        assert k in t.order;
      }
    }
  }

  lemma PutKeepsTruth(ps: seq<Project>, t: Table, i: nat, r: Resolved)
    requires Sound(ps, t) && i < |ps| && t.results[i].None? && TruthfulFor(r, t.placed)
    requires Consistent(ps, Put(t, i, r))
    ensures Truthful(Put(t, i, r))
  {
    var u := Put(t, i, r);
    PutLast(t, i, r);
    forall j | 0 <= j < |u.order|
      ensures TruthfulFor(At(u, j), u.placed[..j])
    {
      if j < |t.order| {
        PutExtends(t, i, r, j);
      }
    }
  }

  lemma PutKeeps(ps: seq<Project>, t: Table, i: nat, r: Resolved)
    requires Sound(ps, t)
    requires i < |ps| && t.results[i].None? && r.name == ps[i].name && TruthfulFor(r, t.placed)
    ensures Sound(ps, Put(t, i, r))
  {
    PutKeepsPlaced(ps, t, i, r);
    PutKeepsOnce(ps, t, i, r);
    PutKeepsNames(ps, t, i, r);
    PutKeepsTruth(ps, t, i, r);
  }

  lemma {:induction false} FirstOverlapNamesOne(placed: seq<Placed>, range: Range)
    requires FirstOverlap(placed, range).Some?
    ensures exists p <- placed :: p.owner == FirstOverlap(placed, range).value && Overlaps(p.range, range)
  {
    if Overlaps(placed[0].range, range) {
      assert placed[0] in placed;
    } else {
      FirstOverlapNamesOne(placed[1..], range);
    }
  }

  lemma {:induction false} LastOverlapNamesOne(placed: seq<Placed>, range: Range)
    requires LastOverlap(placed, range).Some?
    ensures exists p <- placed :: p.owner == LastOverlap(placed, range).value && Overlaps(p.range, range)
  {
    var n := |placed| - 1;
    if Overlaps(placed[n].range, range) {
      assert placed[n] in placed;
    } else {
      LastOverlapNamesOne(placed[..n], range);
    }
  }

  lemma AssignIsTruthful(placed: seq<Placed>, p: Project)
    ensures TruthfulFor(Assign(placed, p), placed)
  {
    var size := WantedSize(p);
    FreeBlockIsLeast(placed, size, 0);
    if FreeBlock(placed, size, 0).None? {
      if LastOverlap(placed, Clamp(size)).Some? {
        LastOverlapNamesOne(placed, Clamp(size));
      }
    }
  }

  /** Pass 1 answers exactly the explicit projects, with their ranges. */
  lemma {:induction false} ExplicitsFill(ps: seq<Project>, n: nat)
    requires n <= |ps|
    ensures forall i | 0 <= i < |ps| ::
              var r := Explicits(ps, n).results[i];
              if i < n && ps[i].Explicit().Some? then
                r.Some? && r.value.range == ps[i].Explicit().value && r.value.source == ExplicitSource(ps[i])
              else r.None?
  {
    if n > 0 {
      ExplicitsFill(ps, n - 1);
    }
  }

  lemma {:induction false} ExplicitsSound(ps: seq<Project>, n: nat)
    requires n <= |ps|
    ensures Sound(ps, Explicits(ps, n))
  {
    if n > 0 {
      ExplicitsSound(ps, n - 1);
      ExplicitsFill(ps, n - 1);
      var t, p := Explicits(ps, n - 1), ps[n - 1];
      if p.Explicit().Some? {
        var range := p.Explicit().value;
        var r := Resolved(p.name, range, ExplicitSource(p), FirstOverlap(t.placed, range));
        if r.conflictWith.Some? {
          FirstOverlapNamesOne(t.placed, range);
        }
        PutKeeps(ps, t, n - 1, r);
      }
    }
  }

  /** After pass 1, every result is explicit, or the sticky range of a project without an explicit one. */
  ghost predicate StickyStage(ps: seq<Project>, t: Table, n: nat)
    requires |t.results| == |ps|
  {
    forall i | 0 <= i < |ps| ::
      var r := t.results[i];
      if ps[i].Explicit().Some? then r == Explicits(ps, |ps|).results[i] && r.Some?
      else r.Some? ==> i < n && ps[i].sticky.Some? && r.value == Resolved(ps[i].name, ps[i].sticky.value, Sticky, None)
  }

  lemma {:induction false} StickiesFill(ps: seq<Project>, n: nat)
    requires n <= |ps|
    ensures StickyStage(ps, Stickies(ps, n), n)
  {
    if n == 0 {
      ExplicitsFill(ps, |ps|);
    } else {
      StickiesFill(ps, n - 1);
    }
  }

  lemma {:induction false} StickiesSound(ps: seq<Project>, n: nat)
    requires n <= |ps|
    ensures Sound(ps, Stickies(ps, n))
  {
    if n == 0 {
      ExplicitsSound(ps, |ps|);
    } else {
      StickiesSound(ps, n - 1);
      var t, p := Stickies(ps, n - 1), ps[n - 1];
      if t.results[n - 1].None? && p.sticky.Some? && Clears(p.sticky.value, t.placed) {
        PutKeeps(ps, t, n - 1, Resolved(p.name, p.sticky.value, Sticky, None));
      }
    }
  }

  lemma {:induction false} AssignedsSound(ps: seq<Project>, n: nat)
    requires n <= |ps|
    ensures Sound(ps, Assigneds(ps, n))
  {
    if n == 0 {
      StickiesSound(ps, |ps|);
    } else {
      AssignedsSound(ps, n - 1);
      var t := Assigneds(ps, n - 1);
      if t.results[n - 1].None? {
        AssignIsTruthful(t.placed, ps[n - 1]);
        PutKeeps(ps, t, n - 1, Assign(t.placed, ps[n - 1]));
      }
    }
  }

  /** Pass 2b fills the gaps and leaves the rest. */
  lemma {:induction false} AssignedsFill(ps: seq<Project>, n: nat)
    requires n <= |ps|
    ensures forall i | 0 <= i < |ps| ::
              var before, after := Stickies(ps, |ps|).results[i], Assigneds(ps, n).results[i];
              if before.Some? then after == before else after.Some? == (i < n) && (after.Some? ==> after.value.source == Assigned)
  {
    if n > 0 {
      AssignedsFill(ps, n - 1);
    }
  }

  // ----- main results -----

  function ResultOf(ps: seq<Project>, i: nat): Resolved
    requires i < |ps|
    requires Final(ps).results[i].Some?
  {
    Final(ps).results[i].value
  }

  /**
   * One result per project, explicit ranges as given, every reported conflict
   * exactly true, and placement pass by pass in input order.
   */
  lemma ResolutionIsTruthful(ps: seq<Project>)
    ensures Sound(ps, Final(ps)) && Ordered(Final(ps), 3, |ps|)
    ensures forall i | 0 <= i < |ps| :: Final(ps).results[i].Some? && ResultOf(ps, i).name == ps[i].name
    ensures forall i | 0 <= i < |ps| && ps[i].Explicit().Some? ::
              && ResultOf(ps, i).range == ps[i].Explicit().value
              && ResultOf(ps, i).source == ExplicitSource(ps[i])
  {
    AssignedsSound(ps, |ps|);
    AssignedOrder(ps, |ps|);
    AssignedsFill(ps, |ps|);
    StickiesFill(ps, |ps|);
    ExplicitsFill(ps, |ps|);
  }

  /** Which pass places a result of this source. */
  function Pass(source: Source): nat
  {
    match source
    case LocalOverride => 1
    case Declared => 1
    case Sticky => 2
    case Assigned => 3
  }

  /** Placement goes pass by pass, each in input order; pass `pass` has reached project `n`. */
  ghost predicate Ordered(t: Table, pass: nat, n: nat)
  {
    && (forall j | 0 <= j < |t.order| :: t.order[j] < |t.results| && t.results[t.order[j]].Some?)
    && (forall j | 0 <= j < |t.order| :: Pass(At(t, j).source) < pass || (Pass(At(t, j).source) == pass && t.order[j] < n))
    && (forall a, b | 0 <= a < b < |t.order| ::
          Pass(At(t, a).source) < Pass(At(t, b).source)
          || (Pass(At(t, a).source) == Pass(At(t, b).source) && t.order[a] < t.order[b]))
  }

  lemma PutOrdered(t: Table, pass: nat, n: nat, r: Resolved)
    requires Ordered(t, pass, n) && n < |t.results| && t.results[n].None? && Pass(r.source) == pass
    ensures Ordered(Put(t, n, r), pass, n + 1)
  {
    var u := Put(t, n, r);
    assert forall j | 0 <= j < |t.order| :: u.order[j] == t.order[j] && u.order[j] != n && At(u, j) == At(t, j);
  }

  lemma {:induction false} ExplicitOrder(ps: seq<Project>, n: nat)
    requires n <= |ps|
    ensures Ordered(Explicits(ps, n), 1, n)
  {
    if n > 0 {
      ExplicitOrder(ps, n - 1);
      ExplicitsFill(ps, n - 1);
      ExplicitStepOrder(ps, n - 1);
    }
  }

  lemma ExplicitStepOrder(ps: seq<Project>, n: nat)
    requires n < |ps| && |Explicits(ps, n).results| == |ps| && Explicits(ps, n).results[n].None?
    requires Ordered(Explicits(ps, n), 1, n)
    ensures Ordered(Explicits(ps, n + 1), 1, n + 1)
  {
    var t, p := Explicits(ps, n), ps[n];
    if p.Explicit().Some? {
      PutOrdered(t, 1, n, Resolved(p.name, p.Explicit().value, ExplicitSource(p), FirstOverlap(t.placed, p.Explicit().value)));
    }
  }

  lemma {:induction false} StickyOrder(ps: seq<Project>, n: nat)
    requires n <= |ps|
    ensures Ordered(Stickies(ps, n), 2, n)
  {
    if n == 0 {
      ExplicitOrder(ps, |ps|);
    } else {
      StickyOrder(ps, n - 1);
      StickyStepOrder(ps, n - 1);
    }
  }

  lemma StickyStepOrder(ps: seq<Project>, n: nat)
    requires n < |ps| && |Stickies(ps, n).results| == |ps| && Ordered(Stickies(ps, n), 2, n)
    ensures Ordered(Stickies(ps, n + 1), 2, n + 1)
  {
    var t, p := Stickies(ps, n), ps[n];
    if t.results[n].None? && p.sticky.Some? && Clears(p.sticky.value, t.placed) {
      PutOrdered(t, 2, n, Resolved(p.name, p.sticky.value, Sticky, None));
    }
  }

  lemma {:induction false} AssignedOrder(ps: seq<Project>, n: nat)
    requires n <= |ps|
    ensures Ordered(Assigneds(ps, n), 3, n)
  {
    if n == 0 {
      StickyOrder(ps, |ps|);
    } else {
      AssignedOrder(ps, n - 1);
      AssignedStepOrder(ps, n - 1);
    }
  }

  lemma AssignedStepOrder(ps: seq<Project>, n: nat)
    requires n < |ps| && |Assigneds(ps, n).results| == |ps| && Ordered(Assigneds(ps, n), 3, n)
    ensures Ordered(Assigneds(ps, n + 1), 3, n + 1)
  {
    var t := Assigneds(ps, n);
    if t.results[n].None? {
      PutOrdered(t, 3, n, Assign(t.placed, ps[n]));
    }
  }

  /** Two results without a conflict never overlap. */
  lemma UnconflictedAreDisjoint(ps: seq<Project>, i: nat, k: nat)
    requires i < |ps| && k < |ps| && i != k
    ensures Final(ps).results[i].Some? && Final(ps).results[k].Some?
    ensures ResultOf(ps, i).conflictWith.None? && ResultOf(ps, k).conflictWith.None? ==>
              !Overlaps(ResultOf(ps, i).range, ResultOf(ps, k).range)
  {
    ResolutionIsTruthful(ps);
    var t := Final(ps);
    assert i in t.order && k in t.order;
    var a :| 0 <= a < |t.order| && t.order[a] == i;
    var b :| 0 <= b < |t.order| && t.order[b] == k;
    if a < b {
      assert TruthfulFor(At(t, b), t.placed[..b]);
      assert t.placed[..b][a] == t.placed[a] && t.placed[a] in t.placed[..b];
    } else {
      assert TruthfulFor(At(t, a), t.placed[..a]);
      assert t.placed[..a][b] == t.placed[b] && t.placed[b] in t.placed[..a];
    }
  }

  /** No explicit range overlaps. */
  predicate ClearsExplicit(ps: seq<Project>, range: Range)
  {
    forall i | 0 <= i < |ps| && ps[i].Explicit().Some? :: !Overlaps(ps[i].Explicit().value, range)
  }

  /** Project `i` relies on a sticky range. */
  predicate Relies(ps: seq<Project>, i: nat)
    requires i < |ps|
  {
    ps[i].Explicit().None? && ps[i].sticky.Some?
  }

  predicate DisjointStickies(ps: seq<Project>)
  {
    forall i, j | 0 <= i < |ps| && 0 <= j < |ps| && i != j && Relies(ps, i) && Relies(ps, j) ::
      !Overlaps(ps[i].sticky.value, ps[j].sticky.value)
  }

  /** While sticky ranges are disjoint, a sticky range clears everything placed exactly when it clears the explicit ones. */
  lemma ClearsStage(ps: seq<Project>, t: Table, n: nat, i: nat)
    requires i < |ps| && Relies(ps, i) && DisjointStickies(ps)
    requires Consistent(ps, t) && StickyStage(ps, t, n) && t.results[i].None?
    ensures Clears(ps[i].sticky.value, t.placed) <==> ClearsExplicit(ps, ps[i].sticky.value)
  {
    var range := ps[i].sticky.value;
    ExplicitsFill(ps, |ps|);
    forall j | 0 <= j < |t.placed|
      ensures Overlaps(t.placed[j].range, range) ==> ps[t.order[j]].Explicit().Some? && t.placed[j].range == ps[t.order[j]].Explicit().value
    {
    }
    forall k | 0 <= k < |ps| && ps[k].Explicit().Some?
      ensures exists j :: 0 <= j < |t.placed| && t.placed[j].range == ps[k].Explicit().value
    {
      var j :| 0 <= j < |t.order| && t.order[j] == k;
      assert t.placed[j].range == ps[k].Explicit().value;
    }
  }

  lemma {:induction false} StickyKeptIff(ps: seq<Project>, n: nat, i: nat)
    requires i < n <= |ps| && Relies(ps, i) && DisjointStickies(ps)
    ensures Stickies(ps, n).results[i].Some? <==> ClearsExplicit(ps, ps[i].sticky.value)
  {
    if i == n - 1 {
      StickiesSound(ps, n - 1);
      StickiesFill(ps, n - 1);
      ClearsStage(ps, Stickies(ps, n - 1), n - 1, i);
    } else {
      StickyKeptIff(ps, n - 1, i);
    }
  }

  /** With disjoint sticky ranges, a project keeps its own exactly when it clears every explicit range. */
  lemma StickyIsStable(ps: seq<Project>, i: nat)
    requires i < |ps| && Relies(ps, i) && DisjointStickies(ps)
    ensures Final(ps).results[i].Some?
    ensures ResultOf(ps, i).source == Sticky <==> ClearsExplicit(ps, ps[i].sticky.value)
    ensures ResultOf(ps, i).source == Sticky ==> ResultOf(ps, i) == Resolved(ps[i].name, ps[i].sticky.value, Sticky, None)
  {
    AssignedsFill(ps, |ps|);
    StickiesFill(ps, |ps|);
    StickyKeptIff(ps, |ps|, i);
  }

  /** Giving one project an explicit range moves, of those that kept their sticky range, only the ones it overlaps. */
  lemma DeclaringMovesOnlyColliders(ps: seq<Project>, j: nat, declared: Project, i: nat)
    requires j < |ps| && i < |ps| && i != j && ps[j].Explicit().None? && declared.Explicit().Some?
    requires DisjointStickies(ps) && Relies(ps, i)
    requires Final(ps).results[i].Some? && ResultOf(ps, i).source == Sticky
    ensures var qs := ps[j := declared];
            && Final(qs).results[i].Some?
            && (ResultOf(qs, i) == ResultOf(ps, i) <==> !Overlaps(declared.Explicit().value, ps[i].sticky.value))
  {
    var qs := ps[j := declared];
    forall a, b | 0 <= a < |qs| && 0 <= b < |qs| && a != b && Relies(qs, a) && Relies(qs, b)
      ensures !Overlaps(qs[a].sticky.value, qs[b].sticky.value)
    {
      assert Relies(ps, a) && Relies(ps, b);
    }
    StickyIsStable(ps, i);
    StickyIsStable(qs, i);
    assert qs[j] == declared;
    assert forall k | 0 <= k < |ps| && ps[k].Explicit().Some? :: qs[k] == ps[k];
  }

  /** The same projects, each without an explicit range now sticky on what it was given. */
  function FedBack(ps: seq<Project>): (qs: seq<Project>)
    requires forall i | 0 <= i < |ps| :: Final(ps).results[i].Some?
    ensures |qs| == |ps|
    ensures forall i | 0 <= i < |ps| ::
              qs[i] == if ps[i].Explicit().Some? then ps[i] else ps[i].(sticky := Some(ResultOf(ps, i).range))
  {
    seq(|ps|, i requires 0 <= i < |ps| =>
      if ps[i].Explicit().Some? then ps[i] else ps[i].(sticky := Some(ResultOf(ps, i).range)))
  }

  /** Feeding a conflict-free resolution back as sticky ranges reproduces every range. */
  lemma FeedbackIsStable(ps: seq<Project>)
    requires forall i | 0 <= i < |ps| :: Final(ps).results[i].Some? && ResultOf(ps, i).conflictWith.None?
    ensures forall i | 0 <= i < |ps| ::
              Final(FedBack(ps)).results[i].Some? && ResultOf(FedBack(ps), i).range == ResultOf(ps, i).range
  {
    var qs := FedBack(ps);
    ResolutionIsTruthful(ps);
    ResolutionIsTruthful(qs);
    forall i | 0 <= i < |ps|
      ensures ResultOf(qs, i).range == ResultOf(ps, i).range
    {
      if ps[i].Explicit().None? {
        FedBackDisjoint(ps);
        FedBackClears(ps, i);
        StickyIsStable(qs, i);
      } else {
        assert qs[i].Explicit() == ps[i].Explicit();
      }
    }
  }

  lemma FedBackDisjoint(ps: seq<Project>)
    requires forall i | 0 <= i < |ps| :: Final(ps).results[i].Some? && ResultOf(ps, i).conflictWith.None?
    ensures DisjointStickies(FedBack(ps))
  {
    var qs := FedBack(ps);
    forall i, j | 0 <= i < |qs| && 0 <= j < |qs| && i != j && Relies(qs, i) && Relies(qs, j)
      ensures !Overlaps(qs[i].sticky.value, qs[j].sticky.value)
    {
      UnconflictedAreDisjoint(ps, i, j);
    }
  }

  lemma FedBackClears(ps: seq<Project>, i: nat)
    requires forall j | 0 <= j < |ps| :: Final(ps).results[j].Some? && ResultOf(ps, j).conflictWith.None?
    requires i < |ps| && ps[i].Explicit().None?
    ensures ClearsExplicit(FedBack(ps), FedBack(ps)[i].sticky.value)
  {
    var qs := FedBack(ps);
    ResolutionIsTruthful(ps);
    forall k | 0 <= k < |qs| && qs[k].Explicit().Some?
      ensures !Overlaps(qs[k].Explicit().value, qs[i].sticky.value)
    {
      UnconflictedAreDisjoint(ps, k, i);
      assert qs[k] == ps[k];
    }
  }

  // ----- the clamp of an exhausted scan -----

  /** The blocks of this size end at the last port. */
  predicate Aligned(size: Port)
    requires size >= 1
  {
    (MAX_PORT + 1 - SCAN_BASE) % size == 0
  }

  /** Then the clamp is the last block, which an exhausted scan found taken. */
  lemma AlignedClampOverlaps(size: Port, placed: seq<Placed>)
    requires size >= 1 && Aligned(size) && FreeBlock(placed, size, 0).None?
    ensures !Clears(Clamp(size), placed)
  {
    var blocks := (MAX_PORT + 1 - SCAN_BASE) / size;
    var last := blocks - 1;
    assert blocks * size == MAX_PORT + 1 - SCAN_BASE;
    assert last * size == blocks * size - size;
    assert blocks >= 1 by {
      if blocks <= 0 {
        Monotone(blocks, 0, size);
      }
    }
    FreeBlockIsLeast(placed, size, 0);
    assert Fits(last, size) && Block(last, size) == Clamp(size);
  }

  /** Everything below the clamp in one hand. */
  function Hog(size: Port): Placed
    requires size >= 1
  {
    Placed(Range(0, MAX_PORT - size), "hog")
  }

  /** Otherwise that hog touches every block and not the clamp. */
  lemma HogLeavesClamp(size: Port)
    requires size >= 1 && !Aligned(size)
    ensures FreeBlock([Hog(size)], size, 0).None? && Clears(Clamp(size), [Hog(size)])
  {
    var hog := [Hog(size)];
    assert hog[0] in hog;
    FreeBlockIsLeast(hog, size, 0);
    forall k | Fits(k, size)
      ensures !Clears(Block(k, size), hog)
    {
      assert (k + 1) * size == k * size + size;
      if SCAN_BASE + k * size + size - 1 == MAX_PORT {
        MultipleHasNoRemainder(k + 1, size);
      }
      assert Overlaps(hog[0].range, Block(k, size));
    }
  }

  lemma MultipleHasNoRemainder(n: int, size: int)
    requires size >= 1
    ensures (n * size) % size == 0
  {
    var q, r := (n * size) / size, (n * size) % size;
    assert (n - q) * size == r;
    if n - q >= 1 {
      Monotone(1, n - q, size);
    } else {
      Monotone(n - q, 0, size);
    }
  }

  /** The clamp of an exhausted scan always overlaps something placed if and only if the blocks end at the last port. */
  lemma ClampOverlapsIff(size: Port)
    requires size >= 1
    ensures (forall placed: seq<Placed> | FreeBlock(placed, size, 0).None? :: !Clears(Clamp(size), placed)) <==> Aligned(size)
  {
    if Aligned(size) {
      forall placed: seq<Placed> | FreeBlock(placed, size, 0).None?
        ensures !Clears(Clamp(size), placed)
      {
        AlignedClampOverlaps(size, placed);
      }
    } else {
      HogLeavesClamp(size);
    }
  }

  /** The default size is not aligned: a project with nothing set can be given the clamp, free of conflicts. */
  lemma ClampCanBeFree(hog: Project, p: Project)
    requires hog.Explicit() == Some(Range(0, MAX_PORT - DEFAULT_RANGE_SIZE)) && hog.name == "hog"
    requires p.Explicit().None? && p.sticky.None?
    ensures Final([hog, p]).results[1] == Some(Resolved(p.name, Range(65436, 65535), Assigned, None))
  {
    var ps := [hog, p];
    HogLeavesClamp(DEFAULT_RANGE_SIZE);
    assert Explicits(ps, 1).placed == [Hog(DEFAULT_RANGE_SIZE)];
    assert Explicits(ps, 2) == Explicits(ps, 1);
    assert Stickies(ps, 2) == Stickies(ps, 1) == Stickies(ps, 0);
    assert Assigneds(ps, 1) == Assigneds(ps, 0);
  }

  // ----- the method -----

  method ResolveRanges(ps: seq<Project>) returns (out: seq<Resolved>)
    ensures |out| == |ps|
    ensures forall i | 0 <= i < |ps| :: Final(ps).results[i] == Some(out[i])
  {
    var results, placed := PlaceExplicit(ps);
    results, placed := PlaceSticky(ps, results, placed);
    results := PlaceRest(ps, results, placed);
    AssignedsFill(ps, |ps|);
    out := [];
    for i := 0 to |ps|
      invariant |out| == i
      invariant forall j | 0 <= j < i :: results[j] == Some(out[j])
    {
      out := out + [results[i].value];
    }
  }

  method PlaceRest(ps: seq<Project>, before: seq<Option<Resolved>>, reserved: seq<Placed>)
    returns (results: seq<Option<Resolved>>)
    requires before == Stickies(ps, |ps|).results && reserved == Stickies(ps, |ps|).placed
    ensures results == Final(ps).results
  {
    var placed := reserved;
    results := before;
    for i := 0 to |ps|
      invariant results == Assigneds(ps, i).results && placed == Assigneds(ps, i).placed
    {
      if results[i].None? {
        var r := AssignBlock(placed, ps[i]);
        placed := placed + [Placed(r.range, r.name)];
        results := results[i := Some(r)];
      }
    }
  }

  method AssignBlock(placed: seq<Placed>, p: Project) returns (r: Resolved)
    ensures r == Assign(placed, p)
  {
    var size := WantedSize(p);
    var block := FirstFreeBlock(placed, size);
    match block {
      case Some(range) => r := Resolved(p.name, range, Assigned, None);
      case None =>
        var clamp := Range(MAX_PORT - size + 1, MAX_PORT);
        r := Resolved(p.name, clamp, Assigned, LastOverlap(placed, clamp));
    }
  }

  method PlaceExplicit(ps: seq<Project>) returns (results: seq<Option<Resolved>>, placed: seq<Placed>)
    ensures results == Explicits(ps, |ps|).results && placed == Explicits(ps, |ps|).placed
  {
    results, placed := seq(|ps|, _ => None), [];
    for i := 0 to |ps|
      invariant results == Explicits(ps, i).results && placed == Explicits(ps, i).placed
    {
      var explicit := if ps[i].localOverride.Some? then ps[i].localOverride else ps[i].declared;
      if explicit.Some? {
        var range := explicit.value;
        var conflictWith := FirstOverlap(placed, range);
        placed := placed + [Placed(range, ps[i].name)];
        var source := if ps[i].localOverride.Some? then LocalOverride else Declared;
        results := results[i := Some(Resolved(ps[i].name, range, source, conflictWith))];
      }
    }
  }

  method PlaceSticky(ps: seq<Project>, before: seq<Option<Resolved>>, explicit: seq<Placed>)
    returns (results: seq<Option<Resolved>>, placed: seq<Placed>)
    requires before == Explicits(ps, |ps|).results && explicit == Explicits(ps, |ps|).placed
    ensures results == Stickies(ps, |ps|).results && placed == Stickies(ps, |ps|).placed
  {
    results, placed := before, explicit;
    for i := 0 to |ps|
      invariant results == Stickies(ps, i).results && placed == Stickies(ps, i).placed
    {
      if results[i].None? && ps[i].sticky.Some? {
        var sticky := ps[i].sticky.value;
        var taken := AnyOverlap(placed, sticky);
        if !taken {
          placed := placed + [Placed(sticky, ps[i].name)];
          results := results[i := Some(Resolved(ps[i].name, sticky, Sticky, None))];
        }
      }
    }
  }
}
