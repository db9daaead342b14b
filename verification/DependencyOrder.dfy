/**
 * Dependencies-first orders: `sorted_services` of src/config.rs, which stops at
 * depth 20, and `topo_order` of src/orchestration/graph.rs, which does not stop.
 */
module DependencyOrder {
  import opened Basics
  import opened DependencyGraph

  const SERVICE_DEPTH: nat := 20

  /** Everything a search can meet: the nodes and whatever they name. */
  function Universe(g: Deps): set<string>
  {
    g.Keys + set k, i | k in g && 0 <= i < |g[k]| :: g[k][i]
  }

  /** `cut` records that some node was turned away at the cap while still unvisited. */
  datatype Progress = Progress(visited: set<string>, result: seq<string>, cut: bool)

  const EMPTY := Progress({}, [], false)

  predicate Beyond(cap: Option<nat>, depth: nat) { cap.Some? && depth > cap.value }

  /** One visit at `depth`; past the cap it does nothing, and leaves the node unvisited. */
  function Visited(g: Deps, cap: Option<nat>, name: string, depth: nat, s: Progress): (t: Progress)
    requires name in Universe(g) && s.visited <= Universe(g)
    ensures s.visited <= t.visited <= Universe(g)
    decreases Universe(g) - s.visited, 0, 0
  {
    if name in s.visited then s
    else if Beyond(cap, depth) then s.(cut := s.cut || name in g)
    else
      var entered := s.(visited := s.visited + {name});
      if name !in g then entered
      else
        assert forall i | 0 <= i < |g[name]| :: g[name][i] in Universe(g);
        var after := AllVisited(g, cap, g[name], depth + 1, entered);
        after.(result := after.result + [name])
  }

  function AllVisited(g: Deps, cap: Option<nat>, names: seq<string>, depth: nat, s: Progress): (t: Progress)
    requires s.visited <= Universe(g) && forall n <- names :: n in Universe(g)
    ensures s.visited <= t.visited <= Universe(g)
    decreases Universe(g) - s.visited, 1, |names|
  {
    if names == [] then s
    else
      var t := Visited(g, cap, names[0], depth, s);
      assert t.visited == s.visited || Universe(g) - t.visited < Universe(g) - s.visited;
      AllVisited(g, cap, names[1..], depth, t)
  }

  /** The search from a listing of the nodes. */
  function Searched(g: Deps, cap: Option<nat>, names: seq<string>): Progress
    requires forall n <- names :: n in Universe(g)
  {
    AllVisited(g, cap, names, 0, EMPTY)
  }

  // ----- the imperative search -----

  class Search {
    const g: Deps
    const cap: Option<nat>
    var visited: set<string>
    var result: seq<string>
    ghost var cut: bool

    constructor (g: Deps, cap: Option<nat>)
      ensures this.g == g && this.cap == cap && State() == EMPTY
    {
      this.g, this.cap := g, cap;
      visited, result, cut := {}, [], false;
    }

    ghost function State(): Progress
      reads this
    {
      Progress(visited, result, cut)
    }

    method Visit(name: string, depth: nat)
      requires visited <= Universe(g) && name in Universe(g)
      modifies this
      ensures old(visited) <= visited <= Universe(g)
      ensures State() == Visited(g, cap, name, depth, old(State()))
      decreases Universe(g) - visited
    {
      if name in visited || (cap.Some? && depth > cap.value) {
        cut := cut || (name in g && name !in visited);
        return;
      }
      visited := visited + {name};
      if name in g {
        var names := g[name];
        assert forall i | 0 <= i < |names| :: names[i] in Universe(g);
        ghost var entered := State();
        assert names[0..] == names;
        for i := 0 to |names|
          invariant entered.visited <= visited <= Universe(g)
          invariant AllVisited(g, cap, names, depth + 1, entered) == AllVisited(g, cap, names[i..], depth + 1, State())
        {
          assert names[i..][0] == names[i] && names[i..][1..] == names[i + 1..];
          Visit(names[i], depth + 1);
        }
        result := result + [name];
      }
    }
  }

  method Order(g: Deps, cap: Option<nat>, names: seq<string>) returns (order: seq<string>)
    requires forall n <- names :: n in Universe(g)
    ensures order == Searched(g, cap, names).result
  {
    var search := new Search(g, cap);
    assert names[0..] == names;
    for i := 0 to |names|
      invariant fresh(search) && search.g == g && search.cap == cap && search.visited <= Universe(g)
      invariant Searched(g, cap, names) == AllVisited(g, cap, names[i..], 0, search.State())
    {
      assert names[i..][0] == names[i] && names[i..][1..] == names[i + 1..];
      search.Visit(names[i], 0);
    }
    order := search.result;
  }

  /** `sorted_services` on the service names in alphabetical order. */
  method SortedServices(g: Deps, names: seq<string>) returns (order: seq<string>)
    requires Distinct(names) && forall k :: k in names <==> k in g
    ensures order == Searched(g, Some(SERVICE_DEPTH), names).result
    ensures Distinct(order) && forall k :: k in order <==> k in g
    ensures Ordered(g, order) <==> Acyclic(g) && !Searched(g, Some(SERVICE_DEPTH), names).cut
    ensures Acyclic(g) && NoWalkLongerThan(g, 20) ==> Ordered(g, order)
  {
    order := Order(g, Some(SERVICE_DEPTH), names);
    OrderIsRight(g, Some(SERVICE_DEPTH), names);
  }

  /** `topo_order`: the root first, then the nodes in map order. */
  method TopoOrder(g: Deps, root: string, keys: seq<string>) returns (order: seq<string>)
    requires root in g && forall k :: k in keys <==> k in g
    ensures order == Searched(g, None, [root] + keys).result
    ensures Distinct(order) && forall k :: k in order <==> k in g
    ensures Ordered(g, order) <==> Acyclic(g)
  {
    order := Order(g, None, [root] + keys);
    OrderIsRight(g, None, [root] + keys);
  }

  // ----- what a search keeps -----

  /** A node the capped search turned away would have had to precede `x`. */
  ghost predicate Missed(g: Deps, x: string, visited: set<string>)
  {
    x in g && exists d :: d in g[x] && d in g && d !in visited
  }

  /** `trail` is the path of nodes being visited: entered, not yet in the result. */
  ghost predicate Good(g: Deps, cap: Option<nat>, trail: seq<string>, s: Progress)
  {
    && s.visited <= Universe(g)
    && Distinct(s.result)
    && (forall x <- s.result :: x in g && x in s.visited)
    && (forall x <- trail :: x in g && x in s.visited && x !in s.result)
    && (forall x <- s.visited :: x in g ==> x in s.result || x in trail)
    && (trail != [] ==> Walk(g, trail))
    && Truthful(g, cap, trail, s)
  }

  /** The result is in order as long as nothing was cut, and out of order for good once something was. */
  ghost predicate Truthful(g: Deps, cap: Option<nat>, trail: seq<string>, s: Progress)
  {
    && (Acyclic(g) && !s.cut ==> Ordered(g, s.result))
    && (s.cut ==> !Ordered(g, s.result)
                  || (trail != [] && Beyond(cap, |trail|) && Missed(g, trail[|trail| - 1], s.visited)))
    && (s.cut ==> cap.Some? && !NoWalkLongerThan(g, cap.value))
  }

  predicate MayVisit(g: Deps, trail: seq<string>, name: string)
  {
    name in Universe(g) && (trail != [] && name in g ==> Edge(g, trail[|trail| - 1], name))
  }

  lemma {:induction false} VisitKeeps(g: Deps, cap: Option<nat>, name: string, trail: seq<string>, s: Progress)
    requires Good(g, cap, trail, s) && MayVisit(g, trail, name)
    ensures var t := Visited(g, cap, name, |trail|, s);
            && Good(g, cap, trail, t) && s.result <= t.result && (s.cut ==> t.cut)
            && (name in g && (trail == [] || (Acyclic(g) && !t.cut)) ==> name in t.result)
            && (Beyond(cap, |trail|) ==> t == s.(cut := t.cut))
    decreases Universe(g) - s.visited, 0, 0
  {
    if name in s.visited {
      if name in g && name !in s.result && Acyclic(g) {
        var i :| 0 <= i < |trail| && trail[i] == name;
        CloseWalk(g, trail, i, name);
        assert false;
      }
    } else if Beyond(cap, |trail|) {
      if name in g {
        ExtendWalk(g, trail, name);
      }
    } else if name in g {
      var entered, path := s.(visited := s.visited + {name}), trail + [name];
      ExtendWalk(g, trail, name);
      assert forall i | 0 <= i < |g[name]| :: g[name][i] in Universe(g);
      VisitAllKeep(g, cap, g[name], path, entered);
      var after := AllVisited(g, cap, g[name], |path|, entered);
      Finish(g, cap, name, trail, after);
    }
  }

  lemma Finish(g: Deps, cap: Option<nat>, name: string, trail: seq<string>, s: Progress)
    requires Good(g, cap, trail + [name], s) && name !in trail && name in g
    requires trail != [] ==> Walk(g, trail)
    requires Acyclic(g) && !s.cut ==> forall d | d in g[name] && d in g :: d in s.result
    ensures Good(g, cap, trail, s.(result := s.result + [name]))
  {
    assert name in trail + [name];
    assert forall x <- trail :: x in trail + [name];
    if Acyclic(g) && !s.cut {
      OrderedAppend(g, s.result, name);
    } else if s.cut {
      MisorderedAppend(g, s.result, name);
    }
  }

  lemma MisorderedAppend(g: Deps, order: seq<string>, x: string)
    requires !Ordered(g, order) || (x in g && exists d :: d in g[x] && d in g && d !in order)
    ensures !Ordered(g, order + [x])
  {
    var all := order + [x];
    if Ordered(g, order) {
      var d :| d in g[x] && d in g && d !in order;
      assert all[|order|] == x && all[..|order|] == order;
    } else {
      var i, d :| 0 <= i < |order| && order[i] in g && d in g[order[i]] && d in g && d !in order[..i];
      assert all[i] == order[i] && all[..i] == order[..i];
    }
  }

  lemma {:induction false} VisitAllKeep(g: Deps, cap: Option<nat>, names: seq<string>, trail: seq<string>, s: Progress)
    requires Good(g, cap, trail, s) && forall n <- names :: n in Universe(g) && MayVisit(g, trail, n)
    ensures var t := AllVisited(g, cap, names, |trail|, s);
            && Good(g, cap, trail, t) && s.result <= t.result && (s.cut ==> t.cut)
            && (trail == [] || (Acyclic(g) && !t.cut) ==> forall n <- names :: n in g ==> n in t.result)
            && (Beyond(cap, |trail|) ==> t == s.(cut := t.cut))
    decreases Universe(g) - s.visited, 1, |names|
  {
    if names != [] {
      assert names[0] in names;
      VisitKeeps(g, cap, names[0], trail, s);
      var t, rest := Visited(g, cap, names[0], |trail|, s), names[1..];
      assert t.visited == s.visited || Universe(g) - t.visited < Universe(g) - s.visited;
      assert forall n <- rest :: n in names;
      VisitAllKeep(g, cap, rest, trail, t);
      assert forall n <- names :: n == names[0] || n in rest;
    }
  }

  /**
   * The order lists every node exactly once, whatever the graph. It puts every
   * dependency before its dependent exactly when there is no cycle and no node
   * was turned away at the cap, and only a walk of more edges than the cap can
   * make that happen.
   */
  lemma OrderIsRight(g: Deps, cap: Option<nat>, names: seq<string>)
    requires forall k | k in g :: k in names
    requires forall n <- names :: n in Universe(g)
    ensures var s := Searched(g, cap, names);
            && Distinct(s.result) && (forall k :: k in s.result <==> k in g)
            && (Ordered(g, s.result) <==> Acyclic(g) && !s.cut)
            && (s.cut ==> cap.Some? && !NoWalkLongerThan(g, cap.value))
  {
    VisitAllKeep(g, cap, names, [], EMPTY);
    var s := Searched(g, cap, names);
    if Ordered(g, s.result) {
      OrderedIsAcyclic(g, s.result);
    }
  }

  // ----- the cap bites on an acyclic chain of 22 services -----

  /** Each name depends on the next one only. */
  ghost predicate Chain(g: Deps, names: seq<string>)
  {
    && Distinct(names) && (forall k :: k in g <==> k in names)
    && forall i | 0 <= i < |names| :: g[names[i]] == if i + 1 < |names| then [names[i + 1]] else []
  }

  /** From link `i` the visit runs to the cap, and turns the next link away. */
  lemma {:induction false} ChainIsCut(g: Deps, names: seq<string>, cap: nat, i: nat, s: Progress)
    requires Chain(g, names) && i <= cap && cap + 1 < |names|
    requires s.visited <= Universe(g) && forall j | i <= j < |names| :: names[j] !in s.visited
    ensures Visited(g, Some(cap), names[i], i, s).cut
    decreases cap - i
  {
    var entered := s.(visited := s.visited + {names[i]});
    assert g[names[i]] == [names[i + 1]];
    assert names[i + 1] == g[names[i]][0] && names[i + 1] in Universe(g);
    var t := Visited(g, Some(cap), names[i + 1], i + 1, entered);
    if i < cap {
      ChainIsCut(g, names, cap, i + 1, entered);
    }
    assert AllVisited(g, Some(cap), [names[i + 1]], i + 1, entered) == t;
  }

  function Reversed(names: seq<string>): (back: seq<string>)
    ensures |back| == |names| && forall i | 0 <= i < |names| :: back[i] == names[|names| - 1 - i]
  {
    seq(|names|, i requires 0 <= i < |names| => names[|names| - 1 - i])
  }

  lemma NextLink(g: Deps, names: seq<string>, m: nat, d: string)
    requires Chain(g, names) && m < |names| && names[m] in g && d in g[names[m]]
    ensures m + 1 < |names| && d == names[m + 1]
  {
    var deps := g[names[m]];
    assert deps == if m + 1 < |names| then [names[m + 1]] else [];
    assert m + 1 < |names| ==> deps == [names[m + 1]];
  }

  lemma ChainIsAcyclic(g: Deps, names: seq<string>)
    requires Chain(g, names)
    ensures Acyclic(g)
  {
    var back := Reversed(names);
    forall i, d | 0 <= i < |back| && back[i] in g && d in g[back[i]] && d in g
      ensures d in back[..i]
    {
      var m := |names| - 1 - i;
      assert back[i] == names[m];
      NextLink(g, names, m, d);
      assert back[i - 1] == names[|names| - 1 - (i - 1)] == names[m + 1];
      assert back[..i][i - 1] == d;
    }
    forall k | k in g
      ensures k in back
    {
      var m :| 0 <= m < |names| && names[m] == k;
      assert back[|names| - 1 - m] == k;
    }
    OrderedIsAcyclic(g, back);
  }

  lemma {:induction false} CutStays(g: Deps, cap: Option<nat>, names: seq<string>, s: Progress)
    requires Good(g, cap, [], s) && s.cut && forall n <- names :: n in Universe(g)
    ensures AllVisited(g, cap, names, 0, s).cut
  {
    VisitAllKeep(g, cap, names, [], s);
  }

  /**
   * The documentation promises dependencies first, and an alphabetical order on
   * cycles only. An acyclic chain of 22 services, each depending on the
   * alphabetically next one, comes out in the wrong order.
   */
  lemma DeepChainIsMisordered(g: Deps, names: seq<string>)
    requires Chain(g, names) && |names| == 22
    ensures Acyclic(g) && !Ordered(g, Searched(g, Some(SERVICE_DEPTH), names).result)
  {
    ChainIsAcyclic(g, names);
    var cap := Some(SERVICE_DEPTH);
    ChainIsCut(g, names, SERVICE_DEPTH, 0, EMPTY);
    VisitKeeps(g, cap, names[0], [], EMPTY);
    CutStays(g, cap, names[1..], Visited(g, cap, names[0], 0, EMPTY));
    OrderIsRight(g, cap, names);
  }
}
