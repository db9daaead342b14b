/** The search for circular service dependencies (src/bootstrap/validate.rs). */
module CycleSearch {
  import opened Basics
  import opened DependencyGraph

  datatype Mark = Open | Done

  type Edges = set<(string, string)>

  function Join(names: seq<string>): string
  {
    if names == [] then "" else if |names| == 1 then names[0] else names[0] + " -> " + Join(names[1..])
  }

  /** A closed walk that visits nothing twice before it returns. */
  predicate Cycle(g: Deps, c: seq<string>) { ClosedWalk(g, c) && Distinct(c[..|c| - 1]) }

  // ----- taking edges out of a graph -----

  function Kept(node: string, deps: seq<string>, cut: Edges): seq<string>
  {
    if deps == [] then []
    else (if (node, deps[0]) in cut then [] else [deps[0]]) + Kept(node, deps[1..], cut)
  }

  function Without(g: Deps, cut: Edges): Deps { map k | k in g :: Kept(k, g[k], cut) }

  lemma {:induction false} KeptIs(node: string, deps: seq<string>, cut: Edges, d: string)
    ensures d in Kept(node, deps, cut) <==> d in deps && (node, d) !in cut
  {
    if deps != [] {
      KeptIs(node, deps[1..], cut, d);
      assert d in deps <==> d == deps[0] || d in deps[1..];
    }
  }

  lemma WithoutEdge(g: Deps, cut: Edges, a: string, b: string)
    ensures Edge(Without(g, cut), a, b) <==> Edge(g, a, b) && (a, b) !in cut
  {
    if a in g {
      KeptIs(a, g[a], cut, b);
    }
  }

  /** The edge by which a cycle returns. */
  function Closing(c: seq<string>): (string, string)
    requires |c| >= 2
  {
    (c[|c| - 2], c[|c| - 1])
  }

  function ClosingEdges(cycles: seq<seq<string>>): Edges { set c | c in cycles && |c| >= 2 :: Closing(c) }

  /** A cycle none of whose edges is taken out is still there. */
  lemma Survives(g: Deps, c: seq<string>, cut: Edges)
    requires Cycle(g, c) && forall i | 0 < i < |c| :: (c[i - 1], c[i]) !in cut
    ensures !Acyclic(Without(g, cut))
  {
    forall i | 0 < i < |c|
      ensures Edge(Without(g, cut), c[i - 1], c[i])
    {
      WithoutEdge(g, cut, c[i - 1], c[i]);
    }
    assert ClosedWalk(Without(g, cut), c);
  }

  /** Every dependency that is a node comes first, but for those along the edges taken out. */
  predicate OrderedBut(g: Deps, cut: Edges, order: seq<string>)
  {
    forall i, d | 0 <= i < |order| && order[i] in g && d in g[order[i]] && d in g && (order[i], d) !in cut :: d in order[..i]
  }

  lemma OrderedWithout(g: Deps, cut: Edges, order: seq<string>)
    requires OrderedBut(g, cut, order)
    ensures Ordered(Without(g, cut), order)
  {
    forall i, d | 0 <= i < |order| && order[i] in g && d in Without(g, cut)[order[i]] && d in g
      ensures d in order[..i]
    {
      KeptIs(order[i], g[order[i]], cut, d);
    }
  }

  /** A node goes behind its remaining dependencies. */
  lemma AppendBut(g: Deps, cut: Edges, order: seq<string>, x: string)
    requires OrderedBut(g, cut, order) && x in g
    requires forall d | d in g[x] && d in g && (x, d) !in cut :: d in order
    ensures OrderedBut(g, cut, order + [x])
  {
    var all := order + [x];
    forall i, d | 0 <= i < |all| && all[i] in g && d in g[all[i]] && d in g && (all[i], d) !in cut
      ensures d in all[..i]
    {
      assert all[..i] == order[..i];
      assert i == |order| ==> order[..i] == order;
    }
  }

  lemma NothingTaken(g: Deps)
    requires Acyclic(Without(g, {}))
    ensures Acyclic(g)
  {
    forall w
      ensures !ClosedWalk(g, w)
    {
      if ClosedWalk(g, w) {
        forall i | 0 < i < |w|
          ensures Edge(Without(g, {}), w[i - 1], w[i])
        {
          WithoutEdge(g, {}, w[i - 1], w[i]);
        }
        assert ClosedWalk(Without(g, {}), w);
      }
    }
  }

  lemma OneMoreClosing(cycles: seq<seq<string>>, c: seq<string>)
    requires |c| >= 2
    ensures ClosingEdges(cycles + [c]) == ClosingEdges(cycles) + {Closing(c)}
  {
    assert forall d :: d in cycles + [c] <==> d in cycles || d == c;
  }

  // ----- what the search carries -----

  datatype Progress = Progress(
    states: map<string, Mark>,
    stack: seq<string>,
    seen: set<string>,
    cycles: seq<seq<string>>,
    /** Nodes in the order their visits ended. */
    finished: seq<string>,
    /** Every cycle closed, those not reported included. */
    found: seq<seq<string>>,
    /** The edges along which a node was visited. */
    tree: Edges)

  const NOTHING := Progress(map[], [], {}, [], [], [], {})

  /** The stack holds the open nodes, and is a walk. */
  ghost predicate Marked(g: Deps, p: Progress)
  {
    && p.states.Keys <= g.Keys
    && (forall x :: x in p.stack <==> x in p.states && p.states[x] == Open)
    && (forall x :: x in p.finished <==> x in p.states && p.states[x] == Done)
    && Distinct(p.stack) && Distinct(p.finished)
    && (p.stack != [] ==> Walk(g, p.stack))
  }

  /** The edge from the top of the stack to a node put on it. */
  function Onto(stack: seq<string>, name: string): Edges
  {
    if stack == [] then {} else {(stack[|stack| - 1], name)}
  }

  function Reporting(p: Progress, c: seq<string>): Progress
  {
    p.(found := p.found + [c], seen := p.seen + {Join(c)}, cycles := if Join(c) in p.seen then p.cycles else p.cycles + [c])
  }

  function Entering(p: Progress, name: string): Progress
  {
    p.(states := p.states[name := Open], stack := p.stack + [name], tree := p.tree + Onto(p.stack, name))
  }

  function Leaving(p: Progress, name: string): Progress
    requires p.stack != []
  {
    p.(states := p.states[name := Done], stack := p.stack[..|p.stack| - 1], finished := p.finished + [name])
  }

  /** When the search closes the cycle `c`, opens `name`, and leaves `name`. */
  ghost predicate Reports(g: Deps, p: Progress, c: seq<string>)
  {
    exists start :: 0 <= start < |p.stack| && c == p.stack[start..] + [p.stack[start]] && Edge(g, p.stack[|p.stack| - 1], p.stack[start])
  }

  predicate Enters(g: Deps, p: Progress, name: string)
  {
    name in g && name !in p.states && (p.stack != [] ==> Edge(g, p.stack[|p.stack| - 1], name))
  }

  predicate Leaves(g: Deps, p: Progress, name: string)
  {
    && name in g && p.stack != [] && p.stack[|p.stack| - 1] == name
    && forall d | d in g[name] && d in g && (name, d) !in ClosingEdges(p.found) :: d in p.finished
  }

  /** Whatever the search does keeps `law`, given that it starts at `root`. */
  ghost predicate Lawful(g: Deps, root: string, law: Progress -> bool)
  {
    && (forall p, c {:trigger Reporting(p, c)} | law(p) && Marked(g, p) && Reports(g, p, c) :: law(Reporting(p, c)))
    && (forall p, name {:trigger Entering(p, name)} |
          law(p) && Marked(g, p) && Enters(g, p, name) && (p.states == map[] ==> name == root) :: law(Entering(p, name)))
    && (forall p, name {:trigger Leaving(p, name)} | law(p) && Marked(g, p) && Leaves(g, p, name) :: law(Leaving(p, name)))
  }

  lemma ReportMarked(g: Deps, p: Progress, c: seq<string>)
    requires Marked(g, p)
    ensures Marked(g, Reporting(p, c))
  {
  }

  lemma EnterMarked(g: Deps, p: Progress, name: string)
    requires Marked(g, p) && Enters(g, p, name)
    ensures Marked(g, Entering(p, name))
  {
    ExtendWalk(g, p.stack, name);
    assert forall x :: x in p.stack + [name] <==> x in p.stack || x == name;
  }

  lemma Popped(g: Deps, stack: seq<string>)
    requires stack != [] && Distinct(stack) && Walk(g, stack)
    ensures var less := stack[..|stack| - 1];
            && Distinct(less) && (less != [] ==> Walk(g, less))
            && forall x :: x in less <==> x in stack && x != stack[|stack| - 1]
  {
    var less := stack[..|stack| - 1];
    assert stack == less + [stack[|stack| - 1]];
  }

  lemma LeaveMarked(g: Deps, p: Progress, name: string)
    requires Marked(g, p) && Leaves(g, p, name)
    ensures Marked(g, Leaving(p, name))
  {
    assert name in p.stack;
    Popped(g, p.stack);
    assert forall x :: x in p.finished + [name] <==> x in p.finished || x == name;
  }

  // ----- the search -----

  class Search {
    const g: Deps
    ghost const root: string
    ghost const law: Progress -> bool
    var states: map<string, Mark>
    var stack: seq<string>
    var seenCycles: set<string>
    var cycles: seq<seq<string>>
    ghost var finished: seq<string>
    ghost var found: seq<seq<string>>
    ghost var tree: Edges

    constructor (g: Deps, ghost root: string, ghost law: Progress -> bool)
      requires Lawful(g, root, law) && law(NOTHING)
      ensures this.g == g && this.root == root && this.law == law && Valid() && View() == NOTHING
    {
      this.g, this.root, this.law := g, root, law;
      states, stack, seenCycles, cycles, finished, found, tree := map[], [], {}, [], [], [], {};
    }

    ghost function View(): Progress
      reads this
    {
      Progress(states, stack, seenCycles, cycles, finished, found, tree)
    }

    ghost predicate Valid()
      reads this
    {
      Marked(g, View()) && law(View()) && Lawful(g, root, law)
    }

    /** The edges that closed a cycle. */
    ghost function Cut(): Edges
      reads this
    {
      ClosingEdges(found)
    }

    /** Where an open node is on the stack. */
    method Position(name: string) returns (start: nat)
      requires name in stack
      ensures start < |stack| && stack[start] == name
    {
      start := 0;
      while stack[start] != name
        invariant start < |stack| && name !in stack[..start]
        decreases |stack| - start
      {
        start := start + 1;
      }
    }

    method Report(dependency: string)
      requires Valid() && stack != [] && Edge(g, stack[|stack| - 1], dependency)
      requires dependency in states && states[dependency] == Open
      modifies this`seenCycles, this`cycles, this`found
      ensures Valid() && Cut() == old(Cut()) + {(stack[|stack| - 1], dependency)}
    {
      var start := Position(dependency);
      ghost var before := View();
      var cycle := stack[start..] + [dependency];
      assert Reports(g, before, cycle);
      ReportMarked(g, before, cycle);
      OneMoreClosing(found, cycle);
      found := found + [cycle];
      var key := Join(cycle);
      if key !in seenCycles {
        seenCycles := seenCycles + {key};
        cycles := cycles + [cycle];
      }
      assert before.seen + {key} == seenCycles;
      assert View() == Reporting(before, cycle);
    }

    /** Open a node and push it. */
    method Enter(name: string)
      requires Valid() && Enters(g, View(), name) && (states == map[] ==> name == root)
      modifies this`states, this`stack, this`tree
      ensures Valid() && View() == Entering(old(View()), name)
    {
      EnterMarked(g, View(), name);
      tree := tree + Onto(stack, name);
      states := states[name := Open];
      stack := stack + [name];
      assert View() == Entering(old(View()), name);
    }

    /** Pop a node whose remaining dependencies are done, and finish it. */
    method Leave(name: string)
      requires Valid() && Leaves(g, View(), name)
      modifies this`states, this`stack, this`finished
      ensures Valid() && View() == Leaving(old(View()), name)
    {
      LeaveMarked(g, View(), name);
      stack := stack[..|stack| - 1];
      states := states[name := Done];
      finished := finished + [name];
      assert View() == Leaving(old(View()), name);
    }

    method Visit(name: string)
      requires Valid() && Enters(g, View(), name) && (states == map[] ==> name == root)
      modifies this
      ensures Valid() && stack == old(stack) && old(Cut()) <= Cut()
      ensures name in states && states[name] == Done
      ensures Grown(old(states), states)
      decreases g.Keys - states.Keys, 0
    {
      Enter(name);
      FollowAll(name);
      Leave(name);
    }

    /** Visit a node from outside, unless an earlier visit reached it. */
    method VisitNew(name: string)
      requires Valid() && name in g && stack == [] && (states == map[] ==> name == root)
      modifies this
      ensures Valid() && stack == [] && name in states && Grown(old(states), states)
    {
      if name !in states {
        Visit(name);
      }
    }

    method FollowAll(name: string)
      requires Valid() && stack != [] && stack[|stack| - 1] == name && name in g
      modifies this
      ensures Valid() && stack == old(stack) && old(Cut()) <= Cut() && Grown(old(states), states)
      ensures Leaves(g, View(), name)
      decreases g.Keys - states.Keys, 2
    {
      var dependencies := g[name];
      for i := 0 to |dependencies|
        invariant Valid() && stack == old(stack) && old(Cut()) <= Cut() && Grown(old(states), states)
        invariant forall j | 0 <= j < i && dependencies[j] in g && (name, dependencies[j]) !in Cut() :: dependencies[j] in finished
      {
        Follow(name, dependencies[i]);
      }
    }

    method Follow(name: string, dependency: string)
      requires Valid() && stack != [] && stack[|stack| - 1] == name && name in g && dependency in g[name]
      modifies this
      ensures Valid() && stack == old(stack) && old(Cut()) <= Cut() && Grown(old(states), states)
      ensures dependency in g && (name, dependency) !in Cut() ==> dependency in finished
      decreases g.Keys - states.Keys, 1
    {
      if dependency in g {
        assert Edge(g, name, dependency);
        assert name in stack;
        if dependency !in states {
          Visit(dependency);
        } else if states[dependency] == Open {
          Report(dependency);
        }
      }
    }
  }

  /** No mark is lost, and no finished node reopened. */
  ghost predicate Grown(before: map<string, Mark>, after: map<string, Mark>)
  {
    forall x | x in before :: x in after && (before[x] == Done ==> after[x] == Done)
  }

  // ----- what the search keeps -----

  /** A cycle that passes the root starts there. */
  ghost predicate Rooted(g: Deps, root: string, c: seq<string>)
  {
    Cycle(g, c) && forall i | 0 < i < |c| - 1 :: c[i] != root
  }

  /** Every reported cycle was closed, and every closed one is reported under its text, once. */
  ghost predicate Told(g: Deps, root: string, p: Progress)
  {
    && (forall c <- p.found :: Rooted(g, root, c) && Join(c) in p.seen)
    && (forall c <- p.cycles :: c in p.found)
    && (forall t <- p.seen :: Reported(p.cycles, t))
    && (forall i, j | 0 <= i < j < |p.cycles| :: Join(p.cycles[i]) != Join(p.cycles[j]))
  }

  predicate Reported(cycles: seq<seq<string>>, text: string) { exists c <- cycles :: Join(c) == text }

  /** The root is opened first. */
  predicate RootFirst(root: string, p: Progress)
  {
    (p.states != map[] ==> root in p.states) && forall i | 0 < i < |p.stack| :: p.stack[i] != root
  }

  /** `w` is directly above `u`. */
  predicate Under(stack: seq<string>, u: string, w: string)
  {
    exists i | 0 < i < |stack| :: stack[i - 1] == u && stack[i] == w
  }

  /** A cycle goes along the edges by which nodes were visited until it closes, and none of those edges closes one. */
  ghost predicate Grounded(states: map<string, Mark>, stack: seq<string>, tree: Edges, found: seq<seq<string>>)
  {
    && (forall i | 0 < i < |stack| :: (stack[i - 1], stack[i]) in tree)
    && (forall u, w | (u, w) in tree :: w in states && (w in stack ==> Under(stack, u, w)))
    && (forall c, i | c in found && 0 < i < |c| - 1 :: (c[i - 1], c[i]) in tree)
    && (forall u, w | (u, w) in ClosingEdges(found) :: w in states && (u, w) !in tree)
  }

  lemma ReportTold(g: Deps, root: string, p: Progress, c: seq<string>)
    requires Told(g, root, p) && Rooted(g, root, c)
    ensures Told(g, root, Reporting(p, c))
  {
    var text := Join(c);
    if text !in p.seen {
      assert (p.cycles + [c])[|p.cycles|] == c;
      assert forall r <- p.cycles :: r in p.cycles + [c] && Join(r) in p.seen;
    }
  }

  lemma CloseRooted(g: Deps, root: string, p: Progress, start: nat)
    requires Marked(g, p) && RootFirst(root, p) && start < |p.stack| && Edge(g, p.stack[|p.stack| - 1], p.stack[start])
    ensures Rooted(g, root, p.stack[start..] + [p.stack[start]])
  {
    var c := p.stack[start..] + [p.stack[start]];
    CloseWalk(g, p.stack, start, p.stack[start]);
    assert c[..|c| - 1] == p.stack[start..];
  }

  /** Closing a cycle from its place on the stack. */
  lemma CloseGrounded(states: map<string, Mark>, stack: seq<string>, tree: Edges, found: seq<seq<string>>, start: nat)
    requires Grounded(states, stack, tree, found) && Distinct(stack) && start < |stack| && forall x <- stack :: x in states
    ensures Grounded(states, stack, tree, found + [stack[start..] + [stack[start]]])
  {
    var top, dependency := stack[|stack| - 1], stack[start];
    var c := stack[start..] + [dependency];
    OneMoreClosing(found, c);
    assert Closing(c) == (top, dependency);
    forall i | 0 < i < |c| - 1
      ensures (c[i - 1], c[i]) in tree
    {
      assert c[i - 1] == stack[start + i - 1] && c[i] == stack[start + i];
    }
    assert !Under(stack, top, dependency);
  }

  lemma UnderMore(stack: seq<string>, name: string, u: string, w: string)
    requires Under(stack, u, w)
    ensures Under(stack + [name], u, w)
  {
    var i :| 0 < i < |stack| && stack[i - 1] == u && stack[i] == w;
    assert (stack + [name])[i - 1] == u && (stack + [name])[i] == w;
  }

  lemma EnterUnder(stack: seq<string>, tree: Edges, name: string, u: string, w: string)
    requires forall u, w | (u, w) in tree && w in stack :: Under(stack, u, w)
    requires (u, w) in tree + Onto(stack, name) && w in stack + [name] && (w == name ==> (u, w) !in tree)
    ensures Under(stack + [name], u, w)
  {
    if (u, w) in tree {
      UnderMore(stack, name, u, w);
    } else {
      assert (stack + [name])[|stack| - 1] == u && (stack + [name])[|stack|] == w;
    }
  }

  lemma EnterGrounded(states: map<string, Mark>, stack: seq<string>, tree: Edges, found: seq<seq<string>>, name: string)
    requires Grounded(states, stack, tree, found) && name !in states && forall x <- stack :: x in states
    ensures Grounded(states[name := Open], stack + [name], tree + Onto(stack, name), found)
  {
    var more, tree' := stack + [name], tree + Onto(stack, name);
    forall u, w | (u, w) in tree' && w in more
      ensures Under(more, u, w)
    {
      EnterUnder(stack, tree, name, u, w);
    }
    forall i | 0 < i < |more|
      ensures (more[i - 1], more[i]) in tree'
    {
      assert i < |stack| ==> more[i - 1] == stack[i - 1] && more[i] == stack[i];
    }
  }

  lemma UnderLess(stack: seq<string>, u: string, w: string)
    requires Under(stack, u, w) && Distinct(stack) && w in stack[..|stack| - 1]
    ensures Under(stack[..|stack| - 1], u, w)
  {
    var i :| 0 < i < |stack| && stack[i - 1] == u && stack[i] == w;
    var less := stack[..|stack| - 1];
    var j :| 0 <= j < |less| && less[j] == w;
    assert stack[j] == w && i == j;
    assert less[i - 1] == u;
  }

  lemma LeaveGrounded(states: map<string, Mark>, stack: seq<string>, tree: Edges, found: seq<seq<string>>, name: string)
    requires Grounded(states, stack, tree, found) && Distinct(stack) && stack != [] && stack[|stack| - 1] == name
    ensures Grounded(states[name := Done], stack[..|stack| - 1], tree, found)
  {
    var less := stack[..|stack| - 1];
    forall u, w | (u, w) in tree && w in less
      ensures Under(less, u, w)
    {
      UnderLess(stack, u, w);
    }
    forall i | 0 < i < |less|
      ensures (less[i - 1], less[i]) in tree
    {
      assert less[i - 1] == stack[i - 1] && less[i] == stack[i];
    }
  }

  // Three laws, each kept on its own.

  ghost function Telling(g: Deps, root: string): Progress -> bool { (p: Progress) => Told(g, root, p) && RootFirst(root, p) }

  ghost function Grounding(): Progress -> bool { (p: Progress) => Grounded(p.states, p.stack, p.tree, p.found) }

  ghost function Ordering(g: Deps): Progress -> bool { (p: Progress) => OrderedBut(g, ClosingEdges(p.found), p.finished) }

  function And(a: Progress -> bool, b: Progress -> bool): Progress -> bool { (p: Progress) => a(p) && b(p) }

  lemma BothLawful(g: Deps, root: string, a: Progress -> bool, b: Progress -> bool)
    requires Lawful(g, root, a) && Lawful(g, root, b)
    ensures Lawful(g, root, And(a, b))
  {
  }

  lemma TellingIsKept(g: Deps, root: string)
    ensures Lawful(g, root, Telling(g, root))
  {
    var law := Telling(g, root);
    forall p, c | law(p) && Marked(g, p) && Reports(g, p, c)
      ensures law(Reporting(p, c))
    {
      ReportKeepsTelling(g, root, p, c);
    }
    forall p, name | law(p) && Marked(g, p) && Enters(g, p, name) && (p.states == map[] ==> name == root)
      ensures law(Entering(p, name))
    {
      EnterKeepsTelling(g, root, p, name);
    }
    forall p, name | law(p) && Marked(g, p) && Leaves(g, p, name)
      ensures law(Leaving(p, name))
    {
      LeaveKeepsTelling(g, root, p, name);
    }
  }

  lemma LeaveKeepsTelling(g: Deps, root: string, p: Progress, name: string)
    requires Telling(g, root)(p) && Marked(g, p) && Leaves(g, p, name)
    ensures Telling(g, root)(Leaving(p, name))
  {
  }

  lemma ReportKeepsTelling(g: Deps, root: string, p: Progress, c: seq<string>)
    requires Telling(g, root)(p) && Marked(g, p) && Reports(g, p, c)
    ensures Telling(g, root)(Reporting(p, c))
  {
    var start :| 0 <= start < |p.stack| && c == p.stack[start..] + [p.stack[start]] && Edge(g, p.stack[|p.stack| - 1], p.stack[start]);
    CloseRooted(g, root, p, start);
    ReportTold(g, root, p, c);
  }

  lemma EnterKeepsTelling(g: Deps, root: string, p: Progress, name: string)
    requires Telling(g, root)(p) && Marked(g, p) && Enters(g, p, name) && (p.states == map[] ==> name == root)
    ensures Telling(g, root)(Entering(p, name))
  {
    assert p.stack != [] ==> p.stack[0] in p.stack;
  }

  lemma GroundingIsKept(g: Deps, root: string)
    ensures Lawful(g, root, Grounding())
  {
    forall p, c | Grounding()(p) && Marked(g, p) && Reports(g, p, c)
      ensures Grounding()(Reporting(p, c))
    {
      var start :| 0 <= start < |p.stack| && c == p.stack[start..] + [p.stack[start]] && Edge(g, p.stack[|p.stack| - 1], p.stack[start]);
      CloseGrounded(p.states, p.stack, p.tree, p.found, start);
    }
    forall p, name | Grounding()(p) && Marked(g, p) && Enters(g, p, name)
      ensures Grounding()(Entering(p, name))
    {
      EnterGrounded(p.states, p.stack, p.tree, p.found, name);
    }
    forall p, name | Grounding()(p) && Marked(g, p) && Leaves(g, p, name)
      ensures Grounding()(Leaving(p, name))
    {
      LeaveGrounded(p.states, p.stack, p.tree, p.found, name);
    }
  }

  lemma OrderingIsKept(g: Deps, root: string)
    ensures Lawful(g, root, Ordering(g))
  {
    forall p, c | Ordering(g)(p) && Marked(g, p) && Reports(g, p, c)
      ensures Ordering(g)(Reporting(p, c))
    {
      OneMoreClosing(p.found, c);
    }
    forall p, name | Ordering(g)(p) && Marked(g, p) && Leaves(g, p, name)
      ensures Ordering(g)(Leaving(p, name))
    {
      AppendBut(g, ClosingEdges(p.found), p.finished, name);
    }
  }

  ghost function Law(g: Deps, root: string): Progress -> bool { And(Telling(g, root), And(Grounding(), Ordering(g))) }

  lemma LawIsKept(g: Deps, root: string)
    ensures Lawful(g, root, Law(g, root)) && Law(g, root)(NOTHING)
  {
    TellingIsKept(g, root);
    GroundingIsKept(g, root);
    OrderingIsKept(g, root);
    BothLawful(g, root, Grounding(), Ordering(g));
    BothLawful(g, root, Telling(g, root), And(Grounding(), Ordering(g)));
  }

  // ----- what is found -----

  /** Names without `>` are told apart in a joined text. */
  predicate Arrowless(g: Deps) { forall k <- g :: '>' !in k }

  /** Length of the text before the first `>`. */
  function Head(text: string): nat
  {
    if text == "" || text[0] == '>' then 0 else 1 + Head(text[1..])
  }

  lemma {:induction false} HeadBehind(a: string, b: string)
    requires '>' !in a
    ensures Head(a + b) == |a| + Head(b)
  {
    if a == "" {
      assert a + b == b;
    } else {
      assert (a + b)[1..] == a[1..] + b;
      HeadBehind(a[1..], b);
    }
  }

  lemma ArrowHead(a: string, b: string)
    requires '>' !in a
    ensures Head(a + " -> " + b) == |a| + 2
  {
    var front, back := a + " -", "> " + b;
    HeadBehind(front, back);
    assert a + " -> " + b == front + back;
  }

  lemma JoinHead(names: seq<string>)
    requires names != [] && '>' !in names[0]
    ensures |names| == 1 ==> Head(Join(names)) == |names[0]| == |Join(names)|
    ensures |names| > 1 ==> Head(Join(names)) == |names[0]| + 2 < |Join(names)|
    ensures |names| > 1 ==> Join(names) == names[0] + " -> " + Join(names[1..])
  {
    if |names| == 1 {
      HeadBehind(names[0], "");
      assert names[0] + "" == names[0];
    } else {
      ArrowHead(names[0], Join(names[1..]));
    }
  }

  lemma SameParts(a: string, b: string, arrow: string, c: string, d: string)
    requires |a| == |b| && a + arrow + c == b + arrow + d
    ensures a == b && c == d
  {
    var text := a + arrow + c;
    assert a == text[..|a|] && b == text[..|a|];
    assert c == text[|a| + |arrow|..] && d == text[|a| + |arrow|..];
  }

  lemma {:induction false} JoinTells(a: seq<string>, b: seq<string>)
    requires a != [] && b != [] && (forall n <- a :: '>' !in n) && (forall n <- b :: '>' !in n) && Join(a) == Join(b)
    ensures a == b
  {
    JoinHead(a);
    JoinHead(b);
    if |a| > 1 {
      SameParts(a[0], b[0], " -> ", Join(a[1..]), Join(b[1..]));
      JoinTells(a[1..], b[1..]);
      assert a == [a[0]] + a[1..] && b == [b[0]] + b[1..];
    }
  }

  /** A cycle the search closed is left by any edges that closed others. */
  lemma FoundSurvives(g: Deps, root: string, p: Progress, c: seq<string>, cut: Edges)
    requires Law(g, root)(p) && c in p.found && cut <= ClosingEdges(p.found) && |c| >= 2 && Closing(c) !in cut
    ensures !Acyclic(Without(g, cut))
  {
    forall i | 0 < i < |c|
      ensures (c[i - 1], c[i]) !in cut
    {
      assert i < |c| - 1 ==> (c[i - 1], c[i]) in p.tree;
    }
    assert Rooted(g, root, c);
    Survives(g, c, cut);
  }

  /** What a search that has visited every node knows. */
  ghost predicate Complete(g: Deps, root: string, cycles: seq<seq<string>>, found: seq<seq<string>>)
  {
    && (forall c <- found :: Rooted(g, root, c) && Reported(cycles, Join(c)))
    && (forall c <- cycles :: c in found)
    && (forall i, j | 0 <= i < j < |cycles| :: Join(cycles[i]) != Join(cycles[j]))
    && Acyclic(Without(g, ClosingEdges(found)))
    && (forall c, cut: Edges | c in found && Closing(c) !in cut && cut <= ClosingEdges(found) :: !Acyclic(Without(g, cut)))
  }

  lemma SearchEnds(g: Deps, root: string, p: Progress)
    requires Law(g, root)(p) && Marked(g, p) && p.stack == [] && forall k <- g :: k in p.states
    ensures Complete(g, root, p.cycles, p.found)
  {
    var rest := Without(g, ClosingEdges(p.found));
    OrderedWithout(g, ClosingEdges(p.found), p.finished);
    forall k | k in rest
      ensures k in p.finished
    {
      assert k !in p.stack;
    }
    OrderedIsAcyclic(rest, p.finished);
    forall c, cut: Edges | c in p.found && Closing(c) !in cut && cut <= ClosingEdges(p.found)
      ensures !Acyclic(Without(g, cut))
    {
      FoundSurvives(g, root, p, c, cut);
    }
  }

  lemma ReportedAreClosing(cycles: seq<seq<string>>, found: seq<seq<string>>)
    requires forall c <- cycles :: c in found
    ensures ClosingEdges(cycles) <= ClosingEdges(found)
  {
  }

  lemma SomeFirst<T>(s: seq<T>)
    ensures s == [] || exists x :: x in s
  {
    if s != [] {
      assert s[0] in s;
    }
  }

  lemma NothingReported(g: Deps, root: string, cycles: seq<seq<string>>, found: seq<seq<string>>)
    requires Complete(g, root, cycles, found)
    ensures cycles == [] <==> Acyclic(g)
  {
    if cycles == [] {
      SomeFirst(found);
      assert forall c :: c in found ==> Reported(cycles, Join(c));
      assert ClosingEdges(found) == {};
      NothingTaken(g);
    } else {
      assert cycles[0] in cycles && ClosedWalk(g, cycles[0]);
    }
  }

  /** With its closing edge back in, a cycle is left. */
  ghost predicate Needed(g: Deps, cycles: seq<seq<string>>, c: seq<string>)
  {
    |c| >= 2 && !Acyclic(Without(g, ClosingEdges(cycles) - {Closing(c)}))
  }

  /** The reports break every cycle exactly if no closed cycle went unreported behind another one of its text. */
  lemma ReportsBreak(g: Deps, root: string, cycles: seq<seq<string>>, found: seq<seq<string>>)
    requires Complete(g, root, cycles, found)
    ensures Acyclic(Without(g, ClosingEdges(cycles))) <==> ClosingEdges(cycles) == ClosingEdges(found)
    ensures forall c <- cycles :: Needed(g, cycles, c)
  {
    ReportedAreClosing(cycles, found);
    if ClosingEdges(cycles) != ClosingEdges(found) {
      var c :| c in found && |c| >= 2 && Closing(c) !in ClosingEdges(cycles);
    }
    forall c <- cycles
      ensures Needed(g, cycles, c)
    {
      assert Rooted(g, root, c);
      var cut := ClosingEdges(cycles) - {Closing(c)};
      assert c in found && Closing(c) !in cut && cut <= ClosingEdges(found);
    }
  }

  lemma CycleNames(g: Deps, c: seq<string>)
    requires Cycle(g, c) && Arrowless(g)
    ensures forall n <- c :: '>' !in n
  {
  }

  lemma ArrowlessAreAllReported(g: Deps, root: string, cycles: seq<seq<string>>, found: seq<seq<string>>)
    requires Complete(g, root, cycles, found) && Arrowless(g)
    ensures ClosingEdges(cycles) == ClosingEdges(found)
  {
    forall c <- found
      ensures c in cycles
    {
      var r :| r in cycles && Join(r) == Join(c);
      assert r in found;
      CycleNames(g, c);
      CycleNames(g, r);
      JoinTells(r, c);
    }
  }

  /**
   * Every reported list is a cycle of service dependencies, and no two have the
   * same text. They are the cycles the search closed, one of each text, and
   * taking out the edges that closed those leaves no cycle. So the reports miss
   * none, in that taking out their closing edges leaves no cycle, exactly if no
   * two closed cycles of different closing edges have the same text, which
   * names without `>` cannot have; and no report is more than that needs.
   */
  method DependencyCycles(g: Deps, names: seq<string>) returns (cycles: seq<seq<string>>, ghost found: seq<seq<string>>)
    requires forall k :: k in names <==> k in g
    ensures forall c <- found :: Cycle(g, c) && Reported(cycles, Join(c))
    ensures forall c <- cycles :: c in found
    ensures forall i, j | 0 <= i < j < |cycles| :: Join(cycles[i]) != Join(cycles[j])
    ensures Acyclic(Without(g, ClosingEdges(found)))
    ensures Acyclic(Without(g, ClosingEdges(cycles))) <==> ClosingEdges(cycles) == ClosingEdges(found)
    ensures Arrowless(g) ==> Acyclic(Without(g, ClosingEdges(cycles)))
    ensures forall c <- cycles :: Needed(g, cycles, c)
    ensures cycles == [] <==> Acyclic(g)
    ensures names != [] ==> Complete(g, names[0], cycles, found)
  {
    ghost var root := if names == [] then "" else names[0];
    LawIsKept(g, root);
    ghost var end;
    cycles, end := VisitAll(g, names, root, Law(g, root));
    found := end.found;
    SearchEnds(g, root, end);
    Conclude(g, root, cycles, found);
  }

  method VisitAll(g: Deps, names: seq<string>, ghost root: string, ghost law: Progress -> bool)
    returns (cycles: seq<seq<string>>, ghost end: Progress)
    requires (forall k :: k in names <==> k in g) && (names != [] ==> root == names[0])
    requires Lawful(g, root, law) && law(NOTHING)
    ensures law(end) && Marked(g, end) && end.stack == [] && (forall k <- g :: k in end.states) && cycles == end.cycles
  {
    var search := new Search(g, root, law);
    for i := 0 to |names|
      invariant search.Valid() && search.stack == [] && search.g == g && fresh(search)
      invariant search.root == root && search.law == law
      invariant forall j | 0 <= j < i :: names[j] in search.states
    {
      search.VisitNew(names[i]);
    }
    cycles, end := search.cycles, search.View();
  }

  lemma Conclude(g: Deps, root: string, cycles: seq<seq<string>>, found: seq<seq<string>>)
    requires Complete(g, root, cycles, found)
    ensures forall c <- found :: Cycle(g, c) && Reported(cycles, Join(c))
    ensures Acyclic(Without(g, ClosingEdges(cycles))) <==> ClosingEdges(cycles) == ClosingEdges(found)
    ensures Arrowless(g) ==> Acyclic(Without(g, ClosingEdges(cycles)))
    ensures forall c <- cycles :: Needed(g, cycles, c)
    ensures cycles == [] <==> Acyclic(g)
  {
    NothingReported(g, root, cycles, found);
    ReportsBreak(g, root, cycles, found);
    if Arrowless(g) {
      ArrowlessAreAllReported(g, root, cycles, found);
    }
  }

  // ----- two cycles of one text -----

  function Named(left: string, right: string): string { left + " -> " + right }

  /** Both ways round from `a` and back, the names spell the same. */
  function Twins(a: string, b: string, c: string, d: string): Deps
  {
    map[a := [Named(b, c), b], Named(b, c) := [d], d := [a], b := [Named(c, d)], Named(c, d) := [a]]
  }

  lemma JoinMore(a: string, rest: seq<string>)
    requires rest != []
    ensures Join([a] + rest) == a + " -> " + Join(rest)
  {
    assert ([a] + rest)[1..] == rest;
  }

  lemma JoinFour(a: string, b: string, c: string, d: string)
    ensures Join([a, b, c, d]) == a + " -> " + (b + " -> " + (c + " -> " + d))
  {
    JoinMore(c, [d]);
    JoinMore(b, [c, d]);
    JoinMore(a, [b, c, d]);
    assert [a] + [b, c, d] == [a, b, c, d] && [b] + [c, d] == [b, c, d] && [c] + [d] == [c, d];
  }

  lemma Regroup(a: string, b: string, c: string, d: string, arrow: string)
    ensures b + arrow + c + (arrow + (d + arrow + a)) == b + arrow + (c + arrow + d + (arrow + a))
  {
    var end := arrow + a;
    Associate(d, arrow, a);
    Associate(b + arrow, c, arrow + (d + end));
    Associate(c, arrow, d + end);
    Associate(c + arrow, d, end);
  }

  lemma TwinsSpellTheSame(a: string, b: string, c: string, d: string)
    ensures Join([a, Named(b, c), d, a]) == Join([a, b, Named(c, d), a])
  {
    var arrow := " -> ";
    JoinFour(a, Named(b, c), d, a);
    JoinFour(a, b, Named(c, d), a);
    assert Named(b, c) + arrow + (d + arrow + a) == b + arrow + c + (arrow + (d + arrow + a));
    assert Named(c, d) + arrow + a == c + arrow + d + (arrow + a);
    Regroup(a, b, c, d, arrow);
  }

  /** The nodes of `Twins`, with the two joined names spelled `p` and `q`. */
  predicate TwinGraph(g: Deps, a: string, b: string, d: string, p: string, q: string)
  {
    Distinct([a, b, d, p, q]) && g == map[a := [p, b], p := [d], d := [a], b := [q], q := [a]]
  }

  lemma TwinEdges(g: Deps, a: string, b: string, d: string, p: string, q: string, x: string, y: string)
    requires TwinGraph(g, a, b, d, p, q) && Edge(g, x, y)
    ensures (x == a && (y == p || y == b)) || (x == p && y == d) || (x == d && y == a) || (x == b && y == q) || (x == q && y == a)
  {
    var nodes := [a, b, d, p, q];
    assert nodes[0] == a && nodes[1] == b && nodes[2] == d && nodes[3] == p && nodes[4] == q;
  }

  /** Each node's way back to `a` is one way. */
  lemma TwinCycles(g: Deps, a: string, b: string, d: string, p: string, q: string, w: seq<string>)
    requires TwinGraph(g, a, b, d, p, q) && Rooted(g, a, w)
    ensures w == [a, p, d, a] || w == [a, b, q, a]
  {
    var nodes := [a, b, d, p, q];
    assert nodes[0] == a && nodes[1] == b && nodes[2] == d && nodes[3] == p && nodes[4] == q;
    forall i | 0 < i < |w|
      ensures Edge(g, w[i - 1], w[i])
    {
    }
    TwinEdges(g, a, b, d, p, q, w[0], w[1]);
    if |w| > 2 {
      TwinEdges(g, a, b, d, p, q, w[1], w[2]);
    }
    if |w| > 3 {
      TwinEdges(g, a, b, d, p, q, w[2], w[3]);
    }
  }

  lemma TwinLoses(g: Deps, a: string, b: string, d: string, p: string, q: string,
                  cycles: seq<seq<string>>, found: seq<seq<string>>)
    requires TwinGraph(g, a, b, d, p, q) && Complete(g, a, cycles, found)
    requires Join([a, p, d, a]) == Join([a, b, q, a])
    ensures |cycles| == 1 && !Acyclic(Without(g, ClosingEdges(cycles)))
  {
    var left, right := [a, p, d, a], [a, b, q, a];
    TwinsFound(g, a, b, d, p, q, cycles, found);
    OneOfTwins(cycles, left, right);
    var lost := if cycles[0] == left then right else left;
    ReportedAreClosing(cycles, found);
    OneClosing(cycles);
    assert lost in found && Closing(lost) !in ClosingEdges(cycles);
  }

  lemma OneClosing(cycles: seq<seq<string>>)
    requires |cycles| == 1 && |cycles[0]| >= 2
    ensures ClosingEdges(cycles) == {Closing(cycles[0])}
  {
    assert forall c :: c in cycles <==> c == cycles[0];
  }

  lemma TwinsFound(g: Deps, a: string, b: string, d: string, p: string, q: string,
                   cycles: seq<seq<string>>, found: seq<seq<string>>)
    requires TwinGraph(g, a, b, d, p, q) && Complete(g, a, cycles, found)
    ensures forall w :: w in found <==> w == [a, p, d, a] || w == [a, b, q, a]
    ensures Reported(cycles, Join([a, p, d, a])) && d != q
  {
    var left, right := [a, p, d, a], [a, b, q, a];
    TwinsAreCycles(g, a, b, d, p, q);
    forall w <- found
      ensures w == left || w == right
    {
      TwinCycles(g, a, b, d, p, q, w);
    }
    if left !in found {
      Survives(g, left, ClosingEdges(found));
    }
    if right !in found {
      Survives(g, right, ClosingEdges(found));
    }
  }

  lemma TwinsAreCycles(g: Deps, a: string, b: string, d: string, p: string, q: string)
    requires TwinGraph(g, a, b, d, p, q)
    ensures Cycle(g, [a, p, d, a]) && Cycle(g, [a, b, q, a]) && d != q
    ensures forall i | 0 < i < 4 :: ([a, p, d, a][i - 1], [a, p, d, a][i]) != (q, a)
    ensures forall i | 0 < i < 4 :: ([a, b, q, a][i - 1], [a, b, q, a][i]) != (d, a)
  {
    var nodes := [a, b, d, p, q];
    assert nodes[0] == a && nodes[1] == b && nodes[2] == d && nodes[3] == p && nodes[4] == q;
    assert [a, p, d, a][..3] == [a, p, d] && [a, b, q, a][..3] == [a, b, q];
  }

  lemma TwoTexts(cycles: seq<seq<string>>)
    requires forall i, j | 0 <= i < j < |cycles| :: Join(cycles[i]) != Join(cycles[j])
    ensures |cycles| > 1 ==> exists c, w :: c in cycles && w in cycles && Join(c) != Join(w)
  {
    if |cycles| > 1 {
      assert cycles[0] in cycles && cycles[1] in cycles && Join(cycles[0]) != Join(cycles[1]);
    }
  }

  lemma OneOfTwins(cycles: seq<seq<string>>, left: seq<string>, right: seq<string>)
    requires (forall c <- cycles :: c == left || c == right) && Join(left) == Join(right) && Reported(cycles, Join(left))
    requires forall i, j | 0 <= i < j < |cycles| :: Join(cycles[i]) != Join(cycles[j])
    ensures |cycles| == 1 && (cycles[0] == left || cycles[0] == right)
  {
    TwoTexts(cycles);
    assert cycles[0] in cycles;
  }

  /** Of two cycles that spell the same only one is reported, and the other is left when its closing edge is gone. */
  method TwinIsLost(a: string, b: string, c: string, d: string, names: seq<string>) returns (cycles: seq<seq<string>>)
    requires Distinct([a, b, d, Named(b, c), Named(c, d)])
    requires names != [] && names[0] == a && forall k :: k in names <==> k in Twins(a, b, c, d)
    ensures |cycles| == 1 && !Acyclic(Without(Twins(a, b, c, d), ClosingEdges(cycles)))
  {
    var g := Twins(a, b, c, d);
    ghost var found;
    cycles, found := DependencyCycles(g, names);
    TwinsSpellTheSame(a, b, c, d);
    TwinLoses(g, a, b, d, Named(b, c), Named(c, d), cycles, found);
  }
}
