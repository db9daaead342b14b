/** Dependency graphs: walks, cycles and orders. */
module DependencyGraph {

  /** Each node with what it depends on. A dependency need not be a node. */
  type Deps = map<string, seq<string>>

  predicate Edge(g: Deps, a: string, b: string) { a in g && b in g && b in g[a] }

  /** Nodes along edges. A walk of `n` nodes has `n - 1` edges. */
  predicate Walk(g: Deps, w: seq<string>)
  {
    && w != []
    && (forall i | 0 <= i < |w| :: w[i] in g)
    && (forall i | 0 < i < |w| :: Edge(g, w[i - 1], w[i]))
  }

  predicate ClosedWalk(g: Deps, w: seq<string>) { |w| >= 2 && Walk(g, w) && w[0] == w[|w| - 1] }

  ghost predicate Acyclic(g: Deps) { forall w :: !ClosedWalk(g, w) }

  ghost predicate NoWalkLongerThan(g: Deps, edges: nat) { forall w | Walk(g, w) :: |w| <= edges + 1 }

  predicate Distinct(s: seq<string>) { forall i, j | 0 <= i < j < |s| :: s[i] != s[j] }

  /** Every dependency that is a node comes before its dependent. */
  predicate Ordered(g: Deps, order: seq<string>)
  {
    forall i, d | 0 <= i < |order| && order[i] in g && d in g[order[i]] && d in g :: d in order[..i]
  }

  lemma OrderedAppend(g: Deps, order: seq<string>, x: string)
    requires Ordered(g, order)
    requires x in g ==> forall d | d in g[x] && d in g :: d in order
    ensures Ordered(g, order + [x])
  {
    var all := order + [x];
    forall i, d | 0 <= i < |all| && all[i] in g && d in g[all[i]] && d in g
      ensures d in all[..i]
    {
      if i < |order| {
        assert d in order[..i] && all[..i] == order[..i];
      } else {
        assert all[..i] == order;
      }
    }
  }

  /** Along a walk, positions in such an order go down. */
  lemma {:induction false} WalkDescends(g: Deps, order: seq<string>, w: seq<string>, p: nat) returns (q: nat)
    requires Ordered(g, order) && Distinct(order) && Walk(g, w) && p < |order| && order[p] == w[0]
    ensures q <= p && order[q] == w[|w| - 1] && (|w| >= 2 ==> q < p)
    decreases |w|
  {
    if |w| == 1 {
      q := p;
    } else {
      assert Edge(g, w[0], w[1]);
      assert w[1] in order[..p];
      var next :| 0 <= next < p && order[next] == w[1];
      var rest := w[1..];
      assert forall i | 0 < i < |rest| :: Edge(g, w[i], w[i + 1]);
      q := WalkDescends(g, order, rest, next);
    }
  }

  lemma OrderedIsAcyclic(g: Deps, order: seq<string>)
    requires Ordered(g, order) && Distinct(order) && forall k | k in g :: k in order
    ensures Acyclic(g)
  {
    forall w
      ensures !ClosedWalk(g, w)
    {
      if ClosedWalk(g, w) {
        var p :| 0 <= p < |order| && order[p] == w[0];
        var q := WalkDescends(g, order, w, p);
        assert false;
      }
    }
  }

  /** A walk's part from one of its nodes, closed by an edge back to it. */
  lemma CloseWalk(g: Deps, w: seq<string>, i: nat, d: string)
    requires Walk(g, w) && i < |w| && w[i] == d && Edge(g, w[|w| - 1], d)
    ensures ClosedWalk(g, w[i..] + [d])
  {
    var c := w[i..] + [d];
    forall j | 0 < j < |c|
      ensures Edge(g, c[j - 1], c[j])
    {
      if j < |c| - 1 {
        assert Edge(g, w[i + j - 1], w[i + j]);
      }
    }
  }

  lemma ExtendWalk(g: Deps, w: seq<string>, d: string)
    requires d in g && (w == [] || (Walk(g, w) && Edge(g, w[|w| - 1], d)))
    ensures Walk(g, w + [d])
  {
  }
}
