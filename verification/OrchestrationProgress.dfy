/** When the orchestrator moves on, when it is stuck for good, and what it then announces. */
module OrchestrationProgress {
  import opened Basics
  import opened DependencyGraph
  import DependencyOrder
  import opened OrchestrationState
  import opened OrchestrationInvariants
  import opened OrchestrationTheorems

  // ----- the graph a plan builds -----

  /** Literal dependencies name no node of the same or a later task. */
  predicate LooksBack(output: Output, ids: seq<string>)
    requires |ids| == Size(output)
  {
    forall i, d, j | 0 <= i < |output.tasks| && d in output.tasks[i].dependsOn && d != "" && d[0] == 'g' && i <= j < |ids| ::
      d != ids[j]
  }

  /** Literal dependencies name the planner or a node of the plan. */
  predicate NamesKnown(output: Output, ids: seq<string>, root: string)
    requires |ids| == Size(output)
  {
    forall i, d | 0 <= i < |output.tasks| && d in output.tasks[i].dependsOn && d != "" && d[0] == 'g' :: d == root || d in ids
  }

  lemma {:induction false} ResolvedIs(deps: seq<string>, earlier: seq<string>)
    ensures forall x :: x in Resolved(deps, earlier) <==> exists d <- deps :: Resolve(d, earlier) == Some(x)
  {
    if deps != [] {
      var n := |deps| - 1;
      ResolvedIs(deps[..n], earlier);
      assert forall d :: d in deps <==> d in deps[..n] || d == deps[n];
    }
  }

  lemma {:induction false} AddedSits(config: Config, root: string, ids: seq<string>, output: Output, nodes: Nodes, n: nat, j: nat)
    requires |ids| == Size(output) && j < n <= |ids| && Distinct(ids)
    ensures var after := Added(config, root, ids, output, nodes, n);
            ids[j] in after && after[ids[j]] == NewNode(config, root, ids, output, j)
  {
    if j < n - 1 {
      AddedSits(config, root, ids, output, nodes, n - 1, j);
    }
  }

  /** Each new node sits at its own id, and the planner stays as it was. */
  lemma AddedAt(config: Config, root: string, ids: seq<string>, output: Output, nodes: Nodes)
    requires |ids| == Size(output) && Distinct(ids)
    ensures var after := Added(config, root, ids, output, nodes, |ids|);
            && (forall j | 0 <= j < |ids| :: ids[j] in after && after[ids[j]] == NewNode(config, root, ids, output, j))
            && (forall k | k in nodes && k !in ids :: k in after && after[k] == nodes[k])
            && (forall k <- after :: k in nodes || k in ids)
  {
    forall j | 0 <= j < |ids|
      ensures var after := Added(config, root, ids, output, nodes, |ids|);
              ids[j] in after && after[ids[j]] == NewNode(config, root, ids, output, j)
    {
      AddedSits(config, root, ids, output, nodes, |ids|, j);
    }
    AddedNodes(config, root, ids, output, nodes, |ids|);
    assert ids[..|ids|] == ids;
  }

  lemma Front(root: string, ids: seq<string>, j: nat, x: string)
    requires j <= |ids| && (x == root || x in ids[..j])
    ensures x in ([root] + ids)[..j + 1]
  {
    var front := ([root] + ids)[..j + 1];
    assert front == [root] + ids[..j];
  }

  lemma DependsBack(config: Config, output: Output, ids: seq<string>, root: string, j: nat, d: string)
    requires |ids| == Size(output) && j < |ids| && LooksBack(output, ids)
    requires d in NewNode(config, root, ids, output, j).dependsOn && (d == root || d in ids)
    ensures d in ([root] + ids)[..j + 1]
  {
    if j < |output.tasks| {
      TaskDependsBack(output.tasks[j].dependsOn, output, ids, root, j, d);
    } else {
      ReviewDependsBack(output.reviews[j - |output.tasks|], ids, root, |output.tasks|, d);
      assert ids[..|output.tasks|] == ids[..j][..|output.tasks|];
    }
    Front(root, ids, j, d);
  }

  lemma ReviewDependsBack(r: PlanReview, ids: seq<string>, root: string, n: nat, d: string)
    requires n <= |ids| && d == ReviewTarget(r, root, ids[..n])
    ensures d == root || d in ids[..n]
  {
  }

  lemma TaskDependsBack(deps: seq<string>, output: Output, ids: seq<string>, root: string, j: nat, d: string)
    requires |ids| == Size(output) && j < |output.tasks| && deps == output.tasks[j].dependsOn && LooksBack(output, ids)
    requires d in Resolved(deps, ids[..j]) && (d == root || d in ids)
    ensures d == root || d in ids[..j]
  {
    ResolvedIs(deps, ids[..j]);
    if d != root {
      var dep :| dep in deps && Resolve(dep, ids[..j]) == Some(d);
      var i :| 0 <= i < |ids| && ids[i] == d;
      if dep != "" && dep[0] == 'g' {
        assert i < j;
        assert ids[..j][i] == d;
      }
    }
  }

  /** The plan's own order is dependencies-first exactly when literals look back; the graph is then acyclic. */
  lemma PlanIsAcyclic(config: Config, root: string, ids: seq<string>, output: Output, nodes: Nodes)
    requires |ids| == Size(output) && Distinct(ids) && root !in ids
    requires nodes.Keys == {root} && nodes[root].dependsOn == []
    ensures var g := DepsOf(Added(config, root, ids, output, nodes, |ids|));
            && (Ordered(g, [root] + ids) <==> LooksBack(output, ids))
            && (LooksBack(output, ids) ==> Acyclic(g))
  {
    var after := Added(config, root, ids, output, nodes, |ids|);
    var g, order := DepsOf(after), [root] + ids;
    AddedAt(config, root, ids, output, nodes);
    if LooksBack(output, ids) {
      PlanIsOrdered(config, root, ids, output, after);
      OrderedIsAcyclic(g, order);
    } else {
      var i, d, j :| 0 <= i < |output.tasks| && d in output.tasks[i].dependsOn && d != "" && d[0] == 'g' && i <= j < |ids| && d == ids[j];
      LiteralMisorders(config, root, ids, output, after, i, j);
    }
  }

  lemma PlanIsOrdered(config: Config, root: string, ids: seq<string>, output: Output, after: Nodes)
    requires |ids| == Size(output) && LooksBack(output, ids)
    requires root in after && after[root].dependsOn == [] && forall k <- after :: k == root || k in ids
    requires forall j | 0 <= j < |ids| :: ids[j] in after && after[ids[j]] == NewNode(config, root, ids, output, j)
    ensures Ordered(DepsOf(after), [root] + ids)
  {
    var g, order := DepsOf(after), [root] + ids;
    forall i, d | 0 <= i < |order| && order[i] in g && d in g[order[i]] && d in g
      ensures d in order[..i]
    {
      if i > 0 {
        assert order[i] == ids[i - 1];
        DependsBack(config, output, ids, root, i - 1, d);
      }
    }
  }

  lemma LiteralMisorders(config: Config, root: string, ids: seq<string>, output: Output, after: Nodes, i: nat, j: nat)
    requires |ids| == Size(output) && Distinct(ids) && root !in ids && i < |output.tasks| && i <= j < |ids|
    requires ids[j] in output.tasks[i].dependsOn && ids[j] != "" && ids[j][0] == 'g'
    requires ids[i] in after && after[ids[i]] == NewNode(config, root, ids, output, i) && ids[j] in after
    ensures !Ordered(DepsOf(after), [root] + ids)
  {
    var g, order := DepsOf(after), [root] + ids;
    ResolvedIs(output.tasks[i].dependsOn, ids[..i]);
    assert Resolve(ids[j], ids[..i]) == Some(ids[j]);
    assert order[i + 1] == ids[i] && ids[j] in g[order[i + 1]];
    assert forall m | 0 < m <= i :: order[m] == ids[m - 1];
  }

  predicate DepsPresent(nodes: Nodes)
  {
    forall k, d | k in nodes && d in nodes[k].dependsOn :: d in nodes
  }

  /** Nothing waits for a node that does not exist exactly when the literals name known nodes. */
  lemma PlanDepsPresent(config: Config, root: string, ids: seq<string>, output: Output, nodes: Nodes)
    requires |ids| == Size(output) && Distinct(ids) && root !in ids
    requires nodes.Keys == {root} && nodes[root].dependsOn == []
    ensures DepsPresent(Added(config, root, ids, output, nodes, |ids|)) <==> NamesKnown(output, ids, root)
  {
    var after := Added(config, root, ids, output, nodes, |ids|);
    AddedAt(config, root, ids, output, nodes);
    if NamesKnown(output, ids, root) {
      forall k, d | k in after && d in after[k].dependsOn
        ensures d in after
      {
        if k != root {
          var j :| 0 <= j < |ids| && ids[j] == k;
          NewDepsKnown(config, root, ids, output, j, d);
        }
      }
    } else {
      var i, d :| 0 <= i < |output.tasks| && d in output.tasks[i].dependsOn && d != "" && d[0] == 'g' && d != root && d !in ids;
      ResolvedIs(output.tasks[i].dependsOn, ids[..i]);
      assert Resolve(d, ids[..i]) == Some(d);
      assert d in after[ids[i]].dependsOn;
    }
  }

  lemma NewDepsKnown(config: Config, root: string, ids: seq<string>, output: Output, j: nat, d: string)
    requires |ids| == Size(output) && j < |ids| && NamesKnown(output, ids, root)
    requires d in NewNode(config, root, ids, output, j).dependsOn
    ensures d == root || d in ids
  {
    if j < |output.tasks| {
      ResolvedIs(output.tasks[j].dependsOn, ids[..j]);
    }
  }

  // ----- moving on, or stuck for good -----

  /** A pending node waits for one that failed or does not exist. */
  ghost predicate Blocked(nodes: Nodes)
  {
    exists k, d :: WaitsFor(nodes, k, d) && (d !in nodes || nodes[d].status == Failed)
  }

  predicate WaitsFor(nodes: Nodes, k: string, d: string)
  {
    k in nodes && nodes[k].status == Pending && d in nodes[k].dependsOn
  }

  lemma {:induction false} Listed(keys: set<string>) returns (names: seq<string>)
    ensures forall k :: k in keys <==> k in names
  {
    if keys == {} {
      names := [];
    } else {
      var k :| k in keys;
      var rest := Listed(keys - {k});
      names := [k] + rest;
    }
  }

  /** Along a dependencies-first order, no node is pending. */
  lemma {:induction false} NonePending(nodes: Nodes, order: seq<string>, n: nat)
    requires NothingReady(nodes) && !Blocked(nodes) && Ordered(DepsOf(nodes), order) && n <= |order|
    requires forall k <- order :: k in nodes
    requires forall k <- nodes :: nodes[k].status != Running && nodes[k].status != Skipped
    ensures forall i | 0 <= i < n :: nodes[order[i]].status != Pending
  {
    if n > 0 {
      NonePending(nodes, order, n - 1);
      var k := order[n - 1];
      if nodes[k].status == Pending {
        forall d <- nodes[k].dependsOn
          ensures d in nodes && nodes[d].status == Complete
        {
          assert WaitsFor(nodes, k, d);
          assert d in DepsOf(nodes)[k] && d in order[..n - 1];
        }
      }
    }
  }

  /** An acyclic graph with nothing running is done, unless some node is blocked. */
  lemma StuckIsBlocked(gid: string, g: Graph)
    requires Sound(gid, g) && Acyclic(DepsOf(g.nodes))
    requires forall k <- g.nodes :: g.nodes[k].status != Running
    ensures AllDone(g.nodes) <==> !Blocked(g.nodes)
  {
    if !Blocked(g.nodes) {
      var deps := DepsOf(g.nodes);
      var names := Listed(g.nodes.Keys);
      DependencyOrder.OrderIsRight(deps, None, names);
      AllListedDone(g.nodes, DependencyOrder.Searched(deps, None, names).result);
    }
  }

  lemma AllListedDone(nodes: Nodes, order: seq<string>)
    requires NothingReady(nodes) && !Blocked(nodes) && Ordered(DepsOf(nodes), order)
    requires forall k :: k in order <==> k in nodes
    requires forall k <- nodes :: nodes[k].status != Running && nodes[k].status != Skipped
    ensures AllDone(nodes)
  {
    NonePending(nodes, order, |order|);
    forall k <- nodes
      ensures Terminal(nodes[k].status)
    {
      assert k in order;
      var i :| 0 <= i < |order| && order[i] == k;
    }
  }

  /** With every dependency present and no failure, something is running or everything is complete. */
  lemma ProgressOrComplete(gid: string, g: Graph)
    requires Sound(gid, g) && Acyclic(DepsOf(g.nodes)) && DepsPresent(g.nodes)
    requires forall k <- g.nodes :: g.nodes[k].status != Failed
    ensures AllComplete(g.nodes) || exists k <- g.nodes :: g.nodes[k].status == Running
  {
    if forall k <- g.nodes :: g.nodes[k].status != Running {
      StuckIsBlocked(gid, g);
    }
  }

  lemma DepsStay(config: Config, cs: seq<Command>, ss: seq<State>, gid: string, i: nat, j: nat)
    requires IsRun(config, cs, ss) && Inv(ss[0]) && i <= j < |ss|
    requires gid in ss[i].graphs && PlannerDone(ss[i].graphs[gid]) && forall m | i <= m < j :: cs[m] != Cancel(gid)
    ensures SameShape(ss[i], ss[j], gid)
  {
    var holds := (m: nat) => m < |ss| && SameShape(ss[i], ss[m], gid);
    forall m: nat | i <= m < j && holds(m)
      ensures holds(m + 1)
    {
      EveryRunKeeps(config, cs, ss, m);
      SameNodes(config, ss[m], cs[m], gid);
    }
    Along(i, j, holds);
  }

  /** The planner is done in both states, with the same nodes and dependencies. */
  predicate SameShape(s: State, t: State, gid: string)
  {
    && gid in s.graphs && gid in t.graphs && PlannerDone(s.graphs[gid]) && PlannerDone(t.graphs[gid])
    && DepsOf(t.graphs[gid].nodes) == DepsOf(s.graphs[gid].nodes)
  }

  /**
   * From the moment a plan with an acyclic graph and known dependencies is in
   * place: after every command, as long as nothing failed and nobody cancelled,
   * some node is running or all nodes are complete.
   */
  lemma GoodPlansProgress(config: Config, cs: seq<Command>, ss: seq<State>, gid: string, i: nat, j: nat)
    requires IsRun(config, cs, ss) && Inv(ss[0]) && i <= j < |ss|
    requires gid in ss[i].graphs && PlannerDone(ss[i].graphs[gid]) && forall m | i <= m < j :: cs[m] != Cancel(gid)
    requires Acyclic(DepsOf(ss[i].graphs[gid].nodes)) && DepsPresent(ss[i].graphs[gid].nodes)
    ensures gid in ss[j].graphs
    ensures var nodes := ss[j].graphs[gid].nodes;
            || (exists k <- nodes :: nodes[k].status == Failed)
            || (exists k <- nodes :: nodes[k].status == Running)
            || AllComplete(nodes)
  {
    DepsStay(config, cs, ss, gid, i, j);
    EveryRunKeeps(config, cs, ss, j);
    SameDepsPresent(ss[i].graphs[gid].nodes, ss[j].graphs[gid].nodes);
    SoundProgress(gid, ss[j]);
  }

  lemma SoundProgress(gid: string, s: State)
    requires Inv(s) && gid in s.graphs
    requires Acyclic(DepsOf(s.graphs[gid].nodes)) && DepsPresent(s.graphs[gid].nodes)
    ensures var nodes := s.graphs[gid].nodes;
            || (exists k <- nodes :: nodes[k].status == Failed)
            || (exists k <- nodes :: nodes[k].status == Running)
            || AllComplete(nodes)
  {
    var g := s.graphs[gid];
    if forall k <- g.nodes :: g.nodes[k].status != Failed {
      ProgressOrComplete(gid, g);
    }
  }

  lemma SameDepsPresent(before: Nodes, after: Nodes)
    requires DepsOf(after) == DepsOf(before)
    ensures DepsPresent(after) <==> DepsPresent(before)
  {
    assert before.Keys == DepsOf(before).Keys && after.Keys == DepsOf(after).Keys;
    assert forall k <- after :: DepsOf(after)[k] == after[k].dependsOn && DepsOf(before)[k] == before[k].dependsOn;
  }

  /** A graph with nothing running never changes again. */
  lemma {:induction false} IdleIsFrozen(config: Config, cs: seq<Command>, ss: seq<State>, gid: string, i: nat, j: nat)
    requires IsRun(config, cs, ss) && i <= j < |ss| && gid in ss[i].graphs
    requires forall k <- ss[i].graphs[gid].nodes :: ss[i].graphs[gid].nodes[k].status != Running
    requires forall m | i <= m < j :: cs[m] != Cancel(gid)
    ensures gid in ss[j].graphs && ss[j].graphs[gid] == ss[i].graphs[gid]
  {
    if i < j {
      IdleIsFrozen(config, cs, ss, gid, i, j - 1);
      StepOnGraph(config, ss[j - 1], cs[j - 1], gid);
    }
  }

  /**
   * A failure takes its direct dependents along, and no others: what waits for
   * a failed or unknown node stays pending, or fails, but never runs.
   */
  lemma BlockedNeverRuns(config: Config, cs: seq<Command>, ss: seq<State>, gid: string, k: string, d: string, i: nat, j: nat)
    requires IsRun(config, cs, ss) && Inv(ss[0]) && i <= j < |ss| && gid in ss[i].graphs
    requires forall m | i <= m < j :: cs[m] != Cancel(gid)
    requires var nodes := ss[i].graphs[gid].nodes;
             WaitsFor(nodes, k, d) && (d !in nodes || nodes[d].status == Failed)
    ensures gid in ss[j].graphs && k in ss[j].graphs[gid].nodes && !Started(ss[j].graphs[gid].nodes[k].status)
  {
    EveryRunKeeps(config, cs, ss, i);
    EveryRunKeeps(config, cs, ss, j);
    FinishedIsFinal(config, cs, ss, gid, i, j);
    PendingMeansPlanned(gid, ss[i].graphs[gid], k);
    DepsStay(config, cs, ss, gid, i, j);
    assert Sound(gid, ss[j].graphs[gid]);
    BlockedIn(ss[i].graphs[gid].nodes, ss[j].graphs[gid].nodes, k, d);
  }

  lemma PendingMeansPlanned(gid: string, g: Graph, k: string)
    requires Sound(gid, g) && k in g.nodes && g.nodes[k].status == Pending
    ensures PlannerDone(g)
  {
  }

  lemma BlockedIn(before: Nodes, after: Nodes, k: string, d: string)
    requires Advances(before, after) && DepsOf(before) == DepsOf(after) && Fed(after)
    requires WaitsFor(before, k, d) && (d !in before || before[d].status == Failed)
    ensures k in after && !Started(after[k].status)
  {
    assert d in before <==> d in DepsOf(before);
    assert d in after <==> d in DepsOf(after);
  }

  /** What the planner's own completion leaves behind when its reply parsed. */
  lemma PlanTakesHold(config: Config, s: State, c: Command)
    requires Inv(s) && Possible(s, c) && c.Finish? && c.found.Some? && c.success && c.answers.output.Some?
    requires c.found.value.1 == s.graphs[c.found.value.0].rootId && Distinct(c.answers.suffixes)
    ensures var (gid, root) := c.found.value;
            var ids, output := NewIds(gid, c.answers.suffixes), c.answers.output.value;
            var after := Step(config, s, c).graphs[gid];
            && PlannerDone(after)
            && (LooksBack(output, ids) ==> Acyclic(DepsOf(after.nodes)))
            && (NamesKnown(output, ids, root) <==> DepsPresent(after.nodes))
  {
    var (gid, root) := c.found.value;
    var g, a := s.graphs[gid], c.answers;
    var ids := NewIds(gid, a.suffixes);
    assert Sound(gid, g);
    PlanAdded(config, gid, g, c.result, a);
    var nodes := Extended(config, gid, g, root, c.result, a);
    ReportAdvances(config, gid, g, root, c.result, true, a);
    SameDepsDispatched(nodes, a.created);
    StepOnGraph(config, s, c, gid);
  }

  lemma PlanAdded(config: Config, gid: string, g: Graph, result: string, a: Answers)
    requires Sound(gid, g) && g.nodes[g.rootId].status == Running && Suffices(a) && a.output.Some? && Distinct(a.suffixes)
    ensures var ids := NewIds(gid, a.suffixes);
            var nodes := Extended(config, gid, g, g.rootId, result, a);
            && (LooksBack(a.output.value, ids) ==> Acyclic(DepsOf(nodes)))
            && (NamesKnown(a.output.value, ids, g.rootId) <==> DepsPresent(nodes))
  {
    var ids, root := NewIds(gid, a.suffixes), g.rootId;
    assert forall i | 0 <= i < |ids| :: |ids[i]| == |gid| + 7 && ids[i][|gid| + 1..] == a.suffixes[i];
    var nodes := Marked(g.nodes, root, Complete, Some(result));
    PlanIsAcyclic(config, root, ids, a.output.value, nodes);
    PlanDepsPresent(config, root, ids, a.output.value, nodes);
  }

  lemma SameDepsDispatched(nodes: Nodes, created: map<string, string>)
    ensures var after := Dispatched(nodes, created);
            DepsOf(after) == DepsOf(nodes) && (DepsPresent(after) <==> DepsPresent(nodes))
  {
    var after := Dispatched(nodes, created);
    DispatchedNodes(nodes, created);
    assert DepsOf(after).Keys == DepsOf(nodes).Keys;
    SameDepsPresent(nodes, after);
  }

  // ----- what the owning task is told -----

  /** Everything left was ready, and the daemon made none of its tasks. */
  predicate WipedOut(nodes: Nodes, created: map<string, string>)
  {
    && !AllDone(nodes)
    && forall k <- nodes :: !Terminal(nodes[k].status) ==> IsReady(nodes, k) && TaskFor(created, k) == ""
  }

  /**
   * After an effective report the owning task has been moved exactly if its
   * graph is done, except when the end came by failing to dispatch all that was
   * left: then nobody is told.
   */
  lemma DoneIsAnnounced(config: Config, s: State, c: Command)
    requires Inv(s) && Possible(s, c) && c.Finish? && c.found.Some?
    ensures var (gid, nid) := c.found.value;
            var g, t := s.graphs[gid], Step(config, s, c);
            && (g.parent in t.board <==>
                  && AllDone(t.graphs[gid].nodes)
                  && !(c.success && WipedOut(Extended(config, gid, g, nid, c.result, c.answers), c.answers.created)))
            && (g.parent in t.board ==> t.board[g.parent] == if c.success then Waiting else Column.Blocked)
  {
    var (gid, nid) := c.found.value;
    var g := s.graphs[gid];
    assert g.parent !in s.board;
    if c.success {
      var nodes := Extended(config, gid, g, nid, c.result, c.answers);
      if !AllDone(nodes) {
        DoneByDispatch(nodes, c.answers.created);
      }
    }
  }

  lemma DoneByDispatch(nodes: Nodes, created: map<string, string>)
    requires !AllDone(nodes)
    ensures AllDone(Dispatched(nodes, created)) <==> WipedOut(nodes, created)
  {
    var after := Dispatched(nodes, created);
    DispatchedNodes(nodes, created);
    if WipedOut(nodes, created) {
      forall k <- after
        ensures Terminal(after[k].status)
      {
        assert Terminal(nodes[k].status) ==> !IsReady(nodes, k);
      }
    } else {
      var k :| k in nodes && !Terminal(nodes[k].status) && !(IsReady(nodes, k) && TaskFor(created, k) == "");
      assert !Terminal(after[k].status);
    }
  }

  /**
   * The source says an owning task goes back to waiting when all succeeded. It
   * does when all are done, and then all succeeded exactly if none had failed before.
   */
  lemma WaitingMeansDone(config: Config, s: State, c: Command)
    requires Inv(s) && Possible(s, c) && c.Finish? && c.found.Some? && c.success
    requires s.graphs[c.found.value.0].parent in Step(config, s, c).board
    ensures var g, t := s.graphs[c.found.value.0], Step(config, s, c);
            && t.board[g.parent] == Waiting && AllDone(t.graphs[c.found.value.0].nodes)
            && (AllComplete(t.graphs[c.found.value.0].nodes) <==> NoneFailed(g.nodes))
  {
    var (gid, nid) := c.found.value;
    var g := s.graphs[gid];
    assert Sound(gid, g);
    DoneIsAnnounced(config, s, c);
    WaitingIsEnd(config, s, c);
    EndingReport(config, gid, g, nid, c.result, c.answers);
  }

  /** The owning task is moved by a completion only if all nodes were done before anything was dispatched. */
  lemma WaitingIsEnd(config: Config, s: State, c: Command)
    requires Inv(s) && Possible(s, c) && c.Finish? && c.found.Some? && c.success
    requires s.graphs[c.found.value.0].parent in Step(config, s, c).board
    ensures var (gid, nid) := c.found.value;
            var nodes := Extended(config, gid, s.graphs[gid], nid, c.result, c.answers);
            AllDone(nodes) && Step(config, s, c).graphs[gid].nodes == nodes
  {
    var (gid, nid) := c.found.value;
    assert s.graphs[gid].parent !in s.board;
  }

  predicate NoneFailed(nodes: Nodes) { forall k <- nodes :: nodes[k].status != Failed }

  lemma EndingReport(config: Config, gid: string, g: Graph, nid: string, result: string, a: Answers)
    requires Sound(gid, g) && nid in g.nodes && g.nodes[nid].status == Running && Suffices(a)
    requires AllDone(Extended(config, gid, g, nid, result, a))
    ensures AllComplete(Extended(config, gid, g, nid, result, a)) <==> NoneFailed(g.nodes)
  {
    var nodes := Extended(config, gid, g, nid, result, a);
    ExtendingKeeps(config, gid, g, nid, result, a);
    SoleUnfinished(config, gid, g, nid, result, a);
    if NoneFailed(g.nodes) {
      assert forall k <- nodes :: k != nid ==> nodes[k].status != Failed && nodes[k].status != Skipped;
    } else {
      var k :| k in g.nodes && g.nodes[k].status == Failed;
      assert nodes[k].status == Failed;
    }
  }

  /** If a completion ends its graph, the other nodes had ended before, and no plan was added. */
  lemma SoleUnfinished(config: Config, gid: string, g: Graph, nid: string, result: string, a: Answers)
    requires Sound(gid, g) && nid in g.nodes && g.nodes[nid].status == Running && Suffices(a)
    requires AllDone(Extended(config, gid, g, nid, result, a))
    ensures var nodes := Extended(config, gid, g, nid, result, a);
            && nodes.Keys == g.nodes.Keys && forall k <- nodes :: k != nid ==> nodes[k].status == g.nodes[k].status
  {
    var nodes := Extended(config, gid, g, nid, result, a);
    if nid == g.rootId {
      ExtendingKeeps(config, gid, g, nid, result, a);
      PlanAddsPending(config, gid, g, result, a);
    } else {
      PlainExtended(config, gid, g, nid, result, a);
    }
  }

  lemma PlanAddsPending(config: Config, gid: string, g: Graph, result: string, a: Answers)
    requires Sound(gid, g) && g.nodes[g.rootId].status == Running && Suffices(a)
    ensures var nodes := Extended(config, gid, g, g.rootId, result, a);
            g.nodes.Keys == {g.rootId} && g.rootId in nodes && forall k <- nodes :: k != g.rootId ==> nodes[k].status == Pending
  {
    if a.output.Some? {
      var ids := NewIds(gid, a.suffixes);
      assert g.rootId !in ids by {
        assert forall i | 0 <= i < |ids| :: |ids[i]| == |gid| + 7;
      }
      NewNodesWait(config, g.rootId, ids, a.output.value, Marked(g.nodes, g.rootId, Complete, Some(result)));
    }
  }

  function StatusAt(s: State, gid: string, k: string): Option<Status>
  {
    if gid in s.graphs && k in s.graphs[gid].nodes then Some(s.graphs[gid].nodes[k].status) else None
  }

  /** So one failed task beside a succeeding last one still reads as waiting. */
  lemma WaitingDespiteFailure(config: Config, s: State, c: Command, k: string)
    requires Inv(s) && Possible(s, c) && c.Finish? && c.found.Some? && c.success
    requires StatusAt(s, c.found.value.0, k) == Some(Failed)
    requires forall i <- s.graphs[c.found.value.0].nodes :: i != c.found.value.1 ==> Terminal(s.graphs[c.found.value.0].nodes[i].status)
    ensures var t, parent := Step(config, s, c), s.graphs[c.found.value.0].parent;
            && parent in t.board && t.board[parent] == Waiting
            && StatusAt(t, c.found.value.0, k) == Some(Failed)
  {
    var (gid, nid) := c.found.value;
    assert Sound(gid, s.graphs[gid]);
    LastCompletes(config, gid, s.graphs[gid], nid, c.result, c.answers, k);
  }

  lemma LastCompletes(config: Config, gid: string, g: Graph, nid: string, result: string, a: Answers, k: string)
    requires Sound(gid, g) && nid in g.nodes && g.nodes[nid].status == Running && Suffices(a)
    requires k in g.nodes && g.nodes[k].status == Failed && forall i <- g.nodes :: i != nid ==> Terminal(g.nodes[i].status)
    ensures var nodes := Extended(config, gid, g, nid, result, a);
            AllDone(nodes) && k in nodes && nodes[k].status == Failed
  {
    PlainExtended(config, gid, g, nid, result, a);
  }
}
