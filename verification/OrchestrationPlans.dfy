/** What a plan means: which nodes its reply adds, what each of them waits for, and what that is worth over whole runs. */
module OrchestrationPlans {
  import opened Basics
  import Decimal
  import opened DependencyGraph
  import opened OrchestrationState
  import opened OrchestrationInvariants
  import opened OrchestrationTheorems
  import opened OrchestrationProgress
  import opened OrchestrationCompletion

  /** The text is read as this number. */
  predicate Reads(text: string, n: nat) { Decimal.Parse(text, USIZE_MAX) == Some(n) }

  predicate Literal(dep: string) { dep != "" && dep[0] == 'g' }

  /** What a dependency of task `i` means: a node by its id, or an earlier task by its number. */
  ghost predicate StandsFor(dep: string, ids: seq<string>, i: nat, x: string)
    requires i <= |ids|
  {
    if Literal(dep) then x == dep else exists m | 0 <= m < i :: Reads(dep, m) && x == ids[m]
  }

  ghost predicate Asks(deps: seq<string>, ids: seq<string>, i: nat, x: string)
    requires i <= |ids|
  {
    exists d <- deps :: StandsFor(d, ids, i, x)
  }

  /** The task a review names: the number it gives, or the first one if it gives none that can be read. */
  ghost predicate Names(r: PlanReview, m: nat)
  {
    if exists n: nat :: r.target.Some? && Reads(r.target.value, n) then Reads(r.target.value, m) else m == 0
  }

  /** A plan's tasks wait for exactly what they ask for; a review waits for the task it names, or for the planner if there is no such task. */
  ghost predicate Follows(output: Output, ids: seq<string>, root: string, nodes: Nodes)
    requires |ids| == Size(output)
  {
    && (forall i | 0 <= i < |ids| :: ids[i] in nodes)
    && (forall i, x | 0 <= i < |output.tasks| :: x in nodes[ids[i]].dependsOn <==> Asks(output.tasks[i].dependsOn, ids, i, x))
    && (forall j, m: nat | 0 <= j < |output.reviews| && Names(output.reviews[j], m) ::
          nodes[ids[|output.tasks| + j]].dependsOn == [if m < |output.tasks| then ids[m] else root])
  }

  /** What the plan's nodes are, and for whom. */
  predicate Describes(config: Config, output: Output, ids: seq<string>, nodes: Nodes)
    requires |ids| == Size(output)
  {
    && (forall i | 0 <= i < |output.tasks| :: IsTask(config, output.tasks[i], nodes, ids[i]))
    && (forall j | 0 <= j < |output.reviews| :: IsReview(config, output.reviews[j], nodes, ids[|output.tasks| + j]))
  }

  predicate IsTask(config: Config, t: PlanTask, nodes: Nodes, id: string)
  {
    && id in nodes && nodes[id].kind == Implement(if t.spec.Some? then t.spec.value else "unknown task")
    && nodes[id].agent == if config.workers == [] then "claude" else config.workers[0]
  }

  predicate IsReview(config: Config, r: PlanReview, nodes: Nodes, id: string)
  {
    && id in nodes && nodes[id].kind == Review(if r.diffRef.Some? then r.diffRef.value else "latest")
    && nodes[id].agent == if config.reviewers == [] then "opencode" else config.reviewers[0]
  }

  lemma TaskAsks(deps: seq<string>, ids: seq<string>, i: nat, x: string)
    requires i <= |ids|
    ensures x in Resolved(deps, ids[..i]) <==> Asks(deps, ids, i, x)
  {
    ResolvedIs(deps, ids[..i]);
    if x in Resolved(deps, ids[..i]) {
      var d :| d in deps && Resolve(d, ids[..i]) == Some(x);
      ResolvesTo(d, ids, i, x);
    }
    if Asks(deps, ids, i, x) {
      var d :| d in deps && StandsFor(d, ids, i, x);
      ResolvesTo(d, ids, i, x);
    }
  }

  lemma ResolvesTo(dep: string, ids: seq<string>, i: nat, x: string)
    requires i <= |ids|
    ensures Resolve(dep, ids[..i]) == Some(x) <==> StandsFor(dep, ids, i, x)
  {
    var resolved, n := Resolve(dep, ids[..i]), Decimal.Parse(dep, USIZE_MAX);
    if Literal(dep) {
      assert resolved == Some(dep);
    } else if n.Some? && n.value < i {
      assert resolved == Some(ids[n.value]);
      assert Reads(dep, n.value);
    } else {
      assert resolved == None;
    }
  }

  lemma ReviewNames(r: PlanReview, root: string, taskIds: seq<string>, m: nat)
    requires Names(r, m)
    ensures ReviewTarget(r, root, taskIds) == if m < |taskIds| then taskIds[m] else root
  {
    if r.target.Some? && Decimal.Parse(r.target.value, USIZE_MAX).Some? {
      assert Reads(r.target.value, Decimal.Parse(r.target.value, USIZE_MAX).value);
    }
  }

  lemma TaskFollows(config: Config, root: string, ids: seq<string>, output: Output, i: nat, x: string)
    requires |ids| == Size(output) && i < |output.tasks|
    ensures x in NewNode(config, root, ids, output, i).dependsOn <==> Asks(output.tasks[i].dependsOn, ids, i, x)
  {
    TaskAsks(output.tasks[i].dependsOn, ids, i, x);
  }

  lemma ReviewFollows(config: Config, root: string, ids: seq<string>, output: Output, j: nat, m: nat)
    requires |ids| == Size(output) && j < |output.reviews| && Names(output.reviews[j], m)
    ensures NewNode(config, root, ids, output, |output.tasks| + j).dependsOn == [if m < |output.tasks| then ids[m] else root]
  {
    ReviewNames(output.reviews[j], root, ids[..|output.tasks|], m);
  }

  /** With distinct ids, a plan that is added is followed. */
  lemma AddedFollows(config: Config, root: string, ids: seq<string>, output: Output, nodes: Nodes)
    requires |ids| == Size(output) && Distinct(ids)
    ensures Follows(output, ids, root, Added(config, root, ids, output, nodes, |ids|))
  {
    AddedAt(config, root, ids, output, nodes);
    var after := Added(config, root, ids, output, nodes, |ids|);
    forall i, x | 0 <= i < |output.tasks|
      ensures x in after[ids[i]].dependsOn <==> Asks(output.tasks[i].dependsOn, ids, i, x)
    {
      TaskFollows(config, root, ids, output, i, x);
    }
    forall j, m: nat | 0 <= j < |output.reviews| && Names(output.reviews[j], m)
      ensures after[ids[|output.tasks| + j]].dependsOn == [if m < |output.tasks| then ids[m] else root]
    {
      ReviewFollows(config, root, ids, output, j, m);
    }
  }

  lemma NodeDescribes(config: Config, root: string, ids: seq<string>, output: Output, nodes: Nodes, i: nat)
    requires |ids| == Size(output) && i < |ids| && ids[i] in nodes && nodes[ids[i]] == NewNode(config, root, ids, output, i)
    ensures i < |output.tasks| ==> IsTask(config, output.tasks[i], nodes, ids[i])
    ensures i >= |output.tasks| ==> IsReview(config, output.reviews[i - |output.tasks|], nodes, ids[i])
  {
  }

  lemma NodesDescribe(config: Config, root: string, ids: seq<string>, output: Output, nodes: Nodes)
    requires |ids| == Size(output)
    requires forall k | 0 <= k < |ids| :: ids[k] in nodes && nodes[ids[k]] == NewNode(config, root, ids, output, k)
    ensures Describes(config, output, ids, nodes)
  {
    forall i | 0 <= i < |output.tasks|
      ensures IsTask(config, output.tasks[i], nodes, ids[i])
    {
      NodeDescribes(config, root, ids, output, nodes, i);
    }
    forall j | 0 <= j < |output.reviews|
      ensures IsReview(config, output.reviews[j], nodes, ids[|output.tasks| + j])
    {
      NodeDescribes(config, root, ids, output, nodes, |output.tasks| + j);
    }
  }

  lemma AddedDescribes(config: Config, root: string, ids: seq<string>, output: Output, nodes: Nodes)
    requires |ids| == Size(output) && Distinct(ids)
    ensures Describes(config, output, ids, Added(config, root, ids, output, nodes, |ids|))
  {
    AddedAt(config, root, ids, output, nodes);
    NodesDescribe(config, root, ids, output, Added(config, root, ids, output, nodes, |ids|));
  }

  // ----- over whole runs -----

  /** The planner's reply, added with distinct suffixes, is followed by the graph it leaves. */
  lemma PlanIsFollowed(config: Config, s: State, c: Command)
    requires Inv(s) && Possible(s, c) && c.Finish? && c.found.Some? && c.success && c.answers.output.Some?
    requires c.found.value.1 == s.graphs[c.found.value.0].rootId && Distinct(c.answers.suffixes)
    ensures var (gid, root) := c.found.value;
            && gid in Step(config, s, c).graphs
            && Follows(c.answers.output.value, NewIds(gid, c.answers.suffixes), root, Step(config, s, c).graphs[gid].nodes)
            && Describes(config, c.answers.output.value, NewIds(gid, c.answers.suffixes), Step(config, s, c).graphs[gid].nodes)
  {
    var (gid, root) := c.found.value;
    var g, a := s.graphs[gid], c.answers;
    assert Sound(gid, g);
    NewIdsDistinct(gid, a.suffixes);
    AddedFollows(config, root, NewIds(gid, a.suffixes), a.output.value, Marked(g.nodes, root, Complete, Some(c.result)));
    AddedDescribes(config, root, NewIds(gid, a.suffixes), a.output.value, Marked(g.nodes, root, Complete, Some(c.result)));
    DispatchFollows(Extended(config, gid, g, root, c.result, a), a.created, a.output.value, NewIds(gid, a.suffixes), root);
    DispatchDescribes(config, Extended(config, gid, g, root, c.result, a), a.created, a.output.value, NewIds(gid, a.suffixes));
    StepOnGraph(config, s, c, gid);
  }

  lemma DispatchFollows(nodes: Nodes, created: map<string, string>, output: Output, ids: seq<string>, root: string)
    requires |ids| == Size(output) && Follows(output, ids, root, nodes)
    ensures Follows(output, ids, root, Dispatched(nodes, created))
  {
    SameDepsDispatched(nodes, created);
    LaterFollows(nodes, Dispatched(nodes, created), output, ids, root);
  }

  lemma DispatchDescribes(config: Config, nodes: Nodes, created: map<string, string>, output: Output, ids: seq<string>)
    requires |ids| == Size(output) && Describes(config, output, ids, nodes)
    ensures Describes(config, output, ids, Dispatched(nodes, created))
  {
    var after := Dispatched(nodes, created);
    forall i | 0 <= i < |output.tasks|
      ensures IsTask(config, output.tasks[i], after, ids[i])
    {
      assert IsTask(config, output.tasks[i], nodes, ids[i]);
    }
    forall j | 0 <= j < |output.reviews|
      ensures IsReview(config, output.reviews[j], after, ids[|output.tasks| + j])
    {
      assert IsReview(config, output.reviews[j], nodes, ids[|output.tasks| + j]);
    }
  }

  /** A later state of the same graph, its nodes unchanged but for their progress. */
  lemma LaterFollows(before: Nodes, after: Nodes, output: Output, ids: seq<string>, root: string)
    requires |ids| == Size(output) && Follows(output, ids, root, before) && DepsOf(after) == DepsOf(before)
    ensures Follows(output, ids, root, after)
  {
    assert before.Keys == DepsOf(before).Keys && after.Keys == DepsOf(after).Keys;
    assert forall k <- after :: DepsOf(after)[k] == after[k].dependsOn && DepsOf(before)[k] == before[k].dependsOn;
  }

  /**
   * Over every run, from the planner's reply on and until its graph is
   * cancelled: a task is not running or complete before everything it asked for
   * is complete, and a review not before the task it names.
   */
  lemma NamedComesFirst(config: Config, cs: seq<Command>, ss: seq<State>, i: nat, j: nat)
    requires IsRun(config, cs, ss) && ss[0] == INITIAL && i < j < |ss|
    requires cs[i].Finish? && cs[i].found.Some? && cs[i].success && cs[i].answers.output.Some?
    requires cs[i].found.value.1 == ss[i].graphs[cs[i].found.value.0].rootId && Distinct(cs[i].answers.suffixes)
    requires forall m | i <= m < j :: cs[m] != Cancel(cs[i].found.value.0)
    ensures var (gid, root) := cs[i].found.value;
            var output, ids := cs[i].answers.output.value, NewIds(gid, cs[i].answers.suffixes);
            gid in ss[j].graphs && InOrder(output, ids, ss[j].graphs[gid].nodes)
  {
    var (gid, root) := cs[i].found.value;
    var output, ids := cs[i].answers.output.value, NewIds(gid, cs[i].answers.suffixes);
    EmptyIsInvariant();
    EveryRunKeeps(config, cs, ss, i);
    EveryRunKeeps(config, cs, ss, j);
    PlanTakesHold(config, ss[i], cs[i]);
    PlanIsFollowed(config, ss[i], cs[i]);
    DepsStay(config, cs, ss, gid, i + 1, j);
    LaterFollows(ss[i + 1].graphs[gid].nodes, ss[j].graphs[gid].nodes, output, ids, root);
    FedInOrder(gid, ss[j], output, ids, root);
  }

  ghost predicate InOrder(output: Output, ids: seq<string>, nodes: Nodes)
    requires |ids| == Size(output)
  {
    && (forall i | 0 <= i < |ids| :: ids[i] in nodes)
    && (forall i, x | 0 <= i < |output.tasks| && Asks(output.tasks[i].dependsOn, ids, i, x) && Started(nodes[ids[i]].status) ::
          x in nodes && nodes[x].status == Complete)
    && (forall j, m: nat | 0 <= j < |output.reviews| && Names(output.reviews[j], m) && m < |output.tasks|
                           && Started(nodes[ids[|output.tasks| + j]].status) ::
          nodes[ids[m]].status == Complete)
  }

  lemma FedInOrder(gid: string, s: State, output: Output, ids: seq<string>, root: string)
    requires Inv(s) && gid in s.graphs && |ids| == Size(output) && Follows(output, ids, root, s.graphs[gid].nodes)
    ensures InOrder(output, ids, s.graphs[gid].nodes)
  {
    assert Sound(gid, s.graphs[gid]);
    NodesInOrder(s.graphs[gid].nodes, output, ids, root);
  }

  lemma NodesInOrder(nodes: Nodes, output: Output, ids: seq<string>, root: string)
    requires Fed(nodes) && |ids| == Size(output) && Follows(output, ids, root, nodes)
    ensures InOrder(output, ids, nodes)
  {
    forall j, m: nat | 0 <= j < |output.reviews| && Names(output.reviews[j], m) && m < |output.tasks|
                       && Started(nodes[ids[|output.tasks| + j]].status)
      ensures nodes[ids[m]].status == Complete
    {
      var review := nodes[ids[|output.tasks| + j]];
      assert review.dependsOn == [ids[m]] && ids[m] in review.dependsOn;
    }
  }

  // ----- what a command does, node by node -----

  /** What a report about `nid` makes of a node that was there before it. */
  ghost predicate Effect(nodes: Nodes, k: string, nid: string, c: Command, after: Node)
    requires k in nodes && c.Finish?
  {
    var before := nodes[k];
    if k == nid then
      after == before.(status := if c.success then Complete else Failed, result := Some(c.result))
    else if c.success && WaitsOnlyFor(nodes, k, nid) then
      if TaskFor(c.answers.created, k) == "" then
        after == before.(status := Failed, result := Some("Failed to create daemon task"))
      else
        after == before.(status := Running, task := Some(c.answers.created[k]))
    else if !c.success && nid in before.dependsOn then
      after == before.(status := Failed, result := Some("dependency " + nid + " failed"))
    else
      after == before
  }

  /** Its other dependencies are complete. */
  predicate WaitsOnlyFor(nodes: Nodes, k: string, nid: string)
  {
    WaitsFor(nodes, k, nid) && forall d <- nodes[k].dependsOn :: d == nid || (d in nodes && nodes[d].status == Complete)
  }

  /**
   * A success completes its node with the reported result and dispatches
   * exactly the nodes that waited for nothing else; a failure fails its node and
   * the direct dependents, and says why. Nothing else changes.
   */
  lemma ReportEffect(config: Config, s: State, c: Command, k: string)
    requires Inv(s) && Possible(s, c) && c.Finish? && c.found.Some? && k in s.graphs[c.found.value.0].nodes
    ensures var (gid, nid) := c.found.value;
            && gid in Step(config, s, c).graphs && k in Step(config, s, c).graphs[gid].nodes
            && Effect(s.graphs[gid].nodes, k, nid, c, Step(config, s, c).graphs[gid].nodes[k])
  {
    var (gid, nid) := c.found.value;
    StepOnGraph(config, s, c, gid);
    assert Sound(gid, s.graphs[gid]);
    if c.success {
      SuccessEffect(config, gid, s.graphs[gid], nid, c, k);
    }
  }

  lemma SuccessEffect(config: Config, gid: string, g: Graph, nid: string, c: Command, k: string)
    requires Sound(gid, g) && nid in g.nodes && g.nodes[nid].status == Running && k in g.nodes
    requires c.Finish? && c.success && Suffices(c.answers)
    ensures var after := NodesAfter(config, gid, g, nid, c.result, true, c.answers);
            k in after && Effect(g.nodes, k, nid, c, after[k])
  {
    var nodes := Extended(config, gid, g, nid, c.result, c.answers);
    if nid == g.rootId {
      PlanAddsPending(config, gid, g, c.result, c.answers);
      PlannerStays(config, gid, g, c.result, c.answers);
    } else {
      PlainExtended(config, gid, g, nid, c.result, c.answers);
      MarkedReadies(g.nodes, nid, c.result, k);
    }
    DispatchedNodes(nodes, c.answers.created);
  }

  lemma PlannerStays(config: Config, gid: string, g: Graph, result: string, a: Answers)
    requires Sound(gid, g) && g.nodes[g.rootId].status == Running && Suffices(a)
    ensures var nodes := Extended(config, gid, g, g.rootId, result, a);
            g.rootId in nodes && nodes[g.rootId] == g.nodes[g.rootId].(status := Complete, result := Some(result))
  {
    if a.output.Some? {
      var ids := NewIds(gid, a.suffixes);
      assert g.rootId !in ids by {
        assert forall i | 0 <= i < |ids| :: |ids[i]| == |gid| + 7;
      }
      NewNodesWait(config, g.rootId, ids, a.output.value, Marked(g.nodes, g.rootId, Complete, Some(result)));
    }
  }

  /** What a completion makes ready is what waited for it alone. */
  lemma MarkedReadies(nodes: Nodes, nid: string, result: string, k: string)
    requires NothingReady(nodes) && nid in nodes && nodes[nid].status == Running && k in nodes
    ensures IsReady(Marked(nodes, nid, Complete, Some(result)), k) <==> WaitsOnlyFor(nodes, k, nid)
  {
    var after := Marked(nodes, nid, Complete, Some(result));
    assert forall d :: d in after <==> d in nodes;
    assert forall d <- nodes :: d != nid ==> after[d] == nodes[d];
    assert !IsReady(nodes, k);
  }

  /** A cancelled graph is gone, and the others stay. */
  lemma CancelEffect(config: Config, s: State, gid: string)
    ensures var t := Step(config, s, Cancel(gid));
            && gid !in t.graphs && t.graphs.Keys == s.graphs.Keys - {gid} && (forall i <- t.graphs :: t.graphs[i] == s.graphs[i])
            && t.issued == s.issued && t.board == s.board
  {
  }

  /** A new plan: one graph, its planner alone and running for the goal, the owning task beside it. */
  lemma StartEffect(config: Config, s: State, c: Command)
    requires Possible(s, c) && c.StartPlan?
    ensures var t := Step(config, s, c);
            if c.parent == "" || c.planner == "" then
              t.graphs == s.graphs && t.issued == s.issued + if c.parent == "" then {} else {c.parent}
            else
              && t.issued == s.issued + {c.parent, c.planner} && t.board == s.board
              && t.graphs.Keys == s.graphs.Keys + {c.gid} && (forall i <- s.graphs :: t.graphs[i] == s.graphs[i])
              && var g := t.graphs[c.gid];
                 && g.project == c.project && g.goal == c.goal && g.parent == c.parent && g.nodes.Keys == {g.rootId}
                 && var planner := g.nodes[g.rootId];
                    && planner.kind == Plan && planner.agent == config.planner && planner.dependsOn == []
                    && planner.status == Running && planner.task == Some(c.planner) && planner.result.None?
  {
  }
}
