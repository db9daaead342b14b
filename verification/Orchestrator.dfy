/** The orchestrator of src/orchestration, handler by handler, against the state functions of `OrchestrationState`. */
module Orchestrator {
  import opened Basics
  import Decimal
  import opened OrchestrationState

  lemma ReviewIsNext(config: Config, gid: string, root: string, suffixes: seq<string>, output: Output, nodes: Nodes, taskIds: seq<string>, i: nat)
    requires |suffixes| == Size(output) && i < |output.reviews| && taskIds == NewIds(gid, suffixes)[..|output.tasks|]
    ensures var n := |output.tasks|;
            Added(config, root, NewIds(gid, suffixes), output, nodes, n + i + 1)
            == Added(config, root, NewIds(gid, suffixes), output, nodes, n + i)
                 [NodeId(gid, suffixes[n + i]) := ReviewNode(config, output.reviews[i], root, taskIds)]
  {
  }

  /** What a graph holds after the plan's tasks and so many reviews. */
  ghost function Reviewed(config: Config, gid: string, root: string, suffixes: seq<string>, output: Output, nodes: Nodes): nat -> Nodes
    requires |suffixes| == Size(output)
  {
    (i: nat) => if i <= |output.reviews| then Added(config, root, NewIds(gid, suffixes), output, nodes, |output.tasks| + i) else nodes
  }

  /** One review leads from what the graph holds before it to what it holds after it. */
  predicate Follows(config: Config, gid: string, root: string, suffixes: seq<string>, output: Output,
                    taskIds: seq<string>, before: Nodes, after: Nodes, i: nat)
    requires |suffixes| == Size(output) && i < |output.reviews|
  {
    after == before[NodeId(gid, suffixes[|output.tasks| + i]) := ReviewNode(config, output.reviews[i], root, taskIds)]
  }

  lemma ReviewFollows(config: Config, gid: string, root: string, suffixes: seq<string>, output: Output, nodes: Nodes,
                      taskIds: seq<string>, at: nat -> Nodes, i: nat)
    requires |suffixes| == Size(output) && taskIds == NewIds(gid, suffixes)[..|output.tasks|]
    requires at == Reviewed(config, gid, root, suffixes, output, nodes) && i < |output.reviews|
    ensures Follows(config, gid, root, suffixes, output, taskIds, at(i), at(i + 1), i)
  {
    ReviewIsNext(config, gid, root, suffixes, output, nodes, taskIds, i);
  }

  lemma ReviewsFollow(config: Config, gid: string, root: string, suffixes: seq<string>, output: Output, nodes: Nodes,
                      taskIds: seq<string>, at: nat -> Nodes)
    requires |suffixes| == Size(output) && taskIds == NewIds(gid, suffixes)[..|output.tasks|]
    requires at == Reviewed(config, gid, root, suffixes, output, nodes)
    ensures at(0) == Added(config, root, NewIds(gid, suffixes), output, nodes, |output.tasks|)
    ensures forall i: nat | i < |output.reviews| :: Follows(config, gid, root, suffixes, output, taskIds, at(i), at(i + 1), i)
    ensures at(|output.reviews|) == Added(config, root, NewIds(gid, suffixes), output, nodes, |suffixes|)
  {
    forall i: nat | i < |output.reviews|
      ensures Follows(config, gid, root, suffixes, output, taskIds, at(i), at(i + 1), i)
    {
      ReviewFollows(config, gid, root, suffixes, output, nodes, taskIds, at, i);
    }
  }

  class TaskGraph {
    const id: string
    const project: string
    const goal: string
    const rootId: string
    const parent: string
    var nodes: Nodes

    /** A graph with its planner node alone, not yet running. */
    constructor (id: string, project: string, goal: string, planner: string, parent: string)
      ensures this.id == id
      ensures View() == Graph(project, goal, RootId(id), parent, map[RootId(id) := Node(Plan, planner, Pending, [], None, None)])
    {
      this.id, this.project, this.goal, this.parent := id, project, goal, parent;
      rootId := id + "_plan";
      nodes := map[id + "_plan" := Node(Plan, planner, Pending, [], None, None)];
    }

    function View(): Graph
      reads this
    {
      Graph(project, goal, rootId, parent, nodes)
    }

    method AddNode(kind: Kind, agent: string, dependsOn: seq<string>, suffix: string) returns (added: string)
      modifies this
      ensures added == NodeId(id, suffix)
      ensures nodes == old(nodes)[added := Node(kind, agent, Pending, dependsOn, None, None)]
    {
      added := id + "_" + suffix;
      nodes := nodes[added := Node(kind, agent, Pending, dependsOn, None, None)];
    }

    method Complete(nid: string, result: Option<string>)
      modifies this
      ensures nodes == Marked(old(nodes), nid, Status.Complete, result)
    {
      if nid in nodes {
        nodes := nodes[nid := nodes[nid].(status := Status.Complete, result := result)];
      }
    }

    method Fail(nid: string, reason: string)
      modifies this
      ensures nodes == Marked(old(nodes), nid, Failed, Some(reason))
    {
      if nid in nodes {
        nodes := nodes[nid := nodes[nid].(status := Failed, result := Some(reason))];
      }
    }

    /** `ready_nodes`, in the map's own order. */
    method ReadyNodes() returns (ready: seq<string>)
      ensures forall k :: k in ready <==> k in Ready(nodes)
      ensures forall i, j | 0 <= i < j < |ready| :: ready[i] != ready[j]
    {
      ready := [];
      var left := nodes.Keys;
      while left != {}
        invariant left <= nodes.Keys
        invariant forall k :: k in ready <==> k in nodes && k !in left && IsReady(nodes, k)
        invariant forall i, j | 0 <= i < j < |ready| :: ready[i] != ready[j]
      {
        var k :| k in left;
        if nodes[k].status == Pending && forall d <- nodes[k].dependsOn :: d in nodes && nodes[d].status == Status.Complete {
          ready := ready + [k];
        }
        left := left - {k};
      }
    }

    method ResolveDeps(deps: seq<string>, taskIds: seq<string>) returns (resolved: seq<string>)
      ensures resolved == Resolved(deps, taskIds)
    {
      resolved := [];
      for i := 0 to |deps|
        invariant resolved == Resolved(deps[..i], taskIds)
      {
        assert deps[..i + 1][..i] == deps[..i];
        var dep := deps[i];
        if |dep| > 0 && dep[0] == 'g' {
          resolved := resolved + [dep];
        } else {
          var index := Decimal.Parse(dep, USIZE_MAX);
          if index.Some? && index.value < |taskIds| {
            resolved := resolved + [taskIds[index.value]];
          }
        }
      }
      assert deps[..|deps|] == deps;
    }

    /** The node is complete, and if it is the planner, its plan is in the graph. */
    method CompleteAndExtend(config: Config, nid: string, result: string, a: Answers)
      requires Suffices(a)
      modifies this
      ensures nodes == Extended(config, id, old(View()), nid, result, a)
    {
      Complete(nid, Some(result));
      if nid in nodes && nodes[nid].kind == Plan && a.output.Some? {
        ParsePlan(config, a.output.value, a.suffixes);
      }
    }

    /** `parse_plan_output` on a reply that parsed; the suffixes are the random parts of the new ids. */
    method ParsePlan(config: Config, output: Output, suffixes: seq<string>)
      requires |suffixes| == Size(output)
      modifies this
      ensures nodes == Added(config, rootId, NewIds(id, suffixes), output, old(nodes), |suffixes|)
    {
      ghost var at := Reviewed(config, id, rootId, suffixes, output, nodes);
      var taskIds := AddTasks(config, output, suffixes);
      ReviewsFollow(config, id, rootId, suffixes, output, old(nodes), taskIds, at);
      AddReviews(config, output, suffixes, taskIds, at);
    }

    method AddTasks(config: Config, output: Output, suffixes: seq<string>) returns (taskIds: seq<string>)
      requires |suffixes| == Size(output)
      modifies this
      ensures taskIds == NewIds(id, suffixes)[..|output.tasks|]
      ensures nodes == Added(config, rootId, NewIds(id, suffixes), output, old(nodes), |output.tasks|)
    {
      ghost var ids := NewIds(id, suffixes);
      taskIds := [];
      for i := 0 to |output.tasks|
        invariant taskIds == ids[..i]
        invariant nodes == Added(config, rootId, ids, output, old(nodes), i)
      {
        var t := output.tasks[i];
        var deps := ResolveDeps(t.dependsOn, taskIds);
        var added := AddNode(Implement(Or(t.spec, "unknown task")), FirstOr(config.workers, "claude"), deps, suffixes[i]);
        taskIds := taskIds + [added];
      }
    }

    /** `at` says what the graph holds after so many reviews. */
    method AddReviews(config: Config, output: Output, suffixes: seq<string>, taskIds: seq<string>, ghost at: nat -> Nodes)
      requires |suffixes| == Size(output) && nodes == at(0)
      requires forall i: nat | i < |output.reviews| :: Follows(config, id, rootId, suffixes, output, taskIds, at(i), at(i + 1), i)
      modifies this
      ensures nodes == at(|output.reviews|)
    {
      for i := 0 to |output.reviews|
        invariant nodes == at(i)
      {
        assert Follows(config, id, rootId, suffixes, output, taskIds, at(i), at(i + 1), i);
        AddReview(config, output.reviews[i], suffixes[|output.tasks| + i], taskIds);
      }
    }

    method AddReview(config: Config, r: PlanReview, suffix: string, taskIds: seq<string>)
      modifies this
      ensures nodes == old(nodes)[NodeId(id, suffix) := ReviewNode(config, r, rootId, taskIds)]
    {
      var index := 0;
      if r.target.Some? {
        var parsed := Decimal.Parse(r.target.value, USIZE_MAX);
        index := if parsed.Some? then parsed.value else 0;
      }
      var target := if index < |taskIds| then taskIds[index] else rootId;
      var added := AddNode(Review(Or(r.diffRef, "latest")), FirstOr(config.reviewers, "opencode"), [target], suffix);
    }

    method Start(nid: string, task: string)
      modifies this
      ensures nodes == if nid in old(nodes) then old(nodes)[nid := old(nodes)[nid].(status := Running, task := Some(task))] else old(nodes)
    {
      if nid in nodes {
        nodes := nodes[nid := nodes[nid].(status := Running, task := Some(task))];
      }
    }

    /** `dispatch_ready_nodes`, one created task after the other. */
    method Dispatch(created: map<string, string>) returns (handedOut: set<string>)
      modifies this
      ensures nodes == Dispatched(old(nodes), created)
      ensures handedOut == set k | k in Ready(old(nodes)) && TaskFor(created, k) != "" :: TaskFor(created, k)
    {
      var ready := ReadyNodes();
      ghost var before := nodes;
      handedOut := {};
      for i := 0 to |ready|
        invariant nodes == PartDispatched(before, created, ready[..i])
        invariant handedOut == HandedOut(created, ready[..i])
      {
        assert ready[..i + 1] == ready[..i] + [ready[i]] && ready[i] in ready;
        OneMoreDispatched(before, created, ready[..i], ready[i]);
        var task := TaskFor(created, ready[i]);
        if task != "" {
          Start(ready[i], task);
          handedOut := handedOut + {task};
        } else {
          Fail(ready[i], DISPATCH_FAILED);
        }
      }
      assert ready[..|ready|] == ready;
      AllDispatched(before, created, ready);
    }

    method FindRunning(task: string) returns (found: Option<string>)
      ensures match found
              case Some(k) => k in nodes && nodes[k].status == Running && nodes[k].task == Some(task)
              case None => forall k <- nodes :: !(nodes[k].status == Running && nodes[k].task == Some(task))
    {
      var left := nodes.Keys;
      while left != {}
        invariant left <= nodes.Keys
        invariant forall k <- nodes :: nodes[k].status == Running && nodes[k].task == Some(task) ==> k in left
      {
        var k :| k in left;
        if nodes[k].task == Some(task) && nodes[k].status == Running {
          return Some(k);
        }
        left := left - {k};
      }
      return None;
    }

    method DependentsOf(nid: string) returns (dependents: seq<string>)
      ensures forall k :: k in dependents <==> k in nodes && nid in nodes[k].dependsOn
    {
      dependents := [];
      var left := nodes.Keys;
      while left != {}
        invariant left <= nodes.Keys
        invariant forall k :: k in dependents <==> k in nodes && k !in left && nid in nodes[k].dependsOn
      {
        var k :| k in left;
        if nid in nodes[k].dependsOn {
          dependents := dependents + [k];
        }
        left := left - {k};
      }
    }

    method FailDependents(nid: string)
      modifies this
      ensures nodes == DependentsFailed(old(nodes), nid)
    {
      var skip := DependentsOf(nid);
      ghost var before := nodes;
      for i := 0 to |skip|
        invariant nodes == map k | k in before ::
          if k in skip[..i] then before[k].(status := Failed, result := Some("dependency " + nid + " failed")) else before[k]
      {
        assert skip[..i + 1] == skip[..i] + [skip[i]] && skip[i] in skip;
        Fail(skip[i], "dependency " + nid + " failed");
      }
      assert skip[..|skip|] == skip;
    }
  }

  class Orchestrator {
    const config: Config
    var graphs: map<string, TaskGraph>
    /** Where the owning tasks were last moved. */
    var board: map<string, Column>
    /** What each graph holds, and which daemon task ids were handed out. */
    ghost var views: map<string, Graph>
    ghost var issued: set<string>

    constructor (config: Config)
      ensures this.config == config && Valid() && Snapshot() == INITIAL
    {
      this.config := config;
      graphs, board, views, issued := map[], map[], map[], {};
    }

    ghost predicate Valid()
      reads `graphs, `views, graphs.Values
    {
      && views.Keys == graphs.Keys
      && (forall gid | gid in graphs :: graphs[gid].View() == views[gid] && graphs[gid].id == gid)
      && (forall gid, other | gid in graphs && other in graphs && graphs[gid] == graphs[other] :: gid == other)
    }

    ghost function Snapshot(): State
      reads this
    {
      State(views, issued, board)
    }

    /** Record what the graph under `gid` now holds. */
    ghost method Note(gid: string)
      requires gid in graphs && graphs[gid].id == gid && views.Keys == graphs.Keys
      requires forall other | other in graphs && other != gid :: graphs[other].View() == views[other] && graphs[other].id == other
      requires forall i, j | i in graphs && j in graphs && graphs[i] == graphs[j] :: i == j
      modifies `views
      ensures Valid() && views == old(views)[gid := graphs[gid].View()]
    {
      views := views[gid := graphs[gid].View()];
      assert forall other | other in graphs && other != gid :: graphs[other].View() == views[other] && graphs[other].id == other;
    }

    /** `handle_start_plan`; the graph id and the two task ids come from outside. */
    method StartPlan(project: string, goal: string, gid: string, parentTask: string, plannerTask: string)
      returns (graphId: string, parent: string)
      requires Valid()
      modifies this
      ensures Valid() && fresh(graphs.Values - old(graphs.Values))
      ensures Snapshot() == PlanStarted(config, old(Snapshot()), project, goal, gid, parentTask, plannerTask)
      ensures (graphId, parent) == if parentTask == "" then ("", "") else (gid, parentTask)
    {
      if parentTask == "" {
        return "", "";
      }
      issued := issued + {parentTask};
      var graph := new TaskGraph(gid, project, goal, config.planner, parentTask);
      if plannerTask != "" {
        issued := issued + {plannerTask};
        graph.Start(graph.rootId, plannerTask);
        assert graph.View() == NewGraph(config, project, goal, gid, parentTask, plannerTask);
        graphs := graphs[gid := graph];
        views := views[gid := graph.View()];
      }
      return gid, parentTask;
    }

    /** `handle_node_complete`, which as a command of its own is not guarded. */
    method CompleteNode(gid: string, nid: string, result: string, a: Answers)
      requires Valid() && Suffices(a)
      modifies this, graphs.Values
      ensures Valid() && graphs == old(graphs)
      ensures Snapshot() == NodeCompleted(config, old(Snapshot()), gid, nid, result, a)
    {
      if gid !in graphs {
        return;
      }
      var graph := graphs[gid];
      graph.CompleteAndExtend(config, nid, result, a);
      if AllDone(graph.nodes) {
        board := board[graph.parent := Waiting];
      } else {
        var handedOut := graph.Dispatch(a.created);
        issued := issued + handedOut;
      }
      Note(gid);
    }

    /** `handle_node_failed`, likewise. */
    method FailNode(gid: string, nid: string, reason: string)
      requires Valid()
      modifies this, graphs.Values
      ensures Valid() && graphs == old(graphs)
      ensures Snapshot() == NodeFailed(old(Snapshot()), gid, nid, reason)
    {
      if gid !in graphs {
        return;
      }
      var graph := graphs[gid];
      graph.Fail(nid, reason);
      graph.FailDependents(nid);
      if AllDone(graph.nodes) {
        board := board[graph.parent := Blocked];
      }
      Note(gid);
    }

    /** The first node running under that daemon task, in the maps' own order. */
    method FindRunning(task: string) returns (found: Option<(string, string)>)
      requires Valid()
      ensures IsFound(views, task, found)
    {
      var left := graphs.Keys;
      while left != {}
        invariant left <= graphs.Keys
        invariant forall gid, nid | Runs(views, task, gid, nid) :: gid in left
      {
        var gid :| gid in left;
        var nid := graphs[gid].FindRunning(task);
        assert graphs[gid].nodes == views[gid].nodes;
        if nid.Some? {
          return Some((gid, nid.value));
        }
        left := left - {gid};
      }
      return None;
    }

    /** `handle_task_finished`. */
    method FinishTask(task: string, result: string, success: bool, a: Answers) returns (found: Option<(string, string)>)
      requires Valid() && Suffices(a)
      modifies this, graphs.Values
      ensures Valid() && graphs == old(graphs)
      ensures IsFound(old(views), task, found)
      ensures Snapshot() == TaskFinished(config, old(Snapshot()), found, result, success, a)
    {
      found := FindRunning(task);
      if found.None? {
        return;
      }
      if success {
        CompleteNode(found.value.0, found.value.1, result, a);
      } else {
        FailNode(found.value.0, found.value.1, result);
      }
    }

    method CancelPlan(gid: string)
      requires Valid()
      modifies this
      ensures Valid() && graphs == old(graphs) - {gid}
      ensures Snapshot() == Cancelled(old(Snapshot()), gid)
    {
      graphs := graphs - {gid};
      views := views - {gid};
    }
  }

  function PartDispatched(nodes: Nodes, created: map<string, string>, done: seq<string>): Nodes
  {
    map k | k in nodes :: if k in done then Launched(nodes[k], TaskFor(created, k)) else nodes[k]
  }

  function HandedOut(created: map<string, string>, done: seq<string>): set<string>
  {
    set k | k in done && TaskFor(created, k) != "" :: TaskFor(created, k)
  }

  lemma OneMoreDispatched(nodes: Nodes, created: map<string, string>, done: seq<string>, k: string)
    requires k in nodes && k !in done
    ensures var before, task := PartDispatched(nodes, created, done), TaskFor(created, k);
            && before[k] == nodes[k]
            && PartDispatched(nodes, created, done + [k]) == before[k := Launched(nodes[k], task)]
            && HandedOut(created, done + [k]) == HandedOut(created, done) + if task != "" then {task} else {}
  {
    assert forall j :: j in done + [k] <==> j in done || j == k;
  }

  lemma AllDispatched(nodes: Nodes, created: map<string, string>, ready: seq<string>)
    requires forall k :: k in ready <==> k in Ready(nodes)
    ensures PartDispatched(nodes, created, ready) == Dispatched(nodes, created)
    ensures HandedOut(created, ready) == set k | k in Ready(nodes) && TaskFor(created, k) != "" :: TaskFor(created, k)
  {
  }
}
