/** What every command keeps of the orchestrator's state. */
module OrchestrationInvariants {
  import opened Basics
  import opened OrchestrationState

  // ----- one graph -----

  predicate Started(status: Status) { status == Running || status == Complete }

  /** A node runs or is complete only if every dependency is present and complete. */
  predicate Fed(nodes: Nodes)
  {
    forall k, d | k in nodes && d in nodes[k].dependsOn && Started(nodes[k].status) ::
      d in nodes && nodes[d].status == Complete
  }

  predicate NothingReady(nodes: Nodes) { forall k <- nodes :: !IsReady(nodes, k) }

  predicate WellFormed(rootId: string, nodes: Nodes)
  {
    && rootId in nodes && nodes[rootId].dependsOn == []
    && (forall k <- nodes :: nodes[k].kind == Plan <==> k == rootId)
    && (forall k <- nodes :: nodes[k].status != Skipped)
    && (forall k <- nodes :: nodes[k].status == Running ==> nodes[k].task.Some?)
    && (forall k <- nodes :: nodes[k].status == Pending ==> nodes[k].task == None)
  }

  /** The planner is never pending, and alone until it is complete. */
  predicate PlannerFirst(rootId: string, nodes: Nodes)
    requires rootId in nodes
  {
    && (Terminal(nodes[rootId].status) || nodes[rootId].status == Running)
    && (nodes[rootId].status != Complete ==> nodes.Keys == {rootId})
  }

  predicate Sound(gid: string, g: Graph)
  {
    && g.rootId == RootId(gid) && WellFormed(g.rootId, g.nodes) && PlannerFirst(g.rootId, g.nodes)
    && Fed(g.nodes) && NothingReady(g.nodes)
  }

  /** How a node's status may move: finished nodes stay as they finished, and no node goes back to pending. */
  predicate Moves(from: Status, to: Status)
  {
    from == to || from == Pending || (from == Running && Terminal(to))
  }

  /** Nodes stay, with their kind and dependencies, and move forward only. */
  predicate Advances(before: Nodes, after: Nodes)
  {
    forall k <- before ::
      && k in after && after[k].kind == before[k].kind && after[k].dependsOn == before[k].dependsOn
      && Moves(before[k].status, after[k].status)
  }

  lemma CompletingKeeps(root: string, nodes: Nodes, nid: string, result: string)
    requires WellFormed(root, nodes) && PlannerFirst(root, nodes) && Fed(nodes)
    requires nid in nodes && nodes[nid].status == Running
    ensures var after := Marked(nodes, nid, Complete, Some(result));
            WellFormed(root, after) && PlannerFirst(root, after) && Fed(after) && Advances(nodes, after)
  {
  }

  /** The same nodes, the same complete ones, and nothing newly pending. */
  predicate Quiet(before: Nodes, after: Nodes)
  {
    && Advances(before, after) && after.Keys == before.Keys
    && forall k <- before :: (after[k].status == Complete <==> before[k].status == Complete)
  }

  lemma QuietKeepsUnready(before: Nodes, after: Nodes)
    requires Quiet(before, after)
    requires forall k <- after :: after[k].status == Pending ==> before[k].status == Pending && !IsReady(before, k)
    ensures NothingReady(after)
  {
    forall k <- after
      ensures !IsReady(after, k)
    {
      if after[k].status == Pending {
        var d :| d in before[k].dependsOn && !(d in before && before[d].status == Complete);
        assert d in after[k].dependsOn;
      }
    }
  }

  lemma QuietKeepsFed(before: Nodes, after: Nodes)
    requires Quiet(before, after) && Fed(before)
    requires forall k <- after :: Started(after[k].status) ==> Started(before[k].status) || IsReady(before, k)
    ensures Fed(after)
  {
    forall k, d | k in after && d in after[k].dependsOn && Started(after[k].status)
      ensures d in after && after[d].status == Complete
    {
      assert d in before[k].dependsOn;
    }
  }

  lemma FailingKeeps(root: string, nodes: Nodes, nid: string, reason: string)
    requires WellFormed(root, nodes) && PlannerFirst(root, nodes) && Fed(nodes) && NothingReady(nodes)
    requires nid in nodes && nodes[nid].status == Running
    ensures var after := DependentsFailed(Marked(nodes, nid, Failed, Some(reason)), nid);
            && WellFormed(root, after) && PlannerFirst(root, after) && Fed(after) && NothingReady(after)
            && Quiet(nodes, after)
  {
    var after := DependentsFailed(Marked(nodes, nid, Failed, Some(reason)), nid);
    FailedNodes(nodes, nid, reason);
    QuietKeepsUnready(nodes, after);
    QuietKeepsFed(nodes, after);
  }

  /** A failure fails the node and its dependents, which were all pending or failed already. */
  lemma FailedNodes(nodes: Nodes, nid: string, reason: string)
    requires Fed(nodes) && nid in nodes && nodes[nid].status == Running
    requires forall k <- nodes :: nodes[k].status != Skipped
    ensures var after := DependentsFailed(Marked(nodes, nid, Failed, Some(reason)), nid);
            && Quiet(nodes, after) && after[nid].status == Failed
            && (forall k <- after :: Started(after[k].status) ==> after[k] == nodes[k])
            && (forall k <- after :: after[k] == nodes[k] || after[k].status == Failed)
            && (forall k <- after :: after[k].task == nodes[k].task)
  {
    var after := DependentsFailed(Marked(nodes, nid, Failed, Some(reason)), nid);
    assert after.Keys == nodes.Keys;
    forall k <- nodes
      ensures Failing(nodes[k], after[k], nid, k)
    {
      assert nid in nodes[k].dependsOn ==> !Started(nodes[k].status);
    }
  }

  predicate Failing(before: Node, after: Node, nid: string, k: string)
  {
    && after.kind == before.kind && after.dependsOn == before.dependsOn && after.task == before.task
    && if k == nid then after.status == Failed && before.status == Running
       else after == before || (!Started(before.status) && after.status == Failed)
  }

  /** The keys a plan adds, each with the node of some position. */
  lemma {:induction false} AddedNodes(config: Config, root: string, ids: seq<string>, output: Output, nodes: Nodes, n: nat)
    requires |ids| == Size(output) && n <= |ids|
    ensures var after := Added(config, root, ids, output, nodes, n);
            && (forall k <- nodes :: k in after && (k !in ids[..n] ==> after[k] == nodes[k]))
            && (forall k <- after :: k in nodes || k in ids[..n])
            && (forall k <- ids[..n] :: k in after && exists j | 0 <= j < n :: after[k] == NewNode(config, root, ids, output, j))
  {
    if n > 0 {
      AddedNodes(config, root, ids, output, nodes, n - 1);
      assert ids[..n] == ids[..n - 1] + [ids[n - 1]];
    }
  }

  /** Every node a plan adds is pending, without a task, and no planner; the planner stays as it was. */
  lemma NewNodesWait(config: Config, root: string, ids: seq<string>, output: Output, nodes: Nodes)
    requires nodes.Keys == {root} && |ids| == Size(output) && root !in ids
    ensures var after := Added(config, root, ids, output, nodes, |ids|);
            && root in after && after[root] == nodes[root]
            && forall k <- after :: k != root ==> after[k].status == Pending && after[k].kind != Plan && after[k].task == None
  {
    AddedNodes(config, root, ids, output, nodes, |ids|);
    assert ids[..|ids|] == ids;
  }

  lemma PlanningKeeps(config: Config, root: string, ids: seq<string>, output: Output, nodes: Nodes)
    requires WellFormed(root, nodes) && PlannerFirst(root, nodes) && Fed(nodes)
    requires nodes.Keys == {root} && nodes[root].status == Complete
    requires |ids| == Size(output) && root !in ids
    ensures var after := Added(config, root, ids, output, nodes, |ids|);
            && WellFormed(root, after) && PlannerFirst(root, after) && Fed(after) && after[root] == nodes[root]
            && forall k <- after :: k != root ==> after[k].status == Pending
  {
    NewNodesWait(config, root, ids, output, nodes);
    PlannedGraph(root, nodes, Added(config, root, ids, output, nodes, |ids|));
  }

  lemma PlannedGraph(root: string, nodes: Nodes, after: Nodes)
    requires WellFormed(root, nodes) && nodes[root].status == Complete && root in after && after[root] == nodes[root]
    requires forall k <- after :: k != root ==> after[k].status == Pending && after[k].kind != Plan && after[k].task == None
    ensures WellFormed(root, after) && PlannerFirst(root, after) && Fed(after)
  {
  }

  lemma DispatchingKeeps(root: string, nodes: Nodes, created: map<string, string>)
    requires WellFormed(root, nodes) && PlannerFirst(root, nodes) && Fed(nodes)
    ensures var after := Dispatched(nodes, created);
            && WellFormed(root, after) && PlannerFirst(root, after) && Fed(after) && NothingReady(after)
            && Quiet(nodes, after)
  {
    var after := Dispatched(nodes, created);
    DispatchedNodes(nodes, created);
    QuietKeepsUnready(nodes, after);
    QuietKeepsFed(nodes, after);
  }

  lemma DispatchedNodes(nodes: Nodes, created: map<string, string>)
    ensures var after := Dispatched(nodes, created);
            && Quiet(nodes, after)
            && (forall k <- after :: !IsReady(nodes, k) ==> after[k] == nodes[k])
            && (forall k <- after :: IsReady(nodes, k) ==> after[k] == Launched(nodes[k], TaskFor(created, k)))
  {
  }

  // ----- the whole orchestrator -----

  predicate Holds(graphs: map<string, Graph>, task: string, gid: string, k: string)
  {
    gid in graphs && k in graphs[gid].nodes && graphs[gid].nodes[k].task == Some(task)
  }

  /** Every task id on a node was issued, and is on that node only. */
  ghost predicate TasksUnique(s: State)
  {
    && (forall t, gid, k | Holds(s.graphs, t, gid, k) :: t in s.issued)
    && (forall t, gid, k, gid', k' | Holds(s.graphs, t, gid, k) && Holds(s.graphs, t, gid', k') :: gid == gid' && k == k')
  }

  /** An owning task belongs to one graph, and is moved only when that graph is done. */
  predicate BoardTruthful(s: State)
  {
    && s.board.Keys <= s.issued
    && (forall gid <- s.graphs :: s.graphs[gid].parent in s.issued)
    && (forall gid <- s.graphs :: s.graphs[gid].parent in s.board ==> AllDone(s.graphs[gid].nodes))
    && (forall gid, gid' | gid in s.graphs && gid' in s.graphs && s.graphs[gid].parent == s.graphs[gid'].parent :: gid == gid')
  }

  ghost predicate Inv(s: State)
  {
    && (forall gid <- s.graphs :: Sound(gid, s.graphs[gid]))
    && TasksUnique(s) && BoardTruthful(s)
  }

  /** `after` carries the daemon tasks of `before`, and at most one node each of some tasks never issued. */
  ghost predicate TasksFrom(s: State, before: Nodes, after: Nodes, issued: set<string>)
  {
    && s.issued <= issued
    && (forall k | k in after && after[k].task.Some? ::
          (k in before && before[k].task == after[k].task)
          || (after[k].task.value !in s.issued && after[k].task.value in issued))
    && (forall k, k' | k in after && k' in after && after[k].task.Some? && after[k].task == after[k'].task
                       && after[k].task.value !in s.issued :: k == k')
  }

  lemma TasksStayUnique(s: State, gid: string, nodes: Nodes, issued: set<string>, board: map<string, Column>)
    requires TasksUnique(s) && gid in s.graphs && TasksFrom(s, s.graphs[gid].nodes, nodes, issued)
    ensures TasksUnique(State(s.graphs[gid := s.graphs[gid].(nodes := nodes)], issued, board))
  {
    var after := State(s.graphs[gid := s.graphs[gid].(nodes := nodes)], issued, board);
    forall t, i, k | Holds(after.graphs, t, i, k)
      ensures Holds(s.graphs, t, i, k) || (i == gid && t !in s.issued)
      ensures t in issued
    {
      if i != gid {
        assert Holds(s.graphs, t, i, k);
      } else if k in s.graphs[gid].nodes && s.graphs[gid].nodes[k].task == Some(t) {
        assert Holds(s.graphs, t, i, k);
      }
    }
    forall t, i, k, i', k' | Holds(after.graphs, t, i, k) && Holds(after.graphs, t, i', k')
      ensures i == i' && k == k'
    {
      assert t in s.issued ==> Holds(s.graphs, t, i, k) && Holds(s.graphs, t, i', k');
    }
  }

  /** The nodes of a completion, before and after anything is dispatched. */
  lemma ExtendingKeeps(config: Config, gid: string, g: Graph, nid: string, result: string, a: Answers)
    requires Sound(gid, g) && nid in g.nodes && g.nodes[nid].status == Running && Suffices(a)
    ensures var nodes := Extended(config, gid, g, nid, result, a);
            && WellFormed(g.rootId, nodes) && PlannerFirst(g.rootId, nodes) && Fed(nodes) && Advances(g.nodes, nodes)
            && nodes[nid].status == Complete
            && (forall k <- nodes :: if k in g.nodes then nodes[k].task == g.nodes[k].task else nodes[k].task == None)
  {
    CompletingKeeps(g.rootId, g.nodes, nid, result);
    var nodes := Marked(g.nodes, nid, Complete, Some(result));
    if nodes[nid].kind == Plan && a.output.Some? {
      var ids := NewIds(gid, a.suffixes);
      assert g.rootId !in ids by {
        assert forall i | 0 <= i < |ids| :: |ids[i]| == |gid| + 7;
      }
      PlanningKeeps(config, g.rootId, ids, a.output.value, nodes);
    }
  }

  /** What a step does to the graphs that stay, and to the daemon tasks issued before it. */
  ghost predicate Evolves(s: State, t: State)
  {
    && s.issued <= t.issued
    && (forall gid | gid in t.graphs && gid in s.graphs :: Advances(s.graphs[gid].nodes, t.graphs[gid].nodes))
    && (forall gid | gid in t.graphs && gid in s.graphs :: TasksFrom(s, s.graphs[gid].nodes, t.graphs[gid].nodes, t.issued))
    && (forall task, gid, k | Holds(t.graphs, task, gid, k) && gid !in s.graphs :: task !in s.issued)
  }

  lemma KeptTasks(s: State, nodes: Nodes, issued: set<string>)
    requires s.issued <= issued && forall k <- nodes :: nodes[k].task.Some? ==> nodes[k].task.value in s.issued
    ensures TasksFrom(s, nodes, nodes, issued)
  {
  }

  lemma OthersEvolve(s: State, gid: string, t: State)
    requires TasksUnique(s) && s.issued <= t.issued
    requires forall i <- t.graphs :: i != gid ==> i in s.graphs && t.graphs[i] == s.graphs[i]
    requires gid in t.graphs && gid in s.graphs && t.graphs[gid] != s.graphs[gid] ==>
               Advances(s.graphs[gid].nodes, t.graphs[gid].nodes) && TasksFrom(s, s.graphs[gid].nodes, t.graphs[gid].nodes, t.issued)
    requires forall task, k | Holds(t.graphs, task, gid, k) && gid !in s.graphs :: task !in s.issued
    ensures Evolves(s, t)
  {
    forall i | i in t.graphs && i in s.graphs && t.graphs[i] == s.graphs[i]
      ensures TasksFrom(s, s.graphs[i].nodes, t.graphs[i].nodes, t.issued)
    {
      forall k | k in s.graphs[i].nodes && s.graphs[i].nodes[k].task.Some?
        ensures s.graphs[i].nodes[k].task.value in s.issued
      {
        assert Holds(s.graphs, s.graphs[i].nodes[k].task.value, i, k);
      }
      KeptTasks(s, s.graphs[i].nodes, t.issued);
    }
  }

  /** A step on one graph: its new nodes are sound, its new tasks fresh, and it announces nothing but being done. */
  lemma GraphStepKeeps(s: State, gid: string, nodes: Nodes, issued: set<string>, board: map<string, Column>)
    requires Inv(s) && gid in s.graphs
    requires Sound(gid, s.graphs[gid].(nodes := nodes)) && TasksFrom(s, s.graphs[gid].nodes, nodes, issued)
    requires board.Keys <= s.board.Keys + {s.graphs[gid].parent}
    requires s.graphs[gid].parent in board ==> AllDone(nodes)
    requires Advances(s.graphs[gid].nodes, nodes)
    ensures Inv(State(s.graphs[gid := s.graphs[gid].(nodes := nodes)], issued, board))
    ensures Evolves(s, State(s.graphs[gid := s.graphs[gid].(nodes := nodes)], issued, board))
  {
    GraphStepSound(s, gid, nodes, issued, board);
    OneGraphEvolves(s, gid, nodes, issued, board);
  }

  lemma GraphStepSound(s: State, gid: string, nodes: Nodes, issued: set<string>, board: map<string, Column>)
    requires Inv(s) && gid in s.graphs
    requires Sound(gid, s.graphs[gid].(nodes := nodes)) && TasksFrom(s, s.graphs[gid].nodes, nodes, issued)
    requires board.Keys <= s.board.Keys + {s.graphs[gid].parent}
    requires s.graphs[gid].parent in board ==> AllDone(nodes)
    ensures Inv(State(s.graphs[gid := s.graphs[gid].(nodes := nodes)], issued, board))
  {
    TasksStayUnique(s, gid, nodes, issued, board);
    BoardStays(s, gid, nodes, issued, board);
    SoundStays(s, gid, nodes, issued, board);
  }

  lemma AllSound(graphs: map<string, Graph>, gid: string, g: Graph)
    requires (forall i <- graphs :: Sound(i, graphs[i])) && Sound(gid, g)
    ensures var after := graphs[gid := g]; forall i <- after :: Sound(i, after[i])
  {
  }

  lemma SoundStays(s: State, gid: string, nodes: Nodes, issued: set<string>, board: map<string, Column>)
    requires Inv(s) && gid in s.graphs && Sound(gid, s.graphs[gid].(nodes := nodes))
    requires TasksUnique(State(s.graphs[gid := s.graphs[gid].(nodes := nodes)], issued, board))
    requires BoardTruthful(State(s.graphs[gid := s.graphs[gid].(nodes := nodes)], issued, board))
    ensures Inv(State(s.graphs[gid := s.graphs[gid].(nodes := nodes)], issued, board))
  {
    AllSound(s.graphs, gid, s.graphs[gid].(nodes := nodes));
  }

  lemma OneGraphEvolves(s: State, gid: string, nodes: Nodes, issued: set<string>, board: map<string, Column>)
    requires TasksUnique(s) && gid in s.graphs
    requires Advances(s.graphs[gid].nodes, nodes) && TasksFrom(s, s.graphs[gid].nodes, nodes, issued)
    ensures Evolves(s, State(s.graphs[gid := s.graphs[gid].(nodes := nodes)], issued, board))
  {
    OthersEvolve(s, gid, State(s.graphs[gid := s.graphs[gid].(nodes := nodes)], issued, board));
  }

  lemma BoardStays(s: State, gid: string, nodes: Nodes, issued: set<string>, board: map<string, Column>)
    requires BoardTruthful(s) && gid in s.graphs && s.issued <= issued
    requires board.Keys <= s.board.Keys + {s.graphs[gid].parent}
    requires s.graphs[gid].parent in board ==> AllDone(nodes)
    ensures BoardTruthful(State(s.graphs[gid := s.graphs[gid].(nodes := nodes)], issued, board))
  {
    var graphs := s.graphs[gid := s.graphs[gid].(nodes := nodes)];
    assert graphs.Keys == s.graphs.Keys;
    assert forall i <- graphs :: graphs[i].parent == s.graphs[i].parent && (i != gid ==> graphs[i] == s.graphs[i]);
  }

  /** The nodes of graph `gid` between a completion and what follows it. */
  ghost predicate Extends(s: State, gid: string, nodes: Nodes)
    requires gid in s.graphs
  {
    && WellFormed(RootId(gid), nodes) && PlannerFirst(RootId(gid), nodes) && Fed(nodes)
    && Advances(s.graphs[gid].nodes, nodes) && TasksFrom(s, s.graphs[gid].nodes, nodes, s.issued)
    && (forall k <- nodes :: nodes[k].task.Some? ==> nodes[k].task.value in s.issued)
  }

  lemma CompletionExtends(config: Config, s: State, gid: string, nid: string, result: string, a: Answers)
    requires Inv(s) && gid in s.graphs && nid in s.graphs[gid].nodes && s.graphs[gid].nodes[nid].status == Running
    requires Suffices(a)
    ensures Sound(gid, s.graphs[gid]) && Extends(s, gid, Extended(config, gid, s.graphs[gid], nid, result, a))
  {
    ExtendingKeeps(config, gid, s.graphs[gid], nid, result, a);
    ExtendedTasks(s, gid, Extended(config, gid, s.graphs[gid], nid, result, a));
  }

  lemma CompletionKeeps(config: Config, s: State, gid: string, nid: string, result: string, a: Answers)
    requires Inv(s) && gid in s.graphs && nid in s.graphs[gid].nodes && s.graphs[gid].nodes[nid].status == Running
    requires Suffices(a) && FreshTasks(s, a.created)
    ensures Inv(NodeCompleted(config, s, gid, nid, result, a))
    ensures Evolves(s, NodeCompleted(config, s, gid, nid, result, a))
  {
    CompletionExtends(config, s, gid, nid, result, a);
    var nodes := Extended(config, gid, s.graphs[gid], nid, result, a);
    if AllDone(nodes) {
      EndKeeps(s, gid, nodes);
    } else {
      DispatchKeeps(s, gid, nodes, a.created);
    }
  }

  lemma EndKeeps(s: State, gid: string, nodes: Nodes)
    requires Inv(s) && gid in s.graphs && !AllDone(s.graphs[gid].nodes)
    requires Extends(s, gid, nodes) && AllDone(nodes)
    ensures Inv(State(s.graphs[gid := s.graphs[gid].(nodes := nodes)], s.issued, s.board[s.graphs[gid].parent := Waiting]))
    ensures Evolves(s, State(s.graphs[gid := s.graphs[gid].(nodes := nodes)], s.issued, s.board[s.graphs[gid].parent := Waiting]))
  {
    DoneIsSound(gid, s.graphs[gid], nodes);
    GraphStepKeeps(s, gid, nodes, s.issued, s.board[s.graphs[gid].parent := Waiting]);
  }

  lemma DoneIsSound(gid: string, g: Graph, nodes: Nodes)
    requires Sound(gid, g) && AllDone(nodes)
    requires WellFormed(RootId(gid), nodes) && PlannerFirst(RootId(gid), nodes) && Fed(nodes)
    ensures Sound(gid, g.(nodes := nodes))
  {
  }

  lemma DispatchKeeps(s: State, gid: string, nodes: Nodes, created: map<string, string>)
    requires Inv(s) && gid in s.graphs && !AllDone(s.graphs[gid].nodes)
    requires Extends(s, gid, nodes) && FreshTasks(s, created)
    ensures var issued := s.issued + set k | k in Ready(nodes) && TaskFor(created, k) != "" :: TaskFor(created, k);
            var t := State(s.graphs[gid := s.graphs[gid].(nodes := Dispatched(nodes, created))], issued, s.board);
            Inv(t) && Evolves(s, t)
  {
    var issued := s.issued + set k | k in Ready(nodes) && TaskFor(created, k) != "" :: TaskFor(created, k);
    assert Sound(gid, s.graphs[gid]);
    DispatchedGraph(s, gid, nodes, created, issued);
    GraphStepKeeps(s, gid, Dispatched(nodes, created), issued, s.board);
  }

  lemma DispatchedGraph(s: State, gid: string, nodes: Nodes, created: map<string, string>, issued: set<string>)
    requires gid in s.graphs && s.graphs[gid].rootId == RootId(gid) && FreshTasks(s, created)
    requires Extends(s, gid, nodes)
    requires issued == s.issued + set k | k in Ready(nodes) && TaskFor(created, k) != "" :: TaskFor(created, k)
    ensures var after := Dispatched(nodes, created);
            && Sound(gid, s.graphs[gid].(nodes := after)) && Advances(s.graphs[gid].nodes, after)
            && TasksFrom(s, s.graphs[gid].nodes, after, issued)
  {
    DispatchingKeeps(RootId(gid), nodes, created);
    DispatchedTasks(s, nodes, created, issued);
    AdvanceTwice(s.graphs[gid].nodes, nodes, Dispatched(nodes, created));
  }

  lemma AdvanceTwice(a: Nodes, b: Nodes, c: Nodes)
    requires Advances(a, b) && Advances(b, c)
    ensures Advances(a, c)
  {
  }

  lemma ExtendedTasks(s: State, gid: string, nodes: Nodes)
    requires TasksUnique(s) && gid in s.graphs
    requires forall k <- nodes :: if k in s.graphs[gid].nodes then nodes[k].task == s.graphs[gid].nodes[k].task else nodes[k].task == None
    ensures TasksFrom(s, s.graphs[gid].nodes, nodes, s.issued)
    ensures forall k <- nodes :: nodes[k].task.Some? ==> nodes[k].task.value in s.issued
  {
    forall k | k in nodes && nodes[k].task.Some?
      ensures nodes[k].task.value in s.issued
    {
      assert Holds(s.graphs, nodes[k].task.value, gid, k);
    }
  }

  ghost predicate FreshTasks(s: State, created: map<string, string>)
  {
    && (forall k | k in created && created[k] != "" :: created[k] !in s.issued)
    && (forall j, k | j in created && k in created && j != k && created[j] != "" :: created[j] != created[k])
  }

  lemma DispatchedTasks(s: State, nodes: Nodes, created: map<string, string>, issued: set<string>)
    requires FreshTasks(s, created)
    requires issued == s.issued + set k | k in Ready(nodes) && TaskFor(created, k) != "" :: TaskFor(created, k)
    requires forall k <- nodes :: nodes[k].task.Some? ==> nodes[k].task.value in s.issued
    ensures TasksFrom(s, nodes, Dispatched(nodes, created), issued)
  {
    var after := Dispatched(nodes, created);
    forall k | k in after && after[k].task != nodes[k].task
      ensures k in created && after[k].task == Some(created[k]) && created[k] in issued && created[k] !in s.issued
    {
      assert k in Ready(nodes);
    }
  }

  lemma FailureKeeps(s: State, gid: string, nid: string, reason: string)
    requires Inv(s) && gid in s.graphs && nid in s.graphs[gid].nodes && s.graphs[gid].nodes[nid].status == Running
    ensures Inv(NodeFailed(s, gid, nid, reason)) && Evolves(s, NodeFailed(s, gid, nid, reason))
  {
    assert Sound(gid, s.graphs[gid]);
    FailedGraph(s, gid, s.graphs[gid], nid, reason);
    var nodes := DependentsFailed(Marked(s.graphs[gid].nodes, nid, Failed, Some(reason)), nid);
    FailureGraphKeeps(s, gid, nodes, if AllDone(nodes) then s.board[s.graphs[gid].parent := Blocked] else s.board);
  }

  lemma FailureGraphKeeps(s: State, gid: string, nodes: Nodes, board: map<string, Column>)
    requires Inv(s) && gid in s.graphs && !AllDone(s.graphs[gid].nodes) && Sound(gid, s.graphs[gid].(nodes := nodes))
    requires Advances(s.graphs[gid].nodes, nodes) && TasksFrom(s, s.graphs[gid].nodes, nodes, s.issued)
    requires board == if AllDone(nodes) then s.board[s.graphs[gid].parent := Blocked] else s.board
    ensures Inv(State(s.graphs[gid := s.graphs[gid].(nodes := nodes)], s.issued, board))
    ensures Evolves(s, State(s.graphs[gid := s.graphs[gid].(nodes := nodes)], s.issued, board))
  {
    GraphStepKeeps(s, gid, nodes, s.issued, board);
  }

  lemma FailedGraph(s: State, gid: string, g: Graph, nid: string, reason: string)
    requires TasksUnique(s) && gid in s.graphs && g == s.graphs[gid] && Sound(gid, g)
    requires nid in g.nodes && g.nodes[nid].status == Running
    ensures var after := DependentsFailed(Marked(g.nodes, nid, Failed, Some(reason)), nid);
            Sound(gid, g.(nodes := after)) && Advances(g.nodes, after) && TasksFrom(s, g.nodes, after, s.issued)
    ensures !AllDone(g.nodes)
  {
    FailingKeeps(g.rootId, g.nodes, nid, reason);
    FailedNodes(g.nodes, nid, reason);
    ExtendedTasks(s, gid, DependentsFailed(Marked(g.nodes, nid, Failed, Some(reason)), nid));
  }

  lemma StartKeeps(config: Config, s: State, project: string, goal: string, gid: string, parent: string, planner: string)
    requires Inv(s) && Possible(s, StartPlan(project, goal, gid, parent, planner))
    ensures Inv(PlanStarted(config, s, project, goal, gid, parent, planner))
    ensures Evolves(s, PlanStarted(config, s, project, goal, gid, parent, planner))
  {
    if parent != "" && planner != "" {
      NewGraphKeeps(config, s, project, goal, gid, parent, planner);
    } else {
      IssuedOnly(s, {parent});
      IssuedOnly(s, {});
      assert s.(issued := s.issued + {}) == s;
    }
  }

  lemma IssuedOnly(s: State, tasks: set<string>)
    requires Inv(s)
    ensures var t := s.(issued := s.issued + tasks); Inv(t) && Evolves(s, t)
  {
    OthersEvolve(s, "", s.(issued := s.issued + tasks));
  }

  function WithGraph(s: State, gid: string, g: Graph, planner: string): State
  {
    s.(graphs := s.graphs[gid := g], issued := s.issued + {g.parent, planner})
  }

  lemma NewGraphKeeps(config: Config, s: State, project: string, goal: string, gid: string, parent: string, planner: string)
    requires Inv(s) && gid !in s.graphs && {parent, planner} !! s.issued && parent != planner
    ensures Inv(WithGraph(s, gid, NewGraph(config, project, goal, gid, parent, planner), planner))
    ensures Evolves(s, WithGraph(s, gid, NewGraph(config, project, goal, gid, parent, planner), planner))
  {
    var g := NewGraph(config, project, goal, gid, parent, planner);
    NewGraphIsSound(config, project, goal, gid, parent, planner);
    NewGraphTasks(s, gid, g, planner);
    SoundWithGraph(s, gid, g, planner);
    OthersEvolve(s, gid, WithGraph(s, gid, g, planner));
  }

  lemma SoundWithGraph(s: State, gid: string, g: Graph, planner: string)
    requires Inv(s) && gid !in s.graphs && g.parent !in s.issued && Sound(gid, g)
    requires TasksUnique(WithGraph(s, gid, g, planner))
    ensures Inv(WithGraph(s, gid, g, planner))
  {
    AllSound(s.graphs, gid, g);
    NewGraphBoard(s, gid, g, planner);
  }

  lemma NewGraphTasks(s: State, gid: string, g: Graph, planner: string)
    requires TasksUnique(s) && gid !in s.graphs && planner !in s.issued
    requires g.nodes.Keys == {g.rootId} && g.nodes[g.rootId].task == Some(planner)
    ensures TasksUnique(WithGraph(s, gid, g, planner))
    ensures forall task, k | Holds(WithGraph(s, gid, g, planner).graphs, task, gid, k) :: task == planner
  {
    var t := WithGraph(s, gid, g, planner);
    forall task, i, k | Holds(t.graphs, task, i, k)
      ensures Holds(s.graphs, task, i, k) || (i == gid && k == g.rootId && task == planner)
    {
    }
  }

  lemma NewGraphBoard(s: State, gid: string, g: Graph, planner: string)
    requires BoardTruthful(s) && gid !in s.graphs && g.parent !in s.issued
    ensures BoardTruthful(WithGraph(s, gid, g, planner))
  {
    var t := WithGraph(s, gid, g, planner);
    assert t.graphs.Keys == s.graphs.Keys + {gid};
    assert forall i <- s.graphs :: t.graphs[i] == s.graphs[i];
  }

  lemma NewGraphIsSound(config: Config, project: string, goal: string, gid: string, parent: string, planner: string)
    ensures Sound(gid, NewGraph(config, project, goal, gid, parent, planner))
  {
  }

  lemma CancelKeeps(s: State, gid: string)
    requires Inv(s)
    ensures Inv(Cancelled(s, gid)) && Evolves(s, Cancelled(s, gid))
  {
    var after := Cancelled(s, gid);
    forall t, i, k | Holds(after.graphs, t, i, k)
      ensures Holds(s.graphs, t, i, k)
    {
    }
    OthersEvolve(s, gid, after);
  }
}
