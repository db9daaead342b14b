/** The orchestrator over whole runs: safety, no repeats, descent, progress and what is announced. */
module OrchestrationTheorems {
  import opened Basics
  import opened DependencyGraph
  import opened OrchestrationState
  import opened OrchestrationInvariants

  // ----- one graph in one step -----

  /** The nodes of a graph after a report about one of them. */
  function NodesAfter(config: Config, gid: string, g: Graph, nid: string, result: string, success: bool, a: Answers): Nodes
    requires Suffices(a)
  {
    if success then
      var nodes := Extended(config, gid, g, nid, result, a);
      if AllDone(nodes) then nodes else Dispatched(nodes, a.created)
    else DependentsFailed(Marked(g.nodes, nid, Failed, Some(result)), nid)
  }

  /** A graph changes only by a report about one of its own nodes. */
  lemma StepOnGraph(config: Config, s: State, c: Command, gid: string)
    requires Possible(s, c) && gid in s.graphs && c != Cancel(gid)
    ensures var t := Step(config, s, c);
            && gid in t.graphs
            && t.graphs[gid] == (if c.Finish? && c.found.Some? && c.found.value.0 == gid then
                 s.graphs[gid].(nodes := NodesAfter(config, gid, s.graphs[gid], c.found.value.1, c.result, c.success, c.answers))
               else s.graphs[gid])
    ensures c.Finish? ==> Step(config, s, c).graphs.Keys == s.graphs.Keys
    ensures c.Finish? && c.found.Some? ==>
              forall i <- s.graphs :: i != c.found.value.0 ==> Step(config, s, c).graphs[i] == s.graphs[i]
  {
  }

  lemma ReportAdvances(config: Config, gid: string, g: Graph, nid: string, result: string, success: bool, a: Answers)
    requires Sound(gid, g) && nid in g.nodes && g.nodes[nid].status == Running && Suffices(a)
    ensures var after := NodesAfter(config, gid, g, nid, result, success, a);
            && Advances(g.nodes, after)
            && after[nid].status == (if success then Complete else Failed)
            && (nid != g.rootId ==> after.Keys == g.nodes.Keys)
  {
    if success {
      CompletionAdvances(config, gid, g, nid, result, a);
      if !AllDone(Extended(config, gid, g, nid, result, a)) {
        DispatchAdvances(g.nodes, Extended(config, gid, g, nid, result, a), nid, a.created);
      }
    } else {
      FailedNodes(g.nodes, nid, result);
    }
  }

  lemma CompletionAdvances(config: Config, gid: string, g: Graph, nid: string, result: string, a: Answers)
    requires Sound(gid, g) && nid in g.nodes && g.nodes[nid].status == Running && Suffices(a)
    ensures var nodes := Extended(config, gid, g, nid, result, a);
            && Advances(g.nodes, nodes) && nodes[nid].status == Complete
            && (nid != g.rootId ==> nodes.Keys == g.nodes.Keys)
  {
    ExtendingKeeps(config, gid, g, nid, result, a);
    if nid != g.rootId {
      PlainExtended(config, gid, g, nid, result, a);
    }
  }

  /** Only the planner's completion adds nodes. */
  lemma PlainExtended(config: Config, gid: string, g: Graph, nid: string, result: string, a: Answers)
    requires Sound(gid, g) && nid in g.nodes && nid != g.rootId && Suffices(a)
    ensures Extended(config, gid, g, nid, result, a) == Marked(g.nodes, nid, Complete, Some(result))
  {
  }

  lemma DispatchAdvances(before: Nodes, nodes: Nodes, nid: string, created: map<string, string>)
    requires Advances(before, nodes) && nid in nodes && nodes[nid].status == Complete
    ensures var after := Dispatched(nodes, created);
            Advances(before, after) && after.Keys == nodes.Keys && after[nid].status == Complete
  {
    DispatchedNodes(nodes, created);
    AdvanceTwice(before, nodes, Dispatched(nodes, created));
  }

  // ----- safety -----

  lemma StepKeeps(config: Config, s: State, c: Command)
    requires Inv(s) && Possible(s, c)
    ensures Inv(Step(config, s, c)) && Evolves(s, Step(config, s, c))
  {
    match c
    case StartPlan(project, goal, gid, parent, planner) =>
      StartKeeps(config, s, project, goal, gid, parent, planner);
    case Finish(_, result, success, found, a) =>
      if found.Some? {
        FinishKeeps(config, s, c);
      } else {
        IssuedOnly(s, {});
        assert s.(issued := s.issued + {}) == s;
      }
    case Cancel(gid) =>
      CancelKeeps(s, gid);
  }

  lemma FinishKeeps(config: Config, s: State, c: Command)
    requires Inv(s) && Possible(s, c) && c.Finish? && c.found.Some?
    ensures Inv(Step(config, s, c)) && Evolves(s, Step(config, s, c))
  {
    var (gid, nid) := c.found.value;
    if c.success {
      CompletionKeeps(config, s, gid, nid, c.result, c.answers);
    } else {
      FailureKeeps(s, gid, nid, c.result);
    }
  }

  lemma {:induction false} EveryRunKeeps(config: Config, cs: seq<Command>, ss: seq<State>, i: nat)
    requires IsRun(config, cs, ss) && Inv(ss[0]) && i < |ss|
    ensures Inv(ss[i])
  {
    if i > 0 {
      EveryRunKeeps(config, cs, ss, i - 1);
      StepKeeps(config, ss[i - 1], cs[i - 1]);
    }
  }

  lemma EmptyIsInvariant()
    ensures Inv(INITIAL)
  {
  }

  /**
   * In every state of every run: whatever runs or is complete has all its
   * dependencies present and complete, and nothing that could run is waiting.
   */
  lemma Safety(config: Config, cs: seq<Command>, ss: seq<State>, i: nat, gid: string, k: string)
    requires IsRun(config, cs, ss) && ss[0] == INITIAL && i < |ss|
    requires gid in ss[i].graphs && k in ss[i].graphs[gid].nodes
    ensures var nodes := ss[i].graphs[gid].nodes;
            && (Started(nodes[k].status) ==> forall d <- nodes[k].dependsOn :: d in nodes && nodes[d].status == Complete)
            && !IsReady(nodes, k)
            && (nodes[k].kind == Plan ==> nodes[k].status != Pending)
  {
    EmptyIsInvariant();
    EveryRunKeeps(config, cs, ss, i);
    assert Sound(gid, ss[i].graphs[gid]);
    SoundIsSafe(gid, ss[i].graphs[gid], k);
  }

  lemma SoundIsSafe(gid: string, g: Graph, k: string)
    requires Sound(gid, g) && k in g.nodes
    ensures var nodes := g.nodes;
            && (Started(nodes[k].status) ==> forall d <- nodes[k].dependsOn :: d in nodes && nodes[d].status == Complete)
            && !IsReady(nodes, k)
            && (nodes[k].kind == Plan ==> nodes[k].status != Pending)
  {
  }

  /** The arm of `node_prompt` for planner nodes is never reached: no node about to be dispatched is one. */
  lemma NoPlannerIsDispatched(config: Config, s: State, c: Command, k: string)
    requires Inv(s) && Possible(s, c) && c.Finish? && c.found.Some?
    requires k in Ready(Extended(config, c.found.value.0, s.graphs[c.found.value.0], c.found.value.1, c.result, c.answers))
    ensures Extended(config, c.found.value.0, s.graphs[c.found.value.0], c.found.value.1, c.result, c.answers)[k].kind != Plan
  {
    var (gid, nid) := c.found.value;
    ExtendingKeeps(config, gid, s.graphs[gid], nid, c.result, c.answers);
  }

  lemma StepAdvances(config: Config, s: State, c: Command, gid: string)
    requires Inv(s) && Possible(s, c) && gid in s.graphs && c != Cancel(gid)
    ensures gid in Step(config, s, c).graphs && Advances(s.graphs[gid].nodes, Step(config, s, c).graphs[gid].nodes)
  {
    StepKeeps(config, s, c);
    StepOnGraph(config, s, c, gid);
  }

  /** A graph that is not cancelled stays, and its finished nodes keep the status they finished with. */
  lemma FinishedIsFinal(config: Config, cs: seq<Command>, ss: seq<State>, gid: string, i: nat, j: nat)
    requires IsRun(config, cs, ss) && Inv(ss[0]) && i <= j < |ss| && gid in ss[i].graphs
    requires forall m | i <= m < j :: cs[m] != Cancel(gid)
    ensures gid in ss[j].graphs && Advances(ss[i].graphs[gid].nodes, ss[j].graphs[gid].nodes)
  {
    var holds := (m: nat) => m < |ss| && Forward(ss[i], ss[m], gid);
    forall m: nat | i <= m < j && holds(m)
      ensures holds(m + 1)
    {
      ForwardOnce(config, cs, ss, gid, i, m);
    }
    Along(i, j, holds);
  }

  /** The graph is in both states, and its nodes moved only forward from one to the other. */
  predicate Forward(s: State, t: State, gid: string)
  {
    gid in s.graphs && gid in t.graphs && Advances(s.graphs[gid].nodes, t.graphs[gid].nodes)
  }

  lemma ForwardOnce(config: Config, cs: seq<Command>, ss: seq<State>, gid: string, i: nat, m: nat)
    requires IsRun(config, cs, ss) && Inv(ss[0]) && i <= m < |cs| && cs[m] != Cancel(gid)
    requires Forward(ss[i], ss[m], gid)
    ensures Forward(ss[i], ss[m + 1], gid)
  {
    EveryRunKeeps(config, cs, ss, m);
    StepAdvances(config, ss[m], cs[m], gid);
    AdvanceTwice(ss[i].graphs[gid].nodes, ss[m].graphs[gid].nodes, ss[m + 1].graphs[gid].nodes);
  }

  /** What each command of a stretch carries on holds at its end. */
  lemma {:induction false} Along(i: nat, j: nat, holds: nat -> bool)
    requires i <= j && holds(i)
    requires forall m: nat | i <= m < j && holds(m) :: holds(m + 1)
    ensures holds(j)
  {
    if i < j {
      Along(i, j - 1, holds);
    }
  }

  // ----- a repeated report changes nothing -----

  /** The daemon handed this id out, and no node runs under it. */
  ghost predicate Spent(s: State, task: string)
  {
    task in s.issued && forall gid, k :: !Runs(s.graphs, task, gid, k)
  }

  lemma StillRunning(s: State, t: State, task: string, gid: string, k: string)
    requires Inv(s) && Evolves(s, t) && task in s.issued && Runs(t.graphs, task, gid, k)
    ensures Runs(s.graphs, task, gid, k)
  {
    assert Holds(t.graphs, task, gid, k);
    assert Sound(gid, s.graphs[gid]);
  }

  lemma FinishSpends(config: Config, s: State, c: Command)
    requires Inv(s) && Possible(s, c) && c.Finish? && c.task in s.issued
    ensures Spent(Step(config, s, c), c.task)
  {
    StepKeeps(config, s, c);
    var t := Step(config, s, c);
    forall gid, k
      ensures !Runs(t.graphs, c.task, gid, k)
    {
      if Runs(t.graphs, c.task, gid, k) {
        StillRunning(s, t, c.task, gid, k);
        var at := c.found.value;
        assert Holds(s.graphs, c.task, gid, k) && Holds(s.graphs, c.task, at.0, at.1);
        StepOnGraph(config, s, c, gid);
        assert Sound(gid, s.graphs[gid]);
        ReportAdvances(config, gid, s.graphs[gid], k, c.result, c.success, c.answers);
        assert false;
      }
    }
  }

  lemma SpentStays(config: Config, cs: seq<Command>, ss: seq<State>, task: string, i: nat, j: nat)
    requires IsRun(config, cs, ss) && Inv(ss[0]) && i <= j < |ss| && Spent(ss[i], task)
    ensures Spent(ss[j], task)
  {
    var holds := (m: nat) => m < |ss| && Spent(ss[m], task);
    forall m: nat | i <= m < j && holds(m)
      ensures holds(m + 1)
    {
      EveryRunKeeps(config, cs, ss, m);
      StepKeepsSpent(config, ss[m], cs[m], task);
    }
    Along(i, j, holds);
  }

  lemma StepKeepsSpent(config: Config, s: State, c: Command, task: string)
    requires Inv(s) && Possible(s, c) && Spent(s, task)
    ensures Spent(Step(config, s, c), task)
  {
    StepKeeps(config, s, c);
    var t := Step(config, s, c);
    forall gid, k
      ensures !Runs(t.graphs, task, gid, k)
    {
      if Runs(t.graphs, task, gid, k) {
        StillRunning(s, t, task, gid, k);
      }
    }
  }

  /** The second report about a task, however much later, leaves everything as it is. */
  lemma RepeatChangesNothing(config: Config, cs: seq<Command>, ss: seq<State>, i: nat, j: nat)
    requires IsRun(config, cs, ss) && Inv(ss[0]) && i < j < |cs|
    requires cs[i].Finish? && cs[j].Finish? && cs[i].task == cs[j].task && cs[i].task in ss[i].issued
    ensures ss[j + 1] == ss[j]
  {
    EveryRunKeeps(config, cs, ss, i);
    FinishSpends(config, ss[i], cs[i]);
    SpentStays(config, cs, ss, cs[i].task, i + 1, j);
  }

  // ----- every effective report brings a graph closer to its end -----

  function WithStatus(nodes: Nodes, status: Status): set<string>
  {
    set k | k in nodes && nodes[k].status == status
  }

  /** Whether the planner is unfinished, then the steps its nodes have left: two for a pending one, one for a running one. */
  function PlannerLeft(g: Graph): nat
  {
    if g.rootId in g.nodes && g.nodes[g.rootId].status == Running then 1 else 0
  }

  function StepsLeft(nodes: Nodes): nat
  {
    2 * |WithStatus(nodes, Pending)| + |WithStatus(nodes, Running)|
  }

  lemma SubsetSize(a: set<string>, b: set<string>)
    requires a <= b
    ensures |a| <= |b| && (a != b ==> |a| < |b|)
  {
    assert b == a + (b - a);
  }

  /** Pointwise progress with some node finished leaves fewer steps. */
  lemma FewerSteps(before: Nodes, after: Nodes, nid: string)
    requires Advances(before, after) && after.Keys == before.Keys
    requires forall k <- before :: before[k].status != Skipped
    requires nid in before && before[nid].status == Running && Terminal(after[nid].status)
    ensures StepsLeft(after) < StepsLeft(before)
  {
    var pending, running := WithStatus(before, Pending), WithStatus(before, Running);
    var pending', running' := WithStatus(after, Pending), WithStatus(after, Running);
    SubsetSize(pending', pending);
    assert nid in pending + running && nid !in pending' + running';
    SubsetSize(pending' + running', pending + running);
    assert pending !! running && pending' !! running';
  }

  lemma EffectiveReportDescends(config: Config, s: State, c: Command)
    requires Inv(s) && Possible(s, c) && c.Finish? && c.found.Some?
    ensures var (gid, nid) := c.found.value;
            var t := Step(config, s, c);
            && t.graphs.Keys == s.graphs.Keys
            && (forall i <- s.graphs :: i != gid ==> t.graphs[i] == s.graphs[i])
            && (PlannerLeft(t.graphs[gid]) < PlannerLeft(s.graphs[gid])
                || (PlannerLeft(t.graphs[gid]) == PlannerLeft(s.graphs[gid])
                    && StepsLeft(t.graphs[gid].nodes) < StepsLeft(s.graphs[gid].nodes)))
  {
    var (gid, nid) := c.found.value;
    StepOnGraph(config, s, c, gid);
    assert Sound(gid, s.graphs[gid]);
    ReportDescends(config, gid, s.graphs[gid], nid, c.result, c.success, c.answers);
  }

  lemma ReportDescends(config: Config, gid: string, g: Graph, nid: string, result: string, success: bool, a: Answers)
    requires Sound(gid, g) && nid in g.nodes && g.nodes[nid].status == Running && Suffices(a)
    ensures var after := g.(nodes := NodesAfter(config, gid, g, nid, result, success, a));
            || PlannerLeft(after) < PlannerLeft(g)
            || (PlannerLeft(after) == PlannerLeft(g) && StepsLeft(after.nodes) < StepsLeft(g.nodes))
  {
    var after := NodesAfter(config, gid, g, nid, result, success, a);
    ReportAdvances(config, gid, g, nid, result, success, a);
    if nid != g.rootId {
      FewerSteps(g.nodes, after, nid);
      assert Moves(g.nodes[g.rootId].status, after[g.rootId].status);
    }
  }

  /** Once the planner is complete, no command but a cancellation adds, removes or rewires a node. */
  lemma SameNodes(config: Config, s: State, c: Command, gid: string)
    requires Inv(s) && Possible(s, c) && gid in s.graphs && c != Cancel(gid) && PlannerDone(s.graphs[gid])
    ensures var t := Step(config, s, c);
            gid in t.graphs && PlannerDone(t.graphs[gid]) && DepsOf(t.graphs[gid].nodes) == DepsOf(s.graphs[gid].nodes)
  {
    var g := s.graphs[gid];
    StepOnGraph(config, s, c, gid);
    if c.Finish? && c.found.Some? && c.found.value.0 == gid {
      ReportKeepsShape(config, gid, g, c.found.value.1, c.result, c.success, c.answers);
    }
  }

  lemma ReportKeepsShape(config: Config, gid: string, g: Graph, nid: string, result: string, success: bool, a: Answers)
    requires Sound(gid, g) && PlannerDone(g) && nid in g.nodes && g.nodes[nid].status == Running && Suffices(a)
    ensures var after := g.(nodes := NodesAfter(config, gid, g, nid, result, success, a));
            PlannerDone(after) && DepsOf(after.nodes) == DepsOf(g.nodes)
  {
    var after := NodesAfter(config, gid, g, nid, result, success, a);
    ReportAdvances(config, gid, g, nid, result, success, a);
    DepsKept(g.nodes, after, g.rootId);
  }

  lemma DepsKept(before: Nodes, after: Nodes, root: string)
    requires Advances(before, after) && after.Keys == before.Keys && root in before && before[root].status == Complete
    ensures DepsOf(after) == DepsOf(before) && root in after && after[root].status == Complete
  {
    assert DepsOf(after).Keys == DepsOf(before).Keys;
  }

  predicate PlannerDone(g: Graph)
  {
    g.rootId in g.nodes && g.nodes[g.rootId].status == Complete
  }
}
