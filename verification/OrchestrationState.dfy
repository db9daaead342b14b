/**
 * The planner-worker-reviewer pipeline of src/orchestration as a state machine.
 * What the daemon, the random ids and the planner answer is part of each command.
 */
module OrchestrationState {
  import opened Basics
  import Decimal
  import opened DependencyGraph

  datatype Kind = Plan | Implement(spec: string) | Review(diffRef: string) | Merge

  datatype Status = Pending | Running | Complete | Failed | Skipped

  datatype Node = Node(kind: Kind, agent: string, status: Status, dependsOn: seq<string>,
                       task: Option<string>, result: Option<string>)

  type Nodes = map<string, Node>

  datatype Graph = Graph(project: string, goal: string, rootId: string, parent: string, nodes: Nodes)

  /** The agent pools; only the first entry of a pool is ever picked. */
  datatype Config = Config(planner: string, workers: seq<string>, reviewers: seq<string>)

  /** A planner's reply that parsed and holds a list of tasks. */
  datatype Output = Output(tasks: seq<PlanTask>, reviews: seq<PlanReview>)

  datatype PlanTask = PlanTask(spec: Option<string>, dependsOn: seq<string>)

  datatype PlanReview = PlanReview(diffRef: Option<string>, target: Option<string>)

  const USIZE_MAX: nat := 0xFFFF_FFFF_FFFF_FFFF

  const DISPATCH_FAILED := "Failed to create daemon task"

  // ----- building the graph from a plan -----

  function RootId(gid: string): string { gid + "_plan" }

  function NodeId(gid: string, suffix: string): string { gid + "_" + suffix }

  function FirstOr(pool: seq<string>, fallback: string): string
  {
    if pool == [] then fallback else pool[0]
  }

  function At(ids: seq<string>, index: string): Option<string>
  {
    match Decimal.Parse(index, USIZE_MAX)
    case Some(i) => if i < |ids| then Some(ids[i]) else None
    case None => None
  }

  /** A dependency that starts with `g` is a node id; any other is an index into the earlier tasks, or dropped. */
  function Resolve(dep: string, earlier: seq<string>): Option<string>
  {
    if |dep| > 0 && dep[0] == 'g' then Some(dep) else At(earlier, dep)
  }

  function Resolved(deps: seq<string>, earlier: seq<string>): seq<string>
  {
    if deps == [] then []
    else
      var rest := Resolved(deps[..|deps| - 1], earlier);
      match Resolve(deps[|deps| - 1], earlier)
      case Some(id) => rest + [id]
      case None => rest
  }

  function ImplementNode(config: Config, t: PlanTask, earlier: seq<string>): Node
  {
    Node(Implement(Or(t.spec, "unknown task")), FirstOr(config.workers, "claude"), Pending,
         Resolved(t.dependsOn, earlier), None, None)
  }

  function ReviewTarget(r: PlanReview, root: string, taskIds: seq<string>): string
  {
    var index := match r.target
      case Some(t) => Or(Decimal.Parse(t, USIZE_MAX), 0)
      case None => 0;
    if index < |taskIds| then taskIds[index] else root
  }

  function ReviewNode(config: Config, r: PlanReview, root: string, taskIds: seq<string>): Node
  {
    Node(Review(Or(r.diffRef, "latest")), FirstOr(config.reviewers, "opencode"), Pending,
         [ReviewTarget(r, root, taskIds)], None, None)
  }

  function Size(output: Output): nat { |output.tasks| + |output.reviews| }

  /** The `k`-th node a plan adds: first tasks, then reviews. */
  function NewNode(config: Config, root: string, ids: seq<string>, output: Output, k: nat): Node
    requires |ids| == Size(output) && k < |ids|
  {
    var n := |output.tasks|;
    if k < n then ImplementNode(config, output.tasks[k], ids[..k])
    else ReviewNode(config, output.reviews[k - n], root, ids[..n])
  }

  /** The nodes after the first `k` additions. */
  function Added(config: Config, root: string, ids: seq<string>, output: Output, nodes: Nodes, k: nat): Nodes
    requires |ids| == Size(output) && k <= |ids|
  {
    if k == 0 then nodes
    else Added(config, root, ids, output, nodes, k - 1)[ids[k - 1] := NewNode(config, root, ids, output, k - 1)]
  }

  // ----- node by node -----

  function Marked(nodes: Nodes, id: string, status: Status, result: Option<string>): Nodes
  {
    if id in nodes then nodes[id := nodes[id].(status := status, result := result)] else nodes
  }

  /** Every direct dependent of `id` fails with it. */
  function DependentsFailed(nodes: Nodes, id: string): Nodes
  {
    map k | k in nodes ::
      if id in nodes[k].dependsOn then nodes[k].(status := Failed, result := Some("dependency " + id + " failed"))
      else nodes[k]
  }

  predicate IsReady(nodes: Nodes, k: string)
  {
    && k in nodes && nodes[k].status == Pending
    && forall d <- nodes[k].dependsOn :: d in nodes && nodes[d].status == Complete
  }

  function Ready(nodes: Nodes): set<string> { set k | k in nodes && IsReady(nodes, k) }

  /** The daemon task id made for node `k`; empty when it made none. */
  function TaskFor(created: map<string, string>, k: string): string
  {
    if k in created then created[k] else ""
  }

  function Launched(node: Node, task: string): Node
  {
    if task != "" then node.(status := Running, task := Some(task))
    else node.(status := Failed, result := Some(DISPATCH_FAILED))
  }

  function Dispatched(nodes: Nodes, created: map<string, string>): Nodes
  {
    map k | k in nodes :: if IsReady(nodes, k) then Launched(nodes[k], TaskFor(created, k)) else nodes[k]
  }

  predicate Terminal(status: Status) { status == Complete || status == Failed || status == Skipped }

  predicate AllDone(nodes: Nodes) { forall k <- nodes :: Terminal(nodes[k].status) }

  predicate AllComplete(nodes: Nodes) { forall k <- nodes :: nodes[k].status == Complete }

  function DepsOf(nodes: Nodes): Deps { map k | k in nodes :: nodes[k].dependsOn }

  // ----- the orchestrator -----

  /** The column the owning task is moved to when its graph is found done. */
  datatype Column = Waiting | Blocked

  /** `issued` is every task id the daemon has handed out; `board` the owning tasks moved so far. */
  datatype State = State(graphs: map<string, Graph>, issued: set<string>, board: map<string, Column>)

  const INITIAL := State(map[], {}, map[])

  function NewGraph(config: Config, project: string, goal: string, gid: string, parent: string, planner: string): Graph
  {
    var root := Node(Plan, config.planner, Running, [], Some(planner), None);
    Graph(project, goal, RootId(gid), parent, map[RootId(gid) := root])
  }

  function PlanStarted(config: Config, s: State, project: string, goal: string,
                       gid: string, parent: string, planner: string): State
  {
    if parent == "" then s
    else if planner == "" then s.(issued := s.issued + {parent})
    else s.(graphs := s.graphs[gid := NewGraph(config, project, goal, gid, parent, planner)],
            issued := s.issued + {parent, planner})
  }

  /** The daemon's answers to one completion: the parsed plan, random id suffixes, and the created tasks. */
  datatype Answers = Answers(output: Option<Output>, suffixes: seq<string>, created: map<string, string>)

  predicate Suffices(a: Answers)
  {
    && |a.suffixes| == (if a.output.Some? then Size(a.output.value) else 0)
    && forall i | 0 <= i < |a.suffixes| :: |a.suffixes[i]| == 6
  }

  function NewIds(gid: string, suffixes: seq<string>): (ids: seq<string>)
    ensures |ids| == |suffixes| && forall i | 0 <= i < |ids| :: ids[i] == NodeId(gid, suffixes[i])
  {
    seq(|suffixes|, i requires 0 <= i < |suffixes| => NodeId(gid, suffixes[i]))
  }

  /** The nodes once `nid` is complete and, if it is the planner, its plan is in the graph. */
  function Extended(config: Config, gid: string, g: Graph, nid: string, result: string, a: Answers): Nodes
    requires Suffices(a)
  {
    var nodes := Marked(g.nodes, nid, Complete, Some(result));
    if nid in nodes && nodes[nid].kind == Plan && a.output.Some? then
      Added(config, g.rootId, NewIds(gid, a.suffixes), a.output.value, nodes, |a.suffixes|)
    else nodes
  }

  function NodeCompleted(config: Config, s: State, gid: string, nid: string, result: string, a: Answers): State
    requires Suffices(a)
  {
    if gid !in s.graphs then s
    else
      var g := s.graphs[gid];
      var nodes := Extended(config, gid, g, nid, result, a);
      if AllDone(nodes) then
        s.(graphs := s.graphs[gid := g.(nodes := nodes)], board := s.board[g.parent := Waiting])
      else
        s.(graphs := s.graphs[gid := g.(nodes := Dispatched(nodes, a.created))],
           issued := s.issued + set k | k in Ready(nodes) && TaskFor(a.created, k) != "" :: TaskFor(a.created, k))
  }

  function NodeFailed(s: State, gid: string, nid: string, reason: string): State
  {
    if gid !in s.graphs then s
    else
      var g := s.graphs[gid];
      var nodes := DependentsFailed(Marked(g.nodes, nid, Failed, Some(reason)), nid);
      s.(graphs := s.graphs[gid := g.(nodes := nodes)],
         board := if AllDone(nodes) then s.board[g.parent := Blocked] else s.board)
  }

  /** Node `nid` of graph `gid` runs that daemon task. */
  predicate Runs(graphs: map<string, Graph>, task: string, gid: string, nid: string)
  {
    && gid in graphs && nid in graphs[gid].nodes
    && graphs[gid].nodes[nid].status == Running && graphs[gid].nodes[nid].task == Some(task)
  }

  /** What the search over all graphs may find: some node running that daemon task, and nothing only if there is none. */
  ghost predicate IsFound(graphs: map<string, Graph>, task: string, found: Option<(string, string)>)
  {
    match found
    case Some(at) => Runs(graphs, task, at.0, at.1)
    case None => forall gid, nid :: !Runs(graphs, task, gid, nid)
  }

  function TaskFinished(config: Config, s: State, found: Option<(string, string)>,
                        result: string, success: bool, a: Answers): State
    requires Suffices(a)
  {
    match found
    case None => s
    case Some(at) => if success then NodeCompleted(config, s, at.0, at.1, result, a)
                     else NodeFailed(s, at.0, at.1, result)
  }

  function Cancelled(s: State, gid: string): State { s.(graphs := s.graphs - {gid}) }

  datatype Command =
    | StartPlan(project: string, goal: string, gid: string, parent: string, planner: string)
    | Finish(task: string, result: string, success: bool, found: Option<(string, string)>, answers: Answers)
    | Cancel(gid: string)

  /** Random graph ids and the daemon's task ids are never reused; the empty id means that no task was made. */
  ghost predicate Possible(s: State, c: Command)
  {
    match c
    case StartPlan(_, _, gid, parent, planner) =>
      && gid !in s.graphs
      && (parent != "" ==> parent !in s.issued)
      && (planner != "" ==> planner !in s.issued && planner != parent)
    case Finish(task, _, _, found, a) =>
      && IsFound(s.graphs, task, found) && Suffices(a)
      && (forall k | k in a.created && a.created[k] != "" :: a.created[k] !in s.issued)
      && (forall j, k | j in a.created && k in a.created && j != k && a.created[j] != "" :: a.created[j] != a.created[k])
    case Cancel(_) => true
  }

  ghost function Step(config: Config, s: State, c: Command): State
    requires Possible(s, c)
  {
    match c
    case StartPlan(project, goal, gid, parent, planner) => PlanStarted(config, s, project, goal, gid, parent, planner)
    case Finish(_, result, success, found, a) => TaskFinished(config, s, found, result, success, a)
    case Cancel(gid) => Cancelled(s, gid)
  }

  /** The states of a run, command by command. */
  ghost predicate IsRun(config: Config, cs: seq<Command>, ss: seq<State>)
  {
    && |ss| == |cs| + 1
    && forall i | 0 <= i < |cs| :: Possible(ss[i], cs[i]) && ss[i + 1] == Step(config, ss[i], cs[i])
  }
}
