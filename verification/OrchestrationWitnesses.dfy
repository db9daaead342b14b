/** Runs of the orchestrator from its start that end where a promise fails, for any names that are apart. */
module OrchestrationWitnesses {
  import opened Basics
  import Decimal
  import opened OrchestrationState
  import opened OrchestrationInvariants
  import opened OrchestrationTheorems
  import opened OrchestrationProgress

  /** What the daemon and the random source hand out: a graph id, task ids and node suffixes. */
  datatype Names = Names(gid: string, parent: string, planner: string, first: string, second: string,
                         a: string, b: string, c: string)
  {
    function Root(): string { RootId(gid) }
    function A(): string { NodeId(gid, a) }
    function B(): string { NodeId(gid, b) }
    function C(): string { NodeId(gid, c) }

    predicate Apart()
    {
      && |a| == |b| == |c| == 6 && a != b && a != c && b != c
      && parent != planner && first != second && {parent, planner} !! {first, second}
      && "" !in {parent, planner, first, second}
    }

    lemma NodesApart()
      requires Apart()
      ensures A() != B() && A() != C() && B() != C() && Root() !in {A(), B(), C()}
    {
      assert A()[|gid| + 1..] == a && B()[|gid| + 1..] == b && C()[|gid| + 1..] == c;
      assert |Root()| != |A()| == |B()| == |C()|;
    }
  }

  const NOTHING := Answers(None, [], map[])

  function Planner(config: Config, n: Names, status: Status, result: Option<string>): Node
  {
    Node(Plan, config.planner, status, [], Some(n.planner), result)
  }

  /** A node with nothing to say but what it depends on. */
  function Work(config: Config, dependsOn: seq<string>): Node
  {
    Node(Implement("unknown task"), FirstOr(config.workers, "claude"), Pending, dependsOn, None, None)
  }

  function Doing(config: Config, task: string): Node { Work(config, []).(status := Running, task := Some(task)) }

  function GraphOf(n: Names, nodes: Nodes): Graph { Graph("", "", n.Root(), n.parent, nodes) }

  function Only(n: Names, nodes: Nodes): map<string, Graph> { map[n.gid := GraphOf(n, nodes)] }

  // ----- the first two commands -----

  function Begin(n: Names): Command { StartPlan("", "", n.gid, n.parent, n.planner) }

  /** The planner answers with tasks that say only what they depend on. */
  function Reply(n: Names, deps: seq<seq<string>>, suffixes: seq<string>, created: map<string, string>): Command
  {
    Finish(n.planner, "", true, Some((n.gid, n.Root())), Answers(Some(Tasks(deps)), suffixes, created))
  }

  function Tasks(deps: seq<seq<string>>): Output
  {
    Output(seq(|deps|, i requires 0 <= i < |deps| => PlanTask(None, deps[i])), [])
  }

  function Alone(config: Config, n: Names, status: Status, result: Option<string>): Nodes
  {
    map[n.Root() := Planner(config, n, status, result)]
  }

  function Begun(config: Config, n: Names): State
  {
    State(Only(n, Alone(config, n, Running, None)), {n.parent, n.planner}, map[])
  }

  lemma Begins(config: Config, n: Names)
    requires n.Apart()
    ensures Possible(INITIAL, Begin(n)) && Step(config, INITIAL, Begin(n)) == Begun(config, n)
  {
  }

  lemma Longer(config: Config, cs: seq<Command>, ss: seq<State>, c: Command, t: State)
    requires IsRun(config, cs, ss) && Possible(ss[|cs|], c) && t == Step(config, ss[|cs|], c)
    ensures IsRun(config, cs + [c], ss + [t])
  {
    var cs', ss' := cs + [c], ss + [t];
    forall i | 0 <= i < |cs'|
      ensures Possible(ss'[i], cs'[i]) && ss'[i + 1] == Step(config, ss'[i], cs'[i])
    {
      assert i < |cs| ==> ss'[i] == ss[i] && cs'[i] == cs[i] && ss'[i + 1] == ss[i + 1];
    }
  }

  /** A run, one command longer. */
  lemma Then(config: Config, cs: seq<Command>, ss: seq<State>, c: Command) returns (cs': seq<Command>, ss': seq<State>)
    requires IsRun(config, cs, ss) && Inv(ss[|cs|]) && Possible(ss[|cs|], c)
    ensures cs' == cs + [c] && ss' == ss + [Step(config, ss[|cs|], c)]
    ensures IsRun(config, cs', ss') && Inv(ss'[|cs'|])
  {
    var t := Step(config, ss[|cs|], c);
    Longer(config, cs, ss, c, t);
    StepKeeps(config, ss[|cs|], c);
    cs', ss' := cs + [c], ss + [t];
  }

  lemma PlanStarts(config: Config, n: Names) returns (cs: seq<Command>, ss: seq<State>)
    requires n.Apart()
    ensures cs == [Begin(n)] && ss == [INITIAL, Begun(config, n)]
    ensures IsRun(config, cs, ss) && Inv(ss[1])
  {
    EmptyIsInvariant();
    Begins(config, n);
    cs, ss := Then(config, [], [INITIAL], Begin(n));
  }

  function Grown(config: Config, n: Names, deps: seq<seq<string>>, suffixes: seq<string>): Nodes
    requires |deps| == |suffixes|
  {
    Added(config, n.Root(), NewIds(n.gid, suffixes), Tasks(deps), Alone(config, n, Complete, Some("")), |suffixes|)
  }

  /** The reply is acted on: its nodes are in the graph, and the ready ones are dispatched. */
  lemma Replies(config: Config, n: Names, deps: seq<seq<string>>, suffixes: seq<string>, created: map<string, string>)
    requires n.Apart() && |deps| == |suffixes| && forall i | 0 <= i < |suffixes| :: |suffixes[i]| == 6
    requires forall k <- created :: created[k] !in {n.parent, n.planner}
    requires forall j, k | j in created && k in created && j != k :: created[j] != created[k]
    requires !AllDone(Grown(config, n, deps, suffixes))
    ensures Possible(Begun(config, n), Reply(n, deps, suffixes, created))
    ensures var t := Step(config, Begun(config, n), Reply(n, deps, suffixes, created));
            t.graphs == Only(n, Dispatched(Grown(config, n, deps, suffixes), created)) && t.board == map[]
  {
    var s := Begun(config, n);
    assert Runs(s.graphs, n.planner, n.gid, n.Root());
    assert Marked(s.graphs[n.gid].nodes, n.Root(), Complete, Some("")) == Alone(config, n, Complete, Some(""));
  }

  function GrownTo(config: Config, n: Names, deps: seq<seq<string>>, ids: seq<string>, k: nat): Nodes
    requires k <= |deps| == |ids|
  {
    Added(config, n.Root(), ids, Tasks(deps), Alone(config, n, Complete, Some("")), k)
  }

  lemma Grows(config: Config, n: Names, deps: seq<seq<string>>, ids: seq<string>, k: nat)
    requires k < |deps| == |ids|
    ensures GrownTo(config, n, deps, ids, k + 1)
            == GrownTo(config, n, deps, ids, k)[ids[k] := Work(config, Resolved(deps[k], ids[..k]))]
  {
  }

  // ----- a failed task beside a last one that succeeds -----

  function Beside(config: Config, n: Names, a: Node, b: Node): Nodes
  {
    Alone(config, n, Complete, Some(""))[n.A() := a][n.B() := b]
  }

  lemma TwoGrown(config: Config, n: Names, deps: seq<seq<string>>, suffixes: seq<string>)
    requires deps == [[], []] && suffixes == [n.a, n.b]
    ensures Grown(config, n, deps, suffixes) == Beside(config, n, Work(config, []), Work(config, []))
  {
    var ids := NewIds(n.gid, suffixes);
    Grows(config, n, deps, ids, 0);
    Grows(config, n, deps, ids, 1);
  }

  lemma TwoDispatched(config: Config, n: Names, created: map<string, string>)
    requires n.Apart() && created == map[n.A() := n.first, n.B() := n.second]
    ensures Dispatched(Beside(config, n, Work(config, []), Work(config, [])), created)
            == Beside(config, n, Doing(config, n.first), Doing(config, n.second))
  {
    n.NodesApart();
    assert TaskFor(created, n.A()) == n.first && TaskFor(created, n.B()) == n.second;
  }

  lemma TwoStart(config: Config, n: Names, deps: seq<seq<string>>, suffixes: seq<string>, created: map<string, string>)
    requires n.Apart() && deps == [[], []] && suffixes == [n.a, n.b] && created == map[n.A() := n.first, n.B() := n.second]
    ensures Possible(Begun(config, n), Reply(n, deps, suffixes, created))
    ensures var t := Step(config, Begun(config, n), Reply(n, deps, suffixes, created));
            t.graphs == Only(n, Beside(config, n, Doing(config, n.first), Doing(config, n.second))) && t.board == map[]
  {
    n.NodesApart();
    TwoGrown(config, n, deps, suffixes);
    TwoDispatched(config, n, created);
    var nodes := Beside(config, n, Work(config, []), Work(config, []));
    assert n.A() in nodes && nodes[n.A()].status == Pending;
    Replies(config, n, deps, suffixes, created);
  }

  lemma FirstFails(config: Config, n: Names, s: State)
    requires n.Apart() && s.graphs == Only(n, Beside(config, n, Doing(config, n.first), Doing(config, n.second)))
    ensures var c := Finish(n.first, "", false, Some((n.gid, n.A())), NOTHING);
            && Possible(s, c)
            && Step(config, s, c).graphs
               == Only(n, Beside(config, n, Doing(config, n.first).(status := Failed, result := Some("")), Doing(config, n.second)))
  {
    n.NodesApart();
    assert Runs(s.graphs, n.first, n.gid, n.A());
    FirstMarked(config, n);
  }

  lemma FirstMarked(config: Config, n: Names)
    requires n.Apart()
    ensures var nodes := Beside(config, n, Doing(config, n.first), Doing(config, n.second));
            DependentsFailed(Marked(nodes, n.A(), Failed, Some("")), n.A())
            == Beside(config, n, Doing(config, n.first).(status := Failed, result := Some("")), Doing(config, n.second))
  {
    n.NodesApart();
  }

  lemma OneLeft(config: Config, n: Names, nodes: Nodes)
    requires n.Apart()
    requires nodes == Beside(config, n, Doing(config, n.first).(status := Failed, result := Some("")), Doing(config, n.second))
    ensures n.A() in nodes && nodes[n.A()].status == Failed && n.B() in nodes && nodes[n.B()] == Doing(config, n.second)
    ensures forall k <- nodes :: k != n.B() ==> Terminal(nodes[k].status)
  {
    n.NodesApart();
  }

  lemma SecondSucceeds(config: Config, n: Names, s: State)
    requires n.Apart() && Inv(s)
    requires s.graphs == Only(n, Beside(config, n, Doing(config, n.first).(status := Failed, result := Some("")), Doing(config, n.second)))
    ensures var c := Finish(n.second, "", true, Some((n.gid, n.B())), NOTHING);
            && Possible(s, c)
            && var t := Step(config, s, c);
               n.parent in t.board && t.board[n.parent] == Waiting && StatusAt(t, n.gid, n.A()) == Some(Failed)
  {
    OneLeft(config, n, s.graphs[n.gid].nodes);
    assert Runs(s.graphs, n.second, n.gid, n.B());
    WaitingDespiteFailure(config, s, Finish(n.second, "", true, Some((n.gid, n.B())), NOTHING), n.A());
  }

  /** Two independent tasks, both running. */
  lemma TwoRun(config: Config, n: Names) returns (cs: seq<Command>, ss: seq<State>)
    requires n.Apart()
    ensures IsRun(config, cs, ss) && ss[0] == INITIAL && |cs| == 2 && Inv(ss[2])
    ensures ss[2].graphs == Only(n, Beside(config, n, Doing(config, n.first), Doing(config, n.second)))
  {
    var deps: seq<seq<string>>, created := [[], []], map[n.A() := n.first, n.B() := n.second];
    cs, ss := PlanStarts(config, n);
    TwoStart(config, n, deps, [n.a, n.b], created);
    cs, ss := Then(config, cs, ss, Reply(n, deps, [n.a, n.b], created));
  }

  lemma OneFails(config: Config, n: Names) returns (cs: seq<Command>, ss: seq<State>)
    requires n.Apart()
    ensures IsRun(config, cs, ss) && ss[0] == INITIAL && |cs| == 3 && Inv(ss[3])
    ensures ss[3].graphs
            == Only(n, Beside(config, n, Doing(config, n.first).(status := Failed, result := Some("")), Doing(config, n.second)))
  {
    cs, ss := TwoRun(config, n);
    FirstFails(config, n, ss[2]);
    cs, ss := Then(config, cs, ss, Finish(n.first, "", false, Some((n.gid, n.A())), NOTHING));
  }

  /**
   * Two independent tasks; the first fails, then the second succeeds: the
   * owning task is moved to waiting although a task failed.
   */
  lemma WaitsAfterFailure(config: Config, n: Names) returns (cs: seq<Command>, ss: seq<State>)
    requires n.Apart()
    ensures IsRun(config, cs, ss) && ss[0] == INITIAL && |cs| == 4
    ensures n.parent in ss[4].board && ss[4].board[n.parent] == Waiting && StatusAt(ss[4], n.gid, n.A()) == Some(Failed)
  {
    cs, ss := OneFails(config, n);
    SecondSucceeds(config, n, ss[3]);
    cs, ss := Then(config, cs, ss, Finish(n.second, "", true, Some((n.gid, n.B())), NOTHING));
  }

  // ----- an only task that the daemon does not create -----

  lemma OneGrown(config: Config, n: Names, deps: seq<seq<string>>, suffixes: seq<string>)
    requires deps == [[]] && suffixes == [n.a]
    ensures Grown(config, n, deps, suffixes) == Alone(config, n, Complete, Some(""))[n.A() := Work(config, [])]
  {
    Grows(config, n, deps, NewIds(n.gid, suffixes), 0);
  }

  lemma OneWiped(config: Config, n: Names, s: State, deps: seq<seq<string>>, suffixes: seq<string>)
    requires n.Apart() && deps == [[]] && suffixes == [n.a] && s == Begun(config, n)
    ensures var c := Reply(n, deps, suffixes, map[]);
            && Possible(s, c)
            && var t := Step(config, s, c);
               t.board == map[] && n.gid in t.graphs && AllDone(t.graphs[n.gid].nodes) && t.graphs[n.gid].parent == n.parent
  {
    n.NodesApart();
    OneGrown(config, n, deps, suffixes);
    var nodes := Grown(config, n, deps, suffixes);
    assert nodes[n.A()].status == Pending;
    Replies(config, n, deps, suffixes, map[]);
    assert WipedOut(nodes, map[]);
    DoneByDispatch(nodes, map[]);
  }

  /** One task that the daemon does not create: the graph is done, and the owning task is not moved. */
  lemma EndsUntold(config: Config, n: Names) returns (cs: seq<Command>, ss: seq<State>)
    requires n.Apart()
    ensures IsRun(config, cs, ss) && ss[0] == INITIAL && |cs| == 2
    ensures n.gid in ss[2].graphs && AllDone(ss[2].graphs[n.gid].nodes)
    ensures ss[2].graphs[n.gid].parent == n.parent && n.parent !in ss[2].board
  {
    cs, ss := PlanStarts(config, n);
    OneWiped(config, n, ss[1], [[]], [n.a]);
    cs, ss := Then(config, cs, ss, Reply(n, [[]], [n.a], map[]));
  }

  // ----- a chain of three whose first fails -----

  function Chain(config: Config, n: Names, a: Node, b: Node): Nodes
  {
    Alone(config, n, Complete, Some(""))[n.A() := a][n.B() := b][n.C() := Work(config, [n.B()])]
  }

  lemma IndexResolves(dep: string, i: nat, earlier: seq<string>)
    requires dep == Decimal.Print(i) && i < 10 && i < |earlier|
    ensures Resolved([dep], earlier) == [earlier[i]]
  {
    Decimal.ParsePrint(i, USIZE_MAX);
    assert [dep][..0] == [];
  }

  lemma ThreeGrown(config: Config, n: Names, deps: seq<seq<string>>, suffixes: seq<string>)
    requires deps == [[], [Decimal.Print(0)], [Decimal.Print(1)]] && suffixes == [n.a, n.b, n.c]
    ensures Grown(config, n, deps, suffixes) == Chain(config, n, Work(config, []), Work(config, [n.A()]))
  {
    var ids := NewIds(n.gid, suffixes);
    Grows(config, n, deps, ids, 0);
    Grows(config, n, deps, ids, 1);
    Grows(config, n, deps, ids, 2);
    IndexResolves(Decimal.Print(0), 0, ids[..1]);
    IndexResolves(Decimal.Print(1), 1, ids[..2]);
  }

  lemma ChainDispatched(config: Config, n: Names, created: map<string, string>)
    requires n.Apart() && created == map[n.A() := n.first]
    ensures Dispatched(Chain(config, n, Work(config, []), Work(config, [n.A()])), created)
            == Chain(config, n, Doing(config, n.first), Work(config, [n.A()]))
  {
    n.NodesApart();
    var nodes := Chain(config, n, Work(config, []), Work(config, [n.A()]));
    assert TaskFor(created, n.A()) == n.first;
    assert n.A() in nodes[n.B()].dependsOn && n.B() in nodes[n.C()].dependsOn;
  }

  lemma ChainStarts(config: Config, n: Names, deps: seq<seq<string>>, suffixes: seq<string>, created: map<string, string>)
    requires n.Apart() && deps == [[], [Decimal.Print(0)], [Decimal.Print(1)]] && suffixes == [n.a, n.b, n.c]
    requires created == map[n.A() := n.first]
    ensures Possible(Begun(config, n), Reply(n, deps, suffixes, created))
    ensures Step(config, Begun(config, n), Reply(n, deps, suffixes, created)).graphs
            == Only(n, Chain(config, n, Doing(config, n.first), Work(config, [n.A()])))
  {
    n.NodesApart();
    ThreeGrown(config, n, deps, suffixes);
    ChainDispatched(config, n, created);
    var nodes := Chain(config, n, Work(config, []), Work(config, [n.A()]));
    assert n.A() in nodes && nodes[n.A()].status == Pending;
    Replies(config, n, deps, suffixes, created);
  }

  /** The third task waits for the second, which failed, and nothing runs. */
  predicate Stuck(n: Names, nodes: Nodes)
  {
    && WaitsFor(nodes, n.C(), n.B()) && n.B() in nodes && nodes[n.B()].status == Failed
    && forall k <- nodes :: nodes[k].status != Running
  }

  lemma ChainFails(config: Config, n: Names, s: State)
    requires n.Apart() && s.graphs == Only(n, Chain(config, n, Doing(config, n.first), Work(config, [n.A()])))
    ensures var c := Finish(n.first, "", false, Some((n.gid, n.A())), NOTHING);
            && Possible(s, c)
            && n.gid in Step(config, s, c).graphs && Stuck(n, Step(config, s, c).graphs[n.gid].nodes)
  {
    n.NodesApart();
    var nodes := s.graphs[n.gid].nodes;
    assert Runs(s.graphs, n.first, n.gid, n.A());
    var after := DependentsFailed(Marked(nodes, n.A(), Failed, Some("")), n.A());
    assert n.A() in nodes[n.B()].dependsOn && n.A() !in nodes[n.C()].dependsOn;
    assert after[n.B()].status == Failed && after[n.C()] == nodes[n.C()];
  }

  lemma ChainRuns(config: Config, n: Names) returns (cs: seq<Command>, ss: seq<State>)
    requires n.Apart()
    ensures IsRun(config, cs, ss) && ss[0] == INITIAL && |cs| == 2 && Inv(ss[2])
    ensures ss[2].graphs == Only(n, Chain(config, n, Doing(config, n.first), Work(config, [n.A()])))
  {
    var deps, suffixes, created := [[], [Decimal.Print(0)], [Decimal.Print(1)]], [n.a, n.b, n.c], map[n.A() := n.first];
    cs, ss := PlanStarts(config, n);
    ChainStarts(config, n, deps, suffixes, created);
    cs, ss := Then(config, cs, ss, Reply(n, deps, suffixes, created));
  }

  /**
   * Three tasks in a chain; the first fails and takes the second along: the
   * third still waits, nothing runs, and so, by `IdleIsFrozen`, nothing ever changes again.
   */
  lemma ChainIsStuck(config: Config, n: Names) returns (cs: seq<Command>, ss: seq<State>)
    requires n.Apart()
    ensures IsRun(config, cs, ss) && ss[0] == INITIAL && |cs| == 3
    ensures n.gid in ss[3].graphs && Stuck(n, ss[3].graphs[n.gid].nodes)
  {
    cs, ss := ChainRuns(config, n);
    ChainFails(config, n, ss[2]);
    cs, ss := Then(config, cs, ss, Finish(n.first, "", false, Some((n.gid, n.A())), NOTHING));
  }

  // ----- equal suffixes -----

  /** Two tasks drawn at one id, the second after the first: the one node they leave waits for itself. */
  lemma EqualIdsWaitForThemselves(config: Config, n: Names, deps: seq<seq<string>>, suffixes: seq<string>)
    requires deps == [[], [Decimal.Print(0)]] && suffixes == [n.a, n.a]
    ensures var nodes := Grown(config, n, deps, suffixes);
            WaitsFor(nodes, n.A(), n.A()) && nodes.Keys == {n.Root(), n.A()}
  {
    var ids := NewIds(n.gid, suffixes);
    Grows(config, n, deps, ids, 0);
    Grows(config, n, deps, ids, 1);
    IndexResolves(Decimal.Print(0), 0, ids[..1]);
  }
}
