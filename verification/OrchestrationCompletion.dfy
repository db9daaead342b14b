/** A well-made plan whose tasks all succeed, from the planner's reply to the owning task. */
module OrchestrationCompletion {
  import opened Basics
  import opened DependencyGraph
  import opened OrchestrationState
  import opened OrchestrationInvariants
  import opened OrchestrationTheorems
  import opened OrchestrationProgress

  /** A report that some node of the graph has finished. */
  predicate Reports(c: Command, gid: string)
  {
    c.Finish? && c.found.Some? && c.found.value.0 == gid
  }

  /** Nobody cancels the graph, its tasks succeed, and the daemon creates the ones that become ready. */
  predicate Served(config: Config, s: State, c: Command, gid: string)
  {
    && c != Cancel(gid)
    && (Reports(c, gid) ==> gid in s.graphs && Suffices(c.answers) && c.success && Created(Next(config, s, c), c.answers.created))
  }

  /** The nodes of the reported graph before anything is dispatched. */
  function Next(config: Config, s: State, c: Command): Nodes
    requires c.Finish? && c.found.Some? && c.found.value.0 in s.graphs && Suffices(c.answers)
  {
    var (gid, nid) := c.found.value;
    Extended(config, gid, s.graphs[gid], nid, c.result, c.answers)
  }

  predicate Created(nodes: Nodes, created: map<string, string>)
  {
    forall k <- Ready(nodes) :: TaskFor(created, k) != ""
  }

  function Unfinished(nodes: Nodes): set<string>
  {
    set k | k in nodes && nodes[k].status != Complete
  }

  /** How many of the commands from `i` to `j` report a node of the graph. */
  function Reported(cs: seq<Command>, gid: string, i: nat, j: nat): nat
    requires i <= j <= |cs|
  {
    if i == j then 0 else Reported(cs, gid, i, j - 1) + Tally(cs[j - 1], gid)
  }

  function Tally(c: Command, gid: string): nat { if Reports(c, gid) then 1 else 0 }

  /** How many nodes of the graph are not complete. */
  function Left(s: State, gid: string): nat
  {
    if gid in s.graphs then |Unfinished(s.graphs[gid].nodes)| else 0
  }

  lemma DispatchFailsNone(nodes: Nodes, created: map<string, string>)
    requires NoneFailed(nodes) && Created(nodes, created)
    ensures NoneFailed(Dispatched(nodes, created)) && Unfinished(Dispatched(nodes, created)) == Unfinished(nodes)
  {
    DispatchedNodes(nodes, created);
    forall k <- nodes
      ensures Dispatched(nodes, created)[k].status != Failed
    {
      assert IsReady(nodes, k) ==> k in Ready(nodes);
    }
  }

  /** A task's success finishes its node and fails nothing. */
  lemma TaskFinishes(config: Config, gid: string, g: Graph, nid: string, result: string, a: Answers)
    requires Sound(gid, g) && nid in g.nodes && g.nodes[nid].status == Running && Suffices(a) && nid != g.rootId
    requires NoneFailed(g.nodes) && Created(Extended(config, gid, g, nid, result, a), a.created)
    ensures var after := NodesAfter(config, gid, g, nid, result, true, a);
            NoneFailed(after) && Unfinished(after) == Unfinished(g.nodes) - {nid}
  {
    PlainExtended(config, gid, g, nid, result, a);
    MarkedUnfinished(g.nodes, nid, result);
    DispatchFailsNone(Extended(config, gid, g, nid, result, a), a.created);
  }

  lemma MarkedUnfinished(nodes: Nodes, nid: string, result: string)
    requires nid in nodes && NoneFailed(nodes)
    ensures var after := Marked(nodes, nid, Complete, Some(result));
            NoneFailed(after) && Unfinished(after) == Unfinished(nodes) - {nid}
  {
  }

  lemma {:induction false} AsManyAsListed(ids: seq<string>, n: nat)
    requires n <= |ids| && Distinct(ids)
    ensures |set i | 0 <= i < n :: ids[i]| == n
  {
    if n > 0 {
      AsManyAsListed(ids, n - 1);
      assert (set i | 0 <= i < n :: ids[i]) == (set i | 0 <= i < n - 1 :: ids[i]) + {ids[n - 1]};
    }
  }

  lemma NewIdsDistinct(gid: string, suffixes: seq<string>)
    requires Distinct(suffixes) && forall i | 0 <= i < |suffixes| :: |suffixes[i]| == 6
    ensures Distinct(NewIds(gid, suffixes)) && RootId(gid) !in NewIds(gid, suffixes)
  {
    var ids := NewIds(gid, suffixes);
    assert forall i | 0 <= i < |ids| :: |ids[i]| == |gid| + 7 && ids[i][|gid| + 1..] == suffixes[i];
  }

  lemma PlanUnfinished(config: Config, root: string, ids: seq<string>, output: Output, was: Nodes)
    requires |ids| == Size(output) && Distinct(ids) && root !in ids
    requires was.Keys == {root} && was[root].status == Complete
    ensures var nodes := Added(config, root, ids, output, was, |ids|);
            NoneFailed(nodes) && |Unfinished(nodes)| == |ids|
  {
    var nodes := Added(config, root, ids, output, was, |ids|);
    AddedAt(config, root, ids, output, was);
    NewNodesWait(config, root, ids, output, was);
    AsManyAsListed(ids, |ids|);
    assert Unfinished(nodes) == set i | 0 <= i < |ids| :: ids[i];
  }

  /** The planner's success leaves as many unfinished nodes as its reply has tasks and reviews. */
  lemma PlanLeaves(config: Config, gid: string, g: Graph, result: string, a: Answers)
    requires Sound(gid, g) && g.nodes[g.rootId].status == Running && Suffices(a) && a.output.Some? && Distinct(a.suffixes)
    requires Created(Extended(config, gid, g, g.rootId, result, a), a.created)
    ensures var after := NodesAfter(config, gid, g, g.rootId, result, true, a);
            NoneFailed(after) && |Unfinished(after)| == Size(a.output.value)
  {
    NewIdsDistinct(gid, a.suffixes);
    PlanUnfinished(config, g.rootId, NewIds(gid, a.suffixes), a.output.value, Marked(g.nodes, g.rootId, Complete, Some(result)));
    DispatchFailsNone(Extended(config, gid, g, g.rootId, result, a), a.created);
  }

  // ----- over a run -----

  /** The planner is done, nothing failed, and the owning task waits exactly once everything is complete. */
  predicate OnCourse(s: State, gid: string)
  {
    && gid in s.graphs && PlannerDone(s.graphs[gid]) && NoneFailed(s.graphs[gid].nodes)
    && (s.graphs[gid].parent in s.board <==> AllComplete(s.graphs[gid].nodes))
    && (s.graphs[gid].parent in s.board ==> s.board[s.graphs[gid].parent] == Waiting)
  }

  /** What is not about a graph moves neither its nodes nor its owning task. */
  lemma OthersLeave(config: Config, s: State, c: Command, gid: string)
    requires Inv(s) && Possible(s, c) && gid in s.graphs && c != Cancel(gid) && !Reports(c, gid)
    ensures var t, parent := Step(config, s, c), s.graphs[gid].parent;
            && gid in t.graphs && t.graphs[gid] == s.graphs[gid]
            && (parent in t.board <==> parent in s.board) && (parent in s.board ==> t.board[parent] == s.board[parent])
  {
    StepOnGraph(config, s, c, gid);
    if c.Finish? && c.found.Some? {
      OwnBoard(config, s, c);
      assert s.graphs[c.found.value.0].parent != s.graphs[gid].parent;
    }
  }

  /** A report moves no owning task but that of its graph. */
  lemma OwnBoard(config: Config, s: State, c: Command)
    requires Possible(s, c) && c.Finish? && c.found.Some?
    ensures c.found.value.0 in s.graphs
    ensures var was, now, parent := s.board, Step(config, s, c).board, s.graphs[c.found.value.0].parent;
            forall p | p != parent :: (p in now <==> p in was) && (p in was ==> now[p] == was[p])
  {
  }

  /** A graph whose nodes have not failed is done when it is complete. */
  lemma DoneIsComplete(gid: string, g: Graph)
    requires Sound(gid, g) && NoneFailed(g.nodes)
    ensures AllDone(g.nodes) <==> AllComplete(g.nodes)
  {
  }

  lemma ServedIsNotWiped(nodes: Nodes, created: map<string, string>)
    requires Created(nodes, created)
    ensures !WipedOut(nodes, created)
  {
    if !AllDone(nodes) {
      var k :| k in nodes && !Terminal(nodes[k].status);
      assert IsReady(nodes, k) ==> k in Ready(nodes);
    }
  }

  /** The owning task after a served report, given that nothing of the graph failed. */
  lemma ReportTells(config: Config, s: State, c: Command, gid: string)
    requires Inv(s) && Possible(s, c) && Reports(c, gid) && Served(config, s, c, gid)
    requires var t := Step(config, s, c); gid in t.graphs && NoneFailed(t.graphs[gid].nodes) && PlannerDone(t.graphs[gid])
    ensures OnCourse(Step(config, s, c), gid)
  {
    DoneIsAnnounced(config, s, c);
    ServedIsNotWiped(Next(config, s, c), c.answers.created);
    StepKeeps(config, s, c);
    StepOnGraph(config, s, c, gid);
    DoneIsComplete(gid, Step(config, s, c).graphs[gid]);
  }

  /** One served report, one node fewer to finish. */
  lemma ReportFinishesOne(config: Config, s: State, c: Command, gid: string)
    requires Inv(s) && Possible(s, c) && Reports(c, gid) && Served(config, s, c, gid) && OnCourse(s, gid)
    ensures var t := Step(config, s, c);
            OnCourse(t, gid) && Left(t, gid) + 1 == Left(s, gid)
  {
    var g, t := s.graphs[gid], Step(config, s, c);
    assert Sound(gid, g);
    StepOnGraph(config, s, c, gid);
    SuccessFinishesOne(config, gid, g, c.found.value.1, c.result, c.answers);
    assert NoneFailed(t.graphs[gid].nodes) && PlannerDone(t.graphs[gid]);
    ReportTells(config, s, c, gid);
  }

  lemma SuccessFinishesOne(config: Config, gid: string, g: Graph, nid: string, result: string, a: Answers)
    requires Sound(gid, g) && PlannerDone(g) && nid in g.nodes && g.nodes[nid].status == Running && Suffices(a)
    requires NoneFailed(g.nodes) && Created(Extended(config, gid, g, nid, result, a), a.created)
    ensures var after := NodesAfter(config, gid, g, nid, result, true, a);
            && NoneFailed(after) && |Unfinished(after)| + 1 == |Unfinished(g.nodes)|
            && PlannerDone(g.(nodes := after))
  {
    TaskFinishes(config, gid, g, nid, result, a);
    ReportKeepsShape(config, gid, g, nid, result, true, a);
    assert nid in Unfinished(g.nodes);
  }

  /** Both states are on course, and `n` nodes were finished in between. */
  predicate Onward(s: State, t: State, gid: string, n: nat)
  {
    && OnCourse(s, gid) && OnCourse(t, gid)
    && t.graphs[gid].parent == s.graphs[gid].parent && Left(t, gid) + n == Left(s, gid)
  }

  lemma OnwardTwice(s: State, t: State, u: State, gid: string, m: nat, n: nat)
    requires Onward(s, t, gid, m) && Onward(t, u, gid, n)
    ensures Onward(s, u, gid, m + n)
  {
  }

  lemma OneStepOn(config: Config, s: State, c: Command, gid: string)
    requires Inv(s) && Possible(s, c) && Served(config, s, c, gid) && OnCourse(s, gid)
    ensures Onward(s, Step(config, s, c), gid, Tally(c, gid))
  {
    if Reports(c, gid) {
      ReportFinishesOne(config, s, c, gid);
      StepOnGraph(config, s, c, gid);
    } else {
      OthersLeave(config, s, c, gid);
    }
  }

  lemma OneMoreOn(config: Config, from: State, s: State, c: Command, gid: string, n: nat)
    requires Inv(s) && Possible(s, c) && Served(config, s, c, gid) && Onward(from, s, gid, n)
    ensures Onward(from, Step(config, s, c), gid, n + Tally(c, gid))
  {
    OneStepOn(config, s, c, gid);
    OnwardTwice(from, s, Step(config, s, c), gid, n, Tally(c, gid));
  }

  lemma OneMoreOfRun(config: Config, cs: seq<Command>, ss: seq<State>, gid: string, i: nat, m: nat, n: nat)
    requires IsRun(config, cs, ss) && Inv(ss[0]) && i <= m < |cs|
    requires Served(config, ss[m], cs[m], gid) && Onward(ss[i], ss[m], gid, n)
    ensures Onward(ss[i], ss[m + 1], gid, n + Tally(cs[m], gid))
  {
    EveryRunKeeps(config, cs, ss, m);
    OneMoreOn(config, ss[i], ss[m], cs[m], gid, n);
  }

  /** What each command carries on, with its tally, holds after all of them. */
  lemma {:induction false} Carried(cs: seq<Command>, gid: string, i: nat, j: nat, holds: (nat, nat) -> bool)
    requires i <= j <= |cs| && holds(i, 0)
    requires forall m: nat, n: nat | i <= m < j && holds(m, n) :: holds(m + 1, n + Tally(cs[m], gid))
    ensures holds(j, Reported(cs, gid, i, j))
  {
    if i < j {
      Carried(cs, gid, i, j - 1, holds);
    }
  }

  /** From a state on course, each report of the graph finishes one node, as long as it is served. */
  lemma StaysOnCourse(config: Config, cs: seq<Command>, ss: seq<State>, gid: string, i: nat, j: nat)
    requires IsRun(config, cs, ss) && Inv(ss[0]) && i <= j < |ss| && OnCourse(ss[i], gid)
    requires forall m | i <= m < j :: Served(config, ss[m], cs[m], gid)
    ensures Onward(ss[i], ss[j], gid, Reported(cs, gid, i, j))
  {
    var holds := (m: nat, n: nat) => m < |ss| && Onward(ss[i], ss[m], gid, n);
    forall m: nat, n: nat | i <= m < j && holds(m, n)
      ensures holds(m + 1, n + Tally(cs[m], gid))
    {
      assert Served(config, ss[m], cs[m], gid);
      OneMoreOfRun(config, cs, ss, gid, i, m, n);
    }
    Carried(cs, gid, i, j, holds);
  }

  /** The planner's reply is in, and well made: it looks back, names known nodes, and drew distinct suffixes. */
  predicate WellPlanned(s: State, c: Command, gid: string)
  {
    && Reports(c, gid) && c.answers.output.Some? && gid in s.graphs && c.found.value.1 == s.graphs[gid].rootId
    && Suffices(c.answers) && Distinct(c.answers.suffixes)
    && LooksBack(c.answers.output.value, NewIds(gid, c.answers.suffixes))
    && NamesKnown(c.answers.output.value, NewIds(gid, c.answers.suffixes), s.graphs[gid].rootId)
  }

  lemma PlanIsOnCourse(config: Config, s: State, c: Command, gid: string)
    requires Inv(s) && Possible(s, c) && WellPlanned(s, c, gid) && Served(config, s, c, gid)
    ensures var t := Step(config, s, c);
            && OnCourse(t, gid) && t.graphs[gid].parent == s.graphs[gid].parent
            && Left(t, gid) == Size(c.answers.output.value)
            && Acyclic(DepsOf(t.graphs[gid].nodes)) && DepsPresent(t.graphs[gid].nodes)
  {
    PlanTakesHold(config, s, c);
    var g, t := s.graphs[gid], Step(config, s, c);
    assert Sound(gid, g);
    StepOnGraph(config, s, c, gid);
    PlanLeaves(config, gid, g, c.result, c.answers);
    assert NoneFailed(t.graphs[gid].nodes);
    ReportTells(config, s, c, gid);
  }

  /**
   * A well-made plan whose tasks succeed: everything is complete after exactly
   * as many reports as the reply has tasks and reviews, until then some node
   * runs whose report can come, and the owning task waits from then on.
   */
  lemma PlanCompletes(config: Config, cs: seq<Command>, ss: seq<State>, gid: string, i: nat, j: nat)
    requires IsRun(config, cs, ss) && ss[0] == INITIAL && i < j < |ss| && WellPlanned(ss[i], cs[i], gid)
    requires forall m | i <= m < j :: Served(config, ss[m], cs[m], gid)
    ensures gid in ss[j].graphs && Reported(cs, gid, i + 1, j) <= Size(cs[i].answers.output.value)
    ensures var nodes, parent := ss[j].graphs[gid].nodes, ss[i].graphs[gid].parent;
            && (AllComplete(nodes) <==> Reported(cs, gid, i + 1, j) == Size(cs[i].answers.output.value))
            && (AllComplete(nodes) || exists k <- nodes :: nodes[k].status == Running)
            && (parent in ss[j].board <==> AllComplete(nodes))
            && (parent in ss[j].board ==> ss[j].board[parent] == Waiting)
  {
    EmptyIsInvariant();
    EveryRunKeeps(config, cs, ss, i);
    PlanIsOnCourse(config, ss[i], cs[i], gid);
    StaysOnCourse(config, cs, ss, gid, i + 1, j);
    GoodPlansProgress(config, cs, ss, gid, i + 1, j);
    CompleteMeansNone(ss[j].graphs[gid].nodes);
  }

  lemma CompleteMeansNone(nodes: Nodes)
    ensures AllComplete(nodes) <==> |Unfinished(nodes)| == 0
  {
    if !AllComplete(nodes) {
      var k :| k in nodes && nodes[k].status != Complete;
      assert k in Unfinished(nodes);
    }
  }
}
