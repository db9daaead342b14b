/** Which process a service entry still has: a group of the run it stands for, or one whose process was reaped. */
module ServiceProcesses {
  import opened Basics
  import opened PortTable
  import opened ServiceLog
  import opened ServiceState
  import opened ServiceInvariants
  import opened ServiceTheorems

  /** Each group was spawned by one run, and an entry that holds one holds its own run's as long as it is alive. */
  ghost predicate Traced(s: State)
  {
    && (forall r | r in s.runs :: s.runs[r].group in s.spawned)
    && (forall r, q | r in s.runs && q in s.runs && s.runs[r].group == s.runs[q].group :: r == q)
    && (forall k, g | Holds(s, k, g) :: exists r :: HeldFrom(s, k, g, r))
  }

  ghost predicate HeldFrom(s: State, k: string, g: nat, r: nat)
  {
    k in s.services && r in s.runs && s.runs[r].group == g && (s.services[k].alive ==> s.services[k].runId == r)
  }

  /** `k` is not alive, and yet holds the group of a run whose process nobody has reaped. */
  predicate Abandoned(s: State, k: string, r: nat)
  {
    && k in s.services && r in s.runs && !s.services[k].alive
    && s.services[k].pgid == Some(s.runs[r].group) && s.runs[r].waiter.Waiting?
  }

  ghost predicate NoneAbandoned(s: State) { forall k, r :: !Abandoned(s, k, r) }

  /** A hold, or a failure recorded without a start, that meets a live entry whose process has not been reaped. */
  predicate LeavesProcess(s: State, a: Action)
  {
    && (a.Hold? || a.FailStart?)
    && var k := Key(a.project, a.name);
       && k in s.services && s.services[k].alive && s.services[k].runId in s.runs
       && s.runs[s.services[k].runId].waiter.Waiting?
  }

  // ----- steps that spawn nothing -----

  /** No run is new, no task goes back, and an entry that has a group had it before. */
  ghost predicate Quiet(s: State, t: State)
  {
    && t.spawned == s.spawned && t.runs.Keys == s.runs.Keys
    && (forall r | r in s.runs :: t.runs[r].group == s.runs[r].group && (t.runs[r].waiter.Waiting? ==> s.runs[r].waiter.Waiting?))
    && (forall k | k in t.services && t.services[k].pgid.Some? ::
          k in s.services && t.services[k].pgid == s.services[k].pgid
          && (t.services[k].alive ==> s.services[k].alive && t.services[k].runId == s.services[k].runId))
  }

  /** The step declares a process gone that nobody has reaped, and keeps its group. */
  ghost predicate Drops(s: State, t: State, k: string)
  {
    && k in s.services && k in t.services && s.services[k].alive && !t.services[k].alive && t.services[k].pgid.Some?
    && s.services[k].runId in t.runs && t.runs[s.services[k].runId].waiter.Waiting?
  }

  lemma QuietKeepsTraced(s: State, t: State)
    requires Traced(s) && Quiet(s, t)
    ensures Traced(t)
  {
    forall k, g | Holds(t, k, g)
      ensures exists r :: HeldFrom(t, k, g, r)
    {
      assert Holds(s, k, g);
      var r :| HeldFrom(s, k, g, r);
      assert HeldFrom(t, k, g, r);
    }
  }

  /** Such a step abandons a process exactly if it drops one. */
  lemma QuietAbandons(s: State, t: State)
    requires Entries(s) && Traced(s) && Quiet(s, t) && NoneAbandoned(s)
    ensures NoneAbandoned(t) <==> forall k :: !Drops(s, t, k)
  {
    forall k, r | Abandoned(t, k, r)
      ensures Drops(s, t, k)
    {
      assert !Abandoned(s, k, r);
      AliveHoldsItsOwn(s, k);
    }
    forall k | Drops(s, t, k)
      ensures Abandoned(t, k, s.services[k].runId)
    {
      AliveHoldsItsOwn(s, k);
    }
  }

  lemma AliveHoldsItsOwn(s: State, k: string)
    requires Entries(s) && Traced(s) && k in s.services && s.services[k].alive
    ensures s.services[k].runId in s.runs && s.services[k].pgid == Some(s.runs[s.services[k].runId].group)
  {
    assert EntryOk(s, k, s.services[k]);
    var g := s.services[k].pgid.value;
    assert Holds(s, k, g);
    var r :| HeldFrom(s, k, g, r);
  }

  /** Some entries lose their group, the others and all tasks stay as they were. */
  ghost predicate Downs(s: State, t: State)
  {
    && t.spawned == s.spawned && t.runs.Keys == s.runs.Keys
    && (forall r | r in s.runs :: t.runs[r] == s.runs[r].(stopping := t.runs[r].stopping))
    && (forall k | k in t.services && t.services[k].pgid.Some? :: k in s.services && t.services[k] == s.services[k])
  }

  lemma DownsIsQuiet(s: State, t: State)
    requires Downs(s, t)
    ensures Quiet(s, t) && forall k :: !Drops(s, t, k)
  {
  }

  lemma KeyDowns(s: State, key: string)
    ensures Downs(s, ServiceStopped(s, key))
  {
  }

  lemma StoppingDowns(s: State, a: Action)
    requires a.Stop? || a.StopPrevious? || a.Remove?
    ensures Downs(s, Step(s, a))
  {
    KeyDowns(s, a.key);
  }

  lemma StoppingAllDowns(s: State, keys: set<string>)
    requires forall k | k in s.services && k !in keys :: s.services[k] == KeysStopped(s, keys).services[k]
    ensures Downs(s, KeysStopped(s, keys))
  {
  }

  lemma StoppingIsQuiet(s: State, a: Action)
    requires a.Stop? || a.StopPrevious? || a.Remove? || a.StopProject? || a.StopAll?
    ensures Quiet(s, Step(s, a)) && forall k :: !Drops(s, Step(s, a), k)
  {
    if a.StopProject? {
      StoppingAllDowns(s, ProjectKeys(s, a.project));
    } else if a.StopAll? {
      StoppingAllDowns(s, s.services.Keys);
    } else {
      StoppingDowns(s, a);
    }
    DownsIsQuiet(s, Step(s, a));
  }

  /** The entry of `key` becomes process-less, its group kept. */
  ghost predicate Unmans(s: State, t: State, key: string)
  {
    && key in t.services && t.services == s.services[key := t.services[key]] && t.runs == s.runs && t.spawned == s.spawned
    && !t.services[key].alive && t.services[key].pgid == PgidOf(s, key)
  }

  lemma UnmansIsQuiet(s: State, t: State, key: string)
    requires Unmans(s, t, key)
    ensures Quiet(s, t) && forall k :: Drops(s, t, k) ==> k == key
  {
  }

  lemma ProcesslessUnmans(s: State, a: Action)
    requires a.Hold? || a.FailStart?
    ensures Unmans(s, Step(s, a), Key(a.project, a.name))
  {
  }

  lemma ProcesslessIsQuiet(s: State, a: Action)
    requires Entries(s) && (a.Hold? || a.FailStart?)
    ensures Quiet(s, Step(s, a))
    ensures (exists k :: Drops(s, Step(s, a), k)) <==> LeavesProcess(s, a)
  {
    var t, key := Step(s, a), Key(a.project, a.name);
    ProcesslessUnmans(s, a);
    UnmansIsQuiet(s, t, key);
    if LeavesProcess(s, a) {
      assert EntryOk(s, key, s.services[key]);
      assert Drops(s, t, key);
    }
  }

  lemma TaskIsQuiet(s: State, r: nat, step: TaskStep)
    requires r in s.runs && Enabled(s.runs[r], step)
    ensures Quiet(s, Tasked(s, r, step)) && forall k :: !Drops(s, Tasked(s, r, step), k)
  {
  }

  lemma {:induction false} DeadStaysDead(v: View, sent: seq<Event>, i: nat, k: string, r: nat)
    requires !v.alive
    ensures !ViewAfter(v, sent, i, k, r).alive
    decreases |sent| - i
  {
    if i < |sent| {
      DeadStaysDead(ViewStep(v, sent[i], k, r), sent, i + 1, k, r);
    }
  }

  /** An entry is declared dead by its own exit report, which its waiter sends after reaping. */
  lemma DrainIsQuiet(s: State)
    requires Inv(s) && s.applied < |s.sent|
    ensures Quiet(s, Drained(s)) && forall k :: !Drops(s, Drained(s), k)
  {
    var t := Drained(s);
    forall k | k in t.services
      ensures k in s.services && t.services[k].pgid == s.services[k].pgid && t.services[k].runId == s.services[k].runId
      ensures t.services[k].alive ==> s.services[k].alive
    {
      AppliedIdentity(s, s.sent[s.applied], k);
      assert EntryOk(s, k, s.services[k]);
      AppliedKeepsShape(s.services[k], s.sent[s.applied]);
    }
    forall k | k in s.services && k in t.services && s.services[k].alive && !t.services[k].alive
      ensures !Drops(s, t, k)
    {
      DrainReaps(s, k);
    }
  }

  lemma DrainReaps(s: State, k: string)
    requires Inv(s) && s.applied < |s.sent| && k in s.services && s.services[k].alive
    requires var t := Drained(s); k in t.services && !t.services[k].alive && t.services[k].runId == s.services[k].runId
    ensures s.services[k].runId in s.runs && s.runs[s.services[k].runId].waiter.Sent?
  {
    var t, r := Drained(s), s.services[k].runId;
    DrainedKeepsChannel(s);
    assert EntryOk(s, k, s.services[k]);
    assert Current(t, k, r) && Agrees(t, k, r);
    DeadStaysDead(ViewOf(t.services[k]), t.sent, t.applied, k, r);
  }

  // ----- a start -----

  lemma RetiredIsQuiet(s: State, key: string)
    requires key in s.services
    ensures Quiet(s, Retired(s, key)) && forall k :: !Drops(s, Retired(s, key), k)
  {
  }

  /** The claimed port changes nobody's process. */
  lemma ClaimedIsQuiet(s: State, req: Request, free: set<nat>)
    ensures var t := ClaimedState(s, req, free).0;
            && Quiet(s, t) && (forall k :: !Drops(s, t, k)) && PgidOf(t, req.Id()) == None
  {
    if req.Id() in s.services {
      RetiredIsQuiet(s, req.Id());
    }
  }

  lemma LaunchedTraces(s: State, req: Request, port: nat, launch: Launch, group: nat)
    requires Entries(s) && Traced(s) && group !in s.spawned && PgidOf(s, req.Id()) == None
    ensures var t := Launched(s, req, port, launch, group);
            Traced(t) && (NoneAbandoned(s) ==> NoneAbandoned(t))
  {
    var t, key := Launched(s, req, port, launch, group), req.Id();
    forall k, g | Holds(t, k, g)
      ensures exists r :: HeldFrom(t, k, g, r)
    {
      if k == key {
        assert HeldFrom(t, k, g, s.nextRunId);
      } else {
        assert Holds(s, k, g);
        var r :| HeldFrom(s, k, g, r);
        assert HeldFrom(t, k, g, r);
      }
    }
    HeldWasSpawned(s);
    forall k, r | Abandoned(t, k, r)
      ensures Abandoned(s, k, r)
    {
      assert k != key && Holds(s, k, t.runs[r].group);
    }
  }

  lemma HeldWasSpawned(s: State)
    requires Traced(s)
    ensures forall k, g | Holds(s, k, g) :: g in s.spawned
  {
    forall k, g | Holds(s, k, g)
      ensures g in s.spawned
    {
      var r :| HeldFrom(s, k, g, r);
    }
  }

  lemma RefusedTraces(s: State, project: string, name: string, command: string, why: Refusal)
    requires Entries(s) && Traced(s) && PgidOf(s, Key(project, name)) == None
    ensures var t := Refused(s, project, name, command, why);
            Traced(t) && (NoneAbandoned(s) ==> NoneAbandoned(t))
  {
    var t := Refused(s, project, name, command, why);
    assert Quiet(s, t) && forall k :: !Drops(s, t, k);
    QuietKeepsTraced(s, t);
    if NoneAbandoned(s) {
      QuietAbandons(s, t);
    }
  }

  lemma AfterClaimTraces(s: State, req: Request, port: Result<nat, Refusal>, spawned: Option<nat>)
    requires Entries(s) && Traced(s) && PgidOf(s, req.Id()) == None && (spawned.Some? ==> spawned.value !in s.spawned)
    ensures var t := AfterClaim(s, req, port, spawned);
            Traced(t) && (NoneAbandoned(s) ==> NoneAbandoned(t))
  {
    if port.Err? {
      RefusedTraces(s, req.project, req.name, req.command, port.error);
    } else {
      match Resolved(req, PortsOf(s.services, req.project, req.name, port.value)) {
        case Err(why) => RefusedTraces(s, req.project, req.name, req.command, why);
        case Ok(launch) =>
          if spawned.Some? {
            LaunchedTraces(s, req, port.value, launch, spawned.value);
          }
      }
    }
  }

  lemma StartedTraces(s: State, req: Request, free: set<nat>, spawned: Option<nat>)
    requires Inv(s) && Traced(s) && (spawned.Some? ==> spawned.value !in s.spawned)
    ensures var t := Started(s, req, free, spawned);
            Traced(t) && (NoneAbandoned(s) ==> NoneAbandoned(t))
  {
    var key := req.Id();
    if !(key in s.services && s.services[key].Busy()) {
      var (t, port) := ClaimedState(s, req, free);
      if key in s.services {
        RetiredKeeps(s, key);
      }
      OwnersDoNotMatter(if key in s.services then Retired(s, key) else s, t.owners);
      ClaimedIsQuiet(s, req, free);
      QuietKeepsTraced(s, t);
      if NoneAbandoned(s) {
        QuietAbandons(s, t);
      }
      AfterClaimTraces(t, req, port, spawned);
    }
  }

  // ----- every action, every run -----

  lemma ActionIsQuiet(s: State, a: Action)
    requires Inv(s) && Possible(s, a) && !a.Start?
    ensures Quiet(s, Step(s, a)) && ((exists k :: Drops(s, Step(s, a), k)) <==> LeavesProcess(s, a))
  {
    match a
    case Hold(_, _, _, _, _, _, _) => ProcesslessIsQuiet(s, a);
    case FailStart(_, _, _, _) => ProcesslessIsQuiet(s, a);
    case Drain => DrainIsQuiet(s);
    case Task(r, step) => TaskIsQuiet(s, r, step);
    case _ => StoppingIsQuiet(s, a);
  }

  /** One action abandons a process exactly if it is a hold or recorded failure that meets a live, unreaped one. */
  lemma StepAbandons(s: State, a: Action)
    requires Inv(s) && Traced(s) && NoneAbandoned(s) && Possible(s, a)
    ensures Traced(Step(s, a))
    ensures NoneAbandoned(Step(s, a)) <==> !LeavesProcess(s, a)
  {
    if a.Start? {
      StartedTraces(s, a.req, a.free, a.spawned);
    } else {
      ActionIsQuiet(s, a);
      QuietKeepsTraced(s, Step(s, a));
      QuietAbandons(s, Step(s, a));
    }
  }

  /** No hold and no recorded failure meets a live entry: the daemon stops such a run first, or leaves it. */
  predicate Considerate(actions: seq<Action>)
  {
    actions != [] ==>
      var init, last := actions[..|actions| - 1], actions[|actions| - 1];
      Considerate(init) && !MeetsAlive(Exec(INITIAL, init), last)
  }

  predicate MeetsAlive(s: State, a: Action)
  {
    (a.Hold? || a.FailStart?) && Key(a.project, a.name) in s.services && s.services[Key(a.project, a.name)].alive
  }

  lemma {:induction false} ConsiderateRunsAbandonNone(actions: seq<Action>)
    requires Considerate(actions)
    ensures Traced(Exec(INITIAL, actions)) && NoneAbandoned(Exec(INITIAL, actions))
  {
    if actions != [] {
      var init, last := actions[..|actions| - 1], actions[|actions| - 1];
      ConsiderateRunsAbandonNone(init);
      EveryRunKeeps(init);
      if Possible(Exec(INITIAL, init), last) {
        StepAbandons(Exec(INITIAL, init), last);
      }
    }
  }

  /**
   * In every such run a group that a held entry keeps was spawned by some run,
   * and the process of that run has been reaped.
   */
  lemma HeldHasNoProcess(actions: seq<Action>, k: string, g: nat)
    requires Considerate(actions)
    ensures var s := Exec(INITIAL, actions);
            k in s.services && s.services[k].Held() && s.services[k].pgid == Some(g) ==>
              exists r | r in s.runs :: s.runs[r].group == g && !s.runs[r].waiter.Waiting?
  {
    ConsiderateRunsAbandonNone(actions);
    HeldIsNeverAlive(actions, k);
    var s := Exec(INITIAL, actions);
    if k in s.services && s.services[k].Held() && s.services[k].pgid == Some(g) {
      assert Holds(s, k, g);
      var r :| HeldFrom(s, k, g, r);
      assert !Abandoned(s, k, r);
    }
  }

  /** Without that, a start followed by a hold leaves a running process behind: nobody flagged it or killed its group. */
  lemma HoldCanAbandon(project: string, name: string, group: nat)
    ensures var claim := PortClaim((4000, 4099), Auto, 0, None);
            var start := Start(Request(project, name, claim, "", [], None), {}, Some(group));
            var hold := Hold(project, name, "", claim, ["db"], None, {});
            var s := Exec(INITIAL, [start, hold]);
            && Abandoned(s, Key(project, name), 1) && s.services[Key(project, name)].Held()
            && !s.runs[1].stopping && s.runs[1].group !in s.killed
  {
    var claim := PortClaim((4000, 4099), Auto, 0, None);
    var req := Request(project, name, claim, "", [], None);
    EmptyCommandResolves(req, PortsOf(map[], project, name, 0));
    ExecTwo(INITIAL, Start(req, {}, Some(group)), Hold(project, name, "", claim, ["db"], None, {}));
    FirstStartSpawns(req, group);
  }

  lemma FirstStartSpawns(req: Request, group: nat)
    requires req.claim == PortClaim((4000, 4099), Auto, 0, None)
    requires Resolved(req, PortsOf(map[], req.project, req.name, 0)).Ok?
    ensures var s := Started(INITIAL, req, {}, Some(group));
            && req.Id() in s.services && s.services[req.Id()].pgid == Some(group) && s.killed == {}
            && 1 in s.runs && s.runs[1].group == group && s.runs[1].waiter.Waiting? && !s.runs[1].stopping
  {
    assert Released(map[], req.Id()) == map[];
  }
}
