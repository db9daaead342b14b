/** Guarantees of the service system over whole runs: confluence, no resurrection, groups, ports and logs. */
module ServiceTheorems {
  import opened Basics
  import Decimal
  import opened PortTable
  import opened PortRefs
  import opened ServiceLog
  import opened ServiceState
  import opened ServiceInvariants

  // ----- launching -----

  lemma {:induction false} ViewUntouched(v: View, sent: seq<Event>, i: nat, k: string, r: nat)
    requires forall j | i <= j < |sent| :: sent[j].runId != r
    ensures ViewAfter(v, sent, i, k, r) == v
    decreases |sent| - i
  {
    if i < |sent| {
      ViewUntouched(v, sent, i + 1, k, r);
    }
  }

  lemma EnvironmentIsPortFree(env: seq<Var>, ports: PortMap)
    requires FirstMissingIn(AllInterpolated(ValuesOf(env), ports), ports).None?
    ensures forall name <- Environment(env, ports) :: PortFree(Environment(env, ports)[name])
  {
    var out := AllInterpolated(ValuesOf(env), ports);
    ValuesPass(ValuesOf(env), out, ports);
    EnvironmentFrom(env, ports, out);
  }

  lemma {:induction false} EnvironmentFrom(env: seq<Var>, ports: PortMap, out: seq<string>)
    requires |out| == |env| && forall i | 0 <= i < |env| :: out[i] == Interpolated(env[i].value, ports)
    ensures forall name <- Environment(env, ports) :: Environment(env, ports)[name] in out
  {
    if env != [] {
      var n := |env| - 1;
      EnvironmentFrom(env[..n], ports, out[..n]);
      assert out[n] in out && forall v <- out[..n] :: v in out;
    }
  }

  /** What passes the placeholder checks reaches the process without a port placeholder. */
  lemma ResolvedIsPortFree(req: Request, ports: PortMap, port: nat, group: nat)
    requires Resolved(req, ports).Ok?
    ensures RunOk(NewRun(req.Id(), WithPort(Resolved(req, ports).value, port), group))
  {
    ValuesPass([req.command], [Interpolated(req.command, ports)], ports);
    EnvironmentIsPortFree(req.env, ports);
    DigitsArePlain("", port, "");
    assert "" + Decimal.Print(port) == Decimal.Print(port);
    var launch := Resolved(req, ports).value;
    assert launch.command in [launch.command];
    if req.healthUrl.Some? {
      ValuesPass([req.healthUrl.value], [Interpolated(req.healthUrl.value, ports)], ports);
      assert launch.healthUrl.value in [launch.healthUrl.value];
    }
  }

  lemma EmptyCommandResolves(req: Request, ports: PortMap)
    requires req.command == "" && req.env == [] && req.healthUrl == None
    ensures Resolved(req, ports).Ok?
  {
    NothingToReplace("", ports);
    ValuesPass([""], [Interpolated("", ports)], ports);
    ValuesPass([], [], ports);
  }

  lemma LaunchedKeepsGroups(s: State, req: Request, port: nat, launch: Launch, group: nat)
    requires Groups(s) && group !in s.spawned && PgidOf(s, req.Id()) == None
    ensures Groups(Launched(s, req, port, launch, group))
  {
    var t := Launched(s, req, port, launch, group);
    var key := req.Id();
    forall k, g
      ensures Holds(t, k, g) <==> Holds(s, k, g) || (k == key && g == group)
    {
      if k == key {
        assert !Holds(s, key, g);
      }
    }
    forall g | g in t.spawned && g !in t.killed
      ensures exists k :: Holds(t, k, g)
    {
      if g == group {
        assert Holds(t, key, g);
      } else {
        var k :| Holds(s, k, g);
        assert Holds(t, k, g);
      }
    }
  }

  lemma LaunchedKeepsChannel(s: State, req: Request, port: nat, launch: Launch, group: nat)
    requires Entries(s) && Channel(s) && RunOk(NewRun(req.Id(), WithPort(launch, port), group))
    ensures Channel(Launched(s, req, port, launch, group))
  {
    var t := Launched(s, req, port, launch, group);
    forall r: nat
      ensures Counted(t, r)
    {
      assert Counted(s, r);
    }
    forall k, r | Current(t, k, r)
      ensures Agrees(t, k, r)
    {
      if r == s.nextRunId {
        ViewUntouched(ViewOf(t.services[k]), t.sent, t.applied, k, r);
      } else {
        assert Current(s, k, r) && Agrees(s, k, r);
      }
    }
  }

  lemma LaunchedKeeps(s: State, req: Request, port: nat, launch: Launch, group: nat)
    requires Inv(s) && group !in s.spawned && PgidOf(s, req.Id()) == None
    requires RunOk(NewRun(req.Id(), WithPort(launch, port), group))
    ensures Inv(Launched(s, req, port, launch, group))
  {
    LaunchedKeepsGroups(s, req, port, launch, group);
    LaunchedKeepsChannel(s, req, port, launch, group);
    LogContinues(s, req.Id());
    var t := Launched(s, req, port, launch, group);
    forall k | k in t.services
      ensures EntryOk(t, k, t.services[k])
    {
      assert k != req.Id() ==> EntryOk(s, k, s.services[k]);
    }
  }

  lemma StartedKeeps(s: State, req: Request, free: set<nat>, spawned: Option<nat>)
    requires Inv(s) && (spawned.Some? ==> spawned.value !in s.spawned)
    ensures Inv(Started(s, req, free, spawned))
  {
    var key := req.Id();
    if !(key in s.services && s.services[key].Busy()) {
      if key in s.services {
        RetiredKeeps(s, key);
      }
      var (t, port) := ClaimedState(s, req, free);
      OwnersDoNotMatter(if key in s.services then Retired(s, key) else s, t.owners);
      AfterClaimKeeps(t, req, port, spawned);
    }
  }

  lemma AfterClaimKeeps(s: State, req: Request, port: Result<nat, Refusal>, spawned: Option<nat>)
    requires Inv(s) && PgidOf(s, req.Id()) == None && (spawned.Some? ==> spawned.value !in s.spawned)
    ensures Inv(AfterClaim(s, req, port, spawned))
  {
    if port.Err? {
      RefusedKeeps(s, req.project, req.name, req.command, port.error);
    } else {
      var ports := PortsOf(s.services, req.project, req.name, port.value);
      match Resolved(req, ports) {
        case Err(why) => RefusedKeeps(s, req.project, req.name, req.command, why);
        case Ok(launch) =>
          if spawned.Some? {
            ResolvedIsPortFree(req, ports, port.value, spawned.value);
            LaunchedKeeps(s, req, port.value, launch, spawned.value);
          }
      }
    }
  }

  // ----- every action, every run -----

  lemma StepKeeps(s: State, a: Action)
    requires Inv(s) && Possible(s, a)
    ensures Inv(Step(s, a))
  {
    match a
    case Start(req, free, spawned) => StartedKeeps(s, req, free, spawned);
    case Hold(project, name, command, claim, deps, failure, free) =>
      HeldKeeps(s, project, name, command, claim, deps, failure, free);
    case FailStart(project, name, command, message) => RefusedKeeps(s, project, name, command, Given(message));
    case Stop(key) => ServiceStoppedKeeps(s, key);
    case StopPrevious(key) => PreviousKeeps(s, key);
    case Remove(key) => RemovedKeeps(s, key);
    case StopProject(project) =>
      KeysStoppedKeeps(s, ProjectKeys(s, project));
      OwnersDoNotMatter(KeysStopped(s, ProjectKeys(s, project)), ProjectReleased(s.owners, project));
    case StopAll =>
      KeysStoppedKeeps(s, s.services.Keys);
      OwnersDoNotMatter(KeysStopped(s, s.services.Keys), AllStopped(s).owners);
    case Drain => DrainedKeeps(s);
    case Task(r, step) => TaskedKeeps(s, r, step);
  }

  lemma InitialInv()
    ensures Inv(INITIAL)
  {
    forall r: nat
      ensures Counted(INITIAL, r)
    {
    }
  }

  /** Every state the system reaches, through any interleaving of operations, tasks and event application. */
  lemma {:induction false} EveryRunKeeps(actions: seq<Action>)
    ensures Inv(Exec(INITIAL, actions))
  {
    InitialInv();
    if actions != [] {
      var init := actions[..|actions| - 1];
      EveryRunKeeps(init);
      if Possible(Exec(INITIAL, init), actions[|actions| - 1]) {
        StepKeeps(Exec(INITIAL, init), actions[|actions| - 1]);
      }
    }
  }

  lemma ExecTwo(s: State, a: Action, b: Action)
    requires Possible(s, a) && Possible(Step(s, a), b)
    ensures Exec(s, [a]) == Step(s, a) && Exec(s, [a, b]) == Step(Step(s, a), b)
  {
    assert [a][..0] == [] && [a, b][..1] == [a];
  }

  // ----- confluence -----

  /** No task of the run is between an atomic access and the send it leads to. */
  predicate Settled(run: Run)
  {
    && (run.ready.NotWon? || run.ready.Announced?)
    && !run.monitor.MarkedLate?
    && (run.waiter.Waiting? || run.waiter.Sent?)
  }

  /** The verdict of a run, from what happened in it: its exit, a ready report that won, its timeout. */
  function Verdict(run: Run): Status
  {
    match run.waiter
    case Sent(clean, _) => if clean then Stopped else Failed
    case _ =>
      if run.ready != NotWon then Running
      else if run.timedOut then Failed
      else Starting
  }

  ghost predicate NothingQueued(s: State, k: string, r: nat)
  {
    forall i | s.applied <= i < |s.sent| :: s.sent[i].key != k || s.sent[i].runId != r
  }

  lemma {:induction false} NothingQueuedView(v: View, sent: seq<Event>, i: nat, k: string, r: nat)
    requires forall j | i <= j < |sent| :: sent[j].key != k || sent[j].runId != r
    ensures ViewAfter(v, sent, i, k, r) == v
    decreases |sent| - i
  {
    if i < |sent| {
      NothingQueuedView(v, sent, i + 1, k, r);
    }
  }

  /**
   * However the reports of a run raced, once its sends are applied the status
   * of an unstopped run is its verdict; and no run ever sends two ready or two
   * not-ready events.
   */
  lemma Confluence(actions: seq<Action>, k: string, r: nat)
    ensures var s := Exec(INITIAL, actions);
            && (Current(s, k, r) && Settled(s.runs[r]) && NothingQueued(s, k, r) ==>
                  s.services[k].status == Verdict(s.runs[r])
                  && s.services[k].alive == !s.runs[r].waiter.Sent?)
            && ReadyCount(s.sent, r) <= 1 && NotReadyCount(s.sent, r) <= 1
  {
    EveryRunKeeps(actions);
    var s := Exec(INITIAL, actions);
    assert Counted(s, r);
    if Current(s, k, r) && Settled(s.runs[r]) && NothingQueued(s, k, r) {
      assert Agrees(s, k, r) && RunOk(s.runs[r]);
      NothingQueuedView(ViewOf(s.services[k]), s.sent, s.applied, k, r);
    }
  }

  // ----- run isolation and no resurrection -----

  predicate Ended(s: State, k: string)
  {
    k in s.services ==> !s.services[k].alive && (s.services[k].status == Stopped || s.services[k].status == Failed)
  }

  /** The actions that may bring a service back: a new start, or a hold. */
  predicate Revives(a: Action, k: string)
  {
    (a.Start? && a.req.Id() == k) || (a.Hold? && Key(a.project, a.name) == k)
  }

  lemma AfterClaimElsewhere(s: State, req: Request, port: Result<nat, Refusal>, spawned: Option<nat>, k: string)
    requires k != req.Id()
    ensures var t := AfterClaim(s, req, port, spawned);
            (k in t.services <==> k in s.services) && (k in s.services ==> t.services[k] == s.services[k])
  {
  }

  /** A start of one service leaves every other entry alone. */
  lemma StartedElsewhere(s: State, req: Request, free: set<nat>, spawned: Option<nat>, k: string)
    requires k != req.Id()
    ensures k in Started(s, req, free, spawned).services <==> k in s.services
    ensures k in s.services ==> Started(s, req, free, spawned).services[k] == s.services[k]
  {
    var (t, port) := ClaimedState(s, req, free);
    AfterClaimElsewhere(t, req, port, spawned, k);
  }

  lemma AppliedStaysEnded(e: Entry, event: Event)
    requires !e.alive && (e.status == Stopped || e.status == Failed)
    requires !(event.StatusChange? && event.status == Starting)
    ensures var f := AppliedTo(e, event); !f.alive && (f.status == Stopped || f.status == Failed)
  {
  }

  lemma EndedStays(s: State, k: string, a: Action)
    requires Inv(s) && Possible(s, a) && Ended(s, k) && !Revives(a, k)
    ensures Ended(Step(s, a), k)
  {
    match a
    case Start(req, free, spawned) => StartedElsewhere(s, req, free, spawned, k);
    case Hold(_, _, _, _, _, _, _) =>
    case FailStart(_, _, _, _) =>
    case Drain => DrainedStaysEnded(s, k);
    case Task(_, _) =>
    case _ => StoppingStaysEnded(s, k, a);
  }

  lemma DrainedStaysEnded(s: State, k: string)
    requires Inv(s) && s.applied < |s.sent| && Ended(s, k)
    ensures Ended(Drained(s), k)
  {
    if k in s.services {
      AppliedIdentity(s, s.sent[s.applied], k);
      AppliedStaysEnded(s.services[k], s.sent[s.applied]);
    }
  }

  lemma StoppingStaysEnded(s: State, k: string, a: Action)
    requires Ended(s, k) && (a.Stop? || a.StopPrevious? || a.Remove? || a.StopProject? || a.StopAll?) && Possible(s, a)
    ensures Ended(Step(s, a), k)
  {
  }

  /** Once a service's run is stopped or its exit applied, nothing but a start or hold of it makes it start or run. */
  lemma {:induction false} NoResurrection(s: State, k: string, actions: seq<Action>)
    requires Inv(s) && Ended(s, k)
    requires forall a <- actions :: !Revives(a, k)
    ensures Inv(Exec(s, actions)) && Ended(Exec(s, actions), k)
  {
    if actions != [] {
      var init, a := actions[..|actions| - 1], actions[|actions| - 1];
      NoResurrection(s, k, init);
      assert a in actions;
      if Possible(Exec(s, init), a) {
        StepKeeps(Exec(s, init), a);
        EndedStays(Exec(s, init), k, a);
      }
    }
  }

  /** The next event is the exit report of the run `k` stands for. */
  predicate ExitIsNext(s: State, k: string)
  {
    && s.applied < |s.sent| && k in s.services
    && (var event := s.sent[s.applied];
        event.StatusChange? && event.key == k && event.runId == s.services[k].runId
        && (event.status == Stopped || event.status == Failed))
  }

  /** In every run of the system: after a stop, or once an exit is applied, the service stays down until revived. */
  lemma StoppedOrExitedStaysDown(before: seq<Action>, last: Action, k: string, after: seq<Action>)
    requires last == Stop(k) || (last == Drain && ExitIsNext(Exec(INITIAL, before), k))
    requires forall a <- after :: !Revives(a, k)
    ensures Ended(Exec(Step(Exec(INITIAL, before), last), after), k)
  {
    EveryRunKeeps(before);
    var s := Exec(INITIAL, before);
    StepKeeps(s, last);
    if last == Drain {
      assert EntryOk(s, k, s.services[k]);
    }
    NoResurrection(Step(s, last), k, after);
  }

  /** Only tasks of other runs act, and only events of other runs are queued. */
  predicate Foreign(a: Action, r: nat) { a.Drain? || (a.Task? && a.run != r) }

  ghost predicate ForeignQueue(s: State, r: nat)
  {
    s.applied <= |s.sent| && forall i | s.applied <= i < |s.sent| :: s.sent[i].runId != r
  }

  lemma ForeignStep(s: State, k: string, r: nat, a: Action)
    requires k in s.services && s.services[k].runId == r && ForeignQueue(s, r) && Foreign(a, r) && Possible(s, a)
    ensures var t := Step(s, a); k in t.services && t.services[k] == s.services[k] && ForeignQueue(t, r)
  {
    if a.Task? {
      var events := TaskEvents(s.runs[a.run], a.run, a.step);
      forall i | |s.sent| <= i < |s.sent + events|
        ensures (s.sent + events)[i].runId != r
      {
        assert (s.sent + events)[i] == events[i - |s.sent|];
      }
    }
  }

  /** Tasks and events of an older run never touch the entry of a newer one. */
  lemma {:induction false} OldRunsAreInert(s: State, k: string, actions: seq<Action>)
    requires k in s.services && ForeignQueue(s, s.services[k].runId)
    requires forall a <- actions :: Foreign(a, s.services[k].runId)
    ensures var t := Exec(s, actions);
            k in t.services && t.services[k] == s.services[k] && ForeignQueue(t, s.services[k].runId)
  {
    if actions != [] {
      var init, a := actions[..|actions| - 1], actions[|actions| - 1];
      OldRunsAreInert(s, k, init);
      assert a in actions;
      if Possible(Exec(s, init), a) {
        ForeignStep(Exec(s, init), k, s.services[k].runId, a);
      }
    }
  }

  /** A held entry is never marked alive, in every reachable state. Whether a process is left is `HeldHasNoProcess`. */
  lemma HeldIsNeverAlive(actions: seq<Action>, k: string)
    ensures var s := Exec(INITIAL, actions);
            k in s.services && s.services[k].Held() ==> !s.services[k].alive
  {
    EveryRunKeeps(actions);
    var s := Exec(INITIAL, actions);
    if k in s.services {
      assert EntryOk(s, k, s.services[k]);
    }
  }

  // ----- process groups -----

  /** No spawned process group is lost: it was killed, or exactly one entry holds it. */
  lemma GroupsAreConserved(actions: seq<Action>, g: nat)
    ensures var s := Exec(INITIAL, actions);
            && (g in s.spawned <==> g in s.killed || exists k :: Holds(s, k, g))
            && (g in s.killed ==> !exists k :: Holds(s, k, g))
            && (forall k, j | Holds(s, k, g) && Holds(s, j, g) :: k == j)
  {
    EveryRunKeeps(actions);
  }

  /** After stopping everything, every group ever spawned has been killed. */
  lemma StopAllKillsEverything(actions: seq<Action>)
    ensures var s := Exec(INITIAL, actions); AllStopped(s).killed == s.spawned
  {
    EveryRunKeeps(actions);
    var s := Exec(INITIAL, actions);
    forall g
      ensures g in AllStopped(s).killed <==> g in s.spawned
    {
      if g in s.spawned && g !in s.killed {
        var k :| Holds(s, k, g);
        assert k in s.services.Keys && s.services[k].pgid.value == g;
      }
      if g in AllStopped(s).killed && g !in s.killed {
        var k :| k in s.services && s.services[k].pgid.Some? && s.services[k].pgid.value == g;
        assert Holds(s, k, g);
      }
    }
  }

  // ----- launched processes -----

  /** No process is ever launched with a port placeholder left in its command, environment or healthcheck. */
  lemma LaunchesArePortFree(actions: seq<Action>, r: nat)
    ensures var s := Exec(INITIAL, actions);
            r in s.runs ==>
              var launch := s.runs[r].launch;
              && PortFree(launch.command)
              && (forall name <- launch.env :: PortFree(launch.env[name]))
              && (launch.healthUrl.Some? ==> PortFree(launch.healthUrl.value))
  {
    EveryRunKeeps(actions);
    var s := Exec(INITIAL, actions);
    if r in s.runs {
      assert RunOk(s.runs[r]);
    }
  }
}
