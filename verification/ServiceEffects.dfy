/** What each operation leaves behind: entries, ports and runs, and how a stopped service's own exit is reported. */
module ServiceEffects {
  import opened Basics
  import opened PortTable
  import opened PortRefs
  import opened ServiceLog
  import opened ServiceState
  import opened ServiceInvariants
  import opened ServiceTheorems
  import opened ServicePorts

  // ----- stopping -----

  /** A stopped entry: the same but for what ties it to a process. */
  predicate IsStopped(e: Entry, f: Entry)
  {
    f == e.(status := Stopped, alive := false, warning := None, pgid := None, waitingOn := [], log := f.log)
  }

  /** The services of `gone` are stopped or forgotten, their runs told and their groups killed; the others stay. */
  ghost predicate Stops(s: State, t: State, gone: set<string>)
  {
    && t.services.Keys <= s.services.Keys
    && (forall k <- s.services :: k !in gone ==> k in t.services && t.services[k] == s.services[k])
    && (forall k <- t.services :: k in gone ==> IsStopped(s.services[k], t.services[k]))
    && t.runs.Keys == s.runs.Keys
    && (forall r <- s.runs :: t.runs[r] == s.runs[r].(stopping := s.runs[r].stopping || RunOf(s, gone, r)))
    && (forall g :: g in t.killed <==> g in s.killed || exists k :: k in gone && Holds(s, k, g))
  }

  /** The ports of `keys` are free, and no others. */
  predicate Frees(owners: Owners, after: Owners, keys: string -> bool)
  {
    && (forall p <- after :: p in owners && after[p] == owners[p] && !keys(owners[p]))
    && (forall p <- owners :: !keys(owners[p]) ==> p in after)
  }

  lemma StopStops(s: State, key: string)
    ensures Stops(s, ServiceStopped(s, key), {key}) && (key in s.services ==> key in ServiceStopped(s, key).services)
    ensures Frees(s.owners, ServiceStopped(s, key).owners, k => k == key)
  {
    KeyStops(s, key);
  }

  lemma KeyStops(s: State, key: string)
    ensures Stops(s, KeyStopped(s, key), {key}) && KeyStopped(s, key).owners == s.owners
    ensures KeyStopped(s, key).services.Keys == s.services.Keys
  {
    assert key in {key};
    forall r
      ensures RunOf(s, {key}, r) <==> key in s.services && s.services[key].runId == r
    {
    }
    assert forall g :: (exists k :: k in {key} && Holds(s, k, g)) <==> Holds(s, key, g);
  }

  lemma PreviousStops(s: State, key: string)
    ensures Stops(s, PreviousRunStopped(s, key), {key}) && PreviousRunStopped(s, key).services.Keys == s.services.Keys
    ensures Frees(s.owners, PreviousRunStopped(s, key).owners, k => k == key)
  {
    if key in s.services {
      var e := s.services[key];
      var t := s.(services := s.services[key := e.(log := Pushed(e.log, RestartingMark))]);
      KeyStops(t, key);
      SameStops(s, t, KeyStopped(t, key), key);
    } else {
      KeyStops(s, key);
    }
  }

  /** A line in its log does not matter to a stop. */
  lemma SameStops(s: State, t: State, u: State, key: string)
    requires key in s.services && key in t.services
    requires t == s.(services := s.services[key := s.services[key].(log := t.services[key].log)])
    requires Stops(t, u, {key})
    ensures Stops(s, u, {key})
  {
    assert forall r :: RunOf(t, {key}, r) <==> RunOf(s, {key}, r);
    assert forall k, g :: Holds(t, k, g) <==> Holds(s, k, g);
  }

  lemma RemoveForgets(s: State, key: string)
    ensures Stops(s, ServiceRemoved(s, key), {key}) && key !in ServiceRemoved(s, key).services
    ensures Frees(s.owners, ServiceRemoved(s, key).owners, k => k == key)
  {
    KeyStops(s, key);
  }

  lemma KeysStop(s: State, keys: set<string>)
    ensures Stops(s, KeysStopped(s, keys), keys) && KeysStopped(s, keys).services.Keys == s.services.Keys
  {
    assert forall r :: RunOf(s, keys, r) <==> exists k | k in keys :: k in s.services && s.services[k].runId == r;
    forall g
      ensures g in KeysStopped(s, keys).killed <==> g in s.killed || exists k :: k in keys && Holds(s, k, g)
    {
      if k :| k in keys && Holds(s, k, g) {
        assert k in s.services && s.services[k].pgid.Some? && s.services[k].pgid.value == g;
      }
    }
  }

  /** Stopping a project stops the services under its name, and frees the ports of every key under it. */
  lemma ProjectStops(s: State, project: string)
    ensures Stops(s, ProjectStopped(s, project), set k | k in s.services && project + "/" <= k)
    ensures ProjectStopped(s, project).services.Keys == s.services.Keys
    ensures Frees(s.owners, ProjectStopped(s, project).owners, k => project + "/" <= k)
  {
    KeysStop(s, ProjectKeys(s, project));
  }

  /** So every service of the project is stopped, and none of them owns a port. */
  lemma ProjectServicesStop(s: State, project: string, k: string)
    requires Entries(s) && k in s.services && s.services[k].project == project
    ensures var t := ProjectStopped(s, project);
            && k in t.services && IsStopped(s.services[k], t.services[k])
            && forall p <- t.owners :: t.owners[p] != k
  {
    assert EntryOk(s, k, s.services[k]);
    assert project + "/" <= project + "/" + s.services[k].name;
    ProjectStops(s, project);
  }

  /** The key is under the project of some service. */
  predicate UnderService(services: map<string, Entry>, key: string)
  {
    exists k <- services :: services[k].project + "/" <= key
  }

  /** Stopping everything stops every service, and frees the ports of every key under the project of one. */
  lemma AllStop(s: State)
    ensures Stops(s, AllStopped(s), s.services.Keys) && AllStopped(s).services.Keys == s.services.Keys
    ensures Frees(s.owners, AllStopped(s).owners, k => UnderService(s.services, k))
  {
    KeysStop(s, s.services.Keys);
    var projects := set k | k in s.services :: s.services[k].project;
    forall p <- s.owners
      ensures (exists q | q in projects :: q + "/" <= s.owners[p]) <==> UnderService(s.services, s.owners[p])
    {
    }
  }

  /** No port is left exactly if every owner was under the project of some service. */
  lemma AllStopFrees(s: State)
    ensures AllStopped(s).owners == map[] <==> forall p <- s.owners :: UnderService(s.services, s.owners[p])
  {
    AllStop(s);
    var after := AllStopped(s).owners;
    if forall p <- s.owners :: UnderService(s.services, s.owners[p]) {
      assert forall p: nat :: p !in after;
    }
  }

  /** A first start whose spawn fails keeps a port that stopping everything does not free. */
  lemma FailedStartLeaks(project: string, name: string, free: set<nat>)
    requires 4000 in free
    ensures var start := Start(Request(project, name, PortClaim((4000, 4099), Strict, 4000, None), "", [], None), free, None);
            Exec(INITIAL, [start, StopAll]).owners == map[4000 := Key(project, name)]
  {
    var req := Request(project, name, PortClaim((4000, 4099), Strict, 4000, None), "", [], None);
    ExecTwo(INITIAL, Start(req, free, None), StopAll);
    FirstStartClaims(req, free);
  }

  lemma FirstStartClaims(req: Request, free: set<nat>)
    requires req.claim == PortClaim((4000, 4099), Strict, 4000, None) && 4000 in free
    requires req.command == "" && req.env == [] && req.healthUrl == None
    ensures var t := Started(INITIAL, req, free, None);
            t.services == map[] && t.owners == map[4000 := req.Id()]
  {
    FirstClaim(req, free);
    EmptyCommandResolves(req, PortsOf(map[], req.project, req.name, 4000));
  }

  lemma FirstClaim(req: Request, free: set<nat>)
    requires req.claim == PortClaim((4000, 4099), Strict, 4000, None) && 4000 in free
    ensures ClaimedState(INITIAL, req, free) == (INITIAL.(owners := map[4000 := req.Id()]), Ok(4000))
  {
    assert Released(map[], req.Id()) == map[];
  }

  // ----- holding -----

  /** A hold leaves an entry of a new run without a process, on the claimed port, that waits for its dependencies or failed. */
  lemma HoldLeaves(s: State, project: string, name: string, command: string, claim: PortClaim,
                   deps: seq<string>, failure: Option<string>, free: set<nat>)
    requires Claimed(s.services, s.owners, Key(project, name), claim, free).0.Ok?
    ensures var t, k := Held(s, project, name, command, claim, deps, failure, free), Key(project, name);
            && t.services.Keys == s.services.Keys + {k} && (forall j <- s.services :: j != k ==> t.services[j] == s.services[j])
            && t.runs == s.runs
            && var e := t.services[k];
               && e.project == project && e.name == name && e.command == command
               && e.status == (if failure.None? then Starting else Failed) && e.waitingOn == deps
               && !e.alive && e.runId == s.nextRunId < t.nextRunId && e.warning.None?
               && e.allocatedPort == Claimed(s.services, s.owners, k, claim, free).0.value
               && e.originalPort == claim.port && (e.pinned <==> claim.pin == Strict)
               && e.pgid == if k in s.services then s.services[k].pgid else None
  {
  }

  // ----- reports -----

  /** A report says what its task came upon. */
  lemma ReportsSay(run: Run, r: nat, step: TaskStep)
    requires Enabled(run, step)
    ensures step.SendNotReady? ==> TaskEvents(run, r, step) == [NotReady(run.key, r, step.reason)]
    ensures step.SendProbe? ==> TaskEvents(run, r, step) == [PortProbe(run.key, r, step.answered, step.listening)]
    ensures step.SendLine? && !step.onStderr ==> TaskEvents(run, r, step) == [LogEvent(run.key, r, step.line)]
    ensures step.SendLine? && step.onStderr ==> TaskEvents(run, r, step) == [LogEvent(run.key, r, "[err] " + step.line)]
    ensures step.LoadStopping? ==> var waiter := TaskRun(run, step).waiter;
              waiter.Decided? && waiter.status == if run.waiter.clean || run.stopping then Stopped else Failed
  {
  }

  /** Run `r` will not report a failure: it was told to stop before its exit was judged. */
  ghost predicate NoFailureComes(s: State, k: string, r: nat)
  {
    && (r in s.runs ==>
          && s.runs[r].stopping
          && (s.runs[r].waiter.Decided? ==> s.runs[r].waiter.status == Stopped))
    && s.applied <= |s.sent|
    && forall i | s.applied <= i < |s.sent| :: !(s.sent[i].StatusChange? && s.sent[i].key == k && s.sent[i].runId == r && s.sent[i].status == Failed)
  }

  /** The entry of `k` is stopped, and no report of its run will say that it failed. */
  ghost predicate StoppedForGood(s: State, k: string)
  {
    k in s.services ==>
      && s.services[k].status == Stopped && !s.services[k].alive && s.services[k].runId < s.nextRunId
      && NoFailureComes(s, k, s.services[k].runId)
  }

  /** The operations that make a new entry for the service. */
  predicate Renews(a: Action, k: string)
  {
    Revives(a, k) || (a.FailStart? && Key(a.project, a.name) == k)
  }

  lemma TaskStaysStopped(s: State, k: string, r: nat, step: TaskStep)
    requires Inv(s) && StoppedForGood(s, k) && r in s.runs && Enabled(s.runs[r], step)
    ensures StoppedForGood(Tasked(s, r, step), k)
  {
    var t, events := Tasked(s, r, step), TaskEvents(s.runs[r], r, step);
    if k in s.services {
      forall i | s.applied <= i < |t.sent|
        ensures !(t.sent[i].StatusChange? && t.sent[i].key == k && t.sent[i].runId == s.services[k].runId && t.sent[i].status == Failed)
      {
        assert t.sent[i] == if i < |s.sent| then s.sent[i] else events[i - |s.sent|];
      }
    }
  }

  lemma DrainStaysStopped(s: State, k: string)
    requires Inv(s) && StoppedForGood(s, k) && s.applied < |s.sent|
    ensures StoppedForGood(Drained(s), k)
  {
    if k in s.services {
      AppliedIdentity(s, s.sent[s.applied], k);
    }
  }

  /** An operation on other services: the entry stays, its run at most flagged, and only a failure of a newer run may be told. */
  ghost predicate Beside(s: State, t: State, k: string)
  {
    && (k in t.services ==> k in s.services && t.services[k] == s.services[k])
    && s.nextRunId <= t.nextRunId && t.applied == s.applied
    && (forall r <- s.runs :: r < s.nextRunId ==>
          r in t.runs && t.runs[r].waiter == s.runs[r].waiter && (s.runs[r].stopping ==> t.runs[r].stopping))
    && (forall r <- t.runs :: r < s.nextRunId ==> r in s.runs)
    && (t.sent == s.sent || exists event: Event :: event.runId == s.nextRunId && t.sent == s.sent + [event])
  }

  lemma BesideStaysStopped(s: State, t: State, k: string)
    requires StoppedForGood(s, k) && Beside(s, t, k)
    ensures StoppedForGood(t, k)
  {
    if k in t.services && t.sent != s.sent {
      var event: Event :| event.runId == s.nextRunId && t.sent == s.sent + [event];
      forall i | t.applied <= i < |t.sent|
        ensures t.sent[i].runId == s.services[k].runId ==> i < |s.sent| && t.sent[i] == s.sent[i]
      {
        assert i == |s.sent| ==> t.sent[i] == event;
      }
    }
  }

  lemma StartIsBeside(s: State, req: Request, free: set<nat>, spawned: Option<nat>, k: string)
    requires req.Id() != k
    ensures Beside(s, Started(s, req, free, spawned), k)
  {
    var (t, port) := ClaimedState(s, req, free);
    assert Beside(s, t, k) && t.sent == s.sent && t.nextRunId == s.nextRunId;
    AfterClaimIsBeside(t, req, port, spawned, k);
    BesideTwice(s, t, AfterClaim(t, req, port, spawned), k);
  }

  lemma BesideTwice(s: State, t: State, u: State, k: string)
    requires Beside(s, t, k) && Beside(t, u, k) && t.sent == s.sent && t.nextRunId == s.nextRunId
    ensures Beside(s, u, k)
  {
  }

  lemma RefusedIsBeside(s: State, project: string, name: string, command: string, why: Refusal, k: string)
    requires Key(project, name) != k
    ensures Beside(s, Refused(s, project, name, command, why), k)
  {
    var event := StatusChange(Key(project, name), s.nextRunId, Failed, None);
    assert event.runId == s.nextRunId && Refused(s, project, name, command, why).sent == s.sent + [event];
  }

  lemma AfterClaimIsBeside(s: State, req: Request, port: Result<nat, Refusal>, spawned: Option<nat>, k: string)
    requires req.Id() != k
    ensures Beside(s, AfterClaim(s, req, port, spawned), k)
  {
    if port.Err? {
      RefusedIsBeside(s, req.project, req.name, req.command, port.error, k);
    } else {
      var resolved := Resolved(req, PortsOf(s.services, req.project, req.name, port.value));
      if resolved.Err? {
        RefusedIsBeside(s, req.project, req.name, req.command, resolved.error, k);
      }
    }
  }

  lemma HoldIsBeside(s: State, a: Action, k: string)
    requires a.Hold? && Key(a.project, a.name) != k
    ensures Beside(s, Step(s, a), k)
  {
    var (port, owners) := Claimed(s.services, s.owners, Key(a.project, a.name), a.claim, a.free);
    if port.Err? {
      RefusedIsBeside(s.(owners := owners), a.project, a.name, a.command, port.error, k);
    } else if a.failure.Some? {
      var event := StatusChange(Key(a.project, a.name), s.nextRunId, Failed, None);
      assert event.runId == s.nextRunId && Step(s, a).sent == s.sent + [event];
    }
  }

  lemma StoppingStaysStopped(s: State, k: string, a: Action)
    requires StoppedForGood(s, k) && (a.Stop? || a.StopPrevious? || a.Remove? || a.StopProject? || a.StopAll?) && Possible(s, a)
    ensures StoppedForGood(Step(s, a), k)
  {
  }

  lemma StepStaysStopped(s: State, k: string, a: Action)
    requires Inv(s) && StoppedForGood(s, k) && Possible(s, a) && !Renews(a, k)
    ensures StoppedForGood(Step(s, a), k)
  {
    if a.Task? {
      TaskStaysStopped(s, k, a.run, a.step);
    } else if a.Drain? {
      DrainStaysStopped(s, k);
    } else if a.Start? {
      StartIsBeside(s, a.req, a.free, a.spawned, k);
      BesideStaysStopped(s, Step(s, a), k);
    } else if a.Hold? {
      HoldIsBeside(s, a, k);
      BesideStaysStopped(s, Step(s, a), k);
    } else if a.FailStart? {
      RefusedIsBeside(s, a.project, a.name, a.command, Given(a.message), k);
      BesideStaysStopped(s, Step(s, a), k);
    } else {
      StoppingStaysStopped(s, k, a);
    }
  }

  /**
   * A service that was stopped before its exit was judged reads as stopped,
   * never as failed, whatever is still reported of its run, until it is started,
   * held or refused anew.
   */
  lemma {:induction false} StopReadsAsStopped(s: State, k: string, actions: seq<Action>)
    requires Inv(s) && StoppedForGood(s, k) && forall a <- actions :: !Renews(a, k)
    ensures Inv(Exec(s, actions)) && StoppedForGood(Exec(s, actions), k)
  {
    if actions != [] {
      var init, a := actions[..|actions| - 1], actions[|actions| - 1];
      StopReadsAsStopped(s, k, init);
      assert a in actions;
      if Possible(Exec(s, init), a) {
        StepKeeps(Exec(s, init), a);
        StepStaysStopped(Exec(s, init), k, a);
      }
    }
  }

  /** A stop leaves a service so, if its run has not exited or its exit has not been judged yet and no failure is queued. */
  lemma StopIsForGood(s: State, k: string)
    requires Inv(s) && k in s.services
    requires s.services[k].runId in s.runs ==> !s.runs[s.services[k].runId].waiter.Decided?
    requires forall i | s.applied <= i < |s.sent| ::
               !(s.sent[i].StatusChange? && s.sent[i].key == k && s.sent[i].runId == s.services[k].runId && s.sent[i].status == Failed)
    ensures StoppedForGood(ServiceStopped(s, k), k)
  {
    assert EntryOk(s, k, s.services[k]);
  }

  // ----- a run that will not report -----

  /** What one step of a task keeps of its run, and what it may then send. */
  ghost predicate Kept(r: nat, law: Run -> bool, may: Event -> bool)
  {
    && (forall run | law(run) :: law(run.(stopping := true)))
    && forall run, step | law(run) && Enabled(run, step) ::
         law(TaskRun(run, step)) && forall event <- TaskEvents(run, r, step) :: may(event)
  }

  lemma OperationOnRun(s: State, a: Action, r: nat)
    requires Inv(s) && Possible(s, a) && !a.Task? && r in s.runs
    ensures var t := Step(s, a);
            && r in t.runs && (t.runs[r] == s.runs[r] || t.runs[r] == s.runs[r].(stopping := true))
            && (t.sent == s.sent || exists event: Event :: event.runId == s.nextRunId && t.sent == s.sent + [event])
  {
    assert r < s.nextRunId;
    if a.Start? {
      StartOnRun(s, a.req, a.free, a.spawned, r);
    } else if a.Hold? {
      HoldOnRun(s, a, r);
    } else if a.FailStart? {
      RefusedOnRun(s, a.project, a.name, a.command, Given(a.message));
    }
  }

  lemma RefusedOnRun(s: State, project: string, name: string, command: string, why: Refusal)
    ensures var t := Refused(s, project, name, command, why);
            t.runs == s.runs && exists event: Event :: event.runId == s.nextRunId && t.sent == s.sent + [event]
  {
    var event := StatusChange(Key(project, name), s.nextRunId, Failed, None);
    assert event.runId == s.nextRunId && Refused(s, project, name, command, why).sent == s.sent + [event];
  }

  lemma HoldOnRun(s: State, a: Action, r: nat)
    requires a.Hold? && r in s.runs
    ensures var t := Step(s, a);
            && t.runs == s.runs
            && (t.sent == s.sent || exists event: Event :: event.runId == s.nextRunId && t.sent == s.sent + [event])
  {
    var (port, owners) := Claimed(s.services, s.owners, Key(a.project, a.name), a.claim, a.free);
    if port.Err? {
      RefusedOnRun(s.(owners := owners), a.project, a.name, a.command, port.error);
    } else if a.failure.Some? {
      var event := StatusChange(Key(a.project, a.name), s.nextRunId, Failed, None);
      assert event.runId == s.nextRunId && Step(s, a).sent == s.sent + [event];
    }
  }

  lemma StartOnRun(s: State, req: Request, free: set<nat>, spawned: Option<nat>, r: nat)
    requires r in s.runs && r < s.nextRunId
    ensures var t := Started(s, req, free, spawned);
            && r in t.runs && (t.runs[r] == s.runs[r] || t.runs[r] == s.runs[r].(stopping := true))
            && (t.sent == s.sent || exists event: Event :: event.runId == s.nextRunId && t.sent == s.sent + [event])
  {
    var (t, port) := ClaimedState(s, req, free);
    assert r in t.runs && t.sent == s.sent && t.nextRunId == s.nextRunId;
    if port.Err? {
      RefusedOnRun(t, req.project, req.name, req.command, port.error);
    } else {
      var resolved := Resolved(req, PortsOf(t.services, req.project, req.name, port.value));
      if resolved.Err? {
        RefusedOnRun(t, req.project, req.name, req.command, resolved.error);
      }
    }
  }

  /** The run is there and keeps the law, and what was sent since `from` of it is within what it may. */
  ghost predicate Within(from: nat, t: State, r: nat, law: Run -> bool, may: Event -> bool)
  {
    && r in t.runs && law(t.runs[r]) && from <= |t.sent|
    && forall i | from <= i < |t.sent| && t.sent[i].runId == r :: may(t.sent[i])
  }

  /** What its tasks keep of a run holds over every run of the system, and what the run sends stays within it. */
  lemma {:induction false} RunKeeps(s: State, r: nat, actions: seq<Action>, law: Run -> bool, may: Event -> bool)
    requires Inv(s) && r in s.runs && law(s.runs[r]) && Kept(r, law, may)
    ensures Inv(Exec(s, actions)) && Within(|s.sent|, Exec(s, actions), r, law, may)
  {
    if actions != [] {
      var init, a := actions[..|actions| - 1], actions[|actions| - 1];
      RunKeeps(s, r, init, law, may);
      if Possible(Exec(s, init), a) {
        StepKeeps(Exec(s, init), a);
        StepWithin(|s.sent|, Exec(s, init), r, a, law, may);
      }
    }
  }

  lemma StepWithin(from: nat, s: State, r: nat, a: Action, law: Run -> bool, may: Event -> bool)
    requires Inv(s) && Possible(s, a) && Within(from, s, r, law, may) && Kept(r, law, may)
    ensures Within(from, Step(s, a), r, law, may)
  {
    var t := Step(s, a);
    StepKeepsRun(s, r, a, law, may);
    forall i | from <= i < |t.sent| && t.sent[i].runId == r
      ensures may(t.sent[i])
    {
      assert i < |s.sent| ==> t.sent[i] == t.sent[..|s.sent|][i] == s.sent[i];
    }
  }

  lemma StepKeepsRun(s: State, r: nat, a: Action, law: Run -> bool, may: Event -> bool)
    requires Inv(s) && Possible(s, a) && r in s.runs && law(s.runs[r]) && Kept(r, law, may)
    ensures Within(|s.sent|, Step(s, a), r, law, may) && Step(s, a).sent[..|s.sent|] == s.sent
  {
    var t := Step(s, a);
    if a.Task? {
      var events := TaskEvents(s.runs[a.run], a.run, a.step);
      forall i | |s.sent| <= i < |t.sent| && t.sent[i].runId == r
        ensures may(t.sent[i])
      {
        assert t.sent[i] == events[i - |s.sent|] && a.run == r;
      }
    } else {
      OperationOnRun(s, a, r);
      assert r < s.nextRunId;
    }
  }

  predicate OnTimeRun(run: Run) { run.settled && (run.monitor == Probing || run.monitor == Quit) }

  predicate LateRun(run: Run) { run.timedOut && run.ready != Chosen(false) }

  predicate SilentRun(run: Run) { run.settled && run.ready == NotWon }

  predicate NotOverdue(event: Event) { !event.NotReady? }

  predicate NotInTime(event: Event) { !(event.StatusChange? && event.status == Running) }

  predicate NotReadiness(event: Event) { !event.LateReady? && NotInTime(event) }

  lemma OnTimeIsKept(r: nat)
    ensures Kept(r, OnTimeRun, NotOverdue)
  {
  }

  lemma SoundLateIsKept(r: nat)
    ensures Kept(r, SoundLate, NotInTime)
  {
    forall run, step | SoundLate(run) && Enabled(run, step)
      ensures SoundLate(TaskRun(run, step)) && forall event <- TaskEvents(run, r, step) :: NotInTime(event)
    {
      TaskKeepsAtomics(run, step);
      StaysLate(run, step);
      SendsLate(run, r, step);
    }
  }

  lemma StaysLate(run: Run, step: TaskStep)
    requires LateRun(run) && Enabled(run, step)
    ensures LateRun(TaskRun(run, step))
  {
  }

  lemma SendsLate(run: Run, r: nat, step: TaskStep)
    requires SoundLate(run) && Enabled(run, step)
    ensures forall event <- TaskEvents(run, r, step) :: NotInTime(event)
  {
  }

  lemma SilenceIsKept(r: nat)
    ensures Kept(r, SoundSilent, NotReadiness)
  {
  }

  /** A settled exit without readiness; its report is a stop or a failure. */
  predicate SoundSilent(run: Run) { SilentRun(run) && AtomicsOk(run) }

  /** A run that settled before its monitor looked is never reported as not ready. */
  lemma SettledIsNotOverdue(s: State, r: nat, actions: seq<Action>)
    requires Inv(s) && r in s.runs && s.runs[r].settled && s.runs[r].monitor == Probing
    ensures var t := Exec(s, actions); forall i | |s.sent| <= i < |t.sent| && t.sent[i].runId == r :: !t.sent[i].NotReady?
  {
    OnTimeIsKept(r);
    RunKeeps(s, r, actions, OnTimeRun, NotOverdue);
  }

  /** A run that timed out before a reporter of its readiness looked is ready late, if at all. */
  lemma TimedOutIsLate(s: State, r: nat, actions: seq<Action>)
    requires Inv(s) && r in s.runs && s.runs[r].timedOut && (s.runs[r].ready == NotWon || s.runs[r].ready == Won)
    ensures var t := Exec(s, actions);
            forall i | |s.sent| <= i < |t.sent| && t.sent[i].runId == r :: !(t.sent[i].StatusChange? && t.sent[i].status == Running)
  {
    assert RunOk(s.runs[r]);
    SoundLateIsKept(r);
    RunKeeps(s, r, actions, SoundLate, NotInTime);
  }

  predicate SoundLate(run: Run) { LateRun(run) && AtomicsOk(run) }

  /** Once the exit of a run is settled and nobody had won, no readiness is reported. */
  lemma ExitSilences(s: State, r: nat, actions: seq<Action>)
    requires Inv(s) && r in s.runs && s.runs[r].ready == NotWon && Enabled(s.runs[r], StoreSettled)
    ensures var t := Exec(Tasked(s, r, StoreSettled), actions);
            forall i | |s.sent| <= i < |t.sent| && t.sent[i].runId == r :: !IsReady(t.sent[i], r)
  {
    var u := Tasked(s, r, StoreSettled);
    StepKeeps(s, Task(r, StoreSettled));
    assert RunOk(u.runs[r]) && u.sent == s.sent;
    SilenceIsKept(r);
    RunKeeps(u, r, actions, SoundSilent, NotReadiness);
  }

  // ----- claiming -----

  /** What a claim answers, and what it makes of the ports. */
  lemma ClaimAnswers(services: map<string, Entry>, owners: Owners, key: string, claim: PortClaim, free: set<nat>)
    ensures var (port, after) := Claimed(services, owners, key, claim, free);
            var rest := Released(owners, key);
            if claim.conflict.Some? then port == Err(RangeConflict(claim.conflict.value)) && after == rest
            else if key in services && services[key].waitingOn != [] && claim.port > 0
                    && claim.range.0 <= services[key].allocatedPort <= claim.range.1
                    && (claim.pin == Strict ==> services[key].allocatedPort == claim.port) then
              port == Ok(services[key].allocatedPort) && after == owners
            else if claim.port == 0 then port == Ok(0) && after == rest
            else
              match Allocation(rest, free, claim.range, claim.port, claim.pin)
              case Ok(p) => port == Ok(p) && after == rest[p := key]
              case Err(e) => port == Err(NoPort(e)) && after == rest
  {
  }
}
