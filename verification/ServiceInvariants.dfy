/** What every run of the service system keeps: entries, process groups, ports and the event channel. */
module ServiceInvariants {
  import opened Basics
  import opened PortTable
  import opened PortRefs
  import opened ServiceLog
  import opened ServiceState

  // ----- entries -----

  ghost predicate EntryOk(s: State, k: string, e: Entry)
  {
    && k == Key(e.project, e.name)
    && Contiguous(e.log)
    && e.runId < s.nextRunId
    && (e.runId in s.runs ==> s.runs[e.runId].key == k)
    && (e.alive ==> e.runId in s.runs && !s.runs[e.runId].stopping && e.pgid.Some? && !e.Held())
  }

  /** Entries sit under their own key, logs have no gaps, and only a live run's entry is alive: never a held one. */
  ghost predicate Entries(s: State)
  {
    && (forall k | k in s.services :: EntryOk(s, k, s.services[k]))
    && (forall r | r in s.runs :: r < s.nextRunId)
  }

  // ----- process groups -----

  ghost predicate Holds(s: State, k: string, g: nat) { k in s.services && s.services[k].pgid == Some(g) }

  /** Every spawned group is held by exactly one entry or was killed, never both, and nothing else is. */
  ghost predicate Groups(s: State)
  {
    && (forall g | g in s.spawned && g !in s.killed :: exists k :: Holds(s, k, g))
    && (forall k, g | Holds(s, k, g) :: g in s.spawned && g !in s.killed)
    && (forall k, j, g | Holds(s, k, g) && Holds(s, j, g) :: k == j)
    && s.killed <= s.spawned
  }

  // ----- the channel -----

  datatype View = View(status: Status, alive: bool)

  function ViewOf(e: Entry): View { View(e.status, e.alive) }

  /** What an event does to the status of run `r` of `k`. */
  function ViewStep(v: View, event: Event, k: string, r: nat): View
  {
    if event.key != k || event.runId != r then v
    else
      match event
      case StatusChange(_, _, status, _) =>
        if status == Running && !v.alive then v
        else View(status, v.alive && !(status == Stopped || status == Failed))
      case NotReady(_, _, _) => if v.status == Starting then v.(status := Failed) else v
      case LateReady(_, _) =>
        if v.alive && (v.status == Starting || v.status == Failed) then v.(status := Running) else v
      case _ => v
  }

  /** The status once every event from `i` on is applied. */
  function ViewAfter(v: View, sent: seq<Event>, i: nat, k: string, r: nat): View
    decreases |sent| - i
  {
    if i >= |sent| then v else ViewAfter(ViewStep(v, sent[i], k, r), sent, i + 1, k, r)
  }

  /** What the reports a run has sent so far amount to, in whatever order they were sent. */
  function Reported(run: Run): View
  {
    if run.waiter.Sent? then View(run.waiter.status, false)
    else if run.ready.Announced? then View(Running, true)
    else if run.monitor.Reported? then View(Failed, true)
    else View(Starting, true)
  }

  /** The protocol between a run's tasks. */
  predicate RunOk(run: Run) { AtomicsOk(run) && LaunchOk(run.launch) }

  predicate AtomicsOk(run: Run)
  {
    && (run.ready != NotWon ==> run.settled)
    && (run.settled ==> run.ready != NotWon || !(run.waiter.Waiting? || run.waiter.Reaped?))
    && (run.exited <==> run.waiter.StoredExited? || run.waiter.Decided? || run.waiter.Sent?)
    && (run.timedOut <==> run.monitor.MarkedLate? || run.monitor.Reported?)
    && (run.waiter.Decided? || run.waiter.Sent? ==>
          && (run.waiter.clean ==> run.waiter.status == Stopped)
          && (!run.waiter.clean && !run.stopping ==> run.waiter.status == Failed)
          && (run.waiter.status == Stopped || run.waiter.status == Failed))
  }

  predicate LaunchOk(launch: Launch)
  {
    && PortFree(launch.command)
    && (forall name <- launch.env :: PortFree(launch.env[name]))
    && (launch.healthUrl.Some? ==> PortFree(launch.healthUrl.value))
  }

  predicate IsReady(event: Event, r: nat)
  {
    event.runId == r && (event.LateReady? || (event.StatusChange? && event.status == Running))
  }

  predicate IsNotReady(event: Event, r: nat) { event.runId == r && event.NotReady? }

  function ReadyCount(sent: seq<Event>, r: nat): nat
  {
    if sent == [] then 0
    else ReadyCount(sent[..|sent| - 1], r) + if IsReady(sent[|sent| - 1], r) then 1 else 0
  }

  function NotReadyCount(sent: seq<Event>, r: nat): nat
  {
    if sent == [] then 0
    else NotReadyCount(sent[..|sent| - 1], r) + if IsNotReady(sent[|sent| - 1], r) then 1 else 0
  }

  ghost predicate Counted(s: State, r: nat)
  {
    && ReadyCount(s.sent, r) == (if r in s.runs && s.runs[r].ready.Announced? then 1 else 0)
    && NotReadyCount(s.sent, r) == (if r in s.runs && s.runs[r].monitor.Reported? then 1 else 0)
  }

  /** The run an entry stands for, as long as nobody stopped or replaced it. */
  ghost predicate Current(s: State, k: string, r: nat)
  {
    k in s.services && s.services[k].runId == r && r in s.runs && !s.runs[r].stopping
  }

  /** Applying what is still queued to a current entry gives what its run reported. */
  ghost predicate Agrees(s: State, k: string, r: nat)
    requires k in s.services && r in s.runs
  {
    ViewAfter(ViewOf(s.services[k]), s.sent, s.applied, k, r) == Reported(s.runs[r])
  }

  ghost predicate Channel(s: State)
  {
    && s.applied <= |s.sent|
    && (forall i | 0 <= i < |s.sent| ::
          s.sent[i].runId < s.nextRunId && !(s.sent[i].StatusChange? && s.sent[i].status == Starting))
    && (forall r | r in s.runs :: RunOk(s.runs[r]))
    && (forall r: nat :: Counted(s, r))
    && (forall k, r | Current(s, k, r) :: Agrees(s, k, r))
  }

  ghost predicate Inv(s: State)
  {
    Entries(s) && Groups(s) && Channel(s)
  }

  // ----- lists of events -----

  lemma {:induction false} ViewAppend(v: View, sent: seq<Event>, event: Event, i: nat, k: string, r: nat)
    requires i <= |sent|
    ensures ViewAfter(v, sent + [event], i, k, r) == ViewStep(ViewAfter(v, sent, i, k, r), event, k, r)
    decreases |sent| - i
  {
    var all := sent + [event];
    if i < |sent| {
      assert all[i] == sent[i];
      ViewAppend(ViewStep(v, sent[i], k, r), sent, event, i + 1, k, r);
    } else {
      assert all[i] == event;
    }
  }

  lemma CountAppend(sent: seq<Event>, event: Event, r: nat)
    ensures ReadyCount(sent + [event], r) == ReadyCount(sent, r) + if IsReady(event, r) then 1 else 0
    ensures NotReadyCount(sent + [event], r) == NotReadyCount(sent, r) + if IsNotReady(event, r) then 1 else 0
  {
    assert (sent + [event])[..|sent|] == sent;
  }

  lemma ViewOfApplied(e: Entry, event: Event)
    ensures ViewOf(AppliedTo(e, event)) == ViewStep(ViewOf(e), event, event.key, event.runId)
  {
  }

  // ----- replacing an entry without a process: refusals and holds -----

  /** `t` is `s` with the entry of `k` replaced by a process-less one of a new run, `events` sent. */
  ghost predicate Replaced(s: State, t: State, k: string, events: seq<Event>)
  {
    && k in t.services
    && t.services == s.services[k := t.services[k]]
    && (var e := t.services[k];
        && k == Key(e.project, e.name) && Contiguous(e.log) && !e.alive
        && e.runId == s.nextRunId && e.pgid == PgidOf(s, k))
    && t.nextRunId == s.nextRunId + 1
    && t.runs == s.runs && t.applied == s.applied && t.spawned == s.spawned && t.killed == s.killed
    && t.sent == s.sent + events
    && (events == [] || events == [StatusChange(k, s.nextRunId, Failed, None)])
  }

  lemma ReplacedKeepsGroups(s: State, t: State, k: string, events: seq<Event>)
    requires Groups(s) && Replaced(s, t, k, events)
    ensures Groups(t)
  {
    forall j, g
      ensures Holds(t, j, g) <==> Holds(s, j, g)
    {
    }
  }

  lemma ReplacedKeepsChannel(s: State, t: State, k: string, events: seq<Event>)
    requires Entries(s) && Channel(s) && Replaced(s, t, k, events)
    ensures Channel(t)
  {
    if events == [] {
      assert t.sent == s.sent;
    } else {
      assert t.sent == s.sent + [events[0]];
    }
    forall r: nat
      ensures Counted(t, r)
    {
      assert Counted(s, r);
      if events != [] {
        CountAppend(s.sent, events[0], r);
      }
    }
    forall j, r | Current(t, j, r)
      ensures Agrees(t, j, r)
    {
      assert Current(s, j, r) && Agrees(s, j, r);
      if events != [] {
        ViewAppend(ViewOf(s.services[j]), s.sent, events[0], s.applied, j, r);
      }
    }
  }

  lemma ReplacedKeeps(s: State, t: State, k: string, events: seq<Event>)
    requires Inv(s) && Replaced(s, t, k, events)
    ensures Inv(t)
  {
    ReplacedKeepsGroups(s, t, k, events);
    ReplacedKeepsChannel(s, t, k, events);
  }

  lemma LogContinues(s: State, k: string)
    requires Entries(s)
    ensures Contiguous(Resumed(LinesOf(s, k)))
    ensures k in s.services ==> Resumed(LinesOf(s, k)) == s.services[k].log
  {
    if k in s.services {
      assert EntryOk(s, k, s.services[k]);
      ResumeIsIdentity(s.services[k].log);
    }
  }

  lemma OwnersDoNotMatter(s: State, owners: Owners)
    requires Inv(s)
    ensures Inv(s.(owners := owners))
  {
    var t := s.(owners := owners);
    assert forall k | k in t.services :: EntryOk(s, k, t.services[k]);
    assert forall k, g :: Holds(t, k, g) == Holds(s, k, g);
    assert forall r: nat :: Counted(s, r) ==> Counted(t, r);
    assert forall k, r | Current(t, k, r) :: Current(s, k, r) && Agrees(s, k, r);
  }

  lemma RefusedKeeps(s: State, project: string, name: string, command: string, why: Refusal)
    requires Inv(s)
    ensures Inv(Refused(s, project, name, command, why))
  {
    var key := Key(project, name);
    LogContinues(s, key);
    PushKeepsContiguous(Resumed(LinesOf(s, key)), RefusedMark(why));
    var t := Refused(s, project, name, command, why);
    ReplacedKeeps(s, t, key, [StatusChange(key, s.nextRunId, Failed, None)]);
  }

  lemma HeldKeeps(s: State, project: string, name: string, command: string, claim: PortClaim,
                  deps: seq<string>, failure: Option<string>, free: set<nat>)
    requires Inv(s)
    ensures Inv(Held(s, project, name, command, claim, deps, failure, free))
  {
    var key := Key(project, name);
    var (port, owners) := Claimed(s.services, s.owners, key, claim, free);
    if port.Err? {
      OwnersDoNotMatter(s, owners);
      RefusedKeeps(s.(owners := owners), project, name, command, port.error);
    } else {
      LogContinues(s, key);
      PushKeepsContiguous(Resumed(LinesOf(s, key)), if failure.Some? then RefusedMark(Given(failure.value)) else WaitingMark(deps));
      var t := Held(s, project, name, command, claim, deps, failure, free);
      ReplacedKeeps(s, t, key, if failure.Some? then [StatusChange(key, s.nextRunId, Failed, None)] else []);
    }
  }

  // ----- taking entries down: retiring and stopping -----

  ghost predicate Down(before: Entry, after: Entry)
  {
    && after.name == before.name && after.project == before.project && after.log == before.log
    && after.runId == before.runId && !after.alive && after.pgid == None
  }

  ghost predicate RunOf(s: State, keys: set<string>, r: nat)
  {
    exists k | k in keys :: k in s.services && s.services[k].runId == r
  }

  /** `t` is `s` with the entries of `keys` down, their runs flagged and their groups killed. */
  ghost predicate Downed(s: State, t: State, keys: set<string>)
  {
    && t.services.Keys == s.services.Keys
    && (forall k | k in s.services ::
          if k in keys then Down(s.services[k], t.services[k]) else t.services[k] == s.services[k])
    && t.runs.Keys == s.runs.Keys
    && (forall r | r in s.runs ::
          t.runs[r] == if RunOf(s, keys, r) then s.runs[r].(stopping := true) else s.runs[r])
    && (forall g :: g in t.killed <==> g in s.killed || exists k | k in keys :: Holds(s, k, g))
    && t.nextRunId == s.nextRunId && t.sent == s.sent && t.applied == s.applied && t.spawned == s.spawned
  }

  lemma DownedKeepsEntries(s: State, t: State, keys: set<string>)
    requires Entries(s) && Downed(s, t, keys)
    ensures Entries(t)
  {
    forall k | k in t.services
      ensures EntryOk(t, k, t.services[k])
    {
      var e := s.services[k];
      assert EntryOk(s, k, e);
    }
  }

  lemma DownedKeepsGroups(s: State, t: State, keys: set<string>)
    requires Groups(s) && Downed(s, t, keys)
    ensures Groups(t)
  {
    forall j, g
      ensures Holds(t, j, g) <==> Holds(s, j, g) && j !in keys
    {
    }
    forall g | g in t.spawned && g !in t.killed
      ensures exists k :: Holds(t, k, g)
    {
      var k :| Holds(s, k, g);
      assert Holds(t, k, g);
    }
  }

  lemma DownedKeepsChannel(s: State, t: State, keys: set<string>)
    requires Channel(s) && Downed(s, t, keys)
    ensures Channel(t)
  {
    forall r: nat
      ensures Counted(t, r)
    {
      assert Counted(s, r);
    }
    forall k, r | Current(t, k, r)
      ensures Agrees(t, k, r)
    {
      assert k !in keys;
      assert Current(s, k, r) && Agrees(s, k, r);
    }
  }

  lemma DownedKeeps(s: State, t: State, keys: set<string>)
    requires Inv(s) && Downed(s, t, keys)
    ensures Inv(t)
  {
    DownedKeepsEntries(s, t, keys);
    DownedKeepsGroups(s, t, keys);
    DownedKeepsChannel(s, t, keys);
  }

  lemma RetiredKeeps(s: State, key: string)
    requires Inv(s) && key in s.services
    ensures Inv(Retired(s, key))
  {
    var t := Retired(s, key);
    SingleDowned(s, t, key);
    DownedKeeps(s, t, {key});
  }

  lemma SingleDowned(s: State, t: State, key: string)
    requires key in s.services && key in t.services
    requires t.services == s.services[key := t.services[key]] && Down(s.services[key], t.services[key])
    requires t.runs == Flagged(s.runs, s.services[key].runId)
    requires t.killed == s.killed + Group(s.services[key].pgid)
    requires t.nextRunId == s.nextRunId && t.sent == s.sent && t.applied == s.applied && t.spawned == s.spawned
    ensures Downed(s, t, {key})
  {
    forall r | r in s.runs
      ensures RunOf(s, {key}, r) <==> r == s.services[key].runId
    {
      assert key in {key};
    }
    forall g
      ensures g in t.killed <==> g in s.killed || exists k | k in {key} :: Holds(s, k, g)
    {
      if Holds(s, key, g) {
        assert key in {key};
      }
    }
  }

  lemma KeyStoppedKeeps(s: State, key: string)
    requires Inv(s)
    ensures Inv(KeyStopped(s, key))
  {
    if key in s.services {
      var t := KeyStopped(s, key);
      SingleDowned(s, t, key);
      DownedKeeps(s, t, {key});
    }
  }

  lemma KeysStoppedKeeps(s: State, keys: set<string>)
    requires Inv(s)
    ensures Inv(KeysStopped(s, keys))
  {
    var t := KeysStopped(s, keys);
    assert forall r | r in s.runs :: RunOf(s, keys, r) <==> exists k | k in keys :: k in s.services && s.services[k].runId == r;
    DownedKeeps(s, t, keys);
  }

  lemma ServiceStoppedKeeps(s: State, key: string)
    requires Inv(s)
    ensures Inv(ServiceStopped(s, key))
  {
    KeyStoppedKeeps(s, key);
    var t := KeyStopped(s, key);
    OwnersDoNotMatter(t, Released(t.owners, key));
  }

  /** An entry without a process can be forgotten. */
  lemma ForgottenKeeps(s: State, key: string)
    requires Inv(s) && (key in s.services ==> s.services[key].pgid == None)
    ensures Inv(s.(services := s.services - {key}))
  {
    var t := s.(services := s.services - {key});
    forall k | k in t.services
      ensures EntryOk(t, k, t.services[k])
    {
      assert EntryOk(s, k, s.services[k]);
    }
    assert forall k, g :: Holds(t, k, g) <==> Holds(s, k, g);
    assert forall r: nat :: Counted(s, r) ==> Counted(t, r);
    forall k, r | Current(t, k, r)
      ensures Agrees(t, k, r)
    {
      assert Current(s, k, r) && Agrees(s, k, r);
    }
  }

  lemma RemovedKeeps(s: State, key: string)
    requires Inv(s)
    ensures Inv(ServiceRemoved(s, key))
  {
    ServiceStoppedKeeps(s, key);
    ForgottenKeeps(ServiceStopped(s, key), key);
  }

  // ----- changing an entry in place, its run and group untouched -----

  /** `t` is `s` with the entry of `k` changed in place. */
  ghost predicate Edited(s: State, t: State, k: string)
  {
    && k in s.services && k in t.services
    && t == s.(services := s.services[k := t.services[k]])
    && (var e, f := s.services[k], t.services[k];
        && f.name == e.name && f.project == e.project && f.runId == e.runId && f.pgid == e.pgid
        && f.waitingOn == e.waitingOn && (f.alive ==> e.alive) && Contiguous(f.log))
  }

  lemma EditedKeepsEntries(s: State, t: State, k: string)
    requires Entries(s) && Edited(s, t, k)
    ensures Entries(t)
  {
    assert EntryOk(s, k, s.services[k]);
    assert forall j | j in t.services && j != k :: EntryOk(s, j, s.services[j]);
  }

  lemma EditedKeepsGroups(s: State, t: State, k: string)
    requires Groups(s) && Edited(s, t, k)
    ensures Groups(t)
  {
    assert forall j, g :: Holds(t, j, g) <==> Holds(s, j, g);
  }

  lemma PreviousKeeps(s: State, key: string)
    requires Inv(s)
    ensures Inv(PreviousRunStopped(s, key))
  {
    if key in s.services {
      LoggedKeeps(s, key, RestartingMark);
      ServiceStoppedKeeps(Logged(s, key, RestartingMark), key);
    } else {
      ServiceStoppedKeeps(s, key);
    }
  }

  function Logged(s: State, key: string, text: Text): State
    requires key in s.services
  {
    s.(services := s.services[key := s.services[key].(log := Pushed(s.services[key].log, text))])
  }

  lemma LoggedKeeps(s: State, key: string, text: Text)
    requires Inv(s) && key in s.services
    ensures Inv(Logged(s, key, text))
  {
    var t := Logged(s, key, text);
    assert EntryOk(s, key, s.services[key]);
    PushKeepsContiguous(s.services[key].log, text);
    EditedKeepsEntries(s, t, key);
    EditedKeepsGroups(s, t, key);
    LoggedKeepsChannel(s, key, text);
  }

  lemma LoggedKeepsChannel(s: State, key: string, text: Text)
    requires Channel(s) && key in s.services
    ensures Channel(Logged(s, key, text))
  {
    var t := Logged(s, key, text);
    assert forall r: nat :: Counted(s, r) ==> Counted(t, r);
    assert forall k, r | Current(t, k, r) :: Current(s, k, r) && Agrees(s, k, r);
  }

  // ----- applying the next event -----

  lemma AppliedKeepsShape(e: Entry, event: Event)
    requires Contiguous(e.log)
    ensures var f := AppliedTo(e, event);
            && f.name == e.name && f.project == e.project && f.runId == e.runId && f.pgid == e.pgid
            && f.waitingOn == e.waitingOn && (f.alive ==> e.alive) && Contiguous(f.log)
  {
    forall text {
      PushKeepsContiguous(e.log, text);
    }
  }

  lemma DrainedKeepsChannel(s: State)
    requires Channel(s) && s.applied < |s.sent|
    ensures Channel(Drained(s))
  {
    var t, event := Drained(s), s.sent[s.applied];
    assert forall r: nat :: Counted(s, r) ==> Counted(t, r);
    forall k, r | Current(t, k, r)
      ensures Agrees(t, k, r)
    {
      AppliedIdentity(s, event, k);
      assert Current(s, k, r) && Agrees(s, k, r);
      ViewOfApplied(s.services[k], event);
    }
  }

  lemma AppliedIdentity(s: State, event: Event, k: string)
    requires k in Apply(s.services, event)
    ensures k in s.services && Apply(s.services, event)[k].runId == s.services[k].runId
    ensures Apply(s.services, event)[k] ==
            if event.key == k && event.runId == s.services[k].runId then AppliedTo(s.services[k], event) else s.services[k]
  {
  }

  lemma DrainedKeeps(s: State)
    requires Inv(s) && s.applied < |s.sent|
    ensures Inv(Drained(s))
  {
    DrainedKeepsChannel(s);
    var event := s.sent[s.applied];
    var t := s.(services := Apply(s.services, event));
    var k := event.key;
    if k in s.services && s.services[k].runId == event.runId {
      assert EntryOk(s, k, s.services[k]);
      AppliedKeepsShape(s.services[k], event);
      EditedKeepsEntries(s, t, k);
      EditedKeepsGroups(s, t, k);
    }
    AppliedCounts(t, Drained(s));
  }

  lemma AppliedCounts(s: State, t: State)
    requires Entries(s) && Groups(s) && t == s.(applied := t.applied)
    ensures Entries(t) && Groups(t)
  {
    assert forall k | k in t.services :: EntryOk(s, k, t.services[k]);
    assert forall k, g :: Holds(t, k, g) <==> Holds(s, k, g);
  }

  // ----- a task's step -----

  lemma TaskKeepsRunOk(run: Run, step: TaskStep)
    requires RunOk(run) && Enabled(run, step)
    ensures RunOk(TaskRun(run, step))
    ensures TaskRun(run, step).key == run.key && TaskRun(run, step).stopping == run.stopping
  {
    TaskKeepsAtomics(run, step);
  }

  lemma TaskKeepsAtomics(run: Run, step: TaskStep)
    requires AtomicsOk(run) && Enabled(run, step)
    ensures AtomicsOk(TaskRun(run, step)) && TaskRun(run, step).launch == run.launch
  {
  }

  /**
   * The heart of confluence: whatever was reported before, what a run has
   * reported after a send is what applying that one event more gives.
   */
  lemma SendIsReported(run: Run, r: nat, step: TaskStep)
    requires RunOk(run) && Enabled(run, step)
    ensures var events := TaskEvents(run, r, step);
            |events| <= 1
            && Reported(TaskRun(run, step)) ==
               if events == [] then Reported(run) else ViewStep(Reported(run), events[0], run.key, r)
  {
  }

  /** Ready and not-ready events are sent by one step each, which is then over. */
  lemma TaskEventKinds(run: Run, r: nat, step: TaskStep, q: nat)
    requires RunOk(run) && Enabled(run, step)
    ensures var events, after := TaskEvents(run, r, step), TaskRun(run, step);
            && (events != [] && IsReady(events[0], q) <==> q == r && step.SendReady?)
            && (events != [] && IsNotReady(events[0], q) <==> q == r && step.SendNotReady?)
            && (after.ready.Announced? <==> run.ready.Announced? || step.SendReady?)
            && (after.monitor.Reported? <==> run.monitor.Reported? || step.SendNotReady?)
            && (step.SendReady? ==> !run.ready.Announced?)
            && (step.SendNotReady? ==> !run.monitor.Reported?)
            && |events| <= 1
  {
  }

  lemma TaskedKeepsCounts(s: State, r: nat, step: TaskStep, q: nat)
    requires r in s.runs && RunOk(s.runs[r]) && Enabled(s.runs[r], step) && Counted(s, q)
    ensures Counted(Tasked(s, r, step), q)
  {
    var events := TaskEvents(s.runs[r], r, step);
    TaskEventKinds(s.runs[r], r, step, q);
    CountUpToOne(s.sent, events, q);
  }

  lemma CountUpToOne(sent: seq<Event>, events: seq<Event>, r: nat)
    requires |events| <= 1
    ensures ReadyCount(sent + events, r) == ReadyCount(sent, r) + if events != [] && IsReady(events[0], r) then 1 else 0
    ensures NotReadyCount(sent + events, r) == NotReadyCount(sent, r) + if events != [] && IsNotReady(events[0], r) then 1 else 0
  {
    if events != [] {
      assert events == [events[0]];
      CountAppend(sent, events[0], r);
    } else {
      assert sent + events == sent;
    }
  }

  lemma TaskedKeepsAgreement(s: State, r: nat, step: TaskStep, k: string, q: nat)
    requires Channel(s) && Entries(s) && r in s.runs && Enabled(s.runs[r], step)
    requires Current(Tasked(s, r, step), k, q)
    ensures Agrees(Tasked(s, r, step), k, q)
  {
    var run, events := s.runs[r], TaskEvents(s.runs[r], r, step);
    TaskKeepsRunOk(run, step);
    assert Current(s, k, q) && Agrees(s, k, q);
    assert EntryOk(s, k, s.services[k]);
    SendIsReported(run, r, step);
    if events == [] {
      assert s.sent + events == s.sent;
    } else {
      assert events == [events[0]];
      ViewAppend(ViewOf(s.services[k]), s.sent, events[0], s.applied, k, q);
    }
  }

  lemma TaskedKeeps(s: State, r: nat, step: TaskStep)
    requires Inv(s) && r in s.runs && Enabled(s.runs[r], step)
    ensures Inv(Tasked(s, r, step))
  {
    var t := Tasked(s, r, step);
    TaskKeepsRunOk(s.runs[r], step);
    forall k | k in t.services
      ensures EntryOk(t, k, t.services[k])
    {
      assert EntryOk(s, k, s.services[k]);
    }
    assert forall k, g :: Holds(t, k, g) <==> Holds(s, k, g);
    forall q: nat
      ensures Counted(t, q)
    {
      assert Counted(s, q);
      TaskedKeepsCounts(s, r, step, q);
    }
    forall k, q | Current(t, k, q)
      ensures Agrees(t, k, q)
    {
      TaskedKeepsAgreement(s, r, step, k, q);
    }
  }
}
