/** What a service's log says, over whole runs of the system, and what a client that polls it sees. */
module ServiceHistory {
  import opened Basics
  import opened PortTable
  import opened PortRefs
  import opened ServiceLog
  import opened ServiceState
  import opened ServiceInvariants
  import opened ServiceTheorems

  // ----- one event -----

  /** The marker that tells of a status an event brought about. */
  predicate Tells(text: Text, event: Event, now: Status)
  {
    match event
    case StatusChange(_, _, status, code) =>
      status == now
      && (match status
          case Starting => text == StartingMark
          case Running => text == RunningMark
          case Stopped => text == StoppedMark
          case Failed => text == ExitedMark(code))
    case NotReady(_, _, reason) => now == Failed && text == NotReadyMark(reason)
    case LateReady(_, _) => now == Running && text == ReadyLateMark
    case _ => false
  }

  /** The log goes on with these texts, of which there is at most one. */
  predicate Appends(before: Ring, after: Ring, texts: seq<Text>)
  {
    |texts| <= 1 && after == if texts == [] then before else Pushed(before, texts[0])
  }

  /** Process output is logged as it is; any other event leaves a marker exactly if it changed the status or ended the run. */
  predicate Logs(e: Entry, f: Entry, event: Event, texts: seq<Text>)
  {
    && Appends(e.log, f.log, texts)
    && match event
       case LogEvent(_, _, line) => texts == [Output(line)]
       case PortProbe(_, _, _, _) => texts == []
       case _ => if ViewOf(f) == ViewOf(e) then texts == [] else |texts| == 1 && Tells(texts[0], event, f.status)
  }

  /** A warning names the ports that answer instead of the entry's own. */
  ghost predicate Warns(e: Entry, warning: Option<PortWarning>, answered: bool, listening: seq<nat>)
  {
    && (warning.Some? <==> !answered && (e.status == Running || exists p <- listening :: p != e.allocatedPort))
    && (warning.Some? ==>
          && warning.value.expected == e.allocatedPort
          && forall p :: p in warning.value.listening <==> p in listening && p != e.allocatedPort)
  }

  lemma {:induction false} OthersAre(listening: seq<nat>, expected: nat)
    ensures forall p :: p in Others(listening, expected) <==> p in listening && p != expected
  {
    if listening != [] {
      OthersAre(listening[1..], expected);
      assert forall p :: p in listening <==> p == listening[0] || p in listening[1..];
    }
  }

  /** What a log was given between two states of it. */
  function Added(before: Ring, after: Ring): seq<Text>
  {
    if after == before || after.lines == [] then [] else [after.lines[|after.lines| - 1].text]
  }

  lemma AddedOne(before: Ring, text: Text)
    ensures Pushed(before, text) != before && Added(before, Pushed(before, text)) == [text]
  {
  }

  lemma StatusLogs(e: Entry, event: Event)
    requires event.StatusChange?
    ensures Logs(e, AppliedTo(e, event), event, Added(e.log, AppliedTo(e, event).log))
  {
    AddedOne(e.log, Marker(event.status, event.exitCode));
  }

  lemma AppliedLogs(e: Entry, event: Event)
    ensures Logs(e, AppliedTo(e, event), event, Added(e.log, AppliedTo(e, event).log))
  {
    match event
    case StatusChange(_, _, _, _) => StatusLogs(e, event);
    case LogEvent(_, _, line) => AddedOne(e.log, Output(line));
    case NotReady(_, _, reason) => AddedOne(e.log, NotReadyMark(reason));
    case LateReady(_, _) => AddedOne(e.log, ReadyLateMark);
    case PortProbe(_, _, _, _) =>
  }

  lemma AppliedWarns(e: Entry, event: Event)
    ensures var f := AppliedTo(e, event);
            && (event.PortProbe? && e.alive ==> Warns(e, f.warning, event.answered, event.listening))
            && (!(event.PortProbe? && e.alive) ==> f.warning == if e.alive && !f.alive then None else e.warning)
  {
    if event.PortProbe? {
      OthersAre(event.listening, e.allocatedPort);
      var others := Others(event.listening, e.allocatedPort);
      assert others != [] ==> others[0] in others;
    }
  }

  /** What an event of its own run does to an entry, besides its status. */
  lemma AppliedIs(e: Entry, event: Event)
    ensures var f := AppliedTo(e, event);
            && Logs(e, f, event, Added(e.log, f.log))
            && f == e.(status := f.status, alive := f.alive, warning := f.warning, log := f.log)
            && (event.PortProbe? && e.alive ==> Warns(e, f.warning, event.answered, event.listening))
            && (!(event.PortProbe? && e.alive) ==> f.warning == if e.alive && !f.alive then None else e.warning)
  {
    AppliedLogs(e, event);
    AppliedWarns(e, event);
  }

  // ----- one action -----

  /** A hold says why it is refused or failed, or what it waits for. */
  function HoldLine(port: Result<nat, Refusal>, deps: seq<string>, failure: Option<string>): Text
  {
    if port.Err? then RefusedMark(port.error)
    else if failure.Some? then RefusedMark(Given(failure.value))
    else WaitingMark(deps)
  }

  /** What an action has to say in the log of `k`. */
  ghost predicate Says(s: State, a: Action, k: string, f: Entry, texts: seq<Text>)
    requires Possible(s, a) && k in s.services
  {
    match a
    case Drain =>
      var event := s.sent[s.applied];
      if event.key == k && event.runId == s.services[k].runId then Logs(s.services[k], f, event, texts) else texts == []
    case StopPrevious(key) => texts == if key == k then [RestartingMark] else []
    case FailStart(project, name, _, message) =>
      texts == if Key(project, name) == k then [RefusedMark(Given(message))] else []
    case Hold(project, name, _, claim, deps, failure, free) =>
      texts == if Key(project, name) == k then [HoldLine(Claimed(s.services, s.owners, k, claim, free).0, deps, failure)] else []
    case Start(req, _, _) =>
      // Which refusal it is, and that a refusal leaves its line, is in `StartHands` and `StartRefused`.
      texts != [] ==> req.Id() == k && f.status == Failed && |texts| == 1 && texts[0].RefusedMark?
    case _ => texts == []
  }

  lemma RefusedWrites(s: State, project: string, name: string, command: string, why: Refusal, k: string)
    requires Entries(s) && k in s.services
    ensures var t := Refused(s, project, name, command, why);
            k in t.services && Appends(s.services[k].log, t.services[k].log, if Key(project, name) == k then [RefusedMark(why)] else [])
  {
    LogContinues(s, k);
  }

  lemma HeldWrites(s: State, project: string, name: string, command: string, claim: PortClaim,
                   deps: seq<string>, failure: Option<string>, free: set<nat>, k: string)
    requires Inv(s) && k in s.services
    ensures var t, key := Held(s, project, name, command, claim, deps, failure, free), Key(project, name);
            && k in t.services
            && Appends(s.services[k].log, t.services[k].log,
                       if key == k then [HoldLine(Claimed(s.services, s.owners, key, claim, free).0, deps, failure)] else [])
  {
    LogContinues(s, k);
    var (port, owners) := Claimed(s.services, s.owners, Key(project, name), claim, free);
    if port.Err? {
      OwnersDoNotMatter(s, owners);
      RefusedWrites(s.(owners := owners), project, name, command, port.error, k);
    }
  }

  /** A log is as it was, or says last why that service was refused. */
  predicate MayRefuse(s: State, t: State, key: string, k: string)
    requires k in s.services
  {
    && k in t.services
    && var texts := Added(s.services[k].log, t.services[k].log);
       && Appends(s.services[k].log, t.services[k].log, texts)
       && (texts != [] ==> key == k && t.services[k].status == Failed && texts[0].RefusedMark?)
  }

  lemma RefusedMay(s: State, req: Request, why: Refusal, k: string)
    requires Entries(s) && k in s.services
    ensures MayRefuse(s, Refused(s, req.project, req.name, req.command, why), req.Id(), k)
  {
    RefusedWrites(s, req.project, req.name, req.command, why, k);
    AddedOne(s.services[k].log, RefusedMark(why));
  }

  lemma StartedWrites(s: State, req: Request, free: set<nat>, spawned: Option<nat>, k: string)
    requires Inv(s) && k in s.services
    ensures MayRefuse(s, Started(s, req, free, spawned), req.Id(), k)
  {
    var key := req.Id();
    if !(key in s.services && s.services[key].Busy()) {
      var (t, port) := ClaimedState(s, req, free);
      if key in s.services {
        RetiredKeeps(s, key);
      }
      OwnersDoNotMatter(if key in s.services then Retired(s, key) else s, t.owners);
      AfterClaimWrites(t, req, port, spawned, k);
    }
  }

  lemma LaunchedWrites(s: State, req: Request, port: nat, launch: Launch, group: nat, k: string)
    requires Entries(s) && k in s.services
    ensures k in Launched(s, req, port, launch, group).services
    ensures Launched(s, req, port, launch, group).services[k].log == s.services[k].log
  {
    LogContinues(s, k);
  }

  lemma AfterClaimWrites(s: State, req: Request, port: Result<nat, Refusal>, spawned: Option<nat>, k: string)
    requires Inv(s) && k in s.services
    ensures MayRefuse(s, AfterClaim(s, req, port, spawned), req.Id(), k)
  {
    if port.Err? {
      RefusedMay(s, req, port.error, k);
    } else {
      var resolved := Resolved(req, PortsOf(s.services, req.project, req.name, port.value));
      if resolved.Err? {
        RefusedMay(s, req, resolved.error, k);
      } else if spawned.Some? {
        LaunchedWrites(s, req, port.value, resolved.value, spawned.value, k);
      }
    }
  }

  lemma StoppingWrites(s: State, a: Action, k: string)
    requires (a.Stop? || a.StopPrevious? || a.Remove? || a.StopProject? || a.StopAll?) && Possible(s, a)
    requires k in s.services && k in Step(s, a).services
    ensures Appends(s.services[k].log, Step(s, a).services[k].log, if a.StopPrevious? && a.key == k then [RestartingMark] else [])
  {
    if a.StopPrevious? && k == a.key {
      assert Step(s, a).services[k].log == Pushed(s.services[k].log, RestartingMark);
    }
  }

  /**
   * Whatever happens to a service, its log goes on where it was, across
   * restarts, holds, refusals and stops: one action adds at most one line,
   * which says what happened, and nothing else is said.
   */
  lemma StepWrites(s: State, a: Action, k: string)
    requires Inv(s) && Possible(s, a) && k in s.services && k in Step(s, a).services
    ensures var before, f := s.services[k].log, Step(s, a).services[k];
            Appends(before, f.log, Added(before, f.log)) && Says(s, a, k, f, Added(before, f.log))
  {
    if a.Start? {
      StartedWrites(s, a.req, a.free, a.spawned, k);
    } else if a.Hold? {
      HeldWrites(s, a.project, a.name, a.command, a.claim, a.deps, a.failure, a.free, k);
    } else if a.Drain? {
      DrainWrites(s, k);
    } else {
      OthersWrite(s, a, k);
    }
  }

  lemma OthersWrite(s: State, a: Action, k: string)
    requires Entries(s) && Possible(s, a) && k in s.services && k in Step(s, a).services
    requires !a.Start? && !a.Hold? && !a.Drain?
    ensures var before, f := s.services[k].log, Step(s, a).services[k];
            Appends(before, f.log, Added(before, f.log)) && Says(s, a, k, f, Added(before, f.log))
  {
    if a.FailStart? {
      RefusedWrites(s, a.project, a.name, a.command, Given(a.message), k);
    } else if !a.Task? {
      StoppingWrites(s, a, k);
    }
  }

  lemma DrainWrites(s: State, k: string)
    requires s.applied < |s.sent| && k in s.services
    ensures k in Drained(s).services
    ensures var before, f, event := s.services[k], Drained(s).services[k], s.sent[s.applied];
            var texts := Added(before.log, f.log);
            && Appends(before.log, f.log, texts)
            && if event.key == k && event.runId == before.runId then Logs(before, f, event, texts) else texts == []
  {
    AppliedIdentity(s, s.sent[s.applied], k);
    AppliedIs(s.services[k], s.sent[s.applied]);
  }

  // ----- whole runs -----

  /** `after` continues `before`: no number is reused, skipped or rewritten. */
  ghost predicate Continues(before: Ring, after: Ring)
  {
    && before.nextSeq <= after.nextSeq && Contiguous(after)
    && forall i, j | 0 <= i < |before.lines| && 0 <= j < |after.lines| && before.lines[i].number == after.lines[j].number ::
         before.lines[i] == after.lines[j]
  }

  lemma AppendsContinues(before: Ring, after: Ring, texts: seq<Text>)
    requires Contiguous(before) && Appends(before, after, texts)
    ensures Continues(before, after)
  {
    if texts != [] {
      PushKeepsContiguous(before, texts[0]);
    }
  }

  lemma StepContinuesLog(s: State, a: Action, k: string)
    requires Inv(s) && Possible(s, a) && k in s.services && k in Step(s, a).services
    ensures Continues(s.services[k].log, Step(s, a).services[k].log)
  {
    StepWrites(s, a, k);
    assert EntryOk(s, k, s.services[k]);
    AppendsContinues(s.services[k].log, Step(s, a).services[k].log, Added(s.services[k].log, Step(s, a).services[k].log));
  }

  // ----- a client that polls the log of a running system -----

  datatype Watching = Watching(s: State, cursor: nat, seen: seq<Text>)

  datatype WatchStep = Act(a: Action) | Read

  /** Reading the log of `k` with the returned cursor; of a service that is gone nothing is read. */
  function Watched(w: Watching, k: string, step: WatchStep): Watching
  {
    match step
    case Act(a) => if Possible(w.s, a) then w.(s := Step(w.s, a)) else w
    case Read =>
      if k !in w.s.services then w.(cursor := 0)
      else
        var (lines, next) := Window(w.s.services[k].log, w.cursor, None);
        w.(cursor := next, seen := w.seen + TextsOf(lines))
  }

  function WatchRun(w: Watching, k: string, steps: seq<WatchStep>): Watching
  {
    if steps == [] then w else Watched(WatchRun(w, k, steps[..|steps| - 1]), k, steps[|steps| - 1])
  }

  function PolledOf(w: Watching, k: string): Polled
    requires k in w.s.services
  {
    Polled(w.s.services[k].log, w.cursor, w.seen)
  }

  /** The service is there all along. */
  ghost predicate Stays(w: Watching, k: string, steps: seq<WatchStep>)
  {
    forall n | 0 <= n <= |steps| :: k in WatchRun(w, k, steps[..n]).s.services
  }

  /** What one step is to the log of `k` and its client: a poll, or the line that it added, if any. */
  function LogSteps(w: Watching, k: string, step: WatchStep): seq<LogStep>
  {
    match step
    case Read => [Poll]
    case Act(a) =>
      if Possible(w.s, a) && k in w.s.services && k in Step(w.s, a).services then
        Arrivals(Added(w.s.services[k].log, Step(w.s, a).services[k].log))
      else []
  }

  function Arrivals(texts: seq<Text>): seq<LogStep>
  {
    if texts == [] then [] else [Arrive(texts[0])]
  }

  function LogOf(w: Watching, k: string, steps: seq<WatchStep>): seq<LogStep>
  {
    if steps == [] then []
    else
      var init, last := steps[..|steps| - 1], steps[|steps| - 1];
      LogOf(w, k, init) + LogSteps(WatchRun(w, k, init), k, last)
  }

  lemma PollRunOn(p: Polled, front: seq<LogStep>, end: seq<LogStep>)
    requires |end| <= 1
    ensures PollRun(p, front + end) == if end == [] then PollRun(p, front) else PollStep(PollRun(p, front), end[0])
  {
    if end == [] {
      assert front + end == front;
    } else {
      assert (front + end)[..|front + end| - 1] == front;
    }
  }

  /** Whatever the system does, one step is a line that arrives, a poll, or nothing to the client. */
  lemma WatchedIsPolled(w: Watching, k: string, step: WatchStep)
    requires Inv(w.s) && k in w.s.services && k in Watched(w, k, step).s.services
    ensures Inv(Watched(w, k, step).s) && |LogSteps(w, k, step)| <= 1
    ensures var log := LogSteps(w, k, step);
            PolledOf(Watched(w, k, step), k) == if log == [] then PolledOf(w, k) else PollStep(PolledOf(w, k), log[0])
  {
    if step.Act? && Possible(w.s, step.a) {
      StepKeeps(w.s, step.a);
      StepWrites(w.s, step.a, k);
    }
  }

  lemma {:induction false} WatchIsPolling(w: Watching, k: string, steps: seq<WatchStep>)
    requires Inv(w.s) && Stays(w, k, steps)
    ensures var after := WatchRun(w, k, steps);
            && k in w.s.services && k in after.s.services && Inv(after.s)
            && PolledOf(after, k) == PollRun(PolledOf(w, k), LogOf(w, k, steps))
  {
    assert steps[..0] == [] && steps[..|steps|] == steps;
    if steps != [] {
      var init, last := steps[..|steps| - 1], steps[|steps| - 1];
      assert forall n | 0 <= n <= |init| :: init[..n] == steps[..n];
      WatchIsPolling(w, k, init);
      WatchedIsPolled(WatchRun(w, k, init), k, last);
      PollRunOn(PolledOf(w, k), LogOf(w, k, init), LogSteps(WatchRun(w, k, init), k, last));
    }
  }

  /**
   * Over every run of the system in which the service stays, a client that
   * polls with the returned cursor sees every line it had not read exactly
   * once, in order, if and only if no poll finds more than 2000 of them.
   */
  lemma WatchingIsExact(w: Watching, k: string, steps: seq<WatchStep>, start: seq<Text>)
    requires Inv(w.s) && Stays(w, k, steps) && k in w.s.services && Following(PolledOf(w, k), start)
    ensures var after, log := WatchRun(w, k, steps), LogOf(w, k, steps);
            && k in after.s.services
            && (after.seen == w.seen + Delivered(start, log) <==> Gentle(start, log))
  {
    WatchIsPolling(w, k, steps);
    PollingIsExact(PolledOf(w, k), start, LogOf(w, k, steps));
  }

  // ----- process output -----

  /** The lines of process output among the texts that arrive. */
  function OutputOf(log: seq<LogStep>): seq<string>
  {
    if log == [] then []
    else
      var last := log[|log| - 1];
      OutputOf(log[..|log| - 1]) + if last.Arrive? && last.text.Output? then [last.text.line] else []
  }

  /** The lines of the applied log events of the run that `k` stood for. */
  function Heard(w: Watching, k: string, steps: seq<WatchStep>): seq<string>
  {
    if steps == [] then []
    else
      var init, last := steps[..|steps| - 1], steps[|steps| - 1];
      Heard(w, k, init) + HeardIn(WatchRun(w, k, init).s, k, last)
  }

  function HeardIn(s: State, k: string, step: WatchStep): seq<string>
  {
    if step == Act(Drain) && s.applied < |s.sent| && k in s.services then
      var event := s.sent[s.applied];
      if event.LogEvent? && event.key == k && event.runId == s.services[k].runId then [event.line] else []
    else []
  }

  lemma OutputOn(front: seq<LogStep>, end: seq<LogStep>)
    requires |end| <= 1
    ensures OutputOf(front + end) == OutputOf(front) + OutputOf(end)
  {
    if end == [] {
      assert front + end == front;
    } else {
      assert (front + end)[..|front + end| - 1] == front && end[..0] == [];
    }
  }

  /** A marker is no output. */
  lemma StepOutput(w: Watching, k: string, step: WatchStep)
    requires Inv(w.s) && k in w.s.services && k in Watched(w, k, step).s.services
    ensures OutputOf(LogSteps(w, k, step)) == HeardIn(w.s, k, step)
  {
    assert forall one: LogStep :: [one][..0] == [];
    if step.Act? && Possible(w.s, step.a) {
      StepWrites(w.s, step.a, k);
    }
  }

  /**
   * Over every run of the system in which the service stays, the process output
   * that its log is given is exactly, line by line and in order, that of the
   * applied log events of the runs it stood for.
   */
  lemma {:induction false} OutputIsHeard(w: Watching, k: string, steps: seq<WatchStep>)
    requires Inv(w.s) && Stays(w, k, steps)
    ensures OutputOf(LogOf(w, k, steps)) == Heard(w, k, steps)
  {
    if steps != [] {
      var init, last := steps[..|steps| - 1], steps[|steps| - 1];
      assert forall n | 0 <= n <= |init| :: init[..n] == steps[..n];
      assert steps[..|steps|] == steps;
      OutputIsHeard(w, k, init);
      WatchIsPolling(w, k, init);
      WatchedIsPolled(WatchRun(w, k, init), k, last);
      StepOutput(WatchRun(w, k, init), k, last);
      OutputOn(LogOf(w, k, init), LogSteps(WatchRun(w, k, init), k, last));
    }
  }

  // ----- where events come from -----

  /** What a process of run `r` prints by the action, standard error behind its mark. */
  function PrintedBy(a: Action, r: nat): seq<string>
  {
    if a.Task? && a.run == r && a.step.SendLine? then [if a.step.onStderr then "[err] " + a.step.line else a.step.line] else []
  }

  /** The lines that the processes of run `r` printed, in order. */
  function Printed(actions: seq<Action>, r: nat): seq<string>
  {
    if actions == [] then []
    else
      var init, a := actions[..|actions| - 1], actions[|actions| - 1];
      Printed(init, r) + if Possible(Exec(INITIAL, init), a) then PrintedBy(a, r) else []
  }

  /** The lines of the log events of run `r`. */
  function SentLines(sent: seq<Event>, r: nat): seq<string>
  {
    if sent == [] then []
    else
      var last := sent[|sent| - 1];
      SentLines(sent[..|sent| - 1], r) + if last.LogEvent? && last.runId == r then [last.line] else []
  }

  lemma SentLinesOn(sent: seq<Event>, events: seq<Event>, r: nat)
    requires |events| <= 1
    ensures SentLines(sent + events, r) ==
            SentLines(sent, r) + if events != [] && events[0].LogEvent? && events[0].runId == r then [events[0].line] else []
  {
    if events == [] {
      assert sent + events == sent;
    } else {
      assert (sent + events)[..|sent + events| - 1] == sent;
    }
  }

  /** An operation sends nothing, or the failure of a start that it refuses. */
  predicate TellsFailure(s: State, t: State)
  {
    t.sent == s.sent || exists k <- t.services :: t.sent == s.sent + [StatusChange(k, s.nextRunId, Failed, None)]
  }

  lemma StartTells(s: State, req: Request, free: set<nat>, spawned: Option<nat>)
    ensures TellsFailure(s, Started(s, req, free, spawned))
  {
    var (t, port) := ClaimedState(s, req, free);
    assert t.sent == s.sent && t.nextRunId == s.nextRunId;
    AfterClaimTells(t, req, port, spawned);
  }

  lemma AfterClaimTells(s: State, req: Request, port: Result<nat, Refusal>, spawned: Option<nat>)
    ensures TellsFailure(s, AfterClaim(s, req, port, spawned))
  {
  }

  lemma OperationTells(s: State, a: Action)
    requires Possible(s, a) && !a.Task?
    ensures TellsFailure(s, Step(s, a))
  {
    if a.Start? {
      StartTells(s, a.req, a.free, a.spawned);
    }
  }

  /** What is in the channel of a run's log lines is what its processes printed, line by line and in order. */
  lemma {:induction false} PrintedIsSent(actions: seq<Action>, r: nat)
    ensures SentLines(Exec(INITIAL, actions).sent, r) == Printed(actions, r)
  {
    if actions != [] {
      var init, a := actions[..|actions| - 1], actions[|actions| - 1];
      PrintedIsSent(init, r);
      if Possible(Exec(INITIAL, init), a) {
        StepSendsLine(Exec(INITIAL, init), a, r);
      }
    }
  }

  lemma StepSendsLine(s: State, a: Action, r: nat)
    requires Possible(s, a)
    ensures SentLines(Step(s, a).sent, r) ==
            SentLines(s.sent, r) + PrintedBy(a, r)
  {
    if a.Task? {
      SentLinesOn(s.sent, TaskEvents(s.runs[a.run], a.run, a.step), r);
    } else {
      OperationTells(s, a);
      if Step(s, a).sent != s.sent {
        var k :| k in Step(s, a).services && Step(s, a).sent == s.sent + [StatusChange(k, s.nextRunId, Failed, None)];
        SentLinesOn(s.sent, [StatusChange(k, s.nextRunId, Failed, None)], r);
      }
    }
  }

  /** The process of run `r` ended with this code. */
  predicate Reaps(actions: seq<Action>, r: nat, clean: bool, code: Option<int>)
  {
    Task(r, Reap(clean, code)) in actions
  }

  /** What the waiter of a run carries is what was reaped. */
  predicate Carries(waiter: WaiterPc, actions: seq<Action>, r: nat)
  {
    match waiter
    case Waiting => true
    case Reaped(clean, code) => Reaps(actions, r, clean, code)
    case StoredSettled(clean, code) => Reaps(actions, r, clean, code)
    case StoredExited(clean, code) => Reaps(actions, r, clean, code)
    case Decided(clean, code, status) => Reaps(actions, r, clean, code) && (clean ==> status == Stopped)
    case Sent(_, _) => true
  }

  /** A report that run `r` exited. */
  predicate IsExit(event: Event, r: nat)
  {
    event.StatusChange? && event.runId == r && (event.status == Stopped || event.status == Failed)
  }

  /** An exit that is reported was reaped, with the code that is reported, and as a stop if it was clean. */
  ghost predicate ExitsTrue(s: State, actions: seq<Action>)
  {
    && (forall r <- s.runs :: Carries(s.runs[r].waiter, actions, r))
    && forall i, r | 0 <= i < |s.sent| && r in s.runs && IsExit(s.sent[i], r) ::
         exists clean :: Reaps(actions, r, clean, s.sent[i].exitCode) && (clean ==> s.sent[i].status == Stopped)
  }

  lemma MoreActions(s: State, actions: seq<Action>, a: Action)
    requires ExitsTrue(s, actions)
    ensures ExitsTrue(s, actions + [a])
  {
    forall r, clean, code | Reaps(actions, r, clean, code)
      ensures Reaps(actions + [a], r, clean, code)
    {
    }
    forall i, r | 0 <= i < |s.sent| && r in s.runs && IsExit(s.sent[i], r)
      ensures exists clean :: Reaps(actions + [a], r, clean, s.sent[i].exitCode) && (clean ==> s.sent[i].status == Stopped)
    {
      var clean :| Reaps(actions, r, clean, s.sent[i].exitCode) && (clean ==> s.sent[i].status == Stopped);
      assert Reaps(actions + [a], r, clean, s.sent[i].exitCode);
    }
  }

  lemma TaskExits(s: State, r: nat, step: TaskStep, actions: seq<Action>)
    requires r in s.runs && Enabled(s.runs[r], step) && Task(r, step) in actions && ExitsTrue(s, actions)
    ensures ExitsTrue(Tasked(s, r, step), actions)
  {
    var t, events := Tasked(s, r, step), TaskEvents(s.runs[r], r, step);
    assert Carries(s.runs[r].waiter, actions, r);
    forall i, q | 0 <= i < |t.sent| && q in t.runs && IsExit(t.sent[i], q)
      ensures exists clean :: Reaps(actions, q, clean, t.sent[i].exitCode) && (clean ==> t.sent[i].status == Stopped)
    {
      if i < |s.sent| {
        assert t.sent[i] == s.sent[i];
      } else {
        assert t.sent[i] == events[i - |s.sent|] && step.SendExit?;
        assert Reaps(actions, q, s.runs[r].waiter.clean, t.sent[i].exitCode);
      }
    }
  }

  /** The runs after an operation: those before it, some of them flagged, and at most a new one whose waiter has not begun. */
  predicate RunsGoOn(s: State, t: State)
  {
    forall r <- t.runs ::
      if r in s.runs then t.runs[r].waiter == s.runs[r].waiter else r == s.nextRunId && t.runs[r].waiter.Waiting? && t.sent == s.sent
  }

  lemma OperationRuns(s: State, a: Action)
    requires Entries(s) && Possible(s, a) && !a.Task?
    ensures RunsGoOn(s, Step(s, a))
  {
    if a.Start? {
      StartRuns(s, a.req, a.free, a.spawned);
    }
  }

  lemma StartRuns(s: State, req: Request, free: set<nat>, spawned: Option<nat>)
    requires Entries(s) && s.nextRunId !in s.runs
    ensures RunsGoOn(s, Started(s, req, free, spawned))
  {
    var (t, port) := ClaimedState(s, req, free);
    assert RunsGoOn(s, t) && t.runs.Keys == s.runs.Keys && t.nextRunId == s.nextRunId && t.sent == s.sent;
    AfterClaimRuns(t, req, port, spawned);
  }

  lemma AfterClaimRuns(s: State, req: Request, port: Result<nat, Refusal>, spawned: Option<nat>)
    requires s.nextRunId !in s.runs
    ensures RunsGoOn(s, AfterClaim(s, req, port, spawned))
  {
    if port.Ok? {
      var resolved := Resolved(req, PortsOf(s.services, req.project, req.name, port.value));
      if resolved.Ok? && spawned.Some? {
        assert RunsGoOn(s, Launched(s, req, port.value, resolved.value, spawned.value));
      }
    }
  }

  lemma OperationExits(s: State, a: Action, actions: seq<Action>)
    requires Inv(s) && Possible(s, a) && !a.Task? && ExitsTrue(s, actions)
    ensures ExitsTrue(Step(s, a), actions)
  {
    var t := Step(s, a);
    OperationRuns(s, a);
    OperationTells(s, a);
    forall i, r | 0 <= i < |t.sent| && r in t.runs && IsExit(t.sent[i], r)
      ensures exists clean :: Reaps(actions, r, clean, t.sent[i].exitCode) && (clean ==> t.sent[i].status == Stopped)
    {
      assert i < |s.sent| ==> t.sent[i] == s.sent[i] && s.sent[i].runId < s.nextRunId;
      assert r in s.runs ==> r < s.nextRunId;
      assert i < |s.sent| && r in s.runs;
    }
  }

  /**
   * In every run: a reported exit of a run was reaped from its process, with
   * the code that is reported, and a clean one is reported as a stop.
   */
  lemma {:induction false} ExitsAreTrue(actions: seq<Action>)
    ensures ExitsTrue(Exec(INITIAL, actions), actions)
  {
    if actions != [] {
      var init, a := actions[..|actions| - 1], actions[|actions| - 1];
      var s := Exec(INITIAL, init);
      ExitsAreTrue(init);
      EveryRunKeeps(init);
      assert init + [a] == actions;
      MoreActions(s, init, a);
      if Possible(s, a) {
        if a.Task? {
          TaskExits(s, a.run, a.step, actions);
        } else {
          OperationExits(s, a, actions);
        }
      }
    }
  }
}
