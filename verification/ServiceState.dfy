/**
 * What each operation of the service manager does, as a function of the whole
 * system's state: the manager's entries, the port map, the flags and program
 * counters of every run's tasks, the event channel, and (for the proofs) every
 * process group spawned and killed.
 */
module ServiceState {
  import opened Basics
  import Decimal
  import opened PortTable
  import opened PortRefs
  import opened ServiceLog

  datatype Status = Starting | Running | Stopped | Failed

  datatype PortWarning = PortWarning(expected: nat, listening: seq<nat>)

  datatype Entry = Entry(
    name: string,
    project: string,
    command: string,
    status: Status,
    log: Ring,
    originalPort: nat,
    allocatedPort: nat,
    pinned: bool,
    warning: Option<PortWarning>,
    pgid: Option<nat>,
    alive: bool,
    runId: nat,
    waitingOn: seq<string>)
  {
    predicate Held() { waitingOn != [] }

    /** `start` leaves such an entry alone. */
    predicate Busy() { (status == Running || status == Starting) && !Held() }
  }

  datatype Event =
    | LogEvent(key: string, runId: nat, line: string)
    | StatusChange(key: string, runId: nat, status: Status, exitCode: Option<int>)
    | NotReady(key: string, runId: nat, reason: string)
    | PortProbe(key: string, runId: nat, answered: bool, listening: seq<nat>)
    | LateReady(key: string, runId: nat)

  /** Where a service's port comes from. */
  datatype PortClaim = PortClaim(range: (nat, nat), pin: PortPin, port: nat, conflict: Option<string>)

  /** A variable of an environment. */
  datatype Var = Var(name: string, value: string)

  /** What a start asks for. `env` lists the environment in the order in which it is read. */
  datatype Request = Request(
    project: string, name: string, claim: PortClaim, command: string, env: seq<Var>, healthUrl: Option<string>)
  {
    function Id(): string { Key(project, name) }
  }

  /** What is handed to a spawned process, placeholders replaced. */
  datatype Launch = Launch(command: string, env: map<string, string>, healthUrl: Option<string>)

  // ----- one run's tasks -----

  /** Progress of the reporter that won `settle`. */
  datatype ReadyPc = NotWon | Won | Chosen(late: bool) | Announced

  /** Progress of the monitor's single timeout report. */
  datatype MonitorPc = Probing | SawUnsettled | MarkedLate | Reported | Quit

  /** Progress of the exit waiter. */
  datatype WaiterPc =
    | Waiting
    | Reaped(clean: bool, code: Option<int>)
    | StoredSettled(clean: bool, code: Option<int>)
    | StoredExited(clean: bool, code: Option<int>)
    | Decided(clean: bool, code: Option<int>, status: Status)
    | Sent(clean: bool, status: Status)

  /** The atomics a run's tasks share, where each task is, and the process group it was spawned in. */
  datatype Run = Run(
    key: string, stopping: bool, settled: bool, exited: bool, timedOut: bool,
    ready: ReadyPc, monitor: MonitorPc, waiter: WaiterPc, launch: Launch, group: nat)

  datatype TaskStep =
    | TrySettle
    | LoadTimedOut
    | SendReady
    | LoadSettled
    | SwapTimedOut
    | SendNotReady(reason: string)
    | Reap(clean: bool, code: Option<int>)
    | StoreSettled
    | StoreExited
    | LoadStopping
    | SendExit
    | SendLine(onStderr: bool, line: string)
    | SendProbe(answered: bool, listening: seq<nat>)

  function NewRun(key: string, launch: Launch, group: nat): Run
  {
    Run(key, false, false, false, false, NotWon, Probing, Waiting, launch, group)
  }

  /**
   * Whether a task can take the step. Any log reader, and the monitor, may try
   * to settle at any time, so `TrySettle` is always possible.
   */
  predicate Enabled(run: Run, step: TaskStep)
  {
    match step
    case TrySettle => true
    case LoadTimedOut => run.ready == Won
    case SendReady => run.ready.Chosen?
    case LoadSettled => run.monitor == Probing
    case SwapTimedOut => run.monitor == SawUnsettled
    case SendNotReady(_) => run.monitor == MarkedLate
    case Reap(_, _) => run.waiter == Waiting
    case StoreSettled => run.waiter.Reaped?
    case StoreExited => run.waiter.StoredSettled?
    case LoadStopping => run.waiter.StoredExited?
    case SendExit => run.waiter.Decided?
    case SendLine(_, _) => true
    case SendProbe(_, _) => true
  }

  /** One atomic access, or one send, of a task. */
  function TaskRun(run: Run, step: TaskStep): Run
    requires Enabled(run, step)
  {
    match step
    case TrySettle => if run.settled then run else run.(settled := true, ready := Won)
    case LoadTimedOut => run.(ready := Chosen(run.timedOut))
    case SendReady => run.(ready := Announced)
    case LoadSettled => run.(monitor := if run.settled then Quit else SawUnsettled)
    case SwapTimedOut => if run.timedOut then run.(monitor := Quit) else run.(timedOut := true, monitor := MarkedLate)
    case SendNotReady(_) => run.(monitor := Reported)
    case Reap(clean, code) => run.(waiter := Reaped(clean, code))
    case StoreSettled => run.(settled := true, waiter := StoredSettled(run.waiter.clean, run.waiter.code))
    case StoreExited => run.(exited := true, waiter := StoredExited(run.waiter.clean, run.waiter.code))
    case LoadStopping =>
      run.(waiter := Decided(run.waiter.clean, run.waiter.code, if run.stopping || run.waiter.clean then Stopped else Failed))
    case SendExit => run.(waiter := Sent(run.waiter.clean, run.waiter.status))
    case SendLine(_, _) => run
    case SendProbe(_, _) => run
  }

  /** What the step sends, if anything. */
  function TaskEvents(run: Run, r: nat, step: TaskStep): seq<Event>
    requires Enabled(run, step)
  {
    match step
    case SendReady => [if run.ready.late then LateReady(run.key, r) else StatusChange(run.key, r, Running, None)]
    case SendNotReady(reason) => [NotReady(run.key, r, reason)]
    case SendExit => [StatusChange(run.key, r, run.waiter.status, run.waiter.code)]
    case SendLine(onStderr, line) => [LogEvent(run.key, r, if onStderr then "[err] " + line else line)]
    case SendProbe(answered, listening) => [PortProbe(run.key, r, answered, listening)]
    case _ => []
  }

  // ----- applying an event -----

  function Assess(expected: nat, answered: bool, running: bool, listening: seq<nat>): Option<PortWarning>
  {
    var others := Others(listening, expected);
    if !answered && (running || others != []) then Some(PortWarning(expected, others)) else None
  }

  function Others(listening: seq<nat>, expected: nat): seq<nat>
  {
    if listening == [] then []
    else (if listening[0] != expected then [listening[0]] else []) + Others(listening[1..], expected)
  }

  function Marker(status: Status, code: Option<int>): Text
  {
    match status
    case Running => RunningMark
    case Stopped => StoppedMark
    case Failed => ExitedMark(code)
    case Starting => StartingMark
  }

  /** An event of the entry's own run. */
  function AppliedTo(e: Entry, event: Event): Entry
  {
    match event
    case LogEvent(_, _, line) => e.(log := Pushed(e.log, Output(line)))
    case StatusChange(_, _, status, code) =>
      if status == Running && !e.alive then e
      else
        var exited := e.alive && (status == Stopped || status == Failed);
        var after := if exited then e.(alive := false, warning := None, status := status) else e.(status := status);
        if e.status != status || exited then after.(log := Pushed(e.log, Marker(status, code))) else after
    case NotReady(_, _, reason) =>
      if e.status != Starting then e else e.(status := Failed, log := Pushed(e.log, NotReadyMark(reason)))
    case PortProbe(_, _, answered, listening) =>
      if !e.alive then e
      else e.(warning := Assess(e.allocatedPort, answered, e.status == Running, listening))
    case LateReady(_, _) =>
      if !e.alive || !(e.status == Starting || e.status == Failed) then e
      else e.(status := Running, log := Pushed(e.log, ReadyLateMark))
  }

  function Apply(services: map<string, Entry>, event: Event): map<string, Entry>
  {
    if event.key in services && services[event.key].runId == event.runId
    then services[event.key := AppliedTo(services[event.key], event)]
    else services
  }

  // ----- the whole system -----

  datatype State = State(
    services: map<string, Entry>,
    owners: Owners,
    nextRunId: nat,
    runs: map<nat, Run>,
    sent: seq<Event>,
    applied: nat,
    spawned: set<nat>,
    killed: set<nat>)

  const INITIAL: State := State(map[], map[], 1, map[], [], 0, {}, {})

  function Flagged(runs: map<nat, Run>, r: nat): map<nat, Run>
  {
    if r in runs then runs[r := runs[r].(stopping := true)] else runs
  }

  function Group(pgid: Option<nat>): set<nat> { if pgid.Some? then {pgid.value} else {} }

  function LinesOf(s: State, key: string): seq<LogLine>
  {
    if key in s.services then s.services[key].log.lines else []
  }

  function PgidOf(s: State, key: string): Option<nat>
  {
    if key in s.services then s.services[key].pgid else None
  }

  function RetiredEntry(e: Entry): Entry { e.(alive := false, pgid := None) }

  /** Before a new start: the old run is flagged, declared dead, and its group killed. */
  function Retired(s: State, key: string): State
    requires key in s.services
  {
    var e := s.services[key];
    s.(services := s.services[key := RetiredEntry(e)],
       runs := Flagged(s.runs, e.runId),
       killed := s.killed + Group(e.pgid))
  }

  /** The port a held entry reserved, while it still satisfies the claim. */
  function Reservation(services: map<string, Entry>, key: string, claim: PortClaim): Option<nat>
  {
    if key in services && services[key].Held() && claim.port > 0 then
      var port := services[key].allocatedPort;
      if claim.range.0 <= port <= claim.range.1 && (claim.pin == Auto || port == claim.port) then Some(port) else None
    else None
  }

  function Claimed(services: map<string, Entry>, owners: Owners, key: string, claim: PortClaim, free: set<nat>)
    : (Result<nat, Refusal>, Owners)
  {
    var reserved := Reservation(services, key, claim);
    if reserved.Some? && claim.conflict.None? then (Ok(reserved.value), owners)
    else
      var rest := Released(owners, key);
      if claim.conflict.Some? then (Err(RangeConflict(claim.conflict.value)), rest)
      else if claim.port > 0 then
        match Allocation(rest, free, claim.range, claim.port, claim.pin)
        case Ok(port) => (Ok(port), rest[port := key])
        case Err(error) => (Err(NoPort(error)), rest)
      else (Ok(0), rest)
  }

  /** A process-less entry of a new run: the log goes on with `line`, an exited run's group stays reachable. */
  function Processless(s: State, project: string, name: string, command: string, status: Status, originalPort: nat,
                       allocatedPort: nat, pinned: bool, deps: seq<string>, line: Text): State
  {
    var key := Key(project, name);
    var log := Pushed(Resumed(LinesOf(s, key)), line);
    s.(services := s.services[key := Entry(name, project, command, status, log, originalPort, allocatedPort, pinned,
                                           None, PgidOf(s, key), false, s.nextRunId, deps)],
       nextRunId := s.nextRunId + 1)
  }

  function WithEvent(s: State, event: Event): State { s.(sent := s.sent + [event]) }

  /** A refused start: a `Failed` entry under a new run id, and its status change sent. */
  function Refused(s: State, project: string, name: string, command: string, why: Refusal): State
  {
    var key := Key(project, name);
    var t := s.(owners := Released(s.owners, key));
    WithEvent(Processless(t, project, name, command, Failed, 0, 0, false, [], RefusedMark(why)),
              StatusChange(key, s.nextRunId, Failed, None))
  }

  /** A process-less entry held on `deps`: `Starting`, or `Failed` with a reason. */
  function Held(s: State, project: string, name: string, command: string, claim: PortClaim,
                deps: seq<string>, failure: Option<string>, free: set<nat>): State
  {
    var key := Key(project, name);
    var (port, owners) := Claimed(s.services, s.owners, key, claim, free);
    var t := s.(owners := owners);
    if port.Err? then Refused(t, project, name, command, port.error)
    else HeldAt(t, project, name, command, claim, port.value, deps, failure)
  }

  function HeldAt(s: State, project: string, name: string, command: string, claim: PortClaim, port: nat,
                  deps: seq<string>, failure: Option<string>): State
  {
    if failure.None? then
      Processless(s, project, name, command, Starting, claim.port, port, claim.pin == Strict, deps, WaitingMark(deps))
    else
      WithEvent(Processless(s, project, name, command, Failed, claim.port, port, claim.pin == Strict, deps,
                            RefusedMark(Given(failure.value))),
                StatusChange(Key(project, name), s.nextRunId, Failed, None))
  }

  /** Allocated ports of a project's services by name. */
  function PortsOf(services: map<string, Entry>, project: string, name: string, port: nat): PortMap
  {
    var names := set k | k in services :: services[k].name;
    var known: PortMap := map n | n in names && Key(project, n) in services
                               && services[Key(project, n)].project == project
                               && services[Key(project, n)].name == n
                               && services[Key(project, n)].allocatedPort > 0
                          :: services[Key(project, n)].allocatedPort;
    if port > 0 then known[name := port] else known
  }

  function ValuesOf(env: seq<Var>): (values: seq<string>)
    ensures |values| == |env| && forall i | 0 <= i < |values| :: values[i] == env[i].value
  {
    seq(|env|, i requires 0 <= i < |env| => env[i].value)
  }

  /** The variables, one set after the other. */
  function Environment(env: seq<Var>, ports: PortMap): map<string, string>
  {
    if env == [] then map[]
    else
      var v := env[|env| - 1];
      Environment(env[..|env| - 1], ports)[v.name := Interpolated(v.value, ports)]
  }

  /** A process is told its own port, unless the request sets that variable. */
  function WithPort(launch: Launch, port: nat): Launch
  {
    if port > 0 then launch.(env := map["PORT" := Decimal.Print(port)] + launch.env) else launch
  }

  function AllInterpolated(values: seq<string>, ports: PortMap): (out: seq<string>)
    ensures |out| == |values|
    ensures forall i | 0 <= i < |out| :: out[i] == Interpolated(values[i], ports)
  {
    seq(|values|, i requires 0 <= i < |values| => Interpolated(values[i], ports))
  }

  /** What the request launches, or the reference that refuses it: healthcheck first, then command, then environment. */
  function Resolved(req: Request, ports: PortMap): Result<Launch, Refusal>
  {
    var url := if req.healthUrl.Some? then Some(Interpolated(req.healthUrl.value, ports)) else None;
    var inUrl := if url.Some? then FirstMissingIn([url.value], ports) else None;
    var command := Interpolated(req.command, ports);
    var inCommand := FirstMissingIn([command], ports);
    var inEnv := FirstMissingIn(AllInterpolated(ValuesOf(req.env), ports), ports);
    if inUrl.Some? then Err(HealthRef(inUrl.value, inUrl.value == req.name))
    else if inCommand.Some? then Err(CommandRef(inCommand.value))
    else if inEnv.Some? then Err(EnvRef(inEnv.value))
    else Ok(Launch(command, Environment(req.env, ports), url))
  }

  /** A spawned process: a `Starting` entry, alive, with its group, and a fresh set of tasks. */
  function Launched(s: State, req: Request, port: nat, launch: Launch, group: nat): State
  {
    var key := req.Id();
    var entry := Entry(req.name, req.project, req.command, Starting, Resumed(LinesOf(s, key)), req.claim.port, port,
                       req.claim.pin == Strict, None, Some(group), true, s.nextRunId, []);
    s.(services := s.services[key := entry],
       nextRunId := s.nextRunId + 1,
       runs := s.runs[s.nextRunId := NewRun(key, WithPort(launch, port), group)],
       spawned := s.spawned + {group})
  }

  /** The state in which `start` has claimed its port. */
  function ClaimedState(s: State, req: Request, free: set<nat>): (State, Result<nat, Refusal>)
  {
    var s1 := if req.Id() in s.services then Retired(s, req.Id()) else s;
    var (port, owners) := Claimed(s1.services, s1.owners, req.Id(), req.claim, free);
    (s1.(owners := owners), port)
  }

  /** What `start` does once the port is claimed. */
  function AfterClaim(s: State, req: Request, port: Result<nat, Refusal>, spawned: Option<nat>): State
  {
    if port.Err? then Refused(s, req.project, req.name, req.command, port.error)
    else
      match Resolved(req, PortsOf(s.services, req.project, req.name, port.value))
      case Err(why) => Refused(s, req.project, req.name, req.command, why)
      case Ok(launch) => if spawned.None? then s else Launched(s, req, port.value, launch, spawned.value)
  }

  /**
   * Start a service. `spawned` is the new process group, or None when spawning
   * fails; that path returns early and leaves the entry half-updated.
   */
  function Started(s: State, req: Request, free: set<nat>, spawned: Option<nat>): State
  {
    if req.Id() in s.services && s.services[req.Id()].Busy() then s
    else
      var (t, port) := ClaimedState(s, req, free);
      AfterClaim(t, req, port, spawned)
  }

  /** `stop_key`. */
  function StoppedEntry(e: Entry): Entry
  {
    e.(alive := false, warning := None, pgid := None, status := Stopped, waitingOn := [])
  }

  function KeyStopped(s: State, key: string): State
  {
    if key !in s.services then s
    else
      var e := s.services[key];
      s.(services := s.services[key := StoppedEntry(e)],
         runs := Flagged(s.runs, e.runId),
         killed := s.killed + Group(e.pgid))
  }

  function ServiceStopped(s: State, key: string): State
  {
    var s1 := KeyStopped(s, key);
    s1.(owners := Released(s1.owners, key))
  }

  function PreviousRunStopped(s: State, key: string): State
  {
    var s1 := if key in s.services
              then s.(services := s.services[key := s.services[key].(log := Pushed(s.services[key].log, RestartingMark))])
              else s;
    ServiceStopped(s1, key)
  }

  function ServiceRemoved(s: State, key: string): State
  {
    var s1 := ServiceStopped(s, key);
    s1.(services := s1.services - {key})
  }

  /** `stop_key` on every key of a set, in any order. */
  function KeysStopped(s: State, keys: set<string>): State
  {
    s.(services := map k | k in s.services :: if k in keys then StoppedEntry(s.services[k]) else s.services[k],
       runs := map r | r in s.runs ::
                 if exists k | k in keys :: k in s.services && s.services[k].runId == r
                 then s.runs[r].(stopping := true) else s.runs[r],
       killed := s.killed + (set k | k in keys && k in s.services && s.services[k].pgid.Some? :: s.services[k].pgid.value))
  }

  function ProjectKeys(s: State, project: string): set<string>
  {
    set k | k in s.services && project + "/" <= k
  }

  function ProjectStopped(s: State, project: string): State
  {
    var s1 := KeysStopped(s, ProjectKeys(s, project));
    s1.(owners := ProjectReleased(s1.owners, project))
  }

  function AllStopped(s: State): State
  {
    var projects := set k | k in s.services :: s.services[k].project;
    var s1 := KeysStopped(s, s.services.Keys);
    s1.(owners := WithoutProjects(s1.owners, projects))
  }

  function WithoutProjects(owners: Owners, projects: set<string>): Owners
  {
    map p | p in owners && !(exists q | q in projects :: q + "/" <= owners[p]) :: owners[p]
  }

  /** The next queued event is applied. */
  function Drained(s: State): State
    requires s.applied < |s.sent|
  {
    s.(services := Apply(s.services, s.sent[s.applied]), applied := s.applied + 1)
  }

  /** A task's step: what it sends joins the queue. */
  function Tasked(s: State, r: nat, step: TaskStep): State
    requires r in s.runs && Enabled(s.runs[r], step)
  {
    s.(runs := s.runs[r := TaskRun(s.runs[r], step)], sent := s.sent + TaskEvents(s.runs[r], r, step))
  }

  // ----- runs of the system -----

  datatype Action =
    | Start(req: Request, free: set<nat>, spawned: Option<nat>)
    | Hold(project: string, name: string, command: string, claim: PortClaim, deps: seq<string>, failure: Option<string>, free: set<nat>)
    | FailStart(project: string, name: string, command: string, message: string)
    | Stop(key: string)
    | StopPrevious(key: string)
    | Remove(key: string)
    | StopProject(project: string)
    | StopAll
    | Drain
    | Task(run: nat, step: TaskStep)

  /** Whether the action can happen: a spawned group is new, a task can take its step, an event is queued. */
  predicate Possible(s: State, a: Action)
  {
    match a
    case Start(_, _, spawned) => spawned.Some? ==> spawned.value !in s.spawned
    case Task(r, step) => r in s.runs && Enabled(s.runs[r], step)
    case Drain => s.applied < |s.sent|
    case _ => true
  }

  function Step(s: State, a: Action): State
    requires Possible(s, a)
  {
    match a
    case Start(req, free, spawned) => Started(s, req, free, spawned)
    case Hold(project, name, command, claim, deps, failure, free) =>
      Held(s, project, name, command, claim, deps, failure, free)
    case FailStart(project, name, command, message) => Refused(s, project, name, command, Given(message))
    case Stop(key) => ServiceStopped(s, key)
    case StopPrevious(key) => PreviousRunStopped(s, key)
    case Remove(key) => ServiceRemoved(s, key)
    case StopProject(project) => ProjectStopped(s, project)
    case StopAll => AllStopped(s)
    case Drain => Drained(s)
    case Task(r, step) => Tasked(s, r, step)
  }

  /** The state after a sequence of actions; an impossible one is skipped. */
  function Exec(s: State, actions: seq<Action>): State
  {
    if actions == [] then s
    else
      var t := Exec(s, actions[..|actions| - 1]);
      var a := actions[|actions| - 1];
      if Possible(t, a) then Step(t, a) else t
  }
}
