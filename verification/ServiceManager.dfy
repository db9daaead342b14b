/** The service manager of src/service, operation by operation, against the state functions of `ServiceState`. */
module ServiceManager {
  import opened Basics
  import Decimal
  import opened PortTable
  import opened PortRefs
  import opened ServiceLog
  import opened ServiceState

  class ManagedService {
    const name: string
    const project: string
    const command: string
    const originalPort: nat
    const allocatedPort: nat
    const portPinned: bool
    const runId: nat
    var status: Status
    var logs: seq<LogLine>
    var nextSeq: nat
    var portWarning: Option<PortWarning>
    var pgid: Option<nat>
    var alive: bool
    var waitingOn: seq<string>

    constructor (e: Entry)
      ensures View() == e
    {
      name, project, command, originalPort := e.name, e.project, e.command, e.originalPort;
      allocatedPort, portPinned, runId := e.allocatedPort, e.pinned, e.runId;
      status, logs, nextSeq, portWarning := e.status, e.log.lines, e.log.nextSeq, e.warning;
      pgid, alive, waitingOn := e.pgid, e.alive, e.waitingOn;
    }

    function View(): Entry
      reads this
    {
      Entry(name, project, command, status, Ring(logs, nextSeq), originalPort, allocatedPort, portPinned,
            portWarning, pgid, alive, runId, waitingOn)
    }

    method PushLog(text: Text)
      modifies this`logs, this`nextSeq
      ensures View() == old(View()).(log := Pushed(old(View()).log, text))
    {
      var lines := logs + [LogLine(nextSeq, text)];
      nextSeq := nextSeq + 1;
      if |lines| > RETAINED {
        lines := lines[|lines| - RETAINED..];
      }
      logs := lines;
    }

    /** The part of `stop_key` that edits the entry; hands out the group to kill. */
    method TakeDown() returns (group: Option<nat>)
      modifies this
      ensures View() == StoppedEntry(old(View())) && group == old(View()).pgid
    {
      alive := false;
      portWarning := None;
      group := pgid;
      pgid := None;
      status := Stopped;
      waitingOn := [];
    }

    /** The part of `start` that declares an older run dead. */
    method Retire() returns (group: Option<nat>)
      modifies this
      ensures View() == RetiredEntry(old(View())) && group == old(View()).pgid
    {
      alive := false;
      group := pgid;
      pgid := None;
    }

    /** `apply_event` on an entry of the event's own run. */
    method Apply(event: Event)
      requires event.runId == runId
      modifies this
      ensures View() == AppliedTo(old(View()), event)
    {
      match event {
        case LogEvent(_, _, line) =>
          PushLog(Output(line));
        case StatusChange(_, _, newStatus, code) =>
          if newStatus == Running && !alive {
            return;
          }
          var exited := alive && (newStatus == Stopped || newStatus == Failed);
          if exited {
            alive := false;
            portWarning := None;
          }
          var oldStatus := status;
          status := newStatus;
          if oldStatus != newStatus || exited {
            PushLog(Marker(newStatus, code));
          }
        case NotReady(_, _, reason) =>
          if status != Starting {
            return;
          }
          status := Failed;
          PushLog(NotReadyMark(reason));
        case PortProbe(_, _, answered, listening) =>
          if alive {
            portWarning := Assess(allocatedPort, answered, status == Running, listening);
          }
        case LateReady(_, _) =>
          var pending := status == Starting || status == Failed;
          if alive && pending {
            status := Running;
            PushLog(ReadyLateMark);
          }
      }
    }
  }

  class Manager {
    const table: Table
    var services: map<string, ManagedService>
    var nextRunId: nat
    /** The atomics and task positions of every spawned run. */
    var runs: map<nat, Run>
    /** The event channel, and how far the daemon has applied it. */
    var sent: seq<Event>
    /** What each entry holds. */
    ghost var views: map<string, Entry>
    ghost var applied: nat
    ghost var spawned: set<nat>
    ghost var killed: set<nat>

    constructor (table: Table)
      requires table.owners == map[]
      ensures this.table == table && Valid() && Snapshot() == INITIAL
    {
      this.table := table;
      services, nextRunId, runs, sent := map[], 1, map[], [];
      views, applied, spawned, killed := map[], 0, {}, {};
    }

    /** `views` tells what the objects hold, and no object stands for two services. */
    ghost predicate Valid()
      reads `services, `views, services.Values
    {
      && views.Keys == services.Keys
      && (forall k | k in services :: services[k].View() == views[k])
      && (forall k, j | k in services && j in services && services[k] == services[j] :: k == j)
    }

    ghost function Snapshot(): State
      reads this, table
    {
      State(views, table.owners, nextRunId, runs, sent, applied, spawned, killed)
    }

    function Entries(): map<string, Entry>
      requires Valid()
      reads this, services.Values
      ensures Entries() == views
    {
      map k | k in services :: services[k].View()
    }

    /** Insert a new object under `key`. */
    method Put(key: string, entry: Entry)
      requires Valid()
      modifies this`services, this`views
      ensures Valid() && fresh(services.Values - old(services.Values))
      ensures Snapshot() == old(Snapshot()).(services := old(views)[key := entry])
    {
      var managed := new ManagedService(entry);
      assert managed !in services.Values;
      services := services[key := managed];
      views := views[key := entry];
    }

    method KillGroup(pgid: Option<nat>)
      modifies this`killed
      ensures killed == old(killed) + Group(pgid)
    {
      killed := killed + Group(pgid);
    }

    /** `stopping.store(true)`: a flag no task shares has nobody to tell. */
    method StoreStopping(r: nat)
      modifies this`runs
      ensures runs == Flagged(old(runs), r)
    {
      if r in runs {
        runs := runs[r := runs[r].(stopping := true)];
      }
    }

    /** The end of every stop: the run is told, and its group killed. */
    method FlagAndKill(r: nat, pgid: Option<nat>)
      requires Valid()
      modifies this`runs, this`killed
      ensures Valid()
      ensures Snapshot() == old(Snapshot()).(runs := Flagged(old(runs), r), killed := old(killed) + Group(pgid))
    {
      StoreStopping(r);
      KillGroup(pgid);
    }

    method ClaimPort(key: string, claim: PortClaim, free: set<nat>) returns (r: Result<nat, Refusal>)
      requires Valid()
      modifies table
      ensures (r, table.owners) == Claimed(views, old(table.owners), key, claim, free)
    {
      var reserved := None;
      if key in services && services[key].waitingOn != [] && claim.port > 0 {
        var port := services[key].allocatedPort;
        if claim.range.0 <= port <= claim.range.1 && (claim.pin == Auto || port == claim.port) {
          reserved := Some(port);
        }
      }
      if reserved.Some? && claim.conflict.None? {
        return Ok(reserved.value);
      }
      table.Release(key);
      if claim.conflict.Some? {
        return Err(RangeConflict(claim.conflict.value));
      }
      if claim.port == 0 {
        return Ok(0);
      }
      var given := table.Allocate(claim.range, key, claim.port, claim.pin, free);
      match given {
        case Ok(port) => return Ok(port);
        case Err(error) => return Err(NoPort(error));
      }
    }

    /** The log and group of the entry a new one replaces. */
    method Existing(key: string) returns (logs: seq<LogLine>, pgid: Option<nat>)
      requires Valid()
      ensures logs == LinesOf(Snapshot(), key) && pgid == PgidOf(Snapshot(), key)
    {
      if key in services {
        assert services[key].View() == views[key];
        return services[key].logs, services[key].pgid;
      }
      return [], None;
    }

    /** Put a process-less entry of a new run under `key`, its log continued by `line`, its old group kept. */
    method ReplaceEntry(project: string, name: string, command: string, status: Status, originalPort: nat,
                        allocatedPort: nat, pinned: bool, deps: seq<string>, line: Text) returns (runId: nat)
      requires Valid()
      modifies this`services, this`views, this`nextRunId
      ensures Valid() && fresh(services.Values - old(services.Values))
      ensures runId == old(nextRunId)
      ensures Snapshot() == Processless(old(Snapshot()), project, name, command, status, originalPort, allocatedPort,
                                        pinned, deps, line)
    {
      var key := Key(project, name);
      // An exited run's group stays reachable, so the next start or stop reaps it.
      var logs, pgid := Existing(key);
      runId := TakeRunId();
      Put(key, Entry(name, project, command, status, Pushed(Resumed(logs), line), originalPort, allocatedPort, pinned,
                     None, pgid, false, runId, deps));
    }

    method TakeRunId() returns (runId: nat)
      requires Valid()
      modifies this`nextRunId
      ensures Valid() && runId == old(nextRunId)
      ensures Snapshot() == old(Snapshot()).(nextRunId := runId + 1)
    {
      runId := nextRunId;
      nextRunId := nextRunId + 1;
    }

    method RecordStartFailure(project: string, name: string, command: string, why: Refusal)
      requires Valid()
      modifies this, table
      ensures Valid() && fresh(services.Values - old(services.Values))
      ensures Snapshot() == Refused(old(Snapshot()), project, name, command, why)
    {
      var key := Key(project, name);
      table.Release(key);
      var runId := ReplaceEntry(project, name, command, Failed, 0, 0, false, [], RefusedMark(why));
      sent := sent + [StatusChange(key, runId, Failed, None)];
    }

    method Hold(project: string, name: string, command: string, claim: PortClaim,
                deps: seq<string>, failure: Option<string>, free: set<nat>)
      requires Valid()
      modifies this, table
      ensures Valid() && fresh(services.Values - old(services.Values))
      ensures Snapshot() == Held(old(Snapshot()), project, name, command, claim, deps, failure, free)
    {
      var key := Key(project, name);
      var claimed := ClaimPort(key, claim, free);
      if claimed.Err? {
        RecordStartFailure(project, name, command, claimed.error);
        return;
      }
      HoldClaimed(project, name, command, claim, claimed.value, deps, failure);
    }

    method HoldClaimed(project: string, name: string, command: string, claim: PortClaim, port: nat,
                       deps: seq<string>, failure: Option<string>)
      requires Valid()
      modifies this
      ensures Valid() && fresh(services.Values - old(services.Values))
      ensures Snapshot() == HeldAt(old(Snapshot()), project, name, command, claim, port, deps, failure)
    {
      var key := Key(project, name);
      var status := if failure.Some? then Failed else Starting;
      var line := if failure.Some? then RefusedMark(Given(failure.value)) else WaitingMark(deps);
      var runId := ReplaceEntry(project, name, command, status, claim.port, port, claim.pin == Strict, deps, line);
      if failure.Some? {
        sent := sent + [StatusChange(key, runId, Failed, None)];
      }
    }

    /** The healthcheck, command and environment with their ports, or the first reference that refuses the start. */
    method ResolveRequest(req: Request, ports: PortMap) returns (r: Result<Launch, Refusal>)
      ensures r == Resolved(req, ports)
    {
      var url: Option<string> := None;
      if req.healthUrl.Some? {
        var text := Interpolate(req.healthUrl.value, ports);
        url := Some(text);
        var missing := UnresolvedPortRef([text], ports);
        if missing.Some? {
          return Err(HealthRef(missing.value, missing.value == req.name));
        }
      }
      var command := Interpolate(req.command, ports);
      var missing := UnresolvedPortRef([command], ports);
      if missing.Some? {
        return Err(CommandRef(missing.value));
      }
      var env, values := InterpolateEnv(req.env, ports);
      missing := UnresolvedPortRef(values, ports);
      if missing.Some? {
        return Err(EnvRef(missing.value));
      }
      return Ok(Launch(command, env, url));
    }

    method InterpolateEnv(vars: seq<Var>, ports: PortMap) returns (env: map<string, string>, values: seq<string>)
      ensures env == Environment(vars, ports) && values == AllInterpolated(ValuesOf(vars), ports)
    {
      env, values := map[], [];
      for i := 0 to |vars|
        invariant env == Environment(vars[..i], ports)
        invariant |values| == i && forall j | 0 <= j < i :: values[j] == Interpolated(vars[j].value, ports)
      {
        var value := Interpolate(vars[i].value, ports);
        NextVariable(vars, i, ports);
        env := env[vars[i].name := value];
        values := values + [value];
      }
      assert vars[..|vars|] == vars;
    }

    /** Before a new start: any process of the entry is flagged, declared dead and killed. */
    method Retire(key: string)
      requires Valid() && key in services
      modifies this`runs, this`killed, this`views, services.Values
      ensures Valid()
      ensures Snapshot() == Retired(old(Snapshot()), key)
    {
      var runId, oldPgid := RetireEntry(key);
      FlagAndKill(runId, oldPgid);
    }

    method RetireEntry(key: string) returns (runId: nat, group: Option<nat>)
      requires Valid() && key in services
      modifies this`views, services.Values
      ensures Valid() && Snapshot() == old(Snapshot()).(services := old(views)[key := RetiredEntry(old(views)[key])])
      ensures runId == old(views)[key].runId && group == old(views)[key].pgid
    {
      var existing := services[key];
      assert existing.View() == views[key];
      runId := existing.runId;
      group := existing.Retire();
      views := views[key := existing.View()];
    }

    method Start(req: Request, free: set<nat>, group: Option<nat>)
      requires Valid()
      modifies this, services.Values, table
      ensures Valid() && fresh(services.Values - old(services.Values))
      ensures Snapshot() == Started(old(Snapshot()), req, free, group)
    {
      var busy := IsBusy(Key(req.project, req.name));
      if busy {
        return;
      }
      var claimed := ClaimAnew(req, free);
      assert services == old(services);
      StartClaimed(req, claimed, group);
    }

    /** Whether `start` leaves the service alone. */
    method IsBusy(key: string) returns (busy: bool)
      requires Valid()
      ensures busy <==> key in views && views[key].Busy()
    {
      if key !in services {
        return false;
      }
      var existing := services[key];
      assert views[key] == existing.View();
      return (existing.status == Running || existing.status == Starting) && existing.waitingOn == [];
    }

    /** The first part of `start`: no older process survives, and the port is claimed. */
    method ClaimAnew(req: Request, free: set<nat>) returns (claimed: Result<nat, Refusal>)
      requires Valid()
      modifies this`runs, this`killed, this`views, services.Values, table
      ensures Valid()
      ensures (Snapshot(), claimed) == ClaimedState(old(Snapshot()), req, free)
    {
      var key := Key(req.project, req.name);
      if key in services {
        Retire(key);
      }
      claimed := ClaimPort(key, req.claim, free);
    }

    /** The rest of `start`: refuse, or resolve the placeholders and spawn. */
    method StartClaimed(req: Request, claimed: Result<nat, Refusal>, group: Option<nat>)
      requires Valid()
      modifies this, table
      ensures Valid() && fresh(services.Values - old(services.Values))
      ensures Snapshot() == AfterClaim(old(Snapshot()), req, claimed, group)
    {
      if claimed.Err? {
        RecordStartFailure(req.project, req.name, req.command, claimed.error);
        return;
      }
      var port := claimed.value;
      var resolved := ResolveRequest(req, PortsOf(Entries(), req.project, req.name, port));
      if resolved.Err? {
        RecordStartFailure(req.project, req.name, req.command, resolved.error);
        return;
      }
      if group.Some? {
        Spawned(req, port, resolved.value, group.value);
      }
    }

    /** After the spawn: the new entry, its flags and its tasks. */
    method Spawned(req: Request, port: nat, launch: Launch, group: nat)
      requires Valid()
      modifies this
      ensures Valid() && fresh(services.Values - old(services.Values))
      ensures Snapshot() == Launched(old(Snapshot()), req, port, launch, group)
    {
      var key := Key(req.project, req.name);
      var logs, _ := Existing(key);
      var runId := AddRun(key, if port > 0 then launch.(env := map["PORT" := Decimal.Print(port)] + launch.env) else launch, group);
      Put(key, Entry(req.name, req.project, req.command, Starting, Resumed(logs), req.claim.port, port,
                     req.claim.pin == Strict, None, Some(group), true, runId, []));
    }

    /** A new run id, with its flags and its process group. */
    method AddRun(key: string, launch: Launch, group: nat) returns (runId: nat)
      requires Valid()
      modifies this`nextRunId, this`runs, this`spawned
      ensures Valid() && runId == old(nextRunId)
      ensures Snapshot() == old(Snapshot()).(nextRunId := runId + 1, runs := old(runs)[runId := NewRun(key, launch, group)],
                                             spawned := old(spawned) + {group})
    {
      runId := TakeRunId();
      runs := runs[runId := NewRun(key, launch, group)];
      spawned := spawned + {group};
    }

    method StopKey(key: string)
      requires Valid()
      modifies this`runs, this`killed, this`views, services.Values
      ensures Valid()
      ensures Snapshot() == KeyStopped(old(Snapshot()), key)
    {
      if key in services {
        var runId, pgid := TakeDownEntry(key);
        FlagAndKill(runId, pgid);
      }
    }

    method TakeDownEntry(key: string) returns (runId: nat, group: Option<nat>)
      requires Valid() && key in services
      modifies this`views, services.Values
      ensures Valid() && Snapshot() == old(Snapshot()).(services := old(views)[key := StoppedEntry(old(views)[key])])
      ensures runId == old(views)[key].runId && group == old(views)[key].pgid
    {
      var svc := services[key];
      assert svc.View() == views[key];
      runId := svc.runId;
      group := svc.TakeDown();
      views := views[key := svc.View()];
    }

    method Stop(key: string)
      requires Valid()
      modifies this`runs, this`killed, this`views, services.Values, table
      ensures Valid()
      ensures Snapshot() == ServiceStopped(old(Snapshot()), key)
    {
      StopKey(key);
      table.Release(key);
    }

    method StopPreviousRun(key: string)
      requires Valid()
      modifies this`runs, this`killed, this`views, services.Values, table
      ensures Valid()
      ensures Snapshot() == PreviousRunStopped(old(Snapshot()), key)
    {
      if key in services {
        MarkRestart(key);
      }
      Stop(key);
    }

    method MarkRestart(key: string)
      requires Valid() && key in services
      modifies this`views, services.Values
      ensures Valid()
      ensures views == old(views)[key := old(views)[key].(log := Pushed(old(views)[key].log, RestartingMark))]
    {
      var svc := services[key];
      assert svc.View() == views[key];
      svc.PushLog(RestartingMark);
      views := views[key := svc.View()];
    }

    method Remove(key: string)
      requires Valid()
      modifies this, services.Values, table
      ensures Valid()
      ensures Snapshot() == ServiceRemoved(old(Snapshot()), key)
    {
      StopKey(key);
      Forget(key);
      table.Release(key);
    }

    method Forget(key: string)
      requires Valid()
      modifies this`services, this`views
      ensures Valid() && Snapshot() == old(Snapshot()).(services := old(views) - {key})
    {
      services := services - {key};
      views := views - {key};
    }

    /** `stop_key` on each of `keys`. */
    method StopKeys(keys: set<string>)
      requires Valid() && keys <= services.Keys
      modifies this`runs, this`killed, this`views, services.Values
      ensures Valid()
      ensures Snapshot() == KeysStopped(old(Snapshot()), keys)
    {
      var rest := keys;
      ghost var before := Snapshot();
      NoKeysStopped(before);
      while rest != {}
        invariant rest <= keys && Valid()
        invariant Snapshot() == KeysStopped(before, keys - rest)
      {
        var key :| key in rest;
        OneMoreStopped(before, keys - rest, key);
        OneMoreDone(keys, rest, key);
        StopKey(key);
        rest := rest - {key};
      }
      assert keys - rest == keys;
    }

    method StopProject(project: string)
      requires Valid()
      modifies this`runs, this`killed, this`views, services.Values, table
      ensures Valid()
      ensures Snapshot() == ProjectStopped(old(Snapshot()), project)
    {
      var keys := set k | k in services && project + "/" <= k;
      assert keys == ProjectKeys(Snapshot(), project);
      StopKeys(keys);
      table.ReleaseProject(project);
    }

    method StopAll()
      requires Valid()
      modifies this`runs, this`killed, this`views, services.Values, table
      ensures Valid()
      ensures Snapshot() == AllStopped(old(Snapshot()))
    {
      var projects := set k | k in services :: services[k].project;
      assert projects == set k | k in views :: views[k].project;
      StopKeys(services.Keys);
      ReleaseProjects(projects);
    }

    method ReleaseProjects(projects: set<string>)
      modifies table
      ensures table.owners == WithoutProjects(old(table.owners), projects)
    {
      var rest := projects;
      while rest != {}
        invariant rest <= projects
        invariant table.owners == WithoutProjects(old(table.owners), projects - rest)
      {
        var project :| project in rest;
        table.ReleaseProject(project);
        OneMoreDone(projects, rest, project);
        OneMoreProject(old(table.owners), projects - rest, project);
        rest := rest - {project};
      }
      assert projects - rest == projects;
    }

    /** Apply the next event of the channel. */
    method ApplyEvent(event: Event)
      requires Valid() && applied < |sent| && event == sent[applied]
      modifies this`applied, this`views, services.Values
      ensures Valid()
      ensures Snapshot() == Drained(old(Snapshot()))
    {
      applied := applied + 1;
      if event.key in services {
        assert services[event.key].View() == views[event.key];
        if services[event.key].runId == event.runId {
          Deliver(event);
        }
      }
    }

    method Deliver(event: Event)
      requires Valid() && event.key in services && services[event.key].runId == event.runId
      modifies this`views, services.Values
      ensures Valid()
      ensures Snapshot() == old(Snapshot()).(services := old(views)[event.key := AppliedTo(old(views)[event.key], event)])
    {
      var svc := services[event.key];
      assert svc.View() == views[event.key];
      svc.Apply(event);
      views := views[event.key := svc.View()];
    }
  }

  lemma NextVariable(vars: seq<Var>, i: nat, ports: PortMap)
    requires i < |vars|
    ensures Environment(vars[..i + 1], ports) == Environment(vars[..i], ports)[vars[i].name := Interpolated(vars[i].value, ports)]
  {
    assert vars[..i + 1][..i] == vars[..i];
  }

  lemma OneMoreDone(all: set<string>, rest: set<string>, x: string)
    requires x in rest && rest <= all
    ensures all - (rest - {x}) == all - rest + {x}
  {
  }

  lemma OneMoreProject(owners: Owners, done: set<string>, project: string)
    ensures ProjectReleased(WithoutProjects(owners, done), project) == WithoutProjects(owners, done + {project})
  {
    forall p | p in owners
      ensures (exists q | q in done + {project} :: q + "/" <= owners[p])
              <==> (exists q | q in done :: q + "/" <= owners[p]) || project + "/" <= owners[p]
    {
      assert project in done + {project};
    }
  }

  lemma NoKeysStopped(s: State)
    ensures KeysStopped(s, {}) == s
  {
    assert KeysStopped(s, {}).runs == s.runs;
  }

  lemma OneMoreStopped(s: State, done: set<string>, key: string)
    requires key in s.services && key !in done
    ensures KeyStopped(KeysStopped(s, done), key) == KeysStopped(s, done + {key})
  {
    var t, u := KeyStopped(KeysStopped(s, done), key), KeysStopped(s, done + {key});
    assert t.services == u.services;
    OneMoreFlagged(s, done, key);
    assert t.killed == u.killed;
  }

  lemma OneMoreFlagged(s: State, done: set<string>, key: string)
    requires key in s.services && key !in done
    ensures KeyStopped(KeysStopped(s, done), key).runs == KeysStopped(s, done + {key}).runs
  {
    var t, u := KeyStopped(KeysStopped(s, done), key), KeysStopped(s, done + {key});
    forall r | r in s.runs
      ensures t.runs[r] == u.runs[r]
    {
      assert key in done + {key};
      assert (exists k | k in done + {key} :: k in s.services && s.services[k].runId == r)
        <==> (exists k | k in done :: k in s.services && s.services[k].runId == r) || s.services[key].runId == r;
    }
  }
}
