/** What a started process is handed: its command, environment and healthcheck, over which ports, or why it is refused. */
module ServiceLaunches {
  import opened Basics
  import Decimal
  import opened PortTable
  import opened PortRefs
  import opened ServiceLog
  import opened ServiceState
  import opened ServiceInvariants
  import opened ServiceTheorems
  import opened ServicePorts

  // ----- known ports -----

  /** An entry of the project with that name has that port. */
  ghost predicate HasPort(services: map<string, Entry>, project: string, name: string, port: nat)
  {
    exists k :: k in services && services[k].project == project && services[k].name == name && services[k].allocatedPort == port
  }

  /** The ports placeholders of `name` may name: those of the project's entries, its own new one before any older one. */
  ghost predicate Knows(services: map<string, Entry>, project: string, name: string, port: nat, ports: PortMap)
  {
    forall n, p: nat ::
      n in ports && ports[n] == p <==>
        p > 0 && if n == name && port > 0 then p == port else HasPort(services, project, n, p)
  }

  lemma PortsOfKnows(s: State, project: string, name: string, port: nat)
    requires Entries(s)
    ensures Knows(s.services, project, name, port, PortsOf(s.services, project, name, port))
  {
    var ports := PortsOf(s.services, project, name, port);
    forall n, p: nat | !(n == name && port > 0)
      ensures n in ports && ports[n] == p <==> p > 0 && HasPort(s.services, project, n, p)
    {
      if HasPort(s.services, project, n, p) {
        var k :| k in s.services && s.services[k].project == project && s.services[k].name == n && s.services[k].allocatedPort == p;
        assert EntryOk(s, k, s.services[k]) && k == Key(project, n);
      }
    }
  }

  // ----- what is handed over -----

  /** The last value an environment gives a variable. */
  predicate Sets(env: seq<Var>, i: nat)
    requires i < |env|
  {
    forall j | i < j < |env| :: env[j].name != env[i].name
  }

  predicate Gives(env: seq<Var>, name: string) { exists i | 0 <= i < |env| :: env[i].name == name }

  /**
   * The process gets its command, every variable that is set and its healthcheck
   * with the ports put in, and nothing else but its own port in `PORT`.
   */
  ghost predicate Handed(req: Request, ports: PortMap, port: nat, launch: Launch)
  {
    && launch.command == Interpolated(req.command, ports)
    && (launch.healthUrl.Some? <==> req.healthUrl.Some?)
    && (req.healthUrl.Some? ==> launch.healthUrl.value == Interpolated(req.healthUrl.value, ports))
    && (forall i | 0 <= i < |req.env| && Sets(req.env, i) ::
          req.env[i].name in launch.env && launch.env[req.env[i].name] == Interpolated(req.env[i].value, ports))
    && (forall name <- launch.env :: Gives(req.env, name) || (name == "PORT" && port > 0))
    && (port > 0 && !Gives(req.env, "PORT") ==> "PORT" in launch.env && Decimal.Spells(launch.env["PORT"], port))
  }

  lemma {:induction false} EnvironmentGives(env: seq<Var>, ports: PortMap, name: string)
    ensures name in Environment(env, ports) <==> Gives(env, name)
  {
    if env != [] {
      var n := |env| - 1;
      EnvironmentGives(env[..n], ports, name);
      assert Gives(env, name) <==> Gives(env[..n], name) || env[n].name == name by {
        if Gives(env[..n], name) {
          var i :| 0 <= i < n && env[..n][i].name == name;
          assert env[i].name == name;
        }
        if i :| 0 <= i < |env| && env[i].name == name {
          assert i < n ==> env[..n][i].name == name;
        }
      }
    }
  }

  lemma {:induction false} EnvironmentSets(env: seq<Var>, ports: PortMap, i: nat)
    requires i < |env| && Sets(env, i)
    ensures env[i].name in Environment(env, ports)
    ensures Environment(env, ports)[env[i].name] == Interpolated(env[i].value, ports)
  {
    var n := |env| - 1;
    if i < n {
      assert forall j | i < j < n :: env[..n][j].name != env[..n][i].name;
      EnvironmentSets(env[..n], ports, i);
    }
  }

  lemma HandsWithPort(req: Request, ports: PortMap, port: nat, launch: Launch)
    requires forall name :: name in launch.env <==> Gives(req.env, name)
    requires Handed(req, ports, 0, launch)
    ensures Handed(req, ports, port, WithPort(launch, port))
  {
    Decimal.ValueOfPrint(port);
  }

  lemma ResolvedHands(req: Request, ports: PortMap, port: nat)
    requires Resolved(req, ports).Ok?
    ensures Handed(req, ports, port, WithPort(Resolved(req, ports).value, port))
  {
    var launch := Resolved(req, ports).value;
    forall i | 0 <= i < |req.env| && Sets(req.env, i)
      ensures req.env[i].name in launch.env && launch.env[req.env[i].name] == Interpolated(req.env[i].value, ports)
    {
      EnvironmentSets(req.env, ports, i);
    }
    forall name
      ensures name in launch.env <==> Gives(req.env, name)
    {
      EnvironmentGives(req.env, ports, name);
    }
    HandsWithPort(req, ports, port, launch);
  }

  // ----- or refused -----

  /** No placeholder of the text names a service without a port. */
  ghost predicate Complete(text: string, ports: PortMap) { NoneUnnamed(Refs(text), ports) }

  /**
   * Why a request is refused: the first service without a port that is named by
   * its healthcheck, else by its command, else by its environment in order.
   */
  ghost predicate Refuses(req: Request, ports: PortMap, why: Refusal)
  {
    match why
    case HealthRef(dep, isSelf) =>
      req.healthUrl.Some? && Misses(req.healthUrl.value, ports, dep) && (isSelf <==> dep == req.name)
    case CommandRef(dep) => UrlComplete(req, ports) && Misses(req.command, ports, dep)
    case EnvRef(dep) =>
      && UrlComplete(req, ports) && Complete(req.command, ports)
      && exists i | 0 <= i < |req.env| ::
           Misses(req.env[i].value, ports, dep) && forall j | 0 <= j < i :: Complete(req.env[j].value, ports)
    case _ => false
  }

  ghost predicate UrlComplete(req: Request, ports: PortMap) { req.healthUrl.Some? ==> Complete(req.healthUrl.value, ports) }

  lemma {:induction false} FirstMissingValue(values: seq<string>, out: seq<string>, ports: PortMap)
    requires |out| == |values| && forall i | 0 <= i < |values| :: out[i] == Interpolated(values[i], ports)
    ensures FirstMissingIn(out, ports).None? <==> forall i | 0 <= i < |values| :: Complete(values[i], ports)
    ensures FirstMissingIn(out, ports).Some? ==>
              exists i | 0 <= i < |values| ::
                Misses(values[i], ports, FirstMissingIn(out, ports).value) && forall j | 0 <= j < i :: Complete(values[j], ports)
  {
    if values != [] {
      MissingIsNamed(values[0], ports);
      var rest, outs := values[1..], out[1..];
      if Complete(values[0], ports) {
        FirstMissingValue(rest, outs, ports);
        assert forall i | 0 <= i < |rest| :: rest[i] == values[i + 1];
        if FirstMissingIn(outs, ports).Some? {
          var i :| 0 <= i < |rest| && Misses(rest[i], ports, FirstMissingIn(outs, ports).value) && forall j | 0 <= j < i :: Complete(rest[j], ports);
          assert Misses(values[i + 1], ports, FirstMissingIn(out, ports).value);
          assert forall j | 0 <= j < i + 1 :: Complete(values[j], ports);
        }
      }
    }
  }

  lemma FirstMissingOne(text: string, out: string, ports: PortMap)
    requires out == Interpolated(text, ports)
    ensures FirstMissingIn([out], ports).None? <==> Complete(text, ports)
    ensures FirstMissingIn([out], ports).Some? ==> Misses(text, ports, FirstMissingIn([out], ports).value)
  {
    MissingIsNamed(text, ports);
    assert [out][1..] == [];
  }

  /** A request is refused exactly if some text of it names a service without a port, and for the first one that is read. */
  lemma RefusedForFirst(req: Request, ports: PortMap)
    ensures match Resolved(req, ports)
            case Err(why) => Refuses(req, ports, why)
            case Ok(_) =>
              UrlComplete(req, ports) && Complete(req.command, ports)
              && forall i | 0 <= i < |req.env| :: Complete(req.env[i].value, ports)
  {
    if req.healthUrl.Some? {
      FirstMissingOne(req.healthUrl.value, Interpolated(req.healthUrl.value, ports), ports);
    }
    FirstMissingOne(req.command, Interpolated(req.command, ports), ports);
    var values := ValuesOf(req.env);
    FirstMissingValue(values, AllInterpolated(values, ports), ports);
    assert forall i | 0 <= i < |values| :: values[i] == req.env[i].value;
  }

  // ----- a start -----

  ghost predicate AllComplete(req: Request, ports: PortMap)
  {
    && UrlComplete(req, ports) && Complete(req.command, ports)
    && forall i | 0 <= i < |req.env| :: Complete(req.env[i].value, ports)
  }

  /** A new run in its own group, handed what the request asks for, and its entry: starting, alive, on its port. */
  ghost predicate Spawns(s: State, t: State, req: Request, port: nat, group: nat, ports: PortMap)
  {
    var k, r := req.Id(), s.nextRunId;
    && t.runs.Keys == s.runs.Keys + {r} && t.spawned == s.spawned + {group}
    && t.runs[r].key == k && t.runs[r].group == group && !t.runs[r].stopping
    && Handed(req, ports, port, t.runs[r].launch)
    && k in t.services
    && var e := t.services[k];
       && e.name == req.name && e.project == req.project && e.command == req.command
       && e.runId == r && e.status == Starting && e.alive && !e.Held() && e.pgid == Some(group)
       && e.allocatedPort == port && e.originalPort == req.claim.port && (e.pinned <==> req.claim.pin == Strict)
       && e.warning.None? && (k in s.services ==> e.log == s.services[k].log) && (k !in s.services ==> e.log == EMPTY)
  }

  /** A failed entry of a new run without a process or a port, whose log ends with the reason. */
  ghost predicate RefusedFor(s: State, t: State, req: Request, why: Refusal)
  {
    var k := req.Id();
    && t.runs.Keys == s.runs.Keys && t.spawned == s.spawned
    && (forall p <- t.owners :: t.owners[p] != k)
    && k in t.services
    && var e := t.services[k];
       && e.runId == s.nextRunId && e.status == Failed && !e.alive && !e.Held() && e.allocatedPort == 0
       && e.log.lines != [] && e.log.lines[|e.log.lines| - 1].text == RefusedMark(why)
  }

  lemma ClaimedKnows(s: State, req: Request, free: set<nat>, port: nat)
    requires Entries(s)
    ensures Knows(s.services, req.project, req.name, port,
                  PortsOf(ClaimedState(s, req, free).0.services, req.project, req.name, port))
  {
    var t := ClaimedState(s, req, free).0;
    PortsOfKnowsKept(s, t, req.project, req.name, port);
  }

  /** What a service may name depends on names and ports only. */
  lemma PortsOfKnowsKept(s: State, t: State, project: string, name: string, port: nat)
    requires Entries(s) && t.services.Keys == s.services.Keys
    requires forall k <- s.services :: t.services[k].project == s.services[k].project && t.services[k].name == s.services[k].name
                                       && t.services[k].allocatedPort == s.services[k].allocatedPort
    ensures Knows(s.services, project, name, port, PortsOf(t.services, project, name, port))
  {
    PortsOfKnows(s, project, name, port);
    assert PortsOf(t.services, project, name, port) == PortsOf(s.services, project, name, port);
  }

  /**
   * A start that is not refused by the claim, of a service that is not busy:
   * over the ports of the project's services, the process is handed what the
   * request asks for if every service it names has a port; else the start is
   * refused for the first one that has none.
   */
  lemma StartHands(s: State, req: Request, free: set<nat>, group: nat) returns (ports: PortMap)
    requires Inv(s) && !IsBusy(s, req.Id()) && ClaimedState(s, req, free).1.Ok?
    ensures var port, t := ClaimedState(s, req, free).1.value, Started(s, req, free, Some(group));
            && Knows(s.services, req.project, req.name, port, ports)
            && if AllComplete(req, ports) then Spawns(s, t, req, port, group, ports)
               else exists why :: Refuses(req, ports, why) && RefusedFor(s, t, req, why)
  {
    var (t, claimed) := ClaimedState(s, req, free);
    var port := claimed.value;
    ports := PortsOf(t.services, req.project, req.name, port);
    ClaimedKnows(s, req, free, port);
    RefusedForFirst(req, ports);
    if Resolved(req, ports).Ok? {
      LaunchedSpawns(s, t, req, port, group, ports);
    } else {
      RefusalIsNotComplete(req, ports, Resolved(req, ports).error);
      RefusedLeaves(s, t, req, Resolved(req, ports).error);
    }
    assert Started(s, req, free, Some(group)) == AfterClaim(t, req, claimed, Some(group));
  }

  /** The state after a claim, as far as a launch goes by it. */
  lemma LaunchedSpawns(s: State, t: State, req: Request, port: nat, group: nat, ports: PortMap)
    requires Entries(s) && Resolved(req, ports).Ok?
    requires t.runs.Keys == s.runs.Keys && t.spawned == s.spawned && t.nextRunId == s.nextRunId
    requires LinesOf(t, req.Id()) == LinesOf(s, req.Id())
    ensures Spawns(s, Launched(t, req, port, Resolved(req, ports).value, group), req, port, group, ports)
  {
    ResolvedHands(req, ports, port);
    LogContinues(s, req.Id());
  }

  lemma RefusalIsNotComplete(req: Request, ports: PortMap, why: Refusal)
    requires Refuses(req, ports, why)
    ensures !AllComplete(req, ports)
  {
    match why
    case HealthRef(dep, _) => MissesIsIncomplete(req.healthUrl.value, ports, dep);
    case CommandRef(dep) => MissesIsIncomplete(req.command, ports, dep);
    case EnvRef(dep) =>
      var i :| 0 <= i < |req.env| && Misses(req.env[i].value, ports, dep);
      MissesIsIncomplete(req.env[i].value, ports, dep);
  }

  lemma MissesIsIncomplete(text: string, ports: PortMap, dep: string)
    requires Misses(text, ports, dep)
    ensures !Complete(text, ports)
  {
    var i :| 0 <= i < |Refs(text)| && Refs(text)[i] == dep + ".port";
    assert Refs(text)[i] in Refs(text);
  }

  lemma RefusedLeaves(s: State, t: State, req: Request, why: Refusal)
    requires t.runs.Keys == s.runs.Keys && t.spawned == s.spawned && t.nextRunId == s.nextRunId
    ensures RefusedFor(s, Refused(t, req.project, req.name, req.command, why), req, why)
  {
  }

  /** Starting or running, and not waiting for a dependency. */
  predicate IsBusy(s: State, k: string)
  {
    k in s.services && (s.services[k].status == Starting || s.services[k].status == Running) && s.services[k].waitingOn == []
  }

  /** A busy service is left alone. */
  lemma StartLeavesBusy(s: State, req: Request, free: set<nat>, spawned: Option<nat>)
    requires IsBusy(s, req.Id())
    ensures Started(s, req, free, spawned) == s
  {
  }

  /** A start that the claim refuses. */
  lemma StartRefused(s: State, req: Request, free: set<nat>, spawned: Option<nat>)
    requires !IsBusy(s, req.Id()) && ClaimedState(s, req, free).1.Err?
    ensures RefusedFor(s, Started(s, req, free, spawned), req, ClaimedState(s, req, free).1.error)
  {
    RefusedLeaves(s, ClaimedState(s, req, free).0, req, ClaimedState(s, req, free).1.error);
  }
}
