/** Who owns which port, over whole runs of the service system, and what a service's log keeps. */
module ServicePorts {
  import opened Basics
  import opened PortTable
  import opened PortRefs
  import opened ServiceLog
  import opened ServiceState
  import opened ServiceInvariants
  import opened ServiceTheorems

  predicate OnePort(owners: Owners)
  {
    forall p, q | p in owners && q in owners && owners[p] == owners[q] :: p == q
  }

  predicate ClaimOk(e: Entry, owners: Owners, k: string)
  {
    (e.alive || e.Held()) && e.allocatedPort > 0 ==> e.allocatedPort in owners && owners[e.allocatedPort] == k
  }

  /** Each key owns at most one port, and a live or held entry with a port owns exactly that one. */
  predicate PortClaims(s: State)
  {
    OnePort(s.owners) && forall k | k in s.services :: ClaimOk(s.services[k], s.owners, k)
  }

  /** The same for every key but one. */
  predicate PortClaimsBut(s: State, key: string)
  {
    OnePort(s.owners) && forall k | k in s.services && k != key :: ClaimOk(s.services[k], s.owners, k)
  }

  lemma ClaimedKeeps(s: State, key: string, claim: PortClaim, free: set<nat>)
    requires PortClaims(s)
    ensures var (port, owners) := Claimed(s.services, s.owners, key, claim, free);
            && PortClaimsBut(s.(owners := owners), key)
            && (port.Ok? && port.value > 0 && Reservation(s.services, key, claim).None? ==>
                  port.value in owners && owners[port.value] == key)
            && (port.Ok? && Reservation(s.services, key, claim).Some? ==>
                  owners == s.owners && port.value == s.services[key].allocatedPort)
  {
    ClaimAfterRelease(s.owners, free, key, claim.range, claim.port, claim.pin);
    var (port, owners) := Claimed(s.services, s.owners, key, claim, free);
    forall k | k in s.services && k != key
      ensures ClaimOk(s.services[k], owners, k)
    {
      assert ClaimOk(s.services[k], s.owners, k);
      var p := s.services[k].allocatedPort;
      assert p in Owned(s.owners, k) <==> p in owners && owners[p] == k;
    }
    var rest := Released(s.owners, key);
    assert forall p | p in rest :: rest[p] != key;
  }

  /** An action that leaves a held entry's port unowned: spawning failed after its reservation was given up. */
  predicate LosesReservation(s: State, a: Action)
  {
    && a.Start? && a.spawned.None?
    && a.req.Id() in s.services
    && s.services[a.req.Id()].Held() && s.services[a.req.Id()].allocatedPort > 0
    && Reservation(s.services, a.req.Id(), a.req.claim).None?
    && ReachesSpawn(s, a.req, a.free)
  }

  /** The port is claimed and every placeholder resolves. */
  predicate ReachesSpawn(s: State, req: Request, free: set<nat>)
  {
    var (t, port) := ClaimedState(s, req, free);
    port.Ok? && Resolved(req, PortsOf(t.services, req.project, req.name, port.value)).Ok?
  }

  lemma RefusedClaims(s: State, project: string, name: string, command: string, why: Refusal)
    requires PortClaimsBut(s, Key(project, name))
    ensures PortClaims(Refused(s, project, name, command, why))
  {
    var key, t := Key(project, name), Refused(s, project, name, command, why);
    assert forall k | k in t.services && k != key :: ClaimOk(s.services[k], s.owners, k);
  }

  lemma HeldClaims(s: State, project: string, name: string, command: string, claim: PortClaim,
                   deps: seq<string>, failure: Option<string>, free: set<nat>)
    requires PortClaims(s)
    ensures PortClaims(Held(s, project, name, command, claim, deps, failure, free))
  {
    var key := Key(project, name);
    ClaimedKeeps(s, key, claim, free);
    var (port, owners) := Claimed(s.services, s.owners, key, claim, free);
    if port.Err? {
      RefusedClaims(s.(owners := owners), project, name, command, port.error);
    } else {
      var t := Held(s, project, name, command, claim, deps, failure, free);
      assert forall k | k in t.services && k != key :: ClaimOk(s.services[k], owners, k);
      if key in s.services {
        assert ClaimOk(s.services[key], s.owners, key);
      }
      assert ClaimOk(t.services[key], t.owners, key);
    }
  }

  lemma RetiredClaims(s: State, key: string)
    requires key in s.services && PortClaims(s)
    ensures PortClaims(Retired(s, key))
  {
    var t := Retired(s, key);
    assert forall k | k in t.services :: ClaimOk(s.services[k], s.owners, k);
  }

  /** After the claim: every outcome of `start` but a failed spawn restores the claim of `key`. */
  lemma AfterClaimClaims(s: State, req: Request, port: Result<nat, Refusal>, spawned: Option<nat>)
    requires PortClaimsBut(s, req.Id())
    requires port.Ok? && port.value > 0 ==> port.value in s.owners && s.owners[port.value] == req.Id()
    requires spawned.Some? || port.Err? || Resolved(req, PortsOf(s.services, req.project, req.name, port.value)).Err?
    ensures PortClaims(AfterClaim(s, req, port, spawned))
  {
    if port.Err? {
      RefusedClaims(s, req.project, req.name, req.command, port.error);
    } else {
      match Resolved(req, PortsOf(s.services, req.project, req.name, port.value)) {
        case Err(why) => RefusedClaims(s, req.project, req.name, req.command, why);
        case Ok(launch) =>
          var t := Launched(s, req, port.value, launch, spawned.value);
          assert forall k | k in t.services && k != req.Id() :: ClaimOk(s.services[k], s.owners, k);
      }
    }
  }

  lemma ClaimedStateClaims(s: State, req: Request, free: set<nat>)
    requires PortClaims(s)
    ensures var (t, port) := ClaimedState(s, req, free);
            && PortClaimsBut(t, req.Id())
            && (port.Ok? && port.value > 0 ==> port.value in t.owners && t.owners[port.value] == req.Id())
            && (req.Id() in s.services && Reservation(s.services, req.Id(), req.claim).Some? && port.Ok? ==> PortClaims(t))
  {
    var key := req.Id();
    if key in s.services {
      RetiredClaims(s, key);
    }
    var s1 := if key in s.services then Retired(s, key) else s;
    ClaimedKeeps(s1, key, req.claim, free);
    if key in s1.services {
      assert ClaimOk(s1.services[key], s1.owners, key);
    }
  }

  /** A failed spawn breaks the claim exactly when a held port was given up before it. */
  lemma FailedSpawnClaims(s: State, req: Request, free: set<nat>)
    requires PortClaims(s) && (req.Id() in s.services ==> !s.services[req.Id()].Busy())
    requires ClaimedState(s, req, free).1.Ok?
    ensures PortClaims(ClaimedState(s, req, free).0) <==>
            !(req.Id() in s.services && s.services[req.Id()].Held() && s.services[req.Id()].allocatedPort > 0
              && Reservation(s.services, req.Id(), req.claim).None?)
  {
    var key := req.Id();
    ClaimedStateClaims(s, req, free);
    var (t, port) := ClaimedState(s, req, free);
    assert key in s.services ==> ClaimOk(s.services[key], s.owners, key);
    assert PortClaims(t) <==> (key in t.services ==> ClaimOk(t.services[key], t.owners, key));
    if key in s.services && s.services[key].Held() && s.services[key].allocatedPort > 0
       && Reservation(s.services, key, req.claim).None? {
      var p := s.services[key].allocatedPort;
      assert s.owners[p] == key;
      assert p !in Released(s.owners, key);
      ClaimAfterRelease(s.owners, free, key, req.claim.range, req.claim.port, req.claim.pin);
      assert p !in t.owners;
      assert !ClaimOk(t.services[key], t.owners, key);
    }
  }

  lemma StartClaims(s: State, req: Request, free: set<nat>, spawned: Option<nat>)
    requires PortClaims(s)
    ensures PortClaims(Started(s, req, free, spawned)) <==> !LosesReservation(s, Start(req, free, spawned))
  {
    var key := req.Id();
    if key in s.services && s.services[key].Busy() {
    } else {
      var (t, port) := ClaimedState(s, req, free);
      ClaimedStateClaims(s, req, free);
      if spawned.None? && port.Ok? && Resolved(req, PortsOf(t.services, req.project, req.name, port.value)).Ok? {
        FailedSpawnClaims(s, req, free);
      } else {
        AfterClaimClaims(t, req, port, spawned);
      }
    }
  }

  lemma StoppedClaims(s: State, key: string)
    requires PortClaims(s)
    ensures PortClaims(ServiceStopped(s, key))
  {
    var t := ServiceStopped(s, key);
    assert forall k | k in t.services && k != key :: ClaimOk(s.services[k], s.owners, k);
  }

  lemma RemovedClaims(s: State, key: string)
    requires PortClaims(s)
    ensures PortClaims(ServiceRemoved(s, key))
  {
    StoppedClaims(s, key);
    var t := ServiceStopped(s, key);
    assert forall k | k in ServiceRemoved(s, key).services :: ClaimOk(t.services[k], t.owners, k);
  }

  lemma ProjectStoppedClaims(s: State, project: string)
    requires PortClaims(s)
    ensures PortClaims(ProjectStopped(s, project))
  {
    var t := ProjectStopped(s, project);
    forall k | k in t.services
      ensures ClaimOk(t.services[k], t.owners, k)
    {
      assert ClaimOk(s.services[k], s.owners, k);
    }
  }

  lemma PreviousClaims(s: State, key: string)
    requires PortClaims(s)
    ensures PortClaims(PreviousRunStopped(s, key))
  {
    if key in s.services {
      var e := s.services[key];
      var t := s.(services := s.services[key := e.(log := Pushed(e.log, RestartingMark))]);
      forall k | k in t.services
        ensures ClaimOk(t.services[k], t.owners, k)
      {
        assert ClaimOk(s.services[k], s.owners, k);
      }
      StoppedClaims(t, key);
    } else {
      StoppedClaims(s, key);
    }
  }

  lemma DrainClaims(s: State)
    requires PortClaims(s) && s.applied < |s.sent|
    ensures PortClaims(Drained(s))
  {
    var t := Drained(s);
    forall k | k in t.services
      ensures ClaimOk(t.services[k], t.owners, k)
    {
      AppliedIdentity(s, s.sent[s.applied], k);
      assert ClaimOk(s.services[k], s.owners, k);
    }
  }

  /** Every operation keeps the port claims, except exactly a failed spawn that gave up a held port. */
  lemma StepClaims(s: State, a: Action)
    requires PortClaims(s) && Possible(s, a)
    ensures PortClaims(Step(s, a)) <==> !LosesReservation(s, a)
  {
    match a
    case Start(req, free, spawned) => StartClaims(s, req, free, spawned);
    case Hold(project, name, command, claim, deps, failure, free) =>
      HeldClaims(s, project, name, command, claim, deps, failure, free);
    case FailStart(project, name, command, message) => RefusedClaims(s, project, name, command, Given(message));
    case Stop(key) => StoppedClaims(s, key);
    case StopPrevious(key) => PreviousClaims(s, key);
    case Remove(key) => RemovedClaims(s, key);
    case StopProject(project) => ProjectStoppedClaims(s, project);
    case StopAll =>
    case Drain => DrainClaims(s);
    case Task(r, step) =>
  }

  /** No action of the sequence loses a reservation when it is taken. */
  predicate KeepsReservations(actions: seq<Action>)
  {
    actions != [] ==>
      var init := actions[..|actions| - 1];
      KeepsReservations(init) && !LosesReservation(Exec(INITIAL, init), actions[|actions| - 1])
  }

  /** Over every such run each key owns at most one port, and no two live or held services share one. */
  lemma {:induction false} PortsAreExclusive(actions: seq<Action>)
    requires KeepsReservations(actions)
    ensures var s := Exec(INITIAL, actions);
            && PortClaims(s)
            && forall k, j | k in s.services && j in s.services && k != j :: !SharePort(s.services[k], s.services[j])
  {
    if actions != [] {
      var init := actions[..|actions| - 1];
      PortsAreExclusive(init);
      if Possible(Exec(INITIAL, init), actions[|actions| - 1]) {
        StepClaims(Exec(INITIAL, init), actions[|actions| - 1]);
      }
    }
    var s := Exec(INITIAL, actions);
    assert forall k | k in s.services :: ClaimOk(s.services[k], s.owners, k);
  }

  predicate SharePort(e: Entry, f: Entry)
  {
    (e.alive || e.Held()) && (f.alive || f.Held()) && e.allocatedPort > 0 && e.allocatedPort == f.allocatedPort
  }

  // ----- a reservation over time -----

  /** Held entry `k` owns port `p`. */
  predicate Reserved(s: State, k: string, p: nat)
  {
    k in s.services && s.services[k].Held() && s.services[k].allocatedPort == p && p in s.owners && s.owners[p] == k
  }

  /** Operations on the service itself; events and tasks are never among them. */
  predicate Touches(a: Action, k: string)
  {
    match a
    case Start(req, _, _) => req.Id() == k
    case Hold(project, name, _, _, _, _, _) => Key(project, name) == k
    case FailStart(project, name, _, _) => Key(project, name) == k
    case Stop(key) => key == k
    case StopPrevious(key) => key == k
    case Remove(key) => key == k
    case StopProject(project) => project + "/" <= k
    case StopAll => true
    case _ => false
  }

  /** A claim for another service takes no owned port. */
  lemma ClaimedElsewhere(services: map<string, Entry>, owners: Owners, key: string, claim: PortClaim, free: set<nat>, p: nat)
    requires p in owners && owners[p] != key
    ensures var after := Claimed(services, owners, key, claim, free).1;
            p in after && after[p] == owners[p]
  {
    ClaimAfterRelease(owners, free, key, claim.range, claim.port, claim.pin);
  }

  lemma StartKeepsReserved(s: State, req: Request, free: set<nat>, spawned: Option<nat>, k: string, p: nat)
    requires Reserved(s, k, p) && req.Id() != k
    ensures Reserved(Started(s, req, free, spawned), k, p)
  {
    StartedElsewhere(s, req, free, spawned, k);
    var s1 := if req.Id() in s.services then Retired(s, req.Id()) else s;
    ClaimedElsewhere(s1.services, s1.owners, req.Id(), req.claim, free, p);
  }

  lemma HoldKeepsReserved(s: State, a: Action, k: string, p: nat)
    requires Reserved(s, k, p) && (a.Hold? || a.FailStart?) && Key(a.project, a.name) != k
    ensures Reserved(Step(s, a), k, p)
  {
    if a.Hold? {
      ClaimedElsewhere(s.services, s.owners, Key(a.project, a.name), a.claim, a.free, p);
    }
  }

  lemma StepKeepsReserved(s: State, a: Action, k: string, p: nat)
    requires Reserved(s, k, p) && Possible(s, a) && !Touches(a, k)
    ensures Reserved(Step(s, a), k, p)
  {
    if a.Start? {
      StartKeepsReserved(s, a.req, a.free, a.spawned, k, p);
    } else if a.Hold? || a.FailStart? {
      HoldKeepsReserved(s, a, k, p);
    } else if a.Drain? {
      AppliedIdentity(s, s.sent[s.applied], k);
    }
  }

  lemma {:induction false} ReservationLasts(s: State, actions: seq<Action>, k: string, p: nat)
    requires Reserved(s, k, p) && forall a <- actions :: !Touches(a, k)
    ensures Reserved(Exec(s, actions), k, p)
  {
    if actions != [] {
      var init, last := actions[..|actions| - 1], actions[|actions| - 1];
      ReservationLasts(s, init, k, p);
      assert last in actions;
      if Possible(Exec(s, init), last) {
        StepKeepsReserved(Exec(s, init), last, k, p);
      }
    }
  }

  /**
   * A held port survives whatever happens to other services in between, and
   * into the start of its own, while the claim still accepts it.
   */
  lemma HeldPortIsKept(s: State, actions: seq<Action>, req: Request, free: set<nat>, group: nat, p: nat)
    requires Reserved(s, req.Id(), p) && forall a <- actions :: !Touches(a, req.Id())
    requires Reservation(s.services, req.Id(), req.claim).Some? && req.claim.conflict.None?
    requires ReachesSpawn(Exec(s, actions), req, free)
    ensures var t := Started(Exec(s, actions), req, free, Some(group));
            && t.services[req.Id()].alive && !t.services[req.Id()].Held()
            && t.services[req.Id()].allocatedPort == p && p in t.owners && t.owners[p] == req.Id()
            && t.owners == Exec(s, actions).owners
  {
    ReservationLasts(s, actions, req.Id(), p);
    StartTakesReserved(Exec(s, actions), req, free, group, p);
  }

  lemma StartTakesReserved(s: State, req: Request, free: set<nat>, group: nat, p: nat)
    requires Reserved(s, req.Id(), p) && req.claim.conflict.None? && ReachesSpawn(s, req, free)
    requires Reservation(s.services, req.Id(), req.claim) == Some(p)
    ensures var t := Started(s, req, free, Some(group));
            && t.services[req.Id()].alive && !t.services[req.Id()].Held()
            && t.services[req.Id()].allocatedPort == p && t.owners == s.owners
  {
  }

  // ----- a lost reservation -----

  /** A failed spawn of a held service whose claim moved to another port leaves it naming a port it does not own. */
  lemma ReservationCanBeLost(project: string, name: string, free: set<nat>)
    requires {4000, 5000} <= free
    ensures var hold := Hold(project, name, "", PortClaim((4000, 4099), Strict, 4000, None), ["db"], None, free);
            var start := Start(Request(project, name, PortClaim((5000, 5099), Strict, 5000, None), "", [], None), free, None);
            && PortClaims(Exec(INITIAL, [hold])) && !PortClaims(Exec(INITIAL, [hold, start]))
  {
    var hold := Hold(project, name, "", PortClaim((4000, 4099), Strict, 4000, None), ["db"], None, free);
    var req := Request(project, name, PortClaim((5000, 5099), Strict, 5000, None), "", [], None);
    ExecTwo(INITIAL, hold, Start(req, free, None));
    HeldClaims(INITIAL, project, name, "", hold.claim, ["db"], None, free);
    FirstHoldReserves(project, name, free);
    MovedClaimLoses(Step(INITIAL, hold), req, free);
  }

  lemma FirstHoldReserves(project: string, name: string, free: set<nat>)
    requires 4000 in free
    ensures var s := Held(INITIAL, project, name, "", PortClaim((4000, 4099), Strict, 4000, None), ["db"], None, free);
            Reserved(s, Key(project, name), 4000) && 5000 !in s.owners
  {
  }

  lemma MovedClaimLoses(s: State, req: Request, free: set<nat>)
    requires PortClaims(s) && Reserved(s, req.Id(), 4000)
    requires req.claim == PortClaim((5000, 5099), Strict, 5000, None) && 5000 in free && 5000 !in s.owners
    requires req.command == "" && req.env == [] && req.healthUrl == None
    ensures !PortClaims(Started(s, req, free, None))
  {
    EmptyCommandResolves(req, PortsOf(ClaimedState(s, req, free).0.services, req.project, req.name, 5000));
    StartClaims(s, req, free, None);
  }
}
