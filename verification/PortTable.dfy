/**
 * The process-wide port allocation map (src/ports/mod.rs). Whether the system
 * lets a port be bound is an oracle: the set `free` of ports that would bind.
 */
module PortTable {
  import opened Basics

  datatype PortPin = Auto | Strict

  datatype PortError = OutsideRange(port: nat) | InUse(port: nat) | NoneFree(first: nat, last: nat)

  /** Port to owner key `project/service`. */
  type Owners = map<nat, string>

  function Key(project: string, service: string): string { project + "/" + service }

  predicate Takeable(owners: Owners, free: set<nat>, port: nat) { port !in owners && port in free }

  /** The least takeable port of `first..=last`. */
  function LeastTakeable(owners: Owners, free: set<nat>, first: nat, last: nat): (p: Option<nat>)
    ensures p.Some? ==> first <= p.value <= last && Takeable(owners, free, p.value)
    ensures p.Some? ==> forall q | first <= q < p.value :: !Takeable(owners, free, q)
    ensures p.None? ==> forall q | first <= q <= last :: !Takeable(owners, free, q)
    decreases last + 1 - first
  {
    if first > last then None
    else if Takeable(owners, free, first) then Some(first)
    else LeastTakeable(owners, free, first + 1, last)
  }

  function Allocation(owners: Owners, free: set<nat>, range: (nat, nat), desired: nat, pin: PortPin): Result<nat, PortError>
  {
    match pin
    case Strict =>
      if desired < range.0 || desired > range.1 then Err(OutsideRange(desired))
      else if Takeable(owners, free, desired) then Ok(desired)
      else Err(InUse(desired))
    case Auto =>
      match LeastTakeable(owners, free, range.0, range.1)
      case Some(port) => Ok(port)
      case None => Err(NoneFree(range.0, range.1))
  }

  function Released(owners: Owners, key: string): Owners
  {
    map p | p in owners && owners[p] != key :: owners[p]
  }

  function ProjectReleased(owners: Owners, project: string): Owners
  {
    map p | p in owners && !(project + "/" <= owners[p]) :: owners[p]
  }

  class Table {
    var owners: Owners

    constructor ()
      ensures owners == map[]
    {
      owners := map[];
    }

    method Allocate(range: (nat, nat), key: string, desired: nat, pin: PortPin, free: set<nat>)
      returns (r: Result<nat, PortError>)
      modifies this
      ensures r == Allocation(old(owners), free, range, desired, pin)
      ensures owners == if r.Ok? then old(owners)[r.value := key] else old(owners)
    {
      match pin {
        case Strict =>
          if desired < range.0 || desired > range.1 {
            return Err(OutsideRange(desired));
          }
          if desired in owners || desired !in free {
            return Err(InUse(desired));
          }
          owners := owners[desired := key];
          return Ok(desired);
        case Auto =>
          var port := range.0;
          while port <= range.1
            invariant range.0 <= port
            invariant LeastTakeable(owners, free, range.0, range.1) == LeastTakeable(owners, free, port, range.1)
            invariant owners == old(owners)
          {
            if port !in owners && port in free {
              owners := owners[port := key];
              return Ok(port);
            }
            port := port + 1;
          }
          return Err(NoneFree(range.0, range.1));
      }
    }

    method Release(key: string)
      modifies this
      ensures owners == Released(old(owners), key)
    {
      owners := map p | p in owners && owners[p] != key :: owners[p];
    }

    method ReleaseProject(project: string)
      modifies this
      ensures owners == ProjectReleased(old(owners), project)
    {
      owners := map p | p in owners && !(project + "/" <= owners[p]) :: owners[p];
    }
  }

  /** The ports a key owns. */
  function Owned(owners: Owners, key: string): set<nat>
  {
    set p | p in owners && owners[p] == key
  }

  /**
   * A claim after a release leaves the key owning exactly the port it was
   * given, and every other key owning what it owned.
   */
  lemma ClaimAfterRelease(owners: Owners, free: set<nat>, key: string, range: (nat, nat), desired: nat, pin: PortPin)
    ensures var rest := Released(owners, key);
            && Owned(rest, key) == {}
            && (match Allocation(rest, free, range, desired, pin)
                case Ok(port) =>
                  && range.0 <= port <= range.1 && port in free
                  && (pin == Strict ==> port == desired)
                  && (port in owners ==> owners[port] == key)
                  && Owned(rest[port := key], key) == {port}
                  && forall other | other != key :: Owned(rest[port := key], other) == Owned(owners, other)
                case Err(_) => forall other | other != key :: Owned(rest, other) == Owned(owners, other))
  {
    var rest := Released(owners, key);
    var a := Allocation(rest, free, range, desired, pin);
    if a.Ok? {
      assert a.value !in rest;
      forall other | other != key
        ensures Owned(rest[a.value := key], other) == Owned(owners, other)
      {
      }
    }
  }

  /** The pinned port or the least one that can be taken, or why there is none. */
  lemma AllocationAnswers(owners: Owners, free: set<nat>, range: (nat, nat), desired: nat, pin: PortPin)
    ensures match Allocation(owners, free, range, desired, pin)
            case Ok(port) =>
              && range.0 <= port <= range.1 && Takeable(owners, free, port)
              && if pin == Strict then port == desired else forall q | range.0 <= q < port :: !Takeable(owners, free, q)
            case Err(OutsideRange(port)) => pin == Strict && port == desired && !(range.0 <= desired <= range.1)
            case Err(InUse(port)) =>
              pin == Strict && port == desired && range.0 <= desired <= range.1 && (desired in owners || desired !in free)
            case Err(NoneFree(first, last)) =>
              pin == Auto && (first, last) == range && forall q | first <= q <= last :: !Takeable(owners, free, q)
  {
  }

  /** Which ports an allocation refuses: pinned ones outside the range or taken, and a range with none takeable. */
  lemma AllocationRefuses(owners: Owners, free: set<nat>, range: (nat, nat), desired: nat, pin: PortPin)
    ensures Allocation(owners, free, range, desired, pin).Err? <==>
            forall p | range.0 <= p <= range.1 && (pin == Auto || p == desired) :: !Takeable(owners, free, p)
  {
  }
}
