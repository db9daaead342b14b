/** The start gate of src/service/deps.rs: may a service start, given its dependencies' states? */
module DependencyGate {

  datatype DepState = Ready | Pending | Unavailable(why: string)

  datatype Gate = Go | Wait | Fail(dep: string, why: string)

  /** Fails on the first unavailable dependency, even behind pending ones; goes exactly when all are ready. */
  method Decide(deps: seq<string>, state: string -> DepState) returns (gate: Gate)
    ensures gate.Go? <==> forall d <- deps :: state(d).Ready?
    ensures gate.Wait? <==> (forall d <- deps :: !state(d).Unavailable?) && exists d <- deps :: state(d).Pending?
    ensures gate.Fail? <==> exists d <- deps :: state(d).Unavailable?
    ensures gate.Fail? ==> exists i | 0 <= i < |deps| ::
              && deps[i] == gate.dep && state(deps[i]) == Unavailable(gate.why)
              && forall j | 0 <= j < i :: !state(deps[j]).Unavailable?
  {
    var pending := false;
    for i := 0 to |deps|
      invariant forall j | 0 <= j < i :: !state(deps[j]).Unavailable?
      invariant pending <==> exists j | 0 <= j < i :: state(deps[j]).Pending?
    {
      match state(deps[i])
      case Ready =>
      case Pending => pending := true;
      case Unavailable(why) => return Fail(deps[i], why);
    }
    return if pending then Wait else Go;
  }
}
