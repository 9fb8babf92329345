/** The Ray CR in the API server: admission rules, guarded updates, and the wait for a namespace. */
module RayApi {
  import opened Wrappers
  import opened Cluster

  const INSTANCE_NAME := "default-ray"

  /** `removed` says that the management state is Removed; any other state counts as Managed. */
  datatype Ray = Ray(uid: UID, version: nat, finalizer: bool, terminating: bool, removed: bool, ns: string)

  /** The two CEL rules: the CR is a singleton, and its namespace is immutable once set. */
  predicate NameAdmitted(name: string) {
    name == INSTANCE_NAME
  }

  predicate EditAdmitted(old_: Ray, new_: Ray) {
    old_.ns == "" || new_.ns == old_.ns
  }

  /** Writing a copy goes through only onto the very version that the copy was read from. A
      terminating CR that loses its finalizer is gone. */
  predicate Guard(stored: Option<Ray>, copy: Ray) {
    stored.Some? && stored.value.uid == copy.uid && stored.value.version == copy.version
  }

  function Written(stored: Option<Ray>, copy: Ray, clock: nat): Option<Ray> {
    if !Guard(stored, copy) then stored
    else if copy.terminating && !copy.finalizer then None
    else Some(copy.(version := clock))
  }

  class RayStore {
    var stored: Option<Ray>
    var clock: nat

    constructor (stored: Option<Ray>, clock: nat)
      ensures this.stored == stored && this.clock == clock
    {
      this.stored, this.clock := stored, clock;
    }

    /** What a user may do to the spec: anything the admission rules let through. */
    method Edit(removed: bool, ns: string) returns (admitted: bool)
      modifies this
      ensures clock == old(clock) + 1
      ensures admitted <==> old(stored).Some? && (old(stored).value.ns == "" || ns == old(stored).value.ns)
      ensures stored == if admitted then Some(old(stored).value.(version := old(clock), removed := removed, ns := ns)) else old(stored)
    {
      clock := clock + 1;
      if stored == None {
        return false;
      }
      var edited := stored.value.(version := clock - 1, removed := removed, ns := ns);
      admitted := EditAdmitted(stored.value, edited);
      if admitted {
        stored := Some(edited);
      }
    }

    method Update(copy: Ray, reply: Reply) returns (r: Result<(), Fault>)
      modifies this
      ensures clock == old(clock) + 1
      ensures stored == if reply == Refused then old(stored) else Written(old(stored), copy, old(clock))
      ensures r.Success? <==> reply == Served && Guard(old(stored), copy)
      ensures r.Failure? ==> (r.error == Unavailable <==> reply == Refused || Guard(old(stored), copy))
      ensures r.Failure? && r.error != Unavailable ==> r.error in {NotFound, Conflict}
    {
      clock := clock + 1;
      if reply == Refused {
        return Failure(Unavailable);
      }
      if stored == None || stored.value.uid != copy.uid {
        return Failure(NotFound);
      }
      if stored.value.version != copy.version {
        return Failure(Conflict);
      }
      stored := if copy.terminating && !copy.finalizer then None else Some(copy.(version := clock - 1));
      r := if reply == Lost then Failure(Unavailable) else Success(());
    }

    /** waitForNamespace. Every way out stops the reconcile unless the copy has a namespace. */
    method WaitForNamespace(ray: Ray, reply: Reply) returns (stop: bool)
      modifies this
      ensures stop <==> ray.ns == ""
      ensures stored == AfterWait(old(stored), ray, old(clock), reply)
      ensures clock == if ray.ns == "" && ray.finalizer then old(clock) + 1 else old(clock)
    {
      if ray.ns != "" {
        return false;
      }
      if ray.finalizer {
        var r := Update(ray.(finalizer := false), reply);
        if r.Failure? && r.error != Conflict && r.error != NotFound {
          return true;
        }
      }
      stop := true;
    }
  }

  function AfterWait(stored: Option<Ray>, ray: Ray, clock: nat, reply: Reply): Option<Ray> {
    if ray.ns == "" && ray.finalizer && reply != Refused then Written(stored, ray.(finalizer := false), clock)
    else stored
  }
}
