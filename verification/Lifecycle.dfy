/** The life of the Ray CR and its operands as a step system. Users edit and delete the CR, third
    parties change the cluster, and one reconcile at a time works on a copy of the CR that may be
    out of date; any call may fail and end the reconcile. */
module Lifecycle {
  import opened Wrappers
  import opened Cluster
  import opened RayApi
  import opened Render
  import NotebookRBAC
  import PlatformFilter
  import Dependencies
  import Cleanup

  /** The stages of a reconcile, in the order of the pipeline; the last two are the deletion path. */
  datatype Stage = Finalizing | Waiting | Rendering | Gating | NotebookStage | Deploying | Collecting | Cleaning | Releasing

  datatype Op = Idle | Busy(ray: Ray, stage: Stage, resources: seq<Resource>)

  /** `versions` holds every version of every CR ever stored. `roleMode` remembers for which mode the
      notebook role was last brought in order, and is Unsettled once an attempt for the other mode or
      a cleanup may have changed it, or somebody touched it. */
  datatype State = State(
    stored: Option<Ray>,
    versions: set<Ray>,
    clock: nat,
    cluster: Objects,
    op: Op,
    roleMode: RoleMode)

  datatype RoleMode = Unsettled | ForManaged | ForRemoved

  function ModeOf(ray: Ray): RoleMode {
    if ray.removed then ForRemoved else ForManaged
  }

  datatype Step =
    // users
    | CreateRay(name: string, uid: UID, createRemoved: bool, createNs: string)
    | EditRay(editRemoved: bool, editNs: string)
    | TouchRay
    | DeleteRay
    // third parties
    | Interfere(acts: seq<Act>)
    // the operator
    | StartReconcile(seen: Ray)
    | AddFinalizer(reply: Reply)
    | WaitForNamespace(reply: Reply)
    | RenderManifests(output: seq<Resource>)
    | CheckCertManager(acts: seq<Act>, ok: bool, hasSCCs: bool)
    | SettleRole(acts: seq<Act>, after: Objects, ok: bool)
    | Deploy(acts: seq<Act>, after: Objects, ok: bool)
    | CollectGarbage(acts: seq<Act>, after: Objects, ok: bool, found: seq<Key>)
    | CleanUp(acts: seq<Act>, after: Objects, ok: bool, found: seq<Key>)
    | ReleaseRay(reply: Reply)
    | Abandon

  /******* What the framework is relied on for *******/

  // The client's scheme and the server know all seven operand kinds.
  const LISTABLE := ALL_KINDS

  ghost predicate AppliedOne(uid: UID, r: Resource, acts: seq<Act>, after: Option<Obj>, j: nat, o: Obj)
    requires j <= |acts|
  {
    && o.origin == uid && Labels(r).Items <= o.labels.Items
    && after == Evolve(KeyOf(r), Some(o), acts[j..])
  }

  ghost predicate AppliedFrom(uid: UID, resources: seq<Resource>, k: Key, acts: seq<Act>, after: Option<Obj>) {
    exists r, j: nat, o | r in resources && KeyOf(r) == k && j <= |acts| :: AppliedOne(uid, r, acts, after, j, o)
  }

  /** The deploy action writes nothing but the given resources, with their labels, and perhaps with
      an ownerRef; it may stop anywhere, but if it succeeds it has applied them all. */
  ghost predicate Deployed(uid: UID, resources: seq<Resource>, c: Objects, acts: seq<Act>, c': Objects, ok: bool) {
    && (forall k :: Get(c', k) == Evolve(k, Get(c, k), acts) || AppliedFrom(uid, resources, k, acts, Get(c', k)))
    && (ok ==> forall r :: r in resources ==> AppliedFrom(uid, resources, KeyOf(r), acts, Get(c', KeyOf(r))))
  }

  /** While Managed, the framework's collector passes over what the same reconcile has applied. */
  predicate Stale(ray: Ray, resources: seq<Resource>, found: seq<Key>) {
    ray.removed || forall r :: r in resources ==> KeyOf(r) !in found
  }

  predicate Touches(acts: seq<Act>, k: Key) {
    exists i :: 0 <= i < |acts| && acts[i].key == k
  }

  /******* Steps *******/

  predicate At(s: State, stage: Stage) {
    s.op.Busy? && s.op.stage == stage
  }

  ghost predicate Enabled(s: State, step: Step) {
    match step
    case CreateRay(name, uid, _, _) => NameAdmitted(name) && s.stored == None && uid != "" && forall v :: v in s.versions ==> v.uid != uid
    case EditRay(removed, ns) => s.stored.Some? && EditAdmitted(s.stored.value, s.stored.value.(removed := removed, ns := ns))
    case TouchRay => s.stored.Some?
    case DeleteRay => s.stored.Some?
    case Interfere(_) => true
    // The CR exists, but the copy may be any version it ever had.
    case StartReconcile(seen) => s.op == Idle && s.stored.Some? && seen in s.versions && seen.uid == s.stored.value.uid
    case AddFinalizer(_) => At(s, Finalizing)
    case WaitForNamespace(_) => At(s, Waiting)
    case RenderManifests(output) => At(s, Rendering) && Namespaced(output) && forall r :: r in output ==> KeyOf(r) != NOTEBOOK_ROLE
    case CheckCertManager(acts, ok, _) =>
      At(s, Gating) && (ok ==> s.op.ray.removed || Dependencies.AllSeen(Dependencies.Required(s.op.resources), s.cluster, acts))
    case SettleRole(acts, after, ok) =>
      At(s, NotebookStage) &&
      if s.op.ray.removed then NotebookRBAC.Deleted(s.cluster, acts, after, ok)
      else NotebookRBAC.Applied(s.op.ray.uid, s.cluster, acts, after, ok)
    case Deploy(acts, after, ok) => At(s, Deploying) && Deployed(s.op.ray.uid, s.op.resources, s.cluster, acts, after, ok)
    case CollectGarbage(acts, after, ok, found) =>
      At(s, Collecting) && Stale(s.op.ray, s.op.resources, found) &&
      Cleanup.Reconciled(s.op.ray.uid, s.op.ray.ns, s.op.ray.removed, LISTABLE, found, s.cluster, acts, after, ok)
    case CleanUp(acts, after, ok, found) =>
      At(s, Cleaning) && Cleanup.CleanedUp(s.op.ray.uid, s.op.ray.ns, LISTABLE, found, s.cluster, acts, after, ok)
    case ReleaseRay(_) => At(s, Releasing)
    case Abandon => s.op.Busy?
  }

  /** A new version of the CR, or its end. */
  function Store(s: State, ray: Option<Ray>): State {
    if ray == s.stored then s.(clock := s.clock + 1)
    else s.(stored := ray, clock := s.clock + 1, versions := s.versions + if ray.Some? then {ray.value} else {})
  }

  function Proceed(s: State, ok: bool, stage: Stage): State {
    if s.op.Busy? then s.(op := if ok then s.op.(stage := stage) else Idle) else s
  }

  function Changed(s: State, acts: seq<Act>, after: Objects, roleMode: RoleMode): State {
    s.(cluster := after, roleMode := if Touches(acts, NOTEBOOK_ROLE) then Unsettled else roleMode)
  }

  ghost function Next(s: State, step: Step): State
    requires Enabled(s, step)
  {
    match step
    case CreateRay(_, uid, removed, ns) => Store(s, Some(Ray(uid, s.clock, false, false, removed, ns)))
    case EditRay(removed, ns) => Store(s, Some(s.stored.value.(version := s.clock, removed := removed, ns := ns)))
    case TouchRay => Store(s, Some(s.stored.value.(version := s.clock)))
    case DeleteRay =>
      var ray := s.stored.value;
      Store(s, if ray.finalizer then Some(ray.(version := s.clock, terminating := true)) else None)
    case Interfere(acts) => Changed(s, acts, ApplyActs(s.cluster, acts), s.roleMode)
    case StartReconcile(seen) => s.(op := Busy(seen, if seen.terminating then Cleaning else Finalizing, []))
    case AddFinalizer(reply) =>
      var ray := s.op.ray;
      if ray.finalizer then Proceed(s, true, Waiting)
      else
        var s' := if reply == Refused then s else Store(s, Written(s.stored, ray.(finalizer := true), s.clock));
        if reply == Served && Guard(s.stored, ray)
        then s'.(op := Busy(ray.(finalizer := true, version := s.clock), Waiting, []))
        else s'.(op := Idle)
    case WaitForNamespace(reply) =>
      Proceed(Store(s, AfterWait(s.stored, s.op.ray, s.clock, reply)), s.op.ray.ns != "", Rendering)
    case RenderManifests(output) =>
      var resources := if s.op.ray.removed then [] else Stamped(Forced(s.op.ray.ns, output));
      s.(op := s.op.(resources := resources, stage := Gating))
    case CheckCertManager(acts, ok, hasSCCs) =>
      var s' := Changed(s, acts, ApplyActs(s.cluster, acts), s.roleMode);
      Proceed(s'.(op := s.op.(resources := PlatformFilter.FilteredBy(hasSCCs, s.op.resources))), ok, NotebookStage)
    case SettleRole(acts, after, ok) =>
      var mode := ModeOf(s.op.ray);
      Proceed(Changed(s, acts, after, if ok || s.roleMode == mode then mode else Unsettled), ok, Deploying)
    case Deploy(acts, after, ok) => Proceed(Changed(s, acts, after, s.roleMode), ok, Collecting)
    case CollectGarbage(acts, after, ok, _) => Changed(s, acts, after, s.roleMode).(op := Idle)
    case CleanUp(acts, after, ok, _) => Proceed(Changed(s, acts, after, Unsettled), ok, Releasing)
    case ReleaseRay(reply) =>
      if reply == Refused then s.(op := Idle) else Store(s, None).(op := Idle)
    case Abandon => s.(op := Idle)
  }

  /******* Runs *******/

  /** Nothing has happened yet; whatever is in the cluster is not the operator's. */
  ghost predicate Initial(s: State) {
    && s.stored == None && s.versions == {} && s.clock == 0 && s.op == Idle && s.roleMode == Unsettled
    && forall k :: k in s.cluster ==> s.cluster[k].origin == ""
  }

  ghost predicate IsRun(s: State, steps: seq<Step>)
    decreases |steps|, 0
  {
    steps == [] || (IsRun(s, steps[..|steps| - 1])
                    && Enabled(After(s, steps[..|steps| - 1]), steps[|steps| - 1]))
  }

  ghost function After(s: State, steps: seq<Step>): State
    requires IsRun(s, steps)
    decreases |steps|, 1
  {
    if steps == [] then s else Next(After(s, steps[..|steps| - 1]), steps[|steps| - 1])
  }
}
