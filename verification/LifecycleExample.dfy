/** Runs that tell the last successful reconcile from the last one that settled the notebook role, and
    a run that deploys something. */
module LifecycleExample {
  import opened Wrappers
  import opened Cluster
  import opened RayApi
  import opened Render
  import opened Lifecycle
  import OwnedGC
  import NotebookRBAC
  import Dependencies
  import Cleanup
  import LifecycleTheorems
  import PlatformFilter

  const CREATED := Ray("u", 0, false, false, false, "apps")
  const GUARDED := Ray("u", 1, true, false, false, "apps")
  const REMOVED := Ray("u", 3, true, false, true, "apps")
  const ROLE := map[NOTEBOOK_ROLE := Obj([], NotebookRBAC.ROLE_LABELS, NotebookRBAC.RULES, "u")]

  const INIT := State(None, {}, 0, map[], Idle, Unsettled)

  /** A state in the middle of the run: the Managed reconcile first, the Removed one after it. */
  function Managed(clock: nat, cluster: Objects, op: Op, mode: RoleMode): State {
    State(Some(GUARDED), {CREATED, GUARDED}, clock, cluster, op, mode)
  }

  function Removing(clock: nat, cluster: Objects, op: Op, mode: RoleMode): State {
    State(Some(REMOVED), {CREATED, GUARDED, REMOVED}, clock, cluster, op, mode)
  }

  ghost predicate Reaches(steps: seq<Step>, s: State) {
    IsRun(INIT, steps) && After(INIT, steps) == s
  }

  lemma Play(steps: seq<Step>, s: State, step: Step, s': State)
    requires Reaches(steps, s) && Enabled(s, step) && Next(s, step) == s'
    ensures Reaches(steps + [step], s')
  {
    LifecycleTheorems.Extend(INIT, steps, step);
  }

  /** The steps of a reconcile without anything to render, up to settling the role. */
  function UpToGate(seen: Ray): seq<Step> {
    [StartReconcile(seen), AddFinalizer(Served), WaitForNamespace(Served), RenderManifests([]), CheckCertManager([], true, true)]
  }

  lemma NothingRequired(c: Objects)
    ensures Dependencies.AllSeen(Dependencies.Required([]), c, [])
    ensures Stamped(Forced("apps", [])) == []
  {}

  lemma PlayUpToGate(steps: seq<Step>, s: State, seen: Ray)
    requires Reaches(steps, s) && s.op == Idle && s.stored == Some(seen) && seen in s.versions
    requires seen.finalizer && !seen.terminating && seen.ns == "apps"
    ensures Reaches(steps + UpToGate(seen), s.(clock := s.clock + 1, op := Busy(seen, NotebookStage, [])))
  {
    NothingRequired(s.cluster);
    var s1 := s.(op := Busy(seen, Finalizing, []));
    Play(steps, s, StartReconcile(seen), s1);
    var t1 := steps + [StartReconcile(seen)];
    var s2 := s.(op := Busy(seen, Waiting, []));
    Play(t1, s1, AddFinalizer(Served), s2);
    var t2 := t1 + [AddFinalizer(Served)];
    PlayRest(t2, s2, seen);
    assert steps + UpToGate(seen) ==
      t2 + [WaitForNamespace(Served)] + [RenderManifests([])] + [CheckCertManager([], true, true)];
  }

  lemma PlayRest(steps: seq<Step>, s: State, seen: Ray)
    requires Reaches(steps, s) && s.op == Busy(seen, Waiting, []) && seen.ns == "apps"
    ensures Reaches(steps + [WaitForNamespace(Served)] + [RenderManifests([])] + [CheckCertManager([], true, true)],
                    s.(clock := s.clock + 1, op := Busy(seen, NotebookStage, [])))
  {
    NothingRequired(s.cluster);
    var s3 := s.(clock := s.clock + 1, op := Busy(seen, Rendering, []));
    Play(steps, s, WaitForNamespace(Served), s3);
    var t3 := steps + [WaitForNamespace(Served)];
    var s4 := s3.(op := Busy(seen, Gating, []));
    Play(t3, s3, RenderManifests([]), s4);
    var t4 := t3 + [RenderManifests([])];
    Play(t4, s4, CheckCertManager([], true, true), s4.(op := Busy(seen, NotebookStage, [])));
  }

  /** A reconcile that applies nothing else, up to its last step. */
  function ToCollect(after: Objects): seq<Step> {
    [SettleRole([], after, true), Deploy([], after, true)]
  }

  lemma PlayFromRole(steps: seq<Step>, s: State, after: Objects, ok: bool)
    requires Reaches(steps, s) && At(s, NotebookStage) && s.op.resources == []
    requires Enabled(s, SettleRole([], after, true)) && (ok ==> !s.op.ray.removed)
    ensures var s' := s.(cluster := after, op := s.op.(stage := Collecting), roleMode := ModeOf(s.op.ray));
      && Reaches(steps + ToCollect(after), s')
      && Reaches(steps + ToCollect(after) + [CollectGarbage([], after, ok, [])], s'.(op := Idle))
  {
    var ray := s.op.ray;
    var s1 := s.(cluster := after, op := Busy(ray, Deploying, []), roleMode := ModeOf(ray));
    Play(steps, s, SettleRole([], after, true), s1);
    var t1 := steps + [SettleRole([], after, true)];
    Play(t1, s1, Deploy([], after, true), s1.(op := Busy(ray, Collecting, [])));
    var t2 := t1 + [Deploy([], after, true)];
    assert steps + ToCollect(after) == t2;
    Cleanup.Untouched(if ray.removed then OwnedGC.ByOwnerOrLabel(ray.uid) else OwnedGC.ByOwner(ray.uid), after);
    Play(t2, s1.(op := Busy(ray, Collecting, [])), CollectGarbage([], after, ok, []), s1.(op := Idle));
  }

  lemma RoleCanBeApplied()
    ensures NotebookRBAC.Applied("u", map[], [], ROLE, true)
  {
    var o := ROLE[NOTEBOOK_ROLE];
    assert NotebookRBAC.RoleWas([], ROLE, Some(o), 0);
  }

  lemma RoleCanBeDeleted()
    ensures NotebookRBAC.Deleted(ROLE, [], map[], true)
  {
    assert NotebookRBAC.RoleWas([], map[], None, 0);
  }

  /** No third party acts. */
  ghost predicate Quiet(steps: seq<Step>) {
    forall j :: 0 <= j < |steps| ==> LifecycleTheorems.ActsOf(steps[j]) == []
  }

  lemma PlayStart() returns (steps: seq<Step>)
    ensures Reaches(steps, Managed(2, map[], Busy(GUARDED, Waiting, []), Unsettled)) && Quiet(steps)
  {
    var s1 := State(Some(CREATED), {CREATED}, 1, map[], Idle, Unsettled);
    assert Reaches([], INIT);
    Play([], INIT, CreateRay(INSTANCE_NAME, "u", false, "apps"), s1);
    var t1 := [] + [CreateRay(INSTANCE_NAME, "u", false, "apps")];
    Play(t1, s1, StartReconcile(CREATED), s1.(op := Busy(CREATED, Finalizing, [])));
    var t2 := t1 + [StartReconcile(CREATED)];
    Play(t2, s1.(op := Busy(CREATED, Finalizing, [])), AddFinalizer(Served), Managed(2, map[], Busy(GUARDED, Waiting, []), Unsettled));
    steps := t2 + [AddFinalizer(Served)];
  }

  /** The Managed reconcile, up to its last step. */
  lemma PlayManaged() returns (steps: seq<Step>)
    ensures Reaches(steps, Managed(3, ROLE, Busy(GUARDED, Collecting, []), ForManaged)) && Quiet(steps)
    ensures Reaches(steps + [CollectGarbage([], ROLE, true, [])], Managed(3, ROLE, Idle, ForManaged))
  {
    var t := PlayStart();
    PlayRest(t, Managed(2, map[], Busy(GUARDED, Waiting, []), Unsettled), GUARDED);
    var t1 := t + [WaitForNamespace(Served)] + [RenderManifests([])] + [CheckCertManager([], true, true)];
    RoleCanBeApplied();
    PlayFromRole(t1, Managed(3, map[], Busy(GUARDED, NotebookStage, []), Unsettled), ROLE, true);
    steps := t1 + ToCollect(ROLE);
  }

  /** The mode is changed to Removed, and a reconcile gets to the notebook stage. */
  lemma PlayRemoval(steps: seq<Step>) returns (more: seq<Step>)
    requires Reaches(steps, Managed(3, ROLE, Idle, ForManaged))
    ensures Reaches(steps + more, Removing(5, ROLE, Busy(REMOVED, NotebookStage, []), ForManaged)) && Quiet(more)
    ensures forall j :: 0 <= j < |more| ==> !more[j].SettleRole? && !more[j].CollectGarbage?
  {
    Play(steps, Managed(3, ROLE, Idle, ForManaged), EditRay(true, "apps"), Removing(4, ROLE, Idle, ForManaged));
    var t1 := steps + [EditRay(true, "apps")];
    PlayUpToGate(t1, Removing(4, ROLE, Idle, ForManaged), REMOVED);
    more := [EditRay(true, "apps")] + UpToGate(REMOVED);
    assert steps + more == t1 + UpToGate(REMOVED);
  }

  /** The Removed reconcile, whose last step fails. */
  lemma PlayRemoved(steps: seq<Step>) returns (more: seq<Step>)
    requires Reaches(steps, Managed(3, ROLE, Idle, ForManaged))
    ensures Reaches(steps + more + [CollectGarbage([], map[], false, [])], Removing(5, map[], Idle, ForRemoved))
    ensures Quiet(more) && forall j :: 0 <= j < |more| ==> !more[j].CollectGarbage?
  {
    var first := PlayRemoval(steps);
    RoleCanBeDeleted();
    PlayFromRole(steps + first, Removing(5, ROLE, Busy(REMOVED, NotebookStage, []), ForManaged), map[], false);
    more := first + ToCollect(map[]);
    assert steps + more == steps + first + ToCollect(map[]);
  }

  /** A Removed reconcile deletes the role and then fails: nobody else touched anything, the last
      reconcile that succeeded was a Managed one, and yet there is no role. So it is the last reconcile
      that settled the role, successful or not, that decides, as RoleFollowsMode has it. */
  lemma LastSuccessDoesNotDecide() returns (steps: seq<Step>, i: nat)
    ensures IsRun(INIT, steps) && Initial(INIT) && i < |steps| && IsRun(INIT, steps[..i])
    ensures steps[i].CollectGarbage? && steps[i].ok
    ensures var s := After(INIT, steps[..i]); s.op.Busy? && !s.op.ray.removed
    ensures forall j :: i < j < |steps| ==> steps[j].CollectGarbage? ==> !steps[j].ok
    ensures Quiet(steps) && After(INIT, steps).op == Idle && NOTEBOOK_ROLE !in After(INIT, steps).cluster
  {
    var t := PlayManaged();
    var managed := t + [CollectGarbage([], ROLE, true, [])];
    var more := PlayRemoved(managed);
    steps, i := managed + more + [CollectGarbage([], map[], false, [])], |t|;
    assert steps[..i] == t;
  }

  /** The notebook stage of a Removed reconcile deletes the role, but its reply is lost: nobody else
      touched anything, the Managed reconcile that last settled the role succeeded, none got past the
      notebook stage since, and yet there is no role. So RoleFollowsMode has to leave out attempts for
      the other mode that failed. */
  lemma FailedAttemptDecides() returns (steps: seq<Step>, i: nat)
    ensures IsRun(INIT, steps) && Initial(INIT) && i < |steps| - 1 && IsRun(INIT, steps[..i])
    ensures steps[i].CollectGarbage? && steps[i].ok
    ensures var s := After(INIT, steps[..i]); s.op.Busy? && !s.op.ray.removed
    ensures forall j :: i < j < |steps| - 1 ==> !steps[j].SettleRole?
    ensures steps[|steps| - 1] == SettleRole([], map[], false)
    ensures Quiet(steps) && After(INIT, steps).op == Idle && NOTEBOOK_ROLE !in After(INIT, steps).cluster
  {
    var t := PlayManaged();
    var managed := t + [CollectGarbage([], ROLE, true, [])];
    var more := PlayRemoval(managed);
    RoleCanBeDeleted();
    var attempt := SettleRole([], map[], false);
    Play(managed + more, Removing(5, ROLE, Busy(REMOVED, NotebookStage, []), ForManaged), attempt, Removing(5, map[], Idle, Unsettled));
    steps, i := managed + more + [attempt], |t|;
    assert steps[..i] == t;
  }

  /******* A run that deploys *******/

  // What the engine renders, in a namespace of its own, and what becomes of it.
  const OUT := Resource(GVK("apps", "v1", "Deployment"), "kuberay", "kuberay-operator", None, "")
  const MADE := Resource(GVK("apps", "v1", "Deployment"), "apps", "kuberay-operator", Some(map[PART_OF := COMPONENT]), "")
  const OPERATOR := Key(Deployment, "apps", "kuberay-operator")
  const RUNNING := ROLE[OPERATOR := Obj(["u"], map["platform.opendatahub.io/part-of" := "ray"], "", "u")]

  lemma OutIsMade()
    ensures Stamped(Forced("apps", [OUT])) == [MADE] && PlatformFilter.FilteredBy(false, [MADE]) == [MADE]
    ensures Dependencies.AllSeen(Dependencies.Required([MADE]), map[], [])
  {
    assert PlatformFilter.WithoutSCCs([MADE]) == PlatformFilter.WithoutSCCs([MADE][..0]) + [MADE];
    assert MADE.gvk.kind != "Issuer" && MADE.gvk.kind != "Certificate" by {
      assert |"Deployment"| != |"Issuer"| && |"Deployment"| != |"Certificate"|;
    }
  }

  lemma DeploymentGoesIn()
    ensures Deployed("u", [MADE], ROLE, [], RUNNING, true)
  {
    var o := RUNNING[OPERATOR];
    assert KeyOf(MADE) == OPERATOR;
    assert AppliedOne("u", MADE, [], Get(RUNNING, OPERATOR), 0, o);
    forall k ensures Get(RUNNING, k) == Evolve(k, Get(ROLE, k), []) || AppliedFrom("u", [MADE], k, [], Get(RUNNING, k)) {
      if k != OPERATOR { assert Get(RUNNING, k) == Get(ROLE, k); }
    }
  }

  lemma PlayToGate() returns (steps: seq<Step>)
    ensures Reaches(steps, Managed(3, map[], Busy(GUARDED, NotebookStage, [MADE]), Unsettled)) && Quiet(steps)
    ensures |steps| > 1 && steps[|steps| - 2] == RenderManifests([OUT])
  {
    var t := PlayStart();
    OutIsMade();
    var s2 := Managed(2, map[], Busy(GUARDED, Waiting, []), Unsettled);
    var s3 := Managed(3, map[], Busy(GUARDED, Rendering, []), Unsettled);
    Play(t, s2, WaitForNamespace(Served), s3);
    var s4 := Managed(3, map[], Busy(GUARDED, Gating, [MADE]), Unsettled);
    Play(t + [WaitForNamespace(Served)], s3, RenderManifests([OUT]), s4);
    var t4 := t + [WaitForNamespace(Served)] + [RenderManifests([OUT])];
    Play(t4, s4, CheckCertManager([], true, false), Managed(3, map[], Busy(GUARDED, NotebookStage, [MADE]), Unsettled));
    steps := t4 + [CheckCertManager([], true, false)];
  }

  /** An undisturbed Managed reconcile, from creating the CR to the end: the Deployment that the engine
      renders in some namespace is in the CR's namespace, with its label, beside the notebook role. */
  lemma ManagedRunDeploys() returns (steps: seq<Step>)
    ensures IsRun(INIT, steps) && Initial(INIT) && Quiet(steps)
    ensures |steps| > 0 && steps[|steps| - 1].CollectGarbage? && steps[|steps| - 1].ok
    ensures exists i :: 0 <= i < |steps| && steps[i] == RenderManifests([OUT])
    ensures After(INIT, steps).op == Idle && After(INIT, steps).cluster == RUNNING
  {
    var t := PlayToGate();
    var s5 := Managed(3, map[], Busy(GUARDED, NotebookStage, [MADE]), Unsettled);
    RoleCanBeApplied();
    var s6 := Managed(3, ROLE, Busy(GUARDED, Deploying, [MADE]), ForManaged);
    Play(t, s5, SettleRole([], ROLE, true), s6);
    var t6 := t + [SettleRole([], ROLE, true)];
    DeploymentGoesIn();
    var s7 := Managed(3, RUNNING, Busy(GUARDED, Collecting, [MADE]), ForManaged);
    Play(t6, s6, Deploy([], RUNNING, true), s7);
    var t7 := t6 + [Deploy([], RUNNING, true)];
    Cleanup.NothingCollected(OwnedGC.ByOwner("u"), RUNNING, true);
    Cleanup.ManagedReconciled("u", "apps", LISTABLE, [], RUNNING, [], RUNNING, true);
    Play(t7, s7, CollectGarbage([], RUNNING, true, []), Managed(3, RUNNING, Idle, ForManaged));
    steps := t7 + [CollectGarbage([], RUNNING, true, [])];
  }
}
