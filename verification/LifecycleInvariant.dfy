/** The invariant that ties the CR's history to what the operator has in the cluster, and its
    preservation by every step. */
module LifecycleInvariant {
  import opened Wrappers
  import opened Cluster
  import opened RayApi
  import opened Render
  import opened Lifecycle
  import OwnedGC
  import NotebookRBAC
  import PlatformFilter
  import Cleanup

  /******* The history of the CR *******/

  /** A version number determines the CR; along one CR's versions the namespace is kept once set, and
      so is the wish to terminate. */
  ghost predicate Ordered(versions: set<Ray>, clock: nat) {
    && (forall v :: v in versions ==> v.version < clock && v.uid != "")
    && (forall v, w :: v in versions && w in versions && v.version == w.version ==> v == w)
    && (forall v, w :: v in versions && w in versions && v.uid == w.uid && v.version <= w.version ==>
          (v.ns != "" ==> w.ns == v.ns) && (v.terminating ==> w.terminating))
  }

  /** The stored CR is the latest version of its uid; and if it ever had a finalizer and a namespace
      at once, it still has the finalizer. */
  ghost predicate Latest(ray: Ray, versions: set<Ray>) {
    && ray in versions
    && (ray.terminating ==> ray.finalizer)
    && (forall v :: v in versions && v.uid == ray.uid ==>
          v.version <= ray.version && (v.ns != "" && v.finalizer ==> ray.finalizer))
  }

  ghost predicate HistoryInv(stored: Option<Ray>, versions: set<Ray>, clock: nat) {
    Ordered(versions, clock) && (stored.Some? ==> Latest(stored.value, versions))
  }

  /******* What the operator has in the cluster *******/

  predicate Operand(k: Key, o: Obj) {
    IsOperandKind(k.kind) && o.origin != ""
  }

  /** Some version of the CR had the namespace and was not terminating: an apply may have started. */
  ghost predicate Launched(ray: Ray, versions: set<Ray>) {
    exists v :: v in versions && v.uid == ray.uid && v.ns != "" && !v.terminating
  }

  /** The CR keeps its operands findable: it has its finalizer and its namespace. */
  ghost predicate Anchored(s: State, uid: UID) {
    && s.stored.Some? && s.stored.value.uid == uid
    && s.stored.value.finalizer && s.stored.value.ns != ""
    && Launched(s.stored.value, s.versions)
  }

  ghost predicate Placed(s: State, k: Key, o: Obj) {
    Anchored(s, o.origin) && (k.kind in NAMESPACED_KINDS ==> k.ns == s.stored.value.ns)
  }

  ghost predicate ClusterInv(s: State) {
    && AllTraceable(s.cluster)
    && forall k :: k in s.cluster && Operand(k, s.cluster[k]) ==> Placed(s, k, s.cluster[k])
  }

  ghost predicate NoOperands(c: Objects) {
    forall k :: k in c ==> !Operand(k, c[k])
  }

  /******* The reconcile under way *******/

  /** The CR cannot go away while this reconcile works on it. */
  ghost predicate Held(s: State, ray: Ray) {
    s.stored.Some? && s.stored.value.uid == ray.uid && s.stored.value.finalizer
  }

  predicate Rendered(stage: Stage) {
    stage == Gating || stage == NotebookStage || stage == Deploying || stage == Collecting
  }

  predicate InPipeline(stage: Stage) {
    stage == Rendering || Rendered(stage)
  }

  ghost predicate OpInv(s: State) {
    s.op.Busy? ==>
      var ray, stage := s.op.ray, s.op.stage;
      && ray in s.versions
      && (ray.terminating <==> stage == Cleaning || stage == Releasing)
      && (stage != Finalizing && !ray.terminating ==> ray.finalizer)
      && (ray.finalizer && ray.ns != "" ==> Held(s, ray))
      && (InPipeline(stage) ==> ray.ns != "")
      && (ray.terminating ==> Held(s, ray))
      && (Rendered(stage) ==>
            && (ray.removed ==> s.op.resources == [])
            && AllPrepared(ray.ns, s.op.resources) && forall r :: r in s.op.resources ==> KeyOf(r) != NOTEBOOK_ROLE)
      && (stage == Releasing ==> NoOperands(s.cluster))
  }

  /******* The notebook role *******/

  ghost predicate RoleInv(s: State) {
    && (s.roleMode == ForRemoved ==> NOTEBOOK_ROLE !in s.cluster)
    && (s.roleMode == ForManaged ==> NOTEBOOK_ROLE in s.cluster && NotebookRBAC.IsDesired(s.cluster[NOTEBOOK_ROLE]))
    && (At(s, Deploying) || At(s, Collecting) ==> s.roleMode == Unsettled || s.roleMode == ModeOf(s.op.ray))
  }

  ghost predicate Inv(s: State) {
    HistoryInv(s.stored, s.versions, s.clock) && ClusterInv(s) && OpInv(s) && RoleInv(s)
  }

  /******* New versions *******/

  /** What a write of the CR must respect. */
  ghost predicate Succeeds(old_: Ray, new_: Ray) {
    && new_.uid == old_.uid
    && (old_.ns != "" ==> new_.ns == old_.ns)
    && (old_.terminating ==> new_.terminating)
    && (new_.terminating ==> new_.finalizer)
    && (old_.finalizer && old_.ns != "" ==> new_.finalizer)
  }

  /** A write that keeps the finalizer where operands depend on it disturbs nothing else. */
  lemma StoreKeeps(s: State, new_: Ray)
    requires Inv(s) && s.stored.Some? && Succeeds(s.stored.value, new_) && new_.version == s.clock
    requires s.op.Busy? && Held(s, s.op.ray) ==> new_.finalizer || (s.op.ray.ns == "" && !s.op.ray.terminating)
    ensures Inv(Store(s, Some(new_)))
  {}

  /** The CR may go only when it anchors nothing and no reconcile relies on it. */
  lemma EndKeeps(s: State)
    requires HistoryInv(s.stored, s.versions, s.clock) && OpInv(s) && RoleInv(s)
    requires AllTraceable(s.cluster) && NoOperands(s.cluster)
    requires s.op.Busy? ==> !s.op.ray.terminating && (s.op.ray.finalizer ==> s.op.ray.ns == "")
    ensures Inv(Store(s, None))
  {}

  lemma NoAnchorNoOperands(s: State)
    requires Inv(s)
    requires s.stored == None || !s.stored.value.finalizer || s.stored.value.ns == ""
    ensures NoOperands(s.cluster)
  {}

  /******* Steps of users *******/

  lemma CreateKeeps(s: State, step: Step)
    requires Inv(s) && step.CreateRay? && Enabled(s, step)
    ensures Inv(Next(s, step))
  {}

  lemma EditKeeps(s: State, step: Step)
    requires Inv(s) && (step.EditRay? || step.TouchRay?) && Enabled(s, step)
    ensures Inv(Next(s, step))
  {
    var ray := s.stored.value;
    var new_ := if step.EditRay? then ray.(version := s.clock, removed := step.editRemoved, ns := step.editNs)
                else ray.(version := s.clock);
    StoreKeeps(s, new_);
  }

  lemma DeleteKeeps(s: State)
    requires Inv(s) && Enabled(s, DeleteRay)
    ensures Inv(Next(s, DeleteRay))
  {
    var ray := s.stored.value;
    if ray.finalizer {
      StoreKeeps(s, ray.(version := s.clock, terminating := true));
    } else {
      NoAnchorNoOperands(s);
      EndKeeps(s);
    }
  }

  /******* Steps that change the cluster *******/

  /** Third parties and collectors never add operator-written objects; a reconcile adds them only
      while it holds the CR. */
  lemma ClusterKeeps(s: State, s': State, keys: set<Key>, uid: UID)
    requires ClusterInv(s) && s'.stored == s.stored && s'.versions == s.versions
    requires WritesOnly(s.cluster, s'.cluster, keys, uid)
    requires keys != {} ==> Anchored(s, uid)
    requires forall k :: k in keys && k.kind in NAMESPACED_KINDS ==> k.ns == s.stored.value.ns
    ensures ClusterInv(s')
  {}

  lemma ShrinksNoOperands(c: Objects, c': Objects)
    requires NoOperands(c) && Shrinks(c, c')
    ensures NoOperands(c')
  {}

  /** An object none of the acts touch is only changed by the operator. */
  lemma RoleUntouched(o: Option<Obj>, acts: seq<Act>)
    requires !Touches(acts, NOTEBOOK_ROLE)
    ensures forall i: nat | i <= |acts| :: Evolve(NOTEBOOK_ROLE, o, acts[..i]) == o && Evolve(NOTEBOOK_ROLE, o, acts[i..]) == o
    ensures Evolve(NOTEBOOK_ROLE, o, acts) == o
  {
    forall i: nat | i <= |acts|
      ensures Evolve(NOTEBOOK_ROLE, o, acts[..i]) == o && Evolve(NOTEBOOK_ROLE, o, acts[i..]) == o
    {
      ActsElsewhere(NOTEBOOK_ROLE, o, acts[..i]);
      ActsElsewhere(NOTEBOOK_ROLE, o, acts[i..]);
    }
    ActsElsewhere(NOTEBOOK_ROLE, o, acts);
  }

  lemma InterfereKeeps(s: State, step: Step)
    requires Inv(s) && step.Interfere?
    ensures Inv(Next(s, step))
  {
    var s' := Next(s, step);
    ActsShrink(s.cluster, step.acts);
    ClusterKeeps(s, s', {}, "");
    if NoOperands(s.cluster) { ShrinksNoOperands(s.cluster, s'.cluster); }
    if !Touches(step.acts, NOTEBOOK_ROLE) {
      RoleUntouched(Get(s.cluster, NOTEBOOK_ROLE), step.acts);
      ApplyActsPointwise(s.cluster, step.acts, NOTEBOOK_ROLE);
    }
  }

  /******* The reconcile pipeline *******/

  lemma StartKeeps(s: State, step: Step)
    requires Inv(s) && step.StartReconcile? && Enabled(s, step)
    ensures Inv(Next(s, step))
  {}

  lemma FinalizerStored(s: State)
    requires Inv(s) && At(s, Finalizing) && !s.op.ray.finalizer && Guard(s.stored, s.op.ray)
    ensures var ray := s.op.ray.(finalizer := true, version := s.clock);
      var s' := Store(s, Written(s.stored, s.op.ray.(finalizer := true), s.clock));
      Inv(s'.(op := Idle)) && Inv(s'.(op := Busy(ray, Waiting, [])))
  {
    assert s.stored.value == s.op.ray;
    StoreKeeps(s.(op := Idle), s.op.ray.(finalizer := true, version := s.clock));
  }

  lemma FinalizeKeeps(s: State, step: Step)
    requires Inv(s) && step.AddFinalizer? && Enabled(s, step)
    ensures Inv(Next(s, step))
  {
    var ray := s.op.ray;
    if !ray.finalizer && step.reply != Refused && Guard(s.stored, ray) {
      FinalizerStored(s);
    }
  }

  lemma WaitKeeps(s: State, step: Step)
    requires Inv(s) && step.WaitForNamespace? && Enabled(s, step)
    ensures Inv(Next(s, step))
  {
    var ray := s.op.ray;
    if ray.ns == "" && step.reply != Refused && Guard(s.stored, ray) {
      assert s.stored.value == ray;
      StoreKeeps(s, ray.(finalizer := false, version := s.clock));
    }
  }

  lemma RenderKeeps(s: State, step: Step)
    requires Inv(s) && step.RenderManifests? && Enabled(s, step)
    ensures Inv(Next(s, step))
  {
    var ns, output := s.op.ray.ns, step.output;
    PassesPrepare(ns, output);
    forall r | r in Stamped(Forced(ns, output)) ensures KeyOf(r) != NOTEBOOK_ROLE {
      var i :| 0 <= i < |output| && r == Stamped(Forced(ns, output))[i];
      assert output[i] in output;
    }
  }

  lemma FilterKeepsPrepared(ns: string, resources: seq<Resource>, hasSCCs: bool)
    requires AllPrepared(ns, resources)
    ensures AllPrepared(ns, PlatformFilter.FilteredBy(hasSCCs, resources))
    ensures forall r :: r in PlatformFilter.FilteredBy(hasSCCs, resources) ==> r in resources
  {
    var kept := PlatformFilter.FilterPicks(resources);
  }

  lemma CheckKeeps(s: State, step: Step)
    requires Inv(s) && step.CheckCertManager? && Enabled(s, step)
    ensures Inv(Next(s, step))
  {
    InterfereKeeps(s, Interfere(step.acts));
    FilterKeepsPrepared(s.op.ray.ns, s.op.resources, step.hasSCCs);
  }

  lemma PipelineAnchors(s: State)
    requires Inv(s) && s.op.Busy? && InPipeline(s.op.stage)
    ensures Anchored(s, s.op.ray.uid) && s.stored.value.ns == s.op.ray.ns
  {}

  /** An attempt at the role that fails leaves a role that was in order for the same mode as it is. */
  lemma AttemptKeepsRole(s: State, step: Step)
    requires RoleInv(s) && step.SettleRole? && Enabled(s, step) && !Touches(step.acts, NOTEBOOK_ROLE)
    requires s.roleMode == ModeOf(s.op.ray)
    ensures s.op.ray.removed ==> NOTEBOOK_ROLE !in step.after
    ensures !s.op.ray.removed ==> NOTEBOOK_ROLE in step.after && NotebookRBAC.IsDesired(step.after[NOTEBOOK_ROLE])
  {
    var before, now := Get(s.cluster, NOTEBOOK_ROLE), Get(step.after, NOTEBOOK_ROLE);
    RoleUntouched(before, step.acts);
    if !s.op.ray.removed && now != before {
      var j: nat, o :| j <= |step.acts| && NotebookRBAC.IsDesired(o) && NotebookRBAC.RoleWas(step.acts, step.after, Some(o), j);
      RoleUntouched(Some(o), step.acts);
    }
  }

  lemma SettlingSetsRole(s: State, step: Step)
    requires step.SettleRole? && Enabled(s, step) && !Touches(step.acts, NOTEBOOK_ROLE) && step.ok
    ensures s.op.ray.removed ==> NOTEBOOK_ROLE !in step.after
    ensures !s.op.ray.removed ==> NOTEBOOK_ROLE in step.after && NotebookRBAC.IsDesired(step.after[NOTEBOOK_ROLE])
  {
    if s.op.ray.removed {
      var j: nat :| j <= |step.acts| && NotebookRBAC.RoleWas(step.acts, step.after, None, j);
      RoleUntouched(None, step.acts);
    } else {
      var j: nat, o :| j <= |step.acts| && NotebookRBAC.IsDesired(o) && NotebookRBAC.RoleWas(step.acts, step.after, Some(o), j);
      RoleUntouched(Some(o), step.acts);
    }
  }

  lemma SettleKeeps(s: State, step: Step)
    requires Inv(s) && step.SettleRole? && Enabled(s, step)
    ensures Inv(Next(s, step))
  {
    PipelineAnchors(s);
    ClusterKeeps(s, Next(s, step), {NOTEBOOK_ROLE}, s.op.ray.uid);
    if !Touches(step.acts, NOTEBOOK_ROLE) {
      if step.ok {
        SettlingSetsRole(s, step);
      } else if s.roleMode == ModeOf(s.op.ray) {
        AttemptKeepsRole(s, step);
      }
    }
  }

  lemma DeployWrites(ray: Ray, resources: seq<Resource>, c: Objects, acts: seq<Act>, c': Objects, ok: bool)
    requires AllTraceable(c) && Deployed(ray.uid, resources, c, acts, c', ok) && AllPrepared(ray.ns, resources)
    ensures WritesOnly(c, c', set r | r in resources :: KeyOf(r), ray.uid)
  {
    forall k | k in c' && c'[k].origin != ""
      ensures Traceable(k, c'[k])
      ensures (k in (set r | r in resources :: KeyOf(r)) && c'[k].origin == ray.uid) || (k in c && c[k].origin == c'[k].origin)
    {
      if Get(c', k) == Evolve(k, Get(c, k), acts) {
        EvolveKeepsProvenance(k, Get(c, k), acts);
      } else {
        var r, j: nat, o :| r in resources && KeyOf(r) == k && j <= |acts| && AppliedOne(ray.uid, r, acts, Get(c', k), j, o);
        assert Prepared(ray.ns, r);
        if IsOperandKind(k.kind) {
          assert (PART_OF, COMPONENT) in Labels(r).Items;
          assert (PART_OF, COMPONENT) in o.labels.Items;
        }
        EvolveKeepsProvenance(k, Some(o), acts[j..]);
      }
    }
  }

  lemma DeployKeeps(s: State, step: Step)
    requires Inv(s) && step.Deploy? && Enabled(s, step)
    ensures Inv(Next(s, step))
  {
    var s', ray := Next(s, step), s.op.ray;
    var keys := set r | r in s.op.resources :: KeyOf(r);
    PipelineAnchors(s);
    DeployWrites(ray, s.op.resources, s.cluster, step.acts, step.after, step.ok);
    forall k | k in keys && k.kind in NAMESPACED_KINDS ensures k.ns == s.stored.value.ns {
      var r :| r in s.op.resources && KeyOf(r) == k;
      assert Prepared(ray.ns, r);
    }
    ClusterKeeps(s, s', keys, ray.uid);
    if !Touches(step.acts, NOTEBOOK_ROLE) {
      RoleUntouched(Get(s.cluster, NOTEBOOK_ROLE), step.acts);
      assert Get(step.after, NOTEBOOK_ROLE) == Evolve(NOTEBOOK_ROLE, Get(s.cluster, NOTEBOOK_ROLE), step.acts);
    }
  }

  /** Collection after a role was settled leaves it settled. */
  lemma CollectKeepsRole(s: State, m: OwnedGC.Mark, acts: seq<Act>, after: Objects)
    requires RoleInv(s) && Cleanup.Gathered(m, s.cluster, acts, after) && !Touches(acts, NOTEBOOK_ROLE)
    requires s.roleMode == ForManaged ==> m.ByOwner?
    ensures s.roleMode != Unsettled ==> Get(after, NOTEBOOK_ROLE) == Get(s.cluster, NOTEBOOK_ROLE)
  {
    var before := Get(s.cluster, NOTEBOOK_ROLE);
    RoleUntouched(before, acts);
    RoleUntouched(None, acts);
    assert s.roleMode == ForManaged ==> !OwnedGC.Marked(m, before.value);
    assert Cleanup.GatheredAt(m, NOTEBOOK_ROLE, s.cluster, acts, after);
    if s.roleMode != Unsettled && OwnedGC.Collected(m, NOTEBOOK_ROLE, before, acts, Get(after, NOTEBOOK_ROLE)) {
      var i: nat, j: nat :| i <= j <= |acts| && OwnedGC.CollectedAt(m, NOTEBOOK_ROLE, before, acts, Get(after, NOTEBOOK_ROLE), i, j);
      assert Evolve(NOTEBOOK_ROLE, before, acts[..i]) == before;
    }
  }

  lemma CollectKeeps(s: State, step: Step)
    requires Inv(s) && step.CollectGarbage? && Enabled(s, step)
    ensures Inv(Next(s, step))
  {
    var s', ray := Next(s, step), s.op.ray;
    var m := if ray.removed then OwnedGC.ByOwnerOrLabel(ray.uid) else OwnedGC.ByOwner(ray.uid);
    Cleanup.GatheredShrinks(m, s.cluster, step.acts, step.after);
    ClusterKeeps(s, s', {}, "");
    if !Touches(step.acts, NOTEBOOK_ROLE) {
      CollectKeepsRole(s, m, step.acts, step.after);
    }
  }

  /******* The deletion path *******/

  /** A terminating copy shows the namespace of everything that was ever deployed for its CR, however
      old it is; so cleanup looks in the right place. */
  lemma CleaningLooksRight(s: State, k: Key)
    requires Inv(s) && At(s, Cleaning) && k in s.cluster && Operand(k, s.cluster[k])
    ensures s.cluster[k].origin == s.op.ray.uid && s.op.ray.ns != ""
    ensures OwnedGC.InScope(k, s.op.ray.ns, ALL_KINDS * LISTABLE)
  {}

  lemma CleanUpKeeps(s: State, step: Step)
    requires Inv(s) && step.CleanUp? && Enabled(s, step)
    ensures Inv(Next(s, step))
  {}

  lemma ReleaseKeeps(s: State, step: Step)
    requires Inv(s) && step.ReleaseRay? && Enabled(s, step)
    ensures Inv(Next(s, step))
  {
    if step.reply != Refused {
      EndKeeps(s.(op := Idle));
    }
  }

  /******* All steps *******/

  lemma StepKeeps(s: State, step: Step)
    requires Inv(s) && Enabled(s, step)
    ensures Inv(Next(s, step))
  {
    match step
    case CreateRay(_, _, _, _) => CreateKeeps(s, step);
    case EditRay(_, _) => EditKeeps(s, step);
    case TouchRay => EditKeeps(s, step);
    case DeleteRay => DeleteKeeps(s);
    case Interfere(_) => InterfereKeeps(s, step);
    case StartReconcile(_) => StartKeeps(s, step);
    case AddFinalizer(_) => FinalizeKeeps(s, step);
    case WaitForNamespace(_) => WaitKeeps(s, step);
    case RenderManifests(_) => RenderKeeps(s, step);
    case CheckCertManager(_, _, _) => CheckKeeps(s, step);
    case SettleRole(_, _, _) => SettleKeeps(s, step);
    case Deploy(_, _, _) => DeployKeeps(s, step);
    case CollectGarbage(_, _, _, _) => CollectKeeps(s, step);
    case CleanUp(_, _, _, _) => CleanUpKeeps(s, step);
    case ReleaseRay(_) => ReleaseKeeps(s, step);
    case Abandon =>
  }

  lemma {:induction false} RunKeeps(s: State, steps: seq<Step>)
    requires Initial(s) && IsRun(s, steps)
    ensures Inv(After(s, steps))
    decreases |steps|
  {
    if steps != [] {
      var n := |steps| - 1;
      RunKeeps(s, steps[..n]);
      StepKeeps(After(s, steps[..n]), steps[n]);
    }
  }
}
