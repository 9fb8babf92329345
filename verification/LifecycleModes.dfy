/** Changing between Managed and Removed: what becomes of the notebook role, and that removing again
    does nothing. */
module LifecycleModes {
  import opened Wrappers
  import opened Cluster
  import opened RayApi
  import opened Lifecycle
  import opened LifecycleInvariant
  import opened LifecycleTheorems
  import OwnedGC
  import OwnedGCLaws
  import NotebookRBAC
  import Cleanup

  /******* The notebook role *******/

  /** The last time the role was settled was at position `i`. Since then no third party touched it, no
      cleanup ran, and attempts to settle it failed, all for the same mode. */
  ghost predicate SettledAt(init: State, steps: seq<Step>, i: nat)
    requires IsRun(init, steps) && i < |steps|
  {
    && steps[i].SettleRole? && steps[i].ok
    && (forall j :: i <= j < |steps| ==> !Touches(ActsOf(steps[j]), NOTEBOOK_ROLE))
    && (forall j :: i < j < |steps| ==> !steps[j].CleanUp? && (steps[j].SettleRole? ==> !steps[j].ok && SameMode(init, steps, i, j)))
  }

  /** The reconciles under way at two positions of a run are for the same mode. */
  ghost predicate SameMode(init: State, steps: seq<Step>, i: nat, j: nat)
    requires i < |steps| && j < |steps|
  {
    && IsRun(init, steps[..i]) && After(init, steps[..i]).op.Busy?
    && IsRun(init, steps[..j]) && After(init, steps[..j]).op.Busy?
    && After(init, steps[..i]).op.ray.removed == After(init, steps[..j]).op.ray.removed
  }

  lemma ModePersists(s: State, step: Step)
    requires Enabled(s, step) && !step.CleanUp? && !Touches(ActsOf(step), NOTEBOOK_ROLE)
    requires step.SettleRole? ==> s.roleMode == ModeOf(s.op.ray)
    ensures Next(s, step).roleMode == s.roleMode
  {}

  lemma SettlingSetsMode(s: State, step: Step)
    requires Enabled(s, step) && step.SettleRole? && step.ok && !Touches(step.acts, NOTEBOOK_ROLE)
    ensures s.op.Busy? && Next(s, step).roleMode == ModeOf(s.op.ray)
  {}

  lemma SettledEarlier(init: State, steps: seq<Step>, i: nat, n: nat)
    requires IsRun(init, steps) && i < n <= |steps| && SettledAt(init, steps, i)
    ensures IsRun(init, steps[..n]) && SettledAt(init, steps[..n], i) && steps[..n][..i] == steps[..i]
  {
    PrefixRuns(init, steps, n);
    assert forall j :: 0 <= j < n ==> steps[..n][..j] == steps[..j] && steps[..n][j] == steps[j];
  }

  lemma {:induction false} SettledMode(init: State, steps: seq<Step>, i: nat)
    requires IsRun(init, steps) && i < |steps| && SettledAt(init, steps, i)
    ensures IsRun(init, steps[..i]) && After(init, steps[..i]).op.Busy?
    ensures After(init, steps).roleMode == ModeOf(After(init, steps[..i]).op.ray)
    decreases |steps|
  {
    var before, step := LastStep(init, steps);
    var n := |steps| - 1;
    if i == n {
      SettlingSetsMode(before, step);
    } else {
      SettledEarlier(init, steps, i, n);
      SettledMode(init, steps[..n], i);
      assert step.SettleRole? ==> SameMode(init, steps, i, n);
      ModePersists(before, step);
    }
  }

  /** After any history of mode changes, failures and deletions: once the role was settled it exists
      exactly if that reconcile was not a Removed one, and then it has exactly the wanted content and no
      ownerRef, whatever was there before; as long as nobody touches it, no cleanup runs, and no
      attempt to settle it for the other mode fails. */
  lemma RoleFollowsMode(init: State, steps: seq<Step>, i: nat)
    requires Initial(init) && IsRun(init, steps) && i < |steps| && SettledAt(init, steps, i)
    ensures IsRun(init, steps[..i]) && After(init, steps[..i]).op.Busy?
    ensures var removed, c := After(init, steps[..i]).op.ray.removed, After(init, steps).cluster;
      && (NOTEBOOK_ROLE in c <==> !removed)
      && (NOTEBOOK_ROLE in c ==> NotebookRBAC.GrantsNotebooks(c[NOTEBOOK_ROLE]))
  {
    RunKeeps(init, steps);
    SettledMode(init, steps, i);
    if NOTEBOOK_ROLE in After(init, steps).cluster {
      NotebookRBAC.DesiredGrants(After(init, steps).cluster[NOTEBOOK_ROLE]);
    }
  }

  /******* The last success *******/

  predicate PastRole(s: State) {
    At(s, Deploying) || At(s, Collecting)
  }

  lemma PastRoleFollows(s: State, step: Step)
    requires Enabled(s, step) && PastRole(Next(s, step))
    ensures s.op.Busy? && Next(s, step).op.ray == s.op.ray
    ensures (step.SettleRole? && step.ok) || (PastRole(s) && !step.SettleRole? && !step.StartReconcile?)
  {}

  /** The reconcile under way settled the role itself, at position `i`, and no other did since. */
  ghost predicate OwnSettle(init: State, steps: seq<Step>, i: nat)
    requires IsRun(init, steps) && i < |steps| && IsRun(init, steps[..i])
  {
    var then_, now := After(init, steps[..i]), After(init, steps);
    && steps[i].SettleRole? && steps[i].ok
    && then_.op.Busy? && now.op.Busy? && then_.op.ray == now.op.ray
    && (forall j :: i < j < |steps| ==> !steps[j].SettleRole?)
  }

  lemma OwnSettleNow(init: State, steps: seq<Step>, before: State, step: Step)
    requires EndsWith(init, steps, before, step) && PastRole(After(init, steps)) && step.SettleRole? && step.ok
    ensures OwnSettle(init, steps, |steps| - 1)
  {
    PastRoleFollows(before, step);
  }

  lemma OwnSettleEarlier(init: State, steps: seq<Step>, before: State, step: Step, i: nat)
    requires EndsWith(init, steps, before, step) && PastRole(After(init, steps)) && !step.SettleRole?
    requires i < |steps| - 1 && IsRun(init, steps[..i]) && steps[..|steps| - 1][..i] == steps[..i]
    requires OwnSettle(init, steps[..|steps| - 1], i)
    ensures OwnSettle(init, steps, i)
  {
    PastRoleFollows(before, step);
    assert forall j :: 0 <= j < |steps| - 1 ==> steps[..|steps| - 1][j] == steps[j];
  }

  lemma {:induction false} RoleWasSettled(init: State, steps: seq<Step>) returns (i: nat)
    requires IsRun(init, steps) && PastRole(After(init, steps)) && init.op == Idle
    ensures i < |steps| && IsRun(init, steps[..i]) && OwnSettle(init, steps, i)
    decreases |steps|
  {
    assert steps != [];
    var before, step := LastStep(init, steps);
    PastRoleFollows(before, step);
    if step.SettleRole? {
      i := |steps| - 1;
      OwnSettleNow(init, steps, before, step);
    } else {
      i := RoleWasSettled(init, steps[..|steps| - 1]);
      assert steps[..|steps| - 1][..i] == steps[..i];
      OwnSettleEarlier(init, steps, before, step, i);
    }
  }

  /** The last reconcile that completed ended at position `l`. */
  ghost predicate LastSuccessAt(steps: seq<Step>, l: nat)
    requires l < |steps|
  {
    && steps[l].CollectGarbage? && steps[l].ok
    && (forall j :: l < j < |steps| ==> steps[j].CollectGarbage? ==> !steps[j].ok)
  }

  lemma StepEnabled(init: State, steps: seq<Step>, l: nat)
    requires IsRun(init, steps) && l < |steps|
    ensures IsRun(init, steps[..l]) && Enabled(After(init, steps[..l]), steps[l])
  {
    PrefixRuns(init, steps, l + 1);
    assert steps[..l + 1][..l] == steps[..l];
  }

  /** When the role was last settled before the last success, it was by that very reconcile. */
  lemma SuccessSettled(init: State, steps: seq<Step>, i: nat, l: nat)
    requires IsRun(init, steps) && init.op == Idle && i < l < |steps|
    requires SettledAt(init, steps, i) && LastSuccessAt(steps, l)
    ensures IsRun(init, steps[..i]) && IsRun(init, steps[..l])
    ensures After(init, steps[..i]).op.Busy? && After(init, steps[..l]).op.Busy?
    ensures After(init, steps[..i]).op.ray == After(init, steps[..l]).op.ray
  {
    StepEnabled(init, steps, l);
    var own := RoleWasSettled(init, steps[..l]);
    assert forall j :: 0 <= j < l ==> steps[..l][j] == steps[j];
    assert own == i;
    assert steps[..l][..i] == steps[..i];
  }

  /** Exactly when the last success decides: the notebook role, untouched since it was last settled,
      exists iff the last successful reconcile was not a Removed one, iff that reconcile is the one that
      settled it, or the two were of the same mode. So it fails exactly if a later reconcile of the
      other mode got past the notebook stage without completing. */
  lemma LastSuccessDecides(init: State, steps: seq<Step>, i: nat, l: nat)
    requires Initial(init) && IsRun(init, steps) && i < |steps| && l < |steps|
    requires SettledAt(init, steps, i) && LastSuccessAt(steps, l)
    ensures IsRun(init, steps[..i]) && IsRun(init, steps[..l])
    ensures After(init, steps[..i]).op.Busy? && After(init, steps[..l]).op.Busy?
    ensures var settled, succeeded := After(init, steps[..i]).op.ray.removed, After(init, steps[..l]).op.ray.removed;
      ((NOTEBOOK_ROLE in After(init, steps).cluster) <==> !succeeded) <==> (i < l || settled == succeeded)
  {
    RoleFollowsMode(init, steps, i);
    StepEnabled(init, steps, l);
    if i < l {
      SuccessSettled(init, steps, i, l);
    }
  }

  /******* Removed, and removed again *******/

  /** What a reconcile leaves when there is nothing to remove: fewer objects at most, all unchanged, and
      every object that cleanup looks at. */
  ghost predicate OnlyOthersGone(ns: string, c: Objects, c': Objects) {
    && (forall k :: k in c' ==> k in c && c'[k] == c[k])
    && (forall k :: k in c && OwnedGC.InScope(k, ns, ALL_KINDS) ==> k in c')
  }

  /** Nothing is left to remove for the CR. */
  ghost predicate NothingToRemove(uid: UID, ns: string, c: Objects) {
    NOTEBOOK_ROLE !in c && OwnedGCLaws.Targets(c, uid, ns, LISTABLE) == {}
  }

  lemma DeletesNoRole(c: Objects, c': Objects, ok: bool)
    requires NOTEBOOK_ROLE !in c && NotebookRBAC.Deleted(c, [], c', ok)
    ensures c' == c
  {
    forall k ensures Get(c', k) == Get(c, k) {
      RoleUntouched(None, []);
      if k == NOTEBOOK_ROLE && NotebookRBAC.DisownedBy(c, [], c') {
        var j: nat, o :| j <= 0 && NotebookRBAC.Unowned(c, [], o, j) && NotebookRBAC.RoleWas([], c', o, j);
      }
    }
    SameObjects(c', c);
  }

  lemma DeploysNothing(uid: UID, c: Objects, c': Objects, ok: bool)
    requires Deployed(uid, [], c, [], c', ok)
    ensures c' == c
  {
    forall k ensures Get(c', k) == Get(c, k) {}
    SameObjects(c', c);
  }

  lemma CollectsNothing(uid: UID, ns: string, found: seq<Key>, c: Objects, c': Objects, ok: bool)
    requires NothingToRemove(uid, ns, c) && Cleanup.Reconciled(uid, ns, true, LISTABLE, found, c, [], c', ok)
    ensures OnlyOthersGone(ns, c, c') && NothingToRemove(uid, ns, c')
  {
    var m := OwnedGC.ByOwnerOrLabel(uid);
    forall k
      ensures k in c' ==> k in c && c'[k] == c[k]
      ensures k in c && OwnedGC.InScope(k, ns, ALL_KINDS) ==> k in c'
    {
      assert Cleanup.GatheredAt(m, k, c, [], c');
      if OwnedGC.Collected(m, k, Get(c, k), [], Get(c', k)) {
        assert OwnedGC.CollectedAt(m, k, Get(c, k), [], Get(c', k), 0, 0);
        assert k in c && OwnedGC.InScope(k, ns, ALL_KINDS) ==> k in OwnedGCLaws.Targets(c, uid, ns, LISTABLE);
      }
    }
  }

  lemma SameObjects(a: Objects, b: Objects)
    requires forall k :: Get(a, k) == Get(b, k)
    ensures a == b
  {
    forall k
      ensures k in a <==> k in b
      ensures k in a ==> a[k] == b[k]
    {
      assert Get(a, k) == Get(b, k);
    }
  }

  /** From position `p` on no third party acts, and all reconciles are Removed ones of the CR `uid`;
      users may do what they want, and reconciles may stop anywhere. */
  ghost predicate OnlyRemovedSince(init: State, steps: seq<Step>, p: nat, uid: UID)
    requires IsRun(init, steps)
    decreases |steps|
  {
    |steps| <= p ||
    (&& OnlyRemovedSince(init, steps[..|steps| - 1], p, uid)
     && RemovedStep(After(init, steps[..|steps| - 1]), steps[|steps| - 1], uid))
  }

  predicate RemovedStep(s: State, step: Step, uid: UID) {
    ActsOf(step) == [] && !step.CleanUp? && (s.op.Busy? ==> s.op.ray.removed && s.op.ray.uid == uid)
  }

  lemma RemovedStepIsIdle(s: State, step: Step, ray: Ray)
    requires Inv(s) && Enabled(s, step) && RemovedStep(s, step, ray.uid)
    requires ray in s.versions && ray.ns != "" && NothingToRemove(ray.uid, ray.ns, s.cluster)
    ensures var c' := Next(s, step).cluster;
      OnlyOthersGone(ray.ns, s.cluster, c') && NothingToRemove(ray.uid, ray.ns, c')
  {
    if step.SettleRole? {
      DeletesNoRole(s.cluster, step.after, step.ok);
    } else if step.Deploy? {
      DeploysNothing(ray.uid, s.cluster, step.after, step.ok);
    } else if step.CollectGarbage? {
      PipelineAnchors(s);
      assert s.op.ray.ns == ray.ns;
      CollectsNothing(ray.uid, ray.ns, step.found, s.cluster, step.after, step.ok);
    } else if !step.Interfere? && !step.CheckCertManager? {
      OtherStepsKeepCluster(s, step);
    }
  }

  /** The state after the last success leaves nothing to remove, if that was a Removed reconcile,
      nobody touched the role since it deleted it, and others at most deleted while it collected. */
  lemma SuccessRemovesAll(init: State, steps: seq<Step>, i: nat, l: nat)
    requires Initial(init) && IsRun(init, steps) && i < l && |steps| == l + 1 && SettledAt(init, steps, i)
    requires steps[l].CollectGarbage? && steps[l].ok && OwnedGCLaws.OnlyRemovals(steps[l].acts)
    requires IsRun(init, steps[..l]) && After(init, steps[..l]).op.Busy? && After(init, steps[..l]).op.ray.removed
    ensures var ray, s := After(init, steps[..l]).op.ray, After(init, steps);
      ray.uid != "" && ray.ns != "" && ray in s.versions && NothingToRemove(ray.uid, ray.ns, s.cluster)
  {
    var before, step := LastStep(init, steps);
    RunKeeps(init, steps[..l]);
    VersionsGrow(before, step);
    SuccessSettled(init, steps, i, l);
    RoleFollowsMode(init, steps, i);
  }

  lemma {:induction false} IdleSince(init: State, steps: seq<Step>, p: nat, ray: Ray)
    requires Initial(init) && IsRun(init, steps) && p <= |steps| && OnlyRemovedSince(init, steps, p, ray.uid)
    requires IsRun(init, steps[..p]) && ray in After(init, steps[..p]).versions && ray.ns != ""
    requires NothingToRemove(ray.uid, ray.ns, After(init, steps[..p]).cluster)
    ensures OnlyOthersGone(ray.ns, After(init, steps[..p]).cluster, After(init, steps).cluster)
    ensures ray in After(init, steps).versions && NothingToRemove(ray.uid, ray.ns, After(init, steps).cluster)
    decreases |steps|
  {
    if |steps| == p {
      assert steps[..p] == steps;
    } else {
      var before, step := LastStep(init, steps);
      assert steps[..|steps| - 1][..p] == steps[..p];
      IdleSince(init, steps[..|steps| - 1], p, ray);
      RunKeeps(init, steps[..|steps| - 1]);
      VersionsGrow(before, step);
      RemovedStepIsIdle(before, step, ray);
    }
  }

  /** Once a Removed reconcile has succeeded, with nobody touching the role after it was deleted and
      others at most deleting while it collected, any number of further Removed reconciles of the CR,
      wherever they stop, change no operand and add nothing, as long as third parties keep still. */
  lemma RepeatedRemovalIsIdle(init: State, steps: seq<Step>, i: nat, l: nat)
    requires Initial(init) && IsRun(init, steps) && i < l < |steps|
    requires IsRun(init, steps[..l]) && IsRun(init, steps[..l + 1])
    requires steps[l].CollectGarbage? && steps[l].ok && OwnedGCLaws.OnlyRemovals(steps[l].acts)
    requires After(init, steps[..l]).op.Busy? && After(init, steps[..l]).op.ray.removed
    requires SettledAt(init, steps[..l + 1], i)
    requires OnlyRemovedSince(init, steps, l + 1, After(init, steps[..l]).op.ray.uid)
    ensures OnlyOthersGone(After(init, steps[..l]).op.ray.ns, After(init, steps[..l + 1]).cluster, After(init, steps).cluster)
    ensures NOTEBOOK_ROLE !in After(init, steps).cluster
  {
    assert steps[..l + 1][..l] == steps[..l];
    SuccessRemovesAll(init, steps[..l + 1], i, l);
    IdleSince(init, steps, l + 1, After(init, steps[..l]).op.ray);
  }
}
