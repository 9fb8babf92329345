/** What holds over whole runs. */
module LifecycleTheorems {
  import opened Wrappers
  import opened Cluster
  import opened RayApi
  import opened Render
  import opened Lifecycle
  import opened LifecycleInvariant
  import OwnedGC
  import Dependencies
  import PlatformFilter
  import Cleanup

  /** The run up to the last step, and what that step makes of its state. */
  ghost predicate EndsWith(init: State, steps: seq<Step>, before: State, step: Step) {
    && IsRun(init, steps) && steps != [] && step == steps[|steps| - 1]
    && IsRun(init, steps[..|steps| - 1]) && before == After(init, steps[..|steps| - 1])
    && Enabled(before, step) && After(init, steps) == Next(before, step)
  }

  lemma LastStep(init: State, steps: seq<Step>) returns (before: State, step: Step)
    requires IsRun(init, steps) && steps != []
    ensures EndsWith(init, steps, before, step)
  {
    before, step := After(init, steps[..|steps| - 1]), steps[|steps| - 1];
  }

  lemma Extend(init: State, steps: seq<Step>, step: Step)
    requires IsRun(init, steps) && Enabled(After(init, steps), step)
    ensures IsRun(init, steps + [step]) && After(init, steps + [step]) == Next(After(init, steps), step)
  {
    assert (steps + [step])[..|steps|] == steps;
  }

  function ActsOf(step: Step): seq<Act> {
    match step
    case Interfere(acts) => acts
    case CheckCertManager(acts, _, _) => acts
    case SettleRole(acts, _, _) => acts
    case Deploy(acts, _, _) => acts
    case CollectGarbage(acts, _, _, _) => acts
    case CleanUp(acts, _, _, _) => acts
    case _ => []
  }

  /******* The namespace stays *******/

  lemma VersionsGrow(s: State, step: Step)
    requires Enabled(s, step)
    ensures s.versions <= Next(s, step).versions
  {}

  lemma {:induction false} VersionsKept(init: State, steps: seq<Step>, i: nat)
    requires IsRun(init, steps) && i <= |steps|
    ensures IsRun(init, steps[..i]) && After(init, steps[..i]).versions <= After(init, steps).versions
    decreases |steps|
  {
    if i == |steps| {
      assert steps[..i] == steps;
    } else {
      var before, step := LastStep(init, steps);
      assert steps[..|steps| - 1][..i] == steps[..i];
      VersionsKept(init, steps[..|steps| - 1], i);
      VersionsGrow(before, step);
    }
  }

  /** Over every run there is no CR by another name than `default-ray`. */
  lemma OnlyDefaultRay(init: State, steps: seq<Step>, i: nat)
    requires IsRun(init, steps) && i < |steps| && steps[i].CreateRay?
    ensures steps[i].name == "default-ray"
  {
    PrefixRuns(init, steps, i + 1);
    assert steps[..i + 1][..i] == steps[..i];
  }

  /** Over every run the admission rules do what they are for: once a CR has a namespace, it has the
      same one for as long as it is stored, and a terminating CR stays terminating. */
  lemma NamespaceIsImmutable(init: State, steps: seq<Step>, i: nat)
    requires Initial(init) && IsRun(init, steps) && i <= |steps|
    ensures IsRun(init, steps[..i])
    ensures var was, now := After(init, steps[..i]).stored, After(init, steps).stored;
      was.Some? && now.Some? && now.value.uid == was.value.uid ==>
        && (was.value.ns != "" ==> now.value.ns == was.value.ns)
        && (was.value.terminating ==> now.value.terminating)
  {
    VersionsKept(init, steps, i);
    RunKeeps(init, steps[..i]);
    RunKeeps(init, steps);
  }

  /******* Nothing leaks *******/

  /** In every reachable state an operator-written object of the operand kinds belongs to the stored
      CR, which has its finalizer and a namespace, and lies where cleanup for that CR looks. So
      without CR, finalizer or namespace there is none. */
  lemma NoLeak(init: State, steps: seq<Step>)
    requires Initial(init) && IsRun(init, steps)
    ensures var s := After(init, steps);
      && (forall k :: k in s.cluster && Operand(k, s.cluster[k]) ==>
            && s.stored.Some? && s.stored.value.uid == s.cluster[k].origin && s.stored.value.finalizer
            && OwnedGC.InScope(k, s.stored.value.ns, ALL_KINDS)
            && (k == NOTEBOOK_ROLE || OwnedGC.Marked(OwnedGC.ByOwnerOrLabel(s.stored.value.uid), s.cluster[k])))
      && (s.stored == None || !s.stored.value.finalizer || s.stored.value.ns == "" ==> NoOperands(s.cluster))
  {
    var s := After(init, steps);
    RunKeeps(init, steps);
    forall k | k in s.cluster && Operand(k, s.cluster[k])
      ensures Placed(s, k, s.cluster[k])
    {}
    if s.stored == None || !s.stored.value.finalizer || s.stored.value.ns == "" {
      NoAnchorNoOperands(s);
    }
  }

  /******* The wait for a namespace, on copies that may be old *******/

  /** The wait never changes a stored CR that has a namespace, and a copy without a namespace never
      gets past it, whatever the reply; a copy that does get past it shows the stored namespace. A
      current copy without a namespace takes the finalizer off, unless the server refuses. */
  lemma StaleCopiesAreHarmless(init: State, steps: seq<Step>, reply: Reply)
    requires Initial(init) && IsRun(init, steps) && At(After(init, steps), Waiting)
    ensures var s := After(init, steps);
      var s' := Next(s, WaitForNamespace(reply));
      && (s.stored.Some? && s.stored.value.ns != "" ==> s'.stored == s.stored)
      && (s.op.ray.ns == "" ==> s'.op == Idle)
      && (s'.op != Idle ==> s'.stored.Some? && s'.stored.value.ns == s'.op.ray.ns && s'.stored.value.finalizer)
      && (s.op.ray.ns == "" && s.stored == Some(s.op.ray) && reply != Refused ==>
            s'.stored == Some(s.stored.value.(finalizer := false, version := s.clock)))
  {
    var s := After(init, steps);
    RunKeeps(init, steps);
    WaitKeeps(s, WaitForNamespace(reply));
    var s' := Next(s, WaitForNamespace(reply));
    if s'.op != Idle {
      PipelineAnchors(s');
    }
  }

  /******* The gate before anything is written *******/

  predicate LateStage(s: State) {
    At(s, NotebookStage) || At(s, Deploying) || At(s, Collecting)
  }

  /** The check for cert-manager at position `i` of the run, in the reconcile that is still under way,
      let it pass: while Managed, every required CRD was found. Since then the resources are what the
      platform filter left of them. */
  ghost predicate PassedGate(init: State, steps: seq<Step>, i: nat)
    requires IsRun(init, steps) && i < |steps| && IsRun(init, steps[..i])
  {
    && After(init, steps).op.Busy? && GateLets(After(init, steps[..i]), steps[i], After(init, steps).op)
    && (forall j :: i < j < |steps| ==> !steps[j].StartReconcile?)
  }

  ghost predicate GateLets(gate: State, step: Step, op: Op)
    requires op.Busy?
  {
    && At(gate, Gating) && gate.op.ray == op.ray && step.CheckCertManager?
    && op.resources == PlatformFilter.FilteredBy(step.hasSCCs, gate.op.resources)
    && (!op.ray.removed ==> Dependencies.NeedsMet(gate.op.resources, gate.cluster, step.acts))
  }

  lemma {:induction false} PrefixRuns(init: State, steps: seq<Step>, i: nat)
    requires IsRun(init, steps) && i <= |steps|
    ensures IsRun(init, steps[..i])
    decreases |steps|
  {
    if i == |steps| {
      assert steps[..i] == steps;
    } else {
      assert steps[..|steps| - 1][..i] == steps[..i];
      PrefixRuns(init, steps[..|steps| - 1], i);
    }
  }

  lemma LateStagesFollow(s: State, step: Step)
    requires Enabled(s, step) && LateStage(Next(s, step))
    ensures (step.CheckCertManager? && step.ok && At(s, Gating)) || (LateStage(s) && !step.StartReconcile?)
    ensures s.op.Busy? && Next(s, step).op.ray == s.op.ray
    ensures LateStage(s) ==> Next(s, step).op.resources == s.op.resources
  {}

  lemma GatePassedNow(init: State, steps: seq<Step>, before: State, step: Step)
    requires EndsWith(init, steps, before, step) && LateStage(After(init, steps))
    requires step.CheckCertManager? && step.ok && At(before, Gating)
    ensures PassedGate(init, steps, |steps| - 1)
  {
    Dependencies.NeedsAre(before.op.resources, before.cluster, step.acts);
  }

  lemma GateLetsOnward(gate: State, step: Step, op: Op, later: Op)
    requires op.Busy? && later.Busy? && GateLets(gate, step, op) && later.ray == op.ray && later.resources == op.resources
    ensures GateLets(gate, step, later)
  {}

  lemma GatePassedEarlier(init: State, steps: seq<Step>, before: State, step: Step, i: nat)
    requires EndsWith(init, steps, before, step) && LateStage(before) && LateStage(After(init, steps)) && !step.StartReconcile?
    requires i < |steps| - 1 && IsRun(init, steps[..i]) && steps[..|steps| - 1][..i] == steps[..i]
    requires PassedGate(init, steps[..|steps| - 1], i)
    ensures PassedGate(init, steps, i)
  {
    LateStagesFollow(before, step);
    GateLetsOnward(After(init, steps[..i]), steps[i], before.op, After(init, steps).op);
    assert forall j :: 0 <= j < |steps| - 1 ==> steps[..|steps| - 1][j] == steps[j];
  }

  lemma {:induction false} GateWasPassed(init: State, steps: seq<Step>) returns (i: nat)
    requires IsRun(init, steps) && LateStage(After(init, steps)) && init.op == Idle
    ensures i < |steps| && IsRun(init, steps[..i]) && PassedGate(init, steps, i)
    decreases |steps|
  {
    assert steps != [];
    var before, step := LastStep(init, steps);
    LateStagesFollow(before, step);
    if step.CheckCertManager? && step.ok && At(before, Gating) {
      i := |steps| - 1;
      GatePassedNow(init, steps, before, step);
    } else {
      i := GateWasPassed(init, steps[..|steps| - 1]);
      assert steps[..|steps| - 1][..i] == steps[..i];
      GatePassedEarlier(init, steps, before, step, i);
    }
  }

  lemma OtherStepsKeepCluster(s: State, step: Step)
    requires Enabled(s, step)
    requires !step.Interfere? && !step.CheckCertManager? && !step.SettleRole? && !step.Deploy?
    requires !step.CollectGarbage? && !step.CleanUp?
    ensures Next(s, step).cluster == s.cluster
  {}

  lemma RemovedDeploysNothing(ray: Ray, c: Objects, acts: seq<Act>, c': Objects, ok: bool)
    requires AllTraceable(c) && Deployed(ray.uid, [], c, acts, c', ok)
    ensures Shrinks(c, c')
  {
    DeployWrites(ray, [], c, acts, c', ok);
    assert (set r: Resource | r in [] :: KeyOf(r)) == {};
  }

  /** Only the notebook stage and the deploy stage of a Managed reconcile add operator-written objects. */
  lemma OnlyManagedWrites(s: State, step: Step)
    requires Inv(s) && Enabled(s, step)
    ensures !Shrinks(s.cluster, Next(s, step).cluster) ==>
      LateStage(s) && !s.op.ray.removed && (step.SettleRole? || step.Deploy?)
  {
    if step.Interfere? || step.CheckCertManager? {
      ActsShrink(s.cluster, step.acts);
    } else if step.CollectGarbage? {
      var m := if s.op.ray.removed then OwnedGC.ByOwnerOrLabel(s.op.ray.uid) else OwnedGC.ByOwner(s.op.ray.uid);
      Cleanup.GatheredShrinks(m, s.cluster, step.acts, step.after);
    } else if step.Deploy? {
      if s.op.ray.removed {
        RemovedDeploysNothing(s.op.ray, s.cluster, step.acts, step.after, step.ok);
      }
    } else if !step.SettleRole? && !step.CleanUp? {
      OtherStepsKeepCluster(s, step);
    }
  }

  /** In every run: a step that writes the notebook role or deploys, whether or not it changes anything,
      belongs to a reconcile that has passed the gate, having found every CRD required by what it
      rendered; and so does any step that adds an operator-written object, which only a Managed
      reconcile does. */
  lemma WritesAreGated(init: State, steps: seq<Step>, step: Step) returns (i: nat)
    requires Initial(init) && IsRun(init, steps) && Enabled(After(init, steps), step)
    requires step.SettleRole? || step.Deploy?
      || !Shrinks(After(init, steps).cluster, Next(After(init, steps), step).cluster)
    ensures After(init, steps).op.Busy?
    ensures !Shrinks(After(init, steps).cluster, Next(After(init, steps), step).cluster) ==> !After(init, steps).op.ray.removed
    ensures i < |steps| && IsRun(init, steps[..i]) && PassedGate(init, steps, i)
  {
    RunKeeps(init, steps);
    OnlyManagedWrites(After(init, steps), step);
    i := GateWasPassed(init, steps);
  }

  /******* What may happen *******/

  /** What users ask for is what happens, as far as it is admitted: any mode and namespace for a new CR, a
      new mode at any time and a new namespace while there is none, and deletion, which waits for the
      finalizer. Every version that is stored may be seen from then on. */
  lemma UsersGetTheirWay(s: State, uid: UID, removed: bool, ns: string)
    ensures s.stored == None && uid != "" && (forall v :: v in s.versions ==> v.uid != uid) ==>
      var step := CreateRay("default-ray", uid, removed, ns);
      var ray := Ray(uid, s.clock, false, false, removed, ns);
      Enabled(s, step) && Next(s, step).stored == Some(ray) && ray in Next(s, step).versions
    ensures s.stored.Some? && (s.stored.value.ns == "" || ns == s.stored.value.ns) ==>
      var step := EditRay(removed, ns);
      Enabled(s, step) && Next(s, step).stored == Some(s.stored.value.(version := s.clock, removed := removed, ns := ns))
    ensures s.stored.Some? ==>
      Enabled(s, TouchRay) && Next(s, TouchRay).stored == Some(s.stored.value.(version := s.clock))
    ensures s.stored.Some? ==>
      var ray := s.stored.value;
      Enabled(s, DeleteRay) && Next(s, DeleteRay).stored ==
        if ray.finalizer then Some(ray.(version := s.clock, terminating := true)) else None
  {}

  /** Nothing is assumed away: third parties may act at any time, a reconcile may start from any version
      that the CR ever had and break off at any time, and the check and the deploy action may fail with
      nothing done. */
  lemma AnythingMayGoWrong(s: State, acts: seq<Act>, seen: Ray, hasSCCs: bool)
    ensures Enabled(s, Interfere(acts)) && Next(s, Interfere(acts)).cluster == ApplyActs(s.cluster, acts)
    ensures s.op == Idle && s.stored.Some? && seen in s.versions && seen.uid == s.stored.value.uid ==>
      Enabled(s, StartReconcile(seen)) && Next(s, StartReconcile(seen)).op.Busy? && Next(s, StartReconcile(seen)).op.ray == seen
    ensures s.op.Busy? ==> Enabled(s, Abandon) && Next(s, Abandon) == s.(op := Idle)
    ensures At(s, Gating) ==> Enabled(s, CheckCertManager(acts, false, hasSCCs))
    ensures At(s, Deploying) ==> Enabled(s, Deploy(acts, ApplyActs(s.cluster, acts), false))
  {
    DeployMayFail(s, acts);
  }

  lemma DeployMayFail(s: State, acts: seq<Act>)
    ensures At(s, Deploying) ==> Enabled(s, Deploy(acts, ApplyActs(s.cluster, acts), false))
  {
    forall k ensures Get(ApplyActs(s.cluster, acts), k) == Evolve(k, Get(s.cluster, k), acts) {
      ApplyActsPointwise(s.cluster, acts, k);
    }
  }

  /** Every update of the CR may get any reply. */
  lemma AnyReplyMayCome(s: State, reply: Reply)
    ensures At(s, Finalizing) ==> Enabled(s, AddFinalizer(reply))
    ensures At(s, Waiting) ==> Enabled(s, WaitForNamespace(reply))
    ensures At(s, Releasing) ==> Enabled(s, ReleaseRay(reply))
  {}
}
