/** What a Managed reconcile deploys: what was rendered, told by the fields, and after a success all of
    it is in the cluster. */
module LifecycleDeploys {
  import opened Wrappers
  import opened Cluster
  import opened Render
  import opened Lifecycle
  import opened LifecycleInvariant
  import opened LifecycleTheorems
  import OwnedGC
  import Cleanup
  import PlatformFilter

  /******* What is rendered *******/

  /** The resources are made from the output in order, each of its positions once, except
      SecurityContextConstraints where the cluster does not know them. */
  ghost predicate MadeFromKept(ns: string, hasSCCs: bool, output: seq<Resource>, resources: seq<Resource>, kept: seq<nat>) {
    && |kept| == |resources|
    && (forall i :: 0 <= i < |kept| ==> kept[i] < |output| && MadeFrom(ns, output[kept[i]], resources[i]))
    && (forall i, j :: 0 <= i < j < |kept| ==> kept[i] < kept[j])
    && (forall p :: 0 <= p < |output| ==> (p in kept <==> hasSCCs || !IsForOpenShift(output[p])))
  }

  lemma FilterMakes(ns: string, hasSCCs: bool, output: seq<Resource>, all: seq<Resource>) returns (kept: seq<nat>)
    requires AllMadeFrom(ns, output, all)
    ensures MadeFromKept(ns, hasSCCs, output, PlatformFilter.FilteredBy(hasSCCs, all), kept)
  {
    if hasSCCs {
      kept := seq(|all|, i => i);
      forall p | 0 <= p < |output| ensures p in kept {
        assert kept[p] == p;
      }
    } else {
      kept := PlatformFilter.FilterPicks(all);
    }
  }

  /** The reconcile under way, which has not got past the gate, rendered at position `i`. */
  ghost predicate RenderedAt(init: State, steps: seq<Step>, i: nat)
    requires IsRun(init, steps) && i < |steps|
  {
    var now := After(init, steps);
    && steps[i].RenderManifests? && now.op.Busy?
    && (now.op.ray.removed ==> now.op.resources == [])
    && (!now.op.ray.removed ==> AllMadeFrom(now.op.ray.ns, steps[i].output, now.op.resources))
    && (forall j :: i < j < |steps| ==> !steps[j].StartReconcile?)
  }

  lemma GatingFollows(s: State, step: Step)
    requires Inv(s) && Enabled(s, step) && At(Next(s, step), Gating)
    ensures step.RenderManifests? ==>
      var op := Next(s, step).op;
      (op.ray.removed ==> op.resources == []) && (!op.ray.removed ==> AllMadeFrom(op.ray.ns, step.output, op.resources))
    ensures !step.RenderManifests? ==> At(s, Gating) && Next(s, step).op == s.op && !step.StartReconcile?
  {
    if step.RenderManifests? {
      PassesMake(s.op.ray.ns, step.output);
    }
  }

  lemma RenderedEarlier(init: State, steps: seq<Step>, before: State, step: Step, i: nat)
    requires EndsWith(init, steps, before, step) && i < |steps| - 1 && RenderedAt(init, steps[..|steps| - 1], i)
    requires After(init, steps).op == before.op && !step.StartReconcile?
    ensures RenderedAt(init, steps, i)
  {
    assert forall j :: 0 <= j < |steps| - 1 ==> steps[..|steps| - 1][j] == steps[j];
  }

  lemma {:induction false} GatingWasRendered(init: State, steps: seq<Step>) returns (i: nat)
    requires Initial(init) && IsRun(init, steps) && At(After(init, steps), Gating)
    ensures i < |steps| && RenderedAt(init, steps, i)
    decreases |steps|
  {
    assert steps != [];
    var before, step := LastStep(init, steps);
    var n := |steps| - 1;
    RunKeeps(init, steps[..n]);
    GatingFollows(before, step);
    if step.RenderManifests? {
      i := n;
    } else {
      i := GatingWasRendered(init, steps[..n]);
      RenderedEarlier(init, steps, before, step, i);
    }
  }

  /** Over every run: the resources of a Managed reconcile that passed the gate at `g` are made from what
      it rendered at `i`; nothing else is left out, added or put in another order. */
  lemma DeploysRendered(init: State, steps: seq<Step>) returns (i: nat, g: nat, kept: seq<nat>)
    requires Initial(init) && IsRun(init, steps) && LateStage(After(init, steps)) && !After(init, steps).op.ray.removed
    ensures i < g < |steps| && steps[i].RenderManifests? && steps[g].CheckCertManager?
    ensures forall j :: i < j < |steps| ==> !steps[j].StartReconcile?
    ensures var op := After(init, steps).op;
      MadeFromKept(op.ray.ns, steps[g].hasSCCs, steps[i].output, op.resources, kept)
  {
    g := GateWasPassed(init, steps);
    i := GatingWasRendered(init, steps[..g]);
    var gate := After(init, steps[..g]).op;
    kept := FilterMakes(gate.ray.ns, steps[g].hasSCCs, steps[i].output, gate.resources);
    GateIsNoStart(init, steps, g);
    assert forall j :: 0 <= j < g ==> steps[..g][j] == steps[j];
  }

  lemma GateIsNoStart(init: State, steps: seq<Step>, g: nat)
    requires IsRun(init, steps) && g < |steps| && IsRun(init, steps[..g]) && PassedGate(init, steps, g)
    ensures forall j :: g <= j < |steps| ==> !steps[j].StartReconcile?
  {}

  /******* What is in the cluster *******/

  /** The object is there, written for the CR; with the label part-of=ray unless it is a CRD. */
  ghost predicate InPlace(c: Objects, uid: UID, ns: string, out: Resource) {
    var k := Key(KindOf(out.gvk), if out.ns == "" then "" else ns, out.name);
    && k in c && c[k].origin == uid
    && (out.gvk.kind != "CustomResourceDefinition" ==> SaysPartOfRay(c[k].labels))
  }

  /** One of the resources with this key was applied, with its labels. */
  ghost predicate IsApplied(c: Objects, uid: UID, resources: seq<Resource>, k: Key) {
    k in c && c[k].origin == uid && exists r :: r in resources && KeyOf(r) == k && Labels(r).Items <= c[k].labels.Items
  }

  ghost predicate AllApplied(c: Objects, uid: UID, resources: seq<Resource>) {
    forall r :: r in resources ==> IsApplied(c, uid, resources, KeyOf(r))
  }

  lemma DeployApplies(s: State, step: Step)
    requires Enabled(s, step) && step.Deploy? && step.ok && step.acts == []
    ensures AllApplied(step.after, s.op.ray.uid, s.op.resources)
  {
    forall r | r in s.op.resources
      ensures IsApplied(step.after, s.op.ray.uid, s.op.resources, KeyOf(r))
    {
      var k := KeyOf(r);
      assert AppliedFrom(s.op.ray.uid, s.op.resources, k, [], Get(step.after, k));
      var r', j: nat, o :| r' in s.op.resources && KeyOf(r') == k && j <= 0
                           && AppliedOne(s.op.ray.uid, r', [], Get(step.after, k), j, o);
      assert Get(step.after, k) == Some(o);
    }
  }

  lemma CollectionSpares(s: State, step: Step, k: Key)
    requires Enabled(s, step) && step.CollectGarbage? && !s.op.ray.removed && step.acts == []
    requires exists r :: r in s.op.resources && KeyOf(r) == k
    ensures Get(step.after, k) == Get(s.cluster, k)
  {
    assert Cleanup.CollectionAt(OwnedGC.ByOwner(s.op.ray.uid), step.found, k, s.cluster, [], step.after, step.ok);
  }

  /** The deploy action of the reconcile under way succeeded at `d`; and all it applied is in place, if
      nobody acted since. */
  ghost predicate DeployedAt(init: State, steps: seq<Step>, d: nat)
    requires IsRun(init, steps) && d < |steps|
  {
    var now := After(init, steps);
    && steps[d].Deploy? && steps[d].ok && now.op.Busy?
    && (forall j :: d < j < |steps| ==> !steps[j].StartReconcile?)
    && ((forall j :: d <= j < |steps| ==> ActsOf(steps[j]) == []) ==>
          AllApplied(now.cluster, now.op.ray.uid, now.op.resources))
  }

  lemma CollectingFollows(s: State, step: Step)
    requires Enabled(s, step) && At(Next(s, step), Collecting)
    ensures step.Deploy? ==> step.ok && s.op.Busy? && Next(s, step).op == s.op.(stage := Collecting)
    ensures !step.Deploy? ==> At(s, Collecting) && Next(s, step).op == s.op && !step.StartReconcile?
    ensures !step.Deploy? && ActsOf(step) == [] ==> Next(s, step).cluster == s.cluster
  {}

  lemma DeployedNow(init: State, steps: seq<Step>, before: State, step: Step)
    requires EndsWith(init, steps, before, step) && At(After(init, steps), Collecting) && step.Deploy?
    ensures DeployedAt(init, steps, |steps| - 1)
  {
    CollectingFollows(before, step);
    if step.acts == [] {
      DeployApplies(before, step);
    }
  }

  lemma DeployedEarlier(init: State, steps: seq<Step>, before: State, step: Step, d: nat)
    requires EndsWith(init, steps, before, step) && At(After(init, steps), Collecting) && !step.Deploy?
    requires d < |steps| - 1 && DeployedAt(init, steps[..|steps| - 1], d)
    ensures DeployedAt(init, steps, d)
  {
    CollectingFollows(before, step);
    assert forall j :: 0 <= j < |steps| - 1 ==> steps[..|steps| - 1][j] == steps[j];
  }

  lemma {:induction false} CollectingWasDeployed(init: State, steps: seq<Step>) returns (d: nat)
    requires IsRun(init, steps) && init.op == Idle && At(After(init, steps), Collecting)
    ensures d < |steps| && DeployedAt(init, steps, d)
    decreases |steps|
  {
    assert steps != [];
    var before, step := LastStep(init, steps);
    CollectingFollows(before, step);
    if step.Deploy? {
      d := |steps| - 1;
      DeployedNow(init, steps, before, step);
    } else {
      d := CollectingWasDeployed(init, steps[..|steps| - 1]);
      DeployedEarlier(init, steps, before, step, d);
    }
  }

  lemma AppliedInPlace(c: Objects, uid: UID, ns: string, resources: seq<Resource>, out: Resource, r: Resource)
    requires r in resources && MadeFrom(ns, out, r) && IsApplied(c, uid, resources, KeyOf(r))
    requires forall q :: q in resources && q.gvk.kind != "CustomResourceDefinition" ==> SaysPartOfRay(Labels(q))
    ensures InPlace(c, uid, ns, out)
  {
    var k := KeyOf(r);
    var q :| q in resources && KeyOf(q) == k && Labels(q).Items <= c[k].labels.Items;
    if out.gvk.kind != "CustomResourceDefinition" {
      KindsDiffer(q.gvk, r.gvk);
      assert ("platform.opendatahub.io/part-of", "ray") in Labels(q).Items;
      assert ("platform.opendatahub.io/part-of", "ray") in c[k].labels.Items;
    }
  }

  lemma KindsDiffer(a: GVK, b: GVK)
    requires KindOf(a) == KindOf(b)
    ensures a.kind == b.kind
  {}

  /** Over every run: when a Managed reconcile completes, it has deployed what it rendered at `i` and
      filtered at `g` by its deploy action at `d`, and if nobody acted since then, every object rendered
      is in the cluster, except SecurityContextConstraints where it does not know them. */
  lemma SuccessDeploysAll(init: State, steps: seq<Step>) returns (i: nat, g: nat, d: nat)
    requires Initial(init) && IsRun(init, steps) && steps != [] && IsRun(init, steps[..|steps| - 1])
    requires steps[|steps| - 1].CollectGarbage? && steps[|steps| - 1].ok
    requires After(init, steps[..|steps| - 1]).op.Busy? && !After(init, steps[..|steps| - 1]).op.ray.removed
    ensures i < |steps| && g < |steps| && d < |steps|
    ensures steps[i].RenderManifests? && steps[g].CheckCertManager? && steps[d].Deploy? && steps[d].ok
    ensures forall j :: i < j < |steps| ==> !steps[j].StartReconcile?
    ensures forall j :: d < j < |steps| ==> !steps[j].StartReconcile?
    ensures (forall j :: d <= j < |steps| ==> ActsOf(steps[j]) == []) ==>
      var ray := After(init, steps[..|steps| - 1]).op.ray;
      forall p :: 0 <= p < |steps[i].output| && (steps[g].hasSCCs || !IsForOpenShift(steps[i].output[p])) ==>
        InPlace(After(init, steps).cluster, ray.uid, ray.ns, steps[i].output[p])
  {
    var front := steps[..|steps| - 1];
    var before, step := LastStep(init, steps);
    var kept;
    i, g, kept := DeploysRendered(init, front);
    d := CollectingWasDeployed(init, front);
    assert forall j :: 0 <= j < |front| ==> front[j] == steps[j];
    if forall j :: d <= j < |steps| ==> ActsOf(steps[j]) == [] {
      assert step.acts == ActsOf(steps[|steps| - 1]) == [];
      AllStaysInPlace(before, step, steps[g].hasSCCs, steps[i].output, kept);
    }
  }

  lemma AllStaysInPlace(s: State, step: Step, hasSCCs: bool, output: seq<Resource>, kept: seq<nat>)
    requires Enabled(s, step) && step.CollectGarbage? && step.acts == [] && !s.op.ray.removed
    requires AllApplied(s.cluster, s.op.ray.uid, s.op.resources)
    requires MadeFromKept(s.op.ray.ns, hasSCCs, output, s.op.resources, kept)
    ensures forall p :: 0 <= p < |output| && (hasSCCs || !IsForOpenShift(output[p])) ==>
      InPlace(step.after, s.op.ray.uid, s.op.ray.ns, output[p])
  {
    var rs := s.op.resources;
    forall q | q in rs && q.gvk.kind != "CustomResourceDefinition" ensures SaysPartOfRay(Labels(q)) {
      var x :| 0 <= x < |rs| && rs[x] == q;
      assert MadeFrom(s.op.ray.ns, output[kept[x]], rs[x]);
    }
    forall p | 0 <= p < |output| && (hasSCCs || !IsForOpenShift(output[p]))
      ensures InPlace(step.after, s.op.ray.uid, s.op.ray.ns, output[p])
    {
      assert p in kept;
      var x :| 0 <= x < |kept| && kept[x] == p;
      assert IsApplied(s.cluster, s.op.ray.uid, rs, KeyOf(rs[x]));
      CollectionSpares(s, step, KeyOf(rs[x]));
      AppliedInPlace(step.after, s.op.ray.uid, s.op.ray.ns, rs, output[p], rs[x]);
    }
  }
}
