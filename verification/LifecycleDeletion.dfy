/** Deleting the CR: it never sticks, and it takes its operands along. */
module LifecycleDeletion {
  import opened Wrappers
  import opened Cluster
  import opened Lifecycle
  import opened LifecycleInvariant
  import opened LifecycleTheorems
  import OwnedGC
  import OwnedGCLaws
  import NotebookRBAC
  import Cleanup

  /******* The CR never sticks *******/

  /** What a cleanup that nobody disturbs takes. */
  ghost function CleanupTakes(uid: UID, ns: string, found: seq<Key>, c: Objects): set<Key> {
    if ns == "" then {}
    else OwnedGCLaws.Targets(c, uid, ns, LISTABLE) + {NOTEBOOK_ROLE}
         + set k | k in c && Cleanup.Shown(found, k) && Labeled(c[k])
  }

  /** A cleanup that nobody disturbs can succeed, whatever is in the cluster. */
  lemma UndisturbedCleanup(uid: UID, ns: string, found: seq<Key>, c: Objects) returns (c': Objects)
    requires AllTraceable(c) && uid != ""
    ensures Cleanup.CleanedUp(uid, ns, LISTABLE, found, c, [], c', true)
    ensures c' == c - CleanupTakes(uid, ns, found, c)
  {
    var m := OwnedGC.ByOwnerOrLabel(uid);
    c' := c - CleanupTakes(uid, ns, found, c);
    if ns == "" {
      Cleanup.Untouched(m, c);
      return;
    }
    forall k | k != NOTEBOOK_ROLE
      ensures Cleanup.RemovalAt(uid, ns, LISTABLE, found, k, c, [], c', true) && Cleanup.GatheredAt(m, k, c, [], c')
    {
      CleanedAt(uid, ns, found, c, c', k);
      Cleanup.RemovalGathers(uid, ns, LISTABLE, found, k, c, [], c', true);
    }
    assert NotebookRBAC.RoleWas([], c', None, 0);
    Cleanup.RemovalEmpties(uid, ns, LISTABLE, found, c, [], c');
  }

  lemma CleanedAt(uid: UID, ns: string, found: seq<Key>, c: Objects, c': Objects, k: Key)
    requires ns != "" && uid != "" && k != NOTEBOOK_ROLE && c' == c - CleanupTakes(uid, ns, found, c)
    ensures Cleanup.RemovalAt(uid, ns, LISTABLE, found, k, c, [], c', true)
  {
    var m := if OwnedGC.InScope(k, ns, ALL_KINDS * LISTABLE) then OwnedGC.ByOwnerOrLabel(uid) else OwnedGC.ByLabel;
    if k in c && k !in c' {
      assert OwnedGC.CollectedAt(m, k, Get(c, k), [], None, 0, 0);
    } else {
      assert OwnedGC.LeftAlone(k, Get(c, k), [], Get(c', k));
      if OwnedGC.InScope(k, ns, ALL_KINDS * LISTABLE) || Cleanup.Shown(found, k) {
        assert OwnedGC.UnmarkedAt(m, k, Get(c, k), [], 0);
      }
    }
  }

  lemma CleanTerminating(init: State, run: seq<Step>) returns (more: seq<Step>)
    requires Initial(init) && IsRun(init, run)
    requires var s := After(init, run); s.op == Idle && s.stored.Some? && s.stored.value.terminating
    ensures IsRun(init, run + more) && At(After(init, run + more), Releasing)
    ensures After(init, run + more).op.ray == After(init, run).stored.value
  {
    var s := After(init, run);
    RunKeeps(init, run);
    var seen := s.stored.value;
    Extend(init, run, StartReconcile(seen));
    var run1 := run + [StartReconcile(seen)];
    var after := UndisturbedCleanup(seen.uid, seen.ns, [], s.cluster);
    Extend(init, run1, CleanUp([], after, true, []));
    more := [StartReconcile(seen), CleanUp([], after, true, [])];
    assert run + more == run1 + [CleanUp([], after, true, [])];
  }

  lemma ReleaseTerminating(init: State, run: seq<Step>) returns (more: seq<Step>)
    requires Initial(init) && IsRun(init, run)
    requires var s := After(init, run); s.op == Idle && s.stored.Some? && s.stored.value.terminating
    ensures IsRun(init, run + more) && After(init, run + more).stored == None
  {
    var first := CleanTerminating(init, run);
    var run2 := run + first;
    Extend(init, run2, ReleaseRay(Served));
    more := first + [ReleaseRay(Served)];
    assert run + more == run2 + [ReleaseRay(Served)];
  }

  lemma DeleteStep(init: State, run: seq<Step>)
    requires IsRun(init, run) && After(init, run).op == Idle && After(init, run).stored.Some?
    ensures IsRun(init, run + [DeleteRay])
    ensures var s := After(init, run + [DeleteRay]);
      s.op == Idle && (s.stored.Some? ==> s.stored.value.terminating)
  {
    Extend(init, run, DeleteRay);
  }

  lemma DeletePresent(init: State, run: seq<Step>) returns (more: seq<Step>)
    requires Initial(init) && IsRun(init, run) && After(init, run).op == Idle && After(init, run).stored.Some?
    ensures IsRun(init, run + more) && After(init, run + more).stored == None
  {
    DeleteStep(init, run);
    var last := [];
    if After(init, run + [DeleteRay]).stored.Some? {
      last := ReleaseTerminating(init, run + [DeleteRay]);
    } else {
      assert run + [DeleteRay] + [] == run + [DeleteRay];
    }
    Joined(init, run, [DeleteRay], last);
    more := [DeleteRay] + last;
  }

  lemma Joined(init: State, run: seq<Step>, first: seq<Step>, last: seq<Step>)
    requires IsRun(init, run + first + last) && After(init, run + first + last).stored == None
    ensures IsRun(init, run + (first + last)) && After(init, run + (first + last)).stored == None
  {
    assert run + (first + last) == run + first + last;
  }

  lemma DeleteIdle(init: State, run: seq<Step>) returns (more: seq<Step>)
    requires Initial(init) && IsRun(init, run) && After(init, run).op == Idle
    ensures IsRun(init, run + more) && After(init, run + more).stored == None
  {
    if After(init, run).stored == None {
      more := [];
      assert run + more == run;
    } else {
      more := DeletePresent(init, run);
    }
  }

  /** From every reachable state the CR can be deleted for good, in whatever mode it is and even if a
      reconcile is under way, and nothing of it stays behind. */
  lemma CanAlwaysBeDeleted(init: State, steps: seq<Step>) returns (more: seq<Step>)
    requires Initial(init) && IsRun(init, steps)
    ensures IsRun(init, steps + more)
    ensures After(init, steps + more).stored == None && NoOperands(After(init, steps + more).cluster)
  {
    var first := if After(init, steps).op.Busy? then [Abandon] else [];
    assert first == [] ==> steps + first == steps;
    if first != [] {
      Extend(init, steps, Abandon);
    }
    var last := DeleteIdle(init, steps + first);
    more := first + last;
    assert steps + more == steps + first + last;
    NoLeak(init, steps + more);
  }

  /** The promise ends with the seven kinds: an object of another kind, even an operator-written one,
      stays through any cleanup that nobody disturbs, if the framework's collector does not find it; and
      the cleanup can succeed. */
  lemma OtherKindsMayStay(uid: UID, ns: string, found: seq<Key>, c: Objects, k: Key)
    requires AllTraceable(c) && uid != "" && k in c && !IsOperandKind(k.kind) && k !in found
    ensures exists c' :: Cleanup.CleanedUp(uid, ns, LISTABLE, found, c, [], c', true)
    ensures forall c', ok :: Cleanup.CleanedUp(uid, ns, LISTABLE, found, c, [], c', ok) ==> Get(c', k) == Some(c[k])
  {
    var c' := UndisturbedCleanup(uid, ns, found, c);
    forall c', ok | Cleanup.CleanedUp(uid, ns, LISTABLE, found, c, [], c', ok) ensures Get(c', k) == Some(c[k]) {
      if ns != "" {
        assert Cleanup.RemovalAt(uid, ns, LISTABLE, found, k, c, [], c', ok);
      }
    }
  }

  /******* Deletion terminates *******/

  /** The deletion path is under way: the reconcile works on a terminating copy. */
  predicate InRound(s: State) {
    At(s, Cleaning) || At(s, Releasing)
  }

  /** The step ends a round of the deletion path. */
  predicate EndsRound(s: State, step: Step) {
    || (At(s, Cleaning) && ((step.CleanUp? && !step.ok) || step.Abandon?))
    || (At(s, Releasing) && (step.ReleaseRay? || step.Abandon?))
  }

  /** ... and in failure: the cleanup failed, the release was refused, or the round was broken off. */
  predicate FailsRound(s: State, step: Step) {
    EndsRound(s, step) && !(step.ReleaseRay? && step.reply != Refused)
  }

  predicate ByOperator(step: Step) {
    !step.CreateRay? && !step.EditRay? && !step.TouchRay? && !step.DeleteRay? && !step.Interfere?
  }

  /** The rounds that ended since position `p`. */
  ghost function RoundsEnded(init: State, steps: seq<Step>, p: nat): nat
    requires IsRun(init, steps)
    decreases |steps|
  {
    if |steps| <= p then 0
    else
      var front := steps[..|steps| - 1];
      RoundsEnded(init, front, p) + if EndsRound(After(init, front), steps[|steps| - 1]) then 1 else 0
  }

  ghost function RoundsFailed(init: State, steps: seq<Step>, p: nat): nat
    requires IsRun(init, steps)
    decreases |steps|
  {
    if |steps| <= p then 0
    else
      var front := steps[..|steps| - 1];
      RoundsFailed(init, front, p) + if FailsRound(After(init, front), steps[|steps| - 1]) then 1 else 0
  }

  /** The CR waits to be released. */
  predicate Terminating(s: State, uid: UID) {
    s.stored.Some? && s.stored.value.uid == uid && s.stored.value.terminating
  }

  /** The CR was there and is gone; a CR of the same name is another one. */
  ghost predicate Gone(s: State, uid: UID) {
    (s.stored.Some? ==> s.stored.value.uid != uid) && exists v :: v in s.versions && v.uid == uid
  }

  /** A terminating CR goes away by a round that ends without failure, and in no other way; then no
      operand is left. */
  lemma TerminatingStep(s: State, step: Step, uid: UID)
    requires Inv(s) && Enabled(s, step) && Terminating(s, uid)
    ensures EndsRound(s, step) && !FailsRound(s, step) ==>
      Next(s, step).stored == None && Gone(Next(s, step), uid) && NoOperands(Next(s, step).cluster)
    ensures !EndsRound(s, step) || FailsRound(s, step) ==> Terminating(Next(s, step), uid)
  {}

  /** No step brings a CR back. */
  lemma StepsBringNoneBack(s: State, step: Step, uid: UID)
    requires Enabled(s, step) && Gone(s, uid)
    ensures Next(s, step).stored.Some? ==> Next(s, step).stored.value.uid != uid
  {}

  lemma GoneStep(s: State, step: Step, uid: UID)
    requires Enabled(s, step) && Gone(s, uid)
    ensures Gone(Next(s, step), uid)
  {
    StepsBringNoneBack(s, step, uid);
    VersionsGrow(s, step);
    var v :| v in s.versions && v.uid == uid;
    assert v in Next(s, step).versions;
  }

  /** A round takes two steps of the operator at most, whatever users and third parties do in between:
      its cleanup ends it or takes it to the release, and the release ends it. */
  lemma RoundsAreShort(s: State, step: Step)
    requires Enabled(s, step) && InRound(s)
    ensures ByOperator(step) ==> EndsRound(s, step) || (At(s, Cleaning) && At(Next(s, step), Releasing))
    ensures !ByOperator(step) ==> Next(s, step).op == s.op
  {}

  /** The CR was released at position `q`: it went away, with no operand left. */
  ghost predicate ReleasedAt(init: State, steps: seq<Step>, q: nat)
    requires IsRun(init, steps) && q < |steps| && IsRun(init, steps[..q + 1])
  {
    var s := After(init, steps[..q + 1]);
    steps[q].ReleaseRay? && s.stored == None && NoOperands(s.cluster)
  }

  /** Either every round since `p` failed and the CR still waits, or it was released at `q`. */
  ghost predicate Counted(init: State, steps: seq<Step>, p: nat, uid: UID, q: nat)
    requires IsRun(init, steps)
  {
    var ended, failed, s := RoundsEnded(init, steps, p), RoundsFailed(init, steps, p), After(init, steps);
    if ended == failed then Terminating(s, uid)
    else ended > failed && Gone(s, uid) && p <= q < |steps| && IsRun(init, steps[..q + 1]) && ReleasedAt(init, steps, q)
  }

  lemma CountedNow(init: State, steps: seq<Step>, before: State, step: Step, p: nat, uid: UID)
    requires EndsWith(init, steps, before, step) && p < |steps| && Inv(before) && Terminating(before, uid)
    requires RoundsEnded(init, steps[..|steps| - 1], p) == RoundsFailed(init, steps[..|steps| - 1], p)
    ensures Counted(init, steps, p, uid, |steps| - 1)
  {
    TerminatingStep(before, step, uid);
    assert steps[..|steps| - 1 + 1] == steps;
  }

  lemma CountedEarlier(init: State, steps: seq<Step>, before: State, step: Step, p: nat, uid: UID, q: nat)
    requires EndsWith(init, steps, before, step) && p < |steps| && Inv(before)
    requires Counted(init, steps[..|steps| - 1], p, uid, q)
    requires RoundsEnded(init, steps[..|steps| - 1], p) != RoundsFailed(init, steps[..|steps| - 1], p)
    ensures Counted(init, steps, p, uid, q)
  {
    GoneStep(before, step, uid);
    assert Gone(After(init, steps), uid);
    assert steps[..|steps| - 1][..q + 1] == steps[..q + 1];
    assert steps[..|steps| - 1][q] == steps[q];
    if EndsRound(before, step) && !FailsRound(before, step) {
      assert RoundsEnded(init, steps, p) == RoundsEnded(init, steps[..|steps| - 1], p) + 1;
    }
  }

  lemma CountedStep(init: State, steps: seq<Step>, p: nat, uid: UID, was: nat) returns (q: nat)
    requires Initial(init) && IsRun(init, steps) && p < |steps|
    requires IsRun(init, steps[..|steps| - 1]) && Counted(init, steps[..|steps| - 1], p, uid, was)
    ensures Counted(init, steps, p, uid, q)
  {
    var before, step := LastStep(init, steps);
    var n := |steps| - 1;
    RunKeeps(init, steps[..n]);
    if RoundsEnded(init, steps[..n], p) == RoundsFailed(init, steps[..n], p) {
      q := n;
      CountedNow(init, steps, before, step, p, uid);
    } else {
      q := was;
      CountedEarlier(init, steps, before, step, p, uid, q);
    }
  }

  lemma {:induction false} RoundsCount(init: State, steps: seq<Step>, p: nat, uid: UID) returns (q: nat)
    requires Initial(init) && IsRun(init, steps) && p <= |steps|
    requires IsRun(init, steps[..p]) && Terminating(After(init, steps[..p]), uid)
    ensures Counted(init, steps, p, uid, q)
    decreases |steps|
  {
    if |steps| == p {
      q := p;
      assert steps[..p] == steps;
    } else {
      var n := |steps| - 1;
      assert steps[..n][..p] == steps[..p];
      q := RoundsCount(init, steps[..n], p, uid);
      q := CountedStep(init, steps, p, uid, q);
    }
  }

  /** In every run, whatever users, third parties and failures do: of a terminating CR at most as many
      rounds of the deletion path end as fail, or the CR has been released with no operand left and
      never comes back. So if no more than N rounds fail, it is gone by the end of round N + 1. */
  lemma DeletionTerminates(init: State, steps: seq<Step>, p: nat, uid: UID) returns (q: nat)
    requires Initial(init) && IsRun(init, steps) && p <= |steps|
    requires IsRun(init, steps[..p]) && Terminating(After(init, steps[..p]), uid)
    requires RoundsEnded(init, steps, p) > RoundsFailed(init, steps, p)
    ensures p <= q < |steps| && IsRun(init, steps[..q + 1]) && ReleasedAt(init, steps, q)
    ensures After(init, steps).stored.Some? ==> After(init, steps).stored.value.uid != uid
  {
    q := RoundsCount(init, steps, p, uid);
  }
}
