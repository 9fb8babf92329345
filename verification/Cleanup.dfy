/** Garbage collection by the framework, and the cleanup that runs when the Ray CR is deleted. */
module Cleanup {
  import opened Wrappers
  import opened Cluster
  import opened RayApi
  import opened OwnedGC
  import OwnedGCLaws
  import NotebookRBAC

  /** A collector may miss objects, but takes only marked ones and never a CRD. */
  ghost predicate Gathered(m: Mark, c: Objects, acts: seq<Act>, c': Objects) {
    forall k :: GatheredAt(m, k, c, acts, c')
  }

  ghost predicate GatheredAt(m: Mark, k: Key, c: Objects, acts: seq<Act>, c': Objects) {
    || LeftAlone(k, Get(c, k), acts, Get(c', k))
    || (k.kind != CustomResourceDefinition && Collected(m, k, Get(c, k), acts, Get(c', k)))
  }

  lemma Weaken(m: Mark, m': Mark, k: Key, before: Option<Obj>, acts: seq<Act>, after: Option<Obj>)
    requires forall o :: Marked(m, o) ==> Marked(m', o)
    requires Collected(m, k, before, acts, after)
    ensures Collected(m', k, before, acts, after)
  {
    var i: nat, j: nat :| i <= j <= |acts| && CollectedAt(m, k, before, acts, after, i, j);
    assert CollectedAt(m', k, before, acts, after, i, j);
  }

  /******* Two collectors, one after the other *******/

  lemma CollectedThen(m: Mark, m': Mark, k: Key, before: Option<Obj>, acts: seq<Act>, mid: Option<Obj>, more: seq<Act>, after: Option<Obj>)
    requires Collected(m, k, before, acts, mid)
    requires LeftAlone(k, mid, more, after) || Collected(m', k, mid, more, after)
    ensures Collected(m, k, before, acts + more, after)
  {
    var all := acts + more;
    var i: nat, j: nat :| i <= j <= |acts| && CollectedAt(m, k, before, acts, mid, i, j);
    assert all[..i] == acts[..i];
    if LeftAlone(k, mid, more, after) {
      assert all[j..] == acts[j..] + more;
      EvolveConcat(k, None, acts[j..], more);
      assert CollectedAt(m, k, before, all, after, i, j);
    } else {
      var i': nat, j': nat :| i' <= j' <= |more| && CollectedAt(m', k, mid, more, after, i', j');
      assert all[|acts| + j'..] == more[j'..];
      assert CollectedAt(m, k, before, all, after, i, |acts| + j');
    }
  }

  lemma LeftThenOutcome(m: Mark, k: Key, c: Objects, acts: seq<Act>, mid: Objects, more: seq<Act>, c': Objects, ok: bool)
    requires LeftAlone(k, Get(c, k), acts, Get(mid, k)) && Outcome(m, k, mid, more, c', ok)
    ensures Outcome(m, k, c, acts + more, c', ok)
  {
    Earlier(m, k, Get(c, k), acts, more, Get(c', k));
  }

  lemma LeftTwice(k: Key, c: Objects, acts: seq<Act>, mid: Objects, more: seq<Act>, c': Objects)
    requires LeftAlone(k, Get(c, k), acts, Get(mid, k)) && LeftAlone(k, Get(mid, k), more, Get(c', k))
    ensures LeftAlone(k, Get(c, k), acts + more, Get(c', k))
  {
    EvolveConcat(k, Get(c, k), acts, more);
  }

  /** The second goes by less than the first. */
  lemma OutcomeThenMore(m: Mark, m': Mark, k: Key, c: Objects, acts: seq<Act>, mid: Objects, more: seq<Act>, c': Objects)
    requires forall o :: Marked(m', o) ==> Marked(m, o)
    requires Outcome(m, k, c, acts, mid, true)
    requires LeftAlone(k, Get(mid, k), more, Get(c', k)) || Collected(m', k, Get(mid, k), more, Get(c', k))
    ensures Outcome(m, k, c, acts + more, c', true)
  {
    var before, between, after := Get(c, k), Get(mid, k), Get(c', k);
    if Collected(m, k, before, acts, between) {
      CollectedThen(m, m', k, before, acts, between, more, after);
    } else if LeftAlone(k, between, more, after) {
      Onward(m, k, before, acts, between, more);
    } else {
      Earlier(m', k, before, acts, more, after);
      Weaken(m', m, k, before, acts + more, after);
    }
    if LeftAlone(k, between, more, after) && LeftAlone(k, before, acts, between) {
      EvolveConcat(k, before, acts, more);
    }
  }

  /** The first goes by less than the second. */
  lemma MoreThenOutcome(m: Mark, m': Mark, k: Key, c: Objects, acts: seq<Act>, mid: Objects, more: seq<Act>, c': Objects, ok: bool)
    requires forall o :: Marked(m', o) ==> Marked(m, o)
    requires LeftAlone(k, Get(c, k), acts, Get(mid, k)) || Collected(m', k, Get(c, k), acts, Get(mid, k))
    requires Outcome(m, k, mid, more, c', ok)
    ensures Outcome(m, k, c, acts + more, c', ok)
  {
    if LeftAlone(k, Get(c, k), acts, Get(mid, k)) {
      LeftThenOutcome(m, k, c, acts, mid, more, c', ok);
    } else {
      CollectedThen(m', m, k, Get(c, k), acts, Get(mid, k), more, Get(c', k));
      Weaken(m', m, k, Get(c, k), acts + more, Get(c', k));
    }
  }

  /******* The framework's collector *******/

  predicate Shown(found: seq<Key>, k: Key) {
    k in found && k.kind != CustomResourceDefinition
  }

  /** What a collector makes of the objects it was shown: each is collected, or left alone; and if it
      succeeds, none is left alone unless it was seen without the mark. CRDs and objects it was not
      shown it leaves alone. */
  ghost predicate Collection(m: Mark, found: seq<Key>, c: Objects, acts: seq<Act>, c': Objects, ok: bool) {
    forall k :: CollectionAt(m, found, k, c, acts, c', ok)
  }

  ghost predicate CollectionAt(m: Mark, found: seq<Key>, k: Key, c: Objects, acts: seq<Act>, c': Objects, ok: bool) {
    if Shown(found, k) then Outcome(m, k, c, acts, c', ok) else LeftAlone(k, Get(c, k), acts, Get(c', k))
  }

  lemma CollectionGathers(m: Mark, found: seq<Key>, c: Objects, acts: seq<Act>, c': Objects, ok: bool)
    requires Collection(m, found, c, acts, c', ok)
    ensures Gathered(m, c, acts, c')
  {
    forall k ensures GatheredAt(m, k, c, acts, c') {
      assert CollectionAt(m, found, k, c, acts, c', ok);
    }
  }

  lemma NothingCollected(m: Mark, c: Objects, ok: bool)
    ensures Collection(m, [], c, [], c, ok)
  {}

  lemma CollectionOnward(m: Mark, done: seq<Key>, c: Objects, acts: seq<Act>, mid: Objects, more: seq<Act>)
    requires Collection(m, done, c, acts, mid, true)
    ensures Collection(m, done, c, acts + more, ApplyActs(mid, more), true)
  {
    forall k ensures CollectionAt(m, done, k, c, acts + more, ApplyActs(mid, more), true) {
      assert CollectionAt(m, done, k, c, acts, mid, true);
      ApplyActsPointwise(mid, more, k);
      Onward(m, k, Get(c, k), acts, Get(mid, k), more);
    }
  }

  /** The next object is a CRD, or not there, or has no mark. */
  lemma CollectionPasses(m: Mark, done: seq<Key>, next: Key, c: Objects, acts: seq<Act>, c': Objects)
    requires Collection(m, done, c, acts, c', true)
    requires next.kind == CustomResourceDefinition || next !in c' || !Marked(m, c'[next])
    ensures Collection(m, done + [next], c, acts, c', true)
  {
    forall k ensures CollectionAt(m, done + [next], k, c, acts, c', true) {
      assert CollectionAt(m, done, k, c, acts, c', true);
      if k == next && k.kind != CustomResourceDefinition && !Shown(done, k) {
        assert acts[..|acts|] == acts;
        assert UnmarkedAt(m, k, Get(c, k), acts, |acts|);
      }
    }
  }

  lemma CollectedAgain(m: Mark, k: Key, before: Option<Obj>, acts: seq<Act>, mid: Option<Obj>, more: seq<Act>)
    requires mid.Some? && Marked(m, mid.value)
    requires LeftAlone(k, before, acts, mid) || Collected(m, k, before, acts, mid)
    ensures Collected(m, k, before, acts + more, None)
  {
    var all := acts + more;
    if LeftAlone(k, before, acts, mid) {
      assert acts[..|acts|] == acts;
      assert !UnmarkedAt(m, k, before, acts, |acts|);
      Strike(m, k, before, acts, more, |acts|);
    } else {
      var i: nat, j: nat :| i <= j <= |acts| && CollectedAt(m, k, before, acts, mid, i, j);
      assert acts[..i] == all[..i] && all[|all|..] == [];
      assert CollectedAt(m, k, before, all, None, i, |all|);
    }
  }

  /** The next object has the mark and is deleted. */
  lemma CollectionTakes(m: Mark, done: seq<Key>, next: Key, c: Objects, acts: seq<Act>, mid: Objects, more: seq<Act>)
    requires Collection(m, done, c, acts, mid, true)
    requires next.kind != CustomResourceDefinition && next in mid && Marked(m, mid[next])
    ensures Collection(m, done + [next], c, acts + more, ApplyActs(mid, more) - {next}, true)
  {
    var c' := ApplyActs(mid, more);
    CollectionOnward(m, done, c, acts, mid, more);
    assert CollectionAt(m, done, next, c, acts, mid, true);
    CollectedAgain(m, next, Get(c, next), acts, Get(mid, next), more);
    forall k ensures CollectionAt(m, done + [next], k, c, acts + more, c' - {next}, true) {
      assert CollectionAt(m, done, k, c, acts + more, c', true);
      assert k != next ==> Get(c' - {next}, k) == Get(c', k);
    }
  }

  lemma CollectionStops(m: Mark, done: seq<Key>, found: seq<Key>, c: Objects, acts: seq<Act>, c': Objects)
    requires done <= found && Collection(m, done, c, acts, c', true)
    ensures Collection(m, found, c, acts, c', false)
  {
    forall k ensures CollectionAt(m, found, k, c, acts, c', false) {
      assert CollectionAt(m, done, k, c, acts, c', true);
      assert k in done ==> k in found;
    }
  }

  /** One object: read, and deleted if it has the mark. */
  method CollectOne(api: ApiServer, m: Mark, done: seq<Key>, next: Key, ghost c: Objects, ghost acts: seq<Act>)
    returns (ok: bool, ghost more: seq<Act>)
    requires Collection(m, done, c, acts, api.objects, true) && next.kind != CustomResourceDefinition
    modifies api
    ensures ok ==> Collection(m, done + [next], c, acts + more, api.objects, true)
    ensures !ok ==> Collection(m, done, c, acts + more, api.objects, true)
                    || Collection(m, done + [next], c, acts + more, api.objects, true)
    ensures Troubles(api.script) <= Troubles(old(api.script))
    ensures !ok ==> Troubles(api.script) < Troubles(old(api.script))
  {
    ghost var before := api.objects;
    var o, r;
    o, more := api.Read(next);
    ghost var mid, sofar := api.objects, acts + more;
    CollectionOnward(m, done, c, acts, before, more);
    if o.Failure? && o.error != NotFound {
      return false, more;
    }
    if o.Failure? || !Marked(m, o.value) {
      CollectionPasses(m, done, next, c, sofar, mid);
      return true, more;
    }
    ghost var rest;
    r, rest := api.Delete(next);
    CollectionOnward(m, done, c, sofar, mid, rest);
    CollectionTakes(m, done, next, c, sofar, mid, rest);
    assert acts + (more + rest) == sofar + rest;
    more := more + rest;
    ok := r.Success? || r.error == NotFound;
  }

  /** The framework's collector, as far as it is relied on: of whatever its discovery turns up it
      deletes the marked objects, except CRDs. */
  method Collect(api: ApiServer, m: Mark, found: seq<Key>) returns (ok: bool, ghost acts: seq<Act>)
    modifies api
    ensures Collection(m, found, old(api.objects), acts, api.objects, ok)
    ensures Troubles(api.script) <= Troubles(old(api.script))
    ensures !ok ==> Troubles(api.script) < Troubles(old(api.script))
  {
    ghost var c := api.objects;
    acts := [];
    NothingCollected(m, c, true);
    for n := 0 to |found|
      invariant Collection(m, found[..n], c, acts, api.objects, true)
      invariant Troubles(api.script) <= Troubles(old(api.script))
    {
      assert found[..n + 1] == found[..n] + [found[n]];
      if found[n].kind == CustomResourceDefinition {
        CollectionPasses(m, found[..n], found[n], c, acts, api.objects);
        continue;
      }
      ghost var more;
      ok, more := CollectOne(api, m, found[..n], found[n], c, acts);
      acts := acts + more;
      if !ok {
        CollectionStops(m, if Collection(m, found[..n], c, acts, api.objects, true) then found[..n] else found[..n + 1],
                        found, c, acts, api.objects);
        return;
      }
    }
    assert found[..|found|] == found;
    ok := true;
  }

  lemma GatheredShrinks(m: Mark, c: Objects, acts: seq<Act>, c': Objects)
    requires AllTraceable(c) && Gathered(m, c, acts, c')
    ensures Shrinks(c, c') && AllTraceable(c')
  {
    forall k | k in c'
      ensures Traceable(k, c'[k])
      ensures c'[k].origin != "" ==> k in c && c[k].origin == c'[k].origin
    {
      assert GatheredAt(m, k, c, acts, c');
      OwnedGCLaws.KeyShrinks(m, k, Get(c, k), acts, Get(c', k));
    }
  }

  /** Nothing that the operator wrote for this CR is left where cleanup looks. */
  ghost predicate Emptied(uid: UID, ns: string, listable: set<Kind>, c: Objects) {
    forall k :: k in c && InScope(k, ns, ALL_KINDS * listable) && k != NOTEBOOK_ROLE ==> c[k].origin != uid
  }

  /******* The operands and the collector *******/

  /** What the pass over the known operands and the collector by label, in either order, make of an
      object: one that the pass looks at goes if it has a mark, one that only the collector was shown
      goes if it has the label, and any other is left alone. */
  ghost predicate RemovalAt(uid: UID, ns: string, listable: set<Kind>, found: seq<Key>, k: Key,
                            c: Objects, acts: seq<Act>, c': Objects, ok: bool)
  {
    if uid != "" && InScope(k, ns, ALL_KINDS * listable) then Outcome(ByOwnerOrLabel(uid), k, c, acts, c', ok)
    else CollectionAt(ByLabel, found, k, c, acts, c', ok)
  }

  ghost predicate Removal(uid: UID, ns: string, listable: set<Kind>, found: seq<Key>,
                          c: Objects, acts: seq<Act>, c': Objects, ok: bool)
  {
    forall k :: RemovalAt(uid, ns, listable, found, k, c, acts, c', ok)
  }

  /** The contract of the pass. */
  ghost predicate Passed(uid: UID, ns: string, listable: set<Kind>, c: Objects, acts: seq<Act>, c': Objects, ok: bool) {
    && (uid == "" ==> ok && acts == [] && c' == c)
    && (uid != "" ==> Swept(uid, ns, ALL_KINDS, listable, c, acts, c', ok))
  }

  lemma PassFails(uid: UID, ns: string, listable: set<Kind>, found: seq<Key>, c: Objects, acts: seq<Act>, c': Objects)
    requires Passed(uid, ns, listable, c, acts, c', false)
    ensures Removal(uid, ns, listable, found, c, acts, c', false)
  {}

  lemma CollectorFails(uid: UID, ns: string, listable: set<Kind>, found: seq<Key>, c: Objects, acts: seq<Act>, c': Objects)
    requires Collection(ByLabel, found, c, acts, c', false)
    ensures Removal(uid, ns, listable, found, c, acts, c', false)
  {
    forall k ensures RemovalAt(uid, ns, listable, found, k, c, acts, c', false) {
      assert CollectionAt(ByLabel, found, k, c, acts, c', false);
      if Collected(ByLabel, k, Get(c, k), acts, Get(c', k)) {
        Weaken(ByLabel, ByOwnerOrLabel(uid), k, Get(c, k), acts, Get(c', k));
      }
    }
  }

  lemma PassThenCollector(uid: UID, ns: string, listable: set<Kind>, found: seq<Key>,
                          c: Objects, acts: seq<Act>, mid: Objects, more: seq<Act>, c': Objects, ok: bool)
    requires Passed(uid, ns, listable, c, acts, mid, true) && Collection(ByLabel, found, mid, more, c', ok)
    ensures Removal(uid, ns, listable, found, c, acts + more, c', ok)
  {
    forall k ensures RemovalAt(uid, ns, listable, found, k, c, acts + more, c', ok) {
      assert CollectionAt(ByLabel, found, k, mid, more, c', ok);
      if uid != "" && InScope(k, ns, ALL_KINDS * listable) {
        OutcomeThenMore(ByOwnerOrLabel(uid), ByLabel, k, c, acts, mid, more, c');
      } else {
        assert LeftAlone(k, Get(c, k), acts, Get(mid, k));
        if Shown(found, k) {
          LeftThenOutcome(ByLabel, k, c, acts, mid, more, c', ok);
        } else {
          LeftTwice(k, c, acts, mid, more, c');
        }
      }
    }
  }

  lemma CollectorThenPass(uid: UID, ns: string, listable: set<Kind>, found: seq<Key>,
                          c: Objects, acts: seq<Act>, mid: Objects, more: seq<Act>, c': Objects, ok: bool)
    requires Collection(ByLabel, found, c, acts, mid, true) && Passed(uid, ns, listable, mid, more, c', ok)
    ensures Removal(uid, ns, listable, found, c, acts + more, c', ok)
  {
    forall k ensures RemovalAt(uid, ns, listable, found, k, c, acts + more, c', ok) {
      assert CollectionAt(ByLabel, found, k, c, acts, mid, true);
      if uid != "" && InScope(k, ns, ALL_KINDS * listable) {
        MoreThenOutcome(ByOwnerOrLabel(uid), ByLabel, k, c, acts, mid, more, c', ok);
      } else {
        assert LeftAlone(k, Get(mid, k), more, Get(c', k));
        if Shown(found, k) {
          OutcomeThenMore(ByLabel, ByLabel, k, c, acts, mid, more, c');
        } else {
          LeftTwice(k, c, acts, mid, more, c');
        }
      }
    }
  }

  lemma RemovalGathers(uid: UID, ns: string, listable: set<Kind>, found: seq<Key>, k: Key,
                       c: Objects, acts: seq<Act>, c': Objects, ok: bool)
    requires RemovalAt(uid, ns, listable, found, k, c, acts, c', ok)
    ensures GatheredAt(ByOwnerOrLabel(uid), k, c, acts, c')
  {
    if Collected(ByLabel, k, Get(c, k), acts, Get(c', k)) {
      Weaken(ByLabel, ByOwnerOrLabel(uid), k, Get(c, k), acts, Get(c', k));
    }
  }

  lemma RemovalEmpties(uid: UID, ns: string, listable: set<Kind>, found: seq<Key>, c: Objects, acts: seq<Act>, c': Objects)
    requires uid != "" && AllTraceable(c)
    requires forall k :: k != NOTEBOOK_ROLE ==> RemovalAt(uid, ns, listable, found, k, c, acts, c', true)
    ensures Emptied(uid, ns, listable, c')
  {
    forall k | k in c' && InScope(k, ns, ALL_KINDS * listable) && k != NOTEBOOK_ROLE ensures c'[k].origin != uid {
      assert RemovalAt(uid, ns, listable, found, k, c, acts, c', true);
      OwnedGCLaws.KeyLeavesNone(uid, k, c, acts, c');
    }
  }

  lemma RemovalClears(uid: UID, ns: string, listable: set<Kind>, found: seq<Key>, c: Objects, acts: seq<Act>, c': Objects)
    requires uid != "" && OwnedGCLaws.OnlyRemovals(acts) && Removal(uid, ns, listable, found, c, acts, c', true)
    ensures OwnedGCLaws.Targets(c', uid, ns, listable) == {}
  {
    forall k | k in c' && InScope(k, ns, ALL_KINDS * listable) ensures !Marked(ByOwnerOrLabel(uid), c'[k]) {
      assert RemovalAt(uid, ns, listable, found, k, c, acts, c', true);
      OwnedGCLaws.OutcomeUnderRemovals(ByOwnerOrLabel(uid), k, c, acts, c');
    }
  }

  /******* The garbage collection action *******/

  ghost predicate Reconciled(uid: UID, ns: string, removed: bool, listable: set<Kind>, found: seq<Key>,
                             c: Objects, acts: seq<Act>, c': Objects, ok: bool)
  {
    && (!removed ==> Collection(ByOwner(uid), found, c, acts, c', ok))
    && (removed ==> Removal(uid, ns, listable, found, c, acts, c', ok))
    && Gathered(if removed then ByOwnerOrLabel(uid) else ByOwner(uid), c, acts, c')
    && (removed && ok && uid != "" && AllTraceable(c) ==> Emptied(uid, ns, listable, c'))
    && (removed && ok && uid != "" && OwnedGCLaws.OnlyRemovals(acts) ==> OwnedGCLaws.Targets(c', uid, ns, listable) == {})
  }

  lemma ManagedReconciled(uid: UID, ns: string, listable: set<Kind>, found: seq<Key>, c: Objects, acts: seq<Act>, c': Objects, ok: bool)
    requires Collection(ByOwner(uid), found, c, acts, c', ok)
    ensures Reconciled(uid, ns, false, listable, found, c, acts, c', ok)
  {
    CollectionGathers(ByOwner(uid), found, c, acts, c', ok);
  }

  lemma RemovedReconciled(uid: UID, ns: string, listable: set<Kind>, found: seq<Key>, c: Objects, acts: seq<Act>, c': Objects, ok: bool)
    requires Removal(uid, ns, listable, found, c, acts, c', ok)
    ensures Reconciled(uid, ns, true, listable, found, c, acts, c', ok)
  {
    forall k ensures GatheredAt(ByOwnerOrLabel(uid), k, c, acts, c') {
      RemovalGathers(uid, ns, listable, found, k, c, acts, c', ok);
    }
    if ok && uid != "" {
      if AllTraceable(c) { RemovalEmpties(uid, ns, listable, found, c, acts, c'); }
      if OwnedGCLaws.OnlyRemovals(acts) { RemovalClears(uid, ns, listable, found, c, acts, c'); }
    }
  }

  /** reconcileGCAction: owned objects only while Managed; once Removed, first the known operands and
      then whatever labelled object the framework finds. */
  method ReconcileGC(api: ApiServer, uid: UID, ns: string, removed: bool, found: seq<Key>)
    returns (ok: bool, ghost acts: seq<Act>)
    modifies api
    ensures Reconciled(uid, ns, removed, api.listable, found, old(api.objects), acts, api.objects, ok)
    ensures !ok ==> Troubles(api.script) < Troubles(old(api.script))
  {
    ghost var c := api.objects;
    if !removed {
      ok, acts := Collect(api, ByOwner(uid), found);
      ManagedReconciled(uid, ns, api.listable, found, c, acts, api.objects, ok);
      return;
    }
    ok, acts := DeleteOwnedOperands(api, uid, ns);
    ghost var mid := api.objects;
    if !ok {
      PassFails(uid, ns, api.listable, found, c, acts, mid);
      RemovedReconciled(uid, ns, api.listable, found, c, acts, mid, false);
      return;
    }
    ghost var more;
    ok, more := Collect(api, ByLabel, found);
    PassThenCollector(uid, ns, api.listable, found, c, acts, mid, more, api.objects, ok);
    acts := acts + more;
    RemovedReconciled(uid, ns, api.listable, found, c, acts, api.objects, ok);
  }

  lemma Untouched(m: Mark, c: Objects)
    ensures Gathered(m, c, [], c)
  {}

  /******* The deletion action *******/

  ghost predicate NothingLeft(uid: UID, ns: string, listable: set<Kind>, c: Objects) {
    Emptied(uid, ns, listable, c) && (NOTEBOOK_ROLE in c ==> c[NOTEBOOK_ROLE].origin == "")
  }

  ghost predicate CleanedUp(uid: UID, ns: string, listable: set<Kind>, found: seq<Key>,
                            c: Objects, acts: seq<Act>, c': Objects, ok: bool)
  {
    && (ns == "" ==> ok && acts == [] && c' == c)
    && (ns != "" ==> forall k :: k != NOTEBOOK_ROLE ==> RemovalAt(uid, ns, listable, found, k, c, acts, c', ok))
    && (ns != "" && ok ==> NotebookRBAC.DeletedBy(c, acts, c'))
    && (forall k :: k != NOTEBOOK_ROLE ==> GatheredAt(ByOwnerOrLabel(uid), k, c, acts, c'))
    && (AllTraceable(c) ==> Shrinks(c, c') && AllTraceable(c'))
    && (AllTraceable(c) && ok && ns != "" && uid != "" ==> NothingLeft(uid, ns, listable, c'))
  }

  /** Whoever collects the role after it was deleted, it was deleted. */
  lemma RoleStaysDeleted(m: Mark, c: Objects, acts: seq<Act>, mid: Objects, more: seq<Act>, c': Objects)
    requires NotebookRBAC.DeletedBy(c, acts, mid) && GatheredAt(m, NOTEBOOK_ROLE, mid, more, c')
    ensures NotebookRBAC.DeletedBy(c, acts + more, c')
  {
    var all, between, after := acts + more, Get(mid, NOTEBOOK_ROLE), Get(c', NOTEBOOK_ROLE);
    var j: nat :| j <= |acts| && NotebookRBAC.RoleWas(acts, mid, None, j);
    if LeftAlone(NOTEBOOK_ROLE, between, more, after) {
      assert all[j..] == acts[j..] + more;
      EvolveConcat(NOTEBOOK_ROLE, None, acts[j..], more);
      assert NotebookRBAC.RoleWas(all, c', None, j);
    } else {
      var i': nat, j': nat :| i' <= j' <= |more| && CollectedAt(m, NOTEBOOK_ROLE, between, more, after, i', j');
      assert all[|acts| + j'..] == more[j'..];
      assert NotebookRBAC.RoleWas(all, c', None, |acts| + j');
    }
  }

  lemma RoleGone(c: Objects, acts: seq<Act>, c': Objects)
    requires NotebookRBAC.DeletedBy(c, acts, c')
    ensures NOTEBOOK_ROLE in c' ==> c'[NOTEBOOK_ROLE].origin == ""
  {
    var j: nat :| j <= |acts| && NotebookRBAC.RoleWas(acts, c', None, j);
    EvolveKeepsProvenance(NOTEBOOK_ROLE, None, acts[j..]);
  }

  lemma RoleFirst(uid: UID, ns: string, listable: set<Kind>, found: seq<Key>, k: Key,
                  c: Objects, acts: seq<Act>, mid: Objects, more: seq<Act>, c': Objects, ok: bool)
    requires LeftAlone(k, Get(c, k), acts, Get(mid, k)) && RemovalAt(uid, ns, listable, found, k, mid, more, c', ok)
    ensures RemovalAt(uid, ns, listable, found, k, c, acts + more, c', ok)
  {
    if uid != "" && InScope(k, ns, ALL_KINDS * listable) {
      LeftThenOutcome(ByOwnerOrLabel(uid), k, c, acts, mid, more, c', ok);
    } else if Shown(found, k) {
      LeftThenOutcome(ByLabel, k, c, acts, mid, more, c', ok);
    } else {
      LeftTwice(k, c, acts, mid, more, c');
    }
  }

  lemma RemovalShrinks(uid: UID, ns: string, listable: set<Kind>, found: seq<Key>, c: Objects, acts: seq<Act>, c': Objects, ok: bool)
    requires AllTraceable(c) && Removal(uid, ns, listable, found, c, acts, c', ok)
    ensures Shrinks(c, c') && AllTraceable(c')
  {
    forall k ensures GatheredAt(ByOwnerOrLabel(uid), k, c, acts, c') {
      assert RemovalAt(uid, ns, listable, found, k, c, acts, c', ok);
      RemovalGathers(uid, ns, listable, found, k, c, acts, c', ok);
    }
    GatheredShrinks(ByOwnerOrLabel(uid), c, acts, c');
  }

  /** The role, and then the collector and the operands. */
  lemma CleanupDone(uid: UID, ns: string, listable: set<Kind>, found: seq<Key>,
                    c: Objects, acts: seq<Act>, mid: Objects, more: seq<Act>, c': Objects, ok: bool)
    requires ns != "" && NotebookRBAC.Deleted(c, acts, mid, true) && Removal(uid, ns, listable, found, mid, more, c', ok)
    ensures CleanedUp(uid, ns, listable, found, c, acts + more, c', ok)
  {
    var all := acts + more;
    forall k | k != NOTEBOOK_ROLE
      ensures RemovalAt(uid, ns, listable, found, k, c, all, c', ok) && GatheredAt(ByOwnerOrLabel(uid), k, c, all, c')
    {
      assert RemovalAt(uid, ns, listable, found, k, mid, more, c', ok);
      RoleFirst(uid, ns, listable, found, k, c, acts, mid, more, c', ok);
      RemovalGathers(uid, ns, listable, found, k, c, all, c', ok);
    }
    RemovalGathers(uid, ns, listable, found, NOTEBOOK_ROLE, mid, more, c', ok);
    RoleStaysDeleted(ByOwnerOrLabel(uid), c, acts, mid, more, c');
    RoleGone(c, all, c');
    if AllTraceable(c) {
      ShrinksTraceable(c, mid);
      RemovalShrinks(uid, ns, listable, found, mid, more, c', ok);
      if ok && uid != "" { RemovalEmpties(uid, ns, listable, found, c, all, c'); }
    }
  }

  lemma CleanupFailsEarly(uid: UID, ns: string, listable: set<Kind>, found: seq<Key>, c: Objects, acts: seq<Act>, c': Objects)
    requires ns != "" && NotebookRBAC.Deleted(c, acts, c', false)
    ensures CleanedUp(uid, ns, listable, found, c, acts, c', false)
  {
    if AllTraceable(c) { ShrinksTraceable(c, c'); }
  }

  /** deletionCleanupAction: without a namespace there is nothing to clean up; otherwise the notebook
      role, the framework's collector, and the known operands, in that order. */
  method DeletionCleanup(api: ApiServer, uid: UID, ns: string, found: seq<Key>) returns (ok: bool, ghost acts: seq<Act>)
    modifies api
    ensures CleanedUp(uid, ns, api.listable, found, old(api.objects), acts, api.objects, ok)
    ensures Troubles(api.script) <= Troubles(old(api.script))
    ensures !ok ==> Troubles(api.script) < Troubles(old(api.script))
  {
    ghost var c := api.objects;
    if ns == "" {
      Untouched(ByOwnerOrLabel(uid), c);
      return true, [];
    }
    ghost var asked;
    ok, acts, asked := NotebookRBAC.Delete(api);
    ghost var afterRole := api.objects;
    if !ok {
      CleanupFailsEarly(uid, ns, api.listable, found, c, acts, afterRole);
      return;
    }
    ghost var second, third;
    ok, second := Collect(api, ByLabel, found);
    if !ok {
      CollectorFails(uid, ns, api.listable, found, afterRole, second, api.objects);
      CleanupDone(uid, ns, api.listable, found, c, acts, afterRole, second, api.objects, false);
      acts := acts + second;
      return;
    }
    ghost var mid := api.objects;
    ok, third := DeleteOwnedOperands(api, uid, ns);
    CollectorThenPass(uid, ns, api.listable, found, afterRole, second, mid, third, api.objects, ok);
    CleanupDone(uid, ns, api.listable, found, c, acts, afterRole, second + third, api.objects, ok);
    acts := acts + (second + third);
  }

  lemma ShrinksTraceable(c: Objects, c': Objects)
    requires Shrinks(c, c')
    ensures AllTraceable(c')
  {}

  /** A terminating CR under the framework's requeueing: in every round the cleanup runs on a copy of
      the CR, a user may edit the CR meanwhile, and once the cleanup returns nil the finalizer is taken
      off under the guard of the version. It ends however many calls fail and however many edits come,
      since every failed round uses up a troubled turn or an edit, and then the CR is gone and nothing
      of it is left. */
  method CleanUntilReleased(api: ApiServer, store: RayStore, edits: seq<(bool, string)>)
    requires AllTraceable(api.objects)
    requires store.stored.Some? && store.stored.value.terminating && store.stored.value.uid != ""
    requires store.stored.value.version < store.clock
    modifies api, store
    ensures store.stored == None
    ensures AllTraceable(api.objects) && Shrinks(old(api.objects), api.objects)
    ensures var ray := old(store.stored).value;
      ray.ns != "" ==> NothingLeft(ray.uid, ray.ns, api.listable, api.objects)
  {
    ghost var c, first := api.objects, store.stored.value;
    var n := 0;
    while store.stored.Some?
      invariant AllTraceable(api.objects) && Shrinks(c, api.objects) && n <= |edits|
      invariant store.stored.Some? ==>
        var ray := store.stored.value;
        ray.terminating && ray.uid == first.uid && (first.ns != "" ==> ray.ns == first.ns) && ray.version < store.clock
      invariant store.stored == None && first.ns != "" ==> NothingLeft(first.uid, first.ns, api.listable, api.objects)
      decreases Troubles(api.script), |edits| - n, store.stored.Some?
    {
      var ray := store.stored.value;
      var found: seq<Key> := *;
      var ok; ghost var acts;
      ok, acts := DeletionCleanup(api, ray.uid, ray.ns, found);
      if n < |edits| {
        var _ := store.Edit(edits[n].0, edits[n].1);
        n := n + 1;
      }
      if ok {
        ghost var cleaned := api.objects;
        var reply;
        reply, acts := api.NextTurn();
        ActsShrink(cleaned, acts);
        var _ := store.Update(ray.(finalizer := false), reply);
      }
    }
  }
}
