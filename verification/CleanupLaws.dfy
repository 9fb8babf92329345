/** Exactly which objects each of the three cleanups takes, told by their fields, when others do no
    more than remove objects meanwhile. */
module CleanupLaws {
  import opened Wrappers
  import opened Cluster
  import opened OwnedGC
  import opened OwnedGCLaws
  import opened Cleanup
  import NotebookRBAC

  lemma CollectionUnderRemovals(m: Mark, found: seq<Key>, c: Objects, acts: seq<Act>, c': Objects, k: Key)
    requires OnlyRemovals(acts) && Collection(m, found, c, acts, c', true)
    ensures k in c' <==>
      k in c && k !in Removed(acts) && !(k in found && k.kind != CustomResourceDefinition && Marked(m, c[k]))
    ensures k in c' ==> c'[k] == c[k]
  {
    assert CollectionAt(m, found, k, c, acts, c', true);
    if Shown(found, k) {
      OutcomeUnderRemovals(m, k, c, acts, c');
    } else {
      RemovalsEvolve(k, Get(c, k), acts);
    }
  }

  /** While Managed: of the objects that the framework finds, those that have the CR as an owner, except
      CRDs, and no others. */
  lemma ManagedTakesExactly(uid: UID, ns: string, listable: set<Kind>, found: seq<Key>, c: Objects, acts: seq<Act>,
                            c': Objects, k: Key)
    requires OnlyRemovals(acts) && Reconciled(uid, ns, false, listable, found, c, acts, c', true)
    ensures k in c ==> (k !in c' <==>
      k in Removed(acts) || (k in found && k.kind != CustomResourceDefinition && uid != "" && uid in c[k].owners))
    ensures k in c' ==> k in c && c'[k] == c[k]
  {
    CollectionUnderRemovals(ByOwner(uid), found, c, acts, c', k);
  }

  lemma RemovalUnderRemovals(uid: UID, ns: string, listable: set<Kind>, found: seq<Key>, c: Objects, acts: seq<Act>,
                             c': Objects, k: Key)
    requires OnlyRemovals(acts) && RemovalAt(uid, ns, listable, found, k, c, acts, c', true)
    ensures k in c ==> (k !in c' <==>
      || k in Removed(acts)
      || (PassLooksAt(uid, ns, listable, k) && (uid in c[k].owners || SaysPartOfRay(c[k])))
      || (k in found && k.kind != CustomResourceDefinition && SaysPartOfRay(c[k])))
    ensures k in c' ==> k in c && c'[k] == c[k]
  {
    if uid != "" && InScope(k, ns, ALL_KINDS * listable) {
      OutcomeUnderRemovals(ByOwnerOrLabel(uid), k, c, acts, c');
    } else if Shown(found, k) {
      OutcomeUnderRemovals(ByLabel, k, c, acts, c');
    } else {
      RemovalsEvolve(k, Get(c, k), acts);
    }
  }

  /** Once Removed: owned objects of the listed kinds, where they are listed; and objects with the label
      part-of of value ray that are listed or that the framework finds, except CRDs; and no others. */
  lemma RemovedTakesExactly(uid: UID, ns: string, listable: set<Kind>, found: seq<Key>, c: Objects, acts: seq<Act>,
                            c': Objects, k: Key)
    requires OnlyRemovals(acts) && Reconciled(uid, ns, true, listable, found, c, acts, c', true)
    ensures k in c ==> (k !in c' <==>
      || k in Removed(acts)
      || (PassLooksAt(uid, ns, listable, k) && (uid in c[k].owners || SaysPartOfRay(c[k])))
      || (k in found && k.kind != CustomResourceDefinition && SaysPartOfRay(c[k])))
    ensures k in c' ==> k in c && c'[k] == c[k]
  {
    assert RemovalAt(uid, ns, listable, found, k, c, acts, c', true);
    RemovalUnderRemovals(uid, ns, listable, found, c, acts, c', k);
  }

  /** On deletion: the same, and the ClusterRole `ray` whatever marks it has; nothing at all without a
      namespace. */
  lemma DeletionTakesExactly(uid: UID, ns: string, listable: set<Kind>, found: seq<Key>, c: Objects, acts: seq<Act>,
                             c': Objects, k: Key)
    requires OnlyRemovals(acts) && CleanedUp(uid, ns, listable, found, c, acts, c', true)
    ensures ns == "" ==> c' == c
    ensures ns != "" ==> Key(ClusterRole, "", "ray") !in c'
    ensures ns != "" && k != Key(ClusterRole, "", "ray") && k in c ==> (k !in c' <==>
      || k in Removed(acts)
      || (PassLooksAt(uid, ns, listable, k) && (uid in c[k].owners || SaysPartOfRay(c[k])))
      || (k in found && k.kind != CustomResourceDefinition && SaysPartOfRay(c[k])))
    ensures k in c' && (ns == "" || k != Key(ClusterRole, "", "ray")) ==> k in c && c'[k] == c[k]
  {
    if ns != "" {
      var j: nat :| j <= |acts| && NotebookRBAC.RoleWas(acts, c', None, j);
      RemovalsEvolve(NOTEBOOK_ROLE, None, acts[j..]);
      if k != NOTEBOOK_ROLE {
        assert RemovalAt(uid, ns, listable, found, k, c, acts, c', true);
        RemovalUnderRemovals(uid, ns, listable, found, c, acts, c', k);
      }
    }
  }

  /** With nobody doing more than removing objects, no marked object that was found is left, by the mark
      of each of the three. */
  lemma FoundAreGone(uid: UID, ns: string, listable: set<Kind>, found: seq<Key>, c: Objects, acts: seq<Act>,
                     c': Objects, k: Key)
    requires OnlyRemovals(acts) && k in found && k.kind != CustomResourceDefinition && k in c'
    ensures Reconciled(uid, ns, false, listable, found, c, acts, c', true) ==> uid == "" || uid !in c'[k].owners
    ensures Reconciled(uid, ns, true, listable, found, c, acts, c', true)
            || (ns != "" && CleanedUp(uid, ns, listable, found, c, acts, c', true)) ==>
      !SaysPartOfRay(c'[k])
  {
    if Reconciled(uid, ns, false, listable, found, c, acts, c', true) {
      ManagedTakesExactly(uid, ns, listable, found, c, acts, c', k);
    }
    if Reconciled(uid, ns, true, listable, found, c, acts, c', true) {
      RemovedTakesExactly(uid, ns, listable, found, c, acts, c', k);
    }
    if ns != "" && CleanedUp(uid, ns, listable, found, c, acts, c', true) {
      DeletionTakesExactly(uid, ns, listable, found, c, acts, c', k);
    }
  }
}
