/** The ClusterRole that grants notebooks access to Ray, written and deleted by name. */
module NotebookRBAC {
  import opened Wrappers
  import opened Cluster

  // The five rules of the role, as group, resource and verbs.
  const RULES := "ray.io rayjobs get,list,create,patch,delete; ray.io rayjobs/status get,list; ray.io rayclusters get,list; ray.io rayclusters/status get,list;  secrets create"

  const ROLE_LABELS := map["app.kubernetes.io/managed-by" := "ray-module-operator", PART_OF := COMPONENT]

  /** The content the operator wants, without any ownerRef. */
  predicate IsDesired(o: Obj) {
    o.owners == [] && o.labels == ROLE_LABELS && o.spec == RULES
  }

  ghost predicate OthersLeftAlone(c: Objects, acts: seq<Act>, c': Objects) {
    forall k :: k != NOTEBOOK_ROLE ==> Get(c', k) == Evolve(k, Get(c, k), acts)
  }

  /** At some point between the acts the role was `o`; from then on only third parties touched it. */
  ghost predicate RoleWas(acts: seq<Act>, c': Objects, o: Option<Obj>, j: nat)
    requires j <= |acts|
  {
    Get(c', NOTEBOOK_ROLE) == Evolve(NOTEBOOK_ROLE, o, acts[j..])
  }

  lemma RoleOnward(acts: seq<Act>, mid: Objects, o: Option<Obj>, j: nat, more: seq<Act>)
    requires j <= |acts| && RoleWas(acts, mid, o, j)
    ensures RoleWas(acts + more, ApplyActs(mid, more), o, j)
  {
    assert (acts + more)[j..] == acts[j..] + more;
    EvolveConcat(NOTEBOOK_ROLE, o, acts[j..], more);
    ApplyActsPointwise(mid, more, NOTEBOOK_ROLE);
  }

  lemma OthersOnward(c: Objects, acts: seq<Act>, mid: Objects, more: seq<Act>, c': Objects)
    requires OthersLeftAlone(c, acts, mid)
    requires forall k :: k != NOTEBOOK_ROLE ==> Get(c', k) == Get(ApplyActs(mid, more), k)
    ensures OthersLeftAlone(c, acts + more, c')
  {
    forall k | k != NOTEBOOK_ROLE
      ensures Get(c', k) == Evolve(k, Get(c, k), acts + more)
    {
      EvolveConcat(k, Get(c, k), acts, more);
      ApplyActsPointwise(mid, more, k);
    }
  }

  ghost predicate OriginFrom(c: Objects, uid: UID, origin: UID) {
    origin == "" || origin == uid || (NOTEBOOK_ROLE in c && origin == c[NOTEBOOK_ROLE].origin)
  }

  /** The role changes only as third parties make it or by being written for `uid`. */
  lemma RoleWrites(c: Objects, acts: seq<Act>, c': Objects, o: Option<Obj>, j: nat, uid: UID)
    requires AllTraceable(c) && OthersLeftAlone(c, acts, c')
    requires j <= |acts| && RoleWas(acts, c', o, j)
    requires o.Some? ==> OriginFrom(c, uid, o.value.origin)
    ensures WritesOnly(c, c', {NOTEBOOK_ROLE}, uid)
    ensures (o.Some? ==> OriginFrom(c, "", o.value.origin)) ==> Shrinks(c, c')
  {
    EvolveKeepsProvenance(NOTEBOOK_ROLE, o, acts[j..]);
    forall k | k in c' && c'[k].origin != "" && k != NOTEBOOK_ROLE
      ensures Traceable(k, c'[k]) && k in c && c[k].origin == c'[k].origin
    {
      EvolveKeepsProvenance(k, Get(c, k), acts);
    }
  }

  /******* Apply *******/

  ghost predicate Applied(uid: UID, c: Objects, acts: seq<Act>, c': Objects, ok: bool) {
    && OthersLeftAlone(c, acts, c')
    && (AllTraceable(c) ==> WritesOnly(c, c', {NOTEBOOK_ROLE}, uid))
    && (Get(c', NOTEBOOK_ROLE) == Evolve(NOTEBOOK_ROLE, Get(c, NOTEBOOK_ROLE), acts) || AppliedAt(acts, c'))
    && (ok ==> AppliedAt(acts, c'))
  }

  /** The role had exactly the wanted content at some point. */
  ghost predicate AppliedAt(acts: seq<Act>, c': Objects) {
    exists j: nat, o | j <= |acts| && IsDesired(o) :: RoleWas(acts, c', Some(o), j)
  }

  lemma AppliedNow(uid: UID, c: Objects, acts: seq<Act>, mid: Objects, more: seq<Act>, o: Obj, c': Objects)
    requires OthersLeftAlone(c, acts, mid) && IsDesired(o)
    requires c' == ApplyActs(mid, more)[NOTEBOOK_ROLE := o]
    requires OriginFrom(c, uid, o.origin)
    ensures Applied(uid, c, acts + more, c', true)
  {
    var all := acts + more;
    OthersOnward(c, acts, mid, more, c');
    assert all[|all|..] == [];
    assert RoleWas(all, c', Some(o), |all|);
    if AllTraceable(c) {
      RoleWrites(c, all, c', Some(o), |all|, uid);
    }
  }

  lemma NotApplied(uid: UID, c: Objects, acts: seq<Act>, more: seq<Act>)
    ensures OthersLeftAlone(c, acts, ApplyActs(c, acts))
    ensures Get(ApplyActs(c, acts), NOTEBOOK_ROLE).Some? ==>
      OriginFrom(c, uid, ApplyActs(c, acts)[NOTEBOOK_ROLE].origin)
    ensures Applied(uid, c, acts + more, ApplyActs(ApplyActs(c, acts), more), false)
  {
    var mid, all := ApplyActs(c, acts), acts + more;
    forall k { ApplyActsPointwise(c, acts, k); }
    EvolveKeepsProvenance(NOTEBOOK_ROLE, Get(c, NOTEBOOK_ROLE), acts);
    OthersOnward(c, acts, mid, more, ApplyActs(mid, more));
    assert acts[0..] == acts && all[0..] == all;
    RoleOnward(acts, mid, Get(c, NOTEBOOK_ROLE), 0, more);
    if AllTraceable(c) {
      RoleWrites(c, acts, mid, Get(c, NOTEBOOK_ROLE), 0, uid);
      RoleWrites(c, all, ApplyActs(mid, more), Get(c, NOTEBOOK_ROLE), 0, uid);
    }
  }

  /** applyNotebookClusterRole: read, then create or, unless it is right already, update under guard. */
  method Apply(api: ApiServer, uid: UID) returns (ok: bool, ghost acts: seq<Act>)
    modifies api
    ensures Applied(uid, old(api.objects), acts, api.objects, ok)
    ensures !ok ==> Troubles(api.script) < Troubles(old(api.script))
  {
    ghost var c := api.objects;
    var existing; ghost var first;
    existing, first := api.Read(NOTEBOOK_ROLE);
    ghost var mid := api.objects;
    NotApplied(uid, c, first, []);
    assert first + [] == first;
    if existing.Failure? && existing.error != NotFound {
      return false, first;
    }
    var desired := Obj([], ROLE_LABELS, RULES, uid);
    var r; ghost var more;
    if existing.Failure? {
      r, more := api.Create(NOTEBOOK_ROLE, desired);
    } else if IsDesired(existing.value) {
      AppliedNow(uid, c, first, mid, [], existing.value, mid);
      assert mid == ApplyActs(mid, [])[NOTEBOOK_ROLE := existing.value];
      return true, first;
    } else {
      r, more := api.Update(NOTEBOOK_ROLE, existing.value, desired);
    }
    ok, acts := r.Success?, first + more;
    NotApplied(uid, c, first, more);
    if api.objects != ApplyActs(mid, more) || ok {
      AppliedNow(uid, c, first, mid, more, desired, api.objects);
    }
  }

  /** Told by the fields: no owners, the five rules, and exactly two labels. No operation of the model
      uses this test. */
  predicate GrantsNotebooks(o: Obj) {
    && o.owners == [] && o.spec == RULES
    && o.labels.Keys == {"app.kubernetes.io/managed-by", "platform.opendatahub.io/part-of"}
    && o.labels["app.kubernetes.io/managed-by"] == "ray-module-operator"
    && o.labels["platform.opendatahub.io/part-of"] == "ray"
  }

  lemma DesiredGrants(o: Obj)
    ensures IsDesired(o) <==> GrantsNotebooks(o)
  {
    assert "app.kubernetes.io/managed-by" != PART_OF by {
      assert |"app.kubernetes.io/managed-by"| != |PART_OF|;
    }
    if GrantsNotebooks(o) {
      assert o.labels == ROLE_LABELS;
    }
  }

  /** When the role is applied with success, the ClusterRole `ray` had the wanted fields at some point,
      and from then on was as third parties left it; so with nobody interfering it has them now. What
      was there before does not matter, and nothing else is touched. */
  lemma AppliedGrants(uid: UID, c: Objects, acts: seq<Act>, c': Objects)
    requires Applied(uid, c, acts, c', true)
    ensures exists j: nat, o | j <= |acts| && GrantsNotebooks(o) ::
      Get(c', Key(ClusterRole, "", "ray")) == Evolve(Key(ClusterRole, "", "ray"), Some(o), acts[j..])
    ensures acts == [] ==>
      && Key(ClusterRole, "", "ray") in c' && GrantsNotebooks(c'[Key(ClusterRole, "", "ray")])
      && c' - {Key(ClusterRole, "", "ray")} == c - {Key(ClusterRole, "", "ray")}
  {
    var j: nat, o :| j <= |acts| && IsDesired(o) && RoleWas(acts, c', Some(o), j);
    DesiredGrants(o);
    if acts == [] {
      OthersSame(c, c');
    }
  }

  lemma OthersSame(c: Objects, c': Objects)
    requires OthersLeftAlone(c, [], c')
    ensures c' - {NOTEBOOK_ROLE} == c - {NOTEBOOK_ROLE}
  {
    var a, b := c' - {NOTEBOOK_ROLE}, c - {NOTEBOOK_ROLE};
    forall k
      ensures k in a <==> k in b
      ensures k in a ==> a[k] == b[k]
    {
      assert k != NOTEBOOK_ROLE ==> Get(c', k) == Evolve(k, Get(c, k), []);
    }
  }

  /******* Delete *******/

  /** The role as found, without its ownerRefs. */
  ghost predicate Unowned(c: Objects, acts: seq<Act>, o: Option<Obj>, j: nat)
    requires j <= |acts|
  {
    var seen := Evolve(NOTEBOOK_ROLE, Get(c, NOTEBOOK_ROLE), acts[..j]);
    o == if seen.Some? then Some(seen.value.(owners := [])) else None
  }

  ghost predicate DeletedBy(c: Objects, acts: seq<Act>, c': Objects) {
    exists j: nat | j <= |acts| :: RoleWas(acts, c', None, j)
  }

  ghost predicate DisownedBy(c: Objects, acts: seq<Act>, c': Objects) {
    exists j: nat, o | j <= |acts| && Unowned(c, acts, o, j) :: RoleWas(acts, c', o, j)
  }

  ghost predicate Deleted(c: Objects, acts: seq<Act>, c': Objects, ok: bool) {
    && OthersLeftAlone(c, acts, c')
    && (AllTraceable(c) ==> Shrinks(c, c'))
    && (DeletedBy(c, acts, c') || DisownedBy(c, acts, c')
        || Get(c', NOTEBOOK_ROLE) == Evolve(NOTEBOOK_ROLE, Get(c, NOTEBOOK_ROLE), acts))
    && (ok ==> DeletedBy(c, acts, c'))
  }

  lemma DeletedOnward(c: Objects, acts: seq<Act>, mid: Objects, more: seq<Act>, c': Objects, ok: bool)
    requires Deleted(c, acts, mid, false)
    requires c' == ApplyActs(mid, more) - {NOTEBOOK_ROLE} || (!ok && c' == ApplyActs(mid, more))
    ensures Deleted(c, acts + more, c', ok)
  {
    var all, before := acts + more, Get(c, NOTEBOOK_ROLE);
    OthersOnward(c, acts, mid, more, c');
    if c' == ApplyActs(mid, more) - {NOTEBOOK_ROLE} {
      assert all[|all|..] == [];
      assert RoleWas(all, c', None, |all|);
      if AllTraceable(c) { RoleWrites(c, all, c', None, |all|, ""); }
    } else if DeletedBy(c, acts, mid) {
      var j: nat :| j <= |acts| && RoleWas(acts, mid, None, j);
      RoleOnward(acts, mid, None, j, more);
      if AllTraceable(c) { RoleWrites(c, all, c', None, j, ""); }
    } else if DisownedBy(c, acts, mid) {
      var j: nat, o :| j <= |acts| && Unowned(c, acts, o, j) && RoleWas(acts, mid, o, j);
      RoleOnward(acts, mid, o, j, more);
      assert all[..j] == acts[..j];
      assert Unowned(c, all, o, j);
      if AllTraceable(c) {
        EvolveKeepsProvenance(NOTEBOOK_ROLE, before, acts[..j]);
        RoleWrites(c, all, c', o, j, "");
      }
    } else {
      assert acts[0..] == acts && all[0..] == all;
      RoleOnward(acts, mid, before, 0, more);
      if AllTraceable(c) { RoleWrites(c, all, c', before, 0, ""); }
    }
  }

  lemma ReadDeletes(c: Objects, acts: seq<Act>, ok: bool)
    requires ok ==> NOTEBOOK_ROLE !in ApplyActs(c, acts)
    ensures Deleted(c, acts, ApplyActs(c, acts), ok)
  {
    assert [] + acts == acts;
    forall k { ApplyActsPointwise(c, [], k); }
    assert Deleted(c, [], c, false);
    if ok {
      assert ApplyActs(c, acts) - {NOTEBOOK_ROLE} == ApplyActs(c, acts);
    }
    DeletedOnward(c, [], c, acts, ApplyActs(c, acts), ok);
  }

  lemma UpdateDisowns(c: Objects, acts: seq<Act>, more: seq<Act>, seen: Obj, c': Objects)
    requires Get(ApplyActs(ApplyActs(c, acts), more), NOTEBOOK_ROLE) == Some(seen)
    requires c' == ApplyActs(ApplyActs(c, acts), more)[NOTEBOOK_ROLE := seen.(owners := [])]
    ensures Deleted(c, acts + more, c', false) && DisownedBy(c, acts + more, c')
  {
    var all, mid := acts + more, ApplyActs(c, acts);
    ReadDeletes(c, acts, false);
    OthersOnward(c, acts, mid, more, c');
    ApplyActsPointwise(c, acts, NOTEBOOK_ROLE);
    ApplyActsPointwise(mid, more, NOTEBOOK_ROLE);
    EvolveConcat(NOTEBOOK_ROLE, Get(c, NOTEBOOK_ROLE), acts, more);
    assert all[..|all|] == all && all[|all|..] == [];
    var o := Some(seen.(owners := []));
    assert Unowned(c, all, o, |all|) && RoleWas(all, c', o, |all|);
    if AllTraceable(c) {
      EvolveKeepsProvenance(NOTEBOOK_ROLE, Get(c, NOTEBOOK_ROLE), all);
      RoleWrites(c, all, c', o, |all|, "");
    }
  }

  /** The role is gone, or has no ownerRefs, or was so and third parties touched it since. */
  ghost predicate Unpinned(c: Objects, acts: seq<Act>, c': Objects) {
    DeletedBy(c, acts, c') || DisownedBy(c, acts, c')
  }

  lemma UnpinnedNow(c: Objects, acts: seq<Act>)
    requires var o := Get(ApplyActs(c, acts), NOTEBOOK_ROLE); o.Some? ==> o.value.owners == []
    ensures Unpinned(c, acts, ApplyActs(c, acts))
  {
    var o := Get(ApplyActs(c, acts), NOTEBOOK_ROLE);
    ApplyActsPointwise(c, acts, NOTEBOOK_ROLE);
    assert acts[..|acts|] == acts && acts[|acts|..] == [];
    assert Unowned(c, acts, o, |acts|) && RoleWas(acts, ApplyActs(c, acts), o, |acts|);
  }

  lemma UnpinnedOnward(c: Objects, acts: seq<Act>, mid: Objects, more: seq<Act>, c': Objects)
    requires Unpinned(c, acts, mid) && (c' == ApplyActs(mid, more) || c' == ApplyActs(mid, more) - {NOTEBOOK_ROLE})
    ensures Unpinned(c, acts + more, c')
  {
    var all := acts + more;
    if c' == ApplyActs(mid, more) - {NOTEBOOK_ROLE} {
      assert all[|all|..] == [];
      assert RoleWas(all, c', None, |all|);
    } else if DeletedBy(c, acts, mid) {
      var j: nat :| j <= |acts| && RoleWas(acts, mid, None, j);
      RoleOnward(acts, mid, None, j, more);
    } else {
      var j: nat, o :| j <= |acts| && Unowned(c, acts, o, j) && RoleWas(acts, mid, o, j);
      RoleOnward(acts, mid, o, j, more);
      assert all[..j] == acts[..j];
      assert Unowned(c, all, o, j);
    }
  }

  /** The update that drops the ownerRefs: whatever comes of it, and if the deletion goes on, they are
      dropped or the role is gone. */
  lemma UpdateUnpins(c: Objects, acts: seq<Act>, more: seq<Act>, seen: Obj, c': Objects)
    requires var mid := ApplyActs(ApplyActs(c, acts), more);
      c' == mid || (c' == mid[NOTEBOOK_ROLE := seen.(owners := [])] && Get(mid, NOTEBOOK_ROLE) == Some(seen))
    ensures Deleted(c, acts + more, c', false)
    ensures c' == ApplyActs(ApplyActs(c, acts), more)[NOTEBOOK_ROLE := seen.(owners := [])] || NOTEBOOK_ROLE !in c' ==>
      Unpinned(c, acts + more, c')
  {
    var mid := ApplyActs(c, acts);
    ReadDeletes(c, acts, false);
    if c' == ApplyActs(mid, more) {
      DeletedOnward(c, acts, mid, more, c', false);
      if NOTEBOOK_ROLE !in c' {
        assert (acts + more)[|acts + more|..] == [];
        assert RoleWas(acts + more, c', None, |acts + more|);
      }
    }
    if c' != ApplyActs(mid, more) || Get(c', NOTEBOOK_ROLE) == Some(seen.(owners := [])) {
      if c' != ApplyActs(mid, more) {
        UpdateDisowns(c, acts, more, seen, c');
      } else {
        AlreadyUnowned(c, acts, more, c');
      }
    }
  }

  lemma AlreadyUnowned(c: Objects, acts: seq<Act>, more: seq<Act>, c': Objects)
    requires c' == ApplyActs(ApplyActs(c, acts), more) && NOTEBOOK_ROLE in c' && c'[NOTEBOOK_ROLE].owners == []
    ensures DisownedBy(c, acts + more, c')
  {
    var all, o := acts + more, Get(c', NOTEBOOK_ROLE);
    ApplyActsPointwise(c, acts, NOTEBOOK_ROLE);
    ApplyActsPointwise(ApplyActs(c, acts), more, NOTEBOOK_ROLE);
    EvolveConcat(NOTEBOOK_ROLE, Get(c, NOTEBOOK_ROLE), acts, more);
    assert all[..|all|] == all && all[|all|..] == [];
    assert Unowned(c, all, o, |all|) && RoleWas(all, c', o, |all|);
  }

  /** deleteNotebookClusterRole: read, drop leftover ownerRefs, delete; NotFound is success throughout.
      `asked` says that the deletion was requested, which happens only once the ownerRefs are dropped. */
  method Delete(api: ApiServer) returns (ok: bool, ghost acts: seq<Act>, ghost asked: bool)
    modifies api
    ensures Deleted(old(api.objects), acts, api.objects, ok)
    ensures asked ==> Unpinned(old(api.objects), acts, api.objects)
    ensures Troubles(api.script) <= Troubles(old(api.script))
    ensures !ok ==> Troubles(api.script) < Troubles(old(api.script))
  {
    ghost var c := api.objects;
    var found; ghost var more;
    asked := false;
    found, acts := api.Read(NOTEBOOK_ROLE);
    if found.Failure? {
      ReadDeletes(c, acts, found.error == NotFound);
      return found.error == NotFound, acts, false;
    }
    ReadDeletes(c, acts, false);
    var r;
    if |found.value.owners| > 0 {
      ghost var mid := api.objects;
      r, more := api.Update(NOTEBOOK_ROLE, found.value, found.value.(owners := []));
      UpdateUnpins(c, acts, more, found.value, api.objects);
      acts := acts + more;
      if r.Failure? && r.error != NotFound {
        return false, acts, false;
      }
    } else {
      UnpinnedNow(c, acts);
    }
    ghost var mid := api.objects;
    assert Unpinned(c, acts, mid);
    asked := true;
    r, more := api.Delete(NOTEBOOK_ROLE);
    ok := r.Success? || r.error == NotFound;
    DeletedOnward(c, acts, mid, more, api.objects, ok);
    UnpinnedOnward(c, acts, mid, more, api.objects);
    acts := acts + more;
  }

  /** When nobody interferes, a successful deletion takes the ClusterRole `ray`, whatever marks it has,
      and nothing else. */
  lemma DeletedExactly(c: Objects, c': Objects)
    requires Deleted(c, [], c', true)
    ensures c' == c - {Key(ClusterRole, "", "ray")}
  {
    var j: nat :| j <= 0 && RoleWas([], c', None, j);
    OthersSame(c, c');
  }
}
