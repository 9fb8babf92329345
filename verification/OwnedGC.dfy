/** Deletion of the operands of a Ray CR, found by ownerRef or by the part-of label, while
    third parties change the cluster between any two calls. */
module OwnedGC {
  import opened Wrappers
  import opened Cluster

  /** What a collector goes by. */
  datatype Mark = ByLabel | ByOwner(uid: UID) | ByOwnerOrLabel(uid: UID)

  predicate Marked(m: Mark, o: Obj) {
    match m
    case ByLabel => Labeled(o)
    case ByOwner(uid) => OwnedBy(o, uid)
    case ByOwnerOrLabel(uid) => OwnedBy(o, uid) || Labeled(o)
  }

  /******* What may become of one object *******/

  /** Only third parties touched the object. */
  ghost predicate LeftAlone(k: Key, before: Option<Obj>, acts: seq<Act>, after: Option<Obj>) {
    after == Evolve(k, before, acts)
  }

  ghost predicate CollectedAt(m: Mark, k: Key, before: Option<Obj>, acts: seq<Act>, after: Option<Obj>, i: nat, j: nat)
    requires i <= j <= |acts|
  {
    var seen := Evolve(k, before, acts[..i]);
    seen.Some? && Marked(m, seen.value) && after == Evolve(k, None, acts[j..])
  }

  /** The object was seen with its mark after some of the acts, and deleted at that point or later. */
  ghost predicate Collected(m: Mark, k: Key, before: Option<Obj>, acts: seq<Act>, after: Option<Obj>) {
    exists i: nat, j: nat | i <= j <= |acts| :: CollectedAt(m, k, before, acts, after, i, j)
  }

  ghost predicate UnmarkedAt(m: Mark, k: Key, before: Option<Obj>, acts: seq<Act>, i: nat)
    requires i <= |acts|
  {
    var seen := Evolve(k, before, acts[..i]);
    seen.Some? ==> !Marked(m, seen.value)
  }

  /** The object was left alone, after being seen without the mark or not at all. */
  ghost predicate Spared(m: Mark, k: Key, before: Option<Obj>, acts: seq<Act>, after: Option<Obj>) {
    LeftAlone(k, before, acts, after) && exists i: nat | i <= |acts| :: UnmarkedAt(m, k, before, acts, i)
  }

  lemma Onward(m: Mark, k: Key, before: Option<Obj>, acts: seq<Act>, mid: Option<Obj>, more: seq<Act>)
    ensures LeftAlone(k, before, acts, mid) ==> LeftAlone(k, before, acts + more, Evolve(k, mid, more))
    ensures Collected(m, k, before, acts, mid) ==> Collected(m, k, before, acts + more, Evolve(k, mid, more))
    ensures Spared(m, k, before, acts, mid) ==> Spared(m, k, before, acts + more, Evolve(k, mid, more))
  {
    EvolveConcat(k, before, acts, more);
    var after := Evolve(k, mid, more);
    if Collected(m, k, before, acts, mid) {
      var i: nat, j: nat :| i <= j <= |acts| && CollectedAt(m, k, before, acts, mid, i, j);
      assert (acts + more)[..i] == acts[..i];
      assert (acts + more)[j..] == acts[j..] + more;
      EvolveConcat(k, None, acts[j..], more);
      assert CollectedAt(m, k, before, acts + more, after, i, j);
    }
    if Spared(m, k, before, acts, mid) {
      var i: nat :| i <= |acts| && UnmarkedAt(m, k, before, acts, i);
      assert (acts + more)[..i] == acts[..i];
      assert UnmarkedAt(m, k, before, acts + more, i);
    }
  }

  lemma Earlier(m: Mark, k: Key, before: Option<Obj>, acts: seq<Act>, more: seq<Act>, after: Option<Obj>)
    ensures var mid := Evolve(k, before, acts);
      && (LeftAlone(k, mid, more, after) ==> LeftAlone(k, before, acts + more, after))
      && (Collected(m, k, mid, more, after) ==> Collected(m, k, before, acts + more, after))
      && (Spared(m, k, mid, more, after) ==> Spared(m, k, before, acts + more, after))
  {
    var mid := Evolve(k, before, acts);
    var all := acts + more;
    EvolveConcat(k, before, acts, more);
    if Collected(m, k, mid, more, after) {
      var i: nat, j: nat :| i <= j <= |more| && CollectedAt(m, k, mid, more, after, i, j);
      assert all[..|acts| + i] == acts + more[..i];
      assert all[|acts| + j..] == more[j..];
      EvolveConcat(k, before, acts, more[..i]);
      assert CollectedAt(m, k, before, all, after, |acts| + i, |acts| + j);
    }
    if Spared(m, k, mid, more, after) {
      var i: nat :| i <= |more| && UnmarkedAt(m, k, mid, more, i);
      assert all[..|acts| + i] == acts + more[..i];
      EvolveConcat(k, before, acts, more[..i]);
      assert UnmarkedAt(m, k, before, all, |acts| + i);
    }
  }

  /** A delete that goes through collects an object that was seen marked. */
  lemma Strike(m: Mark, k: Key, before: Option<Obj>, acts: seq<Act>, more: seq<Act>, i: nat)
    requires i <= |acts| && !UnmarkedAt(m, k, before, acts, i)
    ensures Collected(m, k, before, acts + more, None)
  {
    var all := acts + more;
    assert all[..i] == acts[..i];
    assert all[|all|..] == [];
    assert CollectedAt(m, k, before, all, None, i, |all|);
  }

  /******* One list *******/

  ghost predicate Outcome(m: Mark, k: Key, c: Objects, acts: seq<Act>, c': Objects, ok: bool) {
    var before, after := Get(c, k), Get(c', k);
    && (LeftAlone(k, before, acts, after) || Collected(m, k, before, acts, after))
    && (ok ==> Spared(m, k, before, acts, after) || Collected(m, k, before, acts, after))
  }

  ghost predicate ListSwept(uid: UID, kind: Kind, ns: Option<string>, listable: set<Kind>,
                            c: Objects, acts: seq<Act>, c': Objects, ok: bool)
  {
    forall k ::
      if Listed(k, kind, ns) && kind in listable
      then Outcome(ByOwnerOrLabel(uid), k, c, acts, c', ok)
      else LeftAlone(k, Get(c, k), acts, Get(c', k))
  }

  ghost predicate Holds(items: seq<Item>, k: Key) {
    exists i :: 0 <= i < |items| && items[i].key == k
  }

  /** Midway through a list that was taken after the first `seen` acts: the objects of `done` are
      dealt with, the others are as third parties left them. */
  ghost predicate Underway(m: Mark, c: Objects, acts: seq<Act>, c': Objects, done: seq<Item>) {
    forall k ::
      if Holds(done, k) then Outcome(m, k, c, acts, c', true)
      else LeftAlone(k, Get(c, k), acts, Get(c', k))
  }

  /** A list that was taken after the first `seen` acts. */
  ghost predicate Snapshot(items: seq<Item>, kind: Kind, ns: Option<string>, c: Objects, acts: seq<Act>) {
    && (forall i :: 0 <= i < |items| ==>
          Listed(items[i].key, kind, ns) && Evolve(items[i].key, Get(c, items[i].key), acts) == Some(items[i].obj))
    && (forall k :: Listed(k, kind, ns) && !Holds(items, k) ==> Evolve(k, Get(c, k), acts) == None)
  }

  lemma Carry(m: Mark, c: Objects, acts: seq<Act>, mid: Objects, done: seq<Item>, more: seq<Act>)
    requires Underway(m, c, acts, mid, done)
    ensures Underway(m, c, acts + more, ApplyActs(mid, more), done)
  {
    forall k
      ensures if Holds(done, k) then Outcome(m, k, c, acts + more, ApplyActs(mid, more), true)
              else LeftAlone(k, Get(c, k), acts + more, Get(ApplyActs(mid, more), k))
    {
      ApplyActsPointwise(mid, more, k);
      Onward(m, k, Get(c, k), acts, Get(mid, k), more);
    }
  }

  lemma HoldsNext(items: seq<Item>, n: nat, k: Key)
    requires n < |items|
    ensures Holds(items[..n + 1], k) <==> Holds(items[..n], k) || k == items[n].key
  {}

  lemma PassOver(m: Mark, kind: Kind, ns: Option<string>, c: Objects, acts: seq<Act>, seen: nat, c': Objects,
                 items: seq<Item>, n: nat)
    requires seen <= |acts| && n < |items|
    requires Snapshot(items, kind, ns, c, acts[..seen]) && Underway(m, c, acts, c', items[..n])
    requires !Marked(m, items[n].obj)
    ensures Underway(m, c, acts, c', items[..n + 1])
  {
    assert UnmarkedAt(m, items[n].key, Get(c, items[n].key), acts, seen);
    forall k
      ensures if Holds(items[..n + 1], k) then Outcome(m, k, c, acts, c', true)
              else LeftAlone(k, Get(c, k), acts, Get(c', k))
    {
      HoldsNext(items, n, k);
    }
  }

  lemma TakeOut(m: Mark, kind: Kind, ns: Option<string>, c: Objects, acts: seq<Act>, seen: nat, mid: Objects,
                items: seq<Item>, n: nat, more: seq<Act>)
    requires seen <= |acts| && n < |items|
    requires Snapshot(items, kind, ns, c, acts[..seen]) && Underway(m, c, acts, mid, items[..n])
    requires Marked(m, items[n].obj)
    ensures Underway(m, c, acts + more, ApplyActs(mid, more) - {items[n].key}, items[..n + 1])
  {
    var key, c' := items[n].key, ApplyActs(mid, more);
    Carry(m, c, acts, mid, items[..n], more);
    assert !UnmarkedAt(m, key, Get(c, key), acts, seen);
    Strike(m, key, Get(c, key), acts, more, seen);
    forall k
      ensures if Holds(items[..n + 1], k) then Outcome(m, k, c, acts + more, c' - {key}, true)
              else LeftAlone(k, Get(c, k), acts + more, Get(c' - {key}, k))
    {
      HoldsNext(items, n, k);
      assert k != key ==> Get(c' - {key}, k) == Get(c', k);
    }
  }

  lemma Arrive(uid: UID, kind: Kind, ns: Option<string>, listable: set<Kind>, c: Objects, acts: seq<Act>, seen: nat,
               c': Objects, items: seq<Item>, n: nat, ok: bool)
    requires seen <= |acts| && n <= |items| && kind in listable && (ok ==> n == |items|)
    requires Snapshot(items, kind, ns, c, acts[..seen]) && Underway(ByOwnerOrLabel(uid), c, acts, c', items[..n])
    ensures ListSwept(uid, kind, ns, listable, c, acts, c', ok)
  {
    var m := ByOwnerOrLabel(uid);
    forall k
      ensures if Listed(k, kind, ns) then Outcome(m, k, c, acts, c', ok)
              else LeftAlone(k, Get(c, k), acts, Get(c', k))
    {
      if Holds(items[..n], k) {
        var i :| 0 <= i < n && items[..n][i].key == k;
        assert items[i].key == k;
      } else if Listed(k, kind, ns) && ok {
        assert items[..n] == items;
        assert UnmarkedAt(m, k, Get(c, k), acts, seen);
      }
    }
  }

  /** One delete call for a marked item, whether it goes through or not. */
  lemma Deleted(uid: UID, kind: Kind, ns: Option<string>, listable: set<Kind>, c: Objects, acts: seq<Act>, seen: nat,
                mid: Objects, items: seq<Item>, n: nat, more: seq<Act>, c': Objects)
    requires seen <= |acts| && n < |items| && kind in listable
    requires Snapshot(items, kind, ns, c, acts[..seen]) && Underway(ByOwnerOrLabel(uid), c, acts, mid, items[..n])
    requires Marked(ByOwnerOrLabel(uid), items[n].obj)
    requires c' == ApplyActs(mid, more) || c' == ApplyActs(mid, more) - {items[n].key}
    ensures Snapshot(items, kind, ns, c, (acts + more)[..seen])
    ensures c' == ApplyActs(mid, more) - {items[n].key} ==>
      Underway(ByOwnerOrLabel(uid), c, acts + more, c', items[..n + 1])
    ensures ListSwept(uid, kind, ns, listable, c, acts + more, c', false)
  {
    var m := ByOwnerOrLabel(uid);
    assert (acts + more)[..seen] == acts[..seen];
    TakeOut(m, kind, ns, c, acts, seen, mid, items, n, more);
    Carry(m, c, acts, mid, items[..n], more);
    var reached := if c' == ApplyActs(mid, more) then n else n + 1;
    Arrive(uid, kind, ns, listable, c, acts + more, seen, c', items, reached, false);
  }

  lemma Begun(uid: UID, kind: Kind, ns: Option<string>, listable: set<Kind>, c: Objects, acts: seq<Act>)
    ensures Underway(ByOwnerOrLabel(uid), c, acts, ApplyActs(c, acts), [])
    ensures kind !in listable ==> ListSwept(uid, kind, ns, listable, c, acts, ApplyActs(c, acts), true)
    ensures ListSwept(uid, kind, ns, listable, c, acts, ApplyActs(c, acts), false)
  {
    forall k { ApplyActsPointwise(c, acts, k); }
  }

  lemma TakenFrom(items: seq<Item>, kind: Kind, ns: Option<string>, c: Objects, acts: seq<Act>)
    requires var c' := ApplyActs(c, acts);
      && (forall i :: 0 <= i < |items| ==> Listed(items[i].key, kind, ns) && Get(c', items[i].key) == Some(items[i].obj))
      && (forall k :: k in c' && Listed(k, kind, ns) ==> Item(k, c'[k]) in items)
    ensures Snapshot(items, kind, ns, c, acts)
  {
    forall k { ApplyActsPointwise(c, acts, k); }
    var c' := ApplyActs(c, acts);
    forall k | k in c' && Listed(k, kind, ns)
      ensures Holds(items, k)
    {
      var i :| 0 <= i < |items| && items[i] == Item(k, c'[k]);
      assert items[i].key == k;
    }
  }

  method DeleteOwnedFromList(api: ApiServer, uid: UID, kind: Kind, ns: Option<string>)
    returns (ok: bool, ghost acts: seq<Act>)
    modifies api
    ensures ListSwept(uid, kind, ns, api.listable, old(api.objects), acts, api.objects, ok)
    ensures Troubles(api.script) <= Troubles(old(api.script))
    ensures !ok ==> Troubles(api.script) < Troubles(old(api.script))
  {
    ghost var c := api.objects;
    var list;
    list, acts := api.List(kind, ns);
    Begun(uid, kind, ns, api.listable, c, acts);
    if list.Failure? {
      return list.error == NotFound || list.error == NoMatch, acts;
    }
    var items := list.value;
    ghost var seen := |acts|;
    TakenFrom(items, kind, ns, c, acts);
    assert acts[..seen] == acts && items[..0] == [];
    for n := 0 to |items|
      invariant seen <= |acts| && Snapshot(items, kind, ns, c, acts[..seen])
      invariant Underway(ByOwnerOrLabel(uid), c, acts, api.objects, items[..n])
      invariant Troubles(api.script) <= Troubles(old(api.script))
    {
      if !OwnedBy(items[n].obj, uid) && !Labeled(items[n].obj) {
        PassOver(ByOwnerOrLabel(uid), kind, ns, c, acts, seen, api.objects, items, n);
        continue;
      }
      ghost var mid := api.objects;
      var r; ghost var more;
      r, more := api.Delete(items[n].key);
      Deleted(uid, kind, ns, api.listable, c, acts, seen, mid, items, n, more, api.objects);
      acts := acts + more;
      if r.Failure? && r.error != NotFound {
        return false, acts;
      }
    }
    Arrive(uid, kind, ns, api.listable, c, acts, seen, api.objects, items, |items|, true);
    ok := true;
  }

  /******* All lists *******/

  /** The keys that the lists of the given kinds range over. */
  predicate InScope(k: Key, ns: string, kinds: set<Kind>) {
    k.kind in kinds && (k.kind in NAMESPACED_KINDS ==> ns != "" && k.ns == ns)
  }

  /** What a pass over the given kinds does to the cluster: every object in scope of a listable kind
      is left alone or collected, and if the pass succeeds it is not left alone unless it was seen
      without a mark; every other object is left alone. */
  ghost predicate Swept(uid: UID, ns: string, kinds: set<Kind>, listable: set<Kind>,
                        c: Objects, acts: seq<Act>, c': Objects, ok: bool)
  {
    forall k ::
      if InScope(k, ns, kinds * listable)
      then Outcome(ByOwnerOrLabel(uid), k, c, acts, c', ok)
      else LeftAlone(k, Get(c, k), acts, Get(c', k))
  }

  lemma SweptNothing(uid: UID, ns: string, listable: set<Kind>, c: Objects)
    ensures Swept(uid, ns, {}, listable, c, [], c, true)
  {}

  lemma SweptOneMore(uid: UID, ns: string, kinds: set<Kind>, kind: Kind, scope: Option<string>, listable: set<Kind>,
                     c: Objects, acts: seq<Act>, mid: Objects, more: seq<Act>, c': Objects, ok: bool)
    requires kind !in kinds && IsOperandKind(kind)
    requires scope == if kind in NAMESPACED_KINDS then Some(ns) else None
    requires kind in NAMESPACED_KINDS ==> ns != ""
    requires Swept(uid, ns, kinds, listable, c, acts, mid, true)
    requires ListSwept(uid, kind, scope, listable, mid, more, c', ok)
    ensures Swept(uid, ns, kinds + {kind}, listable, c, acts + more, c', ok)
  {
    var m := ByOwnerOrLabel(uid);
    forall k
      ensures if InScope(k, ns, (kinds + {kind}) * listable) then Outcome(m, k, c, acts + more, c', ok)
              else LeftAlone(k, Get(c, k), acts + more, Get(c', k))
    {
      if Listed(k, kind, scope) {
        assert LeftAlone(k, Get(c, k), acts, Get(mid, k));
        Earlier(m, k, Get(c, k), acts, more, Get(c', k));
      } else {
        Onward(m, k, Get(c, k), acts, Get(mid, k), more);
      }
    }
  }

  /** A pass that stops early has done no more than a failed pass over all kinds. */
  lemma SweptPartly(uid: UID, ns: string, kinds: set<Kind>, listable: set<Kind>,
                    c: Objects, acts: seq<Act>, c': Objects, ok: bool)
    requires kinds <= ALL_KINDS && Swept(uid, ns, kinds, listable, c, acts, c', ok)
    ensures Swept(uid, ns, ALL_KINDS, listable, c, acts, c', false)
  {}

  /** deleteOwnedOperands */
  method DeleteOwnedOperands(api: ApiServer, uid: UID, ns: string) returns (ok: bool, ghost acts: seq<Act>)
    modifies api
    ensures uid == "" ==> ok && acts == [] && api.objects == old(api.objects)
    ensures uid != "" ==> Swept(uid, ns, ALL_KINDS, api.listable, old(api.objects), acts, api.objects, ok)
    ensures Troubles(api.script) <= Troubles(old(api.script))
    ensures !ok ==> Troubles(api.script) < Troubles(old(api.script))
  {
    acts := [];
    if uid == "" {
      return true, acts;
    }
    ghost var c, kinds := api.objects, {};
    SweptNothing(uid, ns, api.listable, c);
    if ns != "" {
      for n := 0 to |NAMESPACED_KINDS|
        invariant kinds == KindSet(NAMESPACED_KINDS[..n])
        invariant Swept(uid, ns, kinds, api.listable, c, acts, api.objects, true)
        invariant Troubles(api.script) <= Troubles(old(api.script))
      {
        ghost var mid := api.objects;
        ghost var more;
        ok, more := DeleteOwnedFromList(api, uid, NAMESPACED_KINDS[n], Some(ns));
        SweptOneMore(uid, ns, kinds, NAMESPACED_KINDS[n], Some(ns), api.listable, c, acts, mid, more, api.objects, ok);
        acts, kinds := acts + more, kinds + {NAMESPACED_KINDS[n]};
        if !ok {
          SweptPartly(uid, ns, kinds, api.listable, c, acts, api.objects, false);
          return false, acts;
        }
      }
    }
    for n := 0 to |CLUSTER_KINDS|
      invariant kinds == (if ns != "" then KindSet(NAMESPACED_KINDS) else {}) + KindSet(CLUSTER_KINDS[..n])
      invariant Swept(uid, ns, kinds, api.listable, c, acts, api.objects, true)
      invariant Troubles(api.script) <= Troubles(old(api.script))
    {
      ghost var mid := api.objects;
      ghost var more;
      ok, more := DeleteOwnedFromList(api, uid, CLUSTER_KINDS[n], None);
      SweptOneMore(uid, ns, kinds, CLUSTER_KINDS[n], None, api.listable, c, acts, mid, more, api.objects, ok);
      acts, kinds := acts + more, kinds + {CLUSTER_KINDS[n]};
      if !ok {
        SweptPartly(uid, ns, kinds, api.listable, c, acts, api.objects, false);
        return false, acts;
      }
    }
    ok := true;
  }
}
