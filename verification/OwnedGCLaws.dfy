/** What the pass over all operand kinds amounts to: subtraction of a set, however often it is
    retried, and no operator-written object left. */
module OwnedGCLaws {
  import opened Wrappers
  import opened Cluster
  import opened OwnedGC

  /** The owned or labelled objects of the operand kinds, in the CR's namespace or cluster-scoped. */
  ghost function Targets(c: Objects, uid: UID, ns: string, listable: set<Kind>): set<Key> {
    set k | k in c && InScope(k, ns, ALL_KINDS * listable) && Marked(ByOwnerOrLabel(uid), c[k])
  }

  ghost predicate OnlyRemovals(acts: seq<Act>) {
    forall i :: 0 <= i < |acts| ==> acts[i].Remove?
  }

  ghost function Removed(acts: seq<Act>): set<Key> {
    set i | 0 <= i < |acts| :: acts[i].key
  }

  lemma {:induction false} RemovalsEvolve(k: Key, o: Option<Obj>, acts: seq<Act>)
    requires OnlyRemovals(acts)
    ensures Evolve(k, o, acts) == if k in Removed(acts) then None else o
    decreases |acts|
  {
    if acts != [] {
      RemovalsEvolve(k, ActOn(k, o, acts[0]), acts[1..]);
      assert forall i :: 1 <= i < |acts| ==> acts[i] == acts[1..][i - 1];
      assert Removed(acts) == {acts[0].key} + Removed(acts[1..]);
    }
  }

  lemma KeySubtracted(uid: UID, ns: string, listable: set<Kind>, c: Objects, acts: seq<Act>, c': Objects, ok: bool, k: Key)
    requires OnlyRemovals(acts) && Swept(uid, ns, ALL_KINDS, listable, c, acts, c', ok)
    ensures k in c && k !in Removed(acts) && k !in Targets(c, uid, ns, listable) ==> Get(c', k) == Some(c[k])
    ensures k !in c || k in Removed(acts) ==> k !in c'
    ensures k in Targets(c, uid, ns, listable) ==> Get(c', k) == None || (!ok && Get(c', k) == Get(c, k))
  {
    var m, before, after := ByOwnerOrLabel(uid), Get(c, k), Get(c', k);
    RemovalsEvolve(k, before, acts);
    if Collected(m, k, before, acts, after) {
      var i: nat, j: nat :| i <= j <= |acts| && CollectedAt(m, k, before, acts, after, i, j);
      RemovalsEvolve(k, before, acts[..i]);
      RemovalsEvolve(k, None, acts[j..]);
    }
    if Spared(m, k, before, acts, after) {
      var i: nat :| i <= |acts| && UnmarkedAt(m, k, before, acts, i);
      RemovalsEvolve(k, before, acts[..i]);
      assert Removed(acts[..i]) <= Removed(acts) by {
        assert forall n :: 0 <= n < i ==> acts[..i][n] == acts[n];
      }
    }
  }

  /** A pass refines set subtraction, whatever other parties delete meanwhile: on success the
      cluster has lost exactly the targets and what the others removed, and on failure it has
      lost nothing else. Objects that stay are unchanged. */
  lemma PassSubtracts(uid: UID, ns: string, listable: set<Kind>, c: Objects, acts: seq<Act>, c': Objects, ok: bool)
    requires OnlyRemovals(acts) && Swept(uid, ns, ALL_KINDS, listable, c, acts, c', ok)
    ensures ok ==> c' == c - (Targets(c, uid, ns, listable) + Removed(acts))
    ensures c' == c - (c.Keys - c'.Keys)
    ensures c.Keys - c'.Keys <= Targets(c, uid, ns, listable) + Removed(acts)
    ensures Removed(acts) !! c'.Keys
  {
    forall k { KeySubtracted(uid, ns, listable, c, acts, c', ok, k); }
    assert forall k :: k in c' ==> k in c && Get(c', k) == Get(c, k);
  }

  /** After a successful pass there are no targets left, so that another one has nothing to do. */
  lemma SecondPassIsIdle(uid: UID, ns: string, listable: set<Kind>, c: Objects, acts: seq<Act>, c': Objects,
                         c'': Objects, ok: bool)
    requires OnlyRemovals(acts) && Swept(uid, ns, ALL_KINDS, listable, c, acts, c', true)
    requires Swept(uid, ns, ALL_KINDS, listable, c', [], c'', ok)
    ensures Targets(c', uid, ns, listable) == {} && c'' == c'
  {
    PassSubtracts(uid, ns, listable, c, acts, c', true);
    assert forall k :: k in c' ==> k in c && c'[k] == c[k];
    PassSubtracts(uid, ns, listable, c', [], c'', ok);
    assert Removed([]) == {};
  }

  /******* Retries *******/

  datatype Attempt = Attempt(acts: seq<Act>, after: Objects, ok: bool)

  /** Passes one after the other, each starting from what the previous one left. */
  ghost predicate Retried(uid: UID, ns: string, listable: set<Kind>, c: Objects, attempts: seq<Attempt>)
    decreases |attempts|
  {
    attempts == [] ||
    (&& OnlyRemovals(attempts[0].acts)
     && Swept(uid, ns, ALL_KINDS, listable, c, attempts[0].acts, attempts[0].after, attempts[0].ok)
     && Retried(uid, ns, listable, attempts[0].after, attempts[1..]))
  }

  ghost function RemovedDuring(attempts: seq<Attempt>): set<Key> {
    if attempts == [] then {} else Removed(attempts[0].acts) + RemovedDuring(attempts[1..])
  }

  /** However many passes fail first, wherever they stop and whatever other parties delete in
      between: a pass that succeeds ends where a single undisturbed pass would have ended, less
      what the others removed. */
  lemma {:induction false} RetriesConverge(uid: UID, ns: string, listable: set<Kind>, c: Objects, attempts: seq<Attempt>)
    requires attempts != [] && attempts[|attempts| - 1].ok
    requires Retried(uid, ns, listable, c, attempts)
    ensures attempts[|attempts| - 1].after == c - (Targets(c, uid, ns, listable) + RemovedDuring(attempts))
    decreases |attempts|
  {
    var first := attempts[0];
    PassSubtracts(uid, ns, listable, c, first.acts, first.after, first.ok);
    assert RemovedDuring(attempts) == Removed(first.acts) + RemovedDuring(attempts[1..]);
    if |attempts| == 1 {
      assert RemovedDuring(attempts[1..]) == {};
    } else {
      RetriesConverge(uid, ns, listable, first.after, attempts[1..]);
      var rest := Targets(first.after, uid, ns, listable) + RemovedDuring(attempts[1..]);
      assert first.after - rest == c - (Targets(c, uid, ns, listable) + RemovedDuring(attempts)) by {
        assert forall k :: k in first.after ==> k in c && first.after[k] == c[k];
      }
    }
  }

  /******* Nothing is left behind *******/

  lemma KeyShrinks(m: Mark, k: Key, before: Option<Obj>, acts: seq<Act>, after: Option<Obj>)
    requires before.Some? ==> Traceable(k, before.value)
    requires LeftAlone(k, before, acts, after) || Collected(m, k, before, acts, after)
    ensures after.Some? ==>
      Traceable(k, after.value) && (after.value.origin == "" || (before.Some? && after.value.origin == before.value.origin))
    ensures Collected(m, k, before, acts, after) && after.Some? ==> after.value.origin == ""
  {
    EvolveKeepsProvenance(k, before, acts);
    if Collected(m, k, before, acts, after) {
      var i: nat, j: nat :| i <= j <= |acts| && CollectedAt(m, k, before, acts, after, i, j);
      EvolveKeepsProvenance(k, None, acts[j..]);
    }
  }

  /** An object that a successful collector dealt with was not written for the CR, if the collector
      goes by the CR's owner mark as well as the label. */
  lemma KeyLeavesNone(uid: UID, k: Key, c: Objects, acts: seq<Act>, c': Objects)
    requires AllTraceable(c) && IsOperandKind(k.kind) && k != NOTEBOOK_ROLE
    requires Outcome(ByOwnerOrLabel(uid), k, c, acts, c', true)
    ensures k in c' ==> c'[k].origin == "" || c'[k].origin != uid
  {
    var m, before, after := ByOwnerOrLabel(uid), Get(c, k), Get(c', k);
    KeyShrinks(m, k, before, acts, after);
    if !Collected(m, k, before, acts, after) {
      var i: nat :| i <= |acts| && UnmarkedAt(m, k, before, acts, i);
      assert acts == acts[..i] + acts[i..];
      EvolveConcat(k, before, acts[..i], acts[i..]);
      EvolveKeepsProvenance(k, before, acts[..i]);
      EvolveKeepsProvenance(k, Evolve(k, before, acts[..i]), acts[i..]);
    }
  }

  /** Whatever third parties do: no pass makes an operator-written object, and after a successful
      pass none is left in scope but possibly the notebook role. */
  lemma PassLeavesNone(uid: UID, ns: string, listable: set<Kind>, c: Objects, acts: seq<Act>, c': Objects, ok: bool)
    requires Swept(uid, ns, ALL_KINDS, listable, c, acts, c', ok)
    requires AllTraceable(c)
    ensures Shrinks(c, c') && AllTraceable(c')
    ensures ok ==> forall k :: k in c' && InScope(k, ns, ALL_KINDS * listable) && k != NOTEBOOK_ROLE ==>
      c'[k].origin == "" || c'[k].origin != uid
  {
    var m := ByOwnerOrLabel(uid);
    forall k | k in c'
      ensures Traceable(k, c'[k])
      ensures c'[k].origin != "" ==> k in c && c[k].origin == c'[k].origin
    {
      KeyShrinks(m, k, Get(c, k), acts, Get(c', k));
    }
    if ok {
      forall k | k in c' && InScope(k, ns, ALL_KINDS * listable) && k != NOTEBOOK_ROLE
        ensures c'[k].origin == "" || c'[k].origin != uid
      {
        KeyLeavesNone(uid, k, c, acts, c');
      }
    }
  }

  /******* Exactly what goes *******/

  /** With nobody doing more than removing objects, one that a successful collector dealt with is gone
      exactly if it had the mark or was removed, and is unchanged otherwise. */
  lemma OutcomeUnderRemovals(m: Mark, k: Key, c: Objects, acts: seq<Act>, c': Objects)
    requires OnlyRemovals(acts) && Outcome(m, k, c, acts, c', true)
    ensures k in c' <==> k in c && k !in Removed(acts) && !Marked(m, c[k])
    ensures k in c' ==> c'[k] == c[k]
  {
    var before, after := Get(c, k), Get(c', k);
    RemovalsEvolve(k, before, acts);
    if Collected(m, k, before, acts, after) {
      var i: nat, j: nat :| i <= j <= |acts| && CollectedAt(m, k, before, acts, after, i, j);
      RemovalsEvolve(k, before, acts[..i]);
      RemovalsEvolve(k, None, acts[j..]);
    } else {
      var i: nat :| i <= |acts| && UnmarkedAt(m, k, before, acts, i);
      RemovalsEvolve(k, before, acts[..i]);
      assert Removed(acts[..i]) <= Removed(acts) by {
        assert forall n :: 0 <= n < i ==> acts[..i][n] == acts[n];
      }
    }
  }

  // The two tests below are spelled out on the fields; no operation of the model uses them.

  predicate SaysPartOfRay(o: Obj) {
    "platform.opendatahub.io/part-of" in o.labels && o.labels["platform.opendatahub.io/part-of"] == "ray"
  }

  predicate PassLooksAt(uid: UID, ns: string, listable: set<Kind>, k: Key) {
    uid != "" && k.kind in listable
    && ((k.kind in {Deployment, ConfigMap, Service, ServiceAccount} && ns != "" && k.ns == ns)
        || k.kind in {MutatingWebhookConfiguration, ClusterRole, ClusterRoleBinding})
  }

  /** What a successful pass takes: with nobody doing more than removing objects, one of the old cluster
      is gone exactly if it was removed, or it is of one of the four namespaced kinds in the CR's
      namespace or of one of the three cluster-scoped kinds, of a kind that can be listed, and has the
      CR as an owner or the label part-of with the value ray. The others are unchanged, and none is new. */
  lemma PassTakesExactly(uid: UID, ns: string, listable: set<Kind>, c: Objects, acts: seq<Act>, c': Objects, k: Key)
    requires uid != "" && OnlyRemovals(acts) && Swept(uid, ns, ALL_KINDS, listable, c, acts, c', true)
    ensures k in c ==> (k !in c' <==>
      k in Removed(acts) || (PassLooksAt(uid, ns, listable, k) && (uid in c[k].owners || SaysPartOfRay(c[k]))))
    ensures k in c' ==> k in c && c'[k] == c[k]
  {
    if InScope(k, ns, ALL_KINDS * listable) {
      OutcomeUnderRemovals(ByOwnerOrLabel(uid), k, c, acts, c');
    } else {
      RemovalsEvolve(k, Get(c, k), acts);
    }
  }

  /** The same for one list. */
  lemma ListTakesExactly(uid: UID, kind: Kind, ns: Option<string>, listable: set<Kind>, c: Objects, acts: seq<Act>,
                         c': Objects, k: Key)
    requires uid != "" && OnlyRemovals(acts) && ListSwept(uid, kind, ns, listable, c, acts, c', true)
    ensures k in c ==> (k !in c' <==>
      || k in Removed(acts)
      || (k.kind == kind && kind in listable && (ns == None || k.ns == ns.value)
          && (uid in c[k].owners || SaysPartOfRay(c[k]))))
    ensures k in c' ==> k in c && c'[k] == c[k]
  {
    if Listed(k, kind, ns) && kind in listable {
      OutcomeUnderRemovals(ByOwnerOrLabel(uid), k, c, acts, c');
    } else {
      RemovalsEvolve(k, Get(c, k), acts);
    }
  }
}
