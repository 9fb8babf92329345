/** The objects of the cluster as the operator sees them through its API client, and
    what third parties may do to them between two calls of the operator. */
module Cluster {
  import opened Wrappers

  type UID = string

  /** The four namespaced and three cluster-scoped kinds that the operator lists by
      itself, CRDs, and every other kind. */
  datatype Kind =
    | Deployment | ConfigMap | Service | ServiceAccount
    | MutatingWebhookConfiguration | ClusterRole | ClusterRoleBinding
    | CustomResourceDefinition
    | Other(group: string, name: string)

  // The kinds that are rendered into applicationsNamespace.
  const NAMESPACED_KINDS: seq<Kind> := [Deployment, ConfigMap, Service, ServiceAccount]

  // The cluster-scoped operands. CRDs are left out on purpose: they survive removal.
  const CLUSTER_KINDS: seq<Kind> := [MutatingWebhookConfiguration, ClusterRole, ClusterRoleBinding]

  predicate IsOperandKind(kind: Kind) {
    kind in NAMESPACED_KINDS || kind in CLUSTER_KINDS
  }

  function KindSet(kinds: seq<Kind>): set<Kind> {
    set kind | kind in kinds
  }

  const ALL_KINDS := KindSet(NAMESPACED_KINDS) + KindSet(CLUSTER_KINDS)

  datatype Key = Key(kind: Kind, ns: string, name: string)

  /** `origin` is history that no operator code reads: the uid of the Ray CR for which the
      operator wrote the object, or "" for an object that somebody else put there. */
  datatype Obj = Obj(owners: seq<UID>, labels: map<string, string>, spec: string, origin: UID)

  type Objects = map<Key, Obj>

  const PART_OF := "platform.opendatahub.io/part-of"
  const COMPONENT := "ray"

  /** The ClusterRole that Workbenches looks up by name. The operator finds it by name too,
      so it is the one object that need not stay labelled or owned. */
  const NOTEBOOK_ROLE := Key(ClusterRole, "", "ray")

  function Get(c: Objects, k: Key): Option<Obj> {
    if k in c then Some(c[k]) else None
  }

  function Put(c: Objects, k: Key, o: Option<Obj>): (r: Objects)
    ensures Get(r, k) == o
    ensures forall j :: j != k ==> Get(r, j) == Get(c, j)
  {
    if o.Some? then c[k := o.value] else c - {k}
  }

  predicate Labeled(o: Obj) {
    PART_OF in o.labels && o.labels[PART_OF] == COMPONENT
  }

  predicate OwnedBy(o: Obj, uid: UID) {
    uid != "" && uid in o.owners
  }

  /** An object of an operand kind that the operator wrote can still be told by its label or its
      ownerRef. Nothing is asked of other kinds. */
  predicate Traceable(k: Key, o: Obj) {
    !IsOperandKind(k.kind) || k == NOTEBOOK_ROLE || o.origin == "" || Labeled(o) || OwnedBy(o, o.origin)
  }

  /******* Third parties *******/

  /** Anyone may remove an object, put one of their own in its place, or edit it in place.
      An edit that would strip an operator-written object of both its label and its ownerRef
      is the one thing assumed not to happen; such an act has no effect. */
  datatype Act = Remove(key: Key) | Replace(key: Key, obj: Obj) | Edit(key: Key, obj: Obj)

  function ActOn(k: Key, o: Option<Obj>, act: Act): Option<Obj> {
    if act.key != k then o else
    match act
    case Remove(_) => None
    case Replace(_, obj) => Some(obj.(origin := ""))
    case Edit(_, obj) =>
      if o.None? then None else
      var edited := obj.(origin := o.value.origin);
      if Traceable(k, edited) then Some(edited) else o
  }

  /** What becomes of the object at `k` when only the given acts happen. */
  function Evolve(k: Key, o: Option<Obj>, acts: seq<Act>): Option<Obj>
    decreases |acts|
  {
    if acts == [] then o else Evolve(k, ActOn(k, o, acts[0]), acts[1..])
  }

  function ApplyActs(c: Objects, acts: seq<Act>): Objects
    decreases |acts|
  {
    if acts == [] then c
    else ApplyActs(Put(c, acts[0].key, ActOn(acts[0].key, Get(c, acts[0].key), acts[0])), acts[1..])
  }

  lemma {:induction false} EvolveConcat(k: Key, o: Option<Obj>, a: seq<Act>, b: seq<Act>)
    ensures Evolve(k, o, a + b) == Evolve(k, Evolve(k, o, a), b)
    decreases |a|
  {
    if a == [] {
      assert a + b == b;
    } else {
      assert (a + b)[1..] == a[1..] + b;
      EvolveConcat(k, ActOn(k, o, a[0]), a[1..], b);
    }
  }

  lemma {:induction false} ApplyActsPointwise(c: Objects, acts: seq<Act>, k: Key)
    ensures Get(ApplyActs(c, acts), k) == Evolve(k, Get(c, k), acts)
    decreases |acts|
  {
    if acts != [] {
      var c' := Put(c, acts[0].key, ActOn(acts[0].key, Get(c, acts[0].key), acts[0]));
      assert Get(c', k) == ActOn(k, Get(c, k), acts[0]);
      ApplyActsPointwise(c', acts[1..], k);
    }
  }

  /** Third parties can bring an object into any state that does not pass for one the operator wrote,
      and can edit one that it wrote in any way that leaves it traceable. */
  lemma AnyoneMay(k: Key, o: Option<Obj>, o': Option<Obj>) returns (acts: seq<Act>)
    requires o'.Some? ==>
      o'.value.origin == "" || (o.Some? && o'.value.origin == o.value.origin && Traceable(k, o'.value))
    ensures Evolve(k, o, acts) == o'
  {
    if o' == None {
      acts := [Remove(k)];
    } else if o'.value.origin == "" {
      acts := [Replace(k, o'.value)];
    } else {
      acts := [Edit(k, o'.value)];
    }
  }

  /** Third parties never make an object pass for one the operator wrote, and keep what it
      wrote traceable. */
  lemma {:induction false} EvolveKeepsProvenance(k: Key, o: Option<Obj>, acts: seq<Act>)
    requires o.Some? ==> Traceable(k, o.value)
    ensures var r := Evolve(k, o, acts);
      r.Some? ==> Traceable(k, r.value) && (r.value.origin == "" || (o.Some? && r.value.origin == o.value.origin))
    decreases |acts|
  {
    if acts != [] {
      EvolveKeepsProvenance(k, ActOn(k, o, acts[0]), acts[1..]);
    }
  }

  lemma {:induction false} ActsElsewhere(k: Key, o: Option<Obj>, acts: seq<Act>)
    requires forall i :: 0 <= i < |acts| ==> acts[i].key != k
    ensures Evolve(k, o, acts) == o
    decreases |acts|
  {
    if acts != [] {
      ActsElsewhere(k, o, acts[1..]);
    }
  }

  /** Of the operator-written objects of the later cluster, those outside `keys` were already there,
      written for the same CR, and those at `keys` may also be new ones of the given CR. */
  ghost predicate WritesOnly(c: Objects, c': Objects, keys: set<Key>, uid: UID) {
    forall k :: k in c' && c'[k].origin != "" ==>
      Traceable(k, c'[k]) && ((k in keys && c'[k].origin == uid) || (k in c && c[k].origin == c'[k].origin))
  }

  ghost predicate Shrinks(c: Objects, c': Objects) {
    WritesOnly(c, c', {}, "")
  }

  ghost predicate AllTraceable(c: Objects) {
    forall k :: k in c ==> Traceable(k, c[k])
  }

  lemma ActsShrink(c: Objects, acts: seq<Act>)
    requires AllTraceable(c)
    ensures Shrinks(c, ApplyActs(c, acts))
  {
    var c' := ApplyActs(c, acts);
    forall k | k in c' && c'[k].origin != ""
      ensures Traceable(k, c'[k]) && k in c && c[k].origin == c'[k].origin
    {
      ApplyActsPointwise(c, acts, k);
      EvolveKeepsProvenance(k, Get(c, k), acts);
    }
  }

  /******* The API server *******/

  /** How the server treats one call: it serves it, refuses it, or serves it and loses the reply. */
  datatype Reply = Served | Refused | Lost

  /** What happens around one call: first third parties act, then the server replies. */
  datatype Turn = Turn(acts: seq<Act>, reply: Reply)

  datatype Fault = NotFound | AlreadyExists | Conflict | NoMatch | Unavailable

  /** Turns on which a call of the operator can fail: a bad reply, or the notebook role
      changing under a guarded update. */
  predicate Troubled(turn: Turn) {
    turn.reply != Served || exists i :: 0 <= i < |turn.acts| && turn.acts[i].key == NOTEBOOK_ROLE
  }

  ghost function Troubles(script: seq<Turn>): nat {
    if script == [] then 0 else (if Troubled(script[0]) then 1 else 0) + Troubles(script[1..])
  }

  datatype Item = Item(key: Key, obj: Obj)

  /** A list call selects by kind and, unless it spans all namespaces, by namespace. */
  predicate Listed(k: Key, kind: Kind, ns: Option<string>) {
    k.kind == kind && (ns.Some? ==> k.ns == ns.value)
  }

  method Enumerate(c: Objects, keys: set<Key>) returns (items: seq<Item>)
    requires keys <= c.Keys
    ensures forall i :: 0 <= i < |items| ==> items[i].key in keys && items[i].obj == c[items[i].key]
    ensures forall k :: k in keys ==> Item(k, c[k]) in items
  {
    items := [];
    var rest := keys;
    while rest != {}
      invariant rest <= keys
      invariant forall i :: 0 <= i < |items| ==> items[i].key in keys && items[i].obj == c[items[i].key]
      invariant forall k :: k in keys && k !in rest ==> Item(k, c[k]) in items
    {
      var k :| k in rest;
      rest := rest - {k};
      items := items + [Item(k, c[k])];
    }
  }

  /** The role changes between two calls only on a troubled turn. */
  lemma RoleTouched(c: Objects, acts: seq<Act>)
    ensures Get(ApplyActs(c, acts), NOTEBOOK_ROLE) == Get(c, NOTEBOOK_ROLE)
      || exists i :: 0 <= i < |acts| && acts[i].key == NOTEBOOK_ROLE
  {
    ApplyActsPointwise(c, acts, NOTEBOOK_ROLE);
    if forall i :: 0 <= i < |acts| ==> acts[i].key != NOTEBOOK_ROLE {
      ActsElsewhere(NOTEBOOK_ROLE, Get(c, NOTEBOOK_ROLE), acts);
    }
  }

  class ApiServer {
    var objects: Objects
    // What is going to happen around the coming calls; afterwards nobody interferes and every
    // call is served. It can be any finite sequence.
    var script: seq<Turn>
    // Kinds that the client's scheme knows and the server serves.
    const listable: set<Kind>

    constructor (objects: Objects, script: seq<Turn>, listable: set<Kind>)
      ensures this.objects == objects && this.script == script && this.listable == listable
    {
      this.objects, this.script, this.listable := objects, script, listable;
    }

    method NextTurn() returns (reply: Reply, ghost acts: seq<Act>)
      modifies this
      ensures objects == ApplyActs(old(objects), acts)
      ensures old(script) == [] ==> script == [] && acts == [] && reply == Served
      ensures old(script) != [] ==>
        script == old(script)[1..] && acts == old(script)[0].acts && reply == old(script)[0].reply
      ensures Troubles(script) <= Troubles(old(script))
      ensures reply != Served ==> Troubles(script) < Troubles(old(script))
    {
      if script == [] {
        return Served, [];
      }
      reply, acts := script[0].reply, script[0].acts;
      objects := ApplyActs(objects, script[0].acts);
      script := script[1..];
    }

    /** Lists the objects of one kind, in one namespace or everywhere, in no particular order. */
    method List(kind: Kind, ns: Option<string>) returns (r: Result<seq<Item>, Fault>, ghost acts: seq<Act>)
      modifies this
      ensures objects == ApplyActs(old(objects), acts)
      ensures Troubles(script) <= Troubles(old(script))
      ensures r.Failure? ==> r.error == (if kind !in listable then NoMatch else Unavailable)
      ensures r.Failure? && kind in listable ==> Troubles(script) < Troubles(old(script))
      ensures kind !in listable ==> r.Failure?
      ensures r.Success? ==>
        (forall i :: 0 <= i < |r.value| ==> Listed(r.value[i].key, kind, ns) && Get(objects, r.value[i].key) == Some(r.value[i].obj)) &&
        (forall k :: k in objects && Listed(k, kind, ns) ==> Item(k, objects[k]) in r.value)
    {
      var reply;
      reply, acts := NextTurn();
      if kind !in listable {
        return Failure(NoMatch), acts;
      }
      if reply != Served {
        return Failure(Unavailable), acts;
      }
      var items := Enumerate(objects, set k | k in objects && Listed(k, kind, ns));
      r := Success(items);
    }

    method Read(k: Key) returns (r: Result<Obj, Fault>, ghost acts: seq<Act>)
      modifies this
      ensures objects == ApplyActs(old(objects), acts)
      ensures Troubles(script) <= Troubles(old(script))
      ensures r.Success? ==> k in objects && r.value == objects[k]
      ensures r.Failure? ==> r.error in {NotFound, Unavailable}
      ensures r.Failure? && r.error == NotFound ==> k !in objects
      ensures r.Failure? && r.error == Unavailable ==> Troubles(script) < Troubles(old(script))
    {
      var reply;
      reply, acts := NextTurn();
      if reply != Served {
        return Failure(Unavailable), acts;
      }
      if k !in objects {
        return Failure(NotFound), acts;
      }
      r := Success(objects[k]);
    }

    method Delete(k: Key) returns (r: Result<(), Fault>, ghost acts: seq<Act>)
      modifies this
      ensures objects == ApplyActs(old(objects), acts) || objects == ApplyActs(old(objects), acts) - {k}
      ensures Troubles(script) <= Troubles(old(script))
      ensures r.Success? || r.error == NotFound ==> objects == ApplyActs(old(objects), acts) - {k}
      ensures r.Failure? && r.error != NotFound ==> Troubles(script) < Troubles(old(script))
    {
      var reply;
      reply, acts := NextTurn();
      if reply == Refused {
        return Failure(Unavailable), acts;
      }
      var present := k in objects;
      objects := objects - {k};
      if reply == Lost {
        return Failure(Unavailable), acts;
      }
      r := if present then Success(()) else Failure(NotFound);
    }

    method Create(k: Key, o: Obj) returns (r: Result<(), Fault>, ghost acts: seq<Act>)
      modifies this
      ensures objects == ApplyActs(old(objects), acts) || objects == ApplyActs(old(objects), acts)[k := o]
      ensures r.Success? ==> objects == ApplyActs(old(objects), acts)[k := o]
      ensures k in ApplyActs(old(objects), acts) ==> r.Failure? && objects == ApplyActs(old(objects), acts)
      ensures Troubles(script) <= Troubles(old(script))
      ensures r.Failure? && k == NOTEBOOK_ROLE && k !in old(objects) ==> Troubles(script) < Troubles(old(script))
    {
      var reply;
      reply, acts := NextTurn();
      if reply == Refused {
        return Failure(Unavailable), acts;
      }
      if k in objects {
        RoleTouched(old(objects), acts);
        return Failure(AlreadyExists), acts;
      }
      objects := objects[k := o];
      r := if reply == Lost then Failure(Unavailable) else Success(());
    }

    /** An update carries the resourceVersion of the object it started from: it goes through only
        if the object is still what it was. */
    method Update(k: Key, seen: Obj, o: Obj) returns (r: Result<(), Fault>, ghost acts: seq<Act>)
      modifies this
      ensures objects == ApplyActs(old(objects), acts) || objects == ApplyActs(old(objects), acts)[k := o]
      ensures objects != ApplyActs(old(objects), acts) ==> Get(ApplyActs(old(objects), acts), k) == Some(seen)
      ensures Troubles(script) <= Troubles(old(script))
      ensures r.Success? ==> objects == ApplyActs(old(objects), acts)[k := o]
      ensures r.Failure? && r.error == NotFound ==> k !in objects
      ensures r.Failure? && k == NOTEBOOK_ROLE && Get(old(objects), k) == Some(seen) ==>
        Troubles(script) < Troubles(old(script))
    {
      var reply;
      reply, acts := NextTurn();
      if reply == Refused {
        return Failure(Unavailable), acts;
      }
      RoleTouched(old(objects), acts);
      if k !in objects {
        return Failure(NotFound), acts;
      }
      if objects[k] != seen {
        return Failure(Conflict), acts;
      }
      objects := objects[k := o];
      r := if reply == Lost then Failure(Unavailable) else Success(());
    }
  }
}
