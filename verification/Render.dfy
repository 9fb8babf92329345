/** Rendered manifests, and the passes that prepare them for being applied. */
module Render {
  import opened Wrappers
  import opened Cluster

  datatype GVK = GVK(group: string, version: string, kind: string)

  /** `labels` is None when the manifest has no labels at all. */
  datatype Resource = Resource(gvk: GVK, ns: string, name: string, labels: Option<map<string, string>>, body: string)

  /** The kind under which the cluster stores objects of a GVK. */
  function KindOf(gvk: GVK): Kind {
    if gvk.group == "apps" && gvk.kind == "Deployment" then Deployment
    else if gvk.group == "" && gvk.kind == "ConfigMap" then ConfigMap
    else if gvk.group == "" && gvk.kind == "Service" then Service
    else if gvk.group == "" && gvk.kind == "ServiceAccount" then ServiceAccount
    else if gvk.group == "admissionregistration.k8s.io" && gvk.kind == "MutatingWebhookConfiguration"
    then MutatingWebhookConfiguration
    else if gvk.group == "rbac.authorization.k8s.io" && gvk.kind == "ClusterRole" then ClusterRole
    else if gvk.group == "rbac.authorization.k8s.io" && gvk.kind == "ClusterRoleBinding" then ClusterRoleBinding
    else if gvk.group == "apiextensions.k8s.io" && gvk.kind == CRD_KIND then CustomResourceDefinition
    else Other(gvk.group, gvk.kind)
  }

  const CRD_KIND := "CustomResourceDefinition"

  function KeyOf(r: Resource): Key {
    Key(KindOf(r.gvk), r.ns, r.name)
  }

  function Labels(r: Resource): map<string, string> {
    if r.labels.Some? then r.labels.value else map[]
  }

  /******* Specification of the two passes *******/

  function ForceOne(ns: string, r: Resource): Resource {
    if ns != "" && r.ns != "" then r.(ns := ns) else r
  }

  function StampOne(r: Resource): Resource {
    if r.gvk.kind == CRD_KIND then r else r.(labels := Some(Labels(r)[PART_OF := COMPONENT]))
  }

  function Forced(ns: string, objs: seq<Resource>): (r: seq<Resource>)
    ensures |r| == |objs|
  {
    seq(|objs|, i requires 0 <= i < |objs| => ForceOne(ns, objs[i]))
  }

  function Stamped(objs: seq<Resource>): (r: seq<Resource>)
    ensures |r| == |objs|
  {
    seq(|objs|, i requires 0 <= i < |objs| => StampOne(objs[i]))
  }

  /******* The passes, in place *******/

  /** forceNamespacedResources */
  method ForceNamespacedResources(ns: string, objs: array<Resource>)
    modifies objs
    ensures objs[..] == Forced(ns, old(objs[..]))
  {
    if ns == "" {
      assert objs[..] == Forced(ns, objs[..]);
      return;
    }
    for i := 0 to objs.Length
      invariant forall k :: 0 <= k < i ==> objs[k] == ForceOne(ns, old(objs[k]))
      invariant forall k :: i <= k < objs.Length ==> objs[k] == old(objs[k])
    {
      if objs[i].ns != "" {
        objs[i] := objs[i].(ns := ns);
      }
    }
  }

  /** stampPartOfLabels */
  method StampPartOfLabels(objs: array<Resource>)
    modifies objs
    ensures objs[..] == Stamped(old(objs[..]))
  {
    for i := 0 to objs.Length
      invariant forall k :: 0 <= k < i ==> objs[k] == StampOne(old(objs[k]))
      invariant forall k :: i <= k < objs.Length ==> objs[k] == old(objs[k])
    {
      if objs[i].gvk.kind == CRD_KIND {
        continue;
      }
      var labels := objs[i].labels;
      if labels == None {
        labels := Some(map[]);
      }
      objs[i] := objs[i].(labels := Some(labels.value[PART_OF := COMPONENT]));
    }
  }

  lemma StampTwice(r: Resource)
    ensures StampOne(StampOne(r)) == StampOne(r)
    ensures forall ns :: StampOne(ForceOne(ns, r)) == ForceOne(ns, StampOne(r))
  {
    var labels := Labels(r)[PART_OF := COMPONENT];
    assert labels[PART_OF := COMPONENT] == labels;
  }

  /** The passes commute, and running both again changes nothing, except that the later namespace wins;
      an empty one never does. */
  lemma PassesCommute(ns: string, first: string, objs: seq<Resource>)
    ensures Forced(ns, Stamped(objs)) == Stamped(Forced(ns, objs))
    ensures Forced(ns, Stamped(Forced(first, Stamped(objs)))) == Forced(if ns == "" then first else ns, Stamped(objs))
    ensures Forced("", objs) == objs
  {
    var latest := if ns == "" then first else ns;
    forall r ensures ForceOne(ns, StampOne(ForceOne(first, StampOne(r)))) == ForceOne(latest, StampOne(r)) {
      StampTwice(r);
    }
  }

  /** Position by position: identity and body are kept; labels other than part-of are kept; CRDs keep
      their labels, and objects without a namespace stay without one. */
  lemma PassesKeepTheRest(ns: string, objs: seq<Resource>, i: nat)
    requires i < |objs|
    ensures var r, r' := objs[i], Stamped(Forced(ns, objs))[i];
      && r'.gvk == r.gvk && r'.name == r.name && r'.body == r.body
      && (r.ns == "" <==> r'.ns == "")
      && (r.gvk.kind == CRD_KIND ==> r'.labels == r.labels)
      && (forall l :: l != PART_OF ==> (l in Labels(r) <==> l in Labels(r')))
      && (forall l :: l != PART_OF && l in Labels(r) ==> Labels(r')[l] == Labels(r)[l])
  {}

  /******* Told by the fields *******/

  // What follows is spelled out on the fields; no operation of the model uses it.

  predicate SaysPartOfRay(labels: map<string, string>) {
    "platform.opendatahub.io/part-of" in labels && labels["platform.opendatahub.io/part-of"] == "ray"
  }

  ghost predicate SameOtherLabels(a: map<string, string>, b: map<string, string>) {
    forall l :: l != "platform.opendatahub.io/part-of" ==> (l in a <==> l in b) && (l in a ==> a[l] == b[l])
  }

  /** `r` is what the engine's `out` becomes for a CR with the namespace: the same object, in the CR's
      namespace if it is in any, with the label part-of=ray beside its own unless it is a CRD. */
  ghost predicate MadeFrom(ns: string, out: Resource, r: Resource) {
    && r.gvk == out.gvk && r.name == out.name && r.body == out.body
    && r.ns == (if out.ns == "" then "" else ns)
    && (if out.gvk.kind == "CustomResourceDefinition" then r.labels == out.labels
        else r.labels.Some? && SaysPartOfRay(r.labels.value)
             && SameOtherLabels(r.labels.value, if out.labels.Some? then out.labels.value else map[]))
  }

  predicate IsForOpenShift(r: Resource) {
    r.gvk.group == "security.openshift.io" && r.gvk.kind == "SecurityContextConstraints"
  }

  ghost predicate AllMadeFrom(ns: string, output: seq<Resource>, resources: seq<Resource>) {
    |resources| == |output| && forall i :: 0 <= i < |output| ==> MadeFrom(ns, output[i], resources[i])
  }

  /** Both passes together, whatever is rendered. Without a namespace the first one does nothing. */
  lemma PassesMake(ns: string, output: seq<Resource>)
    ensures ns != "" ==> AllMadeFrom(ns, output, Stamped(Forced(ns, output)))
    ensures ns == "" ==> forall i :: 0 <= i < |output| ==> MadeFrom(output[i].ns, output[i], Stamped(Forced("", output))[i])
  {}

  /** Which objects are of the kinds that cleanup lists, told by API group and kind. */
  lemma OperandKindsAre(gvk: GVK)
    ensures KindOf(gvk) in NAMESPACED_KINDS <==>
      (gvk.group, gvk.kind) in {("apps", "Deployment"), ("", "ConfigMap"), ("", "Service"), ("", "ServiceAccount")}
    ensures KindOf(gvk) in CLUSTER_KINDS <==>
      (gvk.group, gvk.kind) in {("admissionregistration.k8s.io", "MutatingWebhookConfiguration"),
                                ("rbac.authorization.k8s.io", "ClusterRole"), ("rbac.authorization.k8s.io", "ClusterRoleBinding")}
    ensures KindOf(gvk) == CustomResourceDefinition <==>
      (gvk.group, gvk.kind) == ("apiextensions.k8s.io", "CustomResourceDefinition")
  {}

  /** The cluster keeps two kinds apart exactly if they differ in group or kind. */
  lemma KindsAreApart(a: GVK, b: GVK)
    ensures KindOf(a) == KindOf(b) <==> a.group == b.group && a.kind == b.kind
  {}

  /******* What the passes are for *******/

  /** Applied as it is, the resource passes the label test of cleanup, and its key is in the namespace
      that cleanup lists. Only operand kinds matter. */
  predicate Prepared(ns: string, r: Resource) {
    IsOperandKind(KindOf(r.gvk)) ==>
      && PART_OF in Labels(r) && Labels(r)[PART_OF] == COMPONENT
      && (KindOf(r.gvk) in NAMESPACED_KINDS ==> r.ns == ns)
  }

  predicate AllPrepared(ns: string, objs: seq<Resource>) {
    forall i :: 0 <= i < |objs| ==> Prepared(ns, objs[i])
  }

  /** What is relied on of the kustomize engine when it is given a namespace: objects of namespaced
      operand kinds come with some namespace, though not always the one asked for. */
  predicate Namespaced(objs: seq<Resource>) {
    forall i :: 0 <= i < |objs| && KindOf(objs[i].gvk) in NAMESPACED_KINDS ==> objs[i].ns != ""
  }

  lemma PassesPrepare(ns: string, objs: seq<Resource>)
    requires ns != "" && Namespaced(objs)
    ensures AllPrepared(ns, Stamped(Forced(ns, objs)))
  {}

  /******* Rendering *******/

  datatype Manifest = Manifest(path: string, contextDir: string, sourcePath: string)

  type Path = seq<string>

  /** The engine, which is not part of this model: what it makes of a directory and a namespace. */
  type Engine = (Path, string) -> Result<seq<Resource>, string>

  function Dir(base: Path, m: Manifest): Path {
    base + [m.path] + (if m.contextDir != "" then [m.contextDir] else [])
         + (if m.sourcePath != "" then [m.sourcePath] else [])
  }

  /** The resources of all manifests in order, or the first error. */
  function RenderedAll(engine: Engine, base: Path, ns: string, manifests: seq<Manifest>): Result<seq<Resource>, string> {
    if manifests == [] then Success([])
    else
      var n := |manifests| - 1;
      var before := RenderedAll(engine, base, ns, manifests[..n]);
      if before.Failure? then before else
      var last := engine(Dir(base, manifests[n]), ns);
      if last.Failure? then last else Success(before.value + Stamped(Forced(ns, last.value)))
  }

  method InBothPasses(ns: string, rendered: seq<Resource>) returns (r: seq<Resource>)
    ensures r == Stamped(Forced(ns, rendered))
  {
    var objs := new Resource[|rendered|](i requires 0 <= i < |rendered| => rendered[i]);
    assert objs[..] == rendered;
    ForceNamespacedResources(ns, objs);
    StampPartOfLabels(objs);
    r := objs[..];
  }

  /** The part of a reconciliation request that rendering works on. */
  class Request {
    var manifests: seq<Manifest>
    var writableManifests: Option<Path>
    var resources: seq<Resource>
    var generated: bool

    constructor (manifests: seq<Manifest>)
      ensures this.manifests == manifests && resources == [] && !generated && writableManifests == None
    {
      this.manifests, writableManifests, resources, generated := manifests, None, [], false;
    }

    /** manifestInitAction: a Removed reconcile has nothing to render and drops what it had. */
    method ManifestInitAction(removed: bool)
      modifies this`manifests, this`resources
      ensures removed ==> manifests == [] && resources == []
      ensures !removed ==> manifests == [Manifest("kuberay", "openshift", "")] && resources == old(resources)
    {
      if removed {
        manifests, resources := [], [];
        return;
      }
      manifests := [Manifest("kuberay", "openshift", "")];
    }

    /** The tree to render from: the writable copy, if there is one. */
    function RenderBase(basePath: Path): Path
      reads this
    {
      if writableManifests.Some? && writableManifests.value != [] then writableManifests.value else basePath
    }

    /** RenderKustomize. An error leaves the request as not generated. */
    method RenderKustomize(engine: Engine, basePath: Path, ns: string) returns (r: Result<(), string>)
      modifies this`resources, this`generated
      ensures manifests == [] ==> r == Success(()) && resources == old(resources) && generated == old(generated)
      ensures manifests != [] ==>
        var copy := writableManifests;
        var all := RenderedAll(engine, if copy.Some? && copy.value != [] then copy.value else basePath, ns, manifests);
        && (all.Success? ==> r == Success(()) && resources == old(resources) + all.value && generated)
        && (all.Failure? ==> r == Failure(all.error) && generated == old(generated) && old(resources) <= resources)
    {
      if |manifests| == 0 {
        return Success(());
      }
      var base, ms := RenderBase(basePath), manifests;
      ghost var done: seq<Resource> := [];
      for n := 0 to |ms|
        invariant RenderedAll(engine, base, ns, ms[..n]) == Success(done)
        invariant resources == old(resources) + done && generated == old(generated)
      {
        var rendered := engine(Dir(base, ms[n]), ns);
        RenderedOneMore(engine, base, ns, ms, n);
        if rendered.Failure? {
          FirstErrorWins(engine, base, ns, ms, n + 1);
          return Failure(rendered.error);
        }
        var objs := InBothPasses(ns, rendered.value);
        done := done + objs;
        resources := resources + objs;
      }
      assert ms[..|ms|] == ms;
      generated := true;
      r := Success(());
    }
  }

  lemma RenderedOneMore(engine: Engine, base: Path, ns: string, manifests: seq<Manifest>, n: nat)
    requires n < |manifests| && RenderedAll(engine, base, ns, manifests[..n]).Success?
    ensures var before, last := RenderedAll(engine, base, ns, manifests[..n]).value, engine(Dir(base, manifests[n]), ns);
      RenderedAll(engine, base, ns, manifests[..n + 1]) ==
        if last.Failure? then last else Success(before + Stamped(Forced(ns, last.value)))
  {
    assert manifests[..n + 1][..n] == manifests[..n];
  }

  lemma {:induction false} FirstErrorWins(engine: Engine, base: Path, ns: string, manifests: seq<Manifest>, n: nat)
    requires n <= |manifests| && RenderedAll(engine, base, ns, manifests[..n]).Failure?
    ensures RenderedAll(engine, base, ns, manifests) == RenderedAll(engine, base, ns, manifests[..n])
    decreases |manifests|
  {
    if n == |manifests| {
      assert manifests[..n] == manifests;
    } else {
      var shorter := manifests[..|manifests| - 1];
      assert shorter[..n] == manifests[..n];
      FirstErrorWins(engine, base, ns, shorter, n);
    }
  }

  /** Everything rendered of an operand kind is found by cleanup, if the engine keeps its side. */
  lemma {:induction false} RenderingPrepares(engine: Engine, base: Path, ns: string, manifests: seq<Manifest>)
    requires ns != ""
    requires forall dir :: engine(dir, ns).Success? ==> Namespaced(engine(dir, ns).value)
    ensures var all := RenderedAll(engine, base, ns, manifests);
      all.Success? ==> AllPrepared(ns, all.value)
  {
    if manifests != [] && RenderedAll(engine, base, ns, manifests).Success? {
      var n := |manifests| - 1;
      RenderingPrepares(engine, base, ns, manifests[..n]);
      var last := engine(Dir(base, manifests[n]), ns);
      PassesPrepare(ns, last.value);
    }
  }

  /** One manifest: what the engine renders from its directories below the base, made into the
      operator's own, or the engine's error. */
  lemma ManifestRendered(engine: Engine, base: Path, ns: string, m: Manifest)
    requires ns != ""
    ensures var dir := base + [m.path] + (if m.contextDir == "" then [] else [m.contextDir])
                       + (if m.sourcePath == "" then [] else [m.sourcePath]);
      var all, output := RenderedAll(engine, base, ns, [m]), engine(dir, ns);
      && (output.Failure? ==> all == output)
      && (output.Success? ==> all.Success? && AllMadeFrom(ns, output.value, all.value))
  {
    assert [m][..0] == [];
    assert RenderedAll(engine, base, ns, [m][..0]) == Success([]);
    var output := engine(Dir(base, m), ns);
    if output.Success? {
      assert [] + Stamped(Forced(ns, output.value)) == Stamped(Forced(ns, output.value));
      PassesMake(ns, output.value);
    }
  }
}
