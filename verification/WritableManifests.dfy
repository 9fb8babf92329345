/** The writable copy of the vendored manifests over a sequence of reconciles. */
module WritableManifests {
  import opened Wrappers
  import opened Disk
  import opened Params
  import opened Overrides
  import opened Releases
  import Overlay
  import OverlayLaws
  import OverlayRepairs

  /** The two files that the action rewrites, as far as they exist. */
  datatype Files = Files(params: Option<string>, overlay: Option<string>)

  /** What copying the tree comes to. */
  datatype Copying = NotStarted | Partial(files: Files) | Complete

  /** A reconcile as the action meets it: the CR, and how the file system behaves. */
  datatype Call = Call(removed: bool, ns: string, copying: Copying, paramsFault: Fault, overlayFault: Fault)

  /** Files are copied in the order of their names, the overlay's before the params. */
  predicate IsPartOf(files: Files, vendored: Files) {
    || (files.params == None && Begun(files.overlay, vendored.overlay))
    || (files.overlay == vendored.overlay && Begun(files.params, vendored.params))
  }

  predicate Begun(copy: Option<string>, original: Option<string>) {
    copy.Some? ==> original.Some? && copy.value <= original.value
  }

  function NamespaceLayer(ns: string): seq<Map> {
    [map["namespace" := ns]]
  }

  function Target(m: Map, env: Map, ns: string): Map {
    Merged(m, IMAGE_PARAMS, env, NamespaceLayer(ns))
  }

  /** What the action makes of the two files: first the params, and only if that went well the overlay. */
  ghost predicate Rewritten(env: Map, call: Call, before: Files, after: Files, ok: bool) {
    || (Applied(IMAGE_PARAMS, env, NamespaceLayer(call.ns), call.paramsFault, before.params, after.params, true)
        && (after.overlay, ok) == Overlay.Overwritten(call.ns, call.overlayFault, before.overlay))
    || (Applied(IMAGE_PARAMS, env, NamespaceLayer(call.ns), call.paramsFault, before.params, after.params, false)
        && after.overlay == before.overlay && !ok)
  }

  /** What a call makes of the copy, of which there may be none yet. */
  ghost predicate ActionStep(vendored: Files, env: Map, call: Call, before: Option<Files>, after: Option<Files>, ok: bool) {
    if call.removed then after == before && ok
    else if before == None && call.copying.NotStarted? then after == None && !ok
    else if before == None && call.copying.Partial? then
      IsPartOf(call.copying.files, vendored) && after == Some(call.copying.files) && !ok
    else after.Some? && Rewritten(env, call, if before.Some? then before.value else vendored, after.value, ok)
  }

  class Tree {
    var present: bool
    const params: File
    const overlay: Overlay.File

    ghost predicate Valid()
      reads this, params
    {
      params.temp == None
    }

    /** The copy, if there is one. */
    ghost function Copy(): Option<Files>
      reads this, params, overlay
    {
      if present then Some(Files(params.content, overlay.content)) else None
    }

    constructor ()
      ensures Valid() && Copy() == None && fresh(params) && fresh(overlay)
    {
      present := false;
      params := new File(None);
      overlay := new Overlay.File(None);
    }

    /** writableManifestsBase. A directory that is there is taken for a complete copy. */
    method Base(vendored: Files, copying: Copying) returns (ok: bool)
      requires Valid() && (copying.Partial? ==> IsPartOf(copying.files, vendored))
      modifies this, params, overlay
      ensures Valid()
      ensures ok <==> old(Copy()).Some? || copying.Complete?
      ensures Copy() ==
        if old(Copy()).Some? then old(Copy())
        else match copying
          case NotStarted => None
          case Partial(files) => Some(files)
          case Complete => Some(vendored)
    {
      if present {
        return true;
      }
      match copying
      case NotStarted =>
        ok := false;
      case Partial(files) =>
        present, params.content, overlay.content := true, files.params, files.overlay;
        ok := false;
      case Complete =>
        present, params.content, overlay.content := true, vendored.params, vendored.overlay;
        ok := true;
    }

    /** applyImageParamsAction. The read-only tree is never written. */
    method ApplyImageParams(vendored: Files, env: Map, call: Call) returns (ok: bool)
      requires Valid() && (call.copying.Partial? ==> IsPartOf(call.copying.files, vendored))
      modifies this, params, overlay
      ensures Valid()
      ensures ActionStep(vendored, env, call, old(Copy()), Copy(), ok)
    {
      if call.removed {
        return true;
      }
      ok := Base(vendored, call.copying);
      if !ok {
        return;
      }
      var r := params.ApplyParams(IMAGE_PARAMS, env, NamespaceLayer(call.ns), call.paramsFault);
      if r.Failure? {
        return false;
      }
      ok := overlay.SetOverlayNamespace(call.ns, call.overlayFault);
    }
  }

  /******* Over runs *******/

  /** A later namespace leaves no trace of an earlier one in the map. */
  lemma TargetOfTarget(m: Map, env: Map, n1: string, n2: string)
    requires n1 != "" && n2 != ""
    ensures Target(Target(m, env, n1), env, n2) == Target(m, env, n2)
  {
    var a, b := Target(Target(m, env, n1), env, n2), Target(m, env, n2);
    forall k ensures (k in a <==> k in b) && Value(a, k) == Value(b, k) {
      TargetAt(m, env, n1, k);
      TargetAt(Target(m, env, n1), env, n2, k);
      TargetAt(m, env, n2, k);
    }
    MapsEqual(a, b);
  }

  /** What the map holds after an application: the namespace, the injected images on keys that were
      there, and the old values. */
  lemma TargetAt(m: Map, env: Map, ns: string, k: string)
    requires ns != ""
    ensures k in Target(m, env, ns) <==> k in m || k == "namespace"
    ensures Value(Target(m, env, ns), k) ==
      if k == "namespace" then ns
      else if k in m && k in IMAGE_PARAMS && Value(env, IMAGE_PARAMS[k]) != "" then Value(env, IMAGE_PARAMS[k])
      else Value(m, k)
  {
    var extras := NamespaceLayer(ns);
    LayeredOverride(m, IMAGE_PARAMS, env, extras, k);
    assert extras[..0] == [];
    assert LastWith(extras, k) == if k == "namespace" then Some(ns) else None;
    assert SomeExtraSets(extras, k) <==> k == "namespace" by {
      if k == "namespace" { assert k in extras[0] && extras[0][k] != ""; }
    }
  }

  /** The same told by the names: the namespace; the two images, each from its own variable if that is
      set and the key is there; and everything else as it was. */
  lemma TargetHolds(m: Map, env: Map, ns: string, k: string)
    requires ns != ""
    ensures var t := Target(m, env, ns);
      var operator_ := Value(env, "RELATED_IMAGE_ODH_KUBERAY_OPERATOR_CONTROLLER_IMAGE");
      var proxy := Value(env, "RELATED_IMAGE_ODH_KUBE_RBAC_PROXY_IMAGE");
      && (k in t <==> k in m || k == "namespace")
      && Value(t, k) ==
           if k == "namespace" then ns
           else if k in m && k == "odh-kuberay-operator-controller-image" && operator_ != "" then operator_
           else if k in m && k == "odh-kube-rbac-proxy-image" && proxy != "" then proxy
           else Value(m, k)
  {
    TargetAt(m, env, ns, k);
    assert KUBERAY_IMAGE_PARAM != PROXY_IMAGE_PARAM by {
      assert |KUBERAY_IMAGE_PARAM| != |PROXY_IMAGE_PARAM|;
    }
  }

  /** The copy after each of the calls, the environment being fixed for the process; `oks` says which
      calls succeeded. */
  ghost predicate IsRun(vendored: Files, env: Map, calls: seq<Call>, copies: seq<Option<Files>>, oks: seq<bool>) {
    && |copies| == |calls| + 1 && |oks| == |calls| && copies[0] == None
    && forall i :: 0 <= i < |calls| ==> ActionStep(vendored, env, calls[i], copies[i], copies[i + 1], oks[i])
  }

  /** What the call at position `k` works on: the copy, or what it makes it from; None if there is no
      copy yet and it makes none. */
  function Basis(vendored: Files, calls: seq<Call>, copies: seq<Option<Files>>, k: nat): Option<Files>
    requires k < |calls| && |copies| == |calls| + 1
  {
    if copies[k].Some? then copies[k]
    else if copies[k + 1] == None then None
    else Some(if calls[k].copying.Partial? then calls[k].copying.files else vendored)
  }

  /** A call leaves its basis as it is, or rewrites it; and there is a copy from then on. */
  lemma BasisIsRewritten(vendored: Files, env: Map, calls: seq<Call>, copies: seq<Option<Files>>, oks: seq<bool>, k: nat)
    requires IsRun(vendored, env, calls, copies, oks) && k < |calls| && Basis(vendored, calls, copies, k).Some?
    ensures copies[k + 1].Some?
    ensures var files := Basis(vendored, calls, copies, k).value;
      || (copies[k + 1].value == files && (calls[k].removed || !oks[k]))
      || (!calls[k].removed && Rewritten(env, calls[k], files, copies[k + 1].value, oks[k]))
    ensures k + 1 < |calls| ==> Basis(vendored, calls, copies, k + 1) == copies[k + 1]
  {
    assert ActionStep(vendored, env, calls[k], copies[k], copies[k + 1], oks[k]);
  }

  /** Every copy was made by some call. */
  lemma {:induction false} CopyWasMade(vendored: Files, env: Map, calls: seq<Call>, copies: seq<Option<Files>>,
                                       oks: seq<bool>, n: nat) returns (k: nat)
    requires IsRun(vendored, env, calls, copies, oks) && n <= |calls| && copies[n].Some?
    ensures k < n && copies[k] == None && Basis(vendored, calls, copies, k).Some?
  {
    k := n - 1;
    if copies[k].Some? {
      k := CopyWasMade(vendored, env, calls, copies, oks, k);
    }
  }

  /******* The params *******/

  /** The reconciles from `k` on that get to the action have namespaces whose entries fit on lines. */
  ghost predicate ParamsUsable(m: Map, env: Map, calls: seq<Call>, k: nat) {
    forall i :: k <= i < |calls| && !calls[i].removed ==> calls[i].ns != "" && AllFit(Target(m, env, calls[i].ns))
  }

  /** The params are those of some namespace, or read as `m` still. */
  ghost predicate Reads(m: Map, env: Map, params: Option<string>, ns: Option<string>) {
    && params.Some? && (ns.Some? ==> ns.value != "")
    && Parse(params.value) == Success(if ns.Some? then Target(m, env, ns.value) else m)
  }

  lemma ParamsApplied(m: Map, env: Map, ns: string, fault: Fault, before: Option<string>, after: Option<string>,
                      was: Option<string>)
    requires Reads(m, env, before, was) && Applied(IMAGE_PARAMS, env, NamespaceLayer(ns), fault, before, after, true)
    requires ns != "" && AllFit(Target(m, env, ns))
    ensures Reads(m, env, after, Some(ns))
  {
    var now := if was.Some? then Target(m, env, was.value) else m;
    if was.Some? { TargetOfTarget(m, env, was.value, ns); }
    RereadIsMerged(now, Target(m, env, ns), before.value, after.value);
  }

  lemma ParamsAfterAction(m: Map, env: Map, call: Call, before: Files, after: Files, ok: bool, was: Option<string>)
    returns (ns: Option<string>)
    requires Reads(m, env, before.params, was) && Rewritten(env, call, before, after, ok)
    requires call.ns != "" && AllFit(Target(m, env, call.ns))
    ensures Reads(m, env, after.params, ns) && (ok ==> ns == Some(call.ns))
  {
    ns := was;
    if Applied(IMAGE_PARAMS, env, NamespaceLayer(call.ns), call.paramsFault, before.params, after.params, true) {
      ParamsApplied(m, env, call.ns, call.paramsFault, before.params, after.params, was);
      ns := Some(call.ns);
    }
  }

  /** From whatever params some call works on: at any time later they parse, as those of some namespace
      or as they were, whatever failed; and right after a success as those of the latest. */
  lemma {:induction false} ParamsOverRun(vendored: Files, env: Map, calls: seq<Call>, copies: seq<Option<Files>>,
                                         oks: seq<bool>, k: nat, m: Map, n: nat) returns (ns: Option<string>)
    requires IsRun(vendored, env, calls, copies, oks) && k < n <= |calls|
    requires Basis(vendored, calls, copies, k).Some? && Reads(m, env, Basis(vendored, calls, copies, k).value.params, None)
    requires ParamsUsable(m, env, calls, k)
    ensures copies[n].Some? && Reads(m, env, copies[n].value.params, ns)
    ensures !calls[n - 1].removed && oks[n - 1] ==> ns == Some(calls[n - 1].ns)
  {
    ns := None;
    if n > k + 1 {
      ns := ParamsOverRun(vendored, env, calls, copies, oks, k, m, n - 1);
    }
    BasisIsRewritten(vendored, env, calls, copies, oks, n - 1);
    var call, files, after := calls[n - 1], Basis(vendored, calls, copies, n - 1).value, copies[n].value;
    if !call.removed && Rewritten(env, call, files, after, oks[n - 1]) {
      ns := ParamsAfterAction(m, env, call, files, after, oks[n - 1], ns);
    }
  }

  /** The key's value comes from the environment. */
  predicate Injected(env: Map, k: string) {
    k in IMAGE_PARAMS && Value(env, IMAGE_PARAMS[k]) != ""
  }

  /** At this key it makes no difference which of the two the namespace is set in. */
  predicate AsGood(m0: Map, m: Map, env: Map, k: string) {
    k == "namespace" || ((k in m0 <==> k in m) && (Injected(env, k) || Value(m0, k) == Value(m, k)))
  }

  lemma AgreeAt(m0: Map, m: Map, env: Map, ns: string, k: string)
    requires ns != ""
    ensures var a, b := Target(m0, env, ns), Target(m, env, ns);
      AsGood(m0, m, env, k) <==> (k in a <==> k in b) && Value(a, k) == Value(b, k)
  {
    TargetAt(m0, env, ns, k);
    TargetAt(m, env, ns, k);
  }

  /** Params that lack something lead to the same result exactly if what they lack is overridden. */
  lemma TargetsAgree(m0: Map, m: Map, env: Map, ns: string)
    requires ns != ""
    ensures Target(m0, env, ns) == Target(m, env, ns) <==> forall k :: AsGood(m0, m, env, k)
  {
    var a, b := Target(m0, env, ns), Target(m, env, ns);
    forall k ensures AsGood(m0, m, env, k) <==> (k in a <==> k in b) && Value(a, k) == Value(b, k) {
      AgreeAt(m0, m, env, ns, k);
    }
    if forall k :: AsGood(m0, m, env, k) {
      forall k ensures (k in a <==> k in b) && Value(a, k) == Value(b, k) {
        assert AsGood(m0, m, env, k);
      }
      MapsEqual(a, b);
    }
  }

  /** The copy is made at `k`, completely or in part, and the params it starts from read as `m0`: the
      vendored ones read as `m`, and a part of them can be read too. After a success, whatever failed
      before, the params hold the latest namespace; a key that is neither that nor an image has its
      vendored value exactly if it has it in `m0`; and the KubeRay image that gets deployed is the one
      that the status is computed from exactly if `m0` has what the image comes from. */
  lemma DeployedImageIsReported(vendored: Files, env: Map, calls: seq<Call>, copies: seq<Option<Files>>,
                                oks: seq<bool>, k: nat, m: Map, m0: Map, n: nat, key: string)
    requires IsRun(vendored, env, calls, copies, oks) && k < n <= |calls|
    requires copies[k] == None && Basis(vendored, calls, copies, k).Some?
    requires vendored.params.Some? && Parse(vendored.params.value) == Success(m)
    requires var params := Basis(vendored, calls, copies, k).value.params; params.Some? && Parse(params.value) == Success(m0)
    requires ParamsUsable(m0, env, calls, k) && !calls[n - 1].removed && oks[n - 1]
    ensures !calls[k].copying.Partial? ==> m0 == m
    ensures copies[n].Some? && copies[n].value.params.Some?
    ensures Parse(copies[n].value.params.value) == Success(Target(m0, env, calls[n - 1].ns))
    ensures var now := Target(m0, env, calls[n - 1].ns);
      && Value(now, "namespace") == calls[n - 1].ns
      && (key !in {"namespace", "odh-kuberay-operator-controller-image", "odh-kube-rbac-proxy-image"} ==>
            Value(now, key) == Value(m0, key) && (key in now <==> key in m0))
      && (Value(now, KUBERAY_IMAGE_PARAM) == ResolveImage(Some(m), env) <==>
            if Injected(env, KUBERAY_IMAGE_PARAM) then KUBERAY_IMAGE_PARAM in m0
            else Value(m0, KUBERAY_IMAGE_PARAM) == Value(m, KUBERAY_IMAGE_PARAM))
  {
    var ns := ParamsOverRun(vendored, env, calls, copies, oks, k, m0, n);
    TargetHolds(m0, env, calls[n - 1].ns, "namespace");
    TargetHolds(m0, env, calls[n - 1].ns, key);
    TargetAt(m0, env, calls[n - 1].ns, KUBERAY_IMAGE_PARAM);
    assert KUBERAY_IMAGE_PARAM != "namespace" by {
      assert |KUBERAY_IMAGE_PARAM| != |"namespace"|;
    }
  }

  /** The params of a copy made in part can be parsed if the vendored ones can. */
  lemma PartParses(vendored: Files, env: Map, calls: seq<Call>, copies: seq<Option<Files>>, oks: seq<bool>, k: nat)
    requires IsRun(vendored, env, calls, copies, oks) && k < |calls|
    requires copies[k] == None && Basis(vendored, calls, copies, k).Some?
    requires vendored.params.Some? && Parse(vendored.params.value).Success?
    ensures var params := Basis(vendored, calls, copies, k).value.params; params.Some? ==> Parse(params.value).Success?
  {
    assert ActionStep(vendored, env, calls[k], copies[k], copies[k + 1], oks[k]);
    var params := Basis(vendored, calls, copies, k).value.params;
    if params.Some? {
      PrefixParses(params.value, vendored.params.value);
    }
  }

  /******* The overlay *******/

  /** From `k` to `n` no overlay write fails half way, and the namespaces are ones that can be set. */
  ghost predicate OverlayUsable(calls: seq<Call>, k: nat, n: nat)
    requires n <= |calls|
  {
    forall i :: k <= i < n && !calls[i].removed ==> !calls[i].overlayFault.Writing? && Overlay.Plain(calls[i].ns)
  }

  /** The overlay is as if only this namespace had ever been set in `data`; with "" it is `data`. */
  ghost predicate IsSetTo(data: string, overlay: Option<string>, ns: string) {
    (ns == "" || Overlay.Plain(ns)) && overlay == Some(Overlay.SetNamespace(data, ns))
  }

  lemma OverlayAfterAction(data: string, env: Map, call: Call, before: Files, after: Files, ok: bool, was: string)
    returns (ns: string)
    requires IsSetTo(data, before.overlay, was) && Rewritten(env, call, before, after, ok)
    requires OverlayLaws.Dangling(data) ==> was == ""
    requires !call.overlayFault.Writing? && Overlay.Plain(call.ns)
    ensures IsSetTo(data, after.overlay, ns) && (ok ==> ns == call.ns)
  {
    if was != "" { OverlayLaws.PlainIsClean(was); }
    OverlayLaws.SetTwice(data, was, call.ns);
    ns := if ok then call.ns else was;
  }

  lemma {:induction false} OverlayOverRun(vendored: Files, env: Map, calls: seq<Call>, copies: seq<Option<Files>>,
                                          oks: seq<bool>, k: nat, data: string, n: nat) returns (ns: string)
    requires IsRun(vendored, env, calls, copies, oks) && k < n <= |calls| && OverlayUsable(calls, k, n)
    requires Basis(vendored, calls, copies, k).Some? && Basis(vendored, calls, copies, k).value.overlay == Some(data)
    requires OverlayLaws.Dangling(data) ==> n == k + 1
    ensures copies[n].Some? && IsSetTo(data, copies[n].value.overlay, ns)
    ensures !calls[n - 1].removed && oks[n - 1] ==> ns == calls[n - 1].ns
  {
    ns := "";
    if n > k + 1 {
      ns := OverlayOverRun(vendored, env, calls, copies, oks, k, data, n - 1);
    }
    BasisIsRewritten(vendored, env, calls, copies, oks, n - 1);
    var call, files, after := calls[n - 1], Basis(vendored, calls, copies, n - 1).value, copies[n].value;
    if !call.removed && Rewritten(env, call, files, after, oks[n - 1]) {
      ns := OverlayAfterAction(data, env, call, files, after, oks[n - 1], ns);
    }
  }

  /** From whatever overlay `torn` some call works on, be it vendored, copied in part, or left by a write
      that failed half way: after a success it is as if only the latest namespace had been set in it,
      and this is what it should be, for an overlay `data`, exactly if the two have the same outline;
      and every match reads the latest namespace exactly if `torn` has no dangling key line. If it has
      one, the next success is the one meant; what that leaves is a `torn` of its own. */
  lemma OverlayFollows(vendored: Files, env: Map, calls: seq<Call>, copies: seq<Option<Files>>,
                       oks: seq<bool>, k: nat, torn: string, n: nat, data: string)
    requires IsRun(vendored, env, calls, copies, oks) && k < n <= |calls| && OverlayUsable(calls, k, n)
    requires Basis(vendored, calls, copies, k).Some? && Basis(vendored, calls, copies, k).value.overlay == Some(torn)
    requires OverlayLaws.Dangling(torn) ==> n == k + 1
    requires !calls[n - 1].removed && oks[n - 1]
    ensures copies[n].Some? && copies[n].value.overlay == Some(Overlay.SetNamespace(torn, calls[n - 1].ns))
    ensures copies[n].value.overlay == Some(Overlay.SetNamespace(data, calls[n - 1].ns)) <==>
      OverlayRepairs.SameOutline(torn, data)
    ensures OverlayLaws.ReadsOnly(Overlay.Scan(copies[n].value.overlay.value, true), calls[n - 1].ns) <==>
      !OverlayLaws.Dangling(torn) || calls[n - 1].ns == Overlay.KEY
  {
    var ns := OverlayOverRun(vendored, env, calls, copies, oks, k, torn, n);
    OverlayRepairs.SameAfterSetting(torn, data, ns);
    OverlayLaws.SetThenGet(torn, ns);
  }

  /** An overlay that was truncated and not written again is repaired by later successes exactly if there
      was nothing but a namespace line in it. */
  lemma TruncatedOverlayIsKept(vendored: Files, env: Map, calls: seq<Call>, copies: seq<Option<Files>>,
                               oks: seq<bool>, k: nat, n: nat, data: string)
    requires IsRun(vendored, env, calls, copies, oks) && k < n <= |calls| && OverlayUsable(calls, k, n)
    requires copies[k].Some? && copies[k].value.overlay == Some("")
    requires !calls[n - 1].removed && oks[n - 1] && !OverlayLaws.Dangling(data)
    ensures copies[n].Some?
    ensures copies[n].value.overlay == Some(Overlay.SetNamespace(data, calls[n - 1].ns)) <==>
      data == "" || OverlayRepairs.OnlyEntry(data)
  {
    OverlayFollows(vendored, env, calls, copies, oks, k, "", n, data);
    OverlayRepairs.EmptyOutline(data);
  }

  /******* Files that are missing *******/

  predicate Undisturbed(call: Call) {
    call.paramsFault.NoFault? && call.overlayFault.NoFault?
  }

  lemma FilesStay(env: Map, call: Call, before: Files, after: Files, ok: bool)
    requires Rewritten(env, call, before, after, ok)
    ensures after.params.Some? <==> before.params.Some?
    ensures after.overlay.Some? <==> before.overlay.Some?
    ensures before.params == None && Undisturbed(call) ==> ok
  {}

  /** Neither file comes or goes: it is there at any time exactly if some call worked on it. */
  lemma {:induction false} HalfCopyIsKept(vendored: Files, env: Map, calls: seq<Call>, copies: seq<Option<Files>>,
                                          oks: seq<bool>, k: nat, n: nat)
    requires IsRun(vendored, env, calls, copies, oks) && k < n <= |calls| && Basis(vendored, calls, copies, k).Some?
    ensures copies[n].Some?
    ensures var files := Basis(vendored, calls, copies, k).value;
      && (copies[n].value.params.Some? <==> files.params.Some?)
      && (copies[n].value.overlay.Some? <==> files.overlay.Some?)
  {
    if n > k + 1 {
      HalfCopyIsKept(vendored, env, calls, copies, oks, k, n - 1);
    }
    BasisIsRewritten(vendored, env, calls, copies, oks, n - 1);
    var files := Basis(vendored, calls, copies, n - 1).value;
    if Rewritten(env, calls[n - 1], files, copies[n].value, oks[n - 1]) {
      FilesStay(env, calls[n - 1], files, copies[n].value, oks[n - 1]);
    }
  }

  /** Without params an undisturbed call succeeds all the same. */
  lemma MissingIsAccepted(vendored: Files, env: Map, calls: seq<Call>, copies: seq<Option<Files>>, oks: seq<bool>, k: nat)
    requires IsRun(vendored, env, calls, copies, oks) && k < |calls|
    requires copies[k].Some? && copies[k].value.params == None && Undisturbed(calls[k])
    ensures oks[k]
  {
    assert ActionStep(vendored, env, calls[k], copies[k], copies[k + 1], oks[k]);
    if !calls[k].removed {
      FilesStay(env, calls[k], copies[k].value, copies[k + 1].value, oks[k]);
    }
  }

  /******* How it comes to that *******/

  /** Copying fails with any part of the tree that has no params yet; the next call succeeds, and there
      are still none. */
  lemma HalfCopyExample(vendored: Files, env: Map, ns: string, files: Files)
    returns (calls: seq<Call>, copies: seq<Option<Files>>, oks: seq<bool>)
    requires IsPartOf(files, vendored) && files.params == None
    ensures IsRun(vendored, env, calls, copies, oks) && |calls| == 2
    ensures copies[1] == Some(files) && oks == [false, true]
    ensures copies[2].Some? && copies[2].value.params == None
  {
    calls := [Call(false, ns, Partial(files), NoFault, NoFault), Call(false, ns, Complete, NoFault, NoFault)];
    var last := Files(None, Overlay.Overwritten(ns, NoFault, files.overlay).0);
    copies, oks := [None, Some(files), Some(last)], [false, true];
    assert Rewritten(env, calls[1], files, last, true);
  }

  /** Writing the overlay fails after truncating it; the next call succeeds, and there is nothing but the
      namespace in it, so that it is wrong for every file with more in it. */
  lemma TruncatedExample(data: string, env: Map, ns: string)
    returns (calls: seq<Call>, copies: seq<Option<Files>>, oks: seq<bool>)
    requires Overlay.Plain(ns) && !OverlayLaws.Dangling(data) && data != "" && !OverlayRepairs.OnlyEntry(data)
    ensures IsRun(Files(None, Some(data)), env, calls, copies, oks) && |calls| == 2
    ensures copies[1] == Some(Files(None, Some(""))) && oks == [false, true]
    ensures copies[2].Some? && copies[2].value.overlay != Some(Overlay.SetNamespace(data, ns))
  {
    var vendored, torn := Files(None, Some(data)), Files(None, Some(""));
    calls := [Call(false, ns, Complete, NoFault, Writing(0)), Call(false, ns, Complete, NoFault, NoFault)];
    var last := Files(None, Some(Overlay.SetNamespace("", ns)));
    copies, oks := [None, Some(torn), Some(last)], [false, true];
    assert Torn(Overlay.SetNamespace(data, ns), 0) == "";
    assert Rewritten(env, calls[0], vendored, torn, false);
    assert Rewritten(env, calls[1], torn, last, true);
    TruncatedOverlayIsKept(vendored, env, calls, copies, oks, 1, 2, data);
  }
}
