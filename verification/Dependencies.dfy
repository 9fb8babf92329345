/** The requirement that cert-manager is installed before anything that needs it is applied. */
module Dependencies {
  import opened Cluster
  import opened Render

  const ISSUER := GVK("cert-manager.io", "v1", "Issuer")
  const CERTIFICATE := GVK("cert-manager.io", "v1", "Certificate")
  const CERT_MANAGER_GVKS := [ISSUER, CERTIFICATE]

  ghost predicate Mentions(resources: seq<Resource>, gvk: GVK) {
    exists i :: 0 <= i < |resources| && resources[i].gvk == gvk
  }

  /** The cert-manager kinds among the resources, each once and in a fixed order. */
  ghost function Required(resources: seq<Resource>): seq<GVK> {
    (if Mentions(resources, ISSUER) then [ISSUER] else [])
    + (if Mentions(resources, CERTIFICATE) then [CERTIFICATE] else [])
  }

  /** requiredCertManagerGVKs */
  method RequiredCertManagerGVKs(resources: seq<Resource>) returns (required: seq<GVK>)
    ensures required == Required(resources)
  {
    required := [];
    for n := 0 to |CERT_MANAGER_GVKS|
      invariant n == 0 ==> required == []
      invariant n == 1 ==> required == if Mentions(resources, ISSUER) then [ISSUER] else []
      invariant n == 2 ==> required == Required(resources)
    {
      ghost var before := required;
      var i := 0;
      while i < |resources|
        invariant 0 <= i <= |resources|
        invariant forall j :: 0 <= j < i ==> resources[j].gvk != CERT_MANAGER_GVKS[n]
        invariant required == before
      {
        if resources[i].gvk == CERT_MANAGER_GVKS[n] {
          required := required + [CERT_MANAGER_GVKS[n]];
          assert Mentions(resources, CERT_MANAGER_GVKS[n]);
          break;
        }
        i := i + 1;
      }
    }
  }

  /** The CRD that has to exist for a cert-manager kind to be usable. */
  function CrdOf(gvk: GVK): Key {
    var plural := if gvk.kind == "Issuer" then "issuers" else "certificates";
    Key(CustomResourceDefinition, "", plural + "." + gvk.group)
  }

  ghost predicate PresentAt(gvk: GVK, c: Objects, acts: seq<Act>, i: nat)
    requires i <= |acts|
  {
    Evolve(CrdOf(gvk), Get(c, CrdOf(gvk)), acts[..i]).Some?
  }

  /** Each required kind was found installed at some point between the acts. */
  ghost predicate AllSeen(required: seq<GVK>, c: Objects, acts: seq<Act>) {
    forall gvk :: gvk in required ==> exists i: nat | i <= |acts| :: PresentAt(gvk, c, acts, i)
  }

  ghost predicate OneMissed(required: seq<GVK>, c: Objects, acts: seq<Act>) {
    exists gvk, i: nat | gvk in required && i <= |acts| :: !PresentAt(gvk, c, acts, i)
  }

  /******* Told by the fields *******/

  // What follows is spelled out on the fields; no operation of the model uses it.

  ghost predicate Uses(resources: seq<Resource>, kind: string) {
    exists i :: 0 <= i < |resources| && resources[i].gvk == GVK("cert-manager.io", "v1", kind)
  }

  ghost predicate ThereAt(crd: string, c: Objects, acts: seq<Act>, i: nat)
    requires i <= |acts|
  {
    var k := Key(CustomResourceDefinition, "", crd);
    Evolve(k, Get(c, k), acts[..i]).Some?
  }

  /** Both CRDs, as far as they are needed, were there at some point. */
  ghost predicate NeedsMet(resources: seq<Resource>, c: Objects, acts: seq<Act>) {
    && (Uses(resources, "Issuer") ==> exists i: nat | i <= |acts| :: ThereAt("issuers.cert-manager.io", c, acts, i))
    && (Uses(resources, "Certificate") ==> exists i: nat | i <= |acts| :: ThereAt("certificates.cert-manager.io", c, acts, i))
  }

  /** One that is needed was missing at some point. */
  ghost predicate NeedUnmet(resources: seq<Resource>, c: Objects, acts: seq<Act>) {
    || (Uses(resources, "Issuer") && exists i: nat | i <= |acts| :: !ThereAt("issuers.cert-manager.io", c, acts, i))
    || (Uses(resources, "Certificate") && exists i: nat | i <= |acts| :: !ThereAt("certificates.cert-manager.io", c, acts, i))
  }

  lemma CrdNames()
    ensures CrdOf(ISSUER) == Key(CustomResourceDefinition, "", "issuers.cert-manager.io")
    ensures CrdOf(CERTIFICATE) == Key(CustomResourceDefinition, "", "certificates.cert-manager.io")
  {
    assert |"Issuer"| != |"Certificate"|;
    assert "issuers" + "." + "cert-manager.io" == "issuers.cert-manager.io";
    assert "certificates" + "." + "cert-manager.io" == "certificates.cert-manager.io";
  }

  ghost predicate SeenOnce(gvk: GVK, c: Objects, acts: seq<Act>) {
    exists i: nat | i <= |acts| :: PresentAt(gvk, c, acts, i)
  }

  lemma ThereIsPresent(gvk: GVK, crd: string, c: Objects, acts: seq<Act>)
    requires CrdOf(gvk) == Key(CustomResourceDefinition, "", crd)
    ensures (exists i: nat | i <= |acts| :: ThereAt(crd, c, acts, i)) <==> SeenOnce(gvk, c, acts)
    ensures (exists i: nat | i <= |acts| :: !ThereAt(crd, c, acts, i)) <==>
      exists i: nat | i <= |acts| :: !PresentAt(gvk, c, acts, i)
  {
    assert forall i: nat | i <= |acts| :: ThereAt(crd, c, acts, i) <==> PresentAt(gvk, c, acts, i);
  }

  lemma NeedsAre(resources: seq<Resource>, c: Objects, acts: seq<Act>)
    ensures AllSeen(Required(resources), c, acts) <==> NeedsMet(resources, c, acts)
    ensures OneMissed(Required(resources), c, acts) <==> NeedUnmet(resources, c, acts)
  {
    CrdNames();
    ThereIsPresent(ISSUER, "issuers.cert-manager.io", c, acts);
    ThereIsPresent(CERTIFICATE, "certificates.cert-manager.io", c, acts);
    assert Uses(resources, "Issuer") <==> Mentions(resources, ISSUER);
    assert Uses(resources, "Certificate") <==> Mentions(resources, CERTIFICATE);
    var required := Required(resources);
    assert forall gvk :: gvk in required <==>
      (gvk == ISSUER && Mentions(resources, ISSUER)) || (gvk == CERTIFICATE && Mentions(resources, CERTIFICATE));
    assert AllSeen(required, c, acts) <==> forall gvk :: gvk in required ==> SeenOnce(gvk, c, acts);
  }

  lemma SeenOnward(required: seq<GVK>, c: Objects, acts: seq<Act>, more: seq<Act>)
    requires AllSeen(required, c, acts)
    ensures AllSeen(required, c, acts + more)
  {
    forall gvk | gvk in required
      ensures exists i: nat | i <= |acts + more| :: PresentAt(gvk, c, acts + more, i)
    {
      var i: nat :| i <= |acts| && PresentAt(gvk, c, acts, i);
      assert (acts + more)[..i] == acts[..i];
      assert PresentAt(gvk, c, acts + more, i);
    }
  }

  lemma LooksNow(gvk: GVK, c: Objects, acts: seq<Act>, mid: Objects, more: seq<Act>, c': Objects)
    requires forall k :: Get(mid, k) == Evolve(k, Get(c, k), acts)
    requires c' == ApplyActs(mid, more)
    ensures forall k :: Get(c', k) == Evolve(k, Get(c, k), acts + more)
    ensures PresentAt(gvk, c, acts + more, |acts + more|) <==> CrdOf(gvk) in c'
  {
    forall k ensures Get(c', k) == Evolve(k, Get(c, k), acts + more) {
      EvolveConcat(k, Get(c, k), acts, more);
      ApplyActsPointwise(mid, more, k);
    }
    assert (acts + more)[..|acts + more|] == acts + more;
  }

  /** certManagerRequirementAction: writes nothing; passes only if every required CRD was seen; and
      fails only if one was seen missing or a call failed. */
  method CertManagerRequirement(api: ApiServer, removed: bool, resources: seq<Resource>)
    returns (ok: bool, ghost acts: seq<Act>)
    modifies api
    ensures removed ==> ok && acts == []
    ensures forall k :: Get(api.objects, k) == Evolve(k, Get(old(api.objects), k), acts)
    ensures ok && !removed ==> AllSeen(Required(resources), old(api.objects), acts)
    ensures ok && !removed ==> NeedsMet(resources, old(api.objects), acts)
    ensures !ok ==> NeedUnmet(resources, old(api.objects), acts) || Troubles(api.script) < Troubles(old(api.script))
  {
    ghost var c := api.objects;
    acts := [];
    if removed {
      return true, [];
    }
    var required := RequiredCertManagerGVKs(resources);
    for n := 0 to |required|
      invariant forall k :: Get(api.objects, k) == Evolve(k, Get(c, k), acts)
      invariant AllSeen(required[..n], c, acts)
      invariant Troubles(api.script) <= Troubles(old(api.script))
    {
      ghost var mid := api.objects;
      var crd; ghost var more;
      crd, more := api.Read(CrdOf(required[n]));
      LooksNow(required[n], c, acts, mid, more, api.objects);
      SeenOnward(required[..n], c, acts, more);
      acts := acts + more;
      if crd.Failure? {
        assert crd.error == NotFound ==> !PresentAt(required[n], c, acts, |acts|);
        NeedsAre(resources, c, acts);
        return false, acts;
      }
      assert PresentAt(required[n], c, acts, |acts|);
      assert required[..n + 1] == required[..n] + [required[n]];
    }
    assert required[..|required|] == required;
    NeedsAre(resources, c, acts);
    ok := true;
  }
}
