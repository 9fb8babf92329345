/** The KubeRay version that the status reports, taken from the tag of an image reference. */
module Releases {
  import opened Wrappers
  import opened Text
  import opened Params
  import opened Overrides

  const KUBERAY_IMAGE_PARAM := "odh-kuberay-operator-controller-image"
  const PROXY_IMAGE_PARAM := "odh-kube-rbac-proxy-image"
  const KUBERAY_IMAGE_ENV := "RELATED_IMAGE_ODH_KUBERAY_OPERATOR_CONTROLLER_IMAGE"
  const PROXY_IMAGE_ENV := "RELATED_IMAGE_ODH_KUBE_RBAC_PROXY_IMAGE"

  const IMAGE_PARAMS: Map := map[KUBERAY_IMAGE_PARAM := KUBERAY_IMAGE_ENV, PROXY_IMAGE_PARAM := PROXY_IMAGE_ENV]

  /******* Image references *******/

  /** White space as strings.TrimSpace knows it. */
  predicate IsSpace(c: char) {
    '\t' <= c <= '\r' || c == ' ' || c == '\U{85}' || c == '\U{A0}' || c == '\U{1680}'
    || '\U{2000}' <= c <= '\U{200A}' || c == '\U{2028}' || c == '\U{2029}' || c == '\U{202F}'
    || c == '\U{205F}' || c == '\U{3000}'
  }

  function TrimLeft(s: string): string {
    if s != "" && IsSpace(s[0]) then TrimLeft(s[1..]) else s
  }

  function TrimRight(s: string): string {
    if s != "" && IsSpace(s[|s| - 1]) then TrimRight(s[..|s| - 1]) else s
  }

  function TrimSpace(s: string): string {
    TrimRight(TrimLeft(s))
  }

  /** The reference without its digest. */
  function Body(image: string): string {
    var s := TrimSpace(image);
    var digest := FindLast(s, '@');
    if digest >= 0 then s[..digest] else s
  }

  /** kubeRayVersionFromImage */
  function VersionFromImage(image: string): string {
    var trimmed := TrimSpace(image);
    if trimmed == "" then "" else
    var digest := FindLast(trimmed, '@');
    var s := if digest >= 0 then trimmed[..digest] else trimmed;
    var slash := FindLast(s, '/');
    var colon := FindLast(s, ':');
    if colon > slash then s[colon + 1..] else ""
  }

  predicate IsTag(tag: string) {
    '/' !in tag && ':' !in tag
  }

  /** The version is the part of the reference after its last colon, if no slash comes later: exactly
      these strings are found, and anything found is free of slashes and colons. */
  lemma VersionIsTag(image: string, tag: string)
    requires tag != ""
    ensures VersionFromImage(image) == tag <==>
      IsTag(tag) && exists name :: Body(image) == name + ":" + tag
  {
    var s := Body(image);
    assert TrimSpace(image) == "" ==> s == "";
    if VersionFromImage(image) == tag {
      FoundTag(s);
    }
    if IsTag(tag) && exists name :: s == name + ":" + tag {
      var name :| s == name + ":" + tag;
      LastColon(name, tag);
    }
  }

  lemma FoundTag(s: string)
    requires FindLast(s, ':') > FindLast(s, '/')
    ensures var colon := FindLast(s, ':'); s == s[..colon] + ":" + s[colon + 1..] && IsTag(s[colon + 1..])
  {}

  lemma LastColon(name: string, tag: string)
    requires IsTag(tag)
    ensures var s := name + ":" + tag;
      FindLast(s, ':') == |name| && FindLast(s, '/') < |name| && s[|name| + 1..] == tag
  {
    var s := name + ":" + tag;
    assert s[|name|] == ':' && s[|name| + 1..] == tag;
    assert forall j :: |name| < j < |s| ==> s[j] == tag[j - |name| - 1];
  }

  /** A name may have a registry with a port: its colons come before its last slash. */
  predicate IsName(name: string) {
    '@' !in name && (FindLast(name, ':') < FindLast(name, '/') || FindLast(name, ':') == -1)
  }

  function Reference(name: string, tag: Option<string>, digest: Option<string>): string {
    name + (if tag.Some? then ":" + tag.value else "") + (if digest.Some? then "@" + digest.value else "")
  }

  // Unicode's white space, character by character. No operation of the model uses it.
  const SPACES := "\t\n\U{b}\U{c}\r \U{85}\U{A0}\U{1680}\U{2000}\U{2001}\U{2002}\U{2003}\U{2004}\U{2005}\U{2006}\U{2007}\U{2008}\U{2009}\U{200A}\U{2028}\U{2029}\U{202F}\U{205F}\U{3000}"

  ghost predicate AllSpace(s: string) {
    forall i :: 0 <= i < |s| ==> s[i] in SPACES
  }

  predicate Trimmed(s: string) {
    s != "" && s[0] !in SPACES && s[|s| - 1] !in SPACES
  }

  lemma SpacesAre(c: char)
    ensures IsSpace(c) <==> c in SPACES
  {
    if '\t' <= c <= '\r' {
      assert c == '\t' || c == '\n' || c == '\U{b}' || c == '\U{c}' || c == '\r';
      assert SPACES[0] == '\t' && SPACES[1] == '\n' && SPACES[2] == '\U{b}' && SPACES[3] == '\U{c}' && SPACES[4] == '\r';
    }
  }

  predicate Padding(s: string) {
    forall i :: 0 <= i < |s| ==> IsSpace(s[i])
  }

  lemma {:induction false} PaddingTrimmed(before: string, s: string, after: string)
    requires Padding(before) && Padding(after) && s != "" && !IsSpace(s[0]) && !IsSpace(s[|s| - 1])
    ensures TrimSpace(before + s + after) == s
    decreases |before| + |after|
  {
    if before != "" {
      assert (before + s + after)[1..] == before[1..] + s + after;
      PaddingTrimmed(before[1..], s, after);
    } else {
      assert before + s + after == s + after;
      assert (s + after)[0] == s[0];
      if after != "" {
        var shorter := after[..|after| - 1];
        assert (s + after)[..|s + after| - 1] == s + shorter;
        PaddingTrimmed("", s, shorter);
        assert "" + s + shorter == s + shorter;
        assert (s + shorter)[0] == s[0];
      } else {
        assert s + after == s;
      }
    }
  }

  lemma TrimPadding(before: string, s: string, after: string)
    requires AllSpace(before) && AllSpace(after) && Trimmed(s)
    ensures TrimSpace(before + s + after) == s
  {
    forall i | 0 <= i < |before| ensures IsSpace(before[i]) { SpacesAre(before[i]); }
    forall i | 0 <= i < |after| ensures IsSpace(after[i]) { SpacesAre(after[i]); }
    SpacesAre(s[0]);
    SpacesAre(s[|s| - 1]);
    PaddingTrimmed(before, s, after);
  }

  lemma BodyOfReference(name: string, tag: Option<string>, digest: Option<string>, before: string, after: string)
    requires AllSpace(before) && AllSpace(after) && Trimmed(Reference(name, tag, digest))
    requires '@' !in name && (tag.Some? ==> '@' !in tag.value) && (digest.Some? ==> '@' !in digest.value)
    ensures Body(before + Reference(name, tag, digest) + after) == Reference(name, tag, None)
  {
    var body := Reference(name, tag, None);
    TrimPadding(before, Reference(name, tag, digest), after);
    assert '@' !in body;
    if digest.Some? {
      assert Reference(name, tag, digest) == body + "@" + digest.value;
      LastAt(body, digest.value);
    } else {
      assert Reference(name, tag, digest) == body;
    }
  }

  lemma LastAt(body: string, digest: string)
    requires '@' !in digest
    ensures var s := body + "@" + digest; FindLast(s, '@') == |body| && s[..|body|] == body
  {
    var s := body + "@" + digest;
    assert s[|body|] == '@' && s[..|body|] == body;
    assert forall j :: |body| < j < |s| ==> s[j] == digest[j - |body| - 1];
  }

  /** Printing a reference and taking its version gives the tag back, with or without digest, and with
      any white space around. */
  lemma TagRoundTrip(name: string, tag: string, digest: Option<string>, before: string, after: string)
    requires AllSpace(before) && AllSpace(after) && Trimmed(Reference(name, Some(tag), digest))
    requires '@' !in name && IsTag(tag) && '@' !in tag && (digest.Some? ==> '@' !in digest.value)
    ensures VersionFromImage(before + Reference(name, Some(tag), digest) + after) == tag
  {
    var image := before + Reference(name, Some(tag), digest) + after;
    BodyOfReference(name, Some(tag), digest, before, after);
    assert Body(image) == name + ":" + tag;
    LastColon(name, tag);
    TrimPadding(before, Reference(name, Some(tag), digest), after);
  }

  /** Without a tag there is no version, even behind a registry with a port. */
  lemma UntaggedHasNoVersion(name: string, digest: Option<string>, before: string, after: string)
    requires AllSpace(before) && AllSpace(after) && Trimmed(Reference(name, None, digest))
    requires IsName(name) && (digest.Some? ==> '@' !in digest.value)
    ensures VersionFromImage(before + Reference(name, None, digest) + after) == ""
  {
    BodyOfReference(name, None, digest, before, after);
    assert Reference(name, None, None) == name;
  }

  /******* Resolution *******/

  /** `vendored` is the parsed params file of the read-only tree, if it can be read. */
  function DefaultImage(vendored: Option<Map>): string {
    if vendored.Some? then Value(vendored.value, KUBERAY_IMAGE_PARAM) else ""
  }

  function ResolveImage(vendored: Option<Map>, env: Map): string {
    var related := Value(env, IMAGE_PARAMS[KUBERAY_IMAGE_PARAM]);
    if related != "" then related else DefaultImage(vendored)
  }

  function ResolveVersion(vendored: Option<Map>, env: Map): string {
    var v := VersionFromImage(ResolveImage(vendored, env));
    if v != "" then v else VersionFromImage(DefaultImage(vendored))
  }

  /** The image that gets deployed, and whose tag the status reports: the one from the environment
      variable of the operator image if that is set, else the vendored one. A version is missing only
      if neither has a tag, and the injected image's tag is preferred. */
  lemma VersionMissing(vendored: Option<Map>, env: Map)
    ensures var related := Value(env, "RELATED_IMAGE_ODH_KUBERAY_OPERATOR_CONTROLLER_IMAGE");
      var default_ := if vendored.Some? then Value(vendored.value, "odh-kuberay-operator-controller-image") else "";
      && ResolveImage(vendored, env) == (if related != "" then related else default_)
      && (ResolveVersion(vendored, env) == "" <==> VersionFromImage(related) == "" && VersionFromImage(default_) == "")
      && (VersionFromImage(related) != "" ==> ResolveVersion(vendored, env) == VersionFromImage(related))
      && (VersionFromImage(related) == "" ==> ResolveVersion(vendored, env) == VersionFromImage(default_))
  {}
}
