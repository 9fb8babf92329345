/** Dropping of OpenShift-only resources, in place, where the cluster does not know them. */
module PlatformFilter {
  import opened Wrappers
  import opened Render

  predicate IsSCC(r: Resource) {
    r.gvk.kind == "SecurityContextConstraints" && r.gvk.group == "security.openshift.io"
  }

  function WithoutSCCs(s: seq<Resource>): seq<Resource> {
    if s == [] then []
    else
      var n := |s| - 1;
      WithoutSCCs(s[..n]) + (if IsSCC(s[n]) then [] else [s[n]])
  }

  /** `kept` are the positions of a subsequence: in order, none twice. */
  ghost predicate Ascending(kept: seq<nat>, bound: nat) {
    && (forall i :: 0 <= i < |kept| ==> kept[i] < bound)
    && (forall i, j :: 0 <= i < j < |kept| ==> kept[i] < kept[j])
  }

  ghost predicate Picks(kept: seq<nat>, s: seq<Resource>, r: seq<Resource>) {
    && Ascending(kept, |s|) && |r| == |kept|
    && (forall i :: 0 <= i < |kept| ==> r[i] == s[kept[i]])
    && (forall p :: 0 <= p < |s| ==> (p in kept <==> !IsForOpenShift(s[p])))
  }

  /** The filtered sequence consists of exactly the non-SCC positions, in their old order. */
  lemma {:induction false} FilterPicks(s: seq<Resource>) returns (kept: seq<nat>)
    ensures Picks(kept, s, WithoutSCCs(s))
  {
    if s == [] {
      kept := [];
    } else {
      var n := |s| - 1;
      var front := FilterPicks(s[..n]);
      kept := if IsSCC(s[n]) then front else front + [n];
      PicksOneMore(front, s, WithoutSCCs(s[..n]));
    }
  }

  lemma PicksOneMore(front: seq<nat>, s: seq<Resource>, r: seq<Resource>)
    requires s != [] && Picks(front, s[..|s| - 1], r)
    ensures IsSCC(s[|s| - 1]) ==> Picks(front, s, r)
    ensures !IsSCC(s[|s| - 1]) ==> Picks(front + [|s| - 1], s, r + [s[|s| - 1]])
  {}

  lemma NoneForOpenShift(s: seq<Resource>)
    ensures forall i :: 0 <= i < |WithoutSCCs(s)| ==> !IsForOpenShift(WithoutSCCs(s)[i])
  {
    var kept := FilterPicks(s);
    assert forall i :: 0 <= i < |kept| ==> kept[i] in kept;
  }

  lemma {:induction false} FilterIdempotent(s: seq<Resource>)
    ensures WithoutSCCs(WithoutSCCs(s)) == WithoutSCCs(s)
  {
    if s != [] {
      var n := |s| - 1;
      FilterIdempotent(s[..n]);
      if !IsSCC(s[n]) {
        var r := WithoutSCCs(s);
        assert r[..|r| - 1] == WithoutSCCs(s[..n]) && r[|r| - 1] == s[n];
        assert WithoutSCCs(r) == WithoutSCCs(r[..|r| - 1]) + [s[n]];
      } else {
        assert WithoutSCCs(s) == WithoutSCCs(s[..n]);
      }
    }
  }

  /** Go's filter over `s[:0]`: the result is written over the front of the array that is being read.
      Positions past the result keep what they had. */
  method FilterInPlace(a: array<Resource>, len: nat) returns (w: nat)
    requires len <= a.Length
    modifies a
    ensures w <= len
    ensures a[..w] == WithoutSCCs(old(a[..len]))
    ensures forall p :: w <= p < a.Length ==> a[p] == old(a[p])
  {
    w := 0;
    ghost var was := a[..len];
    for i := 0 to len
      invariant w <= i
      invariant a[..w] == WithoutSCCs(was[..i])
      invariant forall p :: w <= p < a.Length ==> a[p] == old(a[p])
    {
      var r := a[i];
      assert was[..i + 1][..i] == was[..i];
      if IsSCC(r) {
        continue;
      }
      a[w] := r;
      w := w + 1;
      assert a[..w - 1] == WithoutSCCs(was[..i]) && a[..w] == a[..w - 1] + [r];
    }
    assert was[..len] == was;
  }

  /** The action: whether the cluster knows SCCs is asked once and remembered for good. */
  class Filter {
    var asked: bool
    var hasSCCs: bool

    constructor ()
      ensures !asked
    {
      asked, hasSCCs := false, false;
    }

    function Memory(): Option<bool>
      reads this
    {
      if asked then Some(hasSCCs) else None
    }

    /** `answer` is what the REST mapper would say now. */
    method Apply(answer: bool, a: array<Resource>, len: nat) returns (newLen: nat)
      requires len <= a.Length
      modifies this, a
      ensures Memory() == Some(Decision(old(Memory()), answer))
      ensures newLen <= len
      ensures a[..newLen] == FilteredBy(Decision(old(Memory()), answer), old(a[..len]))
      ensures old(Memory()) == Some(true) || (old(Memory()) == None && answer) ==> newLen == len && a[..] == old(a[..])
      ensures old(Memory()) == Some(false) || (old(Memory()) == None && !answer) ==>
        forall i :: 0 <= i < newLen ==> !IsForOpenShift(a[i])
      ensures forall p :: newLen <= p < a.Length ==> a[p] == old(a[p])
    {
      if !asked {
        hasSCCs := answer;
        asked := true;
      }
      if hasSCCs {
        return len;
      }
      newLen := FilterInPlace(a, len);
      NoneForOpenShift(old(a[..len]));
      assert forall i :: 0 <= i < newLen ==> a[..newLen][i] == a[i];
    }
  }

  function Decision(memory: Option<bool>, answer: bool): bool {
    if memory.Some? then memory.value else answer
  }

  function FilteredBy(hasSCCs: bool, s: seq<Resource>): seq<Resource> {
    if hasSCCs then s else WithoutSCCs(s)
  }

  /** One call after the other on a filter with the given memory: what each call makes of its input. */
  function Calls(memory: Option<bool>, answers: seq<bool>, inputs: seq<seq<Resource>>): (r: seq<seq<Resource>>)
    requires |answers| == |inputs|
    decreases |answers|
  {
    if answers == [] then []
    else
      var decision := Decision(memory, answers[0]);
      [FilteredBy(decision, inputs[0])] + Calls(Some(decision), answers[1..], inputs[1..])
  }

  /** Whatever the mapper answers later, every call is decided by the answer to the first. */
  lemma {:induction false} FirstAnswerDecides(memory: Option<bool>, answers: seq<bool>, inputs: seq<seq<Resource>>, i: nat)
    requires |answers| == |inputs| && i < |inputs|
    ensures |Calls(memory, answers, inputs)| == |inputs|
    ensures Calls(memory, answers, inputs)[i] == FilteredBy(Decision(memory, answers[0]), inputs[i])
    decreases |answers|
  {
    var decision := Decision(memory, answers[0]);
    if |answers| > 1 {
      FirstAnswerDecides(Some(decision), answers[1..], inputs[1..], if i == 0 then 0 else i - 1);
    } else {
      assert Calls(Some(decision), answers[1..], inputs[1..]) == [];
    }
  }
}
