/** Layering of image values from the environment and of extra parameters over a params file. */
module Overrides {
  import opened Wrappers
  import opened Disk
  import opened Params

  /** What a reader of the map gets for a key, as an absent key reads as "". */
  function Value(m: Map, key: string): string {
    if key in m then m[key] else ""
  }

  /******* Specification *******/

  /** The image layer changes only keys that are there, and only to non-empty values. */
  function Imaged(m: Map, images: Map, env: Map): (r: Map)
    ensures r.Keys == m.Keys
  {
    map k | k in m :: if k in images && Value(env, images[k]) != "" then Value(env, images[k]) else m[k]
  }

  /** One layer of extra parameters. A key that would be new is not added with an empty value. */
  function Layered(m: Map, extra: Map): Map {
    map k | k in m.Keys + extra.Keys && (k in m || extra[k] != "") :: if k in extra then extra[k] else m[k]
  }

  function AllLayered(m: Map, extras: seq<Map>): Map {
    if extras == [] then m
    else Layered(AllLayered(m, extras[..|extras| - 1]), extras[|extras| - 1])
  }

  function Merged(m: Map, images: Map, env: Map, extras: seq<Map>): Map {
    AllLayered(Imaged(m, images, env), extras)
  }

  /******* applyParams *******/

  /** updateParam: the value 1 says that the map was changed. */
  method UpdateParam(m: Map, key: string, value: string) returns (m': Map, updated: nat)
    ensures m' == Layered(m, map[key := value])
    ensures updated <= 1 && (updated == 0 <==> m' == m)
    ensures updated == 1 ==> Value(m, key) != value
  {
    if Value(m, key) == value {
      assert Layered(m, map[key := value]) == m;
      return m, 0;
    }
    assert m[key := value] == Layered(m, map[key := value]);
    assert Value(m[key := value], key) != Value(m, key);
    return m[key := value], 1;
  }

  method ApplyImages(m: Map, images: Map, env: Map) returns (m': Map, updated: nat)
    ensures m' == Imaged(m, images, env)
    ensures updated <= 1 && (updated == 0 ==> m' == m)
  {
    m', updated := m, 0;
    var keys := m.Keys;
    while keys != {}
      invariant keys <= m.Keys && m'.Keys == m.Keys
      invariant forall k :: k in m ==> m'[k] == if k in keys then m[k] else Imaged(m, images, env)[k]
      invariant updated <= 1 && (updated == 0 ==> m' == m)
    {
      var key :| key in keys;
      keys := keys - {key};
      if key !in images {
        continue;
      }
      var related := Value(env, images[key]);
      if related != "" {
        var changed;
        m', changed := UpdateParam(m', key, related);
        updated := if changed == 1 then 1 else updated;
      }
    }
  }

  lemma LayerOneMore(m: Map, extra: Map, keys: set<string>, key: string)
    requires key in keys && keys <= extra.Keys
    ensures Layered(Layered(m, extra - keys), map[key := extra[key]]) == Layered(m, extra - (keys - {key}))
  {}

  method ApplyLayer(m: Map, extra: Map) returns (m': Map, updated: nat)
    ensures m' == Layered(m, extra)
    ensures updated <= 1 && (updated == 0 ==> m' == m)
  {
    m', updated := m, 0;
    var keys := extra.Keys;
    while keys != {}
      invariant keys <= extra.Keys
      invariant m' == Layered(m, extra - keys)
      invariant updated <= 1 && (updated == 0 ==> m' == m)
    {
      var key :| key in keys;
      LayerOneMore(m, extra, keys, key);
      var changed;
      m', changed := UpdateParam(m', key, extra[key]);
      updated := if changed == 1 then 1 else updated;
      keys := keys - {key};
    }
    assert extra - {} == extra;
  }

  method PrintParams(m: Map) returns (text: string)
    ensures exists order :: IsOrder(order, m) && text == Print(m, order)
  {
    text := "";
    ghost var order: seq<string> := [];
    var keys := m.Keys;
    while keys != {}
      invariant keys <= m.Keys
      invariant forall k :: k in order <==> k in m && k !in keys
      invariant forall i, j :: 0 <= i < j < |order| ==> order[i] != order[j]
      invariant text == Print(m, order)
    {
      var key :| key in keys;
      keys := keys - {key};
      text := text + Line(key, m[key]) + "\n";
      PrintConcat(m, order, key);
      order := order + [key];
    }
  }

  lemma {:induction false} PrintConcat(m: Map, order: seq<string>, key: string)
    requires key in m && forall k :: k in order ==> k in m
    ensures Print(m, order + [key]) == Print(m, order) + Line(key, m[key]) + "\n"
    decreases |order|
  {
    if order == [] {
      assert Print(m, [key]) == Line(key, m[key]) + "\n" + Print(m, []);
    } else {
      assert (order + [key])[1..] == order[1..] + [key];
      PrintConcat(m, order[1..], key);
    }
  }

  /** What one application may do to the file: it stays as it is and the merge changed nothing, or it
      holds the merged map in some order. */
  ghost predicate Rewrites(m: Map, merged: Map, content: string, content': string) {
    || (content' == content && merged == m)
    || exists order :: IsOrder(order, merged) && content' == Print(merged, order)
  }

  datatype ApplyError = Unreadable | Unparsable(error: ParseError) | Unwritable

  /** Why a call fails, if it fails. */
  function Cause(fault: Fault, content: Option<string>): ApplyError {
    if fault.Reading? then Unreadable
    else if content.Some? && Parse(content.value).Failure? then Unparsable(Parse(content.value).error)
    else Unwritable
  }

  /** What one call makes of the file. Whatever goes wrong, the file is the old one or a complete new
      one; and where nothing could be written, success means that there was nothing to write. */
  ghost predicate Applied(images: Map, env: Map, extras: seq<Map>, fault: Fault,
                          before: Option<string>, after: Option<string>, ok: bool) {
    if fault.Reading? then !ok && after == before
    else if before == None then ok && after == None
    else if Parse(before.value).Failure? then !ok && after == before
    else
      var m := Parse(before.value).value;
      var merged := Merged(m, images, env, extras);
      && (ok ==> after.Some? && Rewrites(m, merged, before.value, after.value))
      && (ok && !fault.NoFault? ==> after == before && merged == m)
      && (!ok ==> !fault.NoFault? && after == before)
  }

  class File {
    var content: Option<string>
    var temp: Option<string> // the temporary file next to it, while there is one

    constructor (content: Option<string>)
      ensures this.content == content && temp == None
    {
      this.content, temp := content, None;
    }

    /** Writes a temporary file and moves it into place; what is left of it after a failure is removed. */
    method Replace(text: string, fault: Fault) returns (ok: bool)
      requires temp == None
      modifies this
      ensures temp == None
      ensures ok <==> fault.NoFault? || fault.Reading?
      ensures content == if ok then Some(text) else old(content)
    {
      if fault.Opening? {
        return false;
      }
      temp := Some("");
      if fault.Writing? {
        temp := Some(Torn(text, fault.written));
        temp := None;
        return false;
      }
      temp := Some(text);
      if fault.Renaming? {
        temp := None;
        return false;
      }
      content, temp := temp, None;
      ok := true;
    }

    /** applyParams. A missing file is fine; a file that cannot be parsed is left alone. */
    method ApplyParams(images: Map, env: Map, extras: seq<Map>, fault: Fault) returns (r: Result<(), ApplyError>)
      requires temp == None
      modifies this
      ensures temp == None
      ensures Applied(images, env, extras, fault, old(content), content, r.Success?)
      ensures r.Failure? ==> r.error == Cause(fault, old(content))
    {
      if fault.Reading? {
        return Failure(Unreadable);
      }
      if content == None {
        return Success(());
      }
      var parsed := ParseParams(content.value);
      if parsed.Failure? {
        return Failure(Unparsable(parsed.error));
      }
      var m, updated := ApplyImages(parsed.value, images, env);
      for n := 0 to |extras|
        invariant content == old(content) && temp == None
        invariant m == AllLayered(Imaged(parsed.value, images, env), extras[..n])
        invariant updated <= 1 && (updated == 0 ==> m == parsed.value)
      {
        assert extras[..n + 1][..n] == extras[..n];
        var changed;
        m, changed := ApplyLayer(m, extras[n]);
        updated := if changed == 1 then 1 else updated;
      }
      assert extras[..|extras|] == extras;
      if updated == 0 {
        return Success(());
      }
      var text := PrintParams(m);
      var ok := Replace(text, fault);
      r := if ok then Success(()) else Failure(Unwritable);
    }
  }

  /******* Which layer wins *******/

  /** The last extra map that has the key. */
  function LastWith(extras: seq<Map>, key: string): Option<string> {
    if extras == [] then None
    else if key in extras[|extras| - 1] then Some(extras[|extras| - 1][key])
    else LastWith(extras[..|extras| - 1], key)
  }

  ghost predicate SomeExtraSets(extras: seq<Map>, key: string) {
    exists i :: 0 <= i < |extras| && key in extras[i] && extras[i][key] != ""
  }

  function Effective(m: Map, images: Map, env: Map, extras: seq<Map>, key: string): string {
    var last := LastWith(extras, key);
    if last.Some? then last.value
    else if key in m && key in images && Value(env, images[key]) != "" then Value(env, images[key])
    else Value(m, key)
  }

  lemma {:induction false} LayersAt(m: Map, extras: seq<Map>, key: string)
    ensures key in AllLayered(m, extras) <==> key in m || SomeExtraSets(extras, key)
    ensures Value(AllLayered(m, extras), key) ==
      if LastWith(extras, key).Some? then LastWith(extras, key).value else Value(m, key)
    decreases |extras|
  {
    if extras != [] {
      var n := |extras| - 1;
      LayersAt(m, extras[..n], key);
      if SomeExtraSets(extras[..n], key) {
        var i :| 0 <= i < n && key in extras[..n][i] && extras[..n][i][key] != "";
        assert key in extras[i] && extras[i][key] != "";
      }
      if i :| 0 <= i < n && key in extras[i] && extras[i][key] != "" {
        assert extras[..n][i] == extras[i];
      }
    }
  }

  /** A key of the result reads as the last extra map that has it says, else as its non-empty image
      value, else as before; and the keys are the old ones and those some extra map sets to a non-empty value. */
  lemma LayeredOverride(m: Map, images: Map, env: Map, extras: seq<Map>, key: string)
    ensures var r := Merged(m, images, env, extras);
      && Value(r, key) == Effective(m, images, env, extras, key)
      && (key in r <==> key in m || SomeExtraSets(extras, key))
  {
    LayersAt(Imaged(m, images, env), extras, key);
  }

  /** Applying the same layers again changes nothing. */
  lemma MergeIdempotent(m: Map, images: Map, env: Map, extras: seq<Map>)
    ensures var r := Merged(m, images, env, extras); Merged(r, images, env, extras) == r
  {
    var r := Merged(m, images, env, extras);
    var again := Merged(r, images, env, extras);
    forall k ensures (k in r <==> k in again) && Value(r, k) == Value(again, k) {
      LayeredOverride(m, images, env, extras, k);
      LayeredOverride(r, images, env, extras, k);
      if LastWith(extras, k) == None {
        NoneSets(extras, k);
      }
    }
    MapsEqual(again, r);
  }

  lemma {:induction false} NoneSets(extras: seq<Map>, key: string)
    requires LastWith(extras, key) == None
    ensures !SomeExtraSets(extras, key)
    decreases |extras|
  {
    if extras != [] {
      var n := |extras| - 1;
      NoneSets(extras[..n], key);
      assert forall i :: 0 <= i < n ==> extras[..n][i] == extras[i];
    }
  }

  lemma MapsEqual(a: Map, b: Map)
    requires forall k :: (k in a <==> k in b) && Value(a, k) == Value(b, k)
    ensures a == b
  {}

  /** The file that applyParams leaves reads back as the merged map, provided what was merged in fits
      on lines; a file whose map would not change is not touched. */
  lemma RereadIsMerged(m: Map, merged: Map, content: string, content': string)
    requires Parse(content) == Success(m) && Rewrites(m, merged, content, content')
    requires AllFit(merged)
    ensures Parse(content') == Success(merged)
  {
    if content' != content || merged != m {
      var order :| IsOrder(order, merged) && content' == Print(merged, order);
      RoundTrip(merged, order);
    }
  }
}
