/** The key=value file that parameterises the operand manifests: reading, overriding, writing. */
module Params {
  import opened Wrappers
  import opened Text

  type Map = map<string, string>

  /******* Reading *******/

  // A line must leave room for its newline in the scanner's largest buffer.
  const MAX_TOKEN := 65536

  datatype ParseError = LineTooLong

  function DropCR(line: string): string {
    if line != "" && line[|line| - 1] == '\r' then line[..|line| - 1] else line
  }

  /** A line without '=' is skipped; the key ends at the first one. */
  function ReadLine(m: Map, raw: string): Map {
    var line := DropCR(raw);
    var i := Find(line, '=');
    if i < |line| then m[line[..i] := line[i + 1..]] else m
  }

  function ReadLines(m: Map, lines: seq<string>): Map
    decreases |lines|
  {
    if lines == [] then m else ReadLines(ReadLine(m, lines[0]), lines[1..])
  }

  predicate TooLong(line: string) {
    |line| >= MAX_TOKEN
  }

  predicate AnyTooLong(lines: seq<string>) {
    exists i :: 0 <= i < |lines| && TooLong(lines[i])
  }

  function Parse(content: string): Result<Map, ParseError> {
    var lines := RawLines(content);
    if AnyTooLong(lines) then Failure(LineTooLong)
    else Success(ReadLines(map[], lines))
  }

  /** Of a file that can be parsed, so can every part from the front. */
  lemma {:induction false} PrefixParses(part: string, content: string)
    requires part <= content && Parse(content).Success?
    ensures Parse(part).Success?
    decreases |content|
  {
    if part != "" {
      var i := Find(content, '\n');
      var lines := RawLines(content);
      assert lines[0] == content[..i];
      assert forall j :: 0 <= j < |part| ==> part[j] == content[j];
      if |part| <= i {
        assert Find(part, '\n') == |part|;
      } else {
        assert Find(part, '\n') == i && part[..i] == content[..i];
        assert lines[1..] == RawLines(content[i + 1..]);
        RestParses(lines);
        PrefixParses(part[i + 1..], content[i + 1..]);
        FrontParses(part[..i], RawLines(part[i + 1..]));
      }
    }
  }

  lemma RestParses(lines: seq<string>)
    requires lines != [] && !AnyTooLong(lines)
    ensures !TooLong(lines[0]) && !AnyTooLong(lines[1..])
  {
    assert forall j :: 0 <= j < |lines| - 1 ==> lines[1..][j] == lines[j + 1];
  }

  lemma FrontParses(line: string, rest: seq<string>)
    requires !TooLong(line) && !AnyTooLong(rest)
    ensures !AnyTooLong([line] + rest)
  {}

  /** What reading goes on to return after some lines have been read into `m`. */
  function ParseRest(m: Map, lines: seq<string>): Result<Map, ParseError> {
    if AnyTooLong(lines) then Failure(LineTooLong) else Success(ReadLines(m, lines))
  }

  lemma ParseOneMore(m: Map, lines: seq<string>)
    requires lines != []
    ensures TooLong(lines[0]) ==> ParseRest(m, lines) == Failure(LineTooLong)
    ensures !TooLong(lines[0]) ==> ParseRest(m, lines) == ParseRest(ReadLine(m, lines[0]), lines[1..])
  {}

  /** What follows the newline at position `i`, if there is one. */
  function Behind(rest: string, i: nat): (r: string)
    requires i <= |rest| && rest != ""
    ensures |r| < |rest|
  {
    if i == |rest| then "" else rest[i + 1..]
  }

  lemma ParseNextLine(m: Map, rest: string, i: nat)
    requires rest != "" && i == Find(rest, '\n')
    ensures i >= MAX_TOKEN ==> ParseRest(m, RawLines(rest)) == Failure(LineTooLong)
    ensures i < MAX_TOKEN ==> ParseRest(m, RawLines(rest)) == ParseRest(ReadLine(m, rest[..i]), RawLines(Behind(rest, i)))
  {
    var lines := RawLines(rest);
    assert lines[0] == rest[..i];
    assert lines[1..] == RawLines(Behind(rest, i));
    ParseOneMore(m, lines);
  }

  /** parseParams, line by line; an overlong line voids what was read before it. */
  method ParseParams(content: string) returns (r: Result<Map, ParseError>)
    ensures r == Parse(content)
  {
    var params: Map := map[];
    var rest := content;
    while rest != ""
      invariant ParseRest(params, RawLines(rest)) == Parse(content)
      decreases |rest|
    {
      var i := Find(rest, '\n');
      var raw := rest[..i];
      ParseNextLine(params, rest, i);
      if |raw| >= MAX_TOKEN {
        return Failure(LineTooLong);
      }
      var line := DropCR(raw);
      var eq := Find(line, '=');
      if eq < |line| {
        params := params[line[..eq] := line[eq + 1..]];
      }
      rest := Behind(rest, i);
    }
    r := Success(params);
  }

  /******* Writing *******/

  /** The order in which a map happens to be walked. */
  ghost predicate IsOrder(order: seq<string>, m: Map) {
    && (forall k :: k in order <==> k in m)
    && (forall i, j :: 0 <= i < j < |order| ==> order[i] != order[j])
  }

  function Line(key: string, value: string): string {
    key + "=" + value
  }

  function Print(m: Map, order: seq<string>): string
    requires forall k :: k in order ==> k in m
  {
    if order == [] then "" else Line(order[0], m[order[0]]) + "\n" + Print(m, order[1..])
  }

  predicate KeyFits(key: string) {
    '=' !in key && '\n' !in key
  }

  predicate ValueFits(value: string) {
    '\n' !in value && (value != "" ==> value[|value| - 1] != '\r')
  }

  /** The entries that a line of the file can carry. No operation of the model uses this test. */
  predicate Fits(key: string, value: string) {
    KeyFits(key) && ValueFits(value) && |key| + 1 + |value| < 65536
  }

  predicate AllFit(m: Map) {
    forall k :: k in m ==> Fits(k, m[k])
  }

  /******* Round trip *******/

  /** What is read never has '=' or a newline in a key, nor a newline in a value. */
  ghost predicate ReadClean(m: Map) {
    forall k :: k in m ==> KeyFits(k) && '\n' !in m[k]
  }

  lemma ReadLineClean(m: Map, raw: string)
    requires ReadClean(m) && '\n' !in raw
    ensures ReadClean(ReadLine(m, raw))
  {}

  lemma {:induction false} ReadLinesClean(m: Map, lines: seq<string>)
    requires ReadClean(m) && forall i :: 0 <= i < |lines| ==> '\n' !in lines[i]
    ensures ReadClean(ReadLines(m, lines))
    decreases |lines|
  {
    if lines != [] {
      ReadLineClean(m, lines[0]);
      ReadLinesClean(ReadLine(m, lines[0]), lines[1..]);
    }
  }

  lemma ParsedKeysFit(content: string)
    ensures Parse(content).Success? ==> ReadClean(Parse(content).value)
  {
    ReadLinesClean(map[], RawLines(content));
  }

  function Lines(m: Map, order: seq<string>): (lines: seq<string>)
    requires forall k :: k in order ==> k in m
    ensures |lines| == |order|
  {
    seq(|order|, i requires 0 <= i < |order| => Line(order[i], m[order[i]]))
  }

  lemma LinesFront(m: Map, order: seq<string>)
    requires order != [] && forall k :: k in order ==> k in m
    ensures Lines(m, order) == [Line(order[0], m[order[0]])] + Lines(m, order[1..])
  {}

  lemma {:induction false} PrintedLines(m: Map, order: seq<string>)
    requires forall k :: k in order ==> k in m && KeyFits(k) && '\n' !in m[k]
    ensures RawLines(Print(m, order)) == Lines(m, order)
    decreases |order|
  {
    if order != [] {
      RawLinesCons(Line(order[0], m[order[0]]), Print(m, order[1..]));
      PrintedLines(m, order[1..]);
      LinesFront(m, order);
    }
  }

  lemma ReadPrintedLine(m: Map, key: string, value: string)
    requires KeyFits(key)
    ensures ReadLine(m, Line(key, value)) == m[key := DropCR(value)]
  {
    var raw := Line(key, value);
    var line := DropCR(raw);
    assert line == Line(key, DropCR(value));
    assert line[..|key|] == key && line[|key|] == '=';
    assert forall j :: 0 <= j < |key| ==> line[j] == key[j];
    assert Find(line, '=') == |key|;
    assert line[|key| + 1..] == DropCR(value);
  }

  lemma ReadPrintedFront(into: Map, m: Map, order: seq<string>)
    requires order != [] && forall k :: k in order ==> k in m && KeyFits(k)
    ensures var key := order[0];
      ReadLines(into, Lines(m, order)) == ReadLines(into[key := DropCR(m[key])], Lines(m, order[1..]))
  {
    ReadPrintedLine(into, order[0], m[order[0]]);
    LinesFront(m, order);
  }

  lemma {:induction false} ReadPrintedLines(into: Map, m: Map, order: seq<string>)
    requires forall k :: k in order ==> k in m && KeyFits(k)
    ensures var r := ReadLines(into, Lines(m, order));
      && (forall k :: k in r <==> k in into || k in order)
      && (forall k :: k in r ==> r[k] == if k in order then DropCR(m[k]) else into[k])
    decreases |order|
  {
    if order != [] {
      var key := order[0];
      ReadPrintedFront(into, m, order);
      ReadPrintedLines(into[key := DropCR(m[key])], m, order[1..]);
      assert order == [key] + order[1..];
    }
  }

  lemma LongEntries(m: Map, order: seq<string>)
    requires IsOrder(order, m)
    ensures AnyTooLong(Lines(m, order)) <==> exists k :: k in m && TooLong(Line(k, m[k]))
  {
    var lines := Lines(m, order);
    if k :| k in m && TooLong(Line(k, m[k])) {
      var i :| 0 <= i < |order| && order[i] == k;
      assert TooLong(lines[i]);
    }
    if i :| 0 <= i < |lines| && TooLong(lines[i]) {
      assert order[i] in order && TooLong(Line(order[i], m[order[i]]));
    }
  }

  /** When every line can be told apart, all that a round trip loses are carriage returns at the end
      of values, unless a line is too long. */
  lemma RoundTripClean(m: Map, order: seq<string>)
    requires IsOrder(order, m) && ReadClean(m)
    ensures Parse(Print(m, order)) ==
      if exists k :: k in m && TooLong(Line(k, m[k])) then Failure(LineTooLong)
      else Success(map k | k in m :: DropCR(m[k]))
  {
    PrintedLines(m, order);
    ReadPrintedLines(map[], m, order);
    LongEntries(m, order);
    assert ReadLines(map[], Lines(m, order)) == map k | k in m :: DropCR(m[k]);
  }

  /** Printing a map in any order and reading it back gives the map, exactly if every entry fits on a
      line: no '=' or newline in the key, no newline in the value and no carriage return at its end,
      and room in the scanner's buffer. */
  lemma RoundTrip(m: Map, order: seq<string>)
    requires IsOrder(order, m)
    ensures Parse(Print(m, order)) == Success(m) <==> AllFit(m)
  {
    if !ReadClean(m) {
      ParsedKeysFit(Print(m, order));
    } else {
      RoundTripClean(m, order);
      NothingDropped(m);
    }
  }

  lemma NothingDropped(m: Map)
    requires ReadClean(m)
    ensures (forall k :: k in m ==> !TooLong(Line(k, m[k]))) && (map k | k in m :: DropCR(m[k])) == m <==> AllFit(m)
  {}
}
