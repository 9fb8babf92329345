/** Searching and splitting strings. */
module Text {

  /** The position of the first `c`, or the length of the string. */
  function Find(s: string, c: char): (i: nat)
    ensures i <= |s|
    ensures i < |s| ==> s[i] == c
    ensures forall j :: 0 <= j < i ==> s[j] != c
  {
    if s == "" || s[0] == c then 0
    else
      var i := Find(s[1..], c);
      assert forall j :: 1 <= j < i + 1 ==> s[j] == s[1..][j - 1];
      i + 1
  }

  /** The position of the last `c`, or -1. */
  function FindLast(s: string, c: char): (i: int)
    ensures -1 <= i < |s|
    ensures i >= 0 ==> s[i] == c
    ensures forall j :: i < j < |s| ==> s[j] != c
  {
    if s == "" then -1
    else if s[|s| - 1] == c then |s| - 1
    else
      var front := s[..|s| - 1];
      assert forall j :: 0 <= j < |front| ==> s[j] == front[j];
      FindLast(front, c)
  }

  /** Lines as a scanner delivers them before it drops a carriage return: no newline in any of them,
      and no empty line after the last newline. */
  function RawLines(s: string): (lines: seq<string>)
    ensures forall i :: 0 <= i < |lines| ==> '\n' !in lines[i]
    decreases |s|
  {
    if s == "" then []
    else
      var i := Find(s, '\n');
      if i == |s| then [s] else [s[..i]] + RawLines(s[i + 1..])
  }

  lemma RawLinesCons(line: string, rest: string)
    requires '\n' !in line
    ensures RawLines(line + "\n" + rest) == [line] + RawLines(rest)
  {
    var s := line + "\n" + rest;
    assert s[..|line|] == line && s[|line|] == '\n' && s[|line| + 1..] == rest;
    assert forall j :: 0 <= j < |line| ==> s[j] == line[j];
    assert Find(s, '\n') == |line|;
  }
}
