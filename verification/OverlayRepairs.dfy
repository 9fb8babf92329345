/** Which files and which earlier namespaces make no difference once a namespace is set. */
module OverlayRepairs {
  import opened Overlay
  import opened OverlayLaws

  /******* Two files *******/

  /** What a file without a dangling key line looks like once a namespace is set, with the hits left
      blank. */
  function Outline(data: string): seq<Token> {
    if HasMatch(data, true) then WithHits(Scan(data, true), "")
    else Gaps(data) + [Gap('\n'), Hit(""), Gap('\n')]
  }

  /** Two files that only differ in what their matches are; a dangling key line makes every difference
      count. */
  predicate SameOutline(a: string, b: string) {
    if Dangling(a) || Dangling(b) then a == b else Outline(a) == Outline(b)
  }

  lemma HitsTwice(tokens: seq<Token>, first: string, text: string)
    ensures WithHits(WithHits(tokens, first), text) == WithHits(tokens, text)
  {}

  lemma OutlineOfUnmatched(data: string, text: string)
    requires !HasMatch(data, true)
    ensures WithHits(Outline(data), text) == Gaps(data) + [Gap('\n'), Hit(text), Gap('\n')]
  {}

  lemma ScanOfSet(data: string, ns: string)
    requires Plain(ns) && !Dangling(data)
    ensures Scan(SetNamespace(data, ns), true) == WithHits(Outline(data), Entry(ns))
  {
    if HasMatch(data, true) {
      Frame(data, ns);
      HitsTwice(Scan(data, true), "", Entry(ns));
    } else {
      EntryIsFull(ns);
      Appended(data, ns);
      OutlineOfUnmatched(data, Entry(ns));
    }
  }

  lemma OutlineIsBlank(data: string, text: string)
    ensures WithHits(WithHits(Outline(data), text), "") == Outline(data)
  {
    HitsTwice(Outline(data), text, "");
    if HasMatch(data, true) {
      HitsTwice(Scan(data, true), "", "");
    } else {
      OutlineOfUnmatched(data, "");
    }
  }

  lemma OutlineAfterSetting(a: string, b: string, ns: string)
    requires Plain(ns) && !Dangling(a) && !Dangling(b)
    ensures SetNamespace(a, ns) == SetNamespace(b, ns) <==> Outline(a) == Outline(b)
  {
    ScanOfSet(a, ns);
    ScanOfSet(b, ns);
    OutlineIsBlank(a, Entry(ns));
    OutlineIsBlank(b, Entry(ns));
    ScanIsLossless(SetNamespace(a, ns), true);
    ScanIsLossless(SetNamespace(b, ns), true);
  }

  ghost predicate HitOverLines(tokens: seq<Token>) {
    exists i :: 0 <= i < |tokens| && tokens[i].Hit? && '\n' in tokens[i].text
  }

  lemma OverLinesAfterGap(c: char, tokens: seq<Token>)
    requires HitOverLines(tokens)
    ensures HitOverLines([Gap(c)] + tokens)
  {
    var i :| 0 <= i < |tokens| && tokens[i].Hit? && '\n' in tokens[i].text;
    assert ([Gap(c)] + tokens)[i + 1] == tokens[i];
  }

  /** A swallowed key makes a match that goes over a line's end. */
  lemma {:induction false} SwallowedOverLines(s: string, bol: bool, ns: string)
    requires !HasMatch(s, bol) && HasKeyLine(s, bol)
    ensures HitOverLines(Scan(s + "\n" + Entry(ns) + "\n", bol))
    decreases |s|
  {
    if bol && KEY <= s {
      SwallowedFront(s, ns);
      var tokens := Scan(s + "\n" + Entry(ns) + "\n", bol);
      assert tokens[0] == Hit(s + "\n" + KEY) && (s + "\n" + KEY)[|s|] == '\n';
    } else {
      StepToKey(s, bol, ns, "");
      SwallowedOverLines(s[1..], s[0] == '\n', ns);
      OverLinesAfterGap(s[0], Scan(s[1..] + "\n" + Entry(ns) + "\n", s[0] == '\n'));
    }
  }

  lemma DanglingStandsOut(a: string, b: string, ns: string)
    requires Plain(ns) && Dangling(a) && !Dangling(b)
    ensures SetNamespace(a, ns) != SetNamespace(b, ns)
  {
    SwallowedOverLines(a, true, ns);
    ScanOfSet(b, ns);
    NoNewlineInEntry(ns);
  }

  lemma NoNewlineInEntry(ns: string)
    requires Plain(ns)
    ensures '\n' !in Entry(ns)
  {
    assert '\n' !in ns;
  }

  lemma AppendedAlike(a: string, b: string, line: string)
    ensures a + "\n" + line + "\n" == b + "\n" + line + "\n" <==> a == b
  {
    if a + "\n" + line + "\n" == b + "\n" + line + "\n" {
      assert |a| == |b|;
      assert (a + "\n" + line + "\n")[..|a|] == a && (b + "\n" + line + "\n")[..|b|] == b;
    }
  }

  /** Setting a namespace makes two files the same exactly if they have the same outline; so a file that
      was torn or truncated is repaired by the next success exactly if it has the outline of the one
      it was, whatever the namespace. */
  lemma SameAfterSetting(a: string, b: string, ns: string)
    requires Plain(ns)
    ensures SetNamespace(a, ns) == SetNamespace(b, ns) <==> SameOutline(a, b)
  {
    if Dangling(a) && Dangling(b) {
      AppendedAlike(a, b, Entry(ns));
    } else if Dangling(a) {
      DanglingStandsOut(a, b, ns);
    } else if Dangling(b) {
      DanglingStandsOut(b, a, ns);
    } else {
      OutlineAfterSetting(a, b, ns);
    }
  }

  /** Nothing but a newline, one match and a newline. */
  predicate OnlyEntry(data: string) {
    var tokens := Scan(data, true);
    |tokens| == 3 && tokens[0] == Gap('\n') && tokens[1].Hit? && tokens[2] == Gap('\n')
  }

  lemma BlankedIsEntry(tokens: seq<Token>)
    ensures WithHits(tokens, "") == [Gap('\n'), Hit(""), Gap('\n')] <==>
      |tokens| == 3 && tokens[0] == Gap('\n') && tokens[1].Hit? && tokens[2] == Gap('\n')
  {
    var blanked := WithHits(tokens, "");
    if blanked == [Gap('\n'), Hit(""), Gap('\n')] {
      assert |tokens| == |blanked| == 3;
      assert blanked[0] == Gap('\n') && blanked[1] == Hit("") && blanked[2] == Gap('\n');
    }
  }

  /** The files that an empty one can stand for. */
  lemma EmptyOutline(data: string)
    requires !Dangling(data)
    ensures SameOutline("", data) <==> data == "" || OnlyEntry(data)
  {
    assert Outline("") == [Gap('\n'), Hit(""), Gap('\n')];
    MatchIsHit(data, true);
    assert OnlyEntry(data) ==> Scan(data, true)[1].Hit?;
    if HasMatch(data, true) {
      BlankedIsEntry(Scan(data, true));
    } else {
      assert |Outline(data)| == |data| + 3;
    }
  }

  /******* Two namespaces *******/

  /** A match is a match by itself. */
  lemma MatchIsFull(s: string)
    requires MatchLen(s) > 0
    ensures Full(s[..MatchLen(s)])
  {
    var n, blanks := MatchLen(s), Blanks(s[|KEY|..]);
    var text := s[..n];
    var word := s[|KEY| + blanks..][..n - |KEY| - blanks];
    assert forall i :: 0 <= i < n - |KEY| ==> text[|KEY|..][i] == s[|KEY|..][i];
    BlanksAre(text[|KEY|..], blanks);
    assert text[|KEY| + blanks..] == word;
    WordIs(word, |word|);
    MatchIs(text, blanks, |word|);
  }

  lemma {:induction false} HitsAreFull(s: string, bol: bool)
    ensures forall i :: 0 <= i < |Scan(s, bol)| && Scan(s, bol)[i].Hit? ==> Full(Scan(s, bol)[i].text)
    decreases |s|
  {
    if s != "" {
      if bol && MatchLen(s) > 0 {
        MatchIsFull(s);
        HitsAreFull(s[MatchLen(s)..], false);
      } else {
        HitsAreFull(s[1..], s[0] == '\n');
      }
    }
  }

  lemma ScanOfFull(text: string)
    requires Full(text)
    ensures Scan(text, true) == [Hit(text)] && HasMatch(text, true)
  {
    assert text[..|text|] == text && text[|text|..] == "";
  }

  /** A line that becomes nothing but another one was a match as a whole. */
  lemma OverwrittenLineIsFull(line: string, ns: string)
    requires Plain(ns) && line != "" && SetNamespace(line, ns) == Entry(ns)
    ensures Full(line)
  {
    EntryIsFull(ns);
    ScanOfFull(Entry(ns));
    Frame(line, ns);
    var tokens := Scan(line, true);
    assert |line + "\n" + Entry(ns) + "\n"| > |Entry(ns)|;
    if HasMatch(line, true) {
      assert WithHits(tokens, Entry(ns)) == [Hit(Entry(ns))];
      assert tokens == [Hit(tokens[0].text)];
      assert Text(tokens) == tokens[0].text + Text([]);
      HitsAreFull(line, true);
    }
  }

  lemma ThreeTokens(tokens: seq<Token>, text: string)
    requires WithHits(tokens, text) == [Gap('\n'), Hit(text), Gap('\n')]
    ensures |tokens| == 3 && tokens[1].Hit? && Text(tokens) == "\n" + tokens[1].text + "\n"
  {
    assert WithHits(tokens, text)[0] == Gap('\n') && WithHits(tokens, text)[1] == Hit(text) && WithHits(tokens, text)[2] == Gap('\n');
    assert tokens == [Gap('\n'), tokens[1], Gap('\n')];
    assert tokens[1..] == [tokens[1], Gap('\n')] && tokens[1..][1..] == [Gap('\n')];
    assert Text([Gap('\n')]) == "\n" + Text([]);
  }

  lemma AppendedLineIsFull(line: string, ns: string)
    requires Plain(ns) && SetNamespace("" + "\n" + line + "\n", ns) == "" + "\n" + Entry(ns) + "\n"
    ensures Full(line)
  {
    var z := "" + "\n" + line + "\n";
    EntryIsFull(ns);
    Appended("", ns);
    Frame("", ns);
    Frame(z, ns);
    assert |z + "\n" + Entry(ns) + "\n"| > |"" + "\n" + Entry(ns) + "\n"|;
    assert Gaps("") + [Gap('\n'), Hit(Entry(ns)), Gap('\n')] == [Gap('\n'), Hit(Entry(ns)), Gap('\n')];
    if HasMatch(z, true) {
      var tokens := Scan(z, true);
      ThreeTokens(tokens, Entry(ns));
      HitsAreFull(z, true);
      assert z == "\n" + line + "\n";
      SameMiddle(line, tokens[1].text);
    }
  }

  lemma SameMiddle(a: string, b: string)
    requires "\n" + a + "\n" == "\n" + b + "\n"
    ensures a == b
  {
    assert ("\n" + a + "\n")[1..|a| + 1] == a;
    assert ("\n" + b + "\n")[1..|b| + 1] == b;
  }

  /** A line that shows another line in its value is no match as a whole: the value has a blank in it. */
  lemma ShownLineIsNotFull(a: string, b: string)
    ensures !Full(Entry(a + Entry("a") + b))
  {
    var line := Entry(a + Entry("a") + b);
    var at := |KEY| + 1 + |a| + |KEY|;
    assert line[at] == ' ' && line[at - 1] == ':';
    var blanks := Blanks(line[|KEY|..]);
    assert !IsBlank(line[|KEY|..][at - 1 - |KEY|]);
    assert blanks <= at - 1 - |KEY|;
    assert IsBlank(line[|KEY| + blanks..][at - |KEY| - blanks]);
  }

  /** For a first namespace that is not clean, one of two files shows what is left of it. */
  lemma NotCleanLeavesTrace(n1: string)
    requires !Clean(n1)
    ensures SetNamespace(SetNamespace("", n1), "b") != SetNamespace("", "b")
         || SetNamespace(SetNamespace(Entry("a"), n1), "b") != SetNamespace(Entry("a"), "b")
  {
    if SetNamespace(SetNamespace("", n1), "b") == SetNamespace("", "b") {
      Frame("", n1);
      Frame("", "b");
      AppendedLineIsFull(Entry(n1), "b");
      ExpandedLeavesTrace(n1);
    }
  }

  lemma ExpandedLeavesTrace(n1: string)
    requires !Clean(n1) && Full(Entry(n1))
    ensures SetNamespace(SetNamespace(Entry("a"), n1), "b") != SetNamespace(Entry("a"), "b")
  {
    var data := Entry("a");
    SetOnEntry(n1);
    SetOnEntry("b");
    ExpandLiteral("b", data);
    if SetNamespace(SetNamespace(data, n1), "b") == SetNamespace(data, "b") {
      OverwrittenLineIsFull(Entry(Expand(n1, data)), "b");
      if Independent(n1) {
        IndependentExpands(n1, data);
      } else {
        var a, b := DependentShows(n1, data);
        ShownLineIsNotFull(a, b);
      }
      assert false;
    }
  }

  /** The second namespace leaves no trace of the first. */
  predicate Overwrites(data: string, n1: string, n2: string) {
    SetNamespace(SetNamespace(data, n1), n2) == SetNamespace(data, n2)
  }

  lemma NotCleanFails(n1: string) returns (data: string)
    requires !Clean(n1)
    ensures !Dangling(data) && !Overwrites(data, n1, "b")
  {
    NotCleanLeavesTrace(n1);
    ScanOneEntry();
    data := if Overwrites("", n1, "b") then Entry("a") else "";
  }

  /** Being overwritten is a law for exactly the clean first namespaces. */
  lemma FirstIsLaw(n1: string)
    ensures (forall data, n2 :: n2 != "" && Literal(n2) && !Dangling(data) ==> Overwrites(data, n1, n2)) <==> Clean(n1)
  {
    if Clean(n1) {
      forall data, n2 | n2 != "" && Literal(n2) && !Dangling(data) ensures Overwrites(data, n1, n2) {
        SetTwice(data, n1, n2);
      }
    } else {
      var data := NotCleanFails(n1);
      assert Literal("b");
    }
  }
}
