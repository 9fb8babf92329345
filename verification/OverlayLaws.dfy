/** The laws of the namespace rewrite: what is read back is what was set, setting twice is setting
    once, and the rest of the file stays; with the exact files and namespaces for which that fails. */
module OverlayLaws {
  import opened Overlay

  /** Some line starts with the key, whether or not a value follows. */
  predicate HasKeyLine(s: string, bol: bool) {
    s != "" && ((bol && KEY <= s) || HasKeyLine(s[1..], s[0] == '\n'))
  }

  /** A file without a match that has a bare key line: nothing but blanks follow the key. */
  predicate Dangling(data: string) {
    !HasMatch(data, true) && HasKeyLine(data, true)
  }

  function Gaps(s: string): (r: seq<Token>)
    ensures |r| == |s|
  {
    seq(|s|, i requires 0 <= i < |s| => Gap(s[i]))
  }

  /** What every reader of the file sees after the namespace was set. */
  ghost predicate ReadsOnly(tokens: seq<Token>, ns: string) {
    && (exists i :: 0 <= i < |tokens| && tokens[i].Hit?)
    && (forall i :: 0 <= i < |tokens| && tokens[i].Hit? ==> |tokens[i].text| >= |KEY| && ValueOf(tokens[i].text) == ns)
  }

  /******* The appended line *******/

  lemma StillNoKey(s: string, tail: string)
    requires !(KEY <= s)
    ensures !(KEY <= s + "\n" + tail)
  {
    var z := s + "\n" + tail;
    assert forall i :: 0 <= i < |KEY| ==> KEY[i] != '\n';
    if |s| >= |KEY| {
      assert z[..|KEY|] == s[..|KEY|];
    } else {
      assert z[|s|] == '\n';
    }
  }

  lemma StepOver(c: char, rest: string, bol: bool, template: string)
    requires !bol || MatchLen([c] + rest) == 0
    ensures Scan([c] + rest, bol) == [Gap(c)] + Scan(rest, c == '\n')
    ensures ReplaceAll([c] + rest, bol, template) == [c] + ReplaceAll(rest, c == '\n', template)
  {}

  lemma {:induction false} ScanAppended(s: string, bol: bool, tail: string)
    requires !HasKeyLine(s, bol)
    ensures Scan(s + "\n" + tail, bol) == Gaps(s) + [Gap('\n')] + Scan(tail, true)
    decreases |s|
  {
    if s == "" {
      StillNoKey("", tail);
      assert "" + "\n" + tail == ['\n'] + tail;
      StepOver('\n', tail, bol, "");
      assert Gaps("") + [Gap('\n')] == [Gap('\n')];
    } else {
      var rest := s[1..] + "\n" + tail;
      assert s + "\n" + tail == [s[0]] + rest;
      if bol { StillNoKey(s, tail); }
      StepOver(s[0], rest, bol, "");
      ScanAppended(s[1..], s[0] == '\n', tail);
      GapsFront(s, [Gap('\n')], Scan(tail, true));
    }
  }

  lemma GapsFront(s: string, more: seq<Token>, last: seq<Token>)
    requires s != ""
    ensures Gaps(s) + more + last == [Gap(s[0])] + (Gaps(s[1..]) + more + last)
  {}

  lemma ScanFullLine(text: string)
    requires Full(text)
    ensures Scan(text + "\n", true) == [Hit(text), Gap('\n')]
  {
    FullMatches(text, "\n");
    assert (text + "\n")[..|text|] == text && (text + "\n")[|text|..] == "\n";
    assert Scan("\n", false) == [Gap('\n')] + Scan("", true);
  }

  lemma Appended(data: string, ns: string)
    requires ns != "" && Full(Entry(ns)) && !HasMatch(data, true) && !HasKeyLine(data, true)
    ensures Scan(SetNamespace(data, ns), true) == Gaps(data) + [Gap('\n'), Hit(Entry(ns)), Gap('\n')]
  {
    Regroup(data + "\n", Entry(ns), "\n");
    ScanAppended(data, true, Entry(ns) + "\n");
    ScanFullLine(Entry(ns));
    Regroup(Gaps(data), [Gap('\n')], [Hit(Entry(ns)), Gap('\n')]);
    assert [Gap('\n')] + [Hit(Entry(ns)), Gap('\n')] == [Gap('\n'), Hit(Entry(ns)), Gap('\n')];
  }

  lemma Regroup<T>(a: seq<T>, b: seq<T>, c: seq<T>)
    ensures a + b + c == a + (b + c)
  {}

  /******* Frame *******/

  /** Setting the namespace replaces the matches, each by the expanded line, and nothing else: the gaps
      between them are kept character by character. Without a match it only appends. A plain namespace
      also leaves the matches where they were. */
  lemma Frame(data: string, ns: string)
    ensures Text(Scan(data, true)) == data
    ensures ns == "" ==> SetNamespace(data, ns) == data
    ensures ns != "" && !HasMatch(data, true) ==> SetNamespace(data, ns) == data + "\n" + Entry(ns) + "\n"
    ensures ns != "" && HasMatch(data, true) ==>
      SetNamespace(data, ns) == Text(Rewritten(Scan(data, true), Entry(ns)))
    ensures ns != "" && HasMatch(data, true) && Literal(ns) ==>
      SetNamespace(data, ns) == Text(WithHits(Scan(data, true), Entry(ns)))
    ensures Plain(ns) && HasMatch(data, true) ==>
      Scan(SetNamespace(data, ns), true) == WithHits(Scan(data, true), Entry(ns))
  {
    ScanIsLossless(data, true);
    ReplaceIsRewritten(data, true, Entry(ns));
    if Literal(ns) { RewrittenLiteral(Scan(data, true), ns); }
    if Plain(ns) {
      PlainIsSteady(ns);
      ScanOfReplaced(data, true, Entry(ns), Entry(ns));
    }
  }

  /******* The bare key line swallows what is appended *******/

  lemma WordOfEntry(ns: string)
    ensures Word(KEY + " " + ns + "\n") == |KEY|
  {
    var word := KEY + " " + ns + "\n";
    assert forall i :: 0 <= i < |KEY| ==> word[i] == KEY[i] && !IsBlank(KEY[i]);
    assert word[|KEY|] == ' ';
    WordIs(word, |KEY|);
  }

  lemma SwallowedShape(key: string, after: string, ns: string)
    ensures var s := key + after;
      var z, n := s + "\n" + (key + " " + ns) + "\n", |s| + 1 + |key|;
      && z[|key|..] == (after + "\n") + (key + " " + ns + "\n")
      && z[|s| + 1..] == key + " " + ns + "\n"
      && z[..n] == s + "\n" + key && z[n..] == " " + ns + "\n"
      && key <= z
  {}

  lemma SwallowedFront(s: string, ns: string)
    requires KEY <= s && MatchLen(s) == 0
    ensures var z, n := s + "\n" + Entry(ns) + "\n", |s| + 1 + |KEY|;
      && MatchLen(z) == n && z[..n] == s + "\n" + KEY && z[n..] == " " + ns + "\n"
  {
    DanglingTail(s);
    var after := s[|KEY|..];
    assert s == KEY + after;
    SwallowedShape(KEY, after, ns);
    var blanks, word := after + "\n", KEY + " " + ns + "\n";
    assert word[0] == KEY[0];
    BlanksAre(blanks + word, |blanks|);
    WordOfEntry(ns);
    MatchIs(s + "\n" + Entry(ns) + "\n", |blanks|, |KEY|);
  }

  lemma SwallowedValue(s: string)
    requires KEY <= s && MatchLen(s) == 0
    ensures ValueOf(s + "\n" + KEY) == KEY
  {
    DanglingTail(s);
    var text, blanks := s + "\n" + KEY, s[|KEY|..] + "\n";
    assert text[|KEY|..] == blanks + KEY;
    assert KEY[0] == 'n';
    BlanksAre(blanks + KEY, |blanks|);
    assert text[|KEY| + |blanks|..] == KEY;
  }

  /** The front character of a file that does not start with the key is passed over. */
  lemma StepToKey(s: string, bol: bool, ns: string, template: string)
    requires s != "" && !(bol && KEY <= s)
    ensures var z, rest := s + "\n" + Entry(ns) + "\n", s[1..] + "\n" + Entry(ns) + "\n";
      && z == [s[0]] + rest
      && Scan(z, bol) == [Gap(s[0])] + Scan(rest, s[0] == '\n')
      && ReplaceAll(z, bol, template) == [s[0]] + ReplaceAll(rest, s[0] == '\n', template)
  {
    var rest := s[1..] + "\n" + Entry(ns) + "\n";
    assert s + "\n" + Entry(ns) + "\n" == [s[0]] + rest;
    if bol {
      StillNoKey(s, Entry(ns) + "\n");
      assert s + "\n" + (Entry(ns) + "\n") == [s[0]] + rest;
    }
    StepOver(s[0], rest, bol, template);
  }

  lemma {:induction false} NoMatchNoHit(s: string, bol: bool)
    requires !HasMatch(s, bol)
    ensures Scan(s, bol) == Gaps(s)
    decreases |s|
  {
    if s != "" {
      NoMatchNoHit(s[1..], s[0] == '\n');
    }
  }

  /** After the swallowed key there is nothing that matches. */
  lemma LeftoverIsIdle(ns: string, template: string)
    requires Blankless(ns)
    ensures Scan(" " + ns + "\n", false) == Gaps(" " + ns + "\n")
    ensures ReplaceAll(" " + ns + "\n", false, template) == " " + ns + "\n"
  {
    var rest := " " + ns + "\n";
    assert forall i :: 0 < i <= |ns| ==> rest[i] == ns[i - 1];
    NoLetterNoMatch(rest, false);
    NoMatchNoHit(rest, false);
    NoMatchNoChange(rest, false, template);
  }

  lemma ReadsAfterGap(c: char, tokens: seq<Token>, ns: string)
    requires ReadsOnly(tokens, ns)
    ensures ReadsOnly([Gap(c)] + tokens, ns)
  {
    HitAfterGap(c, tokens);
  }

  lemma SwallowedFrontReads(s: string, ns: string)
    requires KEY <= s && MatchLen(s) == 0 && Blankless(ns)
    ensures ReadsOnly(Scan(s + "\n" + Entry(ns) + "\n", true), KEY)
  {
    SwallowedFront(s, ns);
    SwallowedValue(s);
    LeftoverIsIdle(ns, "");
    assert Scan(s + "\n" + Entry(ns) + "\n", true)[0].Hit?;
  }

  /** In a file with a dangling key line the appended key is read as the value. */
  lemma {:induction false} SwallowedReads(s: string, bol: bool, ns: string)
    requires !HasMatch(s, bol) && HasKeyLine(s, bol) && Blankless(ns)
    ensures ReadsOnly(Scan(s + "\n" + Entry(ns) + "\n", bol), KEY)
    decreases |s|
  {
    if bol && KEY <= s {
      SwallowedFrontReads(s, ns);
    } else {
      StepToKey(s, bol, ns, "");
      SwallowedReads(s[1..], s[0] == '\n', ns);
      ReadsAfterGap(s[0], Scan(s[1..] + "\n" + Entry(ns) + "\n", s[0] == '\n'), KEY);
    }
  }

  function Newlines(s: string): nat {
    multiset(s)['\n']
  }

  lemma NewlinesAdd(s: string, line: string, word: string)
    requires '\n' !in word
    ensures Newlines(line + (" " + word + "\n")) == Newlines(line) + 1
    ensures Newlines(s + "\n" + line + "\n") == Newlines(s) + Newlines(line) + 2
  {}

  lemma SwallowedFrontReplaced(s: string, n1: string, n2: string)
    requires KEY <= s && MatchLen(s) == 0 && Blankless(n1) && Literal(n2)
    ensures ReplaceAll(s + "\n" + Entry(n1) + "\n", true, Entry(n2)) == Entry(n2) + (" " + n1 + "\n")
  {
    var z := s + "\n" + Entry(n1) + "\n";
    SwallowedFront(s, n1);
    EntryLiteral(n2, z[..MatchLen(z)]);
    LeftoverIsIdle(n1, Entry(n2));
  }

  /** Replacing the swallowed key loses the newlines between the two keys. */
  lemma SwallowedFrontLoses(s: string, n1: string, n2: string)
    requires KEY <= s && MatchLen(s) == 0 && Blankless(n1) && Literal(n2)
    ensures Newlines(ReplaceAll(s + "\n" + Entry(n1) + "\n", true, Entry(n2))) < Newlines(s + "\n" + Entry(n2) + "\n")
  {
    SwallowedFrontReplaced(s, n1, n2);
    NewlinesAdd(s, Entry(n2), n1);
  }

  lemma {:induction false} SwallowedLoses(s: string, bol: bool, n1: string, n2: string)
    requires !HasMatch(s, bol) && HasKeyLine(s, bol) && Blankless(n1) && Literal(n2)
    ensures Newlines(ReplaceAll(s + "\n" + Entry(n1) + "\n", bol, Entry(n2))) < Newlines(s + "\n" + Entry(n2) + "\n")
    decreases |s|
  {
    if bol && KEY <= s {
      SwallowedFrontLoses(s, n1, n2);
    } else {
      StepToKey(s, bol, n1, Entry(n2));
      StepToKey(s, bol, n2, "");
      SwallowedLoses(s[1..], s[0] == '\n', n1, n2);
    }
  }

  /******* Laws *******/

  lemma HitsRead(tokens: seq<Token>, ns: string)
    requires Plain(ns)
    requires exists i :: 0 <= i < |tokens| && tokens[i].Hit?
    ensures ReadsOnly(WithHits(tokens, Entry(ns)), ns)
  {
    EntryIsFull(ns);
    var i :| 0 <= i < |tokens| && tokens[i].Hit?;
    assert WithHits(tokens, Entry(ns))[i].Hit?;
  }

  /** Every match of the new file reads the namespace that was set, and there is one; exactly if the
      old file has no dangling key line, or the namespace is the very key that such a line reads. */
  lemma SetThenGet(data: string, ns: string)
    requires Plain(ns)
    ensures ReadsOnly(Scan(SetNamespace(data, ns), true), ns) <==> !Dangling(data) || ns == KEY
  {
    if HasMatch(data, true) {
      Frame(data, ns);
      MatchIsHit(data, true);
      HitsRead(Scan(data, true), ns);
    } else if HasKeyLine(data, true) {
      SwallowedReads(data, true, ns);
    } else {
      EntryIsFull(ns);
      Appended(data, ns);
      var tokens := Gaps(data) + [Gap('\n'), Hit(Entry(ns)), Gap('\n')];
      assert tokens[|data| + 1].Hit?;
      assert WithHits(tokens, Entry(ns)) == tokens;
      HitsRead(tokens, ns);
    }
  }

  lemma DollarsAdd(s: string, n: nat)
    requires n <= |s|
    ensures Dollars(s) == Dollars(s[..n]) + Dollars(s[n..])
  {
    assert s == s[..n] + s[n..];
  }

  predicate ReadsWord(text: string) {
    |text| >= |KEY| && ValueOf(text) != "" && Blankless(ValueOf(text))
  }

  lemma MatchReadsWord(s: string)
    requires MatchLen(s) > 0
    ensures ReadsWord(s[..MatchLen(s)])
  {
    var n, blanks := MatchLen(s), Blanks(s[|KEY|..]);
    var text := s[..n];
    assert forall i :: 0 <= i < n - |KEY| ==> text[|KEY|..][i] == s[|KEY|..][i];
    BlanksAre(text[|KEY|..], blanks);
    var word := s[|KEY| + blanks..];
    assert ValueOf(text) == word[..Word(word)];
  }

  lemma {:induction false} HitsReadWords(s: string, bol: bool)
    ensures forall i :: 0 <= i < |Scan(s, bol)| && Scan(s, bol)[i].Hit? ==> ReadsWord(Scan(s, bol)[i].text)
    decreases |s|
  {
    if s != "" {
      if bol && MatchLen(s) > 0 {
        MatchReadsWord(s);
        HitsReadWords(s[MatchLen(s)..], false);
      } else {
        HitsReadWords(s[1..], s[0] == '\n');
      }
    }
  }

  lemma {:induction false} DollarsOfHit(tokens: seq<Token>, i: nat)
    requires i < |tokens| && tokens[i].Hit? && |tokens[i].text| >= |KEY|
    ensures Dollars(ValueOf(tokens[i].text)) <= Dollars(Text(tokens))
  {
    if i == 0 {
      var text := tokens[0].text;
      DollarsAdd(text, |KEY| + Blanks(text[|KEY|..]));
    } else {
      DollarsOfHit(tokens[1..], i - 1);
    }
  }

  lemma ScanOneEntry()
    ensures Scan(Entry("a"), true) == [Hit(Entry("a"))] && !Dangling(Entry("a"))
  {
    EntryIsFull("a");
    var all := Entry("a");
    assert all + "" == all && all[..|all|] == all && all[|all|..] == "";
  }

  lemma SetOnEntry(ns: string)
    requires ns != ""
    ensures SetNamespace(Entry("a"), ns) == KEY + " " + Expand(ns, Entry("a"))
  {
    var data := Entry("a");
    var text := Expand(Entry(ns), data);
    ScanOneEntry();
    MatchIsHit(data, true);
    assert Scan(data, true)[0].Hit?;
    Frame(data, ns);
    assert Rewritten(Scan(data, true), Entry(ns)) == [Hit(text)];
    assert Text([Hit(text)]) == text + Text([]);
    EntryLiteral(ns, data);
  }

  lemma DollarsAfter(front: string, text: string)
    requires '$' !in front
    ensures Dollars(front + text) == Dollars(text)
  {}

  lemma KeyHasNoDollar()
    ensures '$' !in KEY + " "
  {}

  lemma DollarsOfEntry(text: string)
    ensures Dollars(KEY + " " + text) == Dollars(text)
  {
    KeyHasNoDollar();
    DollarsAfter(KEY + " ", text);
  }

  /** What is read is one word of the file. */
  lemma ReadIsWord(data: string, ns: string)
    requires ReadsOnly(Scan(data, true), ns)
    ensures ns != "" && Blankless(ns) && Dollars(ns) <= Dollars(data)
  {
    var i :| 0 <= i < |Scan(data, true)| && Scan(data, true)[i].Hit?;
    HitsReadWords(data, true);
    DollarsOfHit(Scan(data, true), i);
    ScanIsLossless(data, true);
  }

  /** A namespace that is not plain is not read back from the file `namespace: a`. */
  lemma NotPlainNotRead(ns: string)
    requires !Plain(ns)
    ensures !ReadsOnly(Scan(SetNamespace(Entry("a"), ns), true), ns)
  {
    var z := SetNamespace(Entry("a"), ns);
    if ReadsOnly(Scan(z, true), ns) {
      ReadIsWord(z, ns);
      SetOnEntry(ns);
      DollarsOfEntry("a");
      ExpandUsesDollars(ns, Entry("a"));
      DollarsOfEntry(Expand(ns, Entry("a")));
      assert false;
    }
  }

  /** Reading back is a law for exactly the plain namespaces. */
  lemma GetIsLaw(ns: string)
    ensures (forall data :: !Dangling(data) ==> ReadsOnly(Scan(SetNamespace(data, ns), true), ns)) <==> Plain(ns)
  {
    if Plain(ns) {
      forall data | !Dangling(data) ensures ReadsOnly(Scan(SetNamespace(data, ns), true), ns) {
        SetThenGet(data, ns);
      }
    } else {
      ScanOneEntry();
      NotPlainNotRead(ns);
    }
  }

  lemma {:induction false} TextConcat(a: seq<Token>, b: seq<Token>)
    ensures Text(a + b) == Text(a) + Text(b)
    decreases |a|
  {
    if a == [] {
      assert a + b == b;
    } else {
      assert (a + b)[1..] == a[1..] + b;
      TextConcat(a[1..], b);
    }
  }

  lemma {:induction false} TextOfGaps(s: string)
    ensures Text(Gaps(s)) == s
    decreases |s|
  {
    if s != "" {
      assert Gaps(s)[1..] == Gaps(s[1..]);
      TextOfGaps(s[1..]);
    }
  }

  lemma TextOfAppended(data: string, text: string)
    ensures Text(Gaps(data) + [Gap('\n'), Hit(text), Gap('\n')]) == data + "\n" + text + "\n"
  {
    var last := [Gap('\n'), Hit(text), Gap('\n')];
    TextConcat(Gaps(data), last);
    TextOfGaps(data);
    assert last[1..] == [Hit(text), Gap('\n')];
    assert last[1..][1..] == [Gap('\n')];
    assert Text([Gap('\n')]) == "\n" + Text([]);
    assert data + "\n" + text + "\n" == data + ("\n" + (text + "\n"));
  }

  lemma RewrittenAppended(data: string, text: string, template: string)
    ensures var tokens := Gaps(data) + [Gap('\n'), Hit(text), Gap('\n')];
      && tokens[|data| + 1].Hit?
      && Rewritten(tokens, template) == Gaps(data) + [Gap('\n'), Hit(Expand(template, text)), Gap('\n')]
  {}

  /** A first namespace that can be overwritten: with it the line is a match as a whole, both as it is
      and with its references expanded, and it does not refer to the match. */
  predicate Clean(ns: string) {
    ns == "" || (Full(Entry(ns)) && Independent(ns) && Full(Entry(Expand(ns, ""))))
  }

  lemma CleanIsSteady(ns: string)
    requires Clean(ns) && ns != ""
    ensures Steady(Entry(ns), Entry(Expand(ns, "")))
  {
    forall whole ensures Expand(Entry(ns), whole) == Entry(Expand(ns, "")) {
      EntryLiteral(ns, whole);
      IndependentExpands(ns, whole);
    }
  }

  lemma {:induction false} LiteralIsIndependent(t: string)
    requires Literal(t)
    ensures Independent(t)
    decreases |t|
  {
    if t != "" { LiteralIsIndependent(t[1..]); }
  }

  lemma PlainIsClean(ns: string)
    requires Plain(ns)
    ensures Clean(ns)
  {
    EntryIsFull(ns);
    LiteralIsIndependent(ns);
    ExpandLiteral(ns, "");
  }

  lemma ResetAppended(data: string, n1: string, n2: string)
    requires n1 != "" && Full(Entry(n1)) && n2 != "" && !HasMatch(data, true) && !HasKeyLine(data, true)
    ensures SetNamespace(SetNamespace(data, n1), n2) == data + "\n" + Expand(Entry(n2), Entry(n1)) + "\n"
  {
    var once := SetNamespace(data, n1);
    Appended(data, n1);
    RewrittenAppended(data, Entry(n1), Entry(n2));
    assert Scan(once, true)[|data| + 1].Hit?;
    MatchIsHit(once, true);
    ReplaceIsRewritten(once, true, Entry(n2));
    TextOfAppended(data, Expand(Entry(n2), Entry(n1)));
  }

  /** A literal namespace takes the place of whatever the hits were before. */
  lemma HitsOverwritten(once: string, tokens: seq<Token>, text: string, ns: string)
    requires Scan(once, true) == WithHits(tokens, text) && ns != "" && Literal(ns)
    requires exists i :: 0 <= i < |tokens| && tokens[i].Hit?
    ensures SetNamespace(once, ns) == Text(WithHits(tokens, Entry(ns)))
  {
    var i :| 0 <= i < |tokens| && tokens[i].Hit?;
    assert WithHits(tokens, text)[i].Hit?;
    MatchIsHit(once, true);
    Frame(once, ns);
    assert WithHits(WithHits(tokens, text), Entry(ns)) == WithHits(tokens, Entry(ns));
  }

  lemma ResetMatched(data: string, n1: string, n2: string)
    requires Clean(n1) && n1 != "" && n2 != "" && Literal(n2) && HasMatch(data, true)
    ensures SetNamespace(SetNamespace(data, n1), n2) == SetNamespace(data, n2)
  {
    var text := Entry(Expand(n1, ""));
    CleanIsSteady(n1);
    ScanOfReplaced(data, true, Entry(n1), text);
    MatchIsHit(data, true);
    HitsOverwritten(SetNamespace(data, n1), Scan(data, true), text, n2);
    Frame(data, n2);
  }

  lemma SwallowedNotReset(data: string, n1: string, n2: string)
    requires n1 != "" && Blankless(n1) && n2 != "" && Literal(n2) && Dangling(data)
    ensures SetNamespace(SetNamespace(data, n1), n2) != SetNamespace(data, n2)
  {
    var once := SetNamespace(data, n1);
    SwallowedReads(data, true, n1);
    MatchIsHit(once, true);
    SwallowedLoses(data, true, n1, n2);
  }

  /** Setting a second namespace leaves no trace of the first, and setting the same one again changes
      nothing; exactly if the file has no dangling key line, or there was no first namespace. The
      second namespace may have blanks, the first one only in front, which the last clause leaves out. */
  lemma SetTwice(data: string, n1: string, n2: string)
    requires Clean(n1) && n2 != "" && Literal(n2)
    ensures !Dangling(data) || n1 == "" ==> SetNamespace(SetNamespace(data, n1), n2) == SetNamespace(data, n2)
    ensures Dangling(data) && n1 != "" && Blankless(n1) ==>
      SetNamespace(SetNamespace(data, n1), n2) != SetNamespace(data, n2)
  {
    if n1 == "" {
    } else if HasMatch(data, true) {
      ResetMatched(data, n1, n2);
    } else if !HasKeyLine(data, true) {
      ResetAppended(data, n1, n2);
      EntryLiteral(n2, Entry(n1));
    } else if Blankless(n1) {
      SwallowedNotReset(data, n1, n2);
    }
  }

  /** Overwriting is a law for exactly the namespaces without references to the match. */
  lemma SetTwiceIsLaw(n2: string)
    ensures (forall data, n1 :: Clean(n1) && !Dangling(data) ==>
               SetNamespace(SetNamespace(data, n1), n2) == SetNamespace(data, n2))
            <==> n2 != "" && Literal(n2)
  {
    if n2 != "" && Literal(n2) {
      forall data, n1 | Clean(n1) && !Dangling(data)
        ensures SetNamespace(SetNamespace(data, n1), n2) == SetNamespace(data, n2)
      {
        SetTwice(data, n1, n2);
      }
    } else {
      PlainIsClean("a");
      assert !Dangling("");
      if n2 == "" { Frame("", "a"); } else { NotLiteralNotReset(n2); }
    }
  }

  lemma DollarsOfLine(line: string)
    ensures Dollars("" + "\n" + line + "\n") == Dollars(line)
  {
    assert "" + "\n" + line + "\n" == ['\n'] + line + ['\n'];
  }

  lemma DollarsOfReset(n2: string, whole: string)
    requires !Literal(n2) && '$' !in whole
    ensures Dollars(Expand(Entry(n2), whole)) < Dollars(Entry(n2))
  {
    EntryLiteral(n2, whole);
    ExpandUsesDollars(n2, whole);
    DollarsOfEntry(n2);
    DollarsOfEntry(Expand(n2, whole));
  }

  lemma LinesDiffer(text: string, line: string)
    requires Dollars(text) < Dollars(line)
    ensures "" + "\n" + text + "\n" != "" + "\n" + line + "\n"
  {
    DollarsOfLine(line);
    DollarsOfLine(text);
  }

  lemma ResetOfEmpty(n2: string)
    requires n2 != ""
    ensures SetNamespace(SetNamespace("", "a"), n2) == "" + "\n" + Expand(Entry(n2), Entry("a")) + "\n"
    ensures SetNamespace("", n2) == "" + "\n" + Entry(n2) + "\n"
    ensures '$' !in Entry("a")
  {
    EntryIsFull("a");
    ResetAppended("", "a", n2);
    Frame("", n2);
    KeyHasNoDollar();
  }

  lemma NotLiteralNotReset(n2: string)
    requires n2 != "" && !Literal(n2)
    ensures SetNamespace(SetNamespace("", "a"), n2) != SetNamespace("", n2)
  {
    ResetOfEmpty(n2);
    DollarsOfReset(n2, Entry("a"));
    LinesDiffer(Expand(Entry(n2), Entry("a")), Entry(n2));
  }

  /** The smallest file for which it goes wrong. */
  lemma DanglingExample()
    ensures Dangling(KEY)
    ensures SetNamespace(SetNamespace(KEY, "a"), "a") != SetNamespace(KEY, "a")
  {
    assert KEY[|KEY|..] == "";
    assert MatchLen(KEY) == 0;
    DanglingTail(KEY);
    PlainIsClean("a");
    SetTwice(KEY, "a", "a");
  }

  /** A reference makes the template put the old match where the namespace should be: `namespace: a`
      becomes `namespace: namespace: a`. */
  lemma DollarExample()
    ensures SetNamespace(Entry("a"), "$0") == Entry(Entry("a"))
  {
    SetOnEntry("$0");
    RefIsWhole(Entry("a"));
  }

  lemma RefIsWhole(whole: string)
    ensures Expand("$0", whole) == whole
  {
    var t := "$0";
    assert t[1..] == "0" && "0"[1..] == "" && t[2..] == "" && t[..2] == t;
    assert NameLen("0") == 1 + NameLen("0"[1..]);
    assert RefLen(t) == 2 && Expand(t[2..], whole) == "";
  }
}
