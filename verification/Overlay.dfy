/** The rewrite of the namespace line of a kustomization file: all matches of the multi-line pattern
    `^namespace:\s*\S+`, whose blanks may span lines, or a line at the end if there is none. */
module Overlay {
  import opened Wrappers
  import opened Disk

  const KEY := "namespace:"

  /******* The pattern *******/

  predicate IsBlank(c: char) {
    c == ' ' || c == '\t' || c == '\n' || c == '\r' || c == '\U{c}'
  }

  /** The number of blanks at the front. */
  function Blanks(s: string): (n: nat)
    ensures n <= |s| && (n < |s| ==> !IsBlank(s[n]))
    ensures forall i :: 0 <= i < n ==> IsBlank(s[i])
  {
    if s != "" && IsBlank(s[0]) then
      var n := Blanks(s[1..]);
      assert forall i :: 1 <= i < n + 1 ==> s[i] == s[1..][i - 1];
      n + 1
    else 0
  }

  /** The number of non-blanks at the front. */
  function Word(s: string): (n: nat)
    ensures n <= |s| && (n < |s| ==> IsBlank(s[n]))
    ensures forall i :: 0 <= i < n ==> !IsBlank(s[i])
  {
    if s != "" && !IsBlank(s[0]) then
      var n := Word(s[1..]);
      assert forall i :: 1 <= i < n + 1 ==> s[i] == s[1..][i - 1];
      n + 1
    else 0
  }

  /** The length of the match at the front of `s`, which is at the beginning of a line; 0 if none. */
  function MatchLen(s: string): (n: nat)
    ensures n <= |s| && (n > 0 ==> n > |KEY|)
  {
    if KEY <= s then
      var value := |KEY| + Blanks(s[|KEY|..]);
      var n := value + Word(s[value..]);
      if n > value then n else 0
    else 0
  }

  /** `bol` says that `s` is at the beginning of a line. */
  predicate HasMatch(s: string, bol: bool) {
    s != "" && ((bol && MatchLen(s) > 0) || HasMatch(s[1..], s[0] == '\n'))
  }

  /******* The template of the replacement *******/

  predicate IsNameChar(c: char) {
    'a' <= c <= 'z' || 'A' <= c <= 'Z' || '0' <= c <= '9' || c == '_'
  }

  function NameLen(s: string): (n: nat)
    ensures n <= |s|
  {
    if s != "" && IsNameChar(s[0]) then 1 + NameLen(s[1..]) else 0
  }

  /** The length of the reference at the front of a template, or 0 if there is none: `$$`, `$name` or
      `${name}`. */
  function RefLen(t: string): (n: nat)
    ensures n <= |t| && (n > 0 ==> n >= 2 && t[0] == '$')
  {
    if t == "" || t[0] != '$' then 0
    else if |t| > 1 && t[1] == '$' then 2
    else
      var braced := |t| > 1 && t[1] == '{';
      var start := if braced then 2 else 1;
      var end := start + NameLen(t[start..]);
      if end == start || (braced && (end == |t| || t[end] != '}')) then 0
      else if braced then end + 1 else end
  }

  /** `$$` is a dollar, `$0` and `${0}` are the match, and any other name stands for nothing. */
  function Meaning(ref: string, whole: string): string {
    if ref == "$$" then "$" else if ref == "$0" || ref == "${0}" then whole else ""
  }

  /** Go's template. A dollar without a name stands for itself. */
  function Expand(template: string, whole: string): string
    decreases |template|
  {
    if template == "" then ""
    else
      var n := RefLen(template);
      if n == 0 then [template[0]] + Expand(template[1..], whole)
      else Meaning(template[..n], whole) + Expand(template[n..], whole)
  }

  /** A template without references. */
  predicate Literal(t: string) {
    t == "" || (RefLen(t) == 0 && Literal(t[1..]))
  }

  lemma {:induction false} ExpandLiteral(t: string, whole: string)
    requires Literal(t)
    ensures Expand(t, whole) == t
    decreases |t|
  {
    if t != "" {
      ExpandLiteral(t[1..], whole);
    }
  }

  function Dollars(s: string): nat {
    multiset(s)['$']
  }

  /** A reference uses up its dollars. */
  lemma {:induction false} ExpandUsesDollars(t: string, whole: string)
    requires '$' !in whole
    ensures Dollars(Expand(t, whole)) <= Dollars(t)
    ensures !Literal(t) ==> Dollars(Expand(t, whole)) < Dollars(t)
    decreases |t|
  {
    if t != "" {
      var n := if RefLen(t) == 0 then 1 else RefLen(t);
      assert t == t[..n] + t[n..];
      if RefLen(t) > 0 {
        assert t[..n] == ['$'] + t[1..n];
        assert t[..n] == "$$" ==> t[1..n] == "$";
      } else {
        assert t[..1] == [t[0]];
      }
      ExpandUsesDollars(t[n..], whole);
    }
  }

  /** A template stands for itself, whatever was matched, exactly if it has no reference in it. */
  lemma ExpandIsIdentity(t: string)
    ensures (forall whole :: Expand(t, whole) == t) <==> Literal(t)
  {
    if Literal(t) {
      forall whole { ExpandLiteral(t, whole); }
    } else {
      ExpandUsesDollars(t, "");
      assert Expand(t, "") != t;
    }
  }

  lemma {:induction false} ExpandPrefix(a: string, b: string, whole: string)
    requires '$' !in a
    ensures Expand(a + b, whole) == a + Expand(b, whole)
    ensures Literal(a + b) <==> Literal(b)
    decreases |a|
  {
    if a == "" {
      assert a + b == b;
    } else {
      assert (a + b)[1..] == a[1..] + b;
      assert a[0] != '$';
      ExpandPrefix(a[1..], b, whole);
    }
  }

  /** A template that does not refer to the match. */
  predicate Independent(t: string)
    decreases |t|
  {
    if t == "" then true
    else if RefLen(t) == 0 then Independent(t[1..])
    else t[..RefLen(t)] != "$0" && t[..RefLen(t)] != "${0}" && Independent(t[RefLen(t)..])
  }

  lemma {:induction false} IndependentExpands(t: string, whole: string)
    requires Independent(t)
    ensures Expand(t, whole) == Expand(t, "")
    decreases |t|
  {
    if t != "" {
      IndependentExpands(t[if RefLen(t) == 0 then 1 else RefLen(t)..], whole);
    }
  }

  lemma JoinFront(front: string, a: string, whole: string, b: string)
    ensures front + (a + whole + b) == front + a + whole + b
  {}

  lemma {:induction false} DependentShows(t: string, whole: string) returns (a: string, b: string)
    requires !Independent(t)
    ensures Expand(t, whole) == a + whole + b
    decreases |t|
  {
    var n := RefLen(t);
    if n > 0 && (t[..n] == "$0" || t[..n] == "${0}") {
      a, b := "", Expand(t[n..], whole);
      assert a + whole + b == whole + b;
    } else {
      a, b := DependentShows(t[if n == 0 then 1 else n..], whole);
      var front := if n == 0 then [t[0]] else Meaning(t[..n], whole);
      JoinFront(front, a, whole, b);
      a := front + a;
    }
  }

  /******* The rewrite *******/

  function ReplaceAll(s: string, bol: bool, template: string): string
    decreases |s|
  {
    if s == "" then ""
    else if bol && MatchLen(s) > 0 then
      Expand(template, s[..MatchLen(s)]) + ReplaceAll(s[MatchLen(s)..], false, template)
    else [s[0]] + ReplaceAll(s[1..], s[0] == '\n', template)
  }

  function Entry(ns: string): string {
    KEY + " " + ns
  }

  function SetNamespace(data: string, ns: string): string {
    if ns == "" then data
    else if HasMatch(data, true) then ReplaceAll(data, true, Entry(ns))
    else data + "\n" + Entry(ns) + "\n"
  }

  /** What one call makes of the file, and whether it succeeds. The file is written in place, so what a
      failing write leaves is the front of the new text. */
  function Overwritten(ns: string, fault: Fault, content: Option<string>): (Option<string>, bool) {
    if ns == "" then (content, true)
    else if fault.Reading? then (content, false)
    else if content == None then (None, true)
    else if fault.Opening? then (content, false)
    else
      var updated := SetNamespace(content.value, ns);
      if fault.Writing? then (Some(Torn(updated, fault.written)), false) else (Some(updated), true)
  }

  class File {
    var content: Option<string>

    constructor (content: Option<string>)
      ensures this.content == content
    {
      this.content := content;
    }

    /** setOverlayNamespace. Without a namespace or a file there is nothing to do. */
    method SetOverlayNamespace(ns: string, fault: Fault) returns (ok: bool)
      modifies this
      ensures (content, ok) == Overwritten(ns, fault, old(content))
    {
      if ns == "" {
        return true;
      }
      if fault.Reading? {
        return false;
      }
      if content == None {
        return true;
      }
      var data := content.value;
      var replacement := Entry(ns);
      var updated;
      if HasMatch(data, true) {
        updated := ReplaceAll(data, true, replacement);
      } else {
        updated := data + "\n" + (replacement + "\n");
        assert updated == data + "\n" + replacement + "\n";
      }
      if fault.Opening? {
        return false;
      }
      content := Some("");
      if fault.Writing? {
        content := Some(Torn(updated, fault.written));
        return false;
      }
      content := Some(updated);
      ok := true;
    }
  }

  /******* The file as gaps and hits *******/

  datatype Token = Gap(c: char) | Hit(text: string)

  function Scan(s: string, bol: bool): seq<Token>
    decreases |s|
  {
    if s == "" then []
    else if bol && MatchLen(s) > 0 then [Hit(s[..MatchLen(s)])] + Scan(s[MatchLen(s)..], false)
    else [Gap(s[0])] + Scan(s[1..], s[0] == '\n')
  }

  function Text(tokens: seq<Token>): string {
    if tokens == [] then ""
    else (if tokens[0].Gap? then [tokens[0].c] else tokens[0].text) + Text(tokens[1..])
  }

  /** The same gaps, with the expansion of the template in place of every hit. */
  function Rewritten(tokens: seq<Token>, template: string): (r: seq<Token>)
    ensures |r| == |tokens|
  {
    seq(|tokens|, i requires 0 <= i < |tokens| =>
      if tokens[i].Hit? then Hit(Expand(template, tokens[i].text)) else tokens[i])
  }

  /** The same gaps, with another text in place of every hit. */
  function WithHits(tokens: seq<Token>, text: string): (r: seq<Token>)
    ensures |r| == |tokens|
  {
    seq(|tokens|, i requires 0 <= i < |tokens| => if tokens[i].Hit? then Hit(text) else tokens[i])
  }

  /** What a hit reads. */
  function ValueOf(text: string): string
    requires |text| >= |KEY|
  {
    text[|KEY| + Blanks(text[|KEY|..])..]
  }

  /** A namespace that the template and the pattern take as it is: one word without references. */
  predicate Plain(ns: string) {
    ns != "" && Literal(ns) && Blankless(ns)
  }

  predicate Blankless(s: string) {
    forall i :: 0 <= i < |s| ==> !IsBlank(s[i])
  }

  lemma EntryLiteral(ns: string, whole: string)
    ensures Literal(Entry(ns)) <==> Literal(ns)
    ensures Literal(ns) ==> Expand(Entry(ns), whole) == Entry(ns)
    ensures Expand(Entry(ns), whole) == KEY + " " + Expand(ns, whole)
  {
    assert '$' !in KEY + " ";
    ExpandPrefix(KEY + " ", ns, whole);
    if Literal(ns) {
      ExpandLiteral(ns, whole);
    }
  }

  lemma {:induction false} ScanIsLossless(s: string, bol: bool)
    ensures Text(Scan(s, bol)) == s
    decreases |s|
  {
    if s != "" {
      if bol && MatchLen(s) > 0 {
        ScanIsLossless(s[MatchLen(s)..], false);
      } else {
        ScanIsLossless(s[1..], s[0] == '\n');
      }
    }
  }

  lemma RewrittenFront(tokens: seq<Token>, template: string)
    requires tokens != []
    ensures Rewritten(tokens, template)[1..] == Rewritten(tokens[1..], template)
  {}

  lemma {:induction false} ReplaceIsRewritten(s: string, bol: bool, template: string)
    ensures ReplaceAll(s, bol, template) == Text(Rewritten(Scan(s, bol), template))
    decreases |s|
  {
    if s != "" {
      RewrittenFront(Scan(s, bol), template);
      if bol && MatchLen(s) > 0 {
        ReplaceIsRewritten(s[MatchLen(s)..], false, template);
      } else {
        ReplaceIsRewritten(s[1..], s[0] == '\n', template);
      }
    }
  }

  lemma RewrittenLiteral(tokens: seq<Token>, ns: string)
    requires Literal(ns)
    ensures Rewritten(tokens, Entry(ns)) == WithHits(tokens, Entry(ns))
  {
    forall whole { EntryLiteral(ns, whole); }
  }

  lemma HitAfterGap(c: char, tokens: seq<Token>)
    ensures var all := [Gap(c)] + tokens;
      (exists i :: 0 <= i < |all| && all[i].Hit?) <==> (exists i :: 0 <= i < |tokens| && tokens[i].Hit?)
  {
    var all := [Gap(c)] + tokens;
    if i :| 0 <= i < |tokens| && tokens[i].Hit? {
      assert all[i + 1].Hit?;
    }
    if i :| 0 <= i < |all| && all[i].Hit? {
      assert tokens[i - 1].Hit?;
    }
  }

  lemma {:induction false} MatchIsHit(s: string, bol: bool)
    ensures HasMatch(s, bol) <==> exists i :: 0 <= i < |Scan(s, bol)| && Scan(s, bol)[i].Hit?
    decreases |s|
  {
    if s != "" {
      var tokens := Scan(s, bol);
      if bol && MatchLen(s) > 0 {
        assert tokens[0].Hit?;
      } else {
        MatchIsHit(s[1..], s[0] == '\n');
        assert tokens == [Gap(s[0])] + Scan(s[1..], s[0] == '\n');
        HitAfterGap(s[0], Scan(s[1..], s[0] == '\n'));
      }
    }
  }

  /******* No match appears or disappears *******/

  lemma BlanksAre(s: string, n: nat)
    requires n <= |s| && (forall i :: 0 <= i < n ==> IsBlank(s[i])) && (n < |s| ==> !IsBlank(s[n]))
    ensures Blanks(s) == n
  {}

  lemma WordIs(s: string, n: nat)
    requires n <= |s| && (forall i :: 0 <= i < n ==> !IsBlank(s[i])) && (n < |s| ==> IsBlank(s[n]))
    ensures Word(s) == n
  {}

  lemma MatchIs(s: string, blanks: nat, word: nat)
    requires |KEY| + blanks + word <= |s| && KEY <= s && word > 0
    requires Blanks(s[|KEY|..]) == blanks && Word(s[|KEY| + blanks..]) == word
    ensures MatchLen(s) == |KEY| + blanks + word
  {}

  /** A text that the pattern matches as a whole. */
  predicate Full(text: string) {
    MatchLen(text) == |text| > 0
  }

  /** A full text is matched, and no more, wherever a blank or nothing follows. */
  lemma FullMatches(text: string, rest: string)
    requires Full(text) && (rest != "" ==> IsBlank(rest[0]))
    ensures MatchLen(text + rest) == |text|
  {
    var z, blanks := text + rest, Blanks(text[|KEY|..]);
    var word := text[|KEY| + blanks..];
    assert z[|KEY|..] == text[|KEY|..] + rest;
    assert text[|KEY|..][blanks..] == word;
    BlanksAre(text[|KEY|..] + rest, blanks);
    assert z[|KEY| + blanks..] == word + rest;
    WordIs(word + rest, |word|);
    MatchIs(z, blanks, |word|);
  }

  lemma EntryIsFull(ns: string)
    requires Plain(ns)
    ensures Full(Entry(ns)) && ValueOf(Entry(ns)) == ns
  {
    var s := Entry(ns);
    assert s[|KEY|..] == " " + ns;
    assert Blanks(s[|KEY|..]) == 1;
    assert s[|KEY| + 1..] == ns;
    WordIs(ns, |ns|);
  }

  /** The template always stands for the same text, which the pattern matches as a whole. */
  ghost predicate Steady(template: string, text: string) {
    Full(text) && forall whole :: Expand(template, whole) == text
  }

  lemma PlainIsSteady(ns: string)
    requires Plain(ns)
    ensures Steady(Entry(ns), Entry(ns))
  {
    EntryIsFull(ns);
    forall whole { EntryLiteral(ns, whole); }
  }

  /** Replacement changes nothing before the first newline. */
  lemma {:induction false} FirstLineKept(s: string, template: string, k: nat)
    requires k <= |s| && '\n' !in s[..k] && (k < |s| ==> s[k] == '\n')
    ensures s[..k] <= ReplaceAll(s, false, template)
    ensures k < |s| ==> |ReplaceAll(s, false, template)| > k && ReplaceAll(s, false, template)[k] == '\n'
    ensures k == |s| ==> ReplaceAll(s, false, template) == s
    decreases |s|
  {
    if k > 0 {
      assert s[0] == s[..k][0];
      assert s[1..][..k - 1] == s[..k][1..];
      FirstLineKept(s[1..], template, k - 1);
      assert s[..k] == [s[0]] + s[1..][..k - 1];
    }
  }

  lemma {:induction false} NoMatchNoChange(s: string, bol: bool, template: string)
    requires !HasMatch(s, bol)
    ensures ReplaceAll(s, bol, template) == s
    decreases |s|
  {
    if s != "" {
      NoMatchNoChange(s[1..], s[0] == '\n', template);
    }
  }

  /** Where every line starts with something else than the key's first letter, nothing matches. */
  lemma {:induction false} NoLetterNoMatch(s: string, bol: bool)
    requires bol && s != "" ==> s[0] != KEY[0]
    requires forall i :: 0 < i < |s| && s[i - 1] == '\n' ==> s[i] != KEY[0]
    ensures !HasMatch(s, bol)
    decreases |s|
  {
    if s != "" {
      assert forall i :: 0 <= i < |s| - 1 ==> s[1..][i] == s[i + 1];
      NoLetterNoMatch(s[1..], s[0] == '\n');
    }
  }

  /** A key at the front that does not match has nothing but blanks after it, and no key after that. */
  lemma DanglingTail(s: string)
    requires KEY <= s && MatchLen(s) == 0
    ensures forall i :: |KEY| <= i < |s| ==> IsBlank(s[i])
    ensures !HasMatch(s[1..], false)
  {
    var after := s[|KEY|..];
    var n := Blanks(after);
    assert Word(s[|KEY| + n..]) == 0;
    assert s[|KEY| + n..] == after[n..];
    assert n == |after|;
    forall i | |KEY| <= i < |s| ensures IsBlank(s[i]) {
      assert s[i] == after[i - |KEY|];
    }
    assert s[..|KEY|] == KEY;
    var tail := s[1..];
    assert forall i :: 0 <= i < |KEY| ==> s[i] == KEY[i] && KEY[i] != '\n';
    assert forall i :: 0 <= i < |tail| ==> tail[i] == s[i + 1];
    NoLetterNoMatch(tail, false);
  }

  lemma KeyInFirstLine(s: string, z: string, k: nat)
    requires k <= |s| && '\n' !in s[..k]
    requires s[..k] <= z && (k < |s| ==> |z| > k && z[k] == '\n') && (k == |s| ==> z == s)
    requires KEY <= z
    ensures KEY <= s
  {}

  lemma {:induction false} Newline(s: string) returns (k: nat)
    ensures k <= |s| && '\n' !in s[..k] && (k < |s| ==> s[k] == '\n')
    decreases |s|
  {
    if s == "" || s[0] == '\n' {
      k := 0;
    } else {
      k := Newline(s[1..]);
      k := k + 1;
      assert s[..k] == [s[0]] + s[1..][..k - 1];
    }
  }

  /** Replacing matches further on makes no match at the front. */
  lemma NoNewMatch(s: string, template: string)
    requires s != "" && MatchLen(s) == 0
    ensures MatchLen([s[0]] + ReplaceAll(s[1..], s[0] == '\n', template)) == 0
  {
    var rest := ReplaceAll(s[1..], s[0] == '\n', template);
    var z := [s[0]] + rest;
    if KEY <= z {
      assert s[0] == z[0] == KEY[0];
      var k := Newline(s[1..]);
      FirstLineKept(s[1..], template, k);
      assert s[..k + 1] == [s[0]] + s[1..][..k];
      assert s[..k + 1] <= z;
      KeyInFirstLine(s, z, k + 1);
      DanglingTail(s);
      NoMatchNoChange(s[1..], false, template);
      assert z == s;
    }
  }

  /** A replaced match is scanned as one hit, and the scan goes on where it went on before. */
  lemma ScanReplacedHit(s: string, template: string, text: string)
    requires Steady(template, text) && MatchLen(s) > 0
    ensures var rest := ReplaceAll(s[MatchLen(s)..], false, template);
      && ReplaceAll(s, true, template) == text + rest
      && Scan(text + rest, true) == [Hit(text)] + Scan(rest, false)
  {
    var n := MatchLen(s);
    var rest := ReplaceAll(s[n..], false, template);
    var value := |KEY| + Blanks(s[|KEY|..]);
    assert s[n..] != "" ==> s[n] == s[value..][n - value];
    FullMatches(text, rest);
    assert (text + rest)[..|text|] == text && (text + rest)[|text|..] == rest;
  }

  lemma ScanReplacedGap(s: string, bol: bool, template: string)
    requires s != "" && !(bol && MatchLen(s) > 0)
    ensures var rest := ReplaceAll(s[1..], s[0] == '\n', template);
      Scan(ReplaceAll(s, bol, template), bol) == [Gap(s[0])] + Scan(rest, s[0] == '\n')
  {
    var rest := ReplaceAll(s[1..], s[0] == '\n', template);
    if bol { NoNewMatch(s, template); }
    assert ([s[0]] + rest)[1..] == rest;
  }

  lemma WithHitsCons(t: Token, tokens: seq<Token>, text: string)
    ensures WithHits([t] + tokens, text) == [if t.Hit? then Hit(text) else t] + WithHits(tokens, text)
  {}

  /** The rewritten file has its matches exactly where the old one had them, and the same gaps. */
  lemma {:induction false} ScanOfReplaced(s: string, bol: bool, template: string, text: string)
    requires Steady(template, text)
    ensures Scan(ReplaceAll(s, bol, template), bol) == WithHits(Scan(s, bol), text)
    decreases |s|
  {
    if s == "" {
    } else if bol && MatchLen(s) > 0 {
      var n := MatchLen(s);
      ScanReplacedHit(s, template, text);
      ScanOfReplaced(s[n..], false, template, text);
      WithHitsCons(Hit(s[..n]), Scan(s[n..], false), text);
    } else {
      ScanReplacedGap(s, bol, template);
      ScanOfReplaced(s[1..], s[0] == '\n', template, text);
      WithHitsCons(Gap(s[0]), Scan(s[1..], s[0] == '\n'), text);
    }
  }
}
