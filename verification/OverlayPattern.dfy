/** What the pattern `^namespace:\s*\S+` and Go's replacement templates mean, told character by character. */
module OverlayPattern {
  import opened Overlay

  // What follows is spelled out on the text; no operation of the model uses it.

  predicate Blank(c: char) {
    c in " \t\n\r\U{c}"
  }

  /** The first `n` characters are the key, `blanks` blanks, and then a word that ends there. */
  predicate SplitsAt(s: string, n: nat, blanks: nat) {
    && n <= |s| && "namespace:" <= s && 10 + blanks < n
    && (forall i :: 10 <= i < 10 + blanks ==> Blank(s[i]))
    && (forall i :: 10 + blanks <= i < n ==> !Blank(s[i]))
    && (n < |s| ==> Blank(s[n]))
  }

  lemma BlankIs(c: char)
    ensures IsBlank(c) <==> Blank(c)
  {}

  lemma TailAt(s: string, from: nat, i: nat)
    requires from + i < |s|
    ensures s[from..][i] == s[from + i]
  {}

  lemma MatchSplits(s: string)
    requires MatchLen(s) > 0
    ensures SplitsAt(s, MatchLen(s), Blanks(s[|KEY|..]))
  {
    var blanks := Blanks(s[|KEY|..]);
    var value := |KEY| + blanks;
    forall i | 10 <= i < 10 + blanks ensures Blank(s[i]) {
      TailAt(s, |KEY|, i - 10);
      BlankIs(s[i]);
    }
    forall i | 10 + blanks <= i < MatchLen(s) ensures !Blank(s[i]) {
      TailAt(s, value, i - value);
      BlankIs(s[i]);
    }
    if MatchLen(s) < |s| {
      TailAt(s, value, MatchLen(s) - value);
      BlankIs(s[MatchLen(s)]);
    }
  }

  lemma SplitMatches(s: string, n: nat, blanks: nat)
    requires SplitsAt(s, n, blanks)
    ensures MatchLen(s) == n
  {
    var rest, word := s[|KEY|..], s[|KEY| + blanks..];
    forall i | 0 <= i < blanks ensures IsBlank(rest[i]) {
      TailAt(s, |KEY|, i);
      BlankIs(rest[i]);
    }
    TailAt(s, |KEY|, blanks);
    BlankIs(rest[blanks]);
    BlanksAre(rest, blanks);
    forall i | 0 <= i < n - |KEY| - blanks ensures !IsBlank(word[i]) {
      TailAt(s, |KEY| + blanks, i);
      BlankIs(word[i]);
    }
    if n < |s| {
      TailAt(s, |KEY| + blanks, n - |KEY| - blanks);
      BlankIs(s[n]);
    }
    WordIs(word, n - |KEY| - blanks);
    MatchIs(s, blanks, n - |KEY| - blanks);
  }

  /** The pattern matches exactly such texts, each in one way. */
  lemma PatternMatches(s: string, n: nat)
    requires n > 0
    ensures MatchLen(s) == n <==> exists blanks :: SplitsAt(s, n, blanks)
  {
    if MatchLen(s) == n {
      MatchSplits(s);
    }
    if blanks: nat :| SplitsAt(s, n, blanks) {
      SplitMatches(s, n, blanks);
    }
  }

  ghost predicate MatchesAt(s: string, bol: bool, i: nat) {
    i < |s| && (if i == 0 then bol else s[i - 1] == '\n') && MatchLen(s[i..]) > 0
  }

  /** It may match at the beginning of every line. */
  lemma {:induction false} MatchesAtLineStarts(s: string, bol: bool)
    ensures HasMatch(s, bol) <==> exists i :: MatchesAt(s, bol, i)
    decreases |s|
  {
    if s != "" {
      var next := s[0] == '\n';
      MatchesAtLineStarts(s[1..], next);
      assert s[0..] == s;
      if i: nat :| MatchesAt(s[1..], next, i) {
        assert s[1..][i..] == s[i + 1..];
        assert MatchesAt(s, bol, i + 1);
      }
      if i: nat :| i > 0 && MatchesAt(s, bol, i) {
        assert s[1..][i - 1..] == s[i..];
        assert MatchesAt(s[1..], next, i - 1);
      }
      if bol && MatchLen(s) > 0 {
        assert MatchesAt(s, bol, 0);
      }
    }
  }

  /******* Templates *******/

  predicate InName(c: char) {
    'a' <= c <= 'z' || 'A' <= c <= 'Z' || '0' <= c <= '9' || c == '_'
  }

  predicate Name(name: string) {
    name != "" && forall i :: 0 <= i < |name| ==> InName(name[i])
  }

  lemma {:induction false} NameLenIs(name: string, rest: string)
    requires (forall i :: 0 <= i < |name| ==> InName(name[i])) && (rest != "" ==> !InName(rest[0]))
    ensures NameLen(name + rest) == |name|
    decreases |name|
  {
    if name == "" {
      assert name + rest == rest;
    } else {
      assert (name + rest)[1..] == name[1..] + rest;
      assert (name + rest)[0] == name[0];
      NameLenIs(name[1..], rest);
    }
  }

  /** `${name}` stands for the match if the name is 0, and for nothing otherwise. */
  lemma BracedMeans(name: string, rest: string, whole: string)
    requires Name(name)
    ensures Expand("${" + name + "}" + rest, whole) == (if name == "0" then whole else "") + Expand(rest, whole)
  {
    var t, n := "${" + name + "}" + rest, |name| + 3;
    assert t[2..] == name + ("}" + rest);
    NameLenIs(name, "}" + rest);
    assert t[2 + |name|] == '}';
    assert RefLen(t) == n;
    assert t[n..] == rest;
    var ref := t[..n];
    assert ref == "${" + name + "}";
    assert ref[1] == '{';
    assert ref == "${0}" <==> name == "0" by {
      assert ref[2..n - 1] == name;
    }
  }

  /** So does `$name`, which takes in as many characters as it can. */
  lemma NamedMeans(name: string, rest: string, whole: string)
    requires Name(name) && (rest != "" ==> !InName(rest[0]))
    ensures Expand("$" + name + rest, whole) == (if name == "0" then whole else "") + Expand(rest, whole)
  {
    var t, n := "$" + name + rest, |name| + 1;
    assert t[1] == name[0];
    assert t[1..] == name + rest;
    NameLenIs(name, rest);
    assert RefLen(t) == n;
    assert t[n..] == rest;
    var ref := t[..n];
    assert ref == "$" + name;
    assert ref[1] == name[0];
    assert ref == "$0" <==> name == "0" by {
      assert ref[1..] == name;
    }
  }

  /** `$$` stands for a dollar, and any other character for itself, a dollar too if no reference begins
      with it. */
  lemma PlainMeans(c: char, rest: string, whole: string)
    ensures Expand("$$" + rest, whole) == "$" + Expand(rest, whole)
    ensures c != '$' ==> Expand([c] + rest, whole) == [c] + Expand(rest, whole)
    ensures rest == "" || (rest[0] != '$' && !InName(rest[0]) && rest[0] != '{') ==>
      Expand("$" + rest, whole) == "$" + Expand(rest, whole)
  {
    var d := "$$" + rest;
    assert d[0] == '$' && d[1] == '$' && d[..2] == "$$" && d[2..] == rest;
    assert ([c] + rest)[1..] == rest;
    var t := "$" + rest;
    assert t[1..] == rest;
    if rest != "" { assert t[1] == rest[0]; }
  }

  /** A brace that is not closed after a name makes no reference. */
  lemma UnclosedMeans(name: string, rest: string, whole: string)
    requires forall i :: 0 <= i < |name| ==> InName(name[i])
    requires rest == "" || (!InName(rest[0]) && (rest[0] != '}' || name == ""))
    ensures Expand("${" + name + rest, whole) == "$" + Expand("{" + name + rest, whole)
  {
    var t := "${" + name + rest;
    assert t[2..] == name + rest;
    NameLenIs(name, rest);
    if rest != "" { assert t[2 + |name|] == rest[0]; }
    assert t[1..] == "{" + name + rest;
  }

  /******* The line *******/

  lemma EntrySays(ns: string)
    ensures Entry(ns) == "namespace: " + ns
  {
    assert KEY + " " == "namespace: ";
  }

  /** The line that is appended, and that a match becomes if the namespace has no references. */
  lemma LineIs(data: string, ns: string)
    requires ns != ""
    ensures !HasMatch(data, true) ==> SetNamespace(data, ns) == data + "\n" + ("namespace: " + ns) + "\n"
    ensures Literal(ns) ==> forall whole :: Expand(Entry(ns), whole) == "namespace: " + ns
  {
    EntrySays(ns);
    if Literal(ns) {
      forall whole { EntryLiteral(ns, whole); }
    }
  }
}
