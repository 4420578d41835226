/**
 Opening tags, whose pattern runs on to the next bracket: counting the places where one
 begins in a text that is put together from pieces.
 */
module OpeningTags {
  import opened Replacing
  import opened TagPatterns
  import opened TagCounting

  /** Whether a tag begins at the front of `u` does not depend on what follows its first bracket. */
  predicate SettledBy(find: Finder, u: string, v: string) {
    find(u + v) > 0 <==> find(u) > 0
  }

  /** Text that can follow a line's end so that no tag's name goes on into it. */
  predicate IsTail(w: string) {
    '>' !in w && (w == "" || w[0] == '<')
  }

  /** A tag that `u` leaves open is closed by the next bracket, whatever is before that. */
  predicate RunsOn(find: Finder, u: string, w: string) {
    find(u + ("\n" + (w + ">"))) > 0 <==> find(u + "\n>") > 0
  }

  ghost predicate FindsBracketed(find: Finder) {
    forall s :: find(s) > 0 ==> |s| > 1 && s[0] == '<' && s[1] != '/' && '>' in s
  }

  ghost predicate SettledAtBracket(find: Finder) {
    forall u, v :: '>' in u ==> SettledBy(find, u, v)
  }

  ghost predicate RunsOnOverTails(find: Finder) {
    forall u, w :: IsTail(w) ==> RunsOn(find, u, w)
  }

  ghost predicate FindsOpenings(find: Finder) {
    FindsBracketed(find) && SettledAtBracket(find) && RunsOnOverTails(find)
  }

  /** Every bracket that opens is followed by one that closes. */
  predicate Closed(a: string) {
    a == "" || ((a[0] == '<' ==> '>' in a) && Closed(a[1..]))
  }

  lemma {:induction false} ClosedTogether(a: string, b: string)
    requires Closed(a) && Closed(b)
    ensures Closed(a + b)
  {
    if a == "" {
      assert a + b == b;
    } else {
      ClosedTogether(a[1..], b);
      assert (a + b)[1..] == a[1..] + b;
    }
  }

  lemma {:induction false} NoBracketIsClosed(a: string)
    requires '<' !in a
    ensures Closed(a)
  {
    if a != "" {
      NoBracketIsClosed(a[1..]);
    }
  }

  lemma {:induction false} EndingClosed(a: string)
    requires a != "" && a[|a| - 1] == '>'
    ensures Closed(a)
  {
    if |a| > 1 {
      EndingClosed(a[1..]);
    }
  }

  lemma {:induction false} CountAfterClosed(find: Finder, a: string, b: string)
    requires FindsOpenings(find) && Closed(a)
    ensures Count(find, a + b) == Count(find, a) + Count(find, b)
  {
    if a == "" {
      assert a + b == b;
    } else {
      CountAfterClosed(find, a[1..], b);
      assert (a + b)[1..] == a[1..] + b;
      if a[0] == '<' {
        assert SettledBy(find, a, b);
      }
    }
  }

  lemma {:induction false} CountNoBracket(find: Finder, a: string)
    requires FindsOpenings(find) && '<' !in a
    ensures Count(find, a) == 0
  {
    if a != "" {
      CountNoBracket(find, a[1..]);
    }
  }

  lemma CountSkipsPlain(find: Finder, a: string, b: string)
    requires FindsOpenings(find) && '<' !in a
    ensures Count(find, a + b) == Count(find, b)
  {
    NoBracketIsClosed(a);
    CountAfterClosed(find, a, b);
    CountNoBracket(find, a);
  }

  /** Text without any bracket at the end changes nothing. */
  lemma {:induction false} CountIgnoresPlain(find: Finder, a: string, b: string)
    requires FindsOpenings(find) && '<' !in b && '>' !in b
    ensures Count(find, a + b) == Count(find, a)
  {
    if a == "" {
      assert a + b == b;
      CountNoBracket(find, b);
    } else {
      CountIgnoresPlain(find, a[1..], b);
      assert (a + b)[1..] == a[1..] + b;
      if '>' in a {
        assert SettledBy(find, a, b);
      }
    }
  }

  /** How many openings a text leaves for the next bracket to close. */
  function LeftOpen(find: Finder, t: string): nat {
    Count(find, t + "\n>")
  }

  lemma CountBareEnd(find: Finder, w: string)
    requires FindsOpenings(find) && IsTail(w) && (w != "" ==> |w| > 1 && w[1] == '/' && '<' !in w[1..])
    ensures Count(find, "\n" + (w + ">")) == 0
  {
    var u := w + ">";
    CountSkipsPlain(find, "\n", u);
    if w == "" {
      assert u == ">";
      CountNoBracket(find, u);
    } else {
      assert u[1..] == w[1..] + ">";
      CountNoBracket(find, u[1..]);
    }
  }

  lemma CountStep(find: Finder, t: string, x: string)
    requires t != ""
    ensures Count(find, t + x) == (if find(t + x) > 0 then 1 else 0) + Count(find, t[1..] + x)
  {
    assert (t + x)[1..] == t[1..] + x;
  }

  /** A text followed by an end tag: the end tag closes what the text leaves open. */
  lemma {:induction false} CountBeforeEnd(find: Finder, t: string, w: string)
    requires FindsOpenings(find) && IsTail(w) && (w != "" ==> |w| > 1 && w[1] == '/' && '<' !in w[1..])
    ensures Count(find, t + ("\n" + (w + ">"))) == LeftOpen(find, t)
  {
    var x, y := "\n" + (w + ">"), "\n>";
    if t == "" {
      CountBareEnd(find, w);
      CountBareEnd(find, "");
      assert "\n" + ("" + ">") == y && t + x == x && t + y == y;
    } else {
      CountBeforeEnd(find, t[1..], w);
      CountStep(find, t, x);
      CountStep(find, t, y);
      assert RunsOn(find, t, w);
    }
  }

  // -------------------------------------------------------------- the reserved patterns

  /** An opening tag ends with the first closing bracket of the text. */
  lemma OpenMatchEnds(name: string, s: string)
    requires IsTagName(name) && MatchOpen(name, s) > 0
    ensures var n := MatchOpen(name, s);
      n > 1 && s[n - 1] == '>' && '>' !in s[..n - 1] && s[0] == '<' && s[1] != '/'
  {
    var n := MatchOpen(name, s);
    var gap, word, rest := OpenMatchIsTag(name, s);
    TagHasNoBracket(name, gap, word, rest);
    EndsOfTag(s, n, gap, word, rest);
  }

  lemma EndsOfTag(s: string, n: nat, gap: string, word: string, rest: string)
    requires n <= |s| && s[..n] == "<" + gap + word + rest + ">"
    requires var inner := gap + word + rest; '>' !in inner && inner != "" && inner[0] != '/'
    ensures n > 1 && s[n - 1] == '>' && '>' !in s[..n - 1] && s[0] == '<' && s[1] != '/'
  {
    var inner := gap + word + rest;
    assert s[..n] == "<" + inner + ">" && s[..n - 1] == "<" + inner;
    assert s[n - 1] == (s[..n])[n - 1] && s[0] == (s[..n])[0] && s[1] == (s[..n])[1] == inner[0];
  }

  lemma TagHasNoBracket(name: string, gap: string, word: string, rest: string)
    requires IsTagName(name) && IsOpenTag(name, gap, word, rest)
    ensures '>' !in gap + word + rest
    ensures (gap + word + rest) != "" && (gap + word + rest)[0] != '/'
  {
    forall i | 0 <= i < |word| ensures word[i] != '>' && word[i] != '/' {
      assert Folds(word[i], name[i]);
    }
  }

  lemma AbsentInFront(s: string, c: char, n: nat)
    requires n <= |s| && c !in s[..n]
    ensures forall i :: 0 <= i < n ==> s[i] != c
  {
    forall i | 0 <= i < n ensures s[i] != c {
      assert s[i] == s[..n][i];
    }
  }

  lemma FirstBracketWithin(u: string, v: string, n: nat)
    requires '>' in u && 0 < n <= |u + v| && '>' !in (u + v)[..n - 1]
    ensures n <= |u| && (u + v)[..n] == u[..n]
  {
    var i :| 0 <= i < |u| && u[i] == '>';
    assert (u + v)[i] == '>';
    AbsentInFront(u + v, '>', n - 1);
  }

  lemma OpenIsSettled(name: string, u: string, v: string)
    requires IsTagName(name) && '>' in u
    ensures MatchOpen(name, u + v) > 0 <==> MatchOpen(name, u) > 0
  {
    var n, m := MatchOpen(name, u + v), MatchOpen(name, u);
    if n > 0 {
      OpenMatchEnds(name, u + v);
      FirstBracketWithin(u, v, n);
      MatcherDecidesLanguage(Open(name), u + v, n);
      MatcherDecidesLanguage(Open(name), u, n);
    }
    if m > 0 {
      assert (u + v)[..m] == u[..m];
      MatcherDecidesLanguage(Open(name), u, m);
      MatcherDecidesLanguage(Open(name), u + v, m);
    }
  }

  /** The name of a tag that lies before `"\n"` and a tail does not reach them. */
  lemma NameLiesBefore(name: string, u: string, w: string, gap: string, word: string, rest: string)
    requires IsTagName(name) && IsTail(w) && IsOpenTag(name, gap, word, rest)
    requires u + ("\n" + (w + ">")) == "<" + gap + word + rest + ">"
    ensures 1 + |gap| + |word| <= |u|
  {
    var s, inner := u + ("\n" + (w + ">")), gap + word + rest;
    var k, n := |u|, 1 + |gap|;
    assert s == "<" + inner + ">" && s[0] == '<';
    assert s[k] == '\n' && (s[k + 1] == '<' || s[k + 1] == '>');
    forall j | n <= j < n + |word| ensures s[j] != '\n' && s[j] != '<' && s[j] != '>' {
      assert s[j] == word[j - n] && Folds(word[j - n], name[j - n]);
    }
    forall j | 1 <= j < n ensures IsSpace(s[j]) {
      assert s[j] == gap[j - 1];
    }
  }

  /** The whole of a text with one bracket that closes, at its end, is the tag. */
  lemma TagIsAll(name: string, body: string) returns (gap: string, word: string, rest: string)
    requires IsTagName(name) && '>' !in body && MatchOpen(name, body + ">") > 0
    ensures IsOpenTag(name, gap, word, rest) && body + ">" == "<" + gap + word + rest + ">"
  {
    var s := body + ">";
    var n := MatchOpen(name, s);
    OpenMatchEnds(name, s);
    assert s[..|body|] == body;
    AbsentInFront(s, '>', |body|);
    gap, word, rest := OpenMatchIsTag(name, s);
    assert s[..n] == s;
  }

  lemma OpenRunsOnto(name: string, u: string, w: string, x: string)
    requires IsTagName(name) && IsTail(w) && IsTail(x) && '>' !in u
    requires MatchOpen(name, u + ("\n" + (w + ">"))) > 0
    ensures MatchOpen(name, u + ("\n" + (x + ">"))) > 0
  {
    assert u + ("\n" + w) + ">" == u + ("\n" + (w + ">"));
    var gap, word, rest := TagIsAll(name, u + ("\n" + w));
    NameLiesBefore(name, u, w, gap, word, rest);
    SameNameRunsOn(name, u, w, x, gap, word, rest);
  }

  lemma SameNameRunsOn(name: string, u: string, w: string, x: string, gap: string, word: string, rest: string)
    requires IsTagName(name) && IsTail(x) && '>' !in u && IsOpenTag(name, gap, word, rest)
    requires u + ("\n" + (w + ">")) == "<" + gap + word + rest + ">"
    requires 1 + |gap| + |word| <= |u|
    ensures MatchOpen(name, u + ("\n" + (x + ">"))) > 0
  {
    var s, t, lead := u + ("\n" + (w + ">")), u + ("\n" + (x + ">")), "<" + gap + word;
    var m := |lead|;
    var after := u[m..] + ("\n" + x);
    assert s == lead + (rest + ">");
    assert s[m] == (rest + ">")[0] == (after + ">")[0];
    assert u == lead + u[m..] by {
      assert s[..m] == lead == u[..m];
    }
    assert t == lead + after + ">";
    TagIsMatched(Open(name), t, gap, word, after, "");
    assert t + "" == t;
  }

  lemma OpenRunsOn(name: string, u: string, w: string)
    requires IsTagName(name) && IsTail(w)
    ensures MatchOpen(name, u + ("\n" + (w + ">"))) > 0 <==> MatchOpen(name, u + "\n>") > 0
  {
    assert "\n" + ("" + ">") == "\n>";
    if '>' in u {
      OpenIsSettled(name, u, "\n" + (w + ">"));
      OpenIsSettled(name, u, "\n>");
    } else {
      if MatchOpen(name, u + ("\n" + (w + ">"))) > 0 {
        OpenRunsOnto(name, u, w, "");
      }
      if MatchOpen(name, u + "\n>") > 0 {
        OpenRunsOnto(name, u, "", w);
      }
    }
  }

  lemma FoundAreBracketed(find: Finder, name: string)
    requires IsTagName(name) && forall s :: find(s) == MatchOpen(name, s)
    ensures FindsBracketed(find)
  {
    forall s | find(s) > 0 ensures |s| > 1 && s[0] == '<' && s[1] != '/' && '>' in s {
      OpenMatchEnds(name, s);
    }
  }

  lemma FoundAreSettled(find: Finder, name: string)
    requires IsTagName(name) && forall s :: find(s) == MatchOpen(name, s)
    ensures SettledAtBracket(find)
  {
    forall u, v | '>' in u ensures SettledBy(find, u, v) {
      OpenIsSettled(name, u, v);
    }
  }

  lemma FoundRunOn(find: Finder, name: string)
    requires IsTagName(name) && forall s :: find(s) == MatchOpen(name, s)
    ensures RunsOnOverTails(find)
  {
    forall u, w | IsTail(w) ensures RunsOn(find, u, w) {
      OpenRunsOn(name, u, w);
    }
  }

  lemma FindsWhatOpenMatches(find: Finder, name: string)
    requires IsTagName(name) && forall s :: find(s) == MatchOpen(name, s)
    ensures FindsOpenings(find)
  {
    FoundAreBracketed(find, name);
    FoundAreSettled(find, name);
    FoundRunOn(find, name);
  }

  // ------------------------------------------------------------------ what is left open

  /** The text ends in an opening tag without its closing bracket. */
  predicate EndsOpen(name: string, t: string) {
    exists i :: 0 <= i < |t| && OpensAt(name, t, i)
  }

  predicate OpensAt(name: string, t: string, i: nat)
    requires i <= |t|
  {
    '>' !in t[i..] && MatchOpen(name, t[i..] + "\n>") > 0
  }

  lemma {:induction false} LeftOpenAt(find: Finder, t: string)
    requires FindsOpenings(find)
    ensures LeftOpen(find, t) > 0 <==> exists i :: 0 <= i < |t| && find(t[i..] + "\n>") > 0
  {
    if t == "" {
      CountNoBracket(find, "" + "\n>");
    } else {
      LeftOpenAt(find, t[1..]);
      CountStep(find, t, "\n>");
      assert t[0..] == t;
      if i :| 0 <= i < |t[1..]| && find(t[1..][i..] + "\n>") > 0 {
        assert t[1..][i..] == t[i + 1..];
      }
      if i :| 0 < i < |t| && find(t[i..] + "\n>") > 0 {
        assert t[1..][i - 1..] == t[i..];
      }
    }
  }

  lemma OpensWhereFound(find: Finder, name: string, t: string, i: nat)
    requires IsTagName(name) && (forall s :: find(s) == MatchOpen(name, s)) && i <= |t| && find(t[i..]) == 0
    ensures OpensAt(name, t, i) <==> find(t[i..] + "\n>") > 0
  {
    if '>' in t[i..] {
      OpenIsSettled(name, t[i..], "\n>");
    }
  }

  /** A text without a whole opening tag leaves one open exactly when it ends in the beginning of one. */
  lemma LeftOpenIff(find: Finder, name: string, t: string)
    requires IsTagName(name) && (forall s :: find(s) == MatchOpen(name, s)) && NoMatch(find, t)
    ensures LeftOpen(find, t) > 0 <==> EndsOpen(name, t)
  {
    FindsWhatOpenMatches(find, name);
    LeftOpenAt(find, t);
    NoMatchAnywhere(find, t);
    forall i | 0 <= i < |t| ensures OpensAt(name, t, i) <==> find(t[i..] + "\n>") > 0 {
      OpensWhereFound(find, name, t, i);
    }
  }
}
