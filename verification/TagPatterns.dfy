/**
 The reserved-tag patterns: a matcher for them, the language it decides, and
 what rewriting every match away leaves behind.

 A text is a sequence of Unicode scalar values. Letters match as Go's `(?i)`
 folds them, which lets U+017F stand for an `s` and U+212A for a `k`.
 */
module TagPatterns {

  /** `Open` is `<\s*name\b[^>]*>` and `Close` is `</\s*name\s*>`. */
  datatype Pattern = Open(name: string) | Close(name: string)

  /** A tag name as the patterns spell it. */
  predicate IsTagName(name: string) {
    && name != "" && name[0] == 'u'
    && forall i :: 0 <= i < |name| ==> 'a' <= name[i] <= 'z' || name[i] == '_'
  }

  /** `\s` of Go's regular expressions. */
  predicate IsSpace(c: char) {
    c == '\t' || c == '\n' || c == '\U{000C}' || c == '\r' || c == ' '
  }

  /** A character of `\w`, between which and any other `\b` lies. */
  predicate IsWord(c: char) {
    'a' <= c <= 'z' || 'A' <= c <= 'Z' || '0' <= c <= '9' || c == '_'
  }

  /** Does `c` match the pattern's lower-case character `p`? */
  predicate Folds(c: char, p: char) {
    || c == p
    || ('a' <= p <= 'z' && c as int == p as int - 32)
    || (p == 's' && c == '\U{017F}')
    || (p == 'k' && c == '\U{212A}')
  }

  predicate StartsWithName(s: string, name: string) {
    |s| >= |name| && forall i :: 0 <= i < |name| ==> Folds(s[i], name[i])
  }

  /** The number of spaces that `s` begins with. */
  function Spaces(s: string): (k: nat)
    ensures k <= |s|
    ensures forall i :: 0 <= i < k ==> IsSpace(s[i])
    ensures k < |s| ==> !IsSpace(s[k])
  {
    if s == "" || !IsSpace(s[0]) then 0 else 1 + Spaces(s[1..])
  }

  /** The number of characters of `s` before its first `c`. */
  function Before(s: string, c: char): (k: nat)
    ensures k <= |s|
    ensures c !in s[..k]
    ensures k < |s| ==> s[k] == c
  {
    if s == "" || s[0] == c then 0 else 1 + Before(s[1..], c)
  }

  /** The length of the match at the front of `s`, or 0 when there is none. */
  function Match(p: Pattern, s: string): (len: nat)
    ensures len <= |s|
  {
    match p
    case Open(n) => MatchOpen(n, s)
    case Close(n) => MatchClose(n, s)
  }

  function MatchOpen(name: string, s: string): (len: nat)
    ensures len <= |s|
  {
    if s == "" || s[0] != '<' then 0
    else
      var from := 1 + Spaces(s[1..]);
      var to := from + |name|;
      if !StartsWithName(s[from..], name) || to == |s| || IsWord(s[to - 1]) == IsWord(s[to]) then 0
      else
        var end := to + Before(s[to..], '>');
        if end == |s| then 0 else end + 1
  }

  function MatchClose(name: string, s: string): (len: nat)
    ensures len <= |s|
  {
    if |s| < 2 || s[0] != '<' || s[1] != '/' then 0
    else
      var from := 2 + Spaces(s[2..]);
      var to := from + |name|;
      if !StartsWithName(s[from..], name) then 0
      else
        var end := to + Spaces(s[to..]);
        if end == |s| || s[end] != '>' then 0 else end + 1
  }

  // ------------------------------------------------- the language of a pattern

  predicate AllSpaces(s: string) {
    forall i :: 0 <= i < |s| ==> IsSpace(s[i])
  }

  predicate IsName(s: string, name: string) {
    |s| == |name| && StartsWithName(s, name)
  }

  /** `"<" + gap + word + rest + ">"` is cut as the pattern for an opening tag demands. */
  predicate IsOpenTag(name: string, gap: string, word: string, rest: string) {
    && AllSpaces(gap) && IsName(word, name) && '>' !in rest
    && word != "" && IsWord(word[|word| - 1]) != IsWord((rest + ">")[0])
  }

  /** `"</" + gap + word + rest + ">"` is cut as the pattern for a closing tag demands. */
  predicate IsCloseTag(name: string, gap: string, word: string, rest: string) {
    AllSpaces(gap) && IsName(word, name) && AllSpaces(rest)
  }

  /** `t` is a tag of the pattern, cut into the pieces of the regular expression. */
  predicate IsTag(p: Pattern, t: string, gap: string, word: string, rest: string) {
    if p.Open? then IsOpenTag(p.name, gap, word, rest) && t == "<" + gap + word + rest + ">"
    else IsCloseTag(p.name, gap, word, rest) && t == "</" + gap + word + rest + ">"
  }

  ghost predicate InLanguage(p: Pattern, t: string) {
    exists gap, word, rest :: IsTag(p, t, gap, word, rest)
  }

  lemma {:induction false} SpacesOf(gap: string, s: string)
    requires AllSpaces(gap) && (s == "" || !IsSpace(s[0]))
    ensures Spaces(gap + s) == |gap|
  {
    if gap != "" {
      SpacesOf(gap[1..], s);
      assert (gap + s)[1..] == gap[1..] + s;
    } else {
      assert gap + s == s;
    }
  }

  lemma {:induction false} BeforeOf(rest: string, c: char, s: string)
    requires c !in rest && s != "" && s[0] == c
    ensures Before(rest + s, c) == |rest|
  {
    if rest != "" {
      BeforeOf(rest[1..], c, s);
      assert (rest + s)[1..] == rest[1..] + s;
    } else {
      assert rest + s == s;
    }
  }

  lemma NameIsNoSpace(word: string, name: string)
    requires IsTagName(name) && IsName(word, name)
    ensures word != "" && !IsSpace(word[0])
  {
    assert Folds(word[0], name[0]);
  }

  /** What is left of a text of four pieces after each of the first three. */
  lemma Cuts(a: string, b: string, c: string, d: string)
    ensures var u := a + b + c + d;
      && u[|a|..] == b + (c + d)
      && u[|a| + |b|..] == c + d
      && u[|a| + |b| + |c|..] == d
      && (c != "" ==> u[|a| + |b| + |c| - 1] == c[|c| - 1])
  {
  }

  lemma Regroup(a: string, b: string, c: string, d: string)
    ensures a + b + c + d == a + (b + (c + d))
  {
  }

  lemma OpenTagIsMatched(name: string, gap: string, word: string, rest: string, s: string)
    requires IsTagName(name) && IsOpenTag(name, gap, word, rest)
    ensures MatchOpen(name, "<" + gap + word + (rest + (">" + s))) == |gap| + |word| + |rest| + 2
  {
    var tail := ">" + s;
    var u := "<" + gap + word + (rest + tail);
    Cuts("<", gap, word, rest + tail);
    NameIsNoSpace(word, name);
    SpacesOf(gap, word + (rest + tail));
    assert StartsWithName(u[1 + |gap|..], name);
    BeforeOf(rest, '>', tail);
    var to := 1 + |gap| + |word|;
    assert u[to] == (rest + tail)[0] == (rest + ">")[0];
  }

  lemma CloseTagIsMatched(name: string, gap: string, word: string, rest: string, s: string)
    requires IsTagName(name) && IsCloseTag(name, gap, word, rest)
    ensures MatchClose(name, "</" + gap + word + (rest + (">" + s))) == |gap| + |word| + |rest| + 3
  {
    var tail := ">" + s;
    var u := "</" + gap + word + (rest + tail);
    Cuts("</", gap, word, rest + tail);
    NameIsNoSpace(word, name);
    SpacesOf(gap, word + (rest + tail));
    assert StartsWithName(u[2 + |gap|..], name);
    SpacesOf(rest, tail);
    var to := 2 + |gap| + |word|;
    var v := rest + tail;
    assert v[|rest|] == '>' && |v| > |rest|;
    assert u[to..] == v;
    assert u[to + |rest|] == '>';
  }

  lemma Pieces(s: string, a: nat, b: nat, c: nat, d: nat)
    requires a <= b <= c <= d <= |s|
    ensures s[..d] == s[..a] + s[a..b] + s[b..c] + s[c..d]
  {
  }

  lemma Part<T>(s: seq<T>, a: nat, k: nat)
    requires a + k <= |s|
    ensures s[a..a + k] == s[a..][..k]
  {
  }

  lemma AtEnd(s: string, end: nat)
    requires end < |s| && s[end] == '>'
    ensures s[..end + 1] == s[..end] + ">"
  {
  }

  lemma OpenMatchIsTag(name: string, s: string) returns (gap: string, word: string, rest: string)
    requires name != "" && MatchOpen(name, s) > 0
    ensures IsTag(Open(name), s[..MatchOpen(name, s)], gap, word, rest)
  {
    var from := 1 + Spaces(s[1..]);
    var to := from + |name|;
    var end := to + Before(s[to..], '>');
    gap, word, rest := s[1..from], s[from..to], s[to..end];
    Part(s, 1, from - 1);
    Part(s, from, |name|);
    Part(s, to, end - to);
    Pieces(s, 1, from, to, end);
    AtEnd(s, end);
    assert s[..1] == "<";
    assert (rest + ">")[0] == s[to];
  }

  lemma CloseMatchIsTag(name: string, s: string) returns (gap: string, word: string, rest: string)
    requires MatchClose(name, s) > 0
    ensures IsTag(Close(name), s[..MatchClose(name, s)], gap, word, rest)
  {
    var from := 2 + Spaces(s[2..]);
    var to := from + |name|;
    var end := to + Spaces(s[to..]);
    gap, word, rest := s[2..from], s[from..to], s[to..end];
    Part(s, 2, from - 2);
    Part(s, from, |name|);
    Part(s, to, end - to);
    Pieces(s, 2, from, to, end);
    AtEnd(s, end);
    assert s[..2] == "</";
  }

  /**
   The matcher decides the regular expression: it reports a match of length `len`
   exactly when the first `len` characters are in the language, so at most one
   length ever is, and leftmost-first and leftmost-longest agree.
   */
  lemma MatcherDecidesLanguage(p: Pattern, s: string, len: nat)
    requires IsTagName(p.name) && 0 < len <= |s|
    ensures Match(p, s) == len <==> InLanguage(p, s[..len])
  {
    if Match(p, s) == len {
      var gap, word, rest := MatchedTag(p, s);
    }
    if InLanguage(p, s[..len]) {
      LanguageIsMatched(p, s, len);
    }
  }

  lemma LanguageIsMatched(p: Pattern, s: string, len: nat)
    requires IsTagName(p.name) && len <= |s| && InLanguage(p, s[..len])
    ensures Match(p, s) == len
  {
    var gap, word, rest :| IsTag(p, s[..len], gap, word, rest);
    TagIsMatched(p, s[..len], gap, word, rest, s[len..]);
    assert s[..len] + s[len..] == s;
  }

  lemma MatchedTag(p: Pattern, s: string) returns (gap: string, word: string, rest: string)
    requires p.name != "" && Match(p, s) > 0
    ensures IsTag(p, s[..Match(p, s)], gap, word, rest)
  {
    match p
    case Open(n) => gap, word, rest := OpenMatchIsTag(n, s);
    case Close(n) => gap, word, rest := CloseMatchIsTag(n, s);
  }

  lemma TagIsMatched(p: Pattern, t: string, gap: string, word: string, rest: string, s: string)
    requires IsTagName(p.name) && IsTag(p, t, gap, word, rest)
    ensures Match(p, t + s) == |t|
  {
    match p {
      case Open(n) =>
        OpenTagIsMatched(n, gap, word, rest, s);
        Regroup("<" + gap + word, rest, ">", s);
      case Close(n) =>
        CloseTagIsMatched(n, gap, word, rest, s);
        Regroup("</" + gap + word, rest, ">", s);
    }
  }
}
