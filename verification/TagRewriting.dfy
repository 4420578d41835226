/** Rewriting every match of the reserved-tag patterns, one pattern after another. */
module TagRewriting {
  import opened Replacing
  import opened TagPatterns

  const ARTICLE: string := "untrusted_article"
  const CODE_BLOCK: string := "untrusted_code_block"

  predicate Reserved(p: Pattern) {
    p.name == ARTICLE || p.name == CODE_BLOCK
  }

  /** Group 1 of the pattern for closing tags, in the spelling of the text. */
  function Captured(name: string, tag: string): string
    requires 0 < MatchClose(name, tag)
  {
    tag[2 + Spaces(tag[2..])..][..|name|]
  }

  function Lead(p: Pattern): string {
    if p.Open? then "<" else "</"
  }

  /** The name that a replacement shows: the text's own spelling for a closing tag. */
  function Shown(p: Pattern, tag: string): string
    requires 0 < Match(p, tag)
  {
    match p
    case Open(n) => n
    case Close(n) => Captured(n, tag)
  }

  function Replacement(p: Pattern, tag: string): string
    requires 0 < Match(p, tag)
  {
    Lead(p) + Shown(p, tag) + "_>"
  }

  lemma CutOut(gap: string, word: string, tail: string)
    ensures ("</" + gap + word + tail)[2..] == gap + (word + tail)
    ensures ("</" + gap + word + tail)[2 + |gap|..][..|word|] == word
  {
    assert "</" + gap + word + tail == "</" + (gap + (word + tail));
  }

  lemma CapturedIsWord(name: string, tag: string, gap: string, word: string, rest: string, more: string)
    requires IsTagName(name) && IsCloseTag(name, gap, word, rest) && tag == "</" + gap + word + (rest + (">" + more))
    ensures 0 < MatchClose(name, tag) && Captured(name, tag) == word
  {
    CloseTagIsMatched(name, gap, word, rest, more);
    NameIsNoSpace(word, name);
    var tail := rest + (">" + more);
    SpacesOf(gap, word + tail);
    CutOut(gap, word, tail);
  }

  lemma ClosingReplacementSpells(name: string, tag: string, gap: string, word: string, rest: string, more: string)
    requires IsTagName(name) && IsTag(Close(name), tag, gap, word, rest)
    ensures 0 < Match(Close(name), tag + more)
    ensures Replacement(Close(name), tag + more) == "</" + word + "_>"
  {
    Regroup("</" + gap + word, rest, ">", more);
    CapturedIsWord(name, tag + more, gap, word, rest, more);
  }

  /** The replacement of an opening tag is the name in the pattern's spelling, that of a closing tag in the text's own. */
  lemma ReplacementSpells(p: Pattern, tag: string, gap: string, word: string, rest: string, more: string)
    requires IsTagName(p.name) && IsTag(p, tag, gap, word, rest)
    ensures 0 < Match(p, tag + more)
    ensures Replacement(p, tag + more) == if p.Open? then "<" + p.name + "_>" else "</" + word + "_>"
  {
    match p
    case Open(_) => TagIsMatched(p, tag, gap, word, rest, more);
    case Close(name) => ClosingReplacementSpells(name, tag, gap, word, rest, more);
  }

  function Find(p: Pattern): (f: Finder)
    ensures Sound(f)
  {
    s => Match(p, s)
  }

  function Put(p: Pattern): Putter {
    s => if Match(p, s) > 0 then Replacement(p, s) else ""
  }

  /** One pass: every match of the pattern replaced. */
  function Rewrite(p: Pattern, s: string): string {
    Replaced(Find(p), Put(p), s)
  }

  /** The passes in the order in which they are made. */
  const PASSES: seq<Pattern> := [Open(ARTICLE), Open(CODE_BLOCK), Close(ARTICLE), Close(CODE_BLOCK)]

  function RewriteAll(ps: seq<Pattern>, s: string): string {
    if ps == [] then s else RewriteAll(ps[1..], Rewrite(ps[0], s))
  }

  function Neutralize(s: string): string {
    RewriteAll(PASSES, s)
  }

  method NeutralizeReservedTags(s: string) returns (r: string)
    ensures r == Neutralize(s)
  {
    r := s;
    for i := 0 to |PASSES|
      invariant RewriteAll(PASSES[i..], r) == Neutralize(s)
    {
      assert PASSES[i..][1..] == PASSES[i + 1..];
      r := ReplaceAll(Find(PASSES[i]), Put(PASSES[i]), r);
    }
  }

  /** The pattern matches nowhere in `s`. */
  predicate Clean(p: Pattern, s: string) {
    NoMatch(Find(p), s)
  }

  lemma CleanStep(p: Pattern, s: string)
    requires s != ""
    ensures Clean(p, s) <==> Match(p, s) == 0 && Clean(p, s[1..])
  {
  }

  lemma RewriteStep(p: Pattern, s: string)
    requires s != ""
    ensures Rewrite(p, s) ==
            if Match(p, s) == 0 then [s[0]] + Rewrite(p, s[1..])
            else Replacement(p, s) + Rewrite(p, s[Match(p, s)..])
  {
  }

  // ------------------------------------------------------ where a match can lie

  /** Two continuations that look alike to a match that began before them. */
  predicate Alike(v: string, w: string) {
    && (v == "" <==> w == "")
    && (v != "" ==> v[0] == '<' && w[0] == '<')
    && ('>' in v <==> '>' in w)
  }

  /** Where the tag name lies in a match at the front of `s`. */
  predicate NameAt(p: Pattern, s: string, from: nat) {
    var lead := if p.Open? then 1 else 2;
    && lead <= from && from + |p.name| < |s|
    && s[0] == '<' && (p.Close? ==> s[1] == '/')
    && (forall i :: lead <= i < from ==> IsSpace(s[i]))
    && (forall i :: 0 <= i < |p.name| ==> Folds(s[from + i], p.name[i]))
  }

  predicate SpacesIn(s: string, i: nat, j: nat)
    requires j <= |s|
  {
    forall k :: i <= k < j ==> IsSpace(s[k])
  }

  /** From `to` on, `s` ends the tag at `end`. */
  predicate EndsAt(p: Pattern, s: string, to: nat, end: nat) {
    && 0 < to <= end < |s| && s[end] == '>'
    && if p.Open? then IsWord(s[to - 1]) != IsWord(s[to]) else SpacesIn(s, to, end)
  }

  lemma {:induction false} SpacesUpTo(s: string, i: nat, k: nat)
    requires i <= k < |s| && !IsSpace(s[k]) && SpacesIn(s, i, k)
    ensures Spaces(s[i..]) == k - i
    decreases k - i
  {
    if i < k {
      SpacesUpTo(s, i + 1, k);
      assert s[i..][1..] == s[i + 1..];
    }
  }

  lemma SpacesFrom(s: string, i: nat)
    requires i <= |s|
    ensures SpacesIn(s, i, i + Spaces(s[i..]))
  {
    forall k | i <= k < i + Spaces(s[i..]) ensures IsSpace(s[k]) {
      assert s[i..][k - i] == s[k];
    }
  }

  lemma {:induction false} FoundBefore(s: string, i: nat, k: nat)
    requires i <= k < |s| && s[k] == '>'
    ensures Before(s[i..], '>') < |s| - i
    decreases k - i
  {
    if i < k {
      FoundBefore(s, i + 1, k);
      assert s[i..][1..] == s[i + 1..];
    }
  }

  lemma OpenHasPosition(name: string, s: string) returns (from: nat, end: nat)
    requires MatchOpen(name, s) > 0
    ensures NameAt(Open(name), s, from) && EndsAt(Open(name), s, from + |name|, end)
  {
    from := 1 + Spaces(s[1..]);
    SpacesFrom(s, 1);
    var to := from + |name|;
    NameStarts(s, from, name);
    end := to + Before(s[to..], '>');
    assert s[to..][end - to] == s[end];
  }

  lemma CloseHasPosition(name: string, s: string) returns (from: nat, end: nat)
    requires MatchClose(name, s) > 0
    ensures NameAt(Close(name), s, from) && EndsAt(Close(name), s, from + |name|, end)
  {
    from := 2 + Spaces(s[2..]);
    SpacesFrom(s, 2);
    var to := from + |name|;
    NameStarts(s, from, name);
    end := to + Spaces(s[to..]);
    SpacesFrom(s, to);
  }

  lemma MatchHasPosition(p: Pattern, s: string) returns (from: nat, end: nat)
    requires Match(p, s) > 0
    ensures NameAt(p, s, from) && EndsAt(p, s, from + |p.name|, end)
  {
    match p
    case Open(n) => from, end := OpenHasPosition(n, s);
    case Close(n) => from, end := CloseHasPosition(n, s);
  }

  lemma OpenIsMatched(name: string, s: string, from: nat, end: nat)
    requires IsTagName(name) && NameAt(Open(name), s, from) && EndsAt(Open(name), s, from + |name|, end)
    ensures MatchOpen(name, s) > 0
  {
    assert Folds(s[from + 0], name[0]);
    SpacesUpTo(s, 1, from);
    NameStarts(s, from, name);
    FoundBefore(s, from + |name|, end);
  }

  lemma CloseMatches(name: string, s: string, from: nat, to: nat, end: nat)
    requires |s| >= 2 && s[0] == '<' && s[1] == '/' && from == 2 + Spaces(s[2..]) && StartsWithName(s[from..], name)
    requires to == from + |name| && end == to + Spaces(s[to..]) < |s| && s[end] == '>'
    ensures MatchClose(name, s) > 0
  {
  }

  lemma CloseIsMatched(name: string, s: string, from: nat, end: nat)
    requires IsTagName(name) && NameAt(Close(name), s, from) && EndsAt(Close(name), s, from + |name|, end)
    ensures MatchClose(name, s) > 0
  {
    assert Folds(s[from + 0], name[0]);
    SpacesUpTo(s, 2, from);
    NameStarts(s, from, name);
    SpacesUpTo(s, from + |name|, end);
    CloseMatches(name, s, from, from + |name|, end);
  }

  lemma PositionHasMatch(p: Pattern, s: string, from: nat, end: nat)
    requires IsTagName(p.name) && NameAt(p, s, from) && EndsAt(p, s, from + |p.name|, end)
    ensures Match(p, s) > 0
  {
    match p
    case Open(n) => OpenIsMatched(n, s, from, end);
    case Close(n) => CloseIsMatched(n, s, from, end);
  }

  lemma NameStarts(s: string, from: nat, name: string)
    requires from + |name| <= |s|
    ensures StartsWithName(s[from..], name) <==> forall i :: 0 <= i < |name| ==> Folds(s[from + i], name[i])
  {
    assert forall i :: 0 <= i < |name| ==> s[from..][i] == s[from + i];
  }

  /** A match that began before `v` begins before `w` too, if the two look alike. */
  lemma MatchSurvives(p: Pattern, u: string, v: string, w: string)
    requires IsTagName(p.name) && '<' !in u && Alike(v, w)
    requires Match(p, "<" + u + v) > 0
    ensures Match(p, "<" + u + w) > 0
  {
    var s, s' := "<" + u + v, "<" + u + w;
    var from, end := MatchHasPosition(p, s);
    NameHasNoAngle(p, s, from);
    var end' := PositionSurvives(p, u, v, w, s, s', from, end);
    PositionHasMatch(p, s', from, end');
  }

  lemma PositionSurvives(p: Pattern, u: string, v: string, w: string, s: string, s': string, from: nat, end: nat)
      returns (end': nat)
    requires '<' !in u && Alike(v, w) && s == "<" + u + v && s' == "<" + u + w
    requires NameAt(p, s, from) && EndsAt(p, s, from + |p.name|, end)
    requires forall i :: 1 <= i < from + |p.name| ==> s[i] != '<'
    ensures NameAt(p, s', from) && EndsAt(p, s', from + |p.name|, end')
  {
    var n := 1 + |u|;
    assert forall i :: 0 <= i < n ==> s[i] == s'[i];
    if end >= n {
      assert s[end] == v[end - n] && s[n] == v[0];
      end' := n + Before(w, '>');
      assert s'[n] == w[0] && s'[end'] == w[end' - n];
    } else {
      end' := end;
    }
  }

  /** Before the end of the name a match has no second angle bracket. */
  lemma NameHasNoAngle(p: Pattern, s: string, from: nat)
    requires IsTagName(p.name) && NameAt(p, s, from)
    ensures forall i :: 1 <= i < from + |p.name| ==> s[i] != '<'
  {
    forall i | from <= i < from + |p.name| ensures s[i] != '<' {
      assert Folds(s[from + (i - from)], p.name[i - from]);
    }
  }

  // --------------------------------------------------- what a pass leaves behind

  lemma ShownHasNoAngle(q: Pattern, s: string)
    requires IsTagName(q.name) && Match(q, s) > 0
    ensures '<' !in Shown(q, s)
  {
    var name := Shown(q, s);
    if q.Close? {
      CapturedFolds(q.name, s);
      forall i | 0 <= i < |name| ensures name[i] != '<' {
        assert Folds(name[i], q.name[i]);
      }
    }
  }

  /** A replacement is one angle bracket, then text without another, then `>`. */
  lemma ReplacementShape(q: Pattern, s: string)
    requires IsTagName(q.name) && Match(q, s) > 0
    ensures var r := Replacement(q, s);
      && |r| > 1 && r[0] == '<' && '<' !in r[1..] && r[|r| - 1] == '>'
  {
    ShownHasNoAngle(q, s);
    Sandwich(Lead(q), Shown(q, s), "_>");
  }

  lemma Sandwich(a: string, b: string, c: string)
    requires a != "" && c != "" && '<' !in a[1..] && '<' !in b && '<' !in c
    ensures var r := a + b + c;
      && r[0] == a[0] && '<' !in r[1..] && r[|r| - 1] == c[|c| - 1]
  {
    assert (a + b + c)[1..] == a[1..] + b + c;
  }

  lemma CapturedFolds(name: string, s: string)
    requires MatchClose(name, s) > 0
    ensures IsName(Captured(name, s), name)
  {
    var from := 2 + Spaces(s[2..]);
    assert s[2..][Spaces(s[2..])..] == s[from..];
  }

  /** A match contains a `>`, and so does what replaces it. */
  lemma {:induction false} RewriteKeepsGreater(q: Pattern, s: string)
    requires IsTagName(q.name)
    ensures '>' in Rewrite(q, s) <==> '>' in s
  {
    if s != "" {
      var len := Match(q, s);
      RewriteStep(q, s);
      if len == 0 {
        RewriteKeepsGreater(q, s[1..]);
        assert s == [s[0]] + s[1..];
      } else {
        var from, end := MatchHasPosition(q, s);
        assert s[end] == '>';
        ReplacementShape(q, s);
        var r := Replacement(q, s);
        assert Rewrite(q, s)[|r| - 1] == '>';
      }
    }
  }

  lemma NoMatchElsewhere(p: Pattern, s: string)
    requires s == "" || s[0] != '<'
    ensures Match(p, s) == 0
  {
  }

  /** Text without an angle bracket is copied. */
  lemma RewriteSkips(q: Pattern, u: string, v: string)
    requires '<' !in u
    ensures Rewrite(q, u + v) == u + Rewrite(q, v)
  {
    forall j | 0 <= j < |u| ensures Find(q)((u + v)[j..]) == 0 {
      assert (u + v)[j..][0] == u[j];
    }
    CopiedUpTo(Find(q), Put(q), u + v, |u|);
    assert (u + v)[..|u|] == u && (u + v)[|u|..] == v;
  }

  /** What a pass makes of text that begins at an angle bracket looks like that text. */
  lemma RewrittenIsAlike(q: Pattern, v: string)
    requires IsTagName(q.name) && (v == "" || v[0] == '<')
    ensures Alike(v, Rewrite(q, v))
  {
    RewriteKeepsGreater(q, v);
    if v != "" {
      RewriteStep(q, v);
      if Match(q, v) > 0 {
        ReplacementShape(q, v);
      }
    }
  }

  /** A pass over what follows never completes a match at an angle bracket it keeps. */
  lemma NoNewMatch(p: Pattern, q: Pattern, s: string)
    requires IsTagName(p.name) && IsTagName(q.name)
    requires s != "" && s[0] == '<' && Match(p, s) == 0
    ensures Match(p, [s[0]] + Rewrite(q, s[1..])) == 0
  {
    var k := Before(s[1..], '<');
    var u, v := s[1..][..k], s[1..][k..];
    assert s[1..] == u + v;
    assert s == "<" + u + v;
    RewriteSkips(q, u, v);
    RewrittenIsAlike(q, v);
    SameFrontNoMatch(p, u, v, Rewrite(q, v));
  }

  lemma SameFrontNoMatch(p: Pattern, u: string, v: string, w: string)
    requires IsTagName(p.name) && '<' !in u && Alike(v, w)
    requires Match(p, "<" + u + v) == 0
    ensures Match(p, "<" + (u + w)) == 0
  {
    Associate("<", u, w);
    if Match(p, "<" + u + w) > 0 {
      MatchSurvives(p, u, w, v);
    }
  }

  lemma ShownIsName(q: Pattern, s: string)
    requires Reserved(q) && Match(q, s) > 0
    ensures IsName(Shown(q, s), q.name)
    ensures q.Open? ==> IsWord(Shown(q, s)[|q.name| - 1])
  {
    if q.Close? {
      CapturedFolds(q.name, s);
    }
  }

  /** Two reserved names that share a spelling are the same. */
  lemma OneNameOnly(a: string, b: string, s: string)
    requires (a == ARTICLE || a == CODE_BLOCK) && (b == ARTICLE || b == CODE_BLOCK)
    requires |s| > 10 && Folds(s[10], a[10]) && Folds(s[10], b[10])
    ensures a == b
  {
  }

  /** `r` begins like a replacement by pattern `q` that shows `name`. */
  predicate BeginsLike(q: Pattern, name: string, r: string) {
    var lead := if q.Open? then 1 else 2;
    && lead + |name| < |r|
    && (q.Close? ==> r[1] == '/')
    && (forall i :: 0 <= i < |name| ==> r[lead + i] == name[i])
    && r[lead + |name|] == '_'
  }

  lemma ReplacementBegins(q: Pattern, s: string, t: string)
    requires Match(q, s) > 0
    ensures BeginsLike(q, Shown(q, s), Replacement(q, s) + t)
  {
  }

  /** No reserved pattern matches at a replacement, whatever follows it. */
  lemma ReplacementNeverMatches(p: Pattern, q: Pattern, s: string, t: string)
    requires Reserved(p) && Reserved(q) && Match(q, s) > 0
    ensures Match(p, Replacement(q, s) + t) == 0
  {
    ShownIsName(q, s);
    ReplacementBegins(q, s, t);
    NoMatchWhereNameShown(p, q, Shown(q, s), Replacement(q, s) + t);
  }

  lemma NoMatchWhereNameShown(p: Pattern, q: Pattern, name: string, r: string)
    requires Reserved(p) && Reserved(q)
    requires IsName(name, q.name) && (q.Open? ==> IsWord(name[|q.name| - 1]))
    requires BeginsLike(q, name, r)
    ensures Match(p, r) == 0
  {
    if Match(p, r) > 0 {
      var from, end := MatchHasPosition(p, r);
      if p.Open? == q.Open? {
        NameIsClosedOff(p, q, name, r, from, end);
      } else {
        ReservedNamesAreTagNames(p);
        ReservedNamesAreTagNames(q);
        KindsDiffer(p, q, name, r, from);
      }
    }
  }

  lemma KindsDiffer(p: Pattern, q: Pattern, name: string, r: string, from: nat)
    requires IsTagName(p.name) && IsTagName(q.name) && p.Open? != q.Open?
    requires IsName(name, q.name) && BeginsLike(q, name, r)
    ensures !NameAt(p, r, from)
  {
    assert Folds(name[0], q.name[0]);
    assert q.Open? ==> r[1 + 0] == name[0];
    assert p.Open? && NameAt(p, r, from) ==> Folds(r[from + 0], p.name[0]);
  }

  /** The name of a match at a replacement is the name that the replacement shows. */
  lemma NameIsShown(p: Pattern, q: Pattern, name: string, r: string, from: nat)
    requires Reserved(p) && Reserved(q) && p.Open? == q.Open?
    requires IsName(name, q.name) && BeginsLike(q, name, r) && NameAt(p, r, from)
    ensures from == (if p.Open? then 1 else 2) && p.name == q.name
  {
    var lead := if p.Open? then 1 else 2;
    assert Folds(name[0], q.name[0]) && r[lead + 0] == name[0];
    assert from == lead;
    assert Folds(r[lead + 10], p.name[10]) && Folds(name[10], q.name[10]) && r[lead + 10] == name[10];
    OneNameOnly(p.name, q.name, name);
  }

  /** The underscore keeps the shown name from ending a tag. */
  lemma NameIsClosedOff(p: Pattern, q: Pattern, name: string, r: string, from: nat, end: nat)
    requires Reserved(p) && Reserved(q) && p.Open? == q.Open?
    requires IsName(name, q.name) && (q.Open? ==> IsWord(name[|q.name| - 1]))
    requires BeginsLike(q, name, r) && NameAt(p, r, from)
    ensures !EndsAt(p, r, from + |p.name|, end)
  {
    NameIsShown(p, q, name, r, from);
    var to := from + |name|;
    assert r[from + (|name| - 1)] == name[|name| - 1] && r[to] == '_';
  }

  lemma ReservedNamesAreTagNames(p: Pattern)
    requires Reserved(p)
    ensures IsTagName(p.name)
  {
  }

  lemma {:induction false} CleanBehind(p: Pattern, x: string, t: string)
    requires '<' !in x && Clean(p, t)
    ensures Clean(p, x + t)
  {
    if x == "" {
      assert x + t == t;
    } else {
      CleanBehind(p, x[1..], t);
      assert (x + t)[1..] == x[1..] + t;
      CleanStep(p, x + t);
    }
  }

  lemma ReplacedStaysClean(p: Pattern, q: Pattern, s: string, t: string)
    requires Reserved(p) && Reserved(q) && Match(q, s) > 0 && Clean(p, t)
    ensures Clean(p, Replacement(q, s) + t)
  {
    ReservedNamesAreTagNames(q);
    ReplacementNeverMatches(p, q, s, t);
    ReplacementShape(q, s);
    OneAngleStaysClean(p, Replacement(q, s), t);
  }

  lemma OneAngleStaysClean(p: Pattern, r: string, t: string)
    requires r != "" && '<' !in r[1..] && Match(p, r + t) == 0 && Clean(p, t)
    ensures Clean(p, r + t)
  {
    CleanBehind(p, r[1..], t);
    assert (r + t)[1..] == r[1..] + t;
    CleanStep(p, r + t);
  }

  lemma KeptStaysClean(p: Pattern, q: Pattern, s: string)
    requires Reserved(p) && Reserved(q) && s != "" && Match(p, s) == 0
    requires Clean(p, Rewrite(q, s[1..]))
    ensures Clean(p, [s[0]] + Rewrite(q, s[1..]))
  {
    var t := Rewrite(q, s[1..]);
    var r := [s[0]] + t;
    assert r[1..] == t;
    CleanStep(p, r);
    if s[0] == '<' {
      ReservedNamesAreTagNames(p);
      ReservedNamesAreTagNames(q);
      NoNewMatch(p, q, s);
    } else {
      NoMatchElsewhere(p, r);
    }
  }

  lemma KeptStep(p: Pattern, q: Pattern, s: string)
    requires Reserved(p) && Reserved(q) && s != "" && Match(p, s) == 0 && Match(q, s) == 0
    requires Clean(p, Rewrite(q, s[1..]))
    ensures Clean(p, Rewrite(q, s))
  {
    RewriteStep(q, s);
    KeptStaysClean(p, q, s);
  }

  lemma ReplacedStep(p: Pattern, q: Pattern, s: string)
    requires Reserved(p) && Reserved(q) && Match(q, s) > 0
    requires Clean(p, Rewrite(q, s[Match(q, s)..]))
    ensures Clean(p, Rewrite(q, s))
  {
    RewriteStep(q, s);
    ReplacedStaysClean(p, q, s, Rewrite(q, s[Match(q, s)..]));
  }

  /** A pass leaves no match of its own pattern and makes none of a pattern that had none. */
  lemma {:induction false} PassKeepsClean(p: Pattern, q: Pattern, s: string)
    requires Reserved(p) && Reserved(q)
    requires p == q || Clean(p, s)
    ensures Clean(p, Rewrite(q, s))
    decreases |s|
  {
    if s != "" {
      var len := Match(q, s);
      if p != q {
        CleanStep(p, s);
        NoMatchInSuffix(Find(p), s, len);
      }
      if len == 0 {
        PassKeepsClean(p, q, s[1..]);
        KeptStep(p, q, s);
      } else {
        PassKeepsClean(p, q, s[len..]);
        ReplacedStep(p, q, s);
      }
    }
  }

  // ------------------------------------------------------------- all four passes

  predicate CleanOfAll(s: string) {
    forall p :: p in PASSES ==> Clean(p, s)
  }

  lemma {:induction false} PassesKeepClean(p: Pattern, ps: seq<Pattern>, s: string)
    requires Reserved(p) && forall q :: q in ps ==> Reserved(q)
    requires p in ps || Clean(p, s)
    ensures Clean(p, RewriteAll(ps, s))
  {
    if ps != [] {
      var q := ps[0];
      if p == q || Clean(p, s) {
        PassKeepsClean(p, q, s);
      }
      PassesKeepClean(p, ps[1..], Rewrite(q, s));
    }
  }

  /** After the four passes no reserved pattern matches anywhere in the text. */
  lemma NeutralizedIsClean(s: string)
    ensures CleanOfAll(Neutralize(s))
  {
    forall p | p in PASSES ensures Clean(p, Neutralize(s)) {
      PassesKeepClean(p, PASSES, s);
    }
  }

  lemma CleanPass(p: Pattern, s: string)
    requires Clean(p, s)
    ensures Rewrite(p, s) == s
  {
    UnmatchedIsUnchanged(Find(p), Put(p), s);
  }

  lemma {:induction false} CleanPassesThrough(ps: seq<Pattern>, s: string)
    requires forall i :: 0 <= i < |ps| ==> Clean(ps[i], s)
    ensures RewriteAll(ps, s) == s
  {
    if ps != [] {
      CleanPass(ps[0], s);
      CleanPassesThrough(ps[1..], s);
    }
  }

  /** Text is left alone exactly when it holds no reserved tag. */
  lemma UnchangedIffClean(s: string)
    ensures Neutralize(s) == s <==> CleanOfAll(s)
  {
    NeutralizedIsClean(s);
    if CleanOfAll(s) {
      CleanPassesThrough(PASSES, s);
    }
  }

  /** Neutralizing twice is neutralizing once. */
  lemma NeutralizeIsIdempotent(s: string)
    ensures Neutralize(Neutralize(s)) == Neutralize(s)
  {
    NeutralizedIsClean(s);
    UnchangedIffClean(Neutralize(s));
  }
}
