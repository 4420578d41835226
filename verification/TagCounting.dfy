/** Counting the tags in a text that is put together from pieces. */
module TagCounting {
  import opened Replacing
  import opened TagPatterns

  /** A character that can stand between the brackets of a closing tag. */
  predicate Inner(c: char) {
    || c == '/' || c == '_' || IsSpace(c)
    || 'a' <= c <= 'z' || 'A' <= c <= 'Z' || c == '\U{017F}' || c == '\U{212A}'
  }

  predicate IsBracketed(s: string) {
    && |s| > 2 && s[0] == '<' && s[1] == '/' && s[|s| - 1] == '>'
    && forall k :: 0 < k < |s| - 1 ==> Inner(s[k])
  }

  /** What the finder finds is bracketed, and is found in any text that begins with it. */
  ghost predicate FindsTags(find: Finder) {
    && (forall s :: find(s) <= |s|)
    && (forall s :: find(s) > 0 ==> IsBracketed(s[..find(s)]))
    && (forall s, t {:trigger SameFront(find, s, t)} :: SameFront(find, s, t) ==> find(t) == find(s))
  }

  /** `t` begins with the tag that `s` begins with. */
  predicate SameFront(find: Finder, s: string, t: string) {
    0 < find(s) <= |t| && find(s) <= |s| && s[..find(s)] == t[..find(s)]
  }

  /** The number of places in `s` where a tag begins. */
  function Count(find: Finder, s: string): nat {
    if s == "" then 0 else (if find(s) > 0 then 1 else 0) + Count(find, s[1..])
  }

  lemma {:induction false} CountNone(find: Finder, s: string)
    requires NoMatch(find, s)
    ensures Count(find, s) == 0
  {
    if s != "" {
      CountNone(find, s[1..]);
    }
  }

  /** Where two pieces meet so that no tag can lie across: no tag goes on from `a` or into `b`. */
  predicate Apart(a: string, b: string) {
    || a == "" || b == ""
    || (a[|a| - 1] != '<' && !Inner(a[|a| - 1]))
    || (b[0] != '>' && !Inner(b[0]))
  }

  /** What a tag at the front of `s` looks like. */
  lemma Found(find: Finder, s: string)
    requires FindsTags(find)
    ensures var n := find(s);
      && n <= |s|
      && (n > 0 ==> n > 2 && s[0] == '<' && s[1] == '/' && s[n - 1] == '>')
      && (forall k :: 0 < k < n - 1 ==> Inner(s[k]))
  {
    var n := find(s);
    if n > 0 {
      assert IsBracketed(s[..n]);
      assert forall k :: 0 <= k < n ==> s[..n][k] == s[k];
    }
  }

  /** A tag of `a` is found in front of `a + b`, and one that ends within `a` is found in `a`. */
  lemma FoundInFront(find: Finder, a: string, b: string)
    requires FindsTags(find)
    ensures find(a) > 0 ==> find(a + b) > 0
    ensures 0 < find(a + b) <= |a| ==> find(a) > 0
  {
    Found(find, a);
    assert find(a) > 0 ==> SameFront(find, a, a + b);
    assert 0 < find(a + b) <= |a| ==> SameFront(find, a + b, a);
  }

  /** A tag that lies across a seam has inner characters on both sides of it. */
  lemma AcrossSeam(find: Finder, a: string, b: string)
    requires FindsTags(find) && a != "" && find(a + b) > |a|
    ensures b != "" && (a[|a| - 1] == '<' || Inner(a[|a| - 1])) && (b[0] == '>' || Inner(b[0]))
  {
    var s := a + b;
    Found(find, s);
    assert s[|a| - 1] == a[|a| - 1] && s[|a|] == b[0];
  }

  lemma FoundInFrontOnly(find: Finder, a: string, b: string)
    requires FindsTags(find) && a != "" && Apart(a, b)
    ensures find(a + b) > 0 <==> find(a) > 0
  {
    FoundInFront(find, a, b);
    if find(a + b) > |a| {
      AcrossSeam(find, a, b);
    }
  }

  /** Pieces that are kept apart are counted separately. */
  lemma {:induction false} CountApart(find: Finder, a: string, b: string)
    requires FindsTags(find) && Apart(a, b)
    ensures Count(find, a + b) == Count(find, a) + Count(find, b)
  {
    if a == "" {
      assert a + b == b;
    } else {
      FoundInFrontOnly(find, a, b);
      assert (a + b)[1..] == a[1..] + b;
      CountApart(find, a[1..], b);
    }
  }

  /** A text without an angle bracket adds no tag at the front of another. */
  lemma {:induction false} CountSkips(find: Finder, a: string, b: string)
    requires FindsTags(find) && '<' !in a
    ensures Count(find, a + b) == Count(find, b)
  {
    if a == "" {
      assert a + b == b;
    } else {
      Found(find, a + b);
      assert (a + b)[1..] == a[1..] + b;
      CountSkips(find, a[1..], b);
    }
  }

  /** Nor does a text without any bracket at the end of another. */
  lemma {:induction false} CountIgnoresEnd(find: Finder, a: string, b: string)
    requires FindsTags(find) && '>' !in b && '<' !in b
    ensures Count(find, a + b) == Count(find, a)
  {
    if a == "" {
      assert a + b == b + "";
      CountSkips(find, b, "");
    } else {
      Found(find, a + b);
      FoundInFront(find, a, b);
      assert (a + b)[1..] == a[1..] + b;
      CountIgnoresEnd(find, a[1..], b);
    }
  }

  /** An opening tag: one bracket, not followed by a slash. */
  predicate IsOpening(a: string) {
    |a| > 1 && a[0] == '<' && a[1] != '/' && '<' !in a[1..]
  }

  /** An opening tag is no closing tag, and begins none. */
  lemma CountSkipsOpening(find: Finder, a: string, b: string)
    requires FindsTags(find) && IsOpening(a)
    ensures Count(find, a + b) == Count(find, b)
  {
    Found(find, a + b);
    assert (a + b)[1..] == a[1..] + b;
    CountSkips(find, a[1..], b);
  }
}
