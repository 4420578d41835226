/** Replacing every match of a pattern in a text, whatever the pattern is. */
module Replacing {

  /** Tells the length of the match at the front of a text, 0 for none. */
  type Finder = string -> nat

  /** Tells what to put in the place of the match at the front of a text. */
  type Putter = string -> string

  ghost predicate Sound(find: Finder) {
    forall t :: find(t) <= |t|
  }

  /** What becomes of the front of `s`: of a match there, or else of its first character. */
  function FirstPiece(find: Finder, put: Putter, s: string): string
    requires s != ""
  {
    if find(s) == 0 then [s[0]] else put(s)
  }

  function FirstLength(find: Finder, s: string): (len: nat)
    requires Sound(find) && s != ""
    ensures 0 < len <= |s|
  {
    assert find(s) <= |s|;
    if find(s) == 0 then 1 else find(s)
  }

  /** `s` with its leftmost, non-overlapping matches replaced. */
  function Replaced(find: Finder, put: Putter, s: string): string
    requires Sound(find)
  {
    if s == "" then ""
    else FirstPiece(find, put, s) + Replaced(find, put, s[FirstLength(find, s)..])
  }

  method ReplaceAll(find: Finder, put: Putter, s: string) returns (r: string)
    requires Sound(find)
    ensures r == Replaced(find, put, s)
  {
    r := "";
    var at := 0;
    while at < |s|
      invariant at <= |s|
      invariant r + Replaced(find, put, s[at..]) == Replaced(find, put, s)
    {
      var piece, len := FirstPiece(find, put, s[at..]), FirstLength(find, s[at..]);
      assert s[at..][len..] == s[at + len..];
      Associate(r, piece, Replaced(find, put, s[at + len..]));
      r := r + piece;
      at := at + len;
    }
  }

  /** The pattern matches nowhere in `s`. */
  predicate NoMatch(find: Finder, s: string) {
    s == "" || (find(s) == 0 && NoMatch(find, s[1..]))
  }

  lemma Associate(a: string, b: string, c: string)
    ensures a + b + c == a + (b + c)
  {
  }

  /** `NoMatch` is what it says: no suffix begins with a match. */
  lemma {:induction false} NoMatchAnywhere(find: Finder, s: string)
    ensures NoMatch(find, s) <==> forall i :: 0 <= i < |s| ==> find(s[i..]) == 0
  {
    if s != "" {
      NoMatchAnywhere(find, s[1..]);
      assert s[0..] == s;
      assert forall i :: 0 <= i < |s| - 1 ==> s[1..][i..] == s[i + 1..];
      if NoMatch(find, s) {
        forall i | 0 <= i < |s| ensures find(s[i..]) == 0 {
          assert i > 0 ==> s[1..][i - 1..] == s[i..];
        }
      }
    }
  }

  lemma {:induction false} NoMatchInSuffix(find: Finder, s: string, i: nat)
    requires NoMatch(find, s) && i <= |s|
    ensures NoMatch(find, s[i..])
  {
    if i == 0 {
      assert s[0..] == s;
    } else {
      NoMatchInSuffix(find, s[1..], i - 1);
      assert s[1..][i - 1..] == s[i..];
    }
  }

  /** Text without a match stays as it is. */
  lemma {:induction false} UnmatchedIsUnchanged(find: Finder, put: Putter, s: string)
    requires Sound(find) && NoMatch(find, s)
    ensures Replaced(find, put, s) == s
  {
    if s != "" {
      UnmatchedIsUnchanged(find, put, s[1..]);
    }
  }

  /** Text before the first match is copied. */
  lemma {:induction false} CopiedUpTo(find: Finder, put: Putter, s: string, i: nat)
    requires Sound(find)
    requires i <= |s| && forall j :: 0 <= j < i ==> find(s[j..]) == 0
    ensures Replaced(find, put, s) == s[..i] + Replaced(find, put, s[i..])
  {
    if i == 0 {
      assert s[0..] == s;
    } else {
      CopiedUpTo(find, put, s, i - 1);
      assert s[i - 1..][1..] == s[i..];
      assert s[..i] == s[..i - 1] + [s[i - 1]];
      Associate(s[..i - 1], [s[i - 1]], Replaced(find, put, s[i..]));
    }
  }

  /** The first match is replaced, what is before it copied and what is behind it treated alike. */
  lemma FirstMatchReplaced(find: Finder, put: Putter, s: string, i: nat)
    requires Sound(find)
    requires i < |s| && find(s[i..]) > 0
    requires forall j :: 0 <= j < i ==> find(s[j..]) == 0
    ensures i + find(s[i..]) <= |s|
    ensures Replaced(find, put, s) == s[..i] + (put(s[i..]) + Replaced(find, put, s[i + find(s[i..])..]))
  {
    assert find(s[i..]) <= |s[i..]|;
    CopiedUpTo(find, put, s, i);
    assert s[i..][find(s[i..])..] == s[i + find(s[i..])..];
  }
}
