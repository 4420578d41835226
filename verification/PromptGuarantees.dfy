/** What the prompt that the source builds guarantees about its closing tags. */
module PromptGuarantees {
  import opened Replacing
  import opened TagPatterns
  import opened TagRewriting
  import opened TagCounting
  import opened PromptSections
  import opened PromptWording
  import opened PromptStructure

  /** A builder that neutralizes as the source does and has no bracket in its wording. */
  ghost predicate Hardened(b: Builder) {
    WellWorded(b.wording) && forall t :: b.neutralize(t) == Neutralize(t)
  }

  /** The shipped builder is one. */
  lemma ShippedIsHardened()
    ensures Hardened(Builder(SHIPPED, s => Neutralize(s)))
  {
    ShippedIsWellWorded();
  }

  function EndOf(name: string): string {
    "</" + name + ">"
  }

  lemma EndsSpelledOut()
    ensures ARTICLE_END == EndOf(ARTICLE) && BLOCK_END == EndOf(CODE_BLOCK)
    ensures IsTagName(ARTICLE) && IsTagName(CODE_BLOCK)
  {
    ReservedNamesAreTagNames(Close(ARTICLE));
    ReservedNamesAreTagNames(Close(CODE_BLOCK));
  }

  /** The literal closing tag is one of its pattern's spellings. */
  lemma LiteralIsMatched(name: string, s: string)
    requires IsTagName(name) && EndOf(name) <= s
    ensures MatchClose(name, s) > 0
  {
    var t := EndOf(name);
    assert "</" + "" + name + "" + ">" == t;
    assert IsCloseTag(name, "", name, "");
    TagIsMatched(Close(name), t, "", name, "", s[|t|..]);
    assert t + s[|t|..] == s;
  }

  lemma EndIsBracketed(name: string)
    requires IsTagName(name)
    ensures IsBracketed(EndOf(name)) && '<' !in EndOf(name)[1..]
  {
    assert EndOf(name)[1..] == "/" + name + ">";
  }

  lemma CountOneTag(find: Finder, t: string)
    requires FindsTags(find) && t != "" && '<' !in t[1..]
    ensures Count(find, t) == if find(t) > 0 then 1 else 0
  {
    CountSkips(find, t[1..], "");
    assert t[1..] + "" == t[1..];
  }

  /** The closing tag of one name is no closing tag of the other. */
  lemma OtherEndIsUnmatched(p: Pattern, q: Pattern)
    requires Reserved(p) && Reserved(q) && p.Close? && q.Close? && p != q
    ensures Match(p, EndOf(q.name)) == 0
  {
    var s := EndOf(q.name);
    ReservedNamesAreTagNames(q);
    if Match(p, s) > 0 {
      var from, end := MatchHasPosition(p, s);
      assert s[2] == q.name[0] == 'u';
      assert from == 2;
      assert Folds(s[from + 10], p.name[10]) && s[2 + 10] == q.name[10];
      assert Folds(s[12], q.name[10]);
      OneNameOnly(p.name, q.name, s[2..]);
    }
  }

  lemma {:induction false} NoMatchOfLess(find: Finder, other: Finder, s: string)
    requires NoMatch(other, s) && forall t :: find(t) > 0 ==> other(t) > 0
    ensures NoMatch(find, s)
  {
    if s != "" {
      NoMatchOfLess(find, other, s[1..]);
    }
  }

  lemma NeutralizesPattern(b: Builder, p: Pattern)
    requires Hardened(b) && p in PASSES && p.Close?
    ensures Neutralizes(b, Find(p))
  {
    ReservedNamesAreTagNames(p);
    ClosingFinderFindsTags(p.name);
    forall t ensures NoMatch(Find(p), b.neutralize(t)) {
      NeutralizedIsClean(t);
    }
  }

  lemma NeutralizesLiteral(b: Builder, p: Pattern)
    requires Hardened(b) && p in PASSES && p.Close?
    ensures Neutralizes(b, Exactly(EndOf(p.name)))
  {
    var find := Exactly(EndOf(p.name));
    ReservedNamesAreTagNames(p);
    EndIsBracketed(p.name);
    LiteralFinderFindsTags(EndOf(p.name));
    LiteralFindsLess(p);
    NeutralizesPattern(b, p);
    forall t ensures NoMatch(find, b.neutralize(t)) {
      assert NoMatch(Find(p), b.neutralize(t));
      NoMatchOfLess(find, Find(p), b.neutralize(t));
    }
  }

  lemma LiteralFindsLess(p: Pattern)
    requires IsTagName(p.name) && p.Close?
    ensures forall t :: Exactly(EndOf(p.name))(t) > 0 ==> Find(p)(t) > 0
  {
    forall t | Exactly(EndOf(p.name))(t) > 0 ensures Find(p)(t) > 0 {
      LiteralIsMatched(p.name, t);
    }
  }

  /** Without an article there is no prompt. */
  lemma NoArticleNoPrompt(b: Builder)
    ensures Sections(b, NoArticle) == [] && Rendered(Sections(b, NoArticle)) == ""
  {
  }

  /** How many articles the prompt wraps. */
  function Articles(a: Article): nat {
    If(a.Article? && a.content != "", 1)
  }

  /** How many code blocks it wraps. */
  function Blocks(a: Article): nat {
    if a.Article? then |a.blocks| else 0
  }

  lemma EndsInAnySpelling(b: Builder, a: Article)
    requires Hardened(b) && a.Article?
    ensures Count(Find(Close(ARTICLE)), Rendered(Sections(b, a))) == Articles(a)
    ensures Count(Find(Close(CODE_BLOCK)), Rendered(Sections(b, a))) == Blocks(a)
  {
    var article, block := Close(ARTICLE), Close(CODE_BLOCK);
    NeutralizesPattern(b, article);
    NeutralizesPattern(b, block);
    CountsOfEnds(Find(article), article, block);
    CountsOfEnds(Find(block), block, article);
    CountEnds(b, a, Find(article), Find(block));
  }

  /**
   Closing tags in the rendered prompt, in any spelling that their pattern accepts: one for
   the article if there is article text, and one for each code block, whatever the article,
   the code and the language names contain.
   */
  lemma ClosingTagsInAnySpelling(b: Builder, a: Article)
    requires Hardened(b)
    ensures Count(Find(Close(ARTICLE)), Rendered(Sections(b, a))) == Articles(a)
    ensures Count(Find(Close(CODE_BLOCK)), Rendered(Sections(b, a))) == Blocks(a)
  {
    if a.Article? {
      EndsInAnySpelling(b, a);
    } else {
      NoArticleNoPrompt(b);
    }
  }

  lemma LiteralEnds(b: Builder, a: Article)
    requires Hardened(b) && a.Article?
    ensures Count(Exactly(EndOf(ARTICLE)), Rendered(Sections(b, a))) == Articles(a)
    ensures Count(Exactly(EndOf(CODE_BLOCK)), Rendered(Sections(b, a))) == Blocks(a)
  {
    var article, block := Close(ARTICLE), Close(CODE_BLOCK);
    NeutralizesLiteral(b, article);
    NeutralizesLiteral(b, block);
    CountsOfEnds(Exactly(EndOf(ARTICLE)), article, block);
    CountsOfEnds(Exactly(EndOf(CODE_BLOCK)), block, article);
    CountEnds(b, a, Exactly(EndOf(ARTICLE)), Exactly(EndOf(CODE_BLOCK)));
  }

  /** The same for the literal closing tags that the builder writes. */
  lemma LiteralClosingTags(b: Builder, a: Article)
    requires Hardened(b)
    ensures Count(Exactly(ARTICLE_END), Rendered(Sections(b, a))) == Articles(a)
    ensures Count(Exactly(BLOCK_END), Rendered(Sections(b, a))) == Blocks(a)
  {
    EndsSpelledOut();
    if a.Article? {
      LiteralEnds(b, a);
    } else {
      NoArticleNoPrompt(b);
    }
  }

  lemma CountEnds(b: Builder, a: Article, findArticle: Finder, findBlock: Finder)
    requires WellWorded(b.wording) && a.Article? && Neutralizes(b, findArticle) && Neutralizes(b, findBlock)
    requires Count(findArticle, EndOf(ARTICLE)) == 1 && Count(findArticle, EndOf(CODE_BLOCK)) == 0
    requires Count(findBlock, EndOf(CODE_BLOCK)) == 1 && Count(findBlock, EndOf(ARTICLE)) == 0
    ensures Count(findArticle, Rendered(Sections(b, a))) == Articles(a)
    ensures Count(findBlock, Rendered(Sections(b, a))) == Blocks(a)
  {
    CountEnd(b, a, findArticle, 1, 0);
    CountEnd(b, a, findBlock, 0, 1);
  }

  lemma CountEnd(b: Builder, a: Article, find: Finder, x: nat, y: nat)
    requires WellWorded(b.wording) && a.Article? && Neutralizes(b, find)
    requires Count(find, EndOf(ARTICLE)) == x && Count(find, EndOf(CODE_BLOCK)) == y
    ensures Count(find, Rendered(Sections(b, a))) == If(a.content != "", x) + |a.blocks| * y
  {
    EndsSpelledOut();
    CountPrompt(find, b, a);
  }

  lemma CountsOfEnds(find: Finder, p: Pattern, q: Pattern)
    requires find == Find(p) || find == Exactly(EndOf(p.name))
    requires Reserved(p) && Reserved(q) && p.Close? && q.Close? && p != q
    ensures Count(find, EndOf(p.name)) == 1 && Count(find, EndOf(q.name)) == 0
  {
    ReservedNamesAreTagNames(p);
    ReservedNamesAreTagNames(q);
    EndIsBracketed(p.name);
    EndIsBracketed(q.name);
    ClosingFinderFindsTags(p.name);
    LiteralFinderFindsTags(EndOf(p.name));
    LiteralIsMatched(p.name, EndOf(p.name));
    OtherEndIsUnmatched(p, q);
    if EndOf(p.name) <= EndOf(q.name) {
      LiteralIsMatched(p.name, EndOf(q.name));
    }
    CountOneTag(find, EndOf(p.name));
    CountOneTag(find, EndOf(q.name));
  }
}
