/** The opening tags of a rendered prompt: the builder's own, and what texts from outside leave open. */
module PromptOpenings {
  import opened Decimals
  import opened Replacing
  import opened TagPatterns
  import opened TagRewriting
  import opened TagCounting
  import opened OpeningTags
  import opened PromptSections
  import opened PromptWording
  import opened PromptStructure
  import opened PromptGuarantees

  // ----------------------------------------------------------------- white space

  lemma {:induction false} OpeningsTrimmedLeft(find: Finder, s: string)
    requires FindsOpenings(find)
    ensures Count(find, TrimmedLeft(s)) == Count(find, s)
  {
    if s != "" && IsBlank(s[0]) {
      OpeningsTrimmedLeft(find, s[1..]);
    }
  }

  lemma {:induction false} OpeningsTrimmedRight(find: Finder, s: string)
    requires FindsOpenings(find)
    ensures Count(find, TrimmedRight(s)) == Count(find, s)
  {
    if s != "" && IsBlank(s[|s| - 1]) {
      var front, last := s[..|s| - 1], s[|s| - 1..];
      OpeningsTrimmedRight(find, front);
      CountIgnoresPlain(find, front, last);
      assert s == front + last;
    }
  }

  lemma OpeningsTrimmed(find: Finder, s: string)
    requires FindsOpenings(find)
    ensures Count(find, Trimmed(s)) == Count(find, s)
  {
    OpeningsTrimmedLeft(find, s);
    OpeningsTrimmedRight(find, TrimmedLeft(s));
  }

  // ------------------------------------------------------------------- one section

  lemma OpeningsWrapped(find: Finder, opening: string, t: string, w: string, blank: string)
    requires FindsOpenings(find) && Closed(opening) && '<' !in blank && '>' !in blank
    requires IsTail(w) && |w| > 1 && w[1] == '/' && '<' !in w[1..]
    ensures Count(find, Wrapped(opening, t, w + ">" + blank)) == Count(find, opening) + LeftOpen(find, t)
    ensures Closed(Wrapped(opening, t, w + ">" + blank))
  {
    var body := t + ("\n" + (w + ">"));
    assert Wrapped(opening, t, w + ">" + blank) == opening + (body + blank);
    CountAfterClosed(find, opening, body + blank);
    CountIgnoresPlain(find, body, blank);
    CountBeforeEnd(find, t, w);
    EndingClosed(body);
    NoBracketIsClosed(blank);
    ClosedTogether(body, blank);
    ClosedTogether(opening, body + blank);
  }

  /** A text on lines of its own between a tag and an end tag. */
  lemma OpeningsInside(find: Finder, tag: string, t: string, w: string, blank: string)
    requires FindsOpenings(find) && tag != "" && tag[|tag| - 1] == '>' && '<' !in blank && '>' !in blank
    requires IsTail(w) && |w| > 1 && w[1] == '/' && '<' !in w[1..]
    ensures Count(find, Wrapped(tag + "\n", t, w + ">" + blank)) == Count(find, tag) + LeftOpen(find, t)
    ensures Closed(Wrapped(tag + "\n", t, w + ">" + blank))
  {
    TagLineIsClosed(tag);
    CountIgnoresPlain(find, tag, "\n");
    OpeningsWrapped(find, tag + "\n", t, w, blank);
  }

  lemma TagLineIsClosed(tag: string)
    requires tag != "" && tag[|tag| - 1] == '>'
    ensures Closed(tag) && Closed(tag + "\n")
  {
    EndingClosed(tag);
    NoBracketIsClosed("\n");
    ClosedTogether(tag, "\n");
  }

  /** The opening tag as the builder writes it. */
  function TagOf(name: string): string {
    "<" + name + ">"
  }

  /** The beginning of an end tag, up to its closing bracket. */
  function EndLead(name: string): string {
    "</" + name
  }

  lemma EndLeadIsTail(name: string)
    requires IsTagName(name)
    ensures IsTail(EndLead(name)) && |EndLead(name)| > 1 && EndLead(name)[1] == '/' && '<' !in EndLead(name)[1..]
  {
    assert EndLead(name)[1..] == "/" + name;
  }

  predicate IsTagLine(header: string, tag: string) {
    tag != "" && tag[|tag| - 1] == '>' && header == tag + "\n"
  }

  predicate IsEnding(ending: string, name: string, blank: string) {
    '<' !in blank && '>' !in blank && ending == EndLead(name) + ">" + blank
  }

  /** A text between a line with a tag and an end tag of a name. */
  lemma OpeningsBetween(find: Finder, name: string, tag: string, header: string, t: string, ending: string,
                        blank: string)
    requires FindsOpenings(find) && Reserved(Open(name)) && IsTagLine(header, tag) && IsEnding(ending, name, blank)
    ensures Count(find, Wrapped(header, t, ending)) == Count(find, tag) + LeftOpen(find, t)
    ensures Closed(Wrapped(header, t, ending))
  {
    ReservedNamesAreTagNames(Open(name));
    EndLeadIsTail(name);
    OpeningsInside(find, tag, t, EndLead(name), blank);
  }

  lemma ArticleIsWrapped()
    ensures IsTagLine(ARTICLE_START, TagOf(ARTICLE)) && IsEnding(ARTICLE_END, ARTICLE, "")
  {
  }

  lemma OpeningsOfArticle(find: Finder, b: Builder, a: Article)
    requires FindsOpenings(find) && a.Article?
    ensures Count(find, ArticlePayload(b, a).content)
            == Count(find, TagOf(ARTICLE)) + LeftOpen(find, b.neutralize(a.content))
    ensures Closed(ArticlePayload(b, a).content)
  {
    var t := b.neutralize(a.content);
    ArticleIsWrapped();
    OpeningsBetween(find, ARTICLE, TagOf(ARTICLE), ARTICLE_START, t, ARTICLE_END, "");
  }

  /** What a block's header line holds behind the name of its tag. */
  function BlockAttrs(i: nat, lang: string): string {
    " index=\"" + Decimal(i) + "\"" + LanguageAttr(lang)
  }

  /** The tag of a block's header line. */
  function BlockTag(i: nat, lang: string): string {
    "<" + CODE_BLOCK + BlockAttrs(i, lang) + ">"
  }

  lemma Regrouped(lead: string, name: string, attr: string, digits: string, quote: string, lang: string)
    requires lead == "<" + name + attr
    ensures lead + digits + quote + lang + ">\n" == "<" + name + (attr + digits + quote + lang) + ">" + "\n"
  {
  }

  lemma HeaderIsTagLine(i: nat, lang: string)
    ensures IsTagLine(BlockHeader(i, lang), BlockTag(i, lang))
  {
    Regrouped("<untrusted_code_block index=\"", CODE_BLOCK, " index=\"", Decimal(i), "\"", LanguageAttr(lang));
  }

  lemma BlockEndsWithLead()
    ensures IsEnding(BLOCK_END + "\n\n", CODE_BLOCK, "\n\n")
  {
    assert BLOCK_END == EndLead(CODE_BLOCK) + ">";
  }

  lemma OpeningsOfBlock(find: Finder, b: Builder, i: nat, cb: CodeBlock)
    requires FindsOpenings(find)
    ensures Count(find, BlockText(b, i, cb))
            == Count(find, BlockTag(i, SanitizeLanguage(cb.language))) + LeftOpen(find, b.neutralize(cb.code))
    ensures Closed(BlockText(b, i, cb))
  {
    var lang := SanitizeLanguage(cb.language);
    HeaderIsTagLine(i, lang);
    BlockEndsWithLead();
    OpeningsBetween(find, CODE_BLOCK, BlockTag(i, lang), BlockHeader(i, lang), b.neutralize(cb.code),
                    BLOCK_END + "\n\n", "\n\n");
  }

  /** What the code of the blocks leaves open. */
  function LeftOpenIn(find: Finder, b: Builder, bs: seq<CodeBlock>): nat {
    if bs == [] then 0
    else LeftOpenIn(find, b, bs[..|bs| - 1]) + LeftOpen(find, b.neutralize(bs[|bs| - 1].code))
  }

  /** The finder finds `y` tags in each of the builder's header lines. */
  ghost predicate HeadersCount(find: Finder, y: nat) {
    forall i: nat, lang :: CountsAs(find, BlockTag(i, SanitizeLanguage(lang)), y)
  }

  predicate CountsAs(find: Finder, s: string, n: nat) {
    Count(find, s) == n
  }

  lemma OneBlockMore(find: Finder, front: string, text: string, k: nat, y: nat, left: nat, last: nat)
    requires FindsOpenings(find) && Closed(front) && Closed(text)
    requires Count(find, front) == k * y + left && Count(find, text) == y + last
    ensures Count(find, front + text) == (k + 1) * y + (left + last) && Closed(front + text)
  {
    CountAfterClosed(find, front, text);
    ClosedTogether(front, text);
  }

  lemma {:induction false} OpeningsOfBlocks(find: Finder, b: Builder, bs: seq<CodeBlock>, y: nat)
    requires FindsOpenings(find) && HeadersCount(find, y)
    ensures Count(find, BlockTexts(b, bs)) == |bs| * y + LeftOpenIn(find, b, bs)
    ensures Closed(BlockTexts(b, bs))
  {
    if bs != [] {
      var k := |bs| - 1;
      OpeningsOfBlocks(find, b, bs[..k], y);
      OpeningsOfBlock(find, b, k, bs[k]);
      assert CountsAs(find, BlockTag(k, SanitizeLanguage(bs[k].language)), y);
      OneBlockMore(find, BlockTexts(b, bs[..k]), BlockText(b, k, bs[k]), k, y,
                   LeftOpenIn(find, b, bs[..k]), LeftOpen(find, b.neutralize(bs[k].code)));
    }
  }

  lemma OpeningsOfTwo(find: Finder, intro: string, one: string, or: string, two: string, rules: string)
    requires FindsOpenings(find) && '<' !in intro && '<' !in or && '<' !in rules
    requires one != "" && one[|one| - 1] == '>' && two != "" && two[|two| - 1] == '>'
    ensures Count(find, intro + (one + (or + (two + rules)))) == Count(find, one) + Count(find, two)
    ensures Closed(intro + (one + (or + (two + rules))))
  {
    TagLineIsClosed(one);
    TagLineIsClosed(two);
    PlainCounts(find, rules);
    PlainCounts(find, or);
    PlainCounts(find, intro);
    CountAfterClosed(find, two, rules);
    ClosedTogether(two, rules);
    CountAfterClosed(find, or, two + rules);
    ClosedTogether(or, two + rules);
    CountAfterClosed(find, one, or + (two + rules));
    ClosedTogether(one, or + (two + rules));
    CountAfterClosed(find, intro, one + (or + (two + rules)));
    ClosedTogether(intro, one + (or + (two + rules)));
  }

  lemma TrustIsTwo(w: Wording)
    ensures TrustBoundary(w).content == w.trustIntro + (TagOf(ARTICLE) + (" or " + (TagOf(CODE_BLOCK) + w.trustRules)))
  {
    assert TagOf(ARTICLE) == "<untrusted_article>" && TagOf(CODE_BLOCK) == "<untrusted_code_block>";
  }

  lemma OpeningsOfTrust(find: Finder, w: Wording)
    requires FindsOpenings(find) && WellWorded(w)
    ensures Count(find, TrustBoundary(w).content) == Count(find, TagOf(ARTICLE)) + Count(find, TagOf(CODE_BLOCK))
    ensures Closed(TrustBoundary(w).content)
  {
    TrustIsTwo(w);
    OpeningsOfTwo(find, w.trustIntro, TagOf(ARTICLE), " or ", TagOf(CODE_BLOCK), w.trustRules);
  }

  lemma PlainCounts(find: Finder, s: string)
    requires FindsOpenings(find) && '<' !in s
    ensures Count(find, s) == 0 && Closed(s)
  {
    CountNoBracket(find, s);
    NoBracketIsClosed(s);
  }

  // -------------------------------------------------------------------- all sections

  lemma OpeningsOfNext(find: Finder, ss: seq<Section>, s: Section)
    requires FindsOpenings(find) && Closed(Spaced(ss)) && s.content != "" && !IsBlank(s.content[0])
    ensures Count(find, Spaced(ss + [s])) == Count(find, Spaced(ss)) + Count(find, s.content)
    ensures Closed(s.content) ==> Closed(Spaced(ss + [s]))
  {
    assert (ss + [s])[..|ss|] == ss;
    TrimmedBegins(s.content);
    var front := Spaced(ss);
    assert Spaced(ss + [s]) == front + (s.content + "\n\n");
    CountAfterClosed(find, front, s.content + "\n\n");
    CountIgnoresPlain(find, s.content, "\n\n");
    if Closed(s.content) {
      NoBracketIsClosed("\n\n");
      ClosedTogether(s.content, "\n\n");
      ClosedTogether(front, s.content + "\n\n");
    }
  }

  lemma OpeningsOfThree(find: Finder, s1: Section, s2: Section, s3: Section)
    requires FindsOpenings(find) && Visible(s1) && Visible(s2) && Visible(s3)
    requires Closed(s1.content) && Closed(s2.content) && Closed(s3.content)
    ensures Count(find, Spaced([s1, s2, s3])) ==
            Count(find, s1.content) + Count(find, s2.content) + Count(find, s3.content)
    ensures Closed(Spaced([s1, s2, s3]))
  {
    OpeningsOfNext(find, [], s1);
    OpeningsOfNext(find, [s1], s2);
    OpeningsOfNext(find, [s1, s2], s3);
    assert [] + [s1] == [s1] && [s1] + [s2] == [s1, s2] && [s1, s2] + [s3] == [s1, s2, s3];
  }

  predicate Visible(s: Section) {
    s.content != "" && !IsBlank(s.content[0])
  }

  lemma OpeningsOfStable(find: Finder, w: Wording)
    requires FindsOpenings(find) && WellWorded(w)
    ensures var ss := [CoreIdentity(w), TrustBoundary(w), Scope(w)];
      && Count(find, Spaced(ss)) == Count(find, TagOf(ARTICLE)) + Count(find, TagOf(CODE_BLOCK))
      && Closed(Spaced(ss))
  {
    PlainCounts(find, w.identity);
    OpeningsOfTrust(find, w);
    PlainCounts(find, w.scope);
    assert TrustBoundary(w).content[0] == w.trustIntro[0];
    OpeningsOfThree(find, CoreIdentity(w), TrustBoundary(w), Scope(w));
  }

  lemma OpeningsOfMaybe(find: Finder, ss: seq<Section>, present: bool, s: Section)
    requires FindsOpenings(find) && Closed(Spaced(ss)) && (present ==> Visible(s))
    ensures Count(find, Spaced(ss + if present then [s] else [])) ==
            Count(find, Spaced(ss)) + If(present, Count(find, s.content))
    ensures Closed(s.content) ==> Closed(Spaced(ss + if present then [s] else []))
  {
    if present {
      OpeningsOfNext(find, ss, s);
    } else {
      assert ss + [] == ss;
    }
  }

  lemma OpeningsWithFocus(find: Finder, w: Wording, a: Article, ss: seq<Section>)
    requires FindsOpenings(find) && WellWorded(w) && a.Article? && Closed(Spaced(ss))
    ensures Count(find, Spaced(ss + if HasValidFocus(a) then [FocusSection(w, a)] else [])) == Count(find, Spaced(ss))
    ensures Closed(Spaced(ss + if HasValidFocus(a) then [FocusSection(w, a)] else []))
  {
    if HasValidFocus(a) {
      var s := FocusSection(w, a);
      assert s.content[0] == w.focusIntro[0] && Plain(s.content);
      PlainCounts(find, s.content);
      OpeningsOfMaybe(find, ss, true, s);
    } else {
      assert ss + [] == ss;
    }
  }

  function BeforeArticle(w: Wording, a: Article): seq<Section>
    requires a.Article?
  {
    [CoreIdentity(w), TrustBoundary(w), Scope(w)] + if HasValidFocus(a) then [FocusSection(w, a)] else []
  }

  lemma OpeningsBeforeArticle(find: Finder, w: Wording, a: Article)
    requires FindsOpenings(find) && WellWorded(w) && a.Article?
    ensures Count(find, Spaced(BeforeArticle(w, a))) == Count(find, TagOf(ARTICLE)) + Count(find, TagOf(CODE_BLOCK))
    ensures Closed(Spaced(BeforeArticle(w, a)))
  {
    OpeningsOfStable(find, w);
    OpeningsWithFocus(find, w, a, [CoreIdentity(w), TrustBoundary(w), Scope(w)]);
  }

  /** The openings of the sections up to the article, `own` of which are there without it. */
  lemma OpeningsWithArticle(find: Finder, b: Builder, a: Article, ss: seq<Section>, own: nat, x: nat)
    requires FindsOpenings(find) && a.Article? && Closed(Spaced(ss))
    requires Count(find, Spaced(ss)) == own && Count(find, TagOf(ARTICLE)) == x
    ensures Count(find, Spaced(ss + if a.content != "" then [ArticlePayload(b, a)] else [])) ==
            own + If(a.content != "", x + LeftOpen(find, b.neutralize(a.content)))
    ensures Closed(Spaced(ss + if a.content != "" then [ArticlePayload(b, a)] else []))
  {
    OpeningsOfArticle(find, b, a);
    ArticleIsVisible(b, a);
    OpeningsOfMaybe(find, ss, a.content != "", ArticlePayload(b, a));
  }

  lemma OpeningsBeforeBlocks(find: Finder, b: Builder, a: Article, x: nat, z: nat)
    requires FindsOpenings(find) && WellWorded(b.wording) && a.Article?
    requires Count(find, TagOf(ARTICLE)) == x && Count(find, TagOf(CODE_BLOCK)) == z
    ensures Count(find, Spaced(BeforeBlocks(b, a))) ==
            x + z + If(a.content != "", x + LeftOpen(find, b.neutralize(a.content)))
    ensures Closed(Spaced(BeforeBlocks(b, a)))
  {
    OpeningsBeforeArticle(find, b.wording, a);
    OpeningsWithArticle(find, b, a, BeforeArticle(b.wording, a), x + z, x);
  }

  lemma ArticleIsVisible(b: Builder, a: Article)
    requires a.Article?
    ensures Visible(ArticlePayload(b, a))
  {
    assert ArticlePayload(b, a).content[0] == ARTICLE_START[0];
  }

  lemma BlocksAreVisible(b: Builder, a: Article)
    requires a.Article? && a.blocks != []
    ensures Visible(CodeBlocksPayload(b, a))
  {
    TextsBegin(b, a.blocks);
    TrimmedBegins(BlockTexts(b, a.blocks));
  }

  lemma {:induction false} TextsBegin(b: Builder, bs: seq<CodeBlock>)
    ensures bs != [] ==> BlockTexts(b, bs) != "" && BlockTexts(b, bs)[0] == '<'
  {
    if bs != [] {
      var k := |bs| - 1;
      TextsBegin(b, bs[..k]);
      var h := BlockHeader(k, SanitizeLanguage(bs[k].language));
      assert h[0] == '<' && BlockText(b, k, bs[k])[0] == h[0];
    }
  }

  /** What texts from outside leave open in a prompt. */
  function LeftOpenBy(find: Finder, b: Builder, a: Article): nat
    requires a.Article?
  {
    If(a.content != "", LeftOpen(find, b.neutralize(a.content))) + LeftOpenIn(find, b, a.blocks)
  }

  /**
   The openings of a prompt: those of the builder's own tags, `x` in an article's, `z` in a
   bare block's and `y` in a block's header, and those that texts from outside leave open.
   */
  lemma OpeningsOfPrompt(find: Finder, b: Builder, a: Article, x: nat, z: nat, y: nat)
    requires FindsOpenings(find) && HeadersCount(find, y) && WellWorded(b.wording) && a.Article?
    requires Count(find, TagOf(ARTICLE)) == x && Count(find, TagOf(CODE_BLOCK)) == z
    ensures Count(find, Rendered(Sections(b, a))) == x + z + If(a.content != "", x) + |a.blocks| * y + LeftOpenBy(find, b, a)
  {
    OpeningsBeforeBlocks(find, b, a, x, z);
    OpeningsOfPayload(find, b, a, y);
    OpeningsOfMaybe(find, BeforeBlocks(b, a), a.blocks != [], CodeBlocksPayload(b, a));
    OpeningsTrimmed(find, Spaced(Sections(b, a)));
  }

  lemma OpeningsOfPayload(find: Finder, b: Builder, a: Article, y: nat)
    requires FindsOpenings(find) && HeadersCount(find, y) && a.Article?
    ensures Count(find, CodeBlocksPayload(b, a).content) == |a.blocks| * y + LeftOpenIn(find, b, a.blocks)
    ensures a.blocks != [] ==> Visible(CodeBlocksPayload(b, a))
  {
    OpeningsOfBlocks(find, b, a.blocks, y);
    OpeningsTrimmed(find, BlockTexts(b, a.blocks));
    if a.blocks != [] {
      BlocksAreVisible(b, a);
    }
  }

  // ----------------------------------------------------------------- the two patterns

  /** A tag written for `other` with `attrs` behind the name. */
  ghost predicate WrittenFor(other: string, attrs: string, tag: string) {
    Reserved(Open(other)) && Plain(attrs) && !IsWord((attrs + ">")[0]) && tag == "<" + other + attrs + ">"
  }

  lemma ReservedEndsInWord(name: string)
    requires Reserved(Open(name))
    ensures IsTagName(name) && IsWord(name[|name| - 1]) && |name| > 10 && name[0] == 'u'
  {
    ReservedNamesAreTagNames(Open(name));
  }

  /** A tag written for a name is matched. */
  lemma TagOfName(name: string, attrs: string, tag: string)
    requires WrittenFor(name, attrs, tag)
    ensures MatchOpen(name, tag) > 0
  {
    ReservedEndsInWord(name);
    assert "<" + "" + name + attrs + ">" == tag;
    TagIsMatched(Open(name), tag, "", name, attrs, "");
    assert tag + "" == tag;
  }

  /** A tag written for the other name is none of this. */
  lemma OtherTagIsNone(name: string, other: string, attrs: string, tag: string)
    requires Reserved(Open(name)) && WrittenFor(other, attrs, tag) && name != other
    ensures MatchOpen(name, tag) == 0
  {
    var s, rest := tag[1..], attrs + ">";
    assert s == other + rest;
    NotTheOtherName(name, other, rest);
    assert s[Spaces(s)..] == s;
  }

  lemma NotTheOtherName(name: string, other: string, rest: string)
    requires Reserved(Open(name)) && Reserved(Open(other)) && name != other
    ensures Spaces(other + rest) == 0 && !StartsWithName(other + rest, name)
  {
    ReservedEndsInWord(name);
    ReservedEndsInWord(other);
    var s := other + rest;
    assert s[0] == 'u';
    if StartsWithName(s, name) {
      assert s[10] == other[10] && Folds(s[10], name[10]) && Folds(s[10], other[10]);
      OneNameOnly(name, other, s);
    }
  }

  lemma TagHasOneBracket(other: string, attrs: string, tag: string)
    requires WrittenFor(other, attrs, tag)
    ensures tag != "" && '<' !in tag[1..]
  {
    ReservedEndsInWord(other);
    assert tag[1..] == other + attrs + ">";
  }

  lemma CountOneOpening(find: Finder, tag: string)
    requires FindsOpenings(find) && tag != "" && '<' !in tag[1..]
    ensures Count(find, tag) == if find(tag) > 0 then 1 else 0
  {
    CountNoBracket(find, tag[1..]);
  }

  /** Whether a tag written for `other` counts for `name`. */
  lemma CountsForName(find: Finder, name: string, other: string, attrs: string, tag: string)
    requires Reserved(Open(name)) && WrittenFor(other, attrs, tag)
    requires FindsOpenings(find) && find(tag) == MatchOpen(name, tag)
    ensures Count(find, tag) == If(name == other, 1)
  {
    TagHasOneBracket(other, attrs, tag);
    CountOneOpening(find, tag);
    if name == other {
      TagOfName(name, attrs, tag);
    } else {
      OtherTagIsNone(name, other, attrs, tag);
    }
  }

  lemma BareTagIsWritten(name: string)
    requires Reserved(Open(name))
    ensures WrittenFor(name, "", TagOf(name))
  {
    assert "<" + name + "" + ">" == TagOf(name);
  }

  lemma HeadersCountFor(find: Finder, name: string)
    requires Reserved(Open(name)) && FindsOpenings(find) && forall s :: find(s) == MatchOpen(name, s)
    ensures HeadersCount(find, If(name == CODE_BLOCK, 1))
  {
    forall i: nat, lang ensures CountsAs(find, BlockTag(i, SanitizeLanguage(lang)), If(name == CODE_BLOCK, 1)) {
      var clean := SanitizeLanguage(lang);
      HeaderIsWritten(i, clean);
      CountsForName(find, name, CODE_BLOCK, BlockAttrs(i, clean), BlockTag(i, clean));
    }
  }

  lemma PlainTogether(a: string, b: string)
    requires Plain(a) && Plain(b)
    ensures Plain(a + b)
  {
  }

  lemma LanguageAttrIsPlain(lang: string)
    requires Plain(lang)
    ensures Plain(LanguageAttr(lang))
  {
    if lang != "" {
      PlainTogether(" language=\"", lang);
      PlainTogether(" language=\"" + lang, "\"");
    }
  }

  lemma HeaderIsWritten(i: nat, lang: string)
    requires forall k :: 0 <= k < |lang| ==> IsAllowed(lang[k])
    ensures WrittenFor(CODE_BLOCK, BlockAttrs(i, lang), BlockTag(i, lang))
  {
    LanguageAttrIsPlain(lang);
    AttrsArePlain(" index=\"", Decimal(i), "\"", LanguageAttr(lang));
  }

  lemma AttrsArePlain(attr: string, digits: string, quote: string, lang: string)
    requires attr != "" && Plain(attr) && Plain(digits) && Plain(quote) && Plain(lang)
    ensures Plain(attr + digits + quote + lang) && (attr + digits + quote + lang + ">")[0] == attr[0]
  {
    PlainTogether(attr, digits);
    PlainTogether(attr + digits, quote);
    PlainTogether(attr + digits + quote, lang);
  }

  /** The builder's own tags of one name: one in its rules, and one for the article or for each block. */
  function OwnOpenings(name: string, a: Article): nat
    requires a.Article?
  {
    1 + if name == ARTICLE then If(a.content != "", 1) else |a.blocks|
  }

  /**
   The opening tags of a rendered prompt, in any spelling that their pattern accepts, are
   the builder's own and those that the texts leave open for the wrapper to close.
   */
  lemma OpeningTagsInAnySpelling(b: Builder, a: Article, name: string)
    requires Hardened(b) && a.Article? && Reserved(Open(name))
    ensures Count(Find(Open(name)), Rendered(Sections(b, a)))
            == OwnOpenings(name, a) + LeftOpenBy(Find(Open(name)), b, a)
  {
    var find := Find(Open(name));
    ReservedNamesAreTagNames(Open(name));
    FindsWhatOpenMatches(find, name);
    OpeningsOfName(find, b, a, name);
    OwnOnes(name, a);
  }

  lemma OpeningsOfName(find: Finder, b: Builder, a: Article, name: string)
    requires Reserved(Open(name)) && FindsOpenings(find) && forall s :: find(s) == MatchOpen(name, s)
    requires WellWorded(b.wording) && a.Article?
    ensures Count(find, Rendered(Sections(b, a))) ==
            OwnOnesFor(a, If(name == ARTICLE, 1), If(name == CODE_BLOCK, 1)) + LeftOpenBy(find, b, a)
  {
    HeadersCountFor(find, name);
    BareTagsCount(find, name);
    OpeningsOfPrompt(find, b, a, If(name == ARTICLE, 1), If(name == CODE_BLOCK, 1), If(name == CODE_BLOCK, 1));
  }

  function OwnOnesFor(a: Article, x: nat, y: nat): nat
    requires a.Article?
  {
    x + y + If(a.content != "", x) + |a.blocks| * y
  }

  lemma OwnOnes(name: string, a: Article)
    requires Reserved(Open(name)) && a.Article?
    ensures OwnOnesFor(a, If(name == ARTICLE, 1), If(name == CODE_BLOCK, 1)) == OwnOpenings(name, a)
  {
    NamesDiffer();
  }

  lemma BareTagsCount(find: Finder, name: string)
    requires Reserved(Open(name)) && FindsOpenings(find) && forall s :: find(s) == MatchOpen(name, s)
    ensures Count(find, TagOf(ARTICLE)) == If(name == ARTICLE, 1)
    ensures Count(find, TagOf(CODE_BLOCK)) == If(name == CODE_BLOCK, 1)
  {
    BareTagIsWritten(ARTICLE);
    BareTagIsWritten(CODE_BLOCK);
    CountsForName(find, name, ARTICLE, "", TagOf(ARTICLE));
    CountsForName(find, name, CODE_BLOCK, "", TagOf(CODE_BLOCK));
  }

  lemma NamesDiffer()
    ensures ARTICLE != CODE_BLOCK
  {
    assert ARTICLE[10] != CODE_BLOCK[10];
  }

  // ------------------------------------------------------ how a neutralized text ends

  lemma {:induction false} WithoutEndIsClean(p: Pattern, t: string)
    requires '>' !in t
    ensures Clean(p, t)
  {
    if t != "" {
      WithoutEndIsClean(p, t[1..]);
      CleanStep(p, t);
    }
  }

  /** Nothing, or a text that ends in a bracket. */
  predicate IsFront(u: string) {
    u == "" || u[|u| - 1] == '>'
  }

  lemma {:induction false} CutAtLastBracket(t: string) returns (u: string, v: string)
    ensures t == u + v && IsFront(u) && '>' !in v
  {
    if t == "" || t[|t| - 1] == '>' {
      u, v := t, "";
    } else {
      u, v := CutAtLastBracket(t[..|t| - 1]);
      v := v + [t[|t| - 1]];
      assert t == t[..|t| - 1] + [t[|t| - 1]];
    }
  }

  /** Every match ends in a bracket, and so does what is put in its place. */
  ghost predicate BracketsOnly(find: Finder, put: Putter) {
    forall s :: BracketKept(find, put, s)
  }

  predicate BracketKept(find: Finder, put: Putter, s: string) {
    0 < find(s) <= |s| ==> s[find(s) - 1] == '>' && put(s) != "" && IsFront(put(s))
  }

  lemma MatchWithin(u: string, v: string, n: nat)
    requires '>' !in v && IsFront(u) && 0 < n <= |u + v| && (u + v)[n - 1] == '>'
    ensures n <= |u| && IsFront(u[n..]) && (u + v)[n..] == u[n..] + v
  {
  }

  lemma FrontOn(x: string, y: string)
    requires IsFront(x) && IsFront(y)
    ensures IsFront(x + y)
  {
  }

  lemma CopyKeepsEnd(find: Finder, put: Putter, u: string, v: string, y: string)
    requires Sound(find) && u != "" && IsFront(u) && find(u + v) == 0
    requires Replaced(find, put, u[1..] + v) == y + v && IsFront(y) && (u[1..] != "" ==> y != "")
    ensures Replaced(find, put, u + v) == [u[0]] + y + v && IsFront([u[0]] + y)
  {
    assert (u + v)[1..] == u[1..] + v;
    Associate([u[0]], y, v);
  }

  /** Replacing leaves what follows the last bracket of a text as it is, and a bracket before it. */
  lemma {:induction false} ReplacedKeepsEnd(find: Finder, put: Putter, u: string, v: string) returns (x: string)
    requires Sound(find) && BracketsOnly(find, put) && NoMatch(find, v) && IsFront(u) && '>' !in v
    ensures Replaced(find, put, u + v) == x + v && IsFront(x) && (u != "" ==> x != "")
    decreases |u|
  {
    if u == "" {
      UnmatchedIsUnchanged(find, put, v);
      x := "";
      assert u + v == v && x + v == v;
    } else {
      var s := u + v;
      var n := find(s);
      assert n <= |s|;
      if n == 0 {
        var y := ReplacedKeepsEnd(find, put, u[1..], v);
        x := [u[0]] + y;
        CopyKeepsEnd(find, put, u, v, y);
      } else {
        assert BracketKept(find, put, s);
        MatchWithin(u, v, n);
        var y := ReplacedKeepsEnd(find, put, u[n..], v);
        x := put(s) + y;
        Associate(put(s), y, v);
        FrontOn(put(s), y);
      }
    }
  }

  lemma MatchEndsInBracket(p: Pattern, s: string)
    requires Match(p, s) > 0
    ensures s[Match(p, s) - 1] == '>'
  {
  }

  lemma ReplacementEndsInBracket(p: Pattern, s: string)
    requires Match(p, s) > 0
    ensures Replacement(p, s) != "" && IsFront(Replacement(p, s))
  {
    var r := Lead(p) + Shown(p, s);
    assert Replacement(p, s) == r + "_>";
  }

  lemma ReplacementKeepsBracket(p: Pattern, s: string)
    ensures BracketKept(Find(p), Put(p), s)
  {
    if Match(p, s) > 0 {
      MatchEndsInBracket(p, s);
      ReplacementEndsInBracket(p, s);
    }
  }

  lemma PassPutsBrackets(p: Pattern)
    ensures BracketsOnly(Find(p), Put(p))
  {
    forall s ensures BracketKept(Find(p), Put(p), s) {
      ReplacementKeepsBracket(p, s);
    }
  }

  lemma PassKeepsEnd(p: Pattern, u: string, v: string) returns (x: string)
    requires IsFront(u) && '>' !in v
    ensures Rewrite(p, u + v) == x + v && IsFront(x)
  {
    WithoutEndIsClean(p, v);
    PassPutsBrackets(p);
    x := ReplacedKeepsEnd(Find(p), Put(p), u, v);
  }

  lemma {:induction false} PassesKeepEnd(ps: seq<Pattern>, u: string, v: string) returns (x: string)
    requires IsFront(u) && '>' !in v
    ensures RewriteAll(ps, u + v) == x + v && IsFront(x)
  {
    x := u;
    if ps != [] {
      var y := PassKeepsEnd(ps[0], u, v);
      x := PassesKeepEnd(ps[1..], y, v);
    }
  }

  lemma BracketBehind(u: string, v: string, i: nat)
    requires IsFront(u) && i < |u|
    ensures '>' in (u + v)[i..]
  {
    assert (u + v)[i..][|u| - 1 - i] == '>';
  }

  lemma OpensOnlyBehind(name: string, u: string, v: string, i: nat)
    requires IsFront(u) && i < |u + v| && OpensAt(name, u + v, i)
    ensures i >= |u| && OpensAt(name, v, i - |u|)
  {
    if i < |u| {
      BracketBehind(u, v, i);
    } else {
      assert (u + v)[i..] == v[i - |u|..];
    }
  }

  lemma OpensBehind(name: string, u: string, v: string, i: nat)
    requires i < |v| && OpensAt(name, v, i)
    ensures OpensAt(name, u + v, |u| + i)
  {
    assert (u + v)[|u| + i..] == v[i..];
  }

  /** Only what follows the last bracket can be the beginning of a tag. */
  lemma EndsOpenBehind(name: string, u: string, v: string)
    requires IsFront(u)
    ensures EndsOpen(name, u + v) <==> EndsOpen(name, v)
  {
    if i :| 0 <= i < |u + v| && OpensAt(name, u + v, i) {
      OpensOnlyBehind(name, u, v, i);
    }
    if i :| 0 <= i < |v| && OpensAt(name, v, i) {
      OpensBehind(name, u, v, i);
    }
  }

  /** Neutralizing neither makes nor removes the beginning of a tag at the end of a text. */
  lemma NeutralizeKeepsEnd(name: string, t: string)
    ensures EndsOpen(name, Neutralize(t)) <==> EndsOpen(name, t)
  {
    var u, v := CutAtLastBracket(t);
    var x := PassesKeepEnd(PASSES, u, v);
    EndsOpenBehind(name, u, v);
    EndsOpenBehind(name, x, v);
  }

  // --------------------------------------------------------------- exactly when

  /** The code of some block ends in the beginning of a tag of the name. */
  ghost predicate SomeCodeEndsOpen(name: string, bs: seq<CodeBlock>) {
    exists cb :: cb in bs && CodeEndsOpen(name, cb)
  }

  predicate CodeEndsOpen(name: string, cb: CodeBlock) {
    EndsOpen(name, cb.code)
  }

  /** Some text from outside ends in the beginning of a tag of the name. */
  ghost predicate SomeTextEndsOpen(name: string, a: Article)
    requires a.Article?
  {
    EndsOpen(name, a.content) || SomeCodeEndsOpen(name, a.blocks)
  }

  lemma SomeOfOneMore(name: string, bs: seq<CodeBlock>)
    requires bs != []
    ensures SomeCodeEndsOpen(name, bs) <==>
            SomeCodeEndsOpen(name, bs[..|bs| - 1]) || CodeEndsOpen(name, bs[|bs| - 1])
  {
    var front := bs[..|bs| - 1];
    if cb :| cb in bs && CodeEndsOpen(name, cb) && cb != bs[|bs| - 1] {
      assert cb in front;
    }
    if cb :| cb in front && CodeEndsOpen(name, cb) {
      assert cb in bs;
    }
  }

  /** The block's code leaves something open exactly when it ends in the beginning of a tag. */
  predicate LeavesOpenIff(find: Finder, b: Builder, name: string, cb: CodeBlock) {
    LeftOpen(find, b.neutralize(cb.code)) > 0 <==> CodeEndsOpen(name, cb)
  }

  lemma {:induction false} LeftOpenInIff(find: Finder, b: Builder, bs: seq<CodeBlock>, name: string)
    requires forall cb :: cb in bs ==> LeavesOpenIff(find, b, name, cb)
    ensures LeftOpenIn(find, b, bs) > 0 <==> SomeCodeEndsOpen(name, bs)
  {
    if bs != [] {
      var front, last := bs[..|bs| - 1], bs[|bs| - 1];
      LeftOpenInIff(find, b, front, name);
      SomeOfOneMore(name, bs);
      assert last in bs && LeavesOpenIff(find, b, name, last);
    }
  }

  lemma TextLeftOpenIff(find: Finder, b: Builder, t: string, name: string)
    requires Hardened(b) && Reserved(Open(name)) && forall s :: find(s) == MatchOpen(name, s)
    ensures LeftOpen(find, b.neutralize(t)) > 0 <==> EndsOpen(name, t)
  {
    ReservedNamesAreTagNames(Open(name));
    NeutralizedIsClean(t);
    assert Clean(Open(name), Neutralize(t));
    NoMatchOfLess(find, Find(Open(name)), Neutralize(t));
    LeftOpenIff(find, name, Neutralize(t));
    NeutralizeKeepsEnd(name, t);
  }

  /**
   The prompt holds no opening tags but the builder's own if and only if neither the
   article's text nor the code of a block ends in the beginning of one.
   */
  lemma OwnOpeningsOnlyIff(b: Builder, a: Article, name: string)
    requires Hardened(b) && a.Article? && Reserved(Open(name))
    ensures Count(Find(Open(name)), Rendered(Sections(b, a))) == OwnOpenings(name, a)
            <==> !SomeTextEndsOpen(name, a)
  {
    var find := Find(Open(name));
    OpeningTagsInAnySpelling(b, a, name);
    TextLeftOpenIff(find, b, a.content, name);
    forall cb | cb in a.blocks ensures LeavesOpenIff(find, b, name, cb) {
      TextLeftOpenIff(find, b, cb.code, name);
    }
    LeftOpenInIff(find, b, a.blocks, name);
  }

  lemma WithoutEndIsUnchanged(t: string)
    requires '>' !in t
    ensures Neutralize(t) == t
  {
    forall p | p in PASSES ensures Clean(p, t) {
      WithoutEndIsClean(p, t);
    }
    UnchangedIffClean(t);
  }

  lemma OpensAtFront(name: string, t: string)
    requires t != "" && '>' !in t && MatchOpen(name, t + "\n>") > 0
    ensures EndsOpen(name, t)
  {
    assert t[0..] == t;
    assert OpensAt(name, t, 0);
  }

  lemma EndlessTagHasNoEnd(name: string)
    requires Reserved(Open(name))
    ensures '>' !in "<" + name + " " && WrittenFor(name, " \n", "<" + name + " " + "\n>")
  {
    ReservedNamesAreTagNames(Open(name));
    assert "<" + name + " " + "\n>" == "<" + name + " \n" + ">";
  }

  /** There are such texts: neutralizing leaves a tag without its bracket as it is. */
  lemma ATextCanEndOpen(name: string)
    requires Reserved(Open(name))
    ensures var t := "<" + name + " "; Neutralize(t) == t && EndsOpen(name, t)
  {
    var t := "<" + name + " ";
    EndlessTagHasNoEnd(name);
    WithoutEndIsUnchanged(t);
    TagOfName(name, " \n", t + "\n>");
    OpensAtFront(name, t);
  }
}
