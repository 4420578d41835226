/** How many closing tags a rendered prompt holds, whatever the article says. */
module PromptStructure {
  import opened Decimals
  import opened Replacing
  import opened TagPatterns
  import opened TagRewriting
  import opened TagCounting
  import opened PromptSections
  import opened PromptWording

  // ----------------------------------------------------------------- white space

  lemma {:induction false} CountTrimmedLeft(find: Finder, s: string)
    requires FindsTags(find)
    ensures Count(find, TrimmedLeft(s)) == Count(find, s)
  {
    if s != "" && IsBlank(s[0]) {
      CountTrimmedLeft(find, s[1..]);
      CountSkips(find, s[..1], s[1..]);
      assert s == s[..1] + s[1..];
    }
  }

  lemma {:induction false} CountTrimmedRight(find: Finder, s: string)
    requires FindsTags(find)
    ensures Count(find, TrimmedRight(s)) == Count(find, s)
  {
    if s != "" && IsBlank(s[|s| - 1]) {
      var front, last := s[..|s| - 1], s[|s| - 1..];
      CountTrimmedRight(find, front);
      CountIgnoresEnd(find, front, last);
      assert s == front + last;
    }
  }

  lemma CountTrimmed(find: Finder, s: string)
    requires FindsTags(find)
    ensures Count(find, Trimmed(s)) == Count(find, s)
  {
    CountTrimmedLeft(find, s);
    CountTrimmedRight(find, TrimmedLeft(s));
  }

  /** A text that begins visibly keeps its beginning. */
  lemma {:induction false} TrimmedRightBegins(s: string)
    requires s != "" && !IsBlank(s[0])
    ensures TrimmedRight(s) != "" && TrimmedRight(s)[0] == s[0]
  {
    if |s| > 1 && IsBlank(s[|s| - 1]) {
      TrimmedRightBegins(s[..|s| - 1]);
    }
  }

  lemma TrimmedBegins(s: string)
    requires s != "" && !IsBlank(s[0])
    ensures Trimmed(s) != "" && Trimmed(s)[0] == s[0]
  {
    TrimmedRightBegins(s);
  }

  // -------------------------------------------------------------------- one section

  /** What the finder looks for, the builder leaves nowhere in text from outside. */
  ghost predicate Neutralizes(b: Builder, find: Finder) {
    FindsTags(find) && forall t :: NoMatch(find, b.neutralize(t))
  }

  lemma CountPlain(find: Finder, s: string)
    requires FindsTags(find) && Plain(s)
    ensures Count(find, s) == 0
  {
    CountSkips(find, s, "");
    assert s + "" == s;
  }

  /** Text without a tag between an opening line and a closing tag adds no tag of its own. */
  lemma CountWrapped(find: Finder, opening: string, text: string, ending: string)
    requires FindsTags(find) && NoMatch(find, text)
    requires IsOpening(opening) && ending != "" && ending[0] == '<'
    ensures Count(find, Wrapped(opening, text, ending)) == Count(find, ending)
    ensures Opens(Wrapped(opening, text, ending))
  {
    assert Wrapped(opening, text, ending)[0] == opening[0];
    CountNone(find, text);
    CountIgnoresEnd(find, text, "\n");
    assert !Inner('<');
    CountApart(find, text + "\n", ending);
    CountSkipsOpening(find, opening, text + "\n" + ending);
  }

  lemma FixedTagsAreOpening()
    ensures IsOpening("<untrusted_article>") && IsOpening("<untrusted_code_block>")
    ensures '<' !in " or "
  {
  }

  lemma FixedEndsAreTags()
    ensures IsOpening(ARTICLE_START) && ARTICLE_END != "" && ARTICLE_END[0] == '<'
    ensures BLOCK_END != "" && BLOCK_END[0] == '<' && (BLOCK_END + "\n\n")[0] == '<'
    ensures '<' !in "\n\n" && '>' !in "\n\n"
  {
  }

  lemma CountTwoOpenings(find: Finder, intro: string, a: string, or: string, b: string, rules: string)
    requires FindsTags(find) && Plain(rules)
    requires '<' !in intro && IsOpening(a) && '<' !in or && IsOpening(b)
    ensures Count(find, intro + (a + (or + (b + rules)))) == 0
  {
    CountPlain(find, rules);
    CountSkipsOpening(find, b, rules);
    CountSkips(find, or, b + rules);
    CountSkipsOpening(find, a, or + (b + rules));
    CountSkips(find, intro, a + (or + (b + rules)));
  }

  lemma CountTrust(find: Finder, w: Wording)
    requires FindsTags(find) && WellWorded(w)
    ensures Count(find, TrustBoundary(w).content) == 0
    ensures Opens(TrustBoundary(w).content)
  {
    FixedTagsAreOpening();
    CountTwoOpenings(find, w.trustIntro, "<untrusted_article>", " or ", "<untrusted_code_block>", w.trustRules);
    assert TrustBoundary(w).content[0] == w.trustIntro[0];
  }

  lemma CountFocus(find: Finder, w: Wording, a: Article)
    requires FindsTags(find) && WellWorded(w) && a.Article? && HasValidFocus(a)
    ensures Count(find, FocusSection(w, a).content) == 0
    ensures Opens(FocusSection(w, a).content)
  {
    assert FocusSection(w, a).content[0] == w.focusIntro[0];
    assert Plain(FocusSection(w, a).content);
    CountPlain(find, FocusSection(w, a).content);
  }

  lemma CountArticle(find: Finder, b: Builder, a: Article)
    requires Neutralizes(b, find) && a.Article?
    ensures Count(find, ArticlePayload(b, a).content) == Count(find, ARTICLE_END)
    ensures Opens(ArticlePayload(b, a).content)
  {
    FixedEndsAreTags();
    assert NoMatch(find, b.neutralize(a.content));
    CountWrapped(find, ARTICLE_START, b.neutralize(a.content), ARTICLE_END);
  }

  lemma CountBlock(find: Finder, b: Builder, i: nat, cb: CodeBlock)
    requires Neutralizes(b, find)
    ensures Count(find, BlockText(b, i, cb)) == Count(find, BLOCK_END)
    ensures Opens(BlockText(b, i, cb))
  {
    var lang := SanitizeLanguage(cb.language);
    HeaderIsOpening(i, lang);
    FixedEndsAreTags();
    assert NoMatch(find, b.neutralize(cb.code));
    CountWrapped(find, BlockHeader(i, lang), b.neutralize(cb.code), BLOCK_END + "\n\n");
    CountIgnoresEnd(find, BLOCK_END, "\n\n");
  }

  lemma HeaderIsOpening(i: nat, lang: string)
    requires forall k :: 0 <= k < |lang| ==> IsAllowed(lang[k])
    ensures IsOpening(BlockHeader(i, lang))
  {
    HeaderBegins();
    NoAngleInLanguage(lang);
    OpeningOf("<untrusted_code_block index=\"", Decimal(i), "\"", LanguageAttr(lang), ">\n");
  }

  lemma HeaderBegins()
    ensures IsOpening("<untrusted_code_block index=\"")
  {
    OpeningBy("<untrusted_code_block index=\"", "untrusted_code_block index=\"");
  }

  lemma OpeningBy(first: string, rest: string)
    requires first == "<" + rest && rest != "" && rest[0] != '/' && '<' !in rest
    ensures IsOpening(first)
  {
    assert first[1..] == rest;
  }

  lemma NoAngleInLanguage(lang: string)
    requires '<' !in lang
    ensures '<' !in LanguageAttr(lang)
  {
  }

  lemma OpeningOf(first: string, digits: string, quote: string, attr: string, end: string)
    requires IsOpening(first) && '<' !in digits && '<' !in quote && '<' !in attr && '<' !in end
    ensures IsOpening(first + digits + quote + attr + end)
  {
    assert (first + digits + quote + attr + end)[1..] == first[1..] + digits + quote + attr + end;
  }

  lemma {:induction false} CountBlocks(find: Finder, b: Builder, bs: seq<CodeBlock>)
    requires Neutralizes(b, find)
    ensures Count(find, BlockTexts(b, bs)) == |bs| * Count(find, BLOCK_END)
    ensures bs != [] ==> Opens(BlockTexts(b, bs))
  {
    if bs != [] {
      var k := |bs| - 1;
      CountBlocks(find, b, bs[..k]);
      CountBlock(find, b, k, bs[k]);
      CountOneMore(find, BlockTexts(b, bs[..k]), BlockText(b, k, bs[k]), k, Count(find, BLOCK_END));
    }
  }

  lemma CountOneMore(find: Finder, front: string, text: string, k: nat, n: nat)
    requires FindsTags(find) && Opens(text) && (k > 0 ==> Opens(front)) && (k == 0 ==> front == "")
    requires Count(find, front) == k * n && Count(find, text) == n
    ensures Count(find, front + text) == (k + 1) * n
    ensures Opens(front + text)
  {
    CountApart(find, front, text);
    assert (front + text)[0] == if front == "" then text[0] else front[0];
  }

  // --------------------------------------------------------------------- all sections

  /** Adding a section that begins apart from what is before it adds its tags. */
  lemma CountNext(find: Finder, ss: seq<Section>, s: Section)
    requires FindsTags(find) && s.content != "" && !IsBlank(s.content[0])
    requires ss == [] || Opens(s.content)
    ensures Count(find, Spaced(ss + [s])) == Count(find, Spaced(ss)) + Count(find, s.content)
  {
    assert (ss + [s])[..|ss|] == ss;
    TrimmedBegins(s.content);
    CountIgnoresEnd(find, s.content, "\n\n");
    CountApart(find, Spaced(ss), s.content + "\n\n");
    Associate(Spaced(ss), s.content, "\n\n");
  }

  lemma CountThree(find: Finder, s1: Section, s2: Section, s3: Section)
    requires FindsTags(find)
    requires s1.content != "" && !IsBlank(s1.content[0]) && Opens(s2.content) && Opens(s3.content)
    ensures Count(find, Spaced([s1, s2, s3])) ==
            Count(find, s1.content) + Count(find, s2.content) + Count(find, s3.content)
  {
    CountNext(find, [], s1);
    CountNext(find, [s1], s2);
    CountNext(find, [s1, s2], s3);
    assert [] + [s1] == [s1] && [s1] + [s2] == [s1, s2] && [s1, s2] + [s3] == [s1, s2, s3];
  }

  lemma CountStable(find: Finder, w: Wording)
    requires FindsTags(find) && WellWorded(w)
    ensures Count(find, Spaced([CoreIdentity(w), TrustBoundary(w), Scope(w)])) == 0
  {
    CountPlain(find, w.identity);
    CountTrust(find, w);
    CountPlain(find, w.scope);
    CountThree(find, CoreIdentity(w), TrustBoundary(w), Scope(w));
  }

  lemma CountMaybe(find: Finder, ss: seq<Section>, present: bool, s: Section)
    requires FindsTags(find) && (present ==> Opens(s.content))
    ensures Count(find, Spaced(ss + if present then [s] else [])) ==
            Count(find, Spaced(ss)) + if present then Count(find, s.content) else 0
  {
    if present {
      CountNext(find, ss, s);
    } else {
      assert ss + [] == ss;
    }
  }

  lemma CountWithFocus(find: Finder, w: Wording, a: Article, s0: seq<Section>)
    requires FindsTags(find) && WellWorded(w) && a.Article? && Count(find, Spaced(s0)) == 0
    ensures Count(find, Spaced(s0 + if HasValidFocus(a) then [FocusSection(w, a)] else [])) == 0
  {
    if HasValidFocus(a) {
      CountFocus(find, w, a);
      CountMaybe(find, s0, true, FocusSection(w, a));
    } else {
      assert s0 + [] == s0;
    }
  }

  /** A present section is counted, an absent one is not. */
  function If(present: bool, n: nat): nat {
    if present then n else 0
  }

  /** The sections before the code blocks. */
  function BeforeBlocks(b: Builder, a: Article): seq<Section>
    requires a.Article?
  {
    [CoreIdentity(b.wording), TrustBoundary(b.wording), Scope(b.wording)]
    + (if HasValidFocus(a) then [FocusSection(b.wording, a)] else [])
    + (if a.content != "" then [ArticlePayload(b, a)] else [])
  }

  lemma CountBeforeBlocks(find: Finder, b: Builder, a: Article)
    requires Neutralizes(b, find) && WellWorded(b.wording) && a.Article?
    ensures Count(find, Spaced(BeforeBlocks(b, a))) == If(a.content != "", Count(find, ARTICLE_END))
  {
    var w := b.wording;
    var s0 := [CoreIdentity(w), TrustBoundary(w), Scope(w)];
    CountStable(find, w);
    CountWithFocus(find, w, a, s0);
    CountArticle(find, b, a);
    var s1 := s0 + if HasValidFocus(a) then [FocusSection(w, a)] else [];
    CountMaybe(find, s1, a.content != "", ArticlePayload(b, a));
  }

  /**
   The prompt holds one end of an article when there is article text, and one end of a
   block for each code block: nothing in the article or in a language name adds another.
   */
  lemma CountPrompt(find: Finder, b: Builder, a: Article)
    requires Neutralizes(b, find) && WellWorded(b.wording) && a.Article?
    ensures Count(find, Rendered(Sections(b, a))) ==
            If(a.content != "", Count(find, ARTICLE_END)) + |a.blocks| * Count(find, BLOCK_END)
  {
    CountBeforeBlocks(find, b, a);
    CountBlocksSection(find, b, a);
    CountMaybe(find, BeforeBlocks(b, a), a.blocks != [], CodeBlocksPayload(b, a));
    CountTrimmed(find, Spaced(Sections(b, a)));
  }

  lemma CountBlocksSection(find: Finder, b: Builder, a: Article)
    requires Neutralizes(b, find) && a.Article?
    ensures Count(find, CodeBlocksPayload(b, a).content) == |a.blocks| * Count(find, BLOCK_END)
    ensures a.blocks != [] ==> Opens(CodeBlocksPayload(b, a).content)
  {
    CountBlocks(find, b, a.blocks);
    CountTrimmed(find, BlockTexts(b, a.blocks));
    if a.blocks != [] {
      TrimmedBegins(BlockTexts(b, a.blocks));
    }
  }

  // ------------------------------------------------------- the tags that matter here

  /** Finds one literal text. */
  function Exactly(text: string): Finder {
    s => if text != "" && text <= s then |text| else 0
  }

  lemma ClosingMatchIsBracketed(name: string, s: string)
    requires IsTagName(name) && MatchClose(name, s) > 0
    ensures IsBracketed(s[..MatchClose(name, s)])
  {
    var gap, word, rest := CloseMatchIsTag(name, s);
    WordIsInner(word, name);
    InnerParts(gap, word, rest);
  }

  lemma WordIsInner(word: string, name: string)
    requires IsTagName(name) && IsName(word, name)
    ensures forall i :: 0 <= i < |word| ==> Inner(word[i])
  {
    forall i | 0 <= i < |word| ensures Inner(word[i]) {
      assert Folds(word[i], name[i]);
    }
  }

  lemma InnerParts(gap: string, word: string, rest: string)
    requires AllSpaces(gap) && AllSpaces(rest) && forall i :: 0 <= i < |word| ==> Inner(word[i])
    ensures IsBracketed("</" + gap + word + rest + ">")
  {
    var inner := gap + word + rest;
    assert "</" + gap + word + rest + ">" == "</" + inner + ">";
  }

  lemma ClosingFinderFindsTags(name: string)
    requires IsTagName(name)
    ensures FindsTags(Find(Close(name)))
  {
    var find := Find(Close(name));
    forall s | find(s) > 0 ensures IsBracketed(s[..find(s)]) {
      ClosingMatchIsBracketed(name, s);
    }
    forall s, t | SameFront(find, s, t) ensures find(t) == find(s) {
      MatcherDecidesLanguage(Close(name), s, find(s));
      MatcherDecidesLanguage(Close(name), t, find(s));
    }
  }

  lemma LiteralFinderFindsTags(text: string)
    requires IsBracketed(text)
    ensures FindsTags(Exactly(text))
  {
    var find := Exactly(text);
    forall s | find(s) > 0 ensures IsBracketed(s[..find(s)]) {
      assert s[..find(s)] == text;
    }
    forall s, t | SameFront(find, s, t) ensures find(t) == find(s) {
      assert t[..|text|] == s[..|text|] == text;
    }
  }
}
