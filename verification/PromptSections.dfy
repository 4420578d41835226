/** The sections of the agent's prompt and how they are put together. */
module PromptSections {
  import opened Decimals

  datatype CodeBlock = CodeBlock(language: string, code: string)

  datatype Focus = NoFocus | FocusOn(index: int)

  datatype Article = NoArticle | Article(content: string, blocks: seq<CodeBlock>, focus: Focus)

  datatype Section = Section(name: string, stable: bool, content: string)

  // ------------------------------------------------------- the language attribute

  predicate IsAllowed(c: char) {
    || 'a' <= c <= 'z' || 'A' <= c <= 'Z' || '0' <= c <= '9'
    || c == '+' || c == '#' || c == '.' || c == '_' || c == '-'
  }

  function Allowed(s: string): (r: string)
    ensures forall i :: 0 <= i < |r| ==> IsAllowed(r[i])
  {
    if s == "" then "" else (if IsAllowed(s[0]) then [s[0]] else "") + Allowed(s[1..])
  }

  function SanitizeLanguage(s: string): (r: string)
    ensures |r| <= 32 && forall i :: 0 <= i < |r| ==> IsAllowed(r[i])
  {
    var cleaned := Allowed(s);
    if |cleaned| > 32 then cleaned[..32] else cleaned
  }

  lemma {:induction false} AllowedIsKept(s: string)
    requires forall i :: 0 <= i < |s| ==> IsAllowed(s[i])
    ensures Allowed(s) == s
  {
    if s != "" {
      AllowedIsKept(s[1..]);
    }
  }

  /** A name that is already acceptable is kept, and only such a name is. */
  lemma SanitizeKeepsIff(s: string)
    ensures SanitizeLanguage(s) == s <==> |s| <= 32 && forall i :: 0 <= i < |s| ==> IsAllowed(s[i])
  {
    if forall i :: 0 <= i < |s| ==> IsAllowed(s[i]) {
      AllowedIsKept(s);
    }
  }

  // ------------------------------------------------------------------ the sections

  /** The fixed wording of the sections. */
  datatype Wording = Wording(
    identity: string,
    trustIntro: string, trustRules: string,
    scope: string,
    focusIntro: string, focusRule: string)

  /** A builder: its fixed wording, and how it treats text from outside. */
  datatype Builder = Builder(wording: Wording, neutralize: string -> string)

  function CoreIdentity(w: Wording): Section {
    Section("core_identity", true, w.identity)
  }

  function TrustBoundary(w: Wording): Section {
    Section("trust_boundary", true,
      w.trustIntro + ("<untrusted_article>" + (" or " + ("<untrusted_code_block>" + w.trustRules))))
  }

  function Scope(w: Wording): Section {
    Section("scope", true, w.scope)
  }

  predicate HasValidFocus(a: Article)
    requires a.Article?
  {
    a.focus.FocusOn? && 0 <= a.focus.index < |a.blocks|
  }

  function FocusSection(w: Wording, a: Article): Section
    requires a.Article? && HasValidFocus(a)
  {
    Section("focus", false, w.focusIntro + Decimal(a.focus.index) + w.focusRule)
  }

  const ARTICLE_END: string := "</untrusted_article>"
  const BLOCK_END: string := "</untrusted_code_block>"

  /** A text between an opening line and what ends it. */
  function Wrapped(opening: string, text: string, ending: string): string {
    opening + (text + "\n" + ending)
  }

  const ARTICLE_START: string := "<untrusted_article>\n"

  function ArticlePayload(b: Builder, a: Article): Section
    requires a.Article?
  {
    Section("article_payload", false, Wrapped(ARTICLE_START, b.neutralize(a.content), ARTICLE_END))
  }

  function LanguageAttr(lang: string): string {
    if lang != "" then " language=\"" + lang + "\"" else ""
  }

  function BlockHeader(i: nat, lang: string): string {
    "<untrusted_code_block index=\"" + Decimal(i) + "\"" + LanguageAttr(lang) + ">\n"
  }

  function BlockText(b: Builder, i: nat, cb: CodeBlock): string {
    Wrapped(BlockHeader(i, SanitizeLanguage(cb.language)), b.neutralize(cb.code), BLOCK_END + "\n\n")
  }

  function BlockTexts(b: Builder, bs: seq<CodeBlock>): string {
    if bs == [] then "" else BlockTexts(b, bs[..|bs| - 1]) + BlockText(b, |bs| - 1, bs[|bs| - 1])
  }

  lemma BlockTextsNext(b: Builder, bs: seq<CodeBlock>, i: nat)
    requires i < |bs|
    ensures BlockTexts(b, bs[..i + 1]) == BlockTexts(b, bs[..i]) + BlockText(b, i, bs[i])
  {
    assert bs[..i + 1][..i] == bs[..i];
  }

  function CodeBlocksPayload(b: Builder, a: Article): Section
    requires a.Article?
  {
    Section("code_blocks_payload", false, Trimmed(BlockTexts(b, a.blocks)))
  }

  method BuildCodeBlocksPayload(b: Builder, a: Article) returns (s: Section)
    requires a.Article?
    ensures s == CodeBlocksPayload(b, a)
  {
    var sb := "";
    for i := 0 to |a.blocks|
      invariant sb == BlockTexts(b, a.blocks[..i])
    {
      var cb := a.blocks[i];
      var lang := SanitizeLanguage(cb.language);
      BlockTextsNext(b, a.blocks, i);
      sb := sb + Wrapped(BlockHeader(i, lang), b.neutralize(cb.code), BLOCK_END + "\n\n");
    }
    assert a.blocks[..|a.blocks|] == a.blocks;
    s := Section("code_blocks_payload", false, Trimmed(sb));
  }

  // -------------------------------------------------------------------- rendering

  /** White space as `strings.TrimSpace` understands it. */
  predicate IsBlank(c: char) {
    || '\t' <= c <= '\r' || c == ' ' || c == '\U{0085}' || c == '\U{00A0}' || c == '\U{1680}'
    || '\U{2000}' <= c <= '\U{200A}' || c == '\U{2028}' || c == '\U{2029}' || c == '\U{202F}'
    || c == '\U{205F}' || c == '\U{3000}'
  }

  function TrimmedLeft(s: string): string {
    if s == "" || !IsBlank(s[0]) then s else TrimmedLeft(s[1..])
  }

  function TrimmedRight(s: string): string {
    if s == "" || !IsBlank(s[|s| - 1]) then s else TrimmedRight(s[..|s| - 1])
  }

  function Trimmed(s: string): string {
    TrimmedRight(TrimmedLeft(s))
  }

  function Sections(b: Builder, a: Article): seq<Section> {
    if a.NoArticle? then []
    else
      [CoreIdentity(b.wording), TrustBoundary(b.wording), Scope(b.wording)]
      + (if HasValidFocus(a) then [FocusSection(b.wording, a)] else [])
      + (if a.content != "" then [ArticlePayload(b, a)] else [])
      + (if a.blocks != [] then [CodeBlocksPayload(b, a)] else [])
  }

  function NamesOf(ss: seq<Section>): (names: seq<string>)
    ensures |names| == |ss| && forall i :: 0 <= i < |ss| ==> names[i] == ss[i].name
  {
    if ss == [] then [] else NamesOf(ss[..|ss| - 1]) + [ss[|ss| - 1].name]
  }

  lemma SectionsAreNamed(b: Builder, a: Article)
    requires a.Article?
    ensures NamesOf(Sections(b, a)) == ["core_identity", "trust_boundary", "scope"]
              + (if a.focus.FocusOn? && 0 <= a.focus.index < |a.blocks| then ["focus"] else [])
              + (if a.content == "" then [] else ["article_payload"])
              + (if |a.blocks| == 0 then [] else ["code_blocks_payload"])
  {
  }

  lemma FirstThreeAreStable(b: Builder, a: Article)
    ensures forall i :: 0 <= i < |Sections(b, a)| ==> (Sections(b, a)[i].stable <==> i < 3)
  {
  }

  /** The focus section names the block by its number. */
  lemma FocusIsThird(b: Builder, a: Article)
    requires a.Article? && a.focus.FocusOn? && 0 <= a.focus.index < |a.blocks|
    ensures |Sections(b, a)| > 3
    ensures Sections(b, a)[3] ==
            Section("focus", false, b.wording.focusIntro + Decimal(a.focus.index) + b.wording.focusRule)
  {
  }

  /**
   The sections in order: three that are always there, then the focus on a block that
   exists, the text of the article and its code blocks, each only when there is any.
   */
  method Build(b: Builder, a: Article) returns (ss: seq<Section>)
    ensures ss == Sections(b, a)
    ensures a.NoArticle? ==> ss == []
    ensures a.Article? ==> NamesOf(ss) == ["core_identity", "trust_boundary", "scope"]
                             + (if a.focus.FocusOn? && 0 <= a.focus.index < |a.blocks| then ["focus"] else [])
                             + (if a.content == "" then [] else ["article_payload"])
                             + (if |a.blocks| == 0 then [] else ["code_blocks_payload"])
    ensures forall i :: 0 <= i < |ss| ==> (ss[i].stable <==> i < 3)
    ensures a.Article? && a.focus.FocusOn? && 0 <= a.focus.index < |a.blocks| ==>
              |ss| > 3 && ss[3].content == b.wording.focusIntro + Decimal(a.focus.index) + b.wording.focusRule
  {
    if a.NoArticle? {
      return [];
    }
    var stable := [CoreIdentity(b.wording), TrustBoundary(b.wording), Scope(b.wording)];
    var focus := if HasValidFocus(a) then [FocusSection(b.wording, a)] else [];
    var article := if a.content != "" then [ArticlePayload(b, a)] else [];
    var blocks := [];
    if a.blocks != [] {
      var payload := BuildCodeBlocksPayload(b, a);
      blocks := [payload];
    }
    ss := stable + focus + article + blocks;
    SectionsAreNamed(b, a);
    FirstThreeAreStable(b, a);
    if a.focus.FocusOn? && 0 <= a.focus.index < |a.blocks| {
      FocusIsThird(b, a);
    }
  }

  /** The contents that are not blank, each with an empty line behind it. */
  function Spaced(ss: seq<Section>): string {
    if ss == [] then ""
    else
      var front, s := Spaced(ss[..|ss| - 1]), ss[|ss| - 1].content;
      if Trimmed(s) == "" then front else front + s + "\n\n"
  }

  function Rendered(ss: seq<Section>): string {
    Trimmed(Spaced(ss))
  }

  method Render(ss: seq<Section>) returns (r: string)
    ensures r == Rendered(ss)
  {
    var sb := "";
    for i := 0 to |ss|
      invariant sb == Spaced(ss[..i])
    {
      assert ss[..i + 1][..i] == ss[..i];
      if Trimmed(ss[i].content) != "" {
        sb := sb + ss[i].content + "\n\n";
      }
    }
    assert ss[..|ss|] == ss;
    r := Trimmed(sb);
  }
}
