/** What the sections of a prompt hold: their names, the numbered blocks, and the language names. */
module PromptContents {
  import opened Decimals
  import opened PromptSections
  import opened PromptStructure
  import opened PromptWording
  import opened Replacing

  // ------------------------------------------------------------------ the language names

  /** How many characters of `s` before `i` are allowed. */
  function AllowedBefore(s: string, i: nat): nat
    requires i <= |s|
  {
    if i == 0 then 0 else AllowedBefore(s, i - 1) + if IsAllowed(s[i - 1]) then 1 else 0
  }

  lemma {:induction false} AllowedFromFront(s: string, i: nat)
    requires s != "" && 0 < i <= |s|
    ensures AllowedBefore(s, i) == (if IsAllowed(s[0]) then 1 else 0) + AllowedBefore(s[1..], i - 1)
    decreases i
  {
    if i > 1 {
      AllowedFromFront(s, i - 1);
      assert s[1..][i - 2] == s[i - 1];
    }
  }

  /** Every allowed character stays, in its order, and no other. */
  lemma {:induction false} AllowedStay(s: string)
    ensures |Allowed(s)| == AllowedBefore(s, |s|)
    ensures forall i :: 0 <= i < |s| && IsAllowed(s[i]) ==>
      AllowedBefore(s, i) < |Allowed(s)| && Allowed(s)[AllowedBefore(s, i)] == s[i]
  {
    if s != "" {
      AllowedStay(s[1..]);
      AllowedFromFront(s, |s|);
      forall i | 0 < i < |s| && IsAllowed(s[i])
        ensures AllowedBefore(s, i) < |Allowed(s)| && Allowed(s)[AllowedBefore(s, i)] == s[i]
      {
        AllowedFromFront(s, i);
        assert s[1..][i - 1] == s[i];
      }
    }
  }

  /** A name is cut to its first 32 allowed characters. */
  lemma SanitizeTakesTheFirst(s: string)
    ensures SanitizeLanguage(s) <= Allowed(s)
    ensures |SanitizeLanguage(s)| == if |Allowed(s)| < 32 then |Allowed(s)| else 32
  {
  }

  // -------------------------------------------------------------------- white space around

  predicate AllBlank(s: string) {
    forall i :: 0 <= i < |s| ==> IsBlank(s[i])
  }

  predicate IsTrim(s: string) {
    s == "" || (!IsBlank(s[0]) && !IsBlank(s[|s| - 1]))
  }

  lemma {:induction false} TrimmedLeftCuts(s: string) returns (lead: string)
    ensures s == lead + TrimmedLeft(s) && AllBlank(lead)
    ensures TrimmedLeft(s) == "" || !IsBlank(TrimmedLeft(s)[0])
  {
    lead := "";
    if s != "" && IsBlank(s[0]) {
      var more := TrimmedLeftCuts(s[1..]);
      lead := [s[0]] + more;
      assert s == [s[0]] + s[1..];
    }
  }

  lemma {:induction false} TrimmedRightCuts(s: string) returns (tail: string)
    ensures s == TrimmedRight(s) + tail && AllBlank(tail)
    ensures TrimmedRight(s) == "" || !IsBlank(TrimmedRight(s)[|TrimmedRight(s)| - 1])
    ensures TrimmedRight(s) != "" ==> s != "" && TrimmedRight(s)[0] == s[0]
  {
    tail := "";
    if s != "" && IsBlank(s[|s| - 1]) {
      var more := TrimmedRightCuts(s[..|s| - 1]);
      tail := more + [s[|s| - 1]];
      assert s == s[..|s| - 1] + [s[|s| - 1]];
    }
  }

  /** Trimming cuts white space off both ends, all of it and nothing else. */
  lemma TrimmedCuts(s: string) returns (lead: string, tail: string)
    ensures s == lead + Trimmed(s) + tail && AllBlank(lead) && AllBlank(tail) && IsTrim(Trimmed(s))
  {
    lead := TrimmedLeftCuts(s);
    tail := TrimmedRightCuts(TrimmedLeft(s));
    assert s == lead + (Trimmed(s) + tail);
  }

  lemma {:induction false} TrimmedRightStops(t: string, blank: string)
    requires t != "" && !IsBlank(t[|t| - 1]) && AllBlank(blank)
    ensures TrimmedRight(t + blank) == t
  {
    if blank == "" {
      assert t + blank == t;
    } else {
      TrimmedRightStops(t, blank[..|blank| - 1]);
      assert (t + blank)[..|t + blank| - 1] == t + blank[..|blank| - 1];
    }
  }

  lemma TrimmedOf(t: string)
    requires t != "" && IsTrim(t)
    ensures Trimmed(t + "\n\n") == t
  {
    TrimmedRightStops(t, "\n\n");
  }

  // ---------------------------------------------------------------- texts one after another

  /** The texts with an empty line between each two. */
  function Separated(ts: seq<string>): string {
    if ts == [] then ""
    else if |ts| == 1 then ts[0]
    else Separated(ts[..|ts| - 1]) + ("\n\n" + ts[|ts| - 1])
  }

  /** The texts with an empty line behind each. */
  function Each(ts: seq<string>): string {
    if ts == [] then "" else Each(ts[..|ts| - 1]) + (ts[|ts| - 1] + "\n\n")
  }

  lemma {:induction false} EachIsSeparated(ts: seq<string>)
    requires ts != []
    ensures Each(ts) == Separated(ts) + "\n\n"
  {
    if |ts| == 1 {
      assert ts[..0] == [] && "" + (ts[0] + "\n\n") == ts[0] + "\n\n";
    } else {
      var front, last := ts[..|ts| - 1], ts[|ts| - 1];
      EachIsSeparated(front);
      Associate(Separated(front), "\n\n" + last, "\n\n");
      Associate("\n\n", last, "\n\n");
      Associate(Separated(front), "\n\n", last + "\n\n");
    }
  }

  predicate Begins(t: string) { t != "" && !IsBlank(t[0]) }

  predicate Ends(t: string) { t != "" && !IsBlank(t[|t| - 1]) }

  lemma {:induction false} SeparatedIsTrim(ts: seq<string>)
    requires ts != [] && Begins(ts[0]) && Ends(ts[|ts| - 1])
    ensures Separated(ts) != "" && IsTrim(Separated(ts))
  {
    SeparatedBegins(ts);
    if |ts| > 1 {
      var s := Separated(ts);
      assert s == Separated(ts[..|ts| - 1]) + "\n\n" + ts[|ts| - 1];
    }
  }

  lemma {:induction false} SeparatedBegins(ts: seq<string>)
    requires ts != [] && Begins(ts[0])
    ensures Begins(Separated(ts))
  {
    if |ts| > 1 {
      SeparatedBegins(ts[..|ts| - 1]);
    }
  }

  /** What is written one after another, each with an empty line behind, is trimmed to the texts with empty lines between. */
  lemma TrimmedEach(ts: seq<string>)
    requires ts != [] && Begins(ts[0]) && Ends(ts[|ts| - 1])
    ensures Trimmed(Each(ts)) == Separated(ts)
  {
    EachIsSeparated(ts);
    SeparatedIsTrim(ts);
    TrimmedOf(Separated(ts));
  }

  // ------------------------------------------------------------------- the code blocks

  /** The block as the payload shows it. */
  function ShownBlock(b: Builder, i: nat, cb: CodeBlock): string {
    var lang := SanitizeLanguage(cb.language);
    "<untrusted_code_block index=\"" + Decimal(i) + "\"" + (if lang == "" then "" else " language=\"" + lang + "\"") + ">\n"
    + (b.neutralize(cb.code) + "\n" + "</untrusted_code_block>")
  }

  lemma Regroup(h: string, t: string, e: string, z: string)
    ensures h + (t + "\n" + (e + z)) == h + (t + "\n" + e) + z
  {
  }

  lemma BlockIsShown(b: Builder, i: nat, cb: CodeBlock)
    ensures BlockText(b, i, cb) == ShownBlock(b, i, cb) + "\n\n"
  {
    Regroup(BlockHeader(i, SanitizeLanguage(cb.language)), b.neutralize(cb.code), "</untrusted_code_block>", "\n\n");
  }

  lemma ShownIsVisible(b: Builder, i: nat, cb: CodeBlock)
    ensures Begins(ShownBlock(b, i, cb)) && Ends(ShownBlock(b, i, cb))
  {
    var s := ShownBlock(b, i, cb);
    assert s[0] == "<untrusted_code_block index=\""[0] && s[|s| - 1] == "</untrusted_code_block>"[21 + 1];
  }

  function ShownBlocks(b: Builder, bs: seq<CodeBlock>): (ts: seq<string>)
    ensures |ts| == |bs| && forall i :: 0 <= i < |bs| ==> ts[i] == ShownBlock(b, i, bs[i])
  {
    if bs == [] then [] else ShownBlocks(b, bs[..|bs| - 1]) + [ShownBlock(b, |bs| - 1, bs[|bs| - 1])]
  }

  lemma {:induction false} BlockTextsAreEach(b: Builder, bs: seq<CodeBlock>)
    ensures BlockTexts(b, bs) == Each(ShownBlocks(b, bs))
  {
    if bs != [] {
      var k := |bs| - 1;
      var ts := ShownBlocks(b, bs);
      BlockTextsAreEach(b, bs[..k]);
      BlockIsShown(b, k, bs[k]);
      assert ts[..k] == ShownBlocks(b, bs[..k]) && ts[k] == ShownBlock(b, k, bs[k]);
    }
  }

  /** The payload shows every block, numbered from 0 in its place, with an empty line between each two. */
  lemma PayloadShowsTheBlocks(b: Builder, a: Article)
    requires a.Article? && a.blocks != []
    ensures CodeBlocksPayload(b, a).content == Separated(ShownBlocks(b, a.blocks))
  {
    var k := |a.blocks| - 1;
    BlockTextsAreEach(b, a.blocks);
    ShownIsVisible(b, 0, a.blocks[0]);
    ShownIsVisible(b, k, a.blocks[k]);
    TrimmedEach(ShownBlocks(b, a.blocks));
  }

  // ---------------------------------------------------------------- the rendered prompt

  function ContentsOf(ss: seq<Section>): (ts: seq<string>)
    ensures |ts| == |ss| && forall i :: 0 <= i < |ss| ==> ts[i] == ss[i].content
  {
    if ss == [] then [] else ContentsOf(ss[..|ss| - 1]) + [ss[|ss| - 1].content]
  }

  lemma {:induction false} SpacedIsEach(ss: seq<Section>)
    requires forall i :: 0 <= i < |ss| ==> Begins(ss[i].content)
    ensures Spaced(ss) == Each(ContentsOf(ss))
  {
    if ss != [] {
      var k := |ss| - 1;
      SpacedIsEach(ss[..k]);
      TrimmedBegins(ss[k].content);
      assert ContentsOf(ss)[..k] == ContentsOf(ss[..k]);
      Associate(Spaced(ss[..k]), ss[k].content, "\n\n");
    }
  }

  /** A blank section leaves nothing in the prompt, any other its content. */
  lemma BlankIsSkipped(front: seq<Section>, s: Section)
    ensures Spaced(front + [s]) == Spaced(front) + if AllBlank(s.content) then "" else s.content + "\n\n"
  {
    assert (front + [s])[..|front|] == front;
    var lead, tail := TrimmedCuts(s.content);
    if Trimmed(s.content) == "" {
      assert s.content == lead + tail;
    } else {
      assert s.content[|lead|] == Trimmed(s.content)[0];
    }
  }

  predicate Fits(w: Wording) {
    WellWorded(w) && Ends(w.scope)
  }

  lemma ShippedFits()
    ensures Fits(SHIPPED)
  {
    ShippedIsWellWorded();
    ScopeEnds();
  }

  lemma ScopeEnds()
    ensures Ends(SHIPPED.scope)
  {
    assert Joined(SCOPE) == Joined(SCOPE[..9]) + SCOPE_10;
    assert SCOPE_10[|SCOPE_10| - 1] == '.';
  }

  lemma ContentsAreVisible(b: Builder, a: Article)
    requires Fits(b.wording) && a.Article?
    ensures forall i :: 0 <= i < |Sections(b, a)| ==> Begins(Sections(b, a)[i].content)
    ensures Ends(Sections(b, a)[|Sections(b, a)| - 1].content)
  {
    ArticleIsVisible(b, a);
    if a.blocks != [] {
      PayloadIsVisible(b, a);
    }
    assert TrustBoundary(b.wording).content[0] == b.wording.trustIntro[0];
    if HasValidFocus(a) {
      assert FocusSection(b.wording, a).content[0] == b.wording.focusIntro[0];
    }
  }

  lemma ArticleIsVisible(b: Builder, a: Article)
    requires a.Article?
    ensures Begins(ArticlePayload(b, a).content) && Ends(ArticlePayload(b, a).content)
  {
    var s := ArticlePayload(b, a).content;
    assert s[0] == ARTICLE_START[0] && s[|s| - 1] == ARTICLE_END[|ARTICLE_END| - 1];
  }

  lemma PayloadIsVisible(b: Builder, a: Article)
    requires a.Article? && a.blocks != []
    ensures Begins(CodeBlocksPayload(b, a).content) && Ends(CodeBlocksPayload(b, a).content)
  {
    var k := |a.blocks| - 1;
    PayloadShowsTheBlocks(b, a);
    ShownIsVisible(b, 0, a.blocks[0]);
    ShownIsVisible(b, k, a.blocks[k]);
    SeparatedIsTrim(ShownBlocks(b, a.blocks));
  }

  lemma PromptIsTheContents(b: Builder, a: Article)
    requires Fits(b.wording) && a.Article?
    ensures Rendered(Sections(b, a)) == Separated(ContentsOf(Sections(b, a)))
  {
    ContentsAreVisible(b, a);
    SpacedIsEach(Sections(b, a));
    TrimmedEach(ContentsOf(Sections(b, a)));
  }

  /** What a prompt about `a` says, part by part. */
  function Texts(b: Builder, a: Article): seq<string>
    requires a.Article?
  {
    var w := b.wording;
    [w.identity, w.trustIntro + ("<untrusted_article>" + (" or " + ("<untrusted_code_block>" + w.trustRules))), w.scope]
    + (if a.focus.FocusOn? && 0 <= a.focus.index < |a.blocks| then [w.focusIntro + Decimal(a.focus.index) + w.focusRule]
       else [])
    + (if a.content == "" then []
       else ["<untrusted_article>\n" + (b.neutralize(a.content) + "\n" + "</untrusted_article>")])
    + (if a.blocks == [] then [] else [Separated(ShownBlocks(b, a.blocks))])
  }

  lemma ContentsJoin(ss: seq<Section>, more: seq<Section>)
    ensures ContentsOf(ss + more) == ContentsOf(ss) + ContentsOf(more)
  {
  }

  lemma ContentIfAny(any: bool, s: Section)
    ensures ContentsOf(if any then [s] else []) == if any then [s.content] else []
  {
  }

  lemma StableContents(b: Builder)
    ensures ContentsOf([CoreIdentity(b.wording), TrustBoundary(b.wording), Scope(b.wording)])
            == [b.wording.identity,
                b.wording.trustIntro + ("<untrusted_article>" + (" or " + ("<untrusted_code_block>" + b.wording.trustRules))),
                b.wording.scope]
  {
  }

  lemma FocusContents(b: Builder, a: Article)
    requires a.Article?
    ensures ContentsOf(if HasValidFocus(a) then [FocusSection(b.wording, a)] else [])
            == if a.focus.FocusOn? && 0 <= a.focus.index < |a.blocks|
               then [b.wording.focusIntro + Decimal(a.focus.index) + b.wording.focusRule] else []
  {
  }

  lemma ContentsAreTexts(b: Builder, a: Article)
    requires a.Article?
    ensures ContentsOf(Sections(b, a)) == Texts(b, a)
  {
    var stable := [CoreIdentity(b.wording), TrustBoundary(b.wording), Scope(b.wording)];
    var focus := if HasValidFocus(a) then [FocusSection(b.wording, a)] else [];
    var article := if a.content != "" then [ArticlePayload(b, a)] else [];
    var blocks := if a.blocks != [] then [CodeBlocksPayload(b, a)] else [];
    ContentsJoin(stable, focus);
    ContentsJoin(stable + focus, article);
    ContentsJoin(stable + focus + article, blocks);
    StableContents(b);
    FocusContents(b, a);
    ContentIfAny(a.content != "", ArticlePayload(b, a));
    ContentIfAny(a.blocks != [], CodeBlocksPayload(b, a));
    if a.blocks != [] {
      PayloadShowsTheBlocks(b, a);
    }
  }

  /** The prompt is those parts in order, with an empty line between each two, and nothing around them. */
  lemma PromptSaysItsTexts(b: Builder, a: Article)
    requires Fits(b.wording) && a.Article?
    ensures Rendered(Sections(b, a)) == Separated(Texts(b, a))
  {
    PromptIsTheContents(b, a);
    ContentsAreTexts(b, a);
  }
}
