/** The prompt builders: pure text construction from the captions to
    translate, the context lines and the two language names. */
module Prompts {
  import opened Text
  import opened Captions
  import opened Cli

  /** A caption's lines joined by spaces, as every prompt quotes it. */
  function Quoted(c: Caption): string {
    Join(c.text, " ")
  }

  const HeaderLead: string := "Previous successfully translated lines in "
  const HeaderFollow: string := " (for context):\n"

  function ContextHeader(lang: string): string {
    HeaderLead + lang + HeaderFollow
  }

  /** `Line %d: %s\n` for the `k`-th context line (counting from 1). */
  function ContextEntry(k: nat, line: string): string {
    "Line " + NatToString(k) + ": " + line + "\n"
  }

  /** The numbered context lines, numbering from `first`. */
  function NumberedEntries(ctx: seq<string>, first: nat): (r: seq<string>)
    ensures |r| == |ctx|
  {
    seq(|ctx|, k requires 0 <= k < |ctx| => ContextEntry(first + k, ctx[k]))
  }

  /** The numbered context list, one entry after another. */
  function ContextList(ctx: seq<string>, first: nat): string {
    Concat(NumberedEntries(ctx, first))
  }

  /** The list is the first entry followed by the list of the rest, so the
      entries come in order, numbered upwards from `first`. */
  lemma ContextListOrder(ctx: seq<string>, first: nat)
    requires |ctx| > 0
    ensures ContextList(ctx, first) == ContextEntry(first, ctx[0]) + ContextList(ctx[1..], first + 1)
  {
    var entries := NumberedEntries(ctx, first);
    assert entries[1..] == NumberedEntries(ctx[1..], first + 1);
  }

  /** Every context line appears in the list under its own number. */
  lemma ContextListHasEntries(ctx: seq<string>, first: nat)
    ensures forall k :: 0 <= k < |ctx| ==> IsInfix(ContextEntry(first + k, ctx[k]), ContextList(ctx, first))
  {
    var entries := NumberedEntries(ctx, first);
    ConcatHasParts(entries);
    assert forall k :: 0 <= k < |ctx| ==> entries[k] == ContextEntry(first + k, ctx[k]);
  }

  /** `lead + first + middle + second + follow`: the shape of every
      instruction sentence, which names the two languages. */
  function Sentence(lead: string, first: string, middle: string, second: string, follow: string): string {
    lead + first + middle + second + follow
  }

  lemma SentenceMentions(lead: string, first: string, middle: string, second: string, follow: string)
    ensures var s := Sentence(lead, first, middle, second, follow);
      IsInfix(first, s) && IsInfix(second, s) && IsPrefix(lead, s)
  {
    var s := Sentence(lead, first, middle, second, follow);
    InfixOfConcat(lead, first, middle + second + follow);
    assert lead + first + (middle + second + follow) == s;
    InfixOfConcat(lead + first + middle, second, follow);
    assert s[..|lead|] == lead;
  }

  const ContextLead: string := "Based on the above context, translate the following subtitle line from "
  const ContextFollow: string := ".\nMaintain consistency with previous translations, same style and tone, ensuring the translation flows naturally.\n\n"
  const PlainLead: string := "Translate the following subtitle line from "
  const PlainFollow: string := ".\nUse natural and fluent language while maintaining the original style and tone.\n\n"

  /** The instruction block of the primary prompt, which depends on whether
      there is context to stay consistent with. */
  function PrimaryInstruction(cfg: Config, hasContext: bool): string {
    if hasContext then Sentence(ContextLead, cfg.originalLang, " to ", cfg.lang, ContextFollow)
    else Sentence(PlainLead, cfg.originalLang, " to ", cfg.lang, PlainFollow)
  }

  function LineToTranslate(c: Caption): string {
    "Line to translate: " + Quoted(c) + "\n"
  }

  function PrimaryContext(cfg: Config, ctx: seq<string>): string {
    if |ctx| > 0 then ContextHeader(cfg.lang) + ContextList(ctx, 1) + "\n" else []
  }

  /** `buildTranslationPrompt`: an optional numbered context section, the
      instruction, and the first caption to translate. Only the first caption
      is quoted, so the caller must supply one. */
  function BuildTranslationPrompt(cfg: Config, lines: seq<Caption>, ctx: seq<string>): string
    requires |lines| >= 1
  {
    PrimaryContext(cfg, ctx) + (PrimaryInstruction(cfg, |ctx| > 0) + LineToTranslate(lines[0]))
  }

  /** The primary prompt names both languages; it carries the consistency
      instruction when there is context and the plain one when there is
      none; it opens with the context header exactly when there is context;
      it lists every context entry numbered from 1; and it ends with the
      caption to translate. */
  lemma TranslationPromptShape(cfg: Config, lines: seq<Caption>, ctx: seq<string>)
    requires |lines| >= 1
    ensures var r := BuildTranslationPrompt(cfg, lines, ctx);
      && IsInfix(cfg.lang, r) && IsInfix(cfg.originalLang, r)
      && IsInfix(PrimaryInstruction(cfg, |ctx| > 0), r)
      && (IsPrefix(ContextHeader(cfg.lang), r) <==> |ctx| > 0)
      && (|ctx| > 0 ==> IsPrefix(ContextHeader(cfg.lang) + ContextList(ctx, 1) + "\n" + PrimaryInstruction(cfg, true), r))
      && (forall k :: 0 <= k < |ctx| ==> IsInfix(ContextEntry(k + 1, ctx[k]), r))
      && IsSuffix(LineToTranslate(lines[0]), r)
  {
    PrimaryPromptFacts(cfg, lines[0], ctx);
    if |ctx| > 0 {
      PrefixOfConcat(PrimaryContext(cfg, ctx), PrimaryInstruction(cfg, true), LineToTranslate(lines[0]));
    }
  }

  lemma PrimaryPromptFacts(cfg: Config, c: Caption, ctx: seq<string>)
    ensures var r := PrimaryContext(cfg, ctx) + (PrimaryInstruction(cfg, |ctx| > 0) + LineToTranslate(c));
      && IsInfix(cfg.lang, r) && IsInfix(cfg.originalLang, r)
      && IsInfix(PrimaryInstruction(cfg, |ctx| > 0), r)
      && (IsPrefix(ContextHeader(cfg.lang), r) <==> |ctx| > 0)
      && (forall k :: 0 <= k < |ctx| ==> IsInfix(ContextEntry(k + 1, ctx[k]), r))
      && IsSuffix(LineToTranslate(c), r)
  {
    var context := PrimaryContext(cfg, ctx);
    var instruction := PrimaryInstruction(cfg, |ctx| > 0);
    var tail := LineToTranslate(c);
    var rest := instruction + tail;
    PrimaryMentionsLanguages(cfg, |ctx| > 0, context, tail);
    ConcatAssoc(context, instruction, tail);
    InfixOfConcat(context, instruction, tail);
    assert rest[..|instruction|] == instruction;
    PrimaryOpening(cfg, ctx, rest);
    PrimaryListsContext(cfg, ctx, rest);
    SuffixOfConcat(context + instruction, tail);
  }

  lemma PrimaryMentionsLanguages(cfg: Config, hasContext: bool, context: string, tail: string)
    ensures var r := context + PrimaryInstruction(cfg, hasContext) + tail;
      IsInfix(cfg.lang, r) && IsInfix(cfg.originalLang, r)
  {
    var instruction := PrimaryInstruction(cfg, hasContext);
    if hasContext {
      SentenceMentions(ContextLead, cfg.originalLang, " to ", cfg.lang, ContextFollow);
    } else {
      SentenceMentions(PlainLead, cfg.originalLang, " to ", cfg.lang, PlainFollow);
    }
    InfixWiden(cfg.originalLang, context, instruction, tail);
    InfixWiden(cfg.lang, context, instruction, tail);
  }

  /** The prompt opens with the context header exactly when there is context;
      without it, the prompt opens with the plain instruction. */
  lemma PrimaryOpening(cfg: Config, ctx: seq<string>, rest: string)
    requires IsPrefix(PrimaryInstruction(cfg, |ctx| > 0), rest)
    ensures IsPrefix(ContextHeader(cfg.lang), PrimaryContext(cfg, ctx) + rest) <==> |ctx| > 0
    ensures |ctx| == 0 ==> IsPrefix(PrimaryInstruction(cfg, false), PrimaryContext(cfg, ctx) + rest)
  {
    if |ctx| > 0 {
      OpeningWithContext(ContextHeader(cfg.lang), ContextList(ctx, 1), rest);
    } else {
      assert PrimaryContext(cfg, ctx) + rest == rest;
      OpeningWithoutContext(cfg, rest);
    }
  }

  lemma OpeningWithContext(header: string, list: string, rest: string)
    ensures IsPrefix(header, header + list + "\n" + rest)
  {
    ConcatAssoc(header, list, "\n");
    ConcatAssoc(header, list + "\n", rest);
    assert (header + ((list + "\n") + rest))[..|header|] == header;
  }

  /** The plain instruction starts with a different letter from the header. */
  lemma OpeningWithoutContext(cfg: Config, rest: string)
    requires IsPrefix(PrimaryInstruction(cfg, false), rest)
    ensures !IsPrefix(ContextHeader(cfg.lang), rest)
  {
    assert ContextHeader(cfg.lang)[..|HeaderLead|] == HeaderLead;
    SentenceMentions(PlainLead, cfg.originalLang, " to ", cfg.lang, PlainFollow);
    PrefixTransitive(PlainLead, PrimaryInstruction(cfg, false), rest);
    assert HeaderLead[0] == 'P' && PlainLead[0] == 'T';
    if IsPrefix(ContextHeader(cfg.lang), rest) {
      PrefixTransitive(HeaderLead, ContextHeader(cfg.lang), rest);
    }
  }

  lemma PrimaryListsContext(cfg: Config, ctx: seq<string>, rest: string)
    ensures forall k :: 0 <= k < |ctx| ==> IsInfix(ContextEntry(k + 1, ctx[k]), PrimaryContext(cfg, ctx) + rest)
  {
    if |ctx| > 0 {
      var header := ContextHeader(cfg.lang);
      var list := ContextList(ctx, 1);
      ContextListHasEntries(ctx, 1);
      forall k | 0 <= k < |ctx| ensures IsInfix(ContextEntry(k + 1, ctx[k]), PrimaryContext(cfg, ctx) + rest) {
        InfixWiden(ContextEntry(1 + k, ctx[k]), header, list, "\n" + rest);
        assert header + list + ("\n" + rest) == PrimaryContext(cfg, ctx) + rest;
      }
    }
  }

  /** The opening instruction of each alternative strategy; any strategy
      other than 1, 2 and 3 gets the generic one. */
  function AlternativeIntro(cfg: Config, strategy: int): string {
    match strategy
    case 1 => Sentence(NumberedLead, cfg.originalLang, " to ", cfg.lang, NumberedFollow)
    case 2 => Sentence(PlainTextLead, cfg.originalLang, " text to ", cfg.lang, PlainTextFollow)
    case 3 => Sentence(TranslatorLead, cfg.originalLang, " subtitles to ", cfg.lang, TranslatorFollow)
    case _ => Sentence(GenericLead, cfg.originalLang, " subtitles to ", cfg.lang, GenericFollow)
  }

  const NumberedLead: string := "Translate each of these lines from "
  const NumberedFollow: string := ":\n\n"
  const PlainTextLead: string := "Translate the following "
  const PlainTextFollow: string := ". Return ONLY the translated text, one subtitle per line:\n\n"
  const RolePreamble: string := "You are a professional subtitle translator. "
  const TranslatorLead: string := RolePreamble + PlainTextLead
  const TranslatorFollow: string := ". Your response should contain ONLY the translated subtitles, one per line:\n\n"
  const GenericLead: string := "Please translate these "
  const GenericFollow: string := " as accurately as possible:\n\n"

  /** The fixed opening of strategies 1, 2 and 3. */
  function Lead(strategy: int): string
    requires 1 <= strategy <= 3
  {
    if strategy == 1 then NumberedLead else if strategy == 2 then PlainTextLead else TranslatorLead
  }

  lemma AlternativeIntroFacts(cfg: Config, strategy: int)
    ensures var intro := AlternativeIntro(cfg, strategy);
      IsInfix(cfg.lang, intro) && IsInfix(cfg.originalLang, intro)
    ensures 1 <= strategy <= 3 ==> IsPrefix(Lead(strategy), AlternativeIntro(cfg, strategy))
  {
    match strategy {
      case 1 => SentenceMentions(NumberedLead, cfg.originalLang, " to ", cfg.lang, NumberedFollow);
      case 2 => SentenceMentions(PlainTextLead, cfg.originalLang, " text to ", cfg.lang, PlainTextFollow);
      case 3 => SentenceMentions(TranslatorLead, cfg.originalLang, " subtitles to ", cfg.lang, TranslatorFollow);
      case _ => SentenceMentions(GenericLead, cfg.originalLang, " subtitles to ", cfg.lang, GenericFollow);
    }
  }

  /** How strategy `strategy` lists the caption at position `i`: numbered
      from 1 for strategy 1, dash-bulleted for strategy 3, bare otherwise. */
  function AlternativeEntry(strategy: int, i: nat, c: Caption): string {
    match strategy
    case 1 => NatToString(i + 1) + ". " + Quoted(c) + "\n"
    case 3 => "- " + Quoted(c) + "\n"
    case _ => Quoted(c) + "\n"
  }

  /** Every caption in the strategy's list format, numbering from `first`. */
  function AlternativeEntries(strategy: int, lines: seq<Caption>, first: nat): (r: seq<string>)
    ensures |r| == |lines|
  {
    seq(|lines|, k requires 0 <= k < |lines| => AlternativeEntry(strategy, first + k, lines[k]))
  }

  function AlternativeList(strategy: int, lines: seq<Caption>, first: nat): string {
    Concat(AlternativeEntries(strategy, lines, first))
  }

  lemma AlternativeListHasEntries(strategy: int, lines: seq<Caption>, first: nat)
    ensures forall k :: 0 <= k < |lines| ==>
      IsInfix(AlternativeEntry(strategy, first + k, lines[k]), AlternativeList(strategy, lines, first))
  {
    var entries := AlternativeEntries(strategy, lines, first);
    ConcatHasParts(entries);
    assert forall k :: 0 <= k < |lines| ==> entries[k] == AlternativeEntry(strategy, first + k, lines[k]);
  }

  /** `buildAlternativePrompt`: the strategy's instruction followed by every
      caption in the strategy's list format. */
  function BuildAlternativePrompt(cfg: Config, strategy: int, lines: seq<Caption>): string {
    AlternativeIntro(cfg, strategy) + AlternativeList(strategy, lines, 0)
  }

  /** An alternative prompt names both languages, opens with the strategy's
      instruction and lists every caption in the strategy's format. */
  lemma AlternativePromptShape(cfg: Config, strategy: int, lines: seq<Caption>)
    ensures var r := BuildAlternativePrompt(cfg, strategy, lines);
      && IsInfix(cfg.lang, r) && IsInfix(cfg.originalLang, r)
      && (forall k :: 0 <= k < |lines| ==> IsInfix(AlternativeEntry(strategy, k, lines[k]), r))
      && IsPrefix(AlternativeIntro(cfg, strategy), r)
  {
    var intro := AlternativeIntro(cfg, strategy);
    AlternativeIntroFacts(cfg, strategy);
    IntroThenList(cfg, intro, AlternativeList(strategy, lines, 0));
    AlternativeListed(strategy, lines, intro);
  }

  lemma IntroThenList(cfg: Config, intro: string, list: string)
    requires IsInfix(cfg.lang, intro) && IsInfix(cfg.originalLang, intro)
    ensures IsInfix(cfg.lang, intro + list) && IsInfix(cfg.originalLang, intro + list)
    ensures IsPrefix(intro, intro + list)
  {
    assert (intro + list)[..|intro|] == intro;
    InfixWiden(cfg.lang, [], intro, list);
    InfixWiden(cfg.originalLang, [], intro, list);
    assert [] + intro + list == intro + list;
  }

  lemma AlternativeListed(strategy: int, lines: seq<Caption>, intro: string)
    ensures forall k :: 0 <= k < |lines| ==>
      IsInfix(AlternativeEntry(strategy, k, lines[k]), intro + AlternativeList(strategy, lines, 0))
  {
    var list := AlternativeList(strategy, lines, 0);
    AlternativeListHasEntries(strategy, lines, 0);
    forall k | 0 <= k < |lines| ensures IsInfix(AlternativeEntry(strategy, k, lines[k]), intro + list) {
      assert 0 + k == k;
      InfixWiden(AlternativeEntry(strategy, k, lines[k]), intro, list, []);
      assert intro + list + [] == intro + list;
    }
  }

  lemma LeadsDiffer(s1: int, s2: int)
    requires 1 <= s1 <= 3 && 1 <= s2 <= 3 && s1 != s2
    ensures |Lead(s1)| > 10 && |Lead(s2)| > 10
    ensures Lead(s1)[0] != Lead(s2)[0] || Lead(s1)[10] != Lead(s2)[10]
  {
    assert NumberedLead[0] == 'T' && NumberedLead[10] == 'e';
    assert PlainTextLead[0] == 'T' && PlainTextLead[10] == 't';
    assert RolePreamble[0] == 'Y' && |RolePreamble| > 10;
  }

  /** The three alternative strategies send three different prompts: their
      openings already differ, whatever the languages and captions. */
  lemma AlternativePromptsDiffer(cfg: Config, s1: int, s2: int, lines: seq<Caption>)
    requires 1 <= s1 <= 3 && 1 <= s2 <= 3 && s1 != s2
    ensures BuildAlternativePrompt(cfg, s1, lines) != BuildAlternativePrompt(cfg, s2, lines)
  {
    var p1 := BuildAlternativePrompt(cfg, s1, lines);
    var p2 := BuildAlternativePrompt(cfg, s2, lines);
    AlternativePromptShape(cfg, s1, lines);
    AlternativePromptShape(cfg, s2, lines);
    AlternativeIntroFacts(cfg, s1);
    AlternativeIntroFacts(cfg, s2);
    var l1 := Lead(s1);
    var l2 := Lead(s2);
    PrefixTransitive(l1, AlternativeIntro(cfg, s1), p1);
    PrefixTransitive(l2, AlternativeIntro(cfg, s2), p2);
    LeadsDiffer(s1, s2);
  }
}
