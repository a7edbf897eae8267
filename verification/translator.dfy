/** The sequential translator: one attempt (`attemptTranslation`), the
    per-caption retry ladder and the loop over all captions
    (`processSubtitles`). The language model is a parameter. */
module Translator {
  import opened Text
  import opened Captions
  import opened Helpers
  import opened Cli
  import opened Prompts
  import opened Aligner

  /** What one chat call yields: the decoded `Translation` field of the
      structured reply, or a client error. */
  datatype ModelReply = Answer(translation: string) | ChatError

  /** The language model as the translator sees it: a prompt in, a reply out. */
  type Model = string -> ModelReply

  /** Why an attempt failed, one per error return of `attemptTranslation`. */
  datatype AttemptError = ModelFailed | EmptyTranslation | NoValidTranslations

  datatype Attempt = Translated(lines: seq<Caption>) | Failed(error: AttemptError)

  /** Any negative strategy selects the primary prompt; the translator uses -1. */
  const PrimaryStrategy: int := -1

  /** The prompt `attemptTranslation` builds for `strategy`. */
  function PromptFor(cfg: Config, strategy: int, lines: seq<Caption>, ctx: seq<string>): string
    requires strategy < 0 ==> |lines| >= 1
  {
    if strategy < 0 then BuildTranslationPrompt(cfg, lines, ctx) else BuildAlternativePrompt(cfg, strategy, lines)
  }

  /** What `attemptTranslation` makes of the model's reply to the captions
      `lines`. It fails when the model errors, when the reply is blank, or
      when alignment yields nothing (which only happens for an empty caption
      list); it never succeeds with an empty list, and on success there is
      one item per caption sent. */
  function ReadReply(reply: ModelReply, lines: seq<Caption>): (r: Attempt)
    ensures r.Translated? <==> reply.Answer? && !IsBlank(reply.translation) && |lines| > 0
    ensures r == Failed(ModelFailed) <==> reply.ChatError?
    ensures r == Failed(EmptyTranslation) <==> reply.Answer? && IsBlank(reply.translation)
    ensures r.Translated? ==> |r.lines| == |lines| > 0
    ensures r.Translated? && |lines| == 1 ==> r.lines == [Translate(lines[0], ResponseLines(reply.translation)[0])]
  {
    if reply.ChatError? then Failed(ModelFailed)
    else if TrimSpace(reply.translation) == [] then Failed(EmptyTranslation)
    else
      var translated := ProcessTranslatedResponse(reply.translation, lines);
      if |lines| == 1 then AlignSingle(reply.translation, lines[0]); Translated(translated)
      else if |translated| == 0 then Failed(NoValidTranslations)
      else Translated(translated)
  }

  /** `attemptTranslation`: build the prompt for `strategy`, make one model
      call and read its reply. It succeeds exactly when the model answers
      with a reply that is not blank, and then returns one item per caption;
      a client error is reported as such. */
  function AttemptTranslation(model: Model, cfg: Config, lines: seq<Caption>, ctx: seq<string>, strategy: int): (r: Attempt)
    requires strategy < 0 ==> |lines| >= 1
    ensures var reply := model(PromptFor(cfg, strategy, lines, ctx));
      && (r.Translated? <==> reply.Answer? && !IsBlank(reply.translation) && |lines| > 0)
      && (r.Translated? ==> |r.lines| == |lines|)
      && (r == Failed(ModelFailed) <==> reply.ChatError?)
  {
    ReadReply(model(PromptFor(cfg, strategy, lines, ctx)), lines)
  }

  /** The caption a line ends up with, and every prompt sent for it in order. */
  datatype LineOutcome = LineOutcome(caption: Caption, prompts: seq<string>)

  /** How the ladder reads the reply to one prompt for the caption it is
      working on: one attempt, as `attemptTranslation` does it. */
  function Reader(model: Model, src: Caption): string -> Attempt {
    p => ReadReply(model(p), [src])
  }

  /** Whether the attempt on `prompt` counts as a success: no error and at
      least one caption back. */
  predicate Answers(read: string -> Attempt, prompt: string) {
    read(prompt).Translated? && |read(prompt).lines| > 0
  }

  /** Sends the prompts in order and stops at the first success; when every
      attempt fails the source caption is kept. One model call per prompt
      tried. */
  function RunLadder(read: string -> Attempt, src: Caption, rungs: seq<string>): (r: LineOutcome)
    ensures |r.prompts| <= |rungs| && (|rungs| > 0 ==> |r.prompts| >= 1)
    decreases |rungs|
  {
    if |rungs| == 0 then LineOutcome(src, [])
    else if Answers(read, rungs[0]) then LineOutcome(read(rungs[0]).lines[0], [rungs[0]])
    else
      var rest := RunLadder(read, src, rungs[1..]);
      LineOutcome(rest.caption, [rungs[0]] + rest.prompts)
  }

  /** The ladder's trace: the prompts tried are a prefix of the rungs; every
      rung before the last one tried failed; the caption is the last rung's
      first caption when it succeeded, and otherwise every rung failed and
      the caption is the source caption. */
  lemma {:induction false} RunLadderShape(read: string -> Attempt, src: Caption, rungs: seq<string>)
    ensures var r := RunLadder(read, src, rungs);
      r.prompts == rungs[..|r.prompts|]
    ensures var r := RunLadder(read, src, rungs);
      forall k :: 0 <= k < |r.prompts| - 1 ==> !Answers(read, rungs[k])
    ensures var r := RunLadder(read, src, rungs);
      var n := |r.prompts|;
      n > 0 && Answers(read, rungs[n - 1]) ==> r.caption == read(rungs[n - 1]).lines[0]
    ensures var r := RunLadder(read, src, rungs);
      var n := |r.prompts|;
      n == 0 || !Answers(read, rungs[n - 1]) ==> n == |rungs| && r.caption == src
    decreases |rungs|
  {
    if |rungs| > 0 && !Answers(read, rungs[0]) {
      var tail := rungs[1..];
      RunLadderShape(read, src, tail);
      var rest := RunLadder(read, src, tail);
      var n := |rest.prompts| + 1;
      assert rungs[..n] == [rungs[0]] + tail[..n - 1];
      forall k | 1 <= k < n - 1 ensures !Answers(read, rungs[k]) {
        assert tail[k - 1] == rungs[k];
      }
      if n > 1 {
        assert tail[n - 2] == rungs[n - 1];
      }
    }
  }

  /** A rung succeeds exactly when the model answers its prompt with a reply
      that is not blank; the caption it yields is then the source caption
      carrying the trimmed first line of the reply, with the source's number
      and timing. */
  lemma ReaderAnswers(model: Model, src: Caption, p: string)
    ensures Answers(Reader(model, src), p) <==> model(p).Answer? && !IsBlank(model(p).translation)
    ensures Answers(Reader(model, src), p) ==>
      Reader(model, src)(p).lines[0] == Translate(src, ResponseLines(model(p).translation)[0])
  {
  }

  /** Whatever the model says, the ladder keeps the caption's sequence number
      and timing. */
  lemma LineKeepsTiming(model: Model, src: Caption, rungs: seq<string>)
    ensures SameTiming(RunLadder(Reader(model, src), src, rungs).caption, src)
  {
    RunLadderShape(Reader(model, src), src, rungs);
    var n := |RunLadder(Reader(model, src), src, rungs).prompts|;
    if n > 0 {
      ReaderAnswers(model, src, rungs[n - 1]);
    }
  }

  /** The prompts of alternatives 1, 2 and 3, which carry no context. */
  function AlternativePrompts(cfg: Config, src: Caption): (r: seq<string>)
    ensures |r| == 3
    ensures forall k :: 0 <= k < 3 ==> r[k] == PromptFor(cfg, k + 1, [src], [])
  {
    [BuildAlternativePrompt(cfg, 1, [src]), BuildAlternativePrompt(cfg, 2, [src]), BuildAlternativePrompt(cfg, 3, [src])]
  }

  /** The four prompts of the retry ladder: the primary prompt with the
      context window, then alternatives 1, 2 and 3 without it. */
  function LadderPrompts(cfg: Config, src: Caption, ctx: seq<string>): (r: seq<string>)
    ensures |r| == 4 && r[1..] == AlternativePrompts(cfg, src)
    ensures r[0] == PromptFor(cfg, PrimaryStrategy, [src], ctx)
  {
    [BuildTranslationPrompt(cfg, [src], ctx)] + AlternativePrompts(cfg, src)
  }

  /** The retry ladder for one caption, as in the body of the loop of
      `processSubtitles`: between one and four model calls. */
  function TranslateLine(model: Model, cfg: Config, src: Caption, ctx: seq<string>): (r: LineOutcome)
    ensures SameTiming(r.caption, src)
    ensures 1 <= |r.prompts| <= 4
  {
    var r := RunLadder(Reader(model, src), src, LadderPrompts(cfg, src, ctx));
    LineKeepsTiming(model, src, LadderPrompts(cfg, src, ctx));
    r
  }

  /** Whether rung `k` of the ladder succeeds for `src`. */
  predicate Succeeds(model: Model, cfg: Config, src: Caption, ctx: seq<string>, k: int) {
    0 <= k < 4 && Answers(Reader(model, src), LadderPrompts(cfg, src, ctx)[k])
  }

  /** The prompts the ladder sends: the primary prompt with the context
      window first; after it, alternatives 1, 2 and 3 in that order, without
      context. */
  lemma LadderPromptsSent(model: Model, cfg: Config, src: Caption, ctx: seq<string>)
    ensures var r := TranslateLine(model, cfg, src, ctx);
      && r.prompts[0] == BuildTranslationPrompt(cfg, [src], ctx)
      && (forall k :: 1 <= k < |r.prompts| ==> r.prompts[k] == BuildAlternativePrompt(cfg, k, [src]))
  {
    var rungs := LadderPrompts(cfg, src, ctx);
    RunLadderShape(Reader(model, src), src, rungs);
    var r := TranslateLine(model, cfg, src, ctx);
    forall k | 1 <= k < |r.prompts| ensures r.prompts[k] == BuildAlternativePrompt(cfg, k, [src]) {
      assert r.prompts[k] == rungs[..|r.prompts|][k] == rungs[1..][k - 1];
    }
  }

  /** The ladder stops at the first success: every rung before the last one
      tried failed; when the last one succeeded the caption is the source
      caption carrying the trimmed first line of that reply, and otherwise
      all four failed and the caption is the source caption. */
  lemma LadderShape(model: Model, cfg: Config, src: Caption, ctx: seq<string>)
    ensures var r := TranslateLine(model, cfg, src, ctx);
      var n := |r.prompts|;
      && (forall k :: 0 <= k < n - 1 ==> !Succeeds(model, cfg, src, ctx, k))
      && (Succeeds(model, cfg, src, ctx, n - 1) ==>
            var reply := model(r.prompts[n - 1]);
            reply.Answer? && !IsBlank(reply.translation)
            && r.caption == src.WithText([TrimSpace(ResponseLines(reply.translation)[0])]))
      && (!Succeeds(model, cfg, src, ctx, n - 1) ==> n == 4 && r.caption == src)
  {
    var rungs := LadderPrompts(cfg, src, ctx);
    RunLadderShape(Reader(model, src), src, rungs);
    var r := TranslateLine(model, cfg, src, ctx);
    assert r.prompts[|r.prompts| - 1] == rungs[..|r.prompts|][|r.prompts| - 1];
    ReaderAnswers(model, src, rungs[|r.prompts| - 1]);
  }

  /** Exhaustion fallback: when all four rungs fail, the line is the source
      caption, text included, after exactly four model calls. */
  lemma AllRungsFail(model: Model, cfg: Config, src: Caption, ctx: seq<string>)
    requires forall k :: 0 <= k < 4 ==> !Succeeds(model, cfg, src, ctx, k)
    ensures TranslateLine(model, cfg, src, ctx).caption == src
    ensures |TranslateLine(model, cfg, src, ctx).prompts| == 4
  {
    LadderShape(model, cfg, src, ctx);
  }

  /** A successful primary attempt ends the ladder after one call, with the
      trimmed first line of the reply as the caption's only text. */
  lemma PrimarySucceeds(model: Model, cfg: Config, src: Caption, ctx: seq<string>)
    requires Succeeds(model, cfg, src, ctx, 0)
    ensures var prompt := BuildTranslationPrompt(cfg, [src], ctx);
      TranslateLine(model, cfg, src, ctx)
        == LineOutcome(Translate(src, ResponseLines(model(prompt).translation)[0]), [prompt])
  {
    ReaderAnswers(model, src, BuildTranslationPrompt(cfg, [src], ctx));
  }

  /** The joined text of every caption in `cs` that has any, in order. */
  function ContextEntries(cs: seq<Caption>): (r: seq<string>)
    ensures |r| <= |cs|
  {
    if |cs| == 0 then []
    else
      var last := cs[|cs| - 1];
      ContextEntries(cs[..|cs| - 1]) + (if |last.text| > 0 then [Join(last.text, "\n")] else [])
  }

  /** Captions without text contribute nothing to the context. */
  lemma {:induction false} ContextEntriesSkipEmpty(cs: seq<Caption>)
    requires forall j :: 0 <= j < |cs| ==> |cs[j].text| == 0
    ensures ContextEntries(cs) == []
  {
    if |cs| > 0 {
      var init := cs[..|cs| - 1];
      assert forall j :: 0 <= j < |init| ==> init[j] == cs[j];
      ContextEntriesSkipEmpty(init);
    }
  }

  lemma ContextEntriesSnoc(cs: seq<Caption>, c: Caption)
    ensures ContextEntries(cs + [c]) == ContextEntries(cs) + (if |c.text| > 0 then [Join(c.text, "\n")] else [])
  {
    assert (cs + [c])[..|cs|] == cs;
  }

  /** One more caption in the range adds its entry, if it has text. */
  lemma ContextEntriesStep(target: seq<Caption>, lo: nat, j: nat)
    requires lo <= j < |target|
    ensures ContextEntries(target[lo..j + 1])
      == ContextEntries(target[lo..j]) + (if |target[j].text| > 0 then [Join(target[j].text, "\n")] else [])
  {
    ContextEntriesSnoc(target[lo..j], target[j]);
    assert target[lo..j + 1] == target[lo..j] + [target[j]];
  }

  /** When every caption has text, nothing is skipped: entry `k` is the
      joined text of caption `k`. */
  lemma {:induction false} ContextEntriesFull(cs: seq<Caption>)
    requires forall j :: 0 <= j < |cs| ==> |cs[j].text| > 0
    ensures var r := ContextEntries(cs);
      |r| == |cs| && forall k :: 0 <= k < |r| ==> r[k] == Join(cs[k].text, "\n")
  {
    if |cs| > 0 {
      var init := cs[..|cs| - 1];
      ContextEntriesFull(init);
      ContextEntriesSnoc(init, cs[|cs| - 1]);
      assert init + [cs[|cs| - 1]] == cs;
    }
  }

  /** How many captions in `cs` have text. */
  function WithTextCount(cs: seq<Caption>): (n: nat)
    ensures n <= |cs|
  {
    if |cs| == 0 then 0
    else WithTextCount(cs[..|cs| - 1]) + (if |cs[|cs| - 1].text| > 0 then 1 else 0)
  }

  /** Caption `j`, when it has text, contributes its joined text at the
      position given by the number of captions with text before it. */
  predicate EntryAt(r: seq<string>, cs: seq<Caption>, j: nat) {
    j < |cs| && |cs[j].text| > 0 ==>
      WithTextCount(cs[..j]) < |r| && r[WithTextCount(cs[..j])] == Join(cs[j].text, "\n")
  }

  /** The skip rule in general: one entry per caption with text, in order,
      each the caption's lines joined by newlines; captions without text
      leave no gap. */
  lemma {:induction false} ContextEntriesExact(cs: seq<Caption>)
    ensures |ContextEntries(cs)| == WithTextCount(cs)
    ensures forall j: nat :: EntryAt(ContextEntries(cs), cs, j)
    decreases |cs|
  {
    if |cs| > 0 {
      var init := cs[..|cs| - 1];
      ContextEntriesExact(init);
      forall j: nat ensures EntryAt(ContextEntries(cs), cs, j) {
        ContextEntryPlaced(cs, init, j);
      }
    }
  }

  lemma ContextEntryPlaced(cs: seq<Caption>, init: seq<Caption>, j: nat)
    requires |cs| > 0 && init == cs[..|cs| - 1]
    requires |ContextEntries(init)| == WithTextCount(init)
    requires forall i: nat :: EntryAt(ContextEntries(init), init, i)
    ensures EntryAt(ContextEntries(cs), cs, j)
  {
    if j < |cs| && |cs[j].text| > 0 {
      var before := ContextEntries(init);
      var last := cs[|cs| - 1];
      var added := if |last.text| > 0 then [Join(last.text, "\n")] else [];
      assert ContextEntries(cs) == before + added;
      if j < |cs| - 1 {
        assert cs[..j] == init[..j] && cs[j] == init[j];
        assert EntryAt(before, init, j);
        IndexBefore(ContextEntries(cs), before, added, WithTextCount(cs[..j]));
      } else {
        assert cs[..j] == init;
        IndexAfter(ContextEntries(cs), before, added, 0, WithTextCount(cs[..j]));
      }
    }
  }

  /** The context for caption `i`: the joined texts of the up to three
      targets before it, skipping those without text. Caption 0 gets none. */
  function ContextWindow(target: seq<Caption>, i: nat): (r: seq<string>)
    requires i <= |target|
    ensures i == 0 ==> r == []
    ensures |r| <= Min(i, 3)
  {
    ContextEntries(target[i - Min(i, 3)..i])
  }

  /** With text on the up to three targets before `i`, the window holds
      exactly min(i, 3) entries: their joined texts, oldest first. */
  lemma WindowOfFullTargets(target: seq<Caption>, i: nat)
    requires i <= |target|
    requires forall j :: i - Min(i, 3) <= j < i ==> |target[j].text| > 0
    ensures var r := ContextWindow(target, i);
      |r| == Min(i, 3) && forall k :: 0 <= k < |r| ==> r[k] == Join(target[i - Min(i, 3) + k].text, "\n")
  {
    var lo := i - Min(i, 3);
    var w := target[lo..i];
    assert forall j :: 0 <= j < |w| ==> w[j] == target[lo + j];
    ContextEntriesFull(w);
  }

  /** The window in general: one entry per target with text among the up
      to three before `i`, oldest first, each that target's lines joined by
      newlines; targets without text are skipped. */
  lemma ContextWindowExact(target: seq<Caption>, i: nat)
    requires i <= |target|
    ensures var lo := i - Min(i, 3);
      |ContextWindow(target, i)| == WithTextCount(target[lo..i])
    ensures var lo := i - Min(i, 3);
      var w := ContextWindow(target, i);
      forall j :: lo <= j < i && |target[j].text| > 0 ==>
        WithTextCount(target[lo..j]) < |w| && w[WithTextCount(target[lo..j])] == Join(target[j].text, "\n")
  {
    var lo := i - Min(i, 3);
    var range := target[lo..i];
    ContextEntriesExact(range);
    forall j | lo <= j < i && |target[j].text| > 0
      ensures WithTextCount(target[lo..j]) < |ContextWindow(target, i)|
      ensures ContextWindow(target, i)[WithTextCount(target[lo..j])] == Join(target[j].text, "\n")
    {
      assert range[..j - lo] == target[lo..j] && range[j - lo] == target[j];
      assert EntryAt(ContextEntries(range), range, j - lo);
    }
  }

  /** The window reads only the targets before `i`. */
  lemma ContextWindowReadsPrefix(t: seq<Caption>, u: seq<Caption>, i: nat)
    requires i <= |t| && i <= |u| && t[..i] == u[..i]
    ensures ContextWindow(t, i) == ContextWindow(u, i)
  {
    var lo := i - Min(i, 3);
    assert t[lo..i] == t[..i][lo..] == u[..i][lo..] == u[lo..i];
  }

  /** The outcome of the loop after its first `n` iterations. */
  datatype Run = Run(target: seq<Caption>, prompts: seq<string>)

  /** How one caption is handled, given the caption and the targets already
      written before it. */
  type Step = (Caption, seq<Caption>) -> LineOutcome

  /** The loop of `processSubtitles` over the first `n` captions, for any
      per-caption step: each caption is handled with the targets already
      written, and its prompts are appended to the log. */
  function Sweep(step: Step, source: seq<Caption>, n: nat): (r: Run)
    requires n <= |source|
    ensures |r.target| == n
  {
    if n == 0 then Run([], [])
    else
      var prev := Sweep(step, source, n - 1);
      var line := step(source[n - 1], prev.target);
      Run(prev.target + [line.caption], prev.prompts + line.prompts)
  }

  /** Later captions never change earlier targets. */
  lemma {:induction false} SweepStable(step: Step, source: seq<Caption>, k: nat, n: nat)
    requires k <= n <= |source|
    ensures Sweep(step, source, n).target[..k] == Sweep(step, source, k).target
    decreases n
  {
    if k < n {
      SweepStable(step, source, k, n - 1);
      var prev := Sweep(step, source, n - 1).target;
      assert Sweep(step, source, n).target[..k] == prev[..k];
    } else {
      assert Sweep(step, source, n).target[..k] == Sweep(step, source, n).target;
    }
  }

  /** Target `k` is what the step makes of its source caption, given the
      targets before it. */
  predicate FixedAt(step: Step, source: seq<Caption>, t: seq<Caption>, k: nat)
    requires |t| == |source| && k < |t|
  {
    t[k] == step(source[k], t[..k]).caption
  }

  /** Every target is what the step makes of its source caption. */
  predicate IsFixpoint(step: Step, source: seq<Caption>, t: seq<Caption>)
    requires |t| == |source|
  {
    forall k :: 0 <= k < |t| ==> FixedAt(step, source, t, k)
  }

  lemma SweepIsFixpoint(step: Step, source: seq<Caption>)
    ensures IsFixpoint(step, source, Sweep(step, source, |source|).target)
  {
    forall k | 0 <= k < |source| ensures FixedAt(step, source, Sweep(step, source, |source|).target, k) {
      SweepFixedAt(step, source, k);
    }
  }

  lemma SweepFixedAt(step: Step, source: seq<Caption>, k: nat)
    requires k < |source|
    ensures FixedAt(step, source, Sweep(step, source, |source|).target, k)
  {
    var t := Sweep(step, source, |source|).target;
    var here := Sweep(step, source, k + 1).target;
    SweepStable(step, source, k + 1, |source|);
    SweepStable(step, source, k, |source|);
    assert here[k] == step(source[k], Sweep(step, source, k).target).caption;
    assert t[k] == t[..k + 1][k];
  }

  lemma {:induction false} FixpointAgrees(step: Step, source: seq<Caption>, t: seq<Caption>, n: nat)
    requires |t| == |source| && IsFixpoint(step, source, t) && n <= |source|
    ensures t[..n] == Sweep(step, source, n).target
  {
    if n > 0 {
      FixpointAgrees(step, source, t, n - 1);
      assert FixedAt(step, source, t, n - 1);
      assert t[..n] == t[..n - 1] + [t[n - 1]];
    }
  }

  /** The per-caption description determines the loop's result completely. */
  lemma FixpointIsSweep(step: Step, source: seq<Caption>, t: seq<Caption>)
    requires |t| == |source| && IsFixpoint(step, source, t)
    ensures t == Sweep(step, source, |source|).target
  {
    FixpointAgrees(step, source, t, |source|);
    assert t[..|source|] == t;
  }

  /** The translator's step: the retry ladder with the window over the
      targets already written. */
  function LineStep(model: Model, cfg: Config): Step {
    (c, done) => TranslateLine(model, cfg, c, ContextWindow(done, |done|))
  }

  /** `processSubtitles` on the whole file. */
  function TranslateAll(model: Model, cfg: Config, source: seq<Caption>): (r: Run)
    ensures |r.target| == |source|
  {
    Sweep(LineStep(model, cfg), source, |source|)
  }

  /** The step keeps each caption's sequence number and timing and makes
      between one and four model calls, whatever came before. */
  ghost predicate WellBehaved(step: Step) {
    forall c, done :: SameTiming(step(c, done).caption, c) && 1 <= |step(c, done).prompts| <= 4
  }

  /** A well-behaved step keeps every caption's sequence number and timing,
      and the loop makes between one and four model calls per caption. */
  lemma {:induction false} SweepBounds(step: Step, source: seq<Caption>, n: nat)
    requires n <= |source| && WellBehaved(step)
    ensures var r := Sweep(step, source, n);
      && (forall k :: 0 <= k < n ==> SameTiming(r.target[k], source[k]))
      && n <= |r.prompts| <= 4 * n
  {
    if n > 0 {
      SweepBounds(step, source, n - 1);
      var prev := Sweep(step, source, n - 1);
      var line := step(source[n - 1], prev.target);
      var t := prev.target + [line.caption];
      assert Sweep(step, source, n).target == t;
      assert forall k :: 0 <= k < n - 1 ==> t[k] == prev.target[k];
    }
  }

  lemma LineStepWellBehaved(model: Model, cfg: Config)
    ensures WellBehaved(LineStep(model, cfg))
  {
  }

  /** Every target is what the ladder makes of its source caption, given the
      window over the final targets before it. */
  predicate LadderFixpoint(model: Model, cfg: Config, source: seq<Caption>, t: seq<Caption>)
    requires |t| == |source|
  {
    forall k :: 0 <= k < |t| ==> t[k] == TranslateLine(model, cfg, source[k], ContextWindow(t, k)).caption
  }

  lemma TranslateAllIsFixpoint(model: Model, cfg: Config, source: seq<Caption>)
    ensures LadderFixpoint(model, cfg, source, TranslateAll(model, cfg, source).target)
  {
    var t := TranslateAll(model, cfg, source).target;
    SweepIsFixpoint(LineStep(model, cfg), source);
    forall k | 0 <= k < |t|
      ensures t[k] == TranslateLine(model, cfg, source[k], ContextWindow(t, k)).caption
    {
      LadderFixedAt(model, cfg, source, t, k);
    }
  }

  /** The step sees the targets before `k`; the ladder sees their window. */
  lemma LadderFixedAt(model: Model, cfg: Config, source: seq<Caption>, t: seq<Caption>, k: nat)
    requires |t| == |source| && k < |t|
    ensures FixedAt(LineStep(model, cfg), source, t, k)
      <==> t[k] == TranslateLine(model, cfg, source[k], ContextWindow(t, k)).caption
  {
    ContextWindowReadsPrefix(t[..k], t, k);
  }

  /** The loop's result is the only sequence with that property. */
  lemma FixpointIsTranslateAll(model: Model, cfg: Config, source: seq<Caption>, t: seq<Caption>)
    requires |t| == |source| && LadderFixpoint(model, cfg, source, t)
    ensures t == TranslateAll(model, cfg, source).target
  {
    forall k | 0 <= k < |t| ensures FixedAt(LineStep(model, cfg), source, t, k) {
      LadderFixedAt(model, cfg, source, t, k);
    }
    FixpointIsSweep(LineStep(model, cfg), source, t);
  }

  /** A caption whose ladder fails on every rung is copied to the target
      unchanged, text included. */
  lemma FallbackKeepsSource(model: Model, cfg: Config, source: seq<Caption>, k: nat)
    requires k < |source|
    requires var ctx := ContextWindow(TranslateAll(model, cfg, source).target, k);
      forall s :: 0 <= s < 4 ==> !Succeeds(model, cfg, source[k], ctx, s)
    ensures TranslateAll(model, cfg, source).target[k] == source[k]
  {
    TranslateAllIsFixpoint(model, cfg, source);
    AllRungsFail(model, cfg, source[k], ContextWindow(TranslateAll(model, cfg, source).target, k));
  }

  /** A target has text whenever its source has: a translation carries one
      line and the fallback copies the source. */
  lemma TargetKeepsText(model: Model, cfg: Config, src: Caption, ctx: seq<string>)
    requires |src.text| > 0
    ensures |TranslateLine(model, cfg, src, ctx).caption.text| > 0
  {
    LadderShape(model, cfg, src, ctx);
  }

  /** With well-formed input (every caption has text) the window of caption
      `i` holds exactly min(i, 3) entries: the joined texts of the targets
      immediately before it, oldest first. */
  lemma WindowsAreFull(model: Model, cfg: Config, source: seq<Caption>, i: nat)
    requires i <= |source|
    requires forall k :: 0 <= k < |source| ==> |source[k].text| > 0
    ensures var t := TranslateAll(model, cfg, source).target;
      var w := ContextWindow(t, i);
      |w| == Min(i, 3) && forall k :: 0 <= k < |w| ==> w[k] == Join(t[i - Min(i, 3) + k].text, "\n")
  {
    var t := TranslateAll(model, cfg, source).target;
    TranslateAllIsFixpoint(model, cfg, source);
    forall j | 0 <= j < |t| ensures |t[j].text| > 0 {
      TargetKeepsText(model, cfg, source[j], ContextWindow(t, j));
    }
    WindowOfFullTargets(t, i);
  }

  /** `processSubtitles`: for each caption in order, build the context from
      the targets already written, try the primary prompt, then alternatives
      1 to 3, then fall back to the source caption; the target has one entry
      per source caption with its sequence number and timing, and between one
      and four model calls are made per caption. */
  method ProcessSubtitles(model: Model, cfg: Config, source: seq<Caption>) returns (target: seq<Caption>, prompts: seq<string>)
    ensures Run(target, prompts) == TranslateAll(model, cfg, source)
    ensures |target| == |source|
    ensures forall k :: 0 <= k < |source| ==> SameTiming(target[k], source[k])
    ensures |source| <= |prompts| <= 4 * |source|
  {
    LineStepWellBehaved(model, cfg);
    SweepBounds(LineStep(model, cfg), source, |source|);
    target, prompts := [], [];
    var i := 0;
    while i < |source|
      invariant 0 <= i <= |source|
      invariant Run(target, prompts) == Sweep(LineStep(model, cfg), source, i)
    {
      var context := BuildContext(target, i);
      var line := OneLine(model, cfg, source[i], context);
      target := target + [line.caption];
      prompts := prompts + line.prompts;
      i := i + 1;
    }
  }

  /** The context for caption `i`, built as the loop body does it: the
      joined texts of the up to three targets before it that have text. */
  method BuildContext(target: seq<Caption>, i: nat) returns (context: seq<string>)
    requires i <= |target|
    ensures context == ContextWindow(target, i)
  {
    context := [];
    if i > 0 {
      var contextSize := Min(i, 3);
      var startIdx := i - contextSize;
      var j := startIdx;
      while j < i
        invariant startIdx <= j <= i
        invariant context == ContextEntries(target[startIdx..j])
      {
        ContextEntriesStep(target, startIdx, j);
        if |target[j].text| > 0 {
          context := context + [Join(target[j].text, "\n")];
        }
        j := j + 1;
      }
    }
  }

  /** The retry ladder written as the loop body does it: the primary attempt,
      then the alternatives, then the fallback. */
  method OneLine(model: Model, cfg: Config, src: Caption, context: seq<string>) returns (r: LineOutcome)
    ensures r == TranslateLine(model, cfg, src, context)
  {
    var prompt := PromptFor(cfg, PrimaryStrategy, [src], context);
    var attempt := AttemptTranslation(model, cfg, [src], context, PrimaryStrategy);
    LadderFirstRung(Reader(model, src), src, LadderPrompts(cfg, src, context));
    if attempt.Translated? && |attempt.lines| > 0 {
      r := LineOutcome(attempt.lines[0], [prompt]);
    } else {
      var rest := TryAlternatives(model, cfg, src);
      r := LineOutcome(rest.caption, [prompt] + rest.prompts);
    }
  }

  /** The ladder tries its first rung, and only when that fails the rest. */
  lemma LadderFirstRung(read: string -> Attempt, src: Caption, rungs: seq<string>)
    requires |rungs| > 0
    ensures RunLadder(read, src, rungs)
      == if Answers(read, rungs[0]) then LineOutcome(read(rungs[0]).lines[0], [rungs[0]])
         else Prefixed([rungs[0]], RunLadder(read, src, rungs[1..]))
  {
  }

  /** The loop over strategies 1 to 3 that stops at the first success, with
      the fallback to the source caption when none succeeds. Rung `k` of the
      alternatives is the prompt of strategy `k + 1`. */
  method TryAlternatives(model: Model, cfg: Config, src: Caption) returns (r: LineOutcome)
    ensures r == RunLadder(Reader(model, src), src, AlternativePrompts(cfg, src))
  {
    r := Climb(Reader(model, src), src, AlternativePrompts(cfg, src));
  }

  /** Tries the rungs in order and stops at the first that answers; when none
      does, the caption is `src`. */
  method Climb(read: string -> Attempt, src: Caption, rungs: seq<string>) returns (r: LineOutcome)
    ensures r == RunLadder(read, src, rungs)
  {
    var prompts: seq<string> := [];
    var i := 0;
    while i < |rungs|
      invariant 0 <= i <= |rungs|
      invariant RunLadder(read, src, rungs) == Prefixed(prompts, RunLadder(read, src, rungs[i..]))
    {
      var attempt := read(rungs[i]);
      assert rungs[i..][0] == rungs[i] && rungs[i..][1..] == rungs[i + 1..];
      PrefixedTwice(prompts, [rungs[i]], RunLadder(read, src, rungs[i + 1..]));
      prompts := prompts + [rungs[i]];
      if attempt.Translated? && |attempt.lines| > 0 {
        return LineOutcome(attempt.lines[0], prompts);
      }
      i := i + 1;
    }
    r := LineOutcome(src, prompts);
  }

  /** The outcome `o` after the prompts `ps` were sent and failed. */
  function Prefixed(ps: seq<string>, o: LineOutcome): (r: LineOutcome)
    ensures r.caption == o.caption && |r.prompts| == |ps| + |o.prompts| && r.prompts[|ps|..] == o.prompts && r.prompts[..|ps|] == ps
  {
    LineOutcome(o.caption, ps + o.prompts)
  }

  lemma PrefixedTwice(ps: seq<string>, qs: seq<string>, o: LineOutcome)
    ensures Prefixed(ps, Prefixed(qs, o)) == Prefixed(ps + qs, o)
  {
    assert ps + (qs + o.prompts) == (ps + qs) + o.prompts;
  }

  /** The reply "w", for a one-word `w`, is read back as exactly `w`. */
  lemma OneWordReply(w: string)
    requires w != [] && forall i :: 0 <= i < |w| ==> !IsSpace(w[i])
    ensures !IsBlank(w) && ResponseLines(w) == [w] && TrimSpace(w) == w
  {
    TrimSpaceOfPadded([], w, []);
    assert [] + w + [] == w;
    assert '\n' !in w by { assert IsSpace('\n'); }
    SplitJoin([w], '\n');
  }

  /** A one-word answer to the primary prompt becomes the caption's text. */
  lemma PrimaryAnswered(model: Model, cfg: Config, src: Caption, ctx: seq<string>, w: string)
    requires w != [] && forall i :: 0 <= i < |w| ==> !IsSpace(w[i])
    requires model(BuildTranslationPrompt(cfg, [src], ctx)) == Answer(w)
    ensures TranslateLine(model, cfg, src, ctx).caption == src.WithText([w])
  {
    OneWordReply(w);
    ReaderAnswers(model, src, BuildTranslationPrompt(cfg, [src], ctx));
    PrimarySucceeds(model, cfg, src, ctx);
  }
}
