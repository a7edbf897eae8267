/** The stand-in model of the program's test: it answers "Hello" with
    "Hola" and "World" with "Mundo", and the whole loop translates a
    two-caption file with it. */
module Greetings {
  import opened Text
  import opened Captions
  import opened Cli
  import opened Prompts
  import opened Aligner
  import opened Translator

  /** A stand-in model that answers by the caption at the end of the prompt. */
  function GreetingModel(prompt: string): ModelReply {
    if IsSuffix("Hello\n", prompt) then Answer("Hola")
    else if IsSuffix("World\n", prompt) then Answer("Mundo")
    else Answer("")
  }

  /** The stand-in model answers a prompt that ends with "Hello" or "World"
      with the matching Spanish word. */
  lemma GreetingReply(p: string, word: string, reply: string)
    requires Greeting(word, reply) && IsSuffix(word + "\n", p)
    ensures GreetingModel(p) == Answer(reply)
  {
    if word == "World" {
      WorldIsNotHello(p);
    }
  }

  /** The two words the stand-in model knows, with their translations. */
  predicate Greeting(word: string, reply: string) {
    (word == "Hello" && reply == "Hola") || (word == "World" && reply == "Mundo")
  }

  /** Both translations are single words without white space. */
  lemma GreetingReplyIsOneWord(word: string, reply: string)
    requires Greeting(word, reply)
    ensures reply != [] && forall i :: 0 <= i < |reply| ==> !IsSpace(reply[i])
  {
  }

  lemma PromptEndsWithWord(cfg: Config, src: Caption, ctx: seq<string>, word: string)
    requires src.text == [word]
    ensures IsSuffix(word + "\n", BuildTranslationPrompt(cfg, [src], ctx))
  {
    var head := PrimaryContext(cfg, ctx) + PrimaryInstruction(cfg, |ctx| > 0);
    ConcatAssoc(PrimaryContext(cfg, ctx), PrimaryInstruction(cfg, |ctx| > 0), LineToTranslate(src));
    SuffixOfConcat(head, LineToTranslate(src));
    assert Join(src.text, " ") == word;
    SuffixOfConcat("Line to translate: ", word + "\n");
    assert "Line to translate: " + (word + "\n") == LineToTranslate(src);
    SuffixTransitive(word + "\n", LineToTranslate(src), BuildTranslationPrompt(cfg, [src], ctx));
  }

  lemma WorldIsNotHello(p: string)
    requires IsSuffix("World\n", p)
    ensures !IsSuffix("Hello\n", p)
  {
    assert p[|p| - 6..] == "World\n";
  }

  lemma GreetingLine(cfg: Config, src: Caption, ctx: seq<string>, word: string, reply: string)
    requires src.text == [word] && Greeting(word, reply)
    ensures TranslateLine(GreetingModel, cfg, src, ctx).caption == src.WithText([reply])
  {
    var p := BuildTranslationPrompt(cfg, [src], ctx);
    PromptEndsWithWord(cfg, src, ctx, word);
    GreetingReply(p, word, reply);
    GreetingReplyIsOneWord(word, reply);
    PrimaryAnswered(GreetingModel, cfg, src, ctx, reply);
  }

  /** The end-to-end scenario: two captions, "Hello" and "World", become
      "Hola" and "Mundo" with their numbers and timings unchanged. */
  lemma GreetingScenario(cfg: Config)
    ensures var hello := Caption(1, 1000000000, 2000000000, ["Hello"]);
      var world := Caption(2, 3000000000, 4000000000, ["World"]);
      TranslateAll(GreetingModel, cfg, [hello, world]).target
        == [Caption(1, 1000000000, 2000000000, ["Hola"]), Caption(2, 3000000000, 4000000000, ["Mundo"])]
  {
    var hello := Caption(1, 1000000000, 2000000000, ["Hello"]);
    var world := Caption(2, 3000000000, 4000000000, ["World"]);
    var source := [hello, world];
    var t0 := Sweep(LineStep(GreetingModel, cfg), source, 1).target;
    GreetingLine(cfg, hello, [], "Hello", "Hola");
    assert t0 == [hello.WithText(["Hola"])];
    GreetingLine(cfg, world, ContextWindow(t0, 1), "World", "Mundo");
  }
}
