/** One timed subtitle entry, as the subtitle library hands it to the
    translator: sequence number, start and end offsets (Go `time.Duration`,
    nanoseconds) and one string per physical text line. */
module Captions {

  datatype Caption = Caption(sequence: int, start: int, end: int, text: seq<string>)
  {
    /** The same entry with its text replaced, as `newLine.Text = ...` does. */
    function WithText(t: seq<string>): (r: Caption)
      ensures r.text == t && SameTiming(r, this)
    {
      this.(text := t)
    }
  }

  /** Sequence number and timing agree; only the text may differ. */
  predicate SameTiming(a: Caption, b: Caption) {
    a.sequence == b.sequence && a.start == b.start && a.end == b.end
  }
}

/** The two integer helpers at the bottom of main.go. */
module Helpers {

  function Min(a: int, b: int): (r: int)
    ensures r <= a && r <= b
    ensures r == a || r == b
  {
    if a < b then a else b
  }

  function Max(a: int, b: int): (r: int)
    ensures r >= a && r >= b
    ensures r == a || r == b
  {
    if a < b then b else a
  }
}

/** The settings the command line supplies to the translator. */
module Cli {
  import opened Text

  /** The two language display names every prompt mentions. */
  datatype Config = Config(originalLang: string, lang: string)

  const DefaultConfig: Config := Config("English", "Español neutro")

  const SrtExtension: string := ".srt"
  const TranslatedSuffix: string := "_translated.srt"

  /** An empty source language is replaced by English before any prompt is
      built; everything else is kept. */
  function WithDefaultOriginal(cfg: Config): (r: Config)
    ensures r.lang == cfg.lang && r.originalLang != []
    ensures cfg.originalLang != [] ==> r == cfg
    ensures cfg.originalLang == [] ==> r.originalLang == DefaultConfig.originalLang
  {
    if cfg.originalLang == [] then cfg.(originalLang := DefaultConfig.originalLang) else cfg
  }

  /** The target file used when none is given: the source path with a
      trailing ".srt" replaced by "_translated.srt" (appended when the source
      has no such extension). It never names the source file itself. */
  function DefaultTargetName(source: string): (r: string)
    ensures IsSuffix(TranslatedSuffix, r)
    ensures IsSuffix(SrtExtension, source) ==> r == source[..|source| - |SrtExtension|] + TranslatedSuffix
    ensures !IsSuffix(SrtExtension, source) ==> r == source + TranslatedSuffix
    ensures r != source
  {
    var stem := TrimSuffix(source, SrtExtension);
    SuffixOfConcat(stem, TranslatedSuffix);
    assert IsSuffix(SrtExtension, source) ==> stem == source[..|source| - |SrtExtension|];
    stem + TranslatedSuffix
  }
}
