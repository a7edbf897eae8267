# sub-translation, modelled in Dafny

A model of the decision logic of `sub-translation`, a command-line tool that
translates an SRT subtitle file caption by caption with a local language
model. The model covers four parts of `main.go`:

- **The response aligner** (`processTranslatedResponse`). It trims the model's
  reply and cuts it at newlines. It pairs response line `i`, when that line is
  not blank, with caption `i`, and packs those items to the front. It then
  pads with the untouched captions from that position on, so that there is
  one item per caption sent.
- **One attempt** (`attemptTranslation`). It picks the primary or an
  alternative prompt, makes one model call, rejects a client error or a blank
  reply, aligns the reply, and rejects an empty alignment.
- **The loop over captions** (`processSubtitles`). For each caption it builds
  a context window from the up to three translated captions before it. It
  runs the retry ladder: the primary prompt with context, then alternative
  strategies 1, 2 and 3 without context, stopping at the first success. When
  every rung fails, it copies the source caption.
- **The prompt builders** (`buildTranslationPrompt`, `buildAlternativePrompt`),
  plus `min`/`max` and the rules for the default target file name and the
  default source language.

The language model is a parameter: a total function from the prompt text to
either the decoded `Translation` field of the structured reply or a client
error (`Translator.Model`). The two language names, which are globals in the
program, are a `Cli.Config` value passed to every builder.

Files:

- `text.dfy` (module `Text`): Go's `strings.TrimSpace`, `Split`, `Join`,
  `TrimSuffix`, `Contains` (as `IsInfix`) and the `%d` rendering.
- `captions.dfy` (modules `Captions`, `Helpers`, `Cli`): the caption record,
  `min`/`max`, the command-line defaults.
- `prompts.dfy` (module `Prompts`): both prompt builders and their shape.
- `aligner.dfy` (module `Aligner`): the response aligner, the positional
  alignment it was evidently meant to be, and a worked counterexample.
- `translator.dfy` (module `Translator`): the attempt, the retry ladder, the
  context window and the loop, as functions, with methods that follow the
  program's loops and are proved equal to those functions.
- `greeting.dfy` (module `Greetings`): the "Hello"/"World" stand-in model of
  `main_test.go` and the end-to-end scenario run with it.

The loop is specified as a fixpoint. `Translator.TranslateAllIsFixpoint` and
`Translator.FixpointIsTranslateAll` show that the output is the only caption
sequence in which every target is what the retry ladder makes of its source
caption, given the window over the targets before it.

Two behaviours of the code worth noting:

- An all-blank reply gives the originals back unchanged, not an empty list.
  `strings.Split("", "\n")` is `[""]`, so the first loop matches nothing and
  the padding loop copies every original
  (`Aligner.BlankResponseKeepsOriginals`).
- Two assertions in `main_test.go` (lines 65-72 and 109-118) expect more than
  one text string in an aligned item. The code always stores exactly one
  string (main.go:354), and so does the model (`Aligner.IsTranslationOf`).

## Model

| member | source | states |
|---|---|---|
| Text.TrimSpace | main.go:339 | The result is the input with white space removed at both ends: it is a slice of the input with all-space margins, it has no white space at either end, and it is empty exactly when the input is all white space. |
| Text.TrimSpaceOfPadded | main.go:348-354 | Trimming recovers any trimmed text from any all-space padding, so the trimmed core of a line is unique. |
| Text.Split | main.go:339 | Splitting on a separator gives at least one piece, no piece holds the separator, joining the pieces back gives the input, and the first piece is the text before the first separator. |
| Text.SplitJoin | main.go:339 | Splitting a join of separator-free pieces gives back exactly those pieces. |
| Text.TrimSuffix | main.go:78 | Removing a suffix that is present leaves the stem that the suffix completes; otherwise the input is unchanged. |
| Text.ParseNatToString | main.go:283 | Reading the decimal rendering used for the `%d` line numbers gives back the number. |
| Text.ConcatHasParts | main.go:282-284 | Every string written by a loop of appends occurs in the result. |
| Helpers.Min | main.go:367-372 | The result is one of the arguments and no larger than either. |
| Helpers.Max | main.go:374-379 | The result is one of the arguments and no smaller than either. |
| Cli.WithDefaultOriginal | main.go:72-74 | An empty source language becomes "English"; the target language and any non-empty source language are kept. |
| Cli.DefaultTargetName | main.go:76-79 | A trailing ".srt" is replaced by "_translated.srt", which is appended when there is none; the result never names the source file. |
| Prompts.ContextListOrder | main.go:282-284 | The context list is the entry for its first line followed by the list of the rest, numbered one higher, so the entries come in order. |
| Prompts.ContextListHasEntries | main.go:282-284 | Every context line appears in the context list as `Line k: <line>`, numbered from the given start. |
| Prompts.TranslationPromptShape | main.go:276-301 | The primary prompt names both languages. It carries the consistency instruction when there is context and the plain instruction when there is none. It opens with the "Previous successfully translated lines in <lang>" header exactly when there is context. With context it opens with the header, then the numbered list, then a blank line, then the instruction. It contains `Line k: <ctx[k-1]>` for every context line. It ends with `Line to translate: <first caption's text joined by spaces>` and a newline. |
| Prompts.PrimaryOpening | main.go:280-295 | The prompt opens with the context header if and only if the context is non-empty; without context the whole prompt opens with the plain instruction. |
| Prompts.AlternativeIntroFacts | main.go:307-332 | Every strategy's instruction names both languages, and strategies 1, 2 and 3 each open with their own fixed lead. |
| Prompts.AlternativeListHasEntries | main.go:311-331 | Every caption appears in the strategy's list, in the strategy's format: numbered for 1, dash-bulleted for 3, bare otherwise. |
| Prompts.AlternativePromptShape | main.go:304-335 | An alternative prompt opens with its strategy's instruction, names both languages and lists every caption in the strategy's format. |
| Prompts.AlternativePromptsDiffer | main.go:307-325 | Strategies 1, 2 and 3 send pairwise different prompts for the same captions, whatever the languages. |
| Aligner.Translate | main.go:353-354 | An item built from a response line keeps the original's number and timing, and its text is a single trimmed, non-empty string. |
| Aligner.Matched | main.go:342-356 | The first loop gives no more items than there are response lines or originals. Item `k` was built from a non-blank response line `j >= k` for original `j`. |
| Aligner.ProcessTranslatedResponse | main.go:337-364 | There is exactly one item per original, whatever the reply. Item `k` is either original `k` verbatim, or an original `j >= k` carrying response line `j`, trimmed and not blank. |
| Aligner.MatchedExact | main.go:342-356 | The first loop in general: it keeps exactly the non-blank response lines among the first min(#lines, #originals). Non-blank line `j` sits at the position given by the number of non-blank lines before it, carried by original `j`. |
| Aligner.MatchedCount | main.go:342-356 | The first loop gives as many items as there are non-blank lines among the first min(#lines, #originals). |
| Aligner.AlignExact | main.go:337-364 | The aligner in general: each non-blank response line `j` within reach is carried by original `j` at the position given by the number of non-blank lines before it. Every later position holds its own original, verbatim. |
| Aligner.MatchedNoBlank | main.go:342-356 | Without blank response lines, the first loop is positional and stops at the shorter of the two inputs. |
| Aligner.MatchedAllBlank | main.go:348-350 | Blank response lines are all skipped. |
| Aligner.BlankResponseKeepsOriginals | main.go:339-361 | A reply that is blank once trimmed returns the originals unchanged. |
| Aligner.BlankLinesKeepOriginals | main.go:342-361 | A reply whose lines are all blank returns the originals unchanged. |
| Aligner.AlignNoBlankLines | main.go:342-361 | With no blank response line, original `i` gets response line `i` (trimmed) while there is one. Later originals are kept verbatim, and surplus response lines are ignored. |
| Aligner.FirstLineNotBlank | main.go:339 | The first line of a non-blank trimmed reply is not blank. |
| Aligner.AlignSingle | main.go:337-364 | With one original and a non-blank reply, the result is that original carrying the trimmed first line of the trimmed reply. |
| Aligner.BlankInteriorLineShifts | main.go:342-356 | For the reply "a\n\nb" and three captions, the result pairs "b" with the third caption's timing, repeats the third caption and loses the second; the positional alignment does not. |
| Aligner.AlignPositional | main.go:337-364 | The corrected aligner: item `i` keeps original `i`'s timing. When response line `i` exists and is not blank, item `i`'s only text is that line, trimmed; otherwise item `i` is original `i` verbatim. |
| Aligner.AlignSingleIsPositional | main.go:337-364 | For at most one caption, which is how the translator calls it, the aligner as written equals the positional one. |
| Aligner.AlignNoBlankIsPositional | main.go:342-361 | Without blank response lines, the aligner as written equals the positional one. |
| Translator.ReadReply | main.go:249-273 | An attempt fails with a model error exactly on a client error, and with an empty translation exactly on a blank reply. It succeeds exactly on a non-blank reply for a non-empty caption list, with one item per caption. For one caption, the item is that caption with the reply's trimmed first line. |
| Translator.AttemptTranslation | main.go:230-274 | The attempt succeeds exactly when the model answers the strategy's prompt with a non-blank reply, never with an empty list; a client error is reported as a model failure. |
| Translator.RunLadderShape | main.go:191-213 | The prompts sent are a prefix of the rungs, and every rung before the last one tried failed. When the last one answered, the caption is its first item. Otherwise every rung was tried and the caption is the source caption. |
| Translator.ReaderAnswers | main.go:194-202 | A rung succeeds exactly when the model answers with a reply that is not blank; the caption is then the source caption with the reply's trimmed first line. |
| Translator.LineKeepsTiming | main.go:216-221 | Whatever the model replies, a line keeps its source caption's number and timing. |
| Translator.AlternativePrompts | main.go:199-201 | The alternatives are strategies 1, 2 and 3, in that order, without context. |
| Translator.LadderPrompts | main.go:191-201 | The ladder is the primary prompt with the context, then the three alternatives. |
| Translator.TranslateLine | main.go:189-221 | A line keeps its source's number and timing and costs between one and four model calls. |
| Translator.LadderPromptsSent | main.go:191-201 | The first prompt sent is the primary prompt with the context window; prompt `k` after it is alternative strategy `k` for this caption alone. |
| Translator.LadderShape | main.go:191-221 | The ladder stops at the first success, and every earlier rung failed. On success, the model gave a non-blank reply and the caption is the source with the reply's trimmed first line. Otherwise all four rungs were tried and the caption is the source. |
| Translator.AllRungsFail | main.go:209-213 | When all four rungs fail, the line is the source caption, text included, after exactly four calls. |
| Translator.PrimarySucceeds | main.go:191-194 | A successful primary attempt ends the ladder after one call, with the reply's trimmed first line as the caption's only text. |
| Translator.ContextEntries | main.go:181-185 | The context has at most one entry per caption in the range. |
| Translator.ContextEntriesSkipEmpty | main.go:182 | A range in which no caption has text gives no context. |
| Translator.ContextEntriesExact | main.go:181-185 | The skip rule in general: one entry per caption with text. The entry of caption `j` sits at the number of captions with text before it and is `j`'s lines joined by newlines, so captions without text leave no gap. |
| Translator.ContextEntriesFull | main.go:181-185 | When every caption has text, entry `k` is caption `k`'s lines joined by newlines. |
| Translator.ContextWindow | main.go:175-186 | Caption 0 gets no context, and caption `i` gets at most min(i, 3) entries. |
| Translator.ContextWindowExact | main.go:175-186 | The window for caption `i` has one entry per target with text among the up to three before `i`, oldest first. Each entry is that target's lines joined by newlines, and targets without text are skipped. |
| Translator.WindowOfFullTargets | main.go:175-186 | When the up to three targets before `i` have text, the window has exactly min(i, 3) entries: their joined texts, oldest first. |
| Translator.ContextWindowReadsPrefix | main.go:175-186 | The window for caption `i` depends only on the targets before `i`. |
| Translator.Sweep | main.go:166-227 | After `n` iterations, the loop has written exactly `n` targets. |
| Translator.SweepStable | main.go:166-227 | Later iterations never change targets already written. |
| Translator.SweepIsFixpoint | main.go:166-227 | Every target is what the step makes of its source caption, given the targets before it. |
| Translator.FixpointIsSweep | main.go:166-227 | Any sequence with that property is the loop's result. |
| Translator.SweepBounds | main.go:166-227 | For a step that keeps timing and makes one to four calls, every target keeps its source's timing, and the loop makes between `n` and `4n` calls. |
| Translator.LineStepWellBehaved | main.go:189-221 | The translator's step keeps timing and makes one to four calls, whatever was written before. |
| Translator.TranslateAll | main.go:121 | There is one target per source caption. |
| Translator.TranslateAllIsFixpoint | main.go:164-228 | Each target is what the retry ladder makes of its source caption, given the window over the final targets before it. |
| Translator.FixpointIsTranslateAll | main.go:164-228 | The loop's result is the only sequence with that property. |
| Translator.FallbackKeepsSource | main.go:209-221 | A caption whose four rungs all fail is copied to the target unchanged. |
| Translator.TargetKeepsText | main.go:209-221 | A target has text whenever its source caption has. |
| Translator.WindowsAreFull | main.go:175-186 | When every source caption has text, the window of caption `i` has exactly min(i, 3) entries: the joined texts of the targets just before it, oldest first. |
| Translator.ProcessSubtitles | main.go:164-228 | The loop computes the loop function. It writes one target per source caption, with the source's number and timing, and makes between one and four model calls per caption. |
| Translator.BuildContext | main.go:168-186 | The context loop builds exactly the context window. |
| Translator.OneLine | main.go:189-221 | The primary attempt followed by the alternatives and the fallback is the retry ladder. |
| Translator.TryAlternatives | main.go:193-213 | The strategy loop is the ladder over alternatives 1, 2 and 3 that ends in the source caption. |
| Translator.Climb | main.go:199-213 | Trying rungs in order until one succeeds, else keeping the source, is the ladder. |
| Greetings.GreetingReply | main_test.go:162-171 | The stand-in model answers a prompt that ends with "Hello" or "World" with "Hola" or "Mundo". |
| Greetings.GreetingLine | main_test.go:162-171 | With that stand-in, the caption "Hello" becomes "Hola" and "World" becomes "Mundo", whatever the context. |
| Translator.PrimaryAnswered | main.go:191-194 | A one-word answer to the primary prompt becomes the caption's only text. |
| Greetings.GreetingScenario | main_test.go:140-224 | The two captions "Hello" and "World" become "Hola" and "Mundo", keeping their numbers and timings. |

## Left out

- Command-line parsing, the usage message, the source-file existence check and console output (main.go:43-85, 106-115, 134-143): process I/O. Only the two default rules are modelled.
- The model client (`gollama.New`, `PullIfMissing`, `Chat`, `StructToStructuredFormat`, `DecodeContent`; main.go:91-96, 248-255): a foreign library. Each call is an application of the `Model` parameter, and the model is a function, so the same prompt always gets the same reply.
- The error that `DecodeContent` returns is ignored by the program. The model has no undecodable reply: a reply is either decoded text or a client error.
- Loading and saving subtitle files (main.go:99-104, 118-121, 137-141): the subtitle library is not part of this model. The captions are the input sequence, and the target is the output.
- The progress display, its goroutine, `gotimeleft` and `progressMutex` (main.go:25-26, 112-113, 123-131, 146-161, 223-226): display and concurrency only.
- The two-hour and two-minute deadlines and the half-second pause between strategies (main.go:87-88, 206, 232-233): clocks. Their only effect on the result is to make model calls fail, which the model covers as `ChatError`. Once the two-hour deadline at main.go:87 has passed, every later call fails, so every remaining caption falls back to its source after four calls (`Translator.AllRungsFail`). The model does not track when that happens, because the reply function does not depend on time.
- `TranslationJob` and `TranslationResult` (main.go:29-41): declared but not used.
- `format.go`: output templates that the modelled code does not use.
- Text.TrimSpace: works on Unicode scalar values, not UTF-8 bytes. It treats exactly the code points Go's `unicode.IsSpace` reports as white space.
- Text.NatToString: covers the natural numbers, which are the only values the prompts format with `%d` (line numbers from 1).
- Translator.ProcessSubtitles: the `len(translated) == 0` branch at main.go:219-220 cannot be reached, because a successful attempt has at least one item and the fallback supplies the source caption. The model therefore has no such branch.
- Translator.TranslateLine: the alternatives are always sent for one caption, as the program calls them. The multi-caption form of `buildAlternativePrompt` is modelled in `Prompts` but is not used by the ladder.
- Greetings.GreetingScenario: the stand-in model recognises the caption at the end of the prompt. The test's mock looks anywhere in the prompt, and that test builds its own prompts instead of calling `processSubtitles`.

## Findings

| source | as written | input that shows it | evidently intended | confidence | as-written member | corrected member |
|---|---|---|---|---|---|---|
| main.go:342-356 | A blank response line is skipped with `continue`, but the loop still uses `originalLines[i]` for later lines, and the padding loop starts at `len(translatedLines)`. So every line after a blank one lands one item early, carrying a later caption's timing. | The reply "a\n\nb" with three captions gives [caption 1 with "a", caption 3 with "b", caption 3]. Caption 2 is lost and caption 3 appears twice. | Caption `i` carries response line `i` when that line is present and not blank, and is kept verbatim otherwise. | not executed | Aligner.BlankInteriorLineShifts | Aligner.AlignPositional |

The translator only ever aligns one caption at a time. In that case the two
aligners agree (`Aligner.AlignSingleIsPositional`), so the translator's
results are unaffected, and the model of the translator uses the aligner as
written.
