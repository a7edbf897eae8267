/** The response aligner (`processTranslatedResponse`): spreads the model's
    reply, one line per caption, over the captions that were sent. */
module Aligner {
  import opened Text
  import opened Captions
  import opened Helpers

  /** The reply trimmed as a whole and cut at every newline. */
  function ResponseLines(response: string): (r: seq<string>)
    ensures |r| >= 1
  {
    Split(TrimSpace(response), '\n')
  }

  /** `o` carrying a single translated line: trimmed, non-empty, and nothing
      else of `o` changed. */
  predicate IsTranslationOf(c: Caption, o: Caption) {
    SameTiming(c, o) && |c.text| == 1 && c.text[0] != [] && Trimmed(c.text[0])
  }

  /** The caption built from response line `line` for original `o`. */
  function Translate(o: Caption, line: string): (c: Caption)
    requires !IsBlank(line)
    ensures IsTranslationOf(c, o)
  {
    o.WithText([TrimSpace(line)])
  }

  /** Response line `j` was translated into `c` for original `j`. */
  predicate MatchedFrom(c: Caption, lines: seq<string>, originals: seq<Caption>, j: int) {
    0 <= j < |originals| && j < |lines| && !IsBlank(lines[j]) && c == Translate(originals[j], lines[j])
  }

  /** `c` was built from some response line at position `k` or later. */
  predicate FromLineAtOrAfter(c: Caption, lines: seq<string>, originals: seq<Caption>, k: int) {
    exists j :: 0 <= k <= j < |originals| && MatchedFrom(c, lines, originals, j)
  }

  /** The first loop of `processTranslatedResponse`: the `i`-th response
      line, if it is not blank, goes to `originals[i]`; blank lines are
      skipped, and lines past the last original are ignored. The result is
      compacted, so its `k`-th item may come from a later original. */
  function Matched(lines: seq<string>, originals: seq<Caption>): (r: seq<Caption>)
    ensures |r| <= |lines| && |r| <= |originals|
    ensures forall k :: 0 <= k < |r| ==> FromLineAtOrAfter(r[k], lines, originals, k)
    decreases |lines|
  {
    if |lines| == 0 || |originals| == 0 then []
    else
      var rest := Matched(lines[1..], originals[1..]);
      var head := if IsBlank(lines[0]) then [] else [Translate(originals[0], lines[0])];
      MatchedStep(lines, originals, head, rest);
      head + rest
  }

  lemma MatchedStep(lines: seq<string>, originals: seq<Caption>, head: seq<Caption>, rest: seq<Caption>)
    requires |lines| > 0 && |originals| > 0
    requires head == if IsBlank(lines[0]) then [] else [Translate(originals[0], lines[0])]
    requires forall k :: 0 <= k < |rest| ==> FromLineAtOrAfter(rest[k], lines[1..], originals[1..], k)
    ensures forall k :: 0 <= k < |head + rest| ==> FromLineAtOrAfter((head + rest)[k], lines, originals, k)
  {
    forall k | 0 <= k < |head + rest| ensures FromLineAtOrAfter((head + rest)[k], lines, originals, k) {
      if k < |head| {
        assert MatchedFrom((head + rest)[k], lines, originals, 0);
      } else {
        var j :| 0 <= k - |head| <= j < |originals[1..]| && MatchedFrom(rest[k - |head|], lines[1..], originals[1..], j);
        assert originals[1..][j] == originals[j + 1] && lines[1..][j] == lines[j + 1];
        assert MatchedFrom((head + rest)[k], lines, originals, j + 1);
      }
    }
  }

  /** `processTranslatedResponse`: the matched captions, then the originals
      from position `|matched|` on, so that there is always exactly one item
      per original. Each item is either the original at its own position,
      verbatim, or an original at or after its position carrying that
      original's response line, trimmed. */
  function ProcessTranslatedResponse(response: string, originals: seq<Caption>): (r: seq<Caption>)
    ensures |r| == |originals|
    ensures forall k :: 0 <= k < |r| ==>
      r[k] == originals[k] || FromLineAtOrAfter(r[k], ResponseLines(response), originals, k)
  {
    var lines := ResponseLines(response);
    var matched := Matched(lines, originals);
    PaddedShape(lines, originals, matched);
    matched + originals[|matched|..]
  }

  lemma PaddedShape(lines: seq<string>, originals: seq<Caption>, matched: seq<Caption>)
    requires |matched| <= |originals|
    requires forall k :: 0 <= k < |matched| ==> FromLineAtOrAfter(matched[k], lines, originals, k)
    ensures var r := matched + originals[|matched|..];
      forall k :: 0 <= k < |r| ==> r[k] == originals[k] || FromLineAtOrAfter(r[k], lines, originals, k)
  {
    var r := matched + originals[|matched|..];
    forall k | 0 <= k < |r| ensures r[k] == originals[k] || FromLineAtOrAfter(r[k], lines, originals, k) {
      if k < |matched| {
        assert r[k] == matched[k];
      } else {
        assert r[k] == originals[k];
      }
    }
  }

  /** How many of `lines` are not blank. */
  function NonBlankCount(lines: seq<string>): (n: nat)
    ensures n <= |lines|
  {
    if |lines| == 0 then 0 else (if IsBlank(lines[0]) then 0 else 1) + NonBlankCount(lines[1..])
  }

  lemma NonBlankCountPrefix(lines: seq<string>, j: nat)
    requires 0 < j <= |lines|
    ensures NonBlankCount(lines[..j]) == (if IsBlank(lines[0]) then 0 else 1) + NonBlankCount(lines[1..][..j - 1])
  {
    assert lines[..j][0] == lines[0] && lines[..j][1..] == lines[1..][..j - 1];
  }

  /** Response line `j`, when it is within reach of an original and not
      blank, sits in `m` at the number of non-blank lines before it, carried
      by original `j`. */
  predicate PlacedAt(m: seq<Caption>, lines: seq<string>, originals: seq<Caption>, j: nat) {
    j < |lines| && j < |originals| && !IsBlank(lines[j]) ==>
      NonBlankCount(lines[..j]) < |m| && m[NonBlankCount(lines[..j])] == Translate(originals[j], lines[j])
  }

  /** The first loop keeps exactly the non-blank lines within reach of an
      original. */
  lemma {:induction false} MatchedCount(lines: seq<string>, originals: seq<Caption>)
    ensures |Matched(lines, originals)| == NonBlankCount(lines[..Min(|lines|, |originals|)])
    decreases |lines|
  {
    var n := Min(|lines|, |originals|);
    if n == 0 {
      assert lines[..n] == [];
    } else {
      MatchedCount(lines[1..], originals[1..]);
      NonBlankCountPrefix(lines, n);
    }
  }

  /** The first loop in general: every non-blank response line within reach
      of an original is matched, in order. Line `j` lands at position "number
      of non-blank lines before `j`", which is `j` only when no earlier line
      is blank. */
  lemma {:induction false} MatchedExact(lines: seq<string>, originals: seq<Caption>)
    ensures |Matched(lines, originals)| == NonBlankCount(lines[..Min(|lines|, |originals|)])
    ensures forall j: nat :: PlacedAt(Matched(lines, originals), lines, originals, j)
    decreases |lines|
  {
    MatchedCount(lines, originals);
    if |lines| > 0 && |originals| > 0 {
      MatchedExact(lines[1..], originals[1..]);
      forall j: nat ensures PlacedAt(Matched(lines, originals), lines, originals, j) {
        if j == 0 {
          MatchedPlacesFirst(lines, originals);
        } else if j < |lines| && j < |originals| {
          MatchedPlacesLine(lines, originals, j);
        }
      }
    }
  }

  lemma MatchedPlacesFirst(lines: seq<string>, originals: seq<Caption>)
    requires |lines| > 0 && |originals| > 0
    ensures PlacedAt(Matched(lines, originals), lines, originals, 0)
  {
    assert lines[..0] == [];
  }

  lemma MatchedPlacesLine(lines: seq<string>, originals: seq<Caption>, j: nat)
    requires 0 < j < |lines| && j < |originals|
    requires PlacedAt(Matched(lines[1..], originals[1..]), lines[1..], originals[1..], j - 1)
    ensures PlacedAt(Matched(lines, originals), lines, originals, j)
  {
    if !IsBlank(lines[j]) {
      var tail := lines[1..];
      var rest := Matched(tail, originals[1..]);
      var head := if IsBlank(lines[0]) then [] else [Translate(originals[0], lines[0])];
      assert tail[j - 1] == lines[j] && originals[1..][j - 1] == originals[j];
      NonBlankCountPrefix(lines, j);
      IndexAfter(Matched(lines, originals), head, rest, NonBlankCount(tail[..j - 1]), NonBlankCount(lines[..j]));
    }
  }

  /** The aligner in general: the non-blank lines within reach come first,
      each carried by its own original, in order; from then on every
      original is kept verbatim at its own position. */
  lemma AlignExact(response: string, originals: seq<Caption>)
    ensures var lines := ResponseLines(response);
      forall j: nat :: PlacedAt(ProcessTranslatedResponse(response, originals), lines, originals, j)
    ensures var lines := ResponseLines(response);
      var r := ProcessTranslatedResponse(response, originals);
      forall k :: NonBlankCount(lines[..Min(|lines|, |originals|)]) <= k < |originals| ==> r[k] == originals[k]
  {
    var lines := ResponseLines(response);
    MatchedExact(lines, originals);
    var m := Matched(lines, originals);
    var r := ProcessTranslatedResponse(response, originals);
    assert r == m + originals[|m|..];
    forall j: nat ensures PlacedAt(r, lines, originals, j) {
      assert PlacedAt(m, lines, originals, j);
    }
  }

  /** When no response line is blank, `Matched` is positional. */
  lemma {:induction false} MatchedNoBlank(lines: seq<string>, originals: seq<Caption>)
    requires forall k :: 0 <= k < |lines| ==> !IsBlank(lines[k])
    ensures var m := Matched(lines, originals);
      && (|m| == |lines| || |m| == |originals|)
      && forall i :: 0 <= i < |m| ==> m[i] == Translate(originals[i], lines[i])
    decreases |lines|
  {
    if |lines| > 0 && |originals| > 0 {
      MatchedNoBlank(lines[1..], originals[1..]);
    }
  }

  /** When every response line is blank, nothing is matched. */
  lemma {:induction false} MatchedAllBlank(lines: seq<string>, originals: seq<Caption>)
    requires forall k :: 0 <= k < |lines| ==> IsBlank(lines[k])
    ensures Matched(lines, originals) == []
    decreases |lines|
  {
    if |lines| > 0 && |originals| > 0 {
      MatchedAllBlank(lines[1..], originals[1..]);
    }
  }

  /** A reply that is blank once trimmed is a single blank line, so the
      originals come back unchanged (not an empty list). */
  lemma BlankResponseKeepsOriginals(response: string, originals: seq<Caption>)
    requires IsBlank(response)
    ensures ProcessTranslatedResponse(response, originals) == originals
  {
    assert ResponseLines(response) == [[]];
    assert IsBlank([]);
    MatchedAllBlank(ResponseLines(response), originals);
  }

  /** More generally, a reply whose lines are all blank changes nothing. */
  lemma BlankLinesKeepOriginals(response: string, originals: seq<Caption>)
    requires forall k :: 0 <= k < |ResponseLines(response)| ==> IsBlank(ResponseLines(response)[k])
    ensures ProcessTranslatedResponse(response, originals) == originals
  {
    MatchedAllBlank(ResponseLines(response), originals);
  }

  /** Under-fill and over-fill: when no response line is blank, original `i`
      receives response line `i` while there is one, every later original is
      kept verbatim, and response lines past the last original are ignored. */
  lemma AlignNoBlankLines(response: string, originals: seq<Caption>)
    requires forall k :: 0 <= k < |ResponseLines(response)| ==> !IsBlank(ResponseLines(response)[k])
    ensures var lines := ResponseLines(response);
      var r := ProcessTranslatedResponse(response, originals);
      forall i :: 0 <= i < |originals| ==>
        r[i] == if i < |lines| then Translate(originals[i], lines[i]) else originals[i]
  {
    var lines := ResponseLines(response);
    MatchedNoBlank(lines, originals);
  }

  /** The first line of a trimmed, non-blank reply is itself non-blank. */
  lemma FirstLineNotBlank(response: string)
    requires !IsBlank(response)
    ensures !IsBlank(ResponseLines(response)[0])
  {
    var t := TrimSpace(response);
    var first := ResponseLines(response)[0];
    assert t != [] && !IsSpace(t[0]);
    assert IsSpace('\n');
    assert |first| > 0;
    assert first[0] == t[0];
  }

  /** With a single original and a non-blank reply, the result is that
      original carrying the trimmed first line of the trimmed reply. */
  lemma AlignSingle(response: string, o: Caption)
    requires !IsBlank(response)
    ensures ProcessTranslatedResponse(response, [o]) == [Translate(o, ResponseLines(response)[0])]
  {
    var lines := ResponseLines(response);
    FirstLineNotBlank(response);
    assert [o][1..] == [];
    assert Matched(lines[1..], []) == [];
  }

  /** The positional alignment evidently intended: original `i` receives
      response line `i` when that line exists and is not blank, and is kept
      verbatim otherwise. */
  function AlignPositional(response: string, originals: seq<Caption>): (r: seq<Caption>)
    ensures |r| == |originals|
    ensures forall i :: 0 <= i < |r| ==> SameTiming(r[i], originals[i])
    ensures forall i :: 0 <= i < |r| ==>
      var lines := ResponseLines(response);
      if i < |lines| && !IsBlank(lines[i]) then IsTranslationOf(r[i], originals[i]) && r[i].text == [TrimSpace(lines[i])]
      else r[i] == originals[i]
  {
    var lines := ResponseLines(response);
    seq(|originals|, i requires 0 <= i < |originals| =>
      if i < |lines| && !IsBlank(lines[i]) then Translate(originals[i], lines[i]) else originals[i])
  }

  /** Where the aligner is used by the translator, with one caption at a
      time, the as-written aligner and the positional one agree. */
  lemma AlignSingleIsPositional(response: string, originals: seq<Caption>)
    requires |originals| <= 1
    ensures ProcessTranslatedResponse(response, originals) == AlignPositional(response, originals)
  {
    if |originals| == 1 {
      if IsBlank(response) {
        BlankResponseKeepsOriginals(response, originals);
        assert ResponseLines(response) == [[]];
        assert IsBlank([]);
      } else {
        AlignSingle(response, originals[0]);
        FirstLineNotBlank(response);
        assert originals == [originals[0]];
      }
    }
  }

  /** They also agree whenever the reply has no blank interior line. */
  lemma AlignNoBlankIsPositional(response: string, originals: seq<Caption>)
    requires forall k :: 0 <= k < |ResponseLines(response)| ==> !IsBlank(ResponseLines(response)[k])
    ensures ProcessTranslatedResponse(response, originals) == AlignPositional(response, originals)
  {
    AlignNoBlankLines(response, originals);
  }

  /** A blank interior line shifts every later translation one caption
      earlier: for "a\n\nb" and three captions, the second item carries the
      third caption's timing and the third caption appears twice, while the
      second caption is lost. */
  lemma BlankInteriorLineShifts()
    ensures var r := ProcessTranslatedResponse("a\n\nb", [C0, C1, C2]);
      && r == [C0.WithText(["a"]), C2.WithText(["b"]), C2]
      && !SameTiming(r[1], C1)
      && AlignPositional("a\n\nb", [C0, C1, C2]) == [C0.WithText(["a"]), C1, C2.WithText(["b"])]
  {
    ExampleAsWritten();
    ExamplePositional();
  }

  lemma ExampleAsWritten()
    ensures ProcessTranslatedResponse("a\n\nb", [C0, C1, C2]) == [C0.WithText(["a"]), C2.WithText(["b"]), C2]
  {
    ExampleLinesFacts();
    ExampleMatched();
  }

  lemma ExamplePositional()
    ensures AlignPositional("a\n\nb", [C0, C1, C2]) == [C0.WithText(["a"]), C1, C2.WithText(["b"])]
  {
    ExampleLinesFacts();
  }

  /** The first loop on the example: the blank line is skipped, so "b" is
      paired with the third caption and only two items come out. */
  lemma ExampleMatched()
    ensures Matched(ExampleLines, [C0, C1, C2]) == [C0.WithText(["a"]), C2.WithText(["b"])]
  {
    var os := [C0, C1, C2];
    var lines := ExampleLines;
    ExampleLinesFacts();
    assert lines[1..] == ["", "b"] && os[1..] == [C1, C2];
    assert lines[1..][1..] == ["b"] && os[1..][1..] == [C2];
    assert ["b"][1..] == [] && [C2][1..] == [];
    assert Matched(["b"], [C2]) == [C2.WithText(["b"])];
    assert Matched(["", "b"], [C1, C2]) == [C2.WithText(["b"])];
  }

  const C0: Caption := Caption(1, 0, 1, ["x"])
  const C1: Caption := Caption(2, 2, 3, ["y"])
  const C2: Caption := Caption(3, 4, 5, ["z"])

  /** The lines of the example reply "a\n\nb". */
  const ExampleLines: seq<string> := ["a", "", "b"]

  lemma ExampleLinesFacts()
    ensures ResponseLines("a\n\nb") == ExampleLines
    ensures TrimSpace("a") == "a" && TrimSpace("b") == "b" && IsBlank("")
  {
    ExampleResponseLines();
    TrimSpaceOfPadded([], "a", []);
    assert [] + "a" + [] == "a";
    TrimSpaceOfPadded([], "b", []);
    assert [] + "b" + [] == "b";
  }

  lemma ExampleResponseLines()
    ensures ResponseLines("a\n\nb") == ExampleLines
  {
    ExampleReplyTrimmed();
    ExampleReplySplit();
  }

  lemma ExampleReplyTrimmed()
    ensures TrimSpace("a\n\nb") == "a\n\nb"
  {
    TrimSpaceOfPadded([], "a\n\nb", []);
    assert [] + "a\n\nb" + [] == "a\n\nb";
  }

  lemma ExampleReplySplit()
    ensures Split("a\n\nb", '\n') == ExampleLines
  {
    SplitJoin(ExampleLines, '\n');
    assert Join(ExampleLines, "\n") == "a\n\nb";
  }
}
