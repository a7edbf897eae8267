/** String operations the translator borrows from Go's `strings` package and
    `fmt` verbs, on Dafny strings (sequences of Unicode scalar values). */
module Text {

  /** The characters Go's `unicode.IsSpace` reports as white space. */
  predicate IsSpace(c: char) {
    || c == ' ' || c == '\t' || c == '\n' || c == '\r'
    || c == '\U{000B}' || c == '\U{000C}'
    || c == '\U{0085}' || c == '\U{00A0}' || c == '\U{1680}'
    || ('\U{2000}' <= c <= '\U{200A}')
    || c == '\U{2028}' || c == '\U{2029}' || c == '\U{202F}'
    || c == '\U{205F}' || c == '\U{3000}'
  }

  /** Every character of `s[lo..hi]` is white space. */
  predicate SpaceBetween(s: string, lo: int, hi: int)
    requires 0 <= lo <= hi <= |s|
  {
    forall i :: lo <= i < hi ==> IsSpace(s[i])
  }

  predicate AllSpace(s: string) {
    SpaceBetween(s, 0, |s|)
  }

  /** No white space at either end. */
  predicate Trimmed(s: string) {
    s == [] || (!IsSpace(s[0]) && !IsSpace(s[|s| - 1]))
  }

  predicate IsPrefix(p: string, s: string) {
    |p| <= |s| && s[..|p|] == p
  }

  predicate IsSuffix(p: string, s: string) {
    |p| <= |s| && s[|s| - |p|..] == p
  }

  /** `strings.Contains(s, p)`. */
  predicate IsInfix(p: string, s: string) {
    exists i :: 0 <= i <= |s| - |p| && IsPrefix(p, s[i..])
  }

  /** The first index at or after `i` that does not hold white space. */
  function SkipSpaceForward(s: string, i: nat): (r: nat)
    requires i <= |s|
    ensures i <= r <= |s| && SpaceBetween(s, i, r)
    ensures r < |s| ==> !IsSpace(s[r])
    decreases |s| - i
  {
    if i < |s| && IsSpace(s[i]) then SkipSpaceForward(s, i + 1) else i
  }

  /** The least index `r` in `[lo, j]` with `s[r..j]` all white space. */
  function SkipSpaceBackward(s: string, lo: nat, j: nat): (r: nat)
    requires lo <= j <= |s|
    ensures lo <= r <= j && SpaceBetween(s, r, j)
    ensures r > lo ==> !IsSpace(s[r - 1])
    decreases j
  {
    if j > lo && IsSpace(s[j - 1]) then SkipSpaceBackward(s, lo, j - 1) else j
  }

  /** `strings.TrimSpace`: `s` with its leading and trailing white space removed.
      The result sits inside `s` between two all-space margins, and is empty
      exactly when `s` is all space. */
  function TrimSpace(s: string): (r: string)
    ensures Trimmed(r)
    ensures r == [] <==> AllSpace(s)
    ensures exists k :: 0 <= k <= |s| - |r| && s[k..k + |r|] == r && SpaceBetween(s, 0, k) && SpaceBetween(s, k + |r|, |s|)
  {
    var lo := SkipSpaceForward(s, 0);
    var hi := SkipSpaceBackward(s, lo, |s|);
    assert lo == hi ==> AllSpace(s);
    s[lo..hi]
  }

  /** A string `strings.TrimSpace` reduces to "". */
  predicate IsBlank(s: string) {
    TrimSpace(s) == []
  }

  /** The trimmed core of a string is unique: whatever all-space margins are
      put around a trimmed string, `TrimSpace` removes exactly them. */
  lemma TrimSpaceOfPadded(a: string, m: string, b: string)
    requires AllSpace(a) && AllSpace(b) && Trimmed(m)
    ensures TrimSpace(a + m + b) == m
  {
    var s := a + m + b;
    assert forall i :: 0 <= i < |a| ==> s[i] == a[i];
    assert forall i :: |a| + |m| <= i < |s| ==> s[i] == b[i - |a| - |m|];
    if m != [] {
      assert s[|a|] == m[0] && s[|a| + |m| - 1] == m[|m| - 1];
      var lo := SkipSpaceForward(s, 0);
      assert lo == |a|;
      var hi := SkipSpaceBackward(s, lo, |s|);
      assert hi == |a| + |m|;
      assert s[lo..hi] == m;
    } else {
      assert AllSpace(s);
    }
  }

  /** `strings.TrimSuffix`. */
  function TrimSuffix(s: string, suffix: string): (r: string)
    ensures IsSuffix(suffix, s) ==> r + suffix == s
    ensures !IsSuffix(suffix, s) ==> r == s
  {
    if IsSuffix(suffix, s) then s[..|s| - |suffix|] else s
  }

  /** `strings.Join`. */
  function Join(parts: seq<string>, sep: string): string {
    if |parts| == 0 then []
    else if |parts| == 1 then parts[0]
    else parts[0] + sep + Join(parts[1..], sep)
  }

  lemma JoinPrepend(p: string, parts: seq<string>, sep: string)
    requires |parts| >= 1
    ensures Join([p + parts[0]] + parts[1..], sep) == p + Join(parts, sep)
  {
    var q := [p + parts[0]] + parts[1..];
    if |parts| > 1 {
      assert q[1..] == parts[1..];
    }
  }

  /** `strings.Split(s, string(sep))`: the pieces between separators, always at
      least one; joining them back gives `s`, and the first piece is the text
      before the first separator. */
  function Split(s: string, sep: char): (r: seq<string>)
    ensures |r| >= 1
    ensures forall k :: 0 <= k < |r| ==> sep !in r[k]
    ensures Join(r, [sep]) == s
    ensures IsPrefix(r[0], s) && (|r[0]| < |s| ==> s[|r[0]|] == sep)
  {
    if |s| == 0 then [[]]
    else if s[0] == sep then
      var rest := Split(s[1..], sep);
      assert ([[]] + rest)[1..] == rest;
      [[]] + rest
    else
      var rest := Split(s[1..], sep);
      JoinPrepend([s[0]], rest, [sep]);
      assert s == [s[0]] + s[1..];
      [[s[0]] + rest[0]] + rest[1..]
  }

  /** Splitting undoes joining when no part contains the separator. */
  lemma {:induction false} SplitJoin(parts: seq<string>, sep: char)
    requires |parts| >= 1
    requires forall k :: 0 <= k < |parts| ==> sep !in parts[k]
    ensures Split(Join(parts, [sep]), sep) == parts
    decreases |parts|, |parts[0]|
  {
    var s := Join(parts, [sep]);
    if |parts[0]| == 0 {
      if |parts| == 1 {
        assert s == [];
      } else {
        assert s == [sep] + Join(parts[1..], [sep]);
        assert s[1..] == Join(parts[1..], [sep]);
        SplitJoin(parts[1..], sep);
        assert parts == [parts[0]] + parts[1..];
      }
    } else {
      var c := parts[0][0];
      assert c != sep by { assert c in parts[0]; }
      var tail := [parts[0][1..]] + parts[1..];
      forall k | 0 <= k < |tail| ensures sep !in tail[k] {
        if k > 0 {
          assert tail[k] == parts[k];
        }
      }
      JoinPrepend([c], tail, [sep]);
      assert [[c] + tail[0]] + tail[1..] == parts by {
        assert [c] + parts[0][1..] == parts[0];
        assert tail[1..] == parts[1..];
      }
      assert s == [c] + Join(tail, [sep]);
      assert s[0] == c && s[1..] == Join(tail, [sep]);
      SplitJoin(tail, sep);
    }
  }

  lemma PrefixTransitive(a: string, b: string, c: string)
    requires IsPrefix(a, b) && IsPrefix(b, c)
    ensures IsPrefix(a, c)
    ensures forall i :: 0 <= i < |a| ==> c[i] == a[i]
  {
    assert c[..|a|] == b[..|a|];
    assert forall i :: 0 <= i < |a| ==> c[i] == c[..|a|][i];
  }

  /** A string occurs in any concatenation that places it between two others. */
  lemma InfixOfConcat(a: string, p: string, b: string)
    ensures IsInfix(p, a + p + b)
  {
    var s := a + p + b;
    assert s[|a|..][..|p|] == p;
    assert IsPrefix(p, s[|a|..]);
  }

  /** Occurrence is preserved by surrounding the containing string. */
  lemma InfixWiden(p: string, a: string, m: string, b: string)
    requires IsInfix(p, m)
    ensures IsInfix(p, a + m + b)
  {
    var i :| 0 <= i <= |m| - |p| && IsPrefix(p, m[i..]);
    var s := a + m + b;
    assert s[|a| + i..][..|p|] == m[i..][..|p|];
    assert IsPrefix(p, s[|a| + i..]);
  }

  lemma ConcatAssoc(a: string, b: string, c: string)
    ensures a + b + c == a + (b + c)
  {
  }

  lemma InfixOfHead(head: string, tail: string)
    ensures IsInfix(head, head + tail)
  {
    InfixOfConcat([], head, tail);
    assert [] + head + tail == head + tail;
  }

  lemma InfixOfTail(p: string, head: string, tail: string)
    requires IsInfix(p, tail)
    ensures IsInfix(p, head + tail)
  {
    InfixWiden(p, head, tail, []);
    assert head + tail + [] == head + tail;
  }

  /** The parts written one after another, as a loop of appends builds them. */
  function Concat(parts: seq<string>): string
    decreases |parts|
  {
    if |parts| == 0 then [] else parts[0] + Concat(parts[1..])
  }

  /** Every part occurs in the concatenation. */
  lemma {:induction false} ConcatHasParts(parts: seq<string>)
    ensures forall k :: 0 <= k < |parts| ==> IsInfix(parts[k], Concat(parts))
    decreases |parts|
  {
    if |parts| > 0 {
      var head := parts[0];
      var tail := Concat(parts[1..]);
      ConcatHasParts(parts[1..]);
      forall k | 0 <= k < |parts| ensures IsInfix(parts[k], head + tail) {
        if k == 0 {
          InfixOfHead(head, tail);
        } else {
          assert parts[1..][k - 1] == parts[k];
          InfixOfTail(parts[k], head, tail);
        }
      }
    }
  }

  lemma PrefixOfConcat(a: string, b: string, c: string)
    ensures IsPrefix(a + b, a + (b + c))
  {
    assert (a + (b + c))[..|a + b|] == a + b;
  }

  lemma SuffixTransitive(a: string, b: string, c: string)
    requires IsSuffix(a, b) && IsSuffix(b, c)
    ensures IsSuffix(a, c)
  {
    assert c[|c| - |a|..] == c[|c| - |b|..][|b| - |a|..];
  }

  lemma SuffixOfConcat(a: string, p: string)
    ensures IsSuffix(p, a + p)
  {
    assert (a + p)[|a + p| - |p|..] == p;
  }

  /** Position `idx` of `rest` is position `n` of `head + rest`. */
  lemma IndexAfter<T>(m: seq<T>, head: seq<T>, rest: seq<T>, idx: nat, n: nat)
    requires m == head + rest && idx < |rest| && n == |head| + idx
    ensures n < |m| && m[n] == rest[idx]
  {
  }

  /** Positions of `head` are unchanged in `head + rest`. */
  lemma IndexBefore<T>(m: seq<T>, head: seq<T>, rest: seq<T>, idx: nat)
    requires m == head + rest && idx < |head|
    ensures idx < |m| && m[idx] == head[idx]
  {
  }

  function DigitChar(d: nat): (c: char)
    requires d < 10
    ensures '0' <= c <= '9'
  {
    "0123456789"[d]
  }

  function DigitValue(c: char): nat
    requires '0' <= c <= '9'
  {
    (c as int - '0' as int) as nat
  }

  predicate AllDigits(s: string) {
    forall i :: 0 <= i < |s| ==> '0' <= s[i] <= '9'
  }

  /** The number a string of decimal digits denotes. */
  function ParseDecimal(s: string): nat
    requires AllDigits(s)
  {
    if |s| == 0 then 0
    else 10 * ParseDecimal(s[..|s| - 1]) + DigitValue(s[|s| - 1])
  }

  /** The `%d` rendering of a natural number: decimal digits, no leading zero. */
  function NatToString(n: nat): (r: string)
    ensures |r| >= 1 && AllDigits(r)
    ensures r[0] == '0' ==> n == 0
  {
    if n < 10 then [DigitChar(n)]
    else NatToString(n / 10) + [DigitChar(n % 10)]
  }

  /** Reading back the `%d` rendering gives the number. */
  lemma {:induction false} ParseNatToString(n: nat)
    ensures ParseDecimal(NatToString(n)) == n
  {
    var s := NatToString(n);
    if n < 10 {
      assert s[..0] == [];
    } else {
      ParseNatToString(n / 10);
      assert s[..|s| - 1] == NatToString(n / 10);
    }
  }
}
