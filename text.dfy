/** The string operations of Rust's standard library that the tool relies on:
    `to_lowercase`, `contains`, `replace`, `split('/').last()` and
    `split_whitespace`, over `string = seq<char>`. */
module Text {

  /** The Unicode White_Space property, which `str::split_whitespace` splits on. */
  predicate IsWhitespace(c: char) {
    ('\t' <= c <= '\r') || c == ' ' || c == '\U{0085}' || c == '\U{00A0}' || c == '\U{1680}'
    || ('\U{2000}' <= c <= '\U{200A}') || c == '\U{2028}' || c == '\U{2029}'
    || c == '\U{202F}' || c == '\U{205F}' || c == '\U{3000}'
  }

  /** True when `s` holds at least one character that is not white space. */
  predicate HasToken(s: string) {
    exists i :: 0 <= i < |s| && !IsWhitespace(s[i])
  }

  // ---------------------------------------------------------------------------
  // Lower-casing (ASCII letters only)

  function LowerChar(c: char): char {
    if 'A' <= c <= 'Z' then (c as int + 32) as char else c
  }

  function Lower(s: string): (r: string)
    ensures |r| == |s|
  {
    if s == [] then [] else [LowerChar(s[0])] + Lower(s[1..])
  }

  lemma {:induction false} LowerAt(s: string, i: nat)
    requires i < |s|
    ensures Lower(s)[i] == LowerChar(s[i])
  {
    if i > 0 {
      LowerAt(s[1..], i - 1);
    }
  }

  /** Lower-casing twice is lower-casing once. */
  lemma {:induction false} LowerIdempotent(s: string)
    ensures Lower(Lower(s)) == Lower(s)
  {
    if s != [] {
      LowerIdempotent(s[1..]);
    }
  }

  /** No upper-case ASCII letter survives lower-casing, and every other
      character is left as it was. */
  lemma LowerHasNoCapitals(s: string, i: nat)
    requires i < |s|
    ensures !('A' <= Lower(s)[i] <= 'Z')
    ensures !('A' <= s[i] <= 'Z') ==> Lower(s)[i] == s[i]
  {
    LowerAt(s, i);
  }

  // ---------------------------------------------------------------------------
  // Substring containment (`str::contains`)

  ghost predicate OccursAt(hay: string, needle: string, i: int) {
    0 <= i && i + |needle| <= |hay| && hay[i..i + |needle|] == needle
  }

  /** `needle` occurs somewhere in `hay`; the empty needle occurs everywhere. */
  function Contains(hay: string, needle: string): (b: bool)
    ensures b <==> exists i :: OccursAt(hay, needle, i)
    decreases |hay|
  {
    if |needle| > |hay| then
      assert forall i :: !OccursAt(hay, needle, i);
      false
    else if hay[..|needle|] == needle then
      assert OccursAt(hay, needle, 0);
      true
    else
      var rest := Contains(hay[1..], needle);
      assert forall i :: OccursAt(hay[1..], needle, i) ==> OccursAt(hay, needle, i + 1) by {
        forall i | OccursAt(hay[1..], needle, i) ensures OccursAt(hay, needle, i + 1) {
          assert hay[1..][i..i + |needle|] == hay[i + 1..i + 1 + |needle|];
        }
      }
      assert forall i :: OccursAt(hay, needle, i) ==> i == 0 || OccursAt(hay[1..], needle, i - 1) by {
        forall i | OccursAt(hay, needle, i) && i != 0 ensures OccursAt(hay[1..], needle, i - 1) {
          assert hay[1..][i - 1..i - 1 + |needle|] == hay[i..i + |needle|];
        }
      }
      rest
  }

  /** The pattern test of the dispatcher: case-insensitive substring. */
  function Matches(name: string, pattern: string): bool {
    Contains(Lower(name), Lower(pattern))
  }

  /** Matching ignores the case of both the name and the pattern. */
  lemma MatchesIgnoresCase(name: string, pattern: string)
    ensures Matches(name, pattern) == Matches(Lower(name), pattern)
    ensures Matches(name, pattern) == Matches(name, Lower(pattern))
  {
    LowerIdempotent(name);
    LowerIdempotent(pattern);
  }

  /** A name always matches the empty pattern and itself. */
  lemma {:induction false} MatchesTrivially(name: string)
    ensures Matches(name, "")
    ensures Matches(name, name)
  {
    assert OccursAt(Lower(name), Lower(""), 0);
    assert OccursAt(Lower(name), Lower(name), 0);
  }

  lemma {:induction false} LowerAppend(a: string, b: string)
    ensures Lower(a + b) == Lower(a) + Lower(b)
  {
    if a == [] {
      assert a + b == b;
    } else {
      assert (a + b)[0] == a[0] && (a + b)[1..] == a[1..] + b;
      LowerAppend(a[1..], b);
    }
  }

  /** A name holding the pattern anywhere matches it, so matching whatever the
      case of either side ("Web" selects "my-webserver"). */
  lemma MatchesInfix(before: string, pattern: string, after: string)
    ensures Matches(before + pattern + after, pattern)
  {
    LowerAppend(before + pattern, after);
    LowerAppend(before, pattern);
    var hay := Lower(before) + Lower(pattern) + Lower(after);
    assert hay[|before|..|before| + |pattern|] == Lower(pattern);
    assert OccursAt(hay, Lower(pattern), |before|);
  }

  // ---------------------------------------------------------------------------
  // `replace(c, d)` for single characters

  function ReplaceChar(s: string, from: char, to: char): (r: string)
    ensures |r| == |s|
    ensures forall i :: 0 <= i < |s| ==> r[i] == (if s[i] == from then to else s[i])
  {
    if s == [] then [] else [if s[0] == from then to else s[0]] + ReplaceChar(s[1..], from, to)
  }

  /** After replacing every `from`, none is left (when `to` differs), and a
      string without `from` is returned unchanged. */
  lemma ReplaceCharRemovesAll(s: string, from: char, to: char)
    requires from != to
    ensures from !in ReplaceChar(s, from, to)
    ensures from !in s ==> ReplaceChar(s, from, to) == s
  {
    var r := ReplaceChar(s, from, to);
    if from !in s {
      assert forall i :: 0 <= i < |s| ==> r[i] == s[i];
    }
  }

  // ---------------------------------------------------------------------------
  // `split(sep).last()`

  /** The text after the last `sep`, or all of `s` when it has none: the
      longest suffix of `s` free of `sep`. */
  function LastSegment(s: string, sep: char): (r: string)
    ensures sep !in r
    ensures |r| <= |s| && r == s[|s| - |r|..]
    ensures |r| < |s| ==> s[|s| - |r| - 1] == sep
    decreases |s|
  {
    if s == [] then []
    else if s[|s| - 1] == sep then []
    else
      var init, last := s[..|s| - 1], s[|s| - 1];
      var r := LastSegment(init, sep);
      assert s == init + [last];
      r + [last]
  }

  /** Without a separator the last segment is the whole string. */
  lemma {:induction false} LastSegmentWhole(s: string, sep: char)
    requires sep !in s
    ensures LastSegment(s, sep) == s
  {
    if s != [] {
      assert s[|s| - 1] in s;
      assert forall c :: c in s[..|s| - 1] ==> c in s;
      LastSegmentWhole(s[..|s| - 1], sep);
    }
  }

  /** After a separator, the last segment is what follows the last one. */
  lemma LastSegmentAfter(prefix: string, sep: char, tail: string)
    requires sep !in tail
    ensures LastSegment(prefix + [sep] + tail, sep) == tail
  {
    var s := prefix + [sep] + tail;
    var r := LastSegment(s, sep);
    assert s[|s| - |tail| - 1] == sep;
    assert |r| == |tail|;
    assert s[|s| - |tail|..] == tail;
  }

  // ---------------------------------------------------------------------------
  // `split_whitespace`

  /** The characters of `s` that are not white space, in order. */
  function NonWhitespace(s: string): string {
    if s == [] then []
    else if IsWhitespace(s[0]) then NonWhitespace(s[1..])
    else [s[0]] + NonWhitespace(s[1..])
  }

  lemma {:induction false} NonWhitespaceAppend(a: string, b: string)
    ensures NonWhitespace(a + b) == NonWhitespace(a) + NonWhitespace(b)
  {
    if a != [] {
      assert (a + b)[0] == a[0];
      assert (a + b)[1..] == a[1..] + b;
      NonWhitespaceAppend(a[1..], b);
      if !IsWhitespace(a[0]) {
        assert NonWhitespace(a + b) == [a[0]] + NonWhitespace(a[1..] + b);
        assert NonWhitespace(a) == [a[0]] + NonWhitespace(a[1..]);
      }
    } else {
      assert a + b == b;
    }
  }

  /** `trim_start`: drop the leading white space. */
  function TrimStart(s: string): (r: string)
    ensures |r| <= |s| && r == s[|s| - |r|..]
    ensures r == [] || !IsWhitespace(r[0])
    ensures NonWhitespace(r) == NonWhitespace(s)
  {
    if s != [] && IsWhitespace(s[0]) then TrimStart(s[1..]) else s
  }

  /** The longest prefix of `s` with no white space: it stops at the end
      of `s` or at a white-space character. */
  function Word(s: string): (w: string)
    ensures |w| <= |s| && w == s[..|w|]
    ensures forall i :: 0 <= i < |w| ==> !IsWhitespace(w[i])
    ensures |w| == |s| || IsWhitespace(s[|w|])
    ensures NonWhitespace(w) == w
  {
    if s != [] && !IsWhitespace(s[0]) then [s[0]] + Word(s[1..]) else []
  }

  function Concat(ss: seq<string>): string {
    if ss == [] then [] else ss[0] + Concat(ss[1..])
  }

  /** A token: non-empty and free of white space. */
  predicate IsWord(t: string) {
    t != [] && forall i :: 0 <= i < |t| ==> !IsWhitespace(t[i])
  }

  /** One step of the split: a non-empty, trimmed string is its first word
      followed by the rest. */
  lemma SplitStep(t: string)
    requires t != [] && !IsWhitespace(t[0])
    ensures IsWord(Word(t))
    ensures NonWhitespace(t) == Word(t) + NonWhitespace(t[|Word(t)|..])
  {
    var w := Word(t);
    assert t == w + t[|w|..];
    NonWhitespaceAppend(w, t[|w|..]);
  }

  /** `split_whitespace().collect()`: the maximal runs of non-white-space
      characters.  Every token is non-empty and white-space free, and the
      tokens together hold exactly the non-white-space characters of `s`. */
  function SplitWhitespace(s: string): (toks: seq<string>)
    ensures AllWords(toks)
    ensures Concat(toks) == NonWhitespace(s)
    decreases |s|
  {
    var t := TrimStart(s);
    if t == [] then []
    else
      var w := Word(t);
      SplitStep(t);
      var tail := t[|w|..];
      var rest := SplitWhitespace(tail);
      ConcatCons(w, rest);
      [w] + rest
  }

  predicate AllWords(toks: seq<string>) {
    forall k :: 0 <= k < |toks| ==> IsWord(toks[k])
  }

  /** A word list with one more word in front. */
  lemma ConcatCons(w: string, rest: seq<string>)
    ensures Concat([w] + rest) == w + Concat(rest)
    ensures IsWord(w) && AllWords(rest) ==> AllWords([w] + rest)
  {
    var toks := [w] + rest;
    assert toks[0] == w && toks[1..] == rest;
  }

  lemma {:induction false} NonWhitespaceEmpty(s: string)
    ensures NonWhitespace(s) == [] <==> !HasToken(s)
  {
    if s != [] {
      NonWhitespaceEmpty(s[1..]);
      if !IsWhitespace(s[0]) {
        assert HasToken(s);
      } else if HasToken(s) {
        var i :| 0 <= i < |s| && !IsWhitespace(s[i]);
        assert HasToken(s[1..]) by { assert !IsWhitespace(s[1..][i - 1]); }
      } else {
        assert !HasToken(s[1..]) by {
          forall i | 0 <= i < |s[1..]| ensures IsWhitespace(s[1..][i]) {
            assert s[1..][i] == s[i + 1];
          }
        }
      }
    }
  }

  /** A command string yields a first token exactly when it holds a
      non-white-space character. */
  lemma SplitWhitespaceNonEmpty(s: string)
    ensures SplitWhitespace(s) != [] <==> HasToken(s)
  {
    var toks := SplitWhitespace(s);
    NonWhitespaceEmpty(s);
    if toks != [] {
      assert IsWord(toks[0]);
      assert Concat(toks) == toks[0] + Concat(toks[1..]);
    }
  }

  predicate AllWhitespace(s: string) {
    forall i :: 0 <= i < |s| ==> IsWhitespace(s[i])
  }

  /** A command written out from its words: before each word a run of white
      space, then trailing white space. */
  function Layout(words: seq<string>, gaps: seq<string>, trail: string): string
    requires |gaps| == |words|
  {
    if words == [] then trail else gaps[0] + words[0] + Layout(words[1..], gaps[1..], trail)
  }

  /** The words are tokens, the gaps and the trail are white space, and every
      gap but the leading one is non-empty, so no two words touch. */
  predicate WellSpaced(words: seq<string>, gaps: seq<string>, trail: string) {
    |gaps| == |words| && AllWords(words) && AllWhitespace(trail)
    && (forall k :: 0 <= k < |gaps| ==> AllWhitespace(gaps[k]))
    && (forall k :: 0 < k < |gaps| ==> gaps[k] != [])
  }

  /** Leading white space is dropped up to the first non-white-space
      character. */
  lemma {:induction false} TrimStartSkips(g: string, x: string)
    requires AllWhitespace(g)
    requires x == [] || !IsWhitespace(x[0])
    ensures TrimStart(g + x) == x
  {
    if g == [] {
      assert g + x == x;
    } else {
      assert (g + x)[0] == g[0];
      assert (g + x)[1..] == g[1..] + x;
      TrimStartSkips(g[1..], x);
    }
  }

  /** A word ends where white space (or the string) begins. */
  lemma {:induction false} WordStops(w: string, r: string)
    requires forall i :: 0 <= i < |w| ==> !IsWhitespace(w[i])
    requires r == [] || IsWhitespace(r[0])
    ensures Word(w + r) == w
  {
    if w == [] {
      assert w + r == r;
    } else {
      assert (w + r)[0] == w[0];
      assert (w + r)[1..] == w[1..] + r;
      WordStops(w[1..], r);
    }
  }

  /** Dropping the first word of a well-spaced layout leaves one. */
  lemma WellSpacedTail(words: seq<string>, gaps: seq<string>, trail: string)
    requires WellSpaced(words, gaps, trail) && words != []
    ensures WellSpaced(words[1..], gaps[1..], trail)
    ensures var rest := Layout(words[1..], gaps[1..], trail); rest == [] || IsWhitespace(rest[0])
  {
    forall k | 0 <= k < |words[1..]| ensures IsWord(words[1..][k]) {
      assert words[1..][k] == words[k + 1];
    }
    forall k | 0 <= k < |gaps[1..]| ensures AllWhitespace(gaps[1..][k]) {
      assert gaps[1..][k] == gaps[k + 1];
    }
    forall k | 0 < k < |gaps[1..]| ensures gaps[1..][k] != [] {
      assert gaps[1..][k] == gaps[k + 1];
    }
    if |words| > 1 {
      assert gaps[1] != [] && AllWhitespace(gaps[1]);
      assert Layout(words[1..], gaps[1..], trail)[0] == gaps[1][0];
    }
  }

  /** One step of the split on a layout: the first word is read off and the
      split goes on with the rest of the layout. */
  lemma SplitLayoutStep(words: seq<string>, gaps: seq<string>, trail: string)
    requires WellSpaced(words, gaps, trail) && words != []
    ensures WellSpaced(words[1..], gaps[1..], trail)
    ensures SplitWhitespace(Layout(words, gaps, trail))
      == [words[0]] + SplitWhitespace(Layout(words[1..], gaps[1..], trail))
  {
    var w := words[0];
    var rest := Layout(words[1..], gaps[1..], trail);
    assert IsWord(w);
    WellSpacedTail(words, gaps, trail);
    assert Layout(words, gaps, trail) == gaps[0] + (w + rest);
    TrimStartSkips(gaps[0], w + rest);
    WordStops(w, rest);
    assert (w + rest)[|w|..] == rest;
  }

  /** The split gives back exactly the words a command was written from,
      whatever white space separates them: the tokens are the maximal runs
      of non-white-space characters. */
  lemma {:induction false} SplitWhitespaceLayout(words: seq<string>, gaps: seq<string>, trail: string)
    requires WellSpaced(words, gaps, trail)
    ensures SplitWhitespace(Layout(words, gaps, trail)) == words
    decreases |words|
  {
    if words != [] {
      SplitLayoutStep(words, gaps, trail);
      SplitWhitespaceLayout(words[1..], gaps[1..], trail);
      assert [words[0]] + words[1..] == words;
    }
  }

  // ---------------------------------------------------------------------------
  // `to_string` of booleans and integers

  /** `bool::to_string`. */
  function BoolText(b: bool): string {
    if b then "true" else "false"
  }

  predicate IsDigit(c: char) {
    '0' <= c <= '9'
  }

  function DigitChar(d: nat): (c: char)
    requires d < 10
    ensures IsDigit(c)
  {
    ('0' as int + d) as char
  }

  predicate AllDigits(s: string) {
    forall i :: 0 <= i < |s| ==> IsDigit(s[i])
  }

  /** Decimal notation of a natural number, without leading zeros. */
  function NatText(n: nat): (s: string)
    ensures s != [] && AllDigits(s)
    ensures |s| > 1 ==> s[0] != '0'
  {
    if n < 10 then [DigitChar(n)] else NatText(n / 10) + [DigitChar(n % 10)]
  }

  /** `i64::to_string`: a minus sign for negative values, then the digits. */
  function IntText(n: int): string {
    if n < 0 then "-" + NatText(-n) else NatText(n)
  }

  /** Reading decimal digits back. */
  function ParseNat(s: string): nat
    requires AllDigits(s)
  {
    if s == [] then 0 else ParseNat(s[..|s| - 1]) * 10 + (s[|s| - 1] as int - '0' as int)
  }

  function ParseInt(s: string): int
    requires s != [] && (if s[0] == '-' then AllDigits(s[1..]) else AllDigits(s))
  {
    var magnitude: int := if s[0] == '-' then ParseNat(s[1..]) else ParseNat(s);
    if s[0] == '-' then -magnitude else magnitude
  }

  lemma {:induction false} NatTextRoundTrip(n: nat)
    ensures ParseNat(NatText(n)) == n
  {
    if n >= 10 {
      NatTextRoundTrip(n / 10);
      var s := NatText(n);
      assert s[..|s| - 1] == NatText(n / 10);
    }
  }

  /** The decimal rendering of an integer reads back as the same integer, so
      distinct numbers render differently. */
  lemma IntTextRoundTrip(n: int)
    ensures var s := IntText(n); s != [] && (if s[0] == '-' then AllDigits(s[1..]) else AllDigits(s))
    ensures ParseInt(IntText(n)) == n
  {
    if n < 0 {
      NatTextRoundTrip(-n);
      assert IntText(n)[1..] == NatText(-n);
    } else {
      NatTextRoundTrip(n);
    }
  }
}
