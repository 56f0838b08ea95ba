/** Word splitting and the two token estimates. */
module Tokens {
  import opened Sequences
  import opened Numerals

  /** The pieces between separators; adjacent separators leave empty pieces. */
  function SplitBy(sep: char -> bool, s: string): (r: seq<string>)
    ensures |r| > 0
  {
    if s == [] then [[]]
    else
      var rest := SplitBy(sep, s[1..]);
      if sep(s[0]) then [[]] + rest else [[s[0]] + rest[0]] + rest[1..]
  }

  function NonEmpty(): string -> bool {
    (w: string) => w != []
  }

  function Words(sep: char -> bool, s: string): seq<string> {
    Filter(NonEmpty(), SplitBy(sep, s))
  }

  function IsBlank(): char -> bool {
    c => c == ' '
  }

  /** The characters `str.split()` separates at. */
  function IsWhitespace(): char -> bool {
    c => c in {'\t', '\n', '\U{0B}', '\U{0C}', '\r', '\U{1C}', '\U{1D}', '\U{1E}', '\U{1F}', ' ', '\U{85}', '\U{A0}',
               '\U{1680}', '\U{2000}', '\U{2001}', '\U{2002}', '\U{2003}', '\U{2004}', '\U{2005}', '\U{2006}',
               '\U{2007}', '\U{2008}', '\U{2009}', '\U{200A}', '\U{2028}', '\U{2029}', '\U{202F}', '\U{205F}',
                   '\U{3000}'}
  }

  function NewlineToBlank(c: char): char {
    if c == '\n' then ' ' else c
  }

  function BlankWords(text: string): seq<string> {
    Words(IsBlank(), Map(NewlineToBlank, text))
  }

  /** `_estimate_tokens`: newlines become blanks, and words are split at blanks only. */
  function EstimateTokens(text: string): (tokens: nat)
    ensures tokens > 0
  {
    Max(1, Ceil(|BlankWords(text)| as real * 1.25))
  }

  /** The estimate written out in the baselines: words are split at any whitespace. */
  function SplitTokens(text: string): (tokens: nat)
    ensures tokens > 0
  {
    Max(1, (|Words(IsWhitespace(), text)| as real * 1.25 + 0.999).Floor)
  }

  /** Five tokens for every four words, and one more than the words of an unfinished four. */
  lemma CeilOfWords(words: nat)
    ensures Ceil(words as real * 1.25) == words + (words + 3) / 4
  {
    var q, r := words / 4, words % 4;
    assert words as real == 4.0 * q as real + r as real;
    assert words as real * 1.25 == (5 * q) as real + r as real * 1.25;
    assert Ceil(words as real * 1.25) == 5 * q + (if r == 0 then 0 else r + 1);
  }

  /** Adding 0.999 before truncating rounds every word count up, as the ceiling does. */
  lemma RoundingsAgree(words: nat)
    ensures (words as real * 1.25 + 0.999).Floor == Ceil(words as real * 1.25) >= 0
  {
    var q, r := words / 4, words % 4;
    assert words as real == 4.0 * q as real + r as real;
    assert words as real * 1.25 == (5 * q) as real + r as real * 1.25;
    CeilOfWords(words);
  }

  /** More words never cost fewer tokens, and different word counts never the same, in either estimate. */
  lemma EstimatesByWords(text: string)
    ensures EstimateTokens(text) == Max(1, |BlankWords(text)| + (|BlankWords(text)| + 3) / 4)
    ensures SplitTokens(text) == Max(1, |Words(IsWhitespace(), text)| + (|Words(IsWhitespace(), text)| + 3) / 4)
  {
    CeilOfWords(|BlankWords(text)|);
    CeilOfWords(|Words(IsWhitespace(), text)|);
    RoundingsAgree(|Words(IsWhitespace(), text)|);
  }

  /** For every text, the estimates are equal exactly when both splittings find equally many words. */
  lemma EstimatesAgreeExactly(text: string)
    ensures EstimateTokens(text) == SplitTokens(text) <==> |BlankWords(text)| == |Words(IsWhitespace(), text)|
  {
    EstimatesByWords(text);
  }

  // ----- Counting words by where they start

  /** Word starts of a text; `inside` says whether a word was going on before it. */
  function Starts(sep: char -> bool, s: string, inside: bool): nat {
    if s == [] then 0
    else (if !sep(s[0]) && !inside then 1 else 0) + Starts(sep, s[1..], !sep(s[0]))
  }

  lemma {:induction false} PiecesStart(sep: char -> bool, s: string)
    ensures |Filter(NonEmpty(), SplitBy(sep, s)[1..])| == Starts(sep, s, true)
    ensures SplitBy(sep, s)[0] != [] <==> s != [] && !sep(s[0])
  {
    if s != [] {
      var rest := SplitBy(sep, s[1..]);
      PiecesStart(sep, s[1..]);
      assert SplitBy(sep, s)[1..] == if sep(s[0]) then rest else rest[1..];
      assert rest == [rest[0]] + rest[1..];
    }
  }

  /** There are as many words as there are places where a word starts. */
  lemma WordsStart(sep: char -> bool, s: string)
    ensures |Words(sep, s)| == Starts(sep, s, false)
  {
    PiecesStart(sep, s);
  }

  function IsPlain(): char -> bool {
    c => c == ' ' || c == '\n'
  }

  lemma {:induction false} StartsAfterNewlines(s: string, inside: bool)
    ensures Starts(IsBlank(), Map(NewlineToBlank, s), inside) == Starts(IsPlain(), s, inside)
  {
    if s != [] {
      MapCons(NewlineToBlank, s);
      StartsAfterNewlines(s[1..], !IsPlain()(s[0]));
    }
  }

  // ----- Whitespace other than blanks and newlines

  function IsOther(): char -> bool {
    c => IsWhitespace()(c) && !IsPlain()(c)
  }

  /** Only blanks and newlines separate the words of this text. */
  ghost predicate PlainSpacing(text: string) {
    forall i :: 0 <= i < |text| ==> !IsOther()(text[i])
  }

  /** Every tab, or other whitespace but blanks and newlines, stands between two characters that are
      not whitespace. */
  ghost predicate OthersJoin(text: string) {
    forall i :: 0 <= i < |text| && IsOther()(text[i]) ==>
      0 < i < |text| - 1 && !IsWhitespace()(text[i - 1]) && !IsWhitespace()(text[i + 1])
  }

  function OtherAt(text: string, i: int): nat {
    if 0 <= i < |text| && IsOther()(text[i]) then 1 else 0
  }

  /** From any position on, the finer splitting finds one more word for each joining character. */
  lemma {:induction false} StartsApart(text: string, n: nat)
    requires n <= |text| && OthersJoin(text)
    ensures Starts(IsWhitespace(), text[n..], n > 0 && !IsWhitespace()(text[n - 1]))
         == Starts(IsPlain(), text[n..], n > 0 && !IsPlain()(text[n - 1]))
            + |Filter(IsOther(), text[n..])| + OtherAt(text, n - 1)
    decreases |text| - n
  {
    if n < |text| {
      StartsApart(text, n + 1);
      assert text[n..] == [text[n]] + text[n + 1..];
    }
  }

  /** Such characters each join two words for one estimate and part them for the other. */
  lemma WordsApart(text: string)
    requires OthersJoin(text)
    ensures |Words(IsWhitespace(), text)| == |BlankWords(text)| + |Filter(IsOther(), text)|
  {
    assert text[0..] == text;
    StartsApart(text, 0);
    WordsStart(IsWhitespace(), text);
    WordsStart(IsBlank(), Map(NewlineToBlank, text));
    StartsAfterNewlines(text, false);
  }

  lemma PlainHasNoOthers(text: string)
    ensures Filter(IsOther(), text) == [] <==> PlainSpacing(text)
  {
    if PlainSpacing(text) {
      FilterNone(IsOther(), text);
    } else {
      var i :| 0 <= i < |text| && IsOther()(text[i]);
      FilterIn(IsOther(), text, text[i]);
    }
  }

  /** Where tabs and their like only join words, the estimates agree exactly when there are none. */
  lemma EstimatesAgreeOnPlain(text: string)
    requires OthersJoin(text)
    ensures EstimateTokens(text) == SplitTokens(text) <==> PlainSpacing(text)
  {
    EstimatesAgreeExactly(text);
    WordsApart(text);
    PlainHasNoOthers(text);
  }

  lemma TabIsOther()
    ensures IsOther()('\t') && !IsWhitespace()('a') && !IsWhitespace()('b')
  {
    assert IsWhitespace()('\t') && !IsPlain()('\t');
  }

  /** A tab is a word to one estimate and a separator to the other. */
  lemma TabEstimatesDiffer()
    ensures EstimateTokens("a\tb") == 2 && SplitTokens("a\tb") == 3
  {
    var text := "a\tb";
    TabIsOther();
    assert text[0] == 'a' && text[1] == '\t' && text[2] == 'b';
    WordsApart(text);
    assert Filter(IsOther(), text) == "\t" by {
      assert text[1..] == "\tb" && text[1..][1..] == "b" && "b"[1..] == "";
    }
    WordsStart(IsWhitespace(), text);
    assert Starts(IsWhitespace(), text, false) == 2 by {
      assert text[1..] == "\tb" && text[1..][1..] == "b" && "b"[1..] == "";
    }
    EstimatesByWords(text);
  }
}
