/** Decimal numerals, as format strings print them, and rounding. */
module Numerals {

  function Min(a: int, b: int): int {
    if a < b then a else b
  }

  function Max(a: int, b: int): int {
    if a < b then b else a
  }

  function Ceil(x: real): int {
    -((-x).Floor)
  }

  function Decimal(n: nat): string {
    if n < 10 then [('0' as int + n) as char] else Decimal(n / 10) + [('0' as int + n % 10) as char]
  }

  function Padded(s: string, width: nat): string
    decreases width - |s|
  {
    if |s| >= width then s else Padded("0" + s, width)
  }

  /** The number that digits stand for. */
  function Value(s: string): int {
    if s == "" then 0 else 10 * Value(s[..|s| - 1]) + (s[|s| - 1] as int - '0' as int)
  }

  ghost predicate AllDigits(s: string) {
    forall i :: 0 <= i < |s| ==> '0' <= s[i] <= '9'
  }

  /** A numeral consists of digits and reads back as its number. */
  lemma {:induction false} DecimalReads(n: nat)
    ensures Value(Decimal(n)) == n && |Decimal(n)| > 0
    ensures n < 10 ==> |Decimal(n)| == 1
    ensures AllDigits(Decimal(n))
  {
    if n >= 10 {
      DecimalReads(n / 10);
      assert Decimal(n)[..|Decimal(n)| - 1] == Decimal(n / 10);
    } else {
      assert Decimal(n)[..0] == "";
    }
  }

  lemma {:induction false} LeadingZero(s: string)
    ensures Value("0" + s) == Value(s)
  {
    if s == "" {
      assert ("0" + s)[..0] == "";
    } else {
      LeadingZero(s[..|s| - 1]);
      assert ("0" + s)[..|s|] == "0" + s[..|s| - 1];
    }
  }

  /** Padding fills up to the width and leaves the number, the digits and anything long enough as they are. */
  lemma {:induction false} PaddedReads(s: string, width: nat)
    ensures Value(Padded(s, width)) == Value(s)
    ensures |Padded(s, width)| == Max(|s|, width)
    ensures Padded(s, width)[|Padded(s, width)| - |s|..] == s
    decreases width - |s|
  {
    if |s| < width {
      LeadingZero(s);
      PaddedReads("0" + s, width);
      var p := Padded(s, width);
      assert p[|p| - |s|..] == p[|p| - |s| - 1..][1..];
    }
  }

  lemma {:induction false} PaddedDigits(s: string, width: nat)
    requires AllDigits(s)
    ensures AllDigits(Padded(s, width))
    decreases width - |s|
  {
    if |s| < width {
      PaddedDigits("0" + s, width);
    }
  }
}
