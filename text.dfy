// Small textual building blocks shared by the file-name parser, the clip
// namer and the manifest writer: Option, decimal digits, zero padding and
// ASCII lower-casing.

module Wrappers {
  datatype Option<T> = None | Some(value: T)
}

module Text {

  predicate IsDigit(c: char) { '0' <= c <= '9' }

  predicate AllDigits(s: string) { forall i :: 0 <= i < |s| ==> IsDigit(s[i]) }

  function DigitValue(c: char): (v: nat)
    requires IsDigit(c)
    ensures v < 10
  {
    c as int - '0' as int
  }

  function DigitChar(v: nat): (c: char)
    requires v < 10
    ensures IsDigit(c) && DigitValue(c) == v
  {
    ('0' as int + v) as char
  }

  function Pow10(n: nat): (p: nat)
    ensures p >= 1
  {
    if n == 0 then 1 else 10 * Pow10(n - 1)
  }

  /** The number a string of decimal digits denotes, as int() reads it. */
  function Value(s: string): (v: nat)
    requires AllDigits(s)
    ensures v < Pow10(|s|)
    decreases |s|
  {
    if s == [] then 0 else Value(s[..|s| - 1]) * 10 + DigitValue(s[|s| - 1])
  }

  /** The lowest `width` decimal digits of n, most significant first. */
  function Digits(n: nat, width: nat): (s: string)
    ensures |s| == width && AllDigits(s)
  {
    if width == 0 then [] else Digits(n / 10, width - 1) + [DigitChar(n % 10)]
  }

  /** How many digits the decimal notation of n has (at least one). */
  function NumDigits(n: nat): (count: nat)
  {
    if n < 10 then 1 else 1 + NumDigits(n / 10)
  }

  function Max(a: nat, b: nat): (m: nat) { if a < b then b else a }

  /** Python's format(n, "0{width}d") for n >= 0: the decimal digits of n,
      left-filled with '0' up to `width`, never truncated. */
  function ZeroPad(n: nat, width: nat): (s: string)
    ensures AllDigits(s) && Value(s) == n
    ensures |s| == Max(width, NumDigits(n))
    ensures 1 <= width && n < Pow10(width) ==> |s| == width
  {
    var w := Max(width, NumDigits(n));
    NumDigitsBound(n);
    Pow10Monotone(NumDigits(n), w);
    DigitsValue(n, w);
    if 1 <= width && n < Pow10(width) then NumDigitsAtMost(n, width); Digits(n, w)
    else Digits(n, w)
  }

  lemma {:induction false} Pow10Monotone(a: nat, b: nat)
    requires a <= b
    ensures Pow10(a) <= Pow10(b)
    decreases b
  {
    if a < b {
      Pow10Monotone(a, b - 1);
    }
  }

  lemma {:induction false} NumDigitsBound(n: nat)
    ensures n < Pow10(NumDigits(n))
  {
    if n >= 10 {
      NumDigitsBound(n / 10);
    }
  }

  lemma {:induction false} NumDigitsAtMost(n: nat, width: nat)
    requires 1 <= width && n < Pow10(width)
    ensures NumDigits(n) <= width
  {
    if n >= 10 {
      assert width >= 2;
      NumDigitsAtMost(n / 10, width - 1);
    }
  }

  /** Fixed-width digits read back as the number they came from. */
  lemma {:induction false} DigitsValue(n: nat, width: nat)
    requires n < Pow10(width)
    ensures Value(Digits(n, width)) == n
  {
    if width > 0 {
      DigitsValue(n / 10, width - 1);
      var s := Digits(n, width);
      assert s[..|s| - 1] == Digits(n / 10, width - 1);
    }
  }

  /** A digit string is the fixed-width rendering of its own value. */
  lemma {:induction false} DigitsOfValue(s: string)
    requires AllDigits(s)
    ensures Digits(Value(s), |s|) == s
    decreases |s|
  {
    if s != [] {
      var init, last := s[..|s| - 1], s[|s| - 1];
      DigitsOfValue(init);
      var v, c := Value(init), DigitValue(last);
      assert Value(s) == v * 10 + c;
      LastDigit(v, c);
      assert DigitChar(c) == last;
      assert Digits(Value(s), |s|) == Digits(v, |init|) + [DigitChar(c)];
      assert s == init + [last];
    }
  }

  lemma LastDigit(v: nat, c: nat)
    requires c < 10
    ensures (v * 10 + c) / 10 == v && (v * 10 + c) % 10 == c
  {
  }

  /** Zero-padding to a string's own width reproduces a digit string,
      leading zeros included. */
  lemma ZeroPadOfDigits(s: string)
    requires AllDigits(s) && |s| >= 1
    ensures ZeroPad(Value(s), |s|) == s
  {
    NumDigitsAtMost(Value(s), |s|);
    DigitsOfValue(s);
  }

  /** The two widths the program pads to. */
  lemma Pow10Widths()
    ensures Pow10(2) == 100 && Pow10(4) == 10000
  {
  }

  function LowerChar(c: char): (lower: char)
  {
    if 'A' <= c <= 'Z' then (c as int - 'A' as int + 'a' as int) as char else c
  }

  /** str.lower(), restricted to ASCII letters. */
  function Lower(s: string): (r: string)
    ensures |r| == |s| && forall i :: 0 <= i < |s| ==> r[i] == LowerChar(s[i])
  {
    seq(|s|, i requires 0 <= i < |s| => LowerChar(s[i]))
  }
}
