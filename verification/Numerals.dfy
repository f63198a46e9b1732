/** Numbers as decimal and hexadecimal text. */
module Numerals {
  import opened Prelude

  datatype Base = Ten | Sixteen

  // The two bases are written out where they multiply and divide, which keeps the arithmetic linear.
  function Shift(base: Base, n: nat): nat {
    if base.Ten? then 10 * n else 16 * n
  }

  function Quotient(base: Base, n: nat): nat {
    if base.Ten? then n / 10 else n / 16
  }

  function Remainder(base: Base, n: nat): nat {
    if base.Ten? then n % 10 else n % 16
  }

  function Size(base: Base): nat {
    if base.Ten? then 10 else 16
  }

  function Digit(n: nat): char
    requires n < 16
  {
    if n < 10 then '0' + n as char else 'a' + (n - 10) as char
  }

  function DigitValue(base: Base, c: char): Option<nat> {
    if '0' <= c <= '9' then Some((c - '0') as nat)
    else if base.Sixteen? && 'a' <= c <= 'f' then Some((c - 'a') as nat + 10)
    else if base.Sixteen? && 'A' <= c <= 'F' then Some((c - 'A') as nat + 10)
    else None
  }

  /** The usual spelling of a number: lower case, no leading zeros. */
  function Digits(base: Base, n: nat): string
    decreases n
  {
    if n < Size(base) then [Digit(n)] else Digits(base, Quotient(base, n)) + [Digit(Remainder(base, n))]
  }

  /** The number a string of digits spells. */
  function ReadDigits(base: Base, s: string): Option<nat> {
    if s == "" then Some(0)
    else
      var init, last := ReadDigits(base, s[..|s| - 1]), DigitValue(base, s[|s| - 1]);
      if init.None? || last.None? then None else Some(Shift(base, init.value) + last.value)
  }

  lemma DigitReadsBack(base: Base, n: nat)
    requires n < Size(base)
    ensures DigitValue(base, Digit(n)) == Some(n)
  {}

  predicate AllDigits(base: Base, s: string) {
    forall i :: 0 <= i < |s| ==> DigitValue(base, s[i]).Some?
  }

  lemma ReadSnoc(base: Base, init: string, last: char)
    requires ReadDigits(base, init).Some? && DigitValue(base, last).Some?
    ensures ReadDigits(base, init + [last])
         == Some(Shift(base, ReadDigits(base, init).value) + DigitValue(base, last).value)
  {
    assert (init + [last])[..|init|] == init;
  }

  /** Reading undoes spelling. */
  lemma {:induction false} DigitsReadBack(base: Base, n: nat)
    ensures Digits(base, n) != "" && ReadDigits(base, Digits(base, n)) == Some(n)
    decreases n
  {
    if n < Size(base) {
      DigitReadsBack(base, n);
      ReadSnoc(base, "", Digit(n));
      assert "" + [Digit(n)] == [Digit(n)];
    } else {
      DigitsReadBack(base, Quotient(base, n));
      DigitReadsBack(base, Remainder(base, n));
      ReadSnoc(base, Digits(base, Quotient(base, n)), Digit(Remainder(base, n)));
      assert Shift(base, Quotient(base, n)) + Remainder(base, n) == n;
    }
  }

  /** Exactly the strings of digits can be read. */
  lemma {:induction false} ReadsIffDigits(base: Base, s: string)
    ensures ReadDigits(base, s).Some? <==> AllDigits(base, s)
  {
    if s == "" {
    } else {
      ReadsIffDigits(base, s[..|s| - 1]);
      assert s == s[..|s| - 1] + [s[|s| - 1]];
      hide DigitValue;
    }
  }

  /** How many numbers `width` digits can spell. */
  function Power(base: Base, width: nat): nat {
    if width == 0 then 1 else Shift(base, Power(base, width - 1))
  }

  lemma {:induction false} ReadBelow(base: Base, s: string, width: nat)
    requires |s| <= width && ReadDigits(base, s).Some?
    ensures ReadDigits(base, s).value < Power(base, width)
    decreases width
  {
    if s == "" {
      PowerPositive(base, width);
    } else {
      ReadBelow(base, s[..|s| - 1], width - 1);
    }
  }

  lemma {:induction false} PowerPositive(base: Base, width: nat)
    ensures Power(base, width) > 0
  {
    if width == 0 {
    } else {
      PowerPositive(base, width - 1);
    }
  }

  lemma {:induction false} SpelledWithin(base: Base, n: nat, width: nat)
    requires width > 0 && n < Power(base, width)
    ensures |Digits(base, n)| <= width
    decreases width
  {
    if n < Size(base) {
    } else {
      SpelledWithin(base, Quotient(base, n), width - 1);
    }
  }
}
