// strconv.FormatInt and strconv.ParseInt, base 10 and 64 bits.
module Decimal {
  import opened Core

  const MIN_INT64: int := -0x8000_0000_0000_0000
  const MAX_INT64: int := 0x7fff_ffff_ffff_ffff

  predicate Int64(n: int) { MIN_INT64 <= n <= MAX_INT64 }

  predicate IsDigit(c: char) { '0' <= c <= '9' }

  function DigitChar(d: nat): char
    requires d < 10
  {
    (('0' as int) + d) as char
  }

  function DigitValue(c: char): nat
    requires IsDigit(c)
  {
    (c as int) - ('0' as int)
  }

  predicate AllDigits(s: string) { forall i :: 0 <= i < |s| ==> IsDigit(s[i]) }

  function Digits(n: nat): (s: string)
    ensures s != "" && AllDigits(s)
  {
    if n < 10 then [DigitChar(n)] else Digits(n / 10) + [DigitChar(n % 10)]
  }

  function Value(s: string): nat
    requires AllDigits(s)
  {
    if s == "" then 0 else 10 * Value(s[..|s| - 1]) + DigitValue(s[|s| - 1])
  }

  function FormatInt(n: int): string { if n < 0 then "-" + Digits(-n) else Digits(n) }

  /** None stands for a syntax error or a value out of range. */
  function ParseInt(s: string): Option<int> {
    if s == "" then None
    else
      var signed := s[0] == '+' || s[0] == '-';
      var digits := if signed then s[1..] else s;
      if digits == "" || !AllDigits(digits) then None
      else
        var n: int := if s[0] == '-' then 0 - Value(digits) else Value(digits);
        if Int64(n) then Some(n) else None
  }

  lemma {:induction false} ValueDigits(n: nat)
    ensures Value(Digits(n)) == n
  {
    if n >= 10 {
      ValueDigits(n / 10);
      assert Digits(n)[..|Digits(n)| - 1] == Digits(n / 10);
    } else {
      assert Value([DigitChar(n)][..0]) == 0;
    }
  }

  /** Every 64-bit integer is read back as written. */
  lemma ParseFormat(n: int)
    requires Int64(n)
    ensures ParseInt(FormatInt(n)) == Some(n)
  {
    ValueDigits(if n < 0 then -n else n);
    if n < 0 { assert FormatInt(n)[1..] == Digits(-n); } else { assert IsDigit(FormatInt(n)[0]); }
  }

  /** Leading zeros. */
  function Padding(n: nat): string { seq(n, _ => '0') }

  lemma {:induction false} ValuePadded(n: nat, digits: string)
    requires AllDigits(digits)
    ensures AllDigits(Padding(n) + digits) && Value(Padding(n) + digits) == Value(digits)
  {
    var s := Padding(n) + digits;
    if digits != "" {
      assert s[..|s| - 1] == Padding(n) + digits[..|digits| - 1];
      ValuePadded(n, digits[..|digits| - 1]);
    } else if n > 0 {
      assert s[..|s| - 1] == Padding(n - 1) + digits;
      ValuePadded(n - 1, digits);
    }
  }

  /** ... change nothing. */
  lemma PaddedDigits(zeros: nat, n: nat) returns (digits: string)
    ensures digits == Padding(zeros) + Digits(n) && digits != "" && AllDigits(digits) && Value(digits) == n
  {
    digits := Padding(zeros) + Digits(n);
    ValueDigits(n);
    ValuePadded(zeros, Digits(n));
  }

  lemma SignedIsRead(sign: string, digits: string)
    requires sign == "" || sign == "+" || sign == "-"
    requires digits != "" && AllDigits(digits)
    ensures ParseInt(sign + digits) ==
            var n := if sign == "-" then 0 - Value(digits) else Value(digits); if Int64(n) then Some(n) else None
  {
    var s := sign + digits;
    if sign == "" { assert s == digits && IsDigit(s[0]); } else { assert s[1..] == digits && s[0] == sign[0]; }
  }

  lemma ParsePadded(zeros: nat, n: nat)
    requires Int64(n)
    ensures ParseInt(Padding(zeros) + Digits(n)) == Some(n)
  {
    var digits := PaddedDigits(zeros, n);
    SignedIsRead("", digits);
    assert "" + digits == digits;
  }

  // ---------------------------------------------------------------- what is written and read, exactly

  lemma DigitIs(d: nat)
    requires d < 10
    ensures DigitChar(d) == "0123456789"[d] && DigitValue(DigitChar(d)) == d
  {
  }

  /** `n` without its last `i` decimal digits. */
  function Shifted(n: nat, i: nat): nat { if i == 0 then n else Shifted(n / 10, i - 1) }

  /** The i-th digit from the right is the one that counts the 10^i, and only zero itself starts with a zero. */
  lemma {:induction false} DigitsAre(n: nat, i: nat)
    requires i < |Digits(n)|
    ensures Digits(n)[|Digits(n)| - 1 - i] == "0123456789"[Shifted(n, i) % 10]
    ensures Digits(n)[0] == '0' <==> n == 0
    ensures Shifted(n, |Digits(n)|) == 0
  {
    DigitIs(n % 10);
    if n >= 10 { DigitsAre(n / 10, if i == 0 then 0 else i - 1); } else { assert Shifted(n, 1) == Shifted(0, 0); }
  }

  lemma DigitsSnoc(n: nat, d: nat)
    requires n > 0 && d < 10
    ensures Digits(10 * n + d) == Digits(n) + [DigitChar(d)]
  {
  }

  lemma PaddedSnoc(before: nat, n: nat, d: nat) returns (zeros: nat)
    requires d < 10
    ensures Padding(before) + Digits(n) + [DigitChar(d)] == Padding(zeros) + Digits(10 * n + d)
  {
    if n == 0 {
      zeros := before + 1;
      assert Digits(0) == "0" && Padding(before) + "0" == Padding(zeros);
    } else {
      zeros := before;
      DigitsSnoc(n, d);
      assert Padding(before) + Digits(n) + [DigitChar(d)] == Padding(before) + (Digits(n) + [DigitChar(d)]);
    }
  }

  /** A string of digits is the number it stands for, written with leading zeros. */
  lemma {:induction false} DigitsArePadded(s: string) returns (zeros: nat)
    requires s != "" && AllDigits(s)
    ensures s == Padding(zeros) + Digits(Value(s))
  {
    var front, d := s[..|s| - 1], DigitValue(s[|s| - 1]);
    assert s == front + [DigitChar(d)] by { DigitIs(d); }
    if front == "" {
      zeros := 0;
      assert Value(s) == d && Padding(0) == "";
    } else {
      var before := DigitsArePadded(front);
      zeros := PaddedSnoc(before, Value(front), d);
    }
  }

  /** The signs that may stand before the digits of `n`: only a negative number needs one. */
  predicate SignFor(sign: string, n: int) {
    if sign == "-" then n <= 0 else (sign == "" || sign == "+") && n >= 0
  }

  function Magnitude(n: int): nat { if n < 0 then -n else n }

  /** `s` is written for `n`: a sign, any leading zeros, and its digits. */
  ghost predicate WrittenFor(s: string, n: int) {
    exists sign: string, zeros: nat :: SignFor(sign, n) && s == sign + (Padding(zeros) + Digits(Magnitude(n)))
  }

  /** What is read, exactly: the 64-bit numbers the string is written for. */
  lemma ParseExactly(s: string, n: int)
    ensures ParseInt(s) == Some(n) <==> Int64(n) && WrittenFor(s, n)
  {
    if ParseInt(s) == Some(n) { ReadIsWritten(s, n); }
    if Int64(n) && WrittenFor(s, n) {
      var sign: string, zeros: nat :| SignFor(sign, n) && s == sign + (Padding(zeros) + Digits(Magnitude(n)));
      var digits := PaddedDigits(zeros, Magnitude(n));
      SignedIsRead(sign, digits);
    }
  }

  lemma ReadIsWritten(s: string, n: int)
    requires ParseInt(s) == Some(n)
    ensures Int64(n) && WrittenFor(s, n)
  {
    var signed := s[0] == '+' || s[0] == '-';
    var sign, digits := if signed then [s[0]] else "", if signed then s[1..] else s;
    var zeros := DigitsArePadded(digits);
    assert s == sign + digits && SignFor(sign, n) && Value(digits) == Magnitude(n);
  }
}
