/** Decimal digit strings: Python's `int()` on a `\d+` capture and `str()` /
    `{:02d}` formatting of integers, with the round trips between them. */
module Decimal {

  predicate IsDigit(c: char) {
    '0' <= c <= '9'
  }

  predicate AllDigits(s: string) {
    forall i :: 0 <= i < |s| ==> IsDigit(s[i])
  }

  /** What the pattern `\d+` captures: a non-empty run of digits. */
  type Digits = s: string | |s| > 0 && AllDigits(s) witness "0"

  /** A digit string the way `str()` prints a non-negative int: no leading zero. */
  predicate Canonical(s: string) {
    |s| > 0 && AllDigits(s) && (|s| > 1 ==> s[0] != '0')
  }

  function DigitValue(c: char): (d: nat)
    requires IsDigit(c)
    ensures d < 10
  {
    c as int - '0' as int
  }

  function DigitChar(d: nat): (c: char)
    requires d < 10
    ensures IsDigit(c) && DigitValue(c) == d
  {
    ('0' as int + d) as char
  }

  /** The value of a digit string, leading zeros allowed, as `int()` reads it. */
  function Value(s: string): nat
    requires AllDigits(s)
    decreases |s|
  {
    if |s| == 0 then 0 else Value(s[..|s| - 1]) * 10 + DigitValue(s[|s| - 1])
  }

  /** `str(n)` for a non-negative int. */
  function FromNat(n: nat): (s: string)
    ensures Canonical(s)
    decreases n
  {
    if n < 10 then [DigitChar(n)] else FromNat(n / 10) + [DigitChar(n % 10)]
  }

  /** `str(i)` for any int: a minus sign before the magnitude when negative. */
  function FromInt(i: int): (s: string)
    ensures |s| > 0
    ensures i >= 0 <==> s[0] != '-'
  {
    if i < 0 then "-" + FromNat(-i) else FromNat(i)
  }

  /** `f"{n:02d}"`: at least two digits, padded with one leading zero below ten. */
  function Pad2(n: nat): (s: string)
    ensures AllDigits(s) && |s| >= 2
    ensures n < 100 ==> |s| == 2 && Value(s) == n
  {
    if n < 10 then
      var s := "0" + FromNat(n);
      assert s == ['0', DigitChar(n)];
      assert s[..1] == ['0'] && Value(s[..1]) == 0;
      s
    else
      assert n < 100 ==> n / 10 < 10;
      ValueOfFromNat(n);
      FromNat(n)
  }

  /** A string `str()` could have printed for some int. */
  predicate CanonicalInt(s: string) {
    Canonical(s) || (|s| >= 2 && s[0] == '-' && Canonical(s[1..]) && s[1..] != "0")
  }

  /** `int(s)` on a string that `str()` could have printed. */
  function IntValue(s: string): int
    requires CanonicalInt(s)
  {
    if s[0] == '-' then 0 - Value(s[1..]) else Value(s)
  }

  lemma {:induction false} ValueOfFromNat(n: nat)
    ensures Value(FromNat(n)) == n
    decreases n
  {
    if n >= 10 {
      var p := FromNat(n / 10);
      var s := p + [DigitChar(n % 10)];
      assert s[..|s| - 1] == p;
      ValueOfFromNat(n / 10);
    }
  }

  lemma {:induction false} LeadingDigitPositive(s: string)
    requires |s| > 0 && AllDigits(s) && s[0] != '0'
    ensures Value(s) > 0
    decreases |s|
  {
    if |s| > 1 {
      var p := s[..|s| - 1];
      assert p[0] == s[0];
      LeadingDigitPositive(p);
    }
  }

  lemma {:induction false} FromNatOfValue(s: string)
    requires Canonical(s)
    ensures FromNat(Value(s)) == s
    decreases |s|
  {
    var c := s[|s| - 1];
    var p := s[..|s| - 1];
    assert s == p + [c];
    if |s| == 1 {
      assert Value(s) == DigitValue(c);
      assert DigitChar(DigitValue(c)) == c;
    } else {
      assert p[0] == s[0];
      LeadingDigitPositive(p);
      FromNatOfValue(p);
      var v := Value(s);
      assert v == Value(p) * 10 + DigitValue(c);
      assert v / 10 == Value(p) && v % 10 == DigitValue(c);
      assert DigitChar(DigitValue(c)) == c;
    }
  }

  /** `int(str(n)) == n` and `str(int(s)) == s`: decimal printing and reading
      are inverse bijections between the naturals and canonical digit strings. */
  lemma NatRoundTrip(n: nat, s: string)
    ensures Value(FromNat(n)) == n
    ensures Canonical(s) ==> FromNat(Value(s)) == s
  {
    ValueOfFromNat(n);
    if Canonical(s) {
      FromNatOfValue(s);
    }
  }

  lemma {:induction false} IntRoundTrip(i: int, s: string)
    ensures CanonicalInt(FromInt(i)) && IntValue(FromInt(i)) == i
    ensures CanonicalInt(s) ==> FromInt(IntValue(s)) == s
  {
    if i < 0 {
      var m := FromNat(-i);
      var t := "-" + m;
      assert t[1..] == m;
      ValueOfFromNat(-i);
      assert m != "0";
    } else {
      ValueOfFromNat(i);
    }
    if CanonicalInt(s) {
      if s[0] == '-' {
        var m := s[1..];
        FromNatOfValue(m);
        assert Value(m) != 0 by {
          assert FromNat(0) == "0";
        }
        assert s == "-" + m;
      } else {
        FromNatOfValue(s);
      }
    }
  }

  /** `f"{n:02d}"` is read back by `int()`, and a two-digit string is exactly
      what `{:02d}` prints for its value. */
  lemma {:induction false} Pad2RoundTrip(s: string)
    requires |s| == 2 && AllDigits(s)
    ensures Value(s) < 100 && Pad2(Value(s)) == s
  {
    var d0, d1 := DigitValue(s[0]), DigitValue(s[1]);
    assert s[..1] == [s[0]];
    assert Value(s[..1]) == d0;
    assert Value(s) == d0 * 10 + d1;
    if s[0] == '0' {
      assert DigitChar(d1) == s[1];
      assert FromNat(d1) == [s[1]];
      assert s == "0" + [s[1]];
    } else {
      FromNatOfValue(s);
    }
  }
}
