/** `seconds_to_hms` (cue_plugin.py:176-185) and the reader that inverts it. */
module Hms {
  import opened Wrappers
  import opened Decimal

  /** The fields `divmod(seconds, 3600)` then `divmod(remainder, 60)` yield. */
  datatype Clock = Clock(hours: int, minutes: nat, seconds: nat)

  /** Python's floored `divmod` agrees with Dafny's Euclidean `/` and `%`
      because the divisors are positive. */
  function Fields(n: int): (c: Clock)
    ensures c.hours * 3600 + c.minutes * 60 + c.seconds == n
    ensures c.minutes < 60 && c.seconds < 60
  {
    var rem := n % 3600;
    Clock(n / 3600, rem / 60, rem % 60)
  }

  /** `divmod` is the only way to write `n` with minutes and seconds below 60. */
  lemma {:induction false} FieldsUnique(n: int, h: int, m: nat, s: nat)
    requires m < 60 && s < 60 && h * 3600 + m * 60 + s == n
    ensures Fields(n) == Clock(h, m, s)
  {
    assert 0 <= m * 60 + s < 3600;
  }

  /** `seconds_to_hms(n)`: `M:SS` within the first hour, `H:MM:SS` otherwise. */
  function SecondsToHms(n: int): (r: string)
    ensures var c := Fields(n);
      && (c.hours == 0 ==> r == FromNat(c.minutes) + ":" + Pad2(c.seconds))
      && (c.hours != 0 ==> r == FromInt(c.hours) + ":" + Pad2(c.minutes) + ":" + Pad2(c.seconds))
  {
    var c := Fields(n);
    if c.hours == 0 then FromNat(c.minutes) + ":" + Pad2(c.seconds)
    else if c.minutes < 10 then FromInt(c.hours) + ":" + Pad2(c.minutes) + ":" + Pad2(c.seconds)
    else
      ValueOfFromNat(c.minutes);
      FromNatOfValue(Pad2(c.minutes));
      FromInt(c.hours) + ":" + FromNat(c.minutes) + ":" + Pad2(c.seconds)
  }

  /** `s.split(sep)`: the pieces between separators, at least one. */
  function Split(s: string, sep: char): (r: seq<string>)
    ensures |r| >= 1
    ensures forall k :: 0 <= k < |r| ==> sep !in r[k]
    ensures Join(r, sep) == s
    decreases |s|
  {
    if |s| == 0 then [""]
    else if s[0] == sep then
      var t := Split(s[1..], sep);
      assert s == [sep] + s[1..];
      [""] + t
    else
      var t := Split(s[1..], sep);
      var r := [[s[0]] + t[0]] + t[1..];
      assert r[1..] == t[1..];
      assert s == [s[0]] + s[1..];
      r
  }

  /** `sep.join(fields)`. */
  function Join(fields: seq<string>, sep: char): string
    requires |fields| >= 1
    decreases |fields|
  {
    if |fields| == 1 then fields[0] else fields[0] + [sep] + Join(fields[1..], sep)
  }

  lemma {:induction false} SplitField(a: string, b: string, sep: char)
    requires sep !in a
    ensures Split(a + [sep] + b, sep) == [a] + Split(b, sep)
    decreases |a|
  {
    var s := a + [sep] + b;
    if |a| == 0 {
      assert s[1..] == b;
    } else {
      assert s[1..] == a[1..] + [sep] + b;
      SplitField(a[1..], b, sep);
      var t := Split(s[1..], sep);
      assert t[0] == a[1..] && t[1..] == Split(b, sep);
      assert [a[0]] + a[1..] == a;
    }
  }

  lemma {:induction false} SplitWhole(a: string, sep: char)
    requires sep !in a
    ensures Split(a, sep) == [a]
    decreases |a|
  {
    if |a| > 0 {
      SplitWhole(a[1..], sep);
      assert a == [a[0]] + a[1..];
    }
  }

  predicate TwoDigits(s: string) {
    |s| == 2 && AllDigits(s)
  }

  /** Reads the text `seconds_to_hms` prints back into seconds; `None` for any
      text it never prints. */
  function ParseHms(t: string): (r: Option<int>) {
    var f := Split(t, ':');
    if |f| == 2 then
      if Canonical(f[0]) && Value(f[0]) < 60 && TwoDigits(f[1]) && Value(f[1]) < 60
      then Some(Value(f[0]) * 60 + Value(f[1]))
      else None
    else if |f| == 3 then
      if CanonicalInt(f[0]) && IntValue(f[0]) != 0 && TwoDigits(f[1]) && Value(f[1]) < 60
         && TwoDigits(f[2]) && Value(f[2]) < 60
      then Some(IntValue(f[0]) * 3600 + Value(f[1]) * 60 + Value(f[2]))
      else None
    else None
  }

  lemma NoColonInDigits(s: string)
    requires AllDigits(s)
    ensures ':' !in s
  {
  }

  /** Every duration the table shows reads back as that duration. */
  lemma HmsRoundTrip(n: int)
    ensures ParseHms(SecondsToHms(n)) == Some(n)
  {
    var c := Fields(n);
    var t := SecondsToHms(n);
    var ss := Pad2(c.seconds);
    NoColonInDigits(ss);
    SplitWhole(ss, ':');
    if c.hours == 0 {
      var mm := FromNat(c.minutes);
      NoColonInDigits(mm);
      assert t == mm + [':'] + ss;
      SplitField(mm, ss, ':');
      ValueOfFromNat(c.minutes);
    } else {
      var hh := FromInt(c.hours);
      var mm := Pad2(c.minutes);
      IntRoundTrip(c.hours, hh);
      assert ':' !in hh by {
        if hh[0] == '-' {
          assert hh[1..] == FromNat(-c.hours);
          NoColonInDigits(hh[1..]);
          assert hh == [hh[0]] + hh[1..];
        } else {
          NoColonInDigits(hh);
        }
      }
      NoColonInDigits(mm);
      assert t == hh + [':'] + (mm + [':'] + ss);
      SplitField(mm, ss, ':');
      SplitField(hh, mm + [':'] + ss, ':');
    }
  }

  /** Only what `seconds_to_hms` prints is read: a text that reads as `n` is
      exactly the text printed for `n`. */
  lemma ParseHmsCanonical(t: string, n: int)
    requires ParseHms(t) == Some(n)
    ensures SecondsToHms(n) == t
  {
    var f := Split(t, ':');
    if |f| == 2 {
      var m, s := Value(f[0]), Value(f[1]);
      FieldsUnique(n, 0, m, s);
      FromNatOfValue(f[0]);
      Pad2RoundTrip(f[1]);
      assert t == Join(f, ':') == f[0] + [':'] + f[1];
    } else {
      var h, m, s := IntValue(f[0]), Value(f[1]), Value(f[2]);
      FieldsUnique(n, h, m, s);
      IntRoundTrip(h, f[0]);
      Pad2RoundTrip(f[1]);
      Pad2RoundTrip(f[2]);
      assert Join(f[1..], ':') == f[1] + [':'] + f[2];
      assert t == Join(f, ':') == f[0] + [':'] + f[1] + [':'] + f[2];
    }
  }

  /** `ParseHms` and `SecondsToHms` are inverse: a text reads as `n` exactly
      when it is the text printed for `n`. */
  lemma HmsInverse(t: string, n: int)
    ensures ParseHms(t) == Some(n) <==> SecondsToHms(n) == t
  {
    HmsRoundTrip(n);
    if ParseHms(t) == Some(n) {
      ParseHmsCanonical(t, n);
    }
  }

  /** Distinct durations are shown as distinct texts. */
  lemma HmsInjective(a: int, b: int)
    requires SecondsToHms(a) == SecondsToHms(b)
    ensures a == b
  {
    HmsRoundTrip(a);
    HmsRoundTrip(b);
  }

  /** The worked examples: 125 s, 3605 s and 4200 s. */
  lemma HmsExamples()
    ensures SecondsToHms(125) == "2:05"
    ensures SecondsToHms(3605) == "1:00:05"
    ensures SecondsToHms(4200) == "1:10:00"
  {
    FieldsUnique(125, 0, 2, 5);
    FieldsUnique(3605, 1, 0, 5);
    FieldsUnique(4200, 1, 10, 0);
    assert FromNat(2) == "2";
    assert FromNat(1) == "1";
    assert FromNat(5) == "5";
    assert FromNat(0) == "0";
    assert FromNat(10) == FromNat(1) + "0" == "10";
  }
}
