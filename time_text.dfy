/** A small Option type shared by the parsers of this project. */
module Options {
  datatype Option<+T> = None | Some(value: T)
}

/**
 The text shown on the countdown label: `HH:MM:SS` as written by the widget's
 `update_time`, plus the decimal digit strings it is built from. The reading
 functions (`DigitsValue`, `Fields`, `ReadClock`) are the partners that prove
 the text determines the number of seconds it was made from.
 */
module TimeText {
  import opened Options

  predicate IsDigit(c: char) {
    '0' <= c <= '9'
  }

  predicate AllDigits(s: string) {
    forall i :: 0 <= i < |s| ==> IsDigit(s[i])
  }

  function DigitChar(d: nat): (c: char)
    requires d < 10
    ensures IsDigit(c) && c as int - '0' as int == d
  {
    ('0' as int + d) as char
  }

  function DigitValue(c: char): (d: nat)
    requires IsDigit(c)
    ensures d < 10 && DigitChar(d) == c
  {
    c as int - '0' as int
  }

  /** The value of a string of decimal digits, most significant digit first. */
  function DigitsValue(s: string): nat
    requires AllDigits(s)
  {
    if s == [] then 0 else DigitsValue(s[..|s| - 1]) * 10 + DigitValue(s[|s| - 1])
  }

  /** Python's `str(n)` for a non-negative integer. */
  function Decimal(n: nat): string {
    if n < 10 then [DigitChar(n)] else Decimal(n / 10) + [DigitChar(n % 10)]
  }

  /** `Decimal` writes digits only, reads back as `n`, has no leading zero and as many digits as `n` needs. */
  lemma {:induction false} DecimalDigits(n: nat)
    ensures var r := Decimal(n);
      && AllDigits(r) && DigitsValue(r) == n
      && (|r| == 1 <==> n < 10)
      && |r| >= 1 && (n < 100 ==> |r| <= 2)
      && (n >= 10 ==> r[0] != '0')
  {
    if n >= 10 {
      DecimalDigits(n / 10);
      var r := Decimal(n);
      assert r[..|r| - 1] == Decimal(n / 10);
    }
  }

  /** A leading zero does not change the value of a digit string. */
  lemma {:induction false} LeadingZero(s: string)
    requires AllDigits(s)
    ensures AllDigits("0" + s) && DigitsValue("0" + s) == DigitsValue(s)
  {
    var t := "0" + s;
    assert AllDigits(t) by {
      forall i | 0 <= i < |t| ensures IsDigit(t[i]) {
        if i > 0 { assert t[i] == s[i - 1]; }
      }
    }
    if s == [] {
      assert t[..|t| - 1] == [];
    } else {
      assert t[..|t| - 1] == "0" + s[..|s| - 1];
      LeadingZero(s[..|s| - 1]);
    }
  }

  /** Python's `f"{x:02}"`: the decimal digits of `x`, zero-padded to at least two. */
  function Pad2(x: nat): string {
    if x < 10 then "0" + Decimal(x) else Decimal(x)
  }

  /** `Pad2` writes digits only, reads back as `x`, and is exactly two wide below 100. */
  lemma Pad2Digits(x: nat)
    ensures AllDigits(Pad2(x)) && DigitsValue(Pad2(x)) == x
    ensures |Pad2(x)| >= 2 && (x < 100 ==> |Pad2(x)| == 2)
  {
    DecimalDigits(x);
    if x < 10 {
      LeadingZero(Decimal(x));
    }
  }

  /** The three fields `update_time` derives from a number of seconds. */
  datatype Clock = Clock(hours: nat, minutes: nat, seconds: nat)

  /** `hours = n // 3600`, `minutes = (n % 3600) // 60`, `seconds = n % 60`. */
  function ClockOf(n: nat): (c: Clock)
    ensures c.minutes < 60 && c.seconds < 60
    ensures c.hours * 3600 + c.minutes * 60 + c.seconds == n
  {
    var h, rest := n / 3600, n % 3600;
    assert h * 3600 + rest == n;
    var m, s := rest / 60, n % 60;
    assert rest % 60 == s by {
      assert n == (h * 60 + m) * 60 + rest % 60;
    }
    Clock(h, m, s)
  }

  /** The label text `f"{hours:02}:{minutes:02}:{seconds:02}"` for `n` seconds. */
  function FormatTime(n: nat): string {
    var c := ClockOf(n);
    Pad2(c.hours) + ":" + Pad2(c.minutes) + ":" + Pad2(c.seconds)
  }

  /** Splits a string at every ':'. */
  function Fields(t: string): (r: seq<string>)
    ensures |r| >= 1
  {
    if t == [] then [""]
    else
      var rest := Fields(t[1..]);
      if t[0] == ':' then [""] + rest else [[t[0]] + rest[0]] + rest[1..]
  }

  lemma {:induction false} FieldsNoColon(a: string)
    requires ':' !in a
    ensures Fields(a) == [a]
  {
    if a != [] {
      assert ':' !in a[1..] by {
        forall i | 0 <= i < |a[1..]| ensures a[1..][i] != ':' { assert a[1..][i] == a[i + 1]; }
      }
      FieldsNoColon(a[1..]);
      assert [a[0]] + a[1..] == a;
    }
  }

  lemma {:induction false} FieldsJoin(a: string, b: string)
    requires ':' !in a
    ensures Fields(a + ":" + b) == [a] + Fields(b)
  {
    var t := a + ":" + b;
    if a == [] {
      assert t[1..] == b;
    } else {
      assert t[1..] == a[1..] + ":" + b;
      assert ':' !in a[1..] by {
        forall i | 0 <= i < |a[1..]| ensures a[1..][i] != ':' { assert a[1..][i] == a[i + 1]; }
      }
      FieldsJoin(a[1..], b);
      assert [a[0]] + a[1..] == a;
    }
  }

  lemma DigitsHaveNoColon(s: string)
    requires AllDigits(s)
    ensures ':' !in s
  {
  }

  lemma FieldsOfThree(a: string, b: string, c: string)
    requires AllDigits(a) && AllDigits(b) && AllDigits(c)
    ensures Fields(a + ":" + b + ":" + c) == [a, b, c]
  {
    DigitsHaveNoColon(a);
    DigitsHaveNoColon(b);
    DigitsHaveNoColon(c);
    assert a + ":" + b + ":" + c == a + ":" + (b + ":" + c);
    FieldsJoin(a, b + ":" + c);
    FieldsJoin(b, c);
    FieldsNoColon(c);
  }

  /** Reads a label text back into seconds: three digit fields `h:m:s`, minutes and seconds below 60. */
  function ReadClock(t: string): Option<nat> {
    var f := Fields(t);
    if |f| == 3 && AllDigits(f[0]) && AllDigits(f[1]) && AllDigits(f[2])
       && |f[0]| >= 2 && |f[1]| == 2 && |f[2]| == 2
       && DigitsValue(f[1]) < 60 && DigitsValue(f[2]) < 60
    then Some(DigitsValue(f[0]) * 3600 + DigitsValue(f[1]) * 60 + DigitsValue(f[2]))
    else None
  }

  /** The label text splits into the three zero-padded fields of `ClockOf(n)`. */
  lemma FormatTimeFields(n: nat)
    ensures var c := ClockOf(n);
      Fields(FormatTime(n)) == [Pad2(c.hours), Pad2(c.minutes), Pad2(c.seconds)]
    ensures |FormatTime(n)| >= 8 && (n < 360000 ==> |FormatTime(n)| == 8)
  {
    var c := ClockOf(n);
    Pad2Digits(c.hours);
    Pad2Digits(c.minutes);
    Pad2Digits(c.seconds);
    FieldsOfThree(Pad2(c.hours), Pad2(c.minutes), Pad2(c.seconds));
  }

  /** Round trip: the label text determines the number of seconds it shows. */
  lemma ReadFormatTime(n: nat)
    ensures ReadClock(FormatTime(n)) == Some(n)
  {
    FormatTimeFields(n);
    var c := ClockOf(n);
    Pad2Digits(c.hours);
    Pad2Digits(c.minutes);
    Pad2Digits(c.seconds);
  }

  /** Two different counts never show the same text. */
  lemma FormatTimeInjective(a: nat, b: nat)
    requires FormatTime(a) == FormatTime(b)
    ensures a == b
  {
    ReadFormatTime(a);
    ReadFormatTime(b);
  }
}
