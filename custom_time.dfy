/**
 The arithmetic of the "Set Custom Time" dialog (`CustomTimeDialog.set_and_start`):
 three text fields, each empty (meaning 0) or an integer literal, combined as
 `hours * 3600 + minutes * 60 + seconds`; any field that does not parse makes the
 whole selection absent.
 */
module CustomTime {
  import opened Options
  import opened TimeText

  /**
   The most decimal digits Python converts between text and `int`
   (`sys.int_info.default_max_str_digits`); a longer literal raises `ValueError`.
   */
  const MaxStrDigits: nat := 4300

  /** A digit string `int()` accepts: at least one ASCII digit and no more than the limit. */
  predicate ConvertibleDigits(s: string) {
    0 < |s| <= MaxStrDigits && AllDigits(s)
  }

  /** Python's `int(t)`, restricted to an optional '+' or '-' followed by ASCII digits. */
  function ParseInt(t: string): Option<int> {
    if |t| > 0 && (t[0] == '+' || t[0] == '-') then
      var digits := t[1..];
      if ConvertibleDigits(digits) then
        var v: int := DigitsValue(digits);
        Some(if t[0] == '-' then -v else v)
      else None
    else if ConvertibleDigits(t) then Some(DigitsValue(t))
    else None
  }

  /** The magnitude of an integer. */
  function Abs(x: int): nat {
    if x < 0 then -x else x
  }

  /** The sign and decimal digits of any integer: the text `ParseInt` is checked against. */
  function IntText(x: int): string {
    if x < 0 then "-" + Decimal(-x) else Decimal(x)
  }

  /** An integer whose decimal text is within Python's conversion limit. */
  predicate Convertible(x: int) {
    |Decimal(Abs(x))| <= MaxStrDigits
  }

  /** `int(text) if text else 0`. */
  function FieldValue(t: string): Option<int> {
    if t == "" then Some(0) else ParseInt(t)
  }

  /** A field whose text is neither empty nor an integer literal raises `ValueError`. */
  predicate Unparsable(t: string) {
    t != "" && ParseInt(t).None?
  }

  /** `selected_time` after "Set & Start": the total in seconds, or absent on a bad field. */
  function SelectedTime(hours: string, minutes: string, seconds: string): (r: Option<int>)
    ensures r.None? <==> Unparsable(hours) || Unparsable(minutes) || Unparsable(seconds)
  {
    var h, m, s := FieldValue(hours), FieldValue(minutes), FieldValue(seconds);
    if h.Some? && m.Some? && s.Some? then Some(h.value * 3600 + m.value * 60 + s.value) else None
  }

  /** Round trip: the text of an integer parses back to it exactly when its digits are within the limit. */
  lemma ParseIntText(x: int)
    ensures ParseInt(IntText(x)) == if Convertible(x) then Some(x) else None
  {
    if x < 0 {
      DecimalDigits(-x);
      var t := IntText(x);
      assert t[1..] == Decimal(-x);
    } else {
      DecimalDigits(x);
    }
  }

  /** A string of one or more digits parses to its decimal value when it is within the limit, and fails otherwise. */
  lemma ParseDigits(t: string)
    requires |t| > 0 && AllDigits(t)
    ensures ParseInt(t) == if |t| <= MaxStrDigits then Some(DigitsValue(t)) else None
  {
    assert IsDigit(t[0]);
  }

  /**
   Typing integers into the three fields selects `h * 3600 + m * 60 + s`, negative
   values included, unless one of them has more digits than Python converts.
   */
  lemma SelectedTimeOfFields(h: int, m: int, s: int)
    ensures SelectedTime(IntText(h), IntText(m), IntText(s))
      == if Convertible(h) && Convertible(m) && Convertible(s) then Some(h * 3600 + m * 60 + s) else None
  {
    ParseIntText(h);
    ParseIntText(m);
    ParseIntText(s);
  }

  /** An empty field counts as 0, whatever the other two fields hold. */
  lemma BlankFieldsAreZero(a: string, b: string, c: string)
    ensures SelectedTime("", b, c) == SelectedTime("0", b, c)
    ensures SelectedTime(a, "", c) == SelectedTime(a, "0", c)
    ensures SelectedTime(a, b, "") == SelectedTime(a, b, "0")
  {
    ParseDigits("0");
  }

  /** Hours typed with minutes and seconds left blank select that many hours. */
  lemma HoursOnly(h: int)
    ensures SelectedTime(IntText(h), "", "") == if Convertible(h) then Some(h * 3600) else None
  {
    BlankFieldsAreZero(IntText(h), "", "");
    BlankFieldsAreZero(IntText(h), "0", "");
    SelectedTimeOfFields(h, 0, 0);
  }

  /**
   Copying the three fields of a label text into the dialog selects the time that
   text shows, unless the hours field is longer than Python converts.
   */
  lemma SelectedTimeOfLabel(n: nat)
    ensures var f := Fields(FormatTime(n));
      |f| == 3 && SelectedTime(f[0], f[1], f[2]) == if |f[0]| <= MaxStrDigits then Some(n) else None
  {
    FormatTimeFields(n);
    var c := ClockOf(n);
    Pad2Digits(c.hours);
    Pad2Digits(c.minutes);
    Pad2Digits(c.seconds);
    ParseDigits(Pad2(c.hours));
    ParseDigits(Pad2(c.minutes));
    ParseDigits(Pad2(c.seconds));
  }
}
