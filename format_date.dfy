/** `formatDate`, the display formatter for dates: `"05 Mar 2024"` style.
    Parsing a value with `new Date(value)` is the JavaScript runtime's, so it is
    a parameter: it yields the local calendar fields, or nothing for an
    Invalid Date (or a value whose parsing throws). */
module FormatDate {
  import opened Js

  type MonthIndex = m: int | 0 <= m < 12
  type DayOfMonth = d: int | 1 <= d <= 31 witness 1

  /** What `getFullYear()`, `getMonth()` and `getDate()` report. */
  datatype DateParts = DateParts(year: int, month: MonthIndex, day: DayOfMonth)

  /** `new Date(value)` read back through its getters; None when `getTime()` is NaN. */
  type DateParser = JsValue -> Option<DateParts>

  const Months: seq<string> := ["Jan", "Feb", "Mar", "Apr", "May", "Jun",
                                "Jul", "Aug", "Sep", "Oct", "Nov", "Dec"]

  /** `s.padStart(2, '0')`. */
  function PadStart2(s: string): (r: string)
    ensures |r| == if |s| >= 2 then |s| else 2
    ensures r[|r| - |s|..] == s
    ensures forall i :: 0 <= i < |r| - |s| ==> r[i] == '0'
  {
    if |s| >= 2 then s else if |s| == 1 then "0" + s else "00"
  }

  /** The display text of parsed calendar fields. */
  function Display(p: DateParts): string {
    PadStart2(IntToString(p.day)) + " " + Months[p.month] + " " + IntToString(p.year)
  }

  /** `formatDate(value)`: `''` for a falsy value, the value unchanged when it
      does not parse, otherwise the display text. */
  function Format(value: JsValue, parse: DateParser): (r: JsValue)
    ensures !Truthy(value) ==> r == Str("")
    ensures Truthy(value) && parse(value).None? ==> r == value
    ensures Truthy(value) && parse(value).Some? ==> r == Str(Display(parse(value).value)) && IsDisplay(r.s)
  {
    if !Truthy(value) then Str("")
    else match parse(value)
      case None => value
      case Some(p) => DisplayShape(p); Str(Display(p))
  }

  /** The shape of a display text: two digits, a space, one of the twelve month
      names, a space, and an integer numeral for the year. */
  predicate IsDisplay(s: string) {
    |s| >= 8 && IsDigit(s[0]) && IsDigit(s[1]) && s[2] == ' ' && s[3..6] in Months
    && s[6] == ' ' && IsIntNumeral(s[7..])
  }

  predicate IsIntNumeral(s: string) {
    (|s| >= 1 && AllDigits(s)) || (|s| >= 2 && s[0] == '-' && AllDigits(s[1..]))
  }

  function IntNumeralValue(s: string): int
    requires IsIntNumeral(s)
  {
    if AllDigits(s) then DigitsValue(s) else 0 - DigitsValue(s[1..])
  }

  lemma IntToStringNumeral(i: int)
    ensures IsIntNumeral(IntToString(i)) && IntNumeralValue(IntToString(i)) == i
  {
    var s := IntToString(i);
    if i < 0 {
      NegativeNumeral(i);
      NatToStringRoundTrip(-i);
      assert !IsDigit(s[0]);
      assert !AllDigits(s);
    } else {
      NatToStringRoundTrip(i);
    }
  }

  /** Every display text has the documented shape: the day is zero padded to two
      digits and the month name comes from the twelve-entry table. */
  lemma DisplayShape(p: DateParts)
    ensures IsDisplay(Display(p))
  {
    var d := IntToString(p.day);
    var s := Display(p);
    assert |d| <= 2 by {
      if p.day >= 10 { assert d == NatToString(p.day / 10) + [DigitChar(p.day % 10)]; }
    }
    var dd := PadStart2(d);
    assert |dd| == 2;
    assert s == dd + " " + Months[p.month] + " " + IntToString(p.year);
    assert s[..2] == dd;
    assert s[3..6] == Months[p.month];
    assert s[7..] == IntToString(p.year);
    IntToStringNumeral(p.year);
  }

  /** Reads calendar fields back from a display text. */
  function ParseDisplay(s: string): Option<(int, int, int)> {
    if !IsDisplay(s) then None
    else
      var m :| 0 <= m < 12 && Months[m] == s[3..6];
      Some((IntNumeralValue(s[7..]), m, DigitsValue(s[..2])))
  }

  lemma MonthNamesDistinct(m: int, n: int)
    requires 0 <= m < 12 && 0 <= n < 12 && Months[m] == Months[n]
    ensures m == n
  {
  }

  /** The day field reads back from its two padded digits. */
  lemma DayRoundTrip(day: DayOfMonth)
    ensures var dd := PadStart2(IntToString(day));
      |dd| == 2 && AllDigits(dd) && DigitsValue(dd) == day
  {
    var d := NatToString(day);
    NatToStringRoundTrip(day);
    if day < 10 {
      var dd := "0" + d;
      assert dd[..1] == "0" && dd[1] == d[0];
      assert DigitsValue(d) == DigitsValue(d[..0]) * 10 + DigitValue(d[0]);
      assert DigitsValue(dd) == DigitsValue(dd[..1]) * 10 + DigitValue(dd[1]);
    } else {
      assert d == NatToString(day / 10) + [DigitChar(day % 10)];
    }
  }

  /** The display text determines the date: reading it back yields exactly the
      year, month index and day it was made from. */
  lemma DisplayRoundTrip(p: DateParts)
    ensures ParseDisplay(Display(p)) == Some((p.year, p.month as int, p.day as int))
  {
    var s := Display(p);
    DisplayShape(p);
    var dd := PadStart2(IntToString(p.day));
    DayRoundTrip(p.day);
    assert s == dd + " " + Months[p.month] + " " + IntToString(p.year);
    assert s[..2] == dd;
    assert s[7..] == IntToString(p.year);
    IntToStringNumeral(p.year);
    var m :| 0 <= m < 12 && Months[m] == s[3..6];
    MonthNamesDistinct(m, p.month);
  }

  /** Two dates with the same display text have the same calendar fields. */
  lemma DisplayInjective(p: DateParts, q: DateParts)
    requires Display(p) == Display(q)
    ensures p == q
  {
    DisplayRoundTrip(p);
    DisplayRoundTrip(q);
  }

  /** A display text holds at most one `-`, the sign of a negative year. */
  lemma DisplayDashes(p: DateParts)
    ensures CountChar(Display(p), '-') <= 1
  {
    var d := PadStart2(IntToString(p.day));
    var y := IntToString(p.year);
    assert Display(p) == d + " " + Months[p.month] + " " + y;
    NoDashInDigits(d);
    CountCharAppend(d, " ", '-');
    CountCharAppend(d + " ", Months[p.month], '-');
    CountCharAppend(d + " " + Months[p.month], " ", '-');
    CountCharAppend(d + " " + Months[p.month] + " ", y, '-');
    assert CountChar(" ", '-') == 0;
    assert CountChar(Months[p.month], '-') == 0;
    YearDashes(p.year);
  }

  lemma {:induction false} NoDashInDigits(s: string)
    requires AllDigits(s)
    ensures CountChar(s, '-') == 0
  {
    if s != [] { NoDashInDigits(s[1..]); }
  }

  lemma YearDashes(y: int)
    ensures CountChar(IntToString(y), '-') <= 1
  {
    if y < 0 {
      var s := IntToString(y);
      assert s[1..] == NatToString(-y);
      NoDashInDigits(NatToString(-y));
    } else {
      NoDashInDigits(NatToString(y));
    }
  }
}
