/** Calendar dates as the three numbers the code reads out of a `YYYY-MM-DD`
    value, their printed forms, and the purchase-order number built from
    them: `CIT` + two-digit month + two-digit day + two-digit year + `-` +
    suffix. The browser script, the Node server and the Django model each
    build that number; the two-digit year is taken by `slice(-2)` in
    JavaScript and by `%y` in Python, and the two agree on every year with
    at least two digits. */
module Dates {
  import opened Common

  datatype Date = Date(year: nat, month: nat, day: nat)

  predicate IsLeapYear(y: nat) {
    (y % 4 == 0 && y % 100 != 0) || y % 400 == 0
  }

  function DaysInMonth(y: nat, m: nat): nat {
    if m == 2 then (if IsLeapYear(y) then 29 else 28)
    else if m == 4 || m == 6 || m == 9 || m == 11 then 30
    else 31
  }

  /** A real calendar day with a four-digit (or longer) year. Years below
      1000 are outside this model (see the README). */
  predicate ValidDate(d: Date) {
    1000 <= d.year && 1 <= d.month <= 12 && 1 <= d.day <= DaysInMonth(d.year, d.month)
  }

  /** The value of a date input: empty, or a day. */
  datatype DateInput = NoDate | OnDate(date: Date)

  predicate ValidInput(i: DateInput) {
    i.OnDate? ==> ValidDate(i.date)
  }

  /** The `YYYY-MM-DD` text of a date input. */
  function IsoText(d: Date): string {
    NatToString(d.year) + "-" + Pad2(d.month) + "-" + Pad2(d.day)
  }

  /** `MM/DD/YYYY`, as the browser preview and the Node server print a date. */
  function SlashDate(d: Date): string {
    Pad2(d.month) + "/" + Pad2(d.day) + "/" + NatToString(d.year)
  }

  /** `getFullYear().toString().slice(-2)`. */
  function JsShortYear(y: nat): string {
    LastChars(NatToString(y), 2)
  }

  /** Python's `%y`: the year modulo 100, zero padded. */
  function PyShortYear(y: nat): string {
    Pad2(y % 100)
  }

  lemma {:induction false} DigitArithmetic(y: nat)
    ensures (y % 100) / 10 == (y / 10) % 10 && (y % 100) % 10 == y % 10
    ensures y / 10 / 10 == y / 100
  {
    var q, r := y / 100, y % 100;
    var a, b := r / 10, r % 10;
    assert y == 10 * (10 * q + a) + b;
    assert y / 10 == 10 * q + a && y % 10 == b;
  }

  /** The last two digits of a number's text are its value modulo 100. */
  lemma {:induction false} NatToStringSplit(y: nat)
    requires y >= 100
    ensures NatToString(y) == NatToString(y / 100) + Pad2(y % 100)
  {
    var q := y / 10;
    DigitArithmetic(y);
    assert NatToString(y) == NatToString(q) + [DigitChar(y % 10)];
    assert NatToString(q) == NatToString(y / 100) + [DigitChar(q % 10)];
    if y % 100 < 10 {
      assert Pad2(y % 100) == "0" + [DigitChar(y % 10)];
    } else {
      assert NatToString(y % 100) == NatToString((y % 100) / 10) + [DigitChar(y % 10)];
    }
  }

  /** The decimal text of a number of at least two digits ends in the
      padded rendering of its last two digits. */
  lemma {:induction false} NatToStringLastTwo(y: nat)
    requires y >= 10
    ensures LastChars(NatToString(y), 2) == Pad2(y % 100)
  {
    Pad2Facts(y % 100);
    if y >= 100 {
      NatToStringSplit(y);
      var t := Pad2(y % 100);
      assert |NatToString(y)| >= 2;
      assert NatToString(y)[|NatToString(y)| - 2..] == t;
    } else {
      NatToStringShape(y);
      assert y % 100 == y;
      assert |NatToString(y)| == 2;
    }
  }

  /** `slice(-2)` and `%y` agree on every year from 10 on. */
  lemma {:induction false} ShortYearsAgree(y: nat)
    requires y >= 10
    ensures JsShortYear(y) == PyShortYear(y)
  {
    NatToStringLastTwo(y);
  }

  /** `MMDDYY` as the JavaScript code builds it. */
  function JsDatePart(d: Date): string {
    Pad2(d.month) + Pad2(d.day) + JsShortYear(d.year)
  }

  /** `strftime('%m%d%y')`. */
  function PyDatePart(d: Date): string {
    Pad2(d.month) + Pad2(d.day) + PyShortYear(d.year)
  }

  lemma {:induction false} DateParts(d: Date)
    requires ValidDate(d)
    ensures JsDatePart(d) == PyDatePart(d)
    ensures |PyDatePart(d)| == 6 && AllDigits(PyDatePart(d))
  {
    ShortYearsAgree(d.year);
    Pad2Facts(d.month);
    Pad2Facts(d.day);
    Pad2Facts(d.year % 100);
  }

  /** `CIT{MMDDYY}-{suffix}`. */
  function PoNumber(datePart: string, suffix: string): string {
    "CIT" + datePart + "-" + suffix
  }

  /** The fields a purchase-order number carries. */
  datatype PoFields = PoFields(month: nat, day: nat, shortYear: nat, suffix: string)

  /** Reads a number of the form `CIT` + six digits + `-` + suffix. */
  function ParsePoNumber(s: string): Option<PoFields> {
    if |s| >= 10 && s[..3] == "CIT" && s[9] == '-' &&
       AllDigits(s[3..5]) && AllDigits(s[5..7]) && AllDigits(s[7..9]) then
      Some(PoFields(DigitsValue(s[3..5]), DigitsValue(s[5..7]), DigitsValue(s[7..9]), s[10..]))
    else None
  }

  /** The number of a valid date carries that date's month, day and two-digit
      year, and the suffix verbatim, on either platform. */
  lemma {:induction false} PoNumberRoundTrip(d: Date, suffix: string)
    requires ValidDate(d)
    ensures ParsePoNumber(PoNumber(JsDatePart(d), suffix))
         == Some(PoFields(d.month, d.day, d.year % 100, suffix))
    ensures PoNumber(JsDatePart(d), suffix) == PoNumber(PyDatePart(d), suffix)
  {
    DateParts(d);
    Pad2Facts(d.month);
    Pad2Facts(d.day);
    Pad2Facts(d.year % 100);
    var s := PoNumber(PyDatePart(d), suffix);
    assert s[3..5] == Pad2(d.month);
    assert s[5..7] == Pad2(d.day);
    assert s[7..9] == Pad2(d.year % 100);
    assert s[3..9] == PyDatePart(d);
    assert s[10..] == suffix;
  }

  /** Two orders of the same day get the same number only with the same
      suffix. */
  lemma {:induction false} PoNumberSuffixInjective(part: string, s1: string, s2: string)
    requires PoNumber(part, s1) == PoNumber(part, s2)
    ensures s1 == s2
  {
    var n := |"CIT" + part + "-"|;
    assert s1 == PoNumber(part, s1)[n..];
    assert s2 == PoNumber(part, s2)[n..];
  }

  function MonthName(m: nat): string
    requires 1 <= m <= 12
  {
    ["January", "February", "March", "April", "May", "June", "July",
     "August", "September", "October", "November", "December"][m - 1]
  }

  /** `strftime('%B %d, %Y')`, as the server-side PDF prints the order date. */
  function LongDate(d: Date): string
    requires ValidDate(d)
  {
    MonthName(d.month) + " " + Pad2(d.day) + ", " + NatToString(d.year)
  }

  lemma {:induction false} MonthNameInjective(m1: nat, m2: nat)
    requires 1 <= m1 <= 12 && 1 <= m2 <= 12 && MonthName(m1) == MonthName(m2)
    ensures m1 == m2
  {
  }

  lemma {:induction false} MonthNameHasNoSpace(m: nat)
    requires 1 <= m <= 12
    ensures ' ' !in MonthName(m)
  {
  }

  /** Text cut at its first space: the part before the space is
      determined when neither candidate contains one. */
  lemma {:induction false} SplitAtSpace(a: string, r1: string, b: string, r2: string)
    requires ' ' !in a && ' ' !in b && a + " " + r1 == b + " " + r2
    ensures a == b && r1 == r2
  {
    var s := a + " " + r1;
    assert forall i :: 0 <= i < |a| ==> s[i] == a[i] && s[i] != ' ';
    assert forall i :: 0 <= i < |b| ==> s[i] == b[i] && s[i] != ' ';
    assert s[|a|] == ' ' && s[|b|] == ' ';
    assert |a| == |b|;
    assert a == s[..|a|];
    assert b == (b + " " + r2)[..|b|];
    assert r1 == s[|a| + 1..];
    assert r2 == (b + " " + r2)[|b| + 1..];
  }

  /** The printed long date determines the date. */
  lemma {:induction false} LongDateInjective(d1: Date, d2: Date)
    requires ValidDate(d1) && ValidDate(d2) && LongDate(d1) == LongDate(d2)
    ensures d1 == d2
  {
    var r1 := Pad2(d1.day) + ", " + NatToString(d1.year);
    var r2 := Pad2(d2.day) + ", " + NatToString(d2.year);
    assert LongDate(d1) == MonthName(d1.month) + " " + r1;
    assert LongDate(d2) == MonthName(d2.month) + " " + r2;
    MonthNameHasNoSpace(d1.month);
    MonthNameHasNoSpace(d2.month);
    SplitAtSpace(MonthName(d1.month), r1, MonthName(d2.month), r2);
    MonthNameInjective(d1.month, d2.month);
    DayYearInjective(d1.day, d1.year, d2.day, d2.year);
  }

  /** `{DD}, {YYYY}` determines the day and the year. */
  lemma {:induction false} DayYearInjective(day1: nat, year1: nat, day2: nat, year2: nat)
    requires day1 < 100 && day2 < 100
    requires Pad2(day1) + ", " + NatToString(year1) == Pad2(day2) + ", " + NatToString(year2)
    ensures day1 == day2 && year1 == year2
  {
    var r1 := Pad2(day1) + ", " + NatToString(year1);
    var r2 := Pad2(day2) + ", " + NatToString(year2);
    Pad2Facts(day1);
    Pad2Facts(day2);
    assert Pad2(day1) == r1[..2] && Pad2(day2) == r2[..2];
    assert NatToString(year1) == r1[4..] && NatToString(year2) == r2[4..];
    NatToStringInjective(year1, year2);
  }
}
