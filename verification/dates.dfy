/** Calendar dates and timestamps, and Python's `datetime.strptime(s, "%Y-%m-%d")`
    as the upload handler uses it to read the two investor date columns. */
module Dates {
  import opened Wrappers
  import opened Text

  datatype Date = Date(year: int, month: int, day: int)

  /** A point in time: a date and the seconds elapsed since its midnight. */
  datatype Timestamp = Timestamp(date: Date, secondOfDay: nat)

  /** `strptime` without a time directive yields midnight of the date. */
  function Midnight(d: Date): Timestamp {
    Timestamp(d, 0)
  }

  predicate IsLeapYear(y: int) {
    y % 4 == 0 && (y % 100 != 0 || y % 400 == 0)
  }

  function DaysInMonth(y: int, m: int): (n: int)
    requires 1 <= m <= 12
    ensures 28 <= n <= 31
  {
    if m == 2 then (if IsLeapYear(y) then 29 else 28)
    else if m == 4 || m == 6 || m == 9 || m == 11 then 30
    else 31
  }

  /** What `datetime(year, month, day)` accepts. */
  predicate ValidDate(d: Date) {
    1 <= d.year <= 9999 && 1 <= d.month <= 12 && 1 <= d.day <= DaysInMonth(d.year, d.month)
  }

  /** `%m`: the alternatives `1[0-2]`, `0[1-9]` and `[1-9]`, so one digit is accepted. */
  function MonthToken(t: string): (r: Option<int>)
    ensures r.Some? ==> 1 <= r.value <= 12
  {
    if |t| == 1 && '1' <= t[0] <= '9' then Some(DigitValue(t[0]))
    else if |t| == 2 && t[0] == '0' && '1' <= t[1] <= '9' then Some(DigitValue(t[1]))
    else if |t| == 2 && t[0] == '1' && '0' <= t[1] <= '2' then Some(10 + DigitValue(t[1]))
    else None
  }

  /** `%d`: the alternatives `3[01]`, `[12]\d`, `0[1-9]`, `[1-9]` and ` [1-9]`. */
  function DayToken(t: string): (r: Option<int>)
    ensures r.Some? ==> 1 <= r.value <= 31
  {
    if |t| == 1 && '1' <= t[0] <= '9' then Some(DigitValue(t[0]))
    else if |t| == 2 && (t[0] == '0' || t[0] == ' ') && '1' <= t[1] <= '9' then Some(DigitValue(t[1]))
    else if |t| == 2 && (t[0] == '1' || t[0] == '2') && IsDigit(t[1]) then Some(10 * DigitValue(t[0]) + DigitValue(t[1]))
    else if |t| == 2 && t[0] == '3' && (t[1] == '0' || t[1] == '1') then Some(30 + DigitValue(t[1]))
    else None
  }

  function IndexOf(s: string, c: char): (r: Option<nat>)
    ensures r.Some? ==> r.value < |s| && s[r.value] == c && forall j :: 0 <= j < r.value ==> s[j] != c
    ensures r.None? ==> forall j :: 0 <= j < |s| ==> s[j] != c
  {
    if |s| == 0 then None
    else if s[0] == c then Some(0)
    else match IndexOf(s[1..], c)
      case None => None
      case Some(j) => Some(j + 1)
  }

  /** `strptime(s, "%Y-%m-%d")`: four digits, a dash, a month, a dash, a day, and
      nothing after it; the date must exist. None stands for the ValueError. */
  function ParseDate(s: string): (r: Option<Date>)
    ensures r.Some? ==> ValidDate(r.value)
  {
    if |s| < 5 || !AllDigits(s[..4]) || s[4] != '-' then None
    else
      var rest := s[5..];
      match IndexOf(rest, '-')
      case None => None
      case Some(j) =>
        var month := MonthToken(rest[..j]);
        var day := DayToken(rest[j + 1..]);
        if month.None? || day.None? then None
        else
          var d := Date(DigitsValue(s[..4]), month.value, day.value);
          if ValidDate(d) then Some(d) else None
  }

  function Pad2(n: nat): (s: string)
    requires n < 100
    ensures |s| == 2 && AllDigits(s)
  {
    [DigitChar(n / 10), DigitChar(n % 10)]
  }

  function Pad4(n: nat): (s: string)
    requires n < 10000
    ensures |s| == 4 && AllDigits(s)
  {
    [DigitChar(n / 1000), DigitChar(n / 100 % 10), DigitChar(n / 10 % 10), DigitChar(n % 10)]
  }

  /** The canonical `YYYY-MM-DD` text of a date, as the sample files write it. */
  function FormatDate(d: Date): (s: string)
    requires ValidDate(d)
    ensures |s| == 10
  {
    Pad4(d.year) + "-" + Pad2(d.month) + "-" + Pad2(d.day)
  }

  lemma Pad4Value(n: nat)
    requires n < 10000
    ensures DigitsValue(Pad4(n)) == n
  {
    var s := Pad4(n);
    assert s[..3][..2][..1][..0] == [];
    assert DigitsValue(s[..3][..2][..1]) == n / 1000;
    assert DigitsValue(s[..3][..2]) == n / 1000 * 10 + n / 100 % 10 == n / 100;
    assert DigitsValue(s[..3]) == n / 100 * 10 + n / 10 % 10 == n / 10;
  }

  lemma MonthTokenOfPad2(m: int)
    requires 1 <= m <= 12
    ensures MonthToken(Pad2(m)) == Some(m)
  {
  }

  lemma DayTokenOfPad2(d: int)
    requires 1 <= d <= 31
    ensures DayToken(Pad2(d)) == Some(d)
  {
  }

  /** Every valid date written as `YYYY-MM-DD` parses back to itself. */
  lemma ParseFormatRoundTrip(d: Date)
    requires ValidDate(d)
    ensures ParseDate(FormatDate(d)) == Some(d)
  {
    var s := FormatDate(d);
    assert s[..4] == Pad4(d.year);
    Pad4Value(d.year);
    var rest := s[5..];
    assert rest == Pad2(d.month) + "-" + Pad2(d.day);
    assert IsDigit(rest[0]) && IsDigit(rest[1]) && rest[2] == '-';
    assert IndexOf(rest, '-') == Some(2);
    assert rest[..2] == Pad2(d.month);
    assert rest[3..] == Pad2(d.day);
    MonthTokenOfPad2(d.month);
    DayTokenOfPad2(d.day);
  }

  /** `strptime` is lenient: a one-digit month and day are read as well. */
  lemma OneDigitMonthAndDayAccepted()
    ensures ParseDate("2024-2-9") == Some(Date(2024, 2, 9))
  {
    var s := "2024-2-9";
    assert s[..4] == "2024";
    assert DigitsValue("2024") == 2024 by {
      assert "2024"[..3] == "202" && "202"[..2] == "20" && "20"[..1] == "2" && "2"[..0] == [];
    }
    assert s[5..] == "2-9";
    assert IndexOf("2-9", '-') == Some(1);
    assert "2-9"[..1] == "2" && "2-9"[2..] == "9";
  }

  /** A day that does not exist in its month is refused. */
  lemma NonexistentDayRejected()
    ensures ParseDate("2023-02-29") == None
  {
    var s := "2023-02-29";
    assert s[5..] == "02-29";
    assert IndexOf("02-29", '-') == Some(2);
    assert "02-29"[..2] == "02" && "02-29"[3..] == "29";
  }
}
