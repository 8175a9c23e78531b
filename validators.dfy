/**
 * The request rules of backend/src/validators/attendanceValidator.js: the HH:mm time grammar,
 * the attendance status names, and the month and year of a report request.
 */
module Validators {
  import opened Basics
  import opened Text
  import opened Store

  // ---------------------------------------------------------------- HH:mm

  /** The pattern ^([01]\d|2[0-3]):([0-5]\d)$. */
  predicate IsTime(s: string)
    ensures IsTime(s) ==> && |s| == 5 && s[2] == ':' && IsDigit(s[0]) && IsDigit(s[1]) && IsDigit(s[3]) && IsDigit(s[4])
                          && DigitValue(s[0]) * 10 + DigitValue(s[1]) <= 23
                          && DigitValue(s[3]) * 10 + DigitValue(s[4]) <= 59
  {
    && |s| == 5
    && ((('0' <= s[0] <= '1') && IsDigit(s[1])) || (s[0] == '2' && '0' <= s[1] <= '3'))
    && s[2] == ':'
    && '0' <= s[3] <= '5'
    && IsDigit(s[4])
  }

  /** A time of day on the 24-hour clock. */
  predicate ValidTime(t: TimeOfDay)
  {
    0 <= t.hour <= 23 && 0 <= t.minute <= 59
  }

  function TwoDigits(n: nat): (s: string)
    requires n < 100
    ensures |s| == 2 && AllDigits(s)
  {
    [DigitChar(n / 10), DigitChar(n % 10)]
  }

  /** The zero-padded "HH:mm" text of a time, as the clock strings of the source are written. */
  function TimeText(t: TimeOfDay): string
    requires ValidTime(t)
  {
    TwoDigits(t.hour) + ":" + TwoDigits(t.minute)
  }

  /** `s.split(':').map(Number)` on a well-formed "HH:mm". */
  function ParseTime(s: string): TimeOfDay
    requires IsTime(s)
  {
    TimeOfDay(DigitValue(s[0]) * 10 + DigitValue(s[1]), DigitValue(s[3]) * 10 + DigitValue(s[4]))
  }

  /**
   * The grammar accepts exactly the texts of valid times: every valid time prints to an accepted
   * text that reads back as itself, and every accepted text is a valid time printed.
   */
  lemma TimeRoundTrip(t: TimeOfDay, s: string)
    ensures ValidTime(t) ==> IsTime(TimeText(t)) && ParseTime(TimeText(t)) == t
    ensures IsTime(s) ==> ValidTime(ParseTime(s)) && TimeText(ParseTime(s)) == s
  {
    if IsTime(s) {
      var p := ParseTime(s);
      assert p.hour / 10 == DigitValue(s[0]) && p.hour % 10 == DigitValue(s[1]);
      assert p.minute / 10 == DigitValue(s[3]) && p.minute % 10 == DigitValue(s[4]);
      assert DigitChar(DigitValue(s[0])) == s[0];
      assert DigitChar(DigitValue(s[1])) == s[1];
      assert DigitChar(DigitValue(s[3])) == s[3];
      assert DigitChar(DigitValue(s[4])) == s[4];
    }
  }

  /** Hour 24, a one-digit hour and minute 60 are refused; midnight and 23:59 pass. */
  lemma TimeGrammarExamples()
    ensures !IsTime("24:00") && !IsTime("8:00") && !IsTime("12:60") && !IsTime("08:00:00")
    ensures IsTime("00:00") && IsTime("23:59") && IsTime("08:00")
  {
  }

  /** timeIn / timeOut rules: present, not empty, and matching HH:mm. */
  predicate TimeFieldValid(field: Option<string>)
  {
    field.Some? && field.value != "" && IsTime(field.value)
  }

  /**
   * A time field is required, and what the pattern accepts is never empty: the field passes
   * exactly when it is present and is the text of a valid time.
   */
  lemma TimeFieldRules(field: Option<string>)
    ensures TimeFieldValid(field) <==> field.Some? && IsTime(field.value)
    ensures TimeFieldValid(field) ==> ValidTime(ParseTime(field.value)) && TimeText(ParseTime(field.value)) == field.value
  {
    if field.Some? {
      TimeRoundTrip(TimeOfDay(0, 0), field.value);
    }
  }

  /**
   * express-validator's isInt with its default options: an optional sign and at least one
   * digit (leading zeros allowed).
   */
  predicate IsIntText(s: string)
  {
    |s| >= 1 && (if s[0] == '-' || s[0] == '+' then |s| >= 2 && AllDigits(s[1..]) else AllDigits(s))
  }

  function IntValue(s: string): int
    requires IsIntText(s)
  {
    if s[0] == '-' then 0 - DigitsValue(s[1..])
    else if s[0] == '+' then DigitsValue(s[1..])
    else DigitsValue(s)
  }

  /**
   * The timeOut request: an integer attendanceId and a time. The time-in and time-out routes
   * (backend/src/routes/attendance.routes.js:11-12) do not mount this chain, so it never runs.
   */
  predicate TimeOutBodyValid(attendanceId: string, timeOut: Option<string>)
  {
    IsIntText(attendanceId) && TimeFieldValid(timeOut)
  }

  // ---------------------------------------------------------------- status

  function StatusText(s: AttendanceStatus): string
  {
    match s
    case Present => "present"
    case Absent => "absent"
    case Late => "late"
    case HalfDay => "half_day"
    case OnLeave => "on_leave"
  }

  /** isIn(['present', 'absent', 'late', 'half_day', 'on_leave']). */
  predicate IsStatusText(s: string)
  {
    s == "present" || s == "absent" || s == "late" || s == "half_day" || s == "on_leave"
  }

  function ParseStatus(s: string): (r: AttendanceStatus)
    requires IsStatusText(s)
  {
    if s == "present" then Present
    else if s == "absent" then Absent
    else if s == "late" then Late
    else if s == "half_day" then HalfDay
    else OnLeave
  }

  /** The accepted names are exactly the names of the five statuses, each naming one status. */
  lemma StatusNamesRoundTrip(st: AttendanceStatus, s: string)
    ensures IsStatusText(StatusText(st)) && ParseStatus(StatusText(st)) == st
    ensures IsStatusText(s) ==> StatusText(ParseStatus(s)) == s
  {
  }

  /** The optional update status: absent, or one of the five names. */
  predicate UpdateStatusValid(status: Option<string>)
  {
    status.None? || IsStatusText(status.value)
  }

  // ---------------------------------------------------------------- report

  /** getReport: isInt({min: 1, max: 12}) for the month and isInt({min: 2020, max: 2100}) for the year. */
  predicate ReportQueryValid(month: string, year: string)
  {
    && IsIntText(month) && 1 <= IntValue(month) <= 12
    && IsIntText(year) && 2020 <= IntValue(year) <= 2100
  }

  /** isInt accepts the decimal text of every integer and reads it back as that integer. */
  lemma IntTextRoundTrip(i: int)
    ensures IsIntText(IntToString(i)) && IntValue(IntToString(i)) == i
  {
    NatToStringRoundTrip(if i < 0 then -i else i);
    if i < 0 {
      assert IntToString(i)[1..] == NatToString(-i);
    }
  }

  /** A month and year written as plain integers pass exactly when they lie in 1..12 and 2020..2100. */
  lemma ReportQueryOfNumbers(month: int, year: int)
    ensures ReportQueryValid(IntToString(month), IntToString(year)) <==> 1 <= month <= 12 && 2020 <= year <= 2100
  {
    IntTextRoundTrip(month);
    IntTextRoundTrip(year);
  }

  /** "02" with "2024" and "+12" with "2100" pass as a report query. */
  lemma ReportQueryAccepts()
    ensures ReportQueryValid("02", "2024") && ReportQueryValid("+12", "2100")
  {
    assert DigitsValue("02") == 2 by { assert "02"[..1] == "0"; }
    assert DigitsValue("12") == 12 by { assert "12"[..1] == "1"; }
    assert DigitsValue("2024") == 2024 by {
      assert "2024"[..3] == "202" && "202"[..2] == "20" && "20"[..1] == "2";
    }
    assert DigitsValue("2100") == 2100 by {
      assert "2100"[..3] == "210" && "210"[..2] == "21" && "21"[..1] == "2";
    }
    assert "+12"[1..] == "12";
  }

  /** Month 13 or 0, year 2019, and a month that is no number are refused. */
  lemma ReportQueryRejects()
    ensures !ReportQueryValid("13", "2024") && !ReportQueryValid("0", "2024") && !ReportQueryValid("1", "2019")
    ensures !ReportQueryValid("", "2024") && !ReportQueryValid("-", "2024")
  {
    assert DigitsValue("13") == 13 by { assert "13"[..1] == "1"; }
    assert DigitsValue("2019") == 2019 by {
      assert "2019"[..3] == "201" && "201"[..2] == "20" && "20"[..1] == "2";
    }
  }
}
