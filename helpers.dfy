/**
 * The pure helpers of backend/src/utils/helpers.js: 24-hour to 12-hour time display, the next
 * employee number, and age in completed years.
 */
module Helpers {
  import opened Basics
  import opened Text
  import opened Store
  import opened Validators

  // ---------------------------------------------------------------- formatTime

  /** JavaScript's `s.split(c)`: the pieces between the separators, at least one. */
  function Split(s: string, c: char): (parts: seq<string>)
    ensures |parts| >= 1
    decreases |s|
  {
    if s == [] then [[]]
    else
      var rest := Split(s[1..], c);
      if s[0] == c then [[]] + rest
      else [[s[0]] + rest[0]] + rest[1..]
  }

  lemma SplitCons(x: char, s: string, c: char)
    ensures x == c ==> Split([x] + s, c) == [[]] + Split(s, c)
    ensures x != c ==> Split([x] + s, c) == [[x] + Split(s, c)[0]] + Split(s, c)[1..]
  {
    assert ([x] + s)[1..] == s;
  }

  lemma {:induction false} SplitWithoutSeparator(s: string, c: char)
    requires forall i :: 0 <= i < |s| ==> s[i] != c
    ensures Split(s, c) == [s]
    decreases |s|
  {
    if s != [] {
      SplitWithoutSeparator(s[1..], c);
      SplitCons(s[0], s[1..], c);
      assert [s[0]] + s[1..] == s;
    }
  }

  /** JavaScript's `%` on integers: the remainder takes the dividend's sign. */
  function JsRem(a: int, b: int): int
    requires b > 0
  {
    if a >= 0 then a % b else -((-a) % b)
  }

  /** `hour % 12 || 12`: NaN and 0 are falsy, so both show as 12. */
  function DisplayHour(hour: Option<int>): int
  {
    if hour.None? || JsRem(hour.value, 12) == 0 then 12 else JsRem(hour.value, 12)
  }

  /** formatTime: "" for a missing or empty time; otherwise `${displayHour}:${minutes} ${ampm}`. */
  function FormatTime(time: Option<string>): (text: string)
    ensures text == "" <==> time.None? || time.value == ""
    ensures text != "" ==> |text| >= 4 && (text[|text| - 3..] == " AM" || text[|text| - 3..] == " PM")
  {
    if time.None? || time.value == "" then ""
    else
      var parts := Split(time.value, ':');
      var hour := ParseIntPrefix(parts[0]);
      var minutes := if |parts| > 1 then parts[1] else "undefined";
      var ampm := if hour.Some? && hour.value >= 12 then "PM" else "AM";
      IntToString(DisplayHour(hour)) + ":" + minutes + " " + ampm
  }

  lemma SplitTimeText(t: TimeOfDay, rest: string)
    requires ValidTime(t)
    ensures Split(TimeText(t) + rest, ':')[0] == TwoDigits(t.hour)
    ensures Split(TimeText(t) + rest, ':')[1..] == Split(TwoDigits(t.minute) + rest, ':')
  {
    var h, m := TwoDigits(t.hour), TwoDigits(t.minute);
    var tail := m + rest;
    var s := TimeText(t) + rest;
    assert s == [h[0]] + ([h[1]] + ([':'] + tail));
    SplitCons(':', tail, ':');
    SplitCons(h[1], [':'] + tail, ':');
    SplitCons(h[0], [h[1]] + ([':'] + tail), ':');
    assert [h[0]] + ([h[1]] + []) == h;
  }

  lemma SplitMinutesAlone(m: nat, rest: string)
    requires m < 100
    requires forall i :: 0 <= i < |rest| ==> rest[i] != ':'
    ensures Split(TwoDigits(m) + rest, ':')[0] == TwoDigits(m) + rest
  {
    var d := TwoDigits(m);
    SplitWithoutSeparator(d + rest, ':');
  }

  lemma SplitMinutesBeforeSeconds(m: nat, rest: string)
    requires m < 100
    requires |rest| >= 1 && rest[0] == ':'
    ensures Split(TwoDigits(m) + rest, ':')[0] == TwoDigits(m)
  {
    var d := TwoDigits(m);
    assert d + rest == [d[0]] + ([d[1]] + ([':'] + rest[1..]));
    SplitCons(':', rest[1..], ':');
    SplitCons(d[1], [':'] + rest[1..], ':');
    SplitCons(d[0], [d[1]] + ([':'] + rest[1..]), ':');
    assert [d[0]] + ([d[1]] + []) == d;
  }

  lemma TwoDigitsValue(n: nat)
    requires n < 100
    ensures ParseIntPrefix(TwoDigits(n)) == Some(n)
  {
    var s := TwoDigits(n);
    ParseIntOfDigits(s);
    assert s[0] == DigitChar(n / 10) && s[1] == DigitChar(n % 10);
    assert DigitsValue(s[..1]) == n / 10 by {
      assert s[..1][..0] == [];
    }
    assert DigitsValue(s) == 10 * (n / 10) + n % 10;
  }

  /**
   * On an "HH:mm" clock time, possibly followed by ":ss" as a database TIME column gives it,
   * formatTime shows the hour on the 12-hour dial (0 and 12 as 12), PM from noon on, and the
   * minutes as they were written; the shown hour and the AM/PM mark give back the 24-hour hour.
   */
  lemma FormatTimeOfClock(t: TimeOfDay, rest: string)
    requires ValidTime(t)
    requires rest == [] || rest[0] == ':'
    ensures var shown := if t.hour % 12 == 0 then 12 else t.hour % 12;
      && 1 <= shown <= 12
      && FormatTime(Some(TimeText(t) + rest)) == NatToString(shown) + ":" + TwoDigits(t.minute) + " " + (if t.hour >= 12 then "PM" else "AM")
      && t.hour == shown % 12 + (if t.hour >= 12 then 12 else 0)
  {
    ClockParts(t, rest);
    DialHour(t.hour);
    var shown := if t.hour % 12 == 0 then 12 else t.hour % 12;
    FormatTimeParts(TimeText(t) + rest, t.hour, shown, TwoDigits(t.minute));
  }

  /** Splitting a clock text at ':' gives the hour, then the minutes. */
  lemma ClockParts(t: TimeOfDay, rest: string)
    requires ValidTime(t)
    requires rest == [] || rest[0] == ':'
    ensures var parts := Split(TimeText(t) + rest, ':');
      && TimeText(t) + rest != [] && |parts| > 1
      && ParseIntPrefix(parts[0]) == Some(t.hour) && parts[1] == TwoDigits(t.minute)
  {
    var parts := Split(TimeText(t) + rest, ':');
    SplitTimeText(t, rest);
    if rest == [] {
      SplitMinutesAlone(t.minute, rest);
      assert TwoDigits(t.minute) + [] == TwoDigits(t.minute);
    } else {
      SplitMinutesBeforeSeconds(t.minute, rest);
    }
    assert parts[1] == parts[1..][0] == TwoDigits(t.minute);
    TwoDigitsValue(t.hour);
  }

  /** `hour % 12 || 12` on a 24-hour hour: a dial hour 1..12 that, with the AM/PM mark, gives the hour back. */
  lemma DialHour(h: nat)
    requires h < 24
    ensures var shown := if h % 12 == 0 then 12 else h % 12;
      && 1 <= shown <= 12 && DisplayHour(Some(h)) == shown
      && h == shown % 12 + (if h >= 12 then 12 else 0)
  {
  }

  lemma FormatTimeParts(time: string, hour: nat, shown: nat, minutes: string)
    requires time != [] && |Split(time, ':')| > 1
    requires ParseIntPrefix(Split(time, ':')[0]) == Some(hour) && Split(time, ':')[1] == minutes
    requires DisplayHour(Some(hour)) == shown
    ensures FormatTime(Some(time)) == NatToString(shown) + ":" + minutes + " " + (if hour >= 12 then "PM" else "AM")
  {
  }

  /** Midnight shows as 12 AM; nothing is shown for no time. */
  lemma FormatMidnight(time: string)
    requires time == "00:30"
    ensures FormatTime(Some(time)) == "12:30 AM"
    ensures FormatTime(None) == "" && FormatTime(Some("")) == ""
  {
    var t := TimeOfDay(0, 30);
    assert TwoDigits(0) == "00" && TwoDigits(30) == "30";
    assert TimeText(t) + "" == time;
    FormatTimeOfClock(t, "");
    assert NatToString(12) == "12";
  }

  /** Noon shows as 12 PM. */
  lemma FormatNoon(time: string)
    requires time == "12:05"
    ensures FormatTime(Some(time)) == "12:05 PM"
  {
    var t := TimeOfDay(12, 5);
    assert TwoDigits(12) == "12" && TwoDigits(5) == "05";
    assert TimeText(t) + "" == time;
    FormatTimeOfClock(t, "");
    assert NatToString(12) == "12";
  }

  /** A database TIME with seconds: 13:45:00 shows as 1:45 PM. */
  lemma FormatAfternoonWithSeconds(time: string)
    requires time == "13:45:00"
    ensures FormatTime(Some(time)) == "1:45 PM"
  {
    var t := TimeOfDay(13, 45);
    AfternoonClockText(time);
    FormatTimeOfClock(t, ":00");
    AfternoonShown(NatToString(1) + ":" + TwoDigits(45) + " " + "PM");
  }

  lemma AfternoonShown(shown: string)
    requires shown == NatToString(1) + ":" + TwoDigits(45) + " " + "PM"
    ensures shown == "1:45 PM"
  {
    assert NatToString(1) == "1" && TwoDigits(45) == "45";
  }

  lemma AfternoonClockText(time: string)
    requires time == "13:45:00"
    ensures time == TimeText(TimeOfDay(13, 45)) + ":00"
  {
    assert TwoDigits(13) == "13" && TwoDigits(45) == "45";
  }

  // ---------------------------------------------------------------- generateEmployeeId

  /** JavaScript's `s.replace(pat, rep)` with a string pattern: the first occurrence only. */
  function ReplaceFirst(s: string, pat: string, rep: string): string
    requires |pat| > 0
    decreases |s|
  {
    if |s| < |pat| then s
    else if s[..|pat|] == pat then rep + s[|pat|..]
    else [s[0]] + ReplaceFirst(s[1..], pat, rep)
  }

  /** `number.toString().padStart(3, '0')`, where NaN prints as "NaN". */
  function NumberText(n: Option<int>): string
  {
    if n.None? then PadStart("NaN", 3, '0') else PadStart(IntToString(n.value), 3, '0')
  }

  /** The id after `lastId`: its number (what parseInt reads after removing "EMP") plus one. */
  function NextEmployeeId(lastId: string): (id: string)
    ensures |id| >= 6 && id[..3] == "EMP"
  {
    var number := IdNumber(lastId);
    "EMP" + NumberText(if number.None? then None else Some(number.value + 1))
  }

  /** `parseInt(lastId.replace('EMP', ''))`, with NaN as None. */
  function IdNumber(lastId: string): Option<int>
  {
    ParseIntPrefix(ReplaceFirst(lastId, "EMP", ""))
  }

  /** `ORDER BY employee_id DESC LIMIT 1`: the greatest id in string order. */
  function LexMax(ids: seq<string>): (m: string)
    requires |ids| > 0
    ensures m in ids
    ensures forall id :: id in ids ==> !LexLess(m, id)
    decreases |ids|
  {
    if |ids| == 1 then
      LexLessIrreflexive(ids[0]);
      ids[0]
    else
      var rest := LexMax(ids[1..]);
      assert forall id :: id in ids ==> id == ids[0] || id in ids[1..];
      LexLessTotal(ids[0], rest);
      if LexLess(ids[0], rest) then
        LexLessTransitiveStep(ids, rest);
        rest
      else
        LexLessTransitiveStep2(ids, rest);
        ids[0]
  }

  lemma {:induction false} LexLessTotal(a: string, b: string)
    ensures LexLess(a, b) || LexLess(b, a) || a == b
    ensures !(LexLess(a, b) && LexLess(b, a))
    decreases |a|
  {
    if a != [] && b != [] {
      LexLessTotal(a[1..], b[1..]);
      if a[0] == b[0] && a[1..] == b[1..] {
        assert a == [a[0]] + a[1..] && b == [b[0]] + b[1..];
      }
    }
  }

  lemma {:induction false} LexLessIrreflexive(a: string)
    ensures !LexLess(a, a)
    decreases |a|
  {
    if a != [] {
      LexLessIrreflexive(a[1..]);
    }
  }

  lemma {:induction false} LexLessTrans(a: string, b: string, c: string)
    requires LexLess(a, b) && LexLess(b, c)
    ensures LexLess(a, c)
    decreases |a|
  {
    if a != [] && a[0] == b[0] && b[0] == c[0] {
      LexLessTrans(a[1..], b[1..], c[1..]);
    }
  }

  lemma LexLessTransitiveStep(ids: seq<string>, rest: string)
    requires |ids| > 1 && LexLess(ids[0], rest)
    requires forall id :: id in ids[1..] ==> !LexLess(rest, id)
    ensures forall id :: id in ids ==> !LexLess(rest, id)
  {
    LexLessTotal(ids[0], rest);
    assert forall id :: id in ids ==> id == ids[0] || id in ids[1..];
  }

  lemma LexLessTransitiveStep2(ids: seq<string>, rest: string)
    requires |ids| > 1 && !LexLess(ids[0], rest)
    requires forall id :: id in ids[1..] ==> !LexLess(rest, id)
    ensures forall id :: id in ids ==> !LexLess(ids[0], id)
  {
    assert forall id :: id in ids ==> id == ids[0] || id in ids[1..];
    forall id | id in ids[1..]
      ensures !LexLess(ids[0], id)
    {
      LexLessTotal(ids[0], rest);
      LexLessTotal(rest, id);
      if LexLess(ids[0], id) {
        if rest == id {
        } else if LexLess(id, rest) {
          LexLessTrans(ids[0], id, rest);
        }
      }
    }
    LexLessIrreflexive(ids[0]);
  }

  /** generateEmployeeId as written: "EMP001" for no users, else the successor of the greatest id in string order. */
  function GenerateEmployeeId(ids: seq<string>): (id: string)
    ensures |id| >= 6 && id[..3] == "EMP"
    ensures ids == [] ==> id == Canonical(1)
  {
    if ids == [] then "EMP001" else NextEmployeeId(LexMax(ids))
  }

  /** The canonical id of employee number n: "EMP" and the number padded to three digits. */
  function Canonical(n: nat): string
  {
    "EMP" + PadStart(NatToString(n), 3, '0')
  }

  lemma CanonicalParts(n: nat)
    ensures var digits := PadStart(NatToString(n), 3, '0');
      && Canonical(n)[..3] == "EMP" && Canonical(n)[3..] == digits
      && AllDigits(digits) && |digits| >= 3 && DigitsValue(digits) == n
  {
    var s := NatToString(n);
    var digits := PadStart(s, 3, '0');
    LeadingZerosValue(|digits| - |s|, s);
    NatToStringRoundTrip(n);
  }

  /** Each id is followed by the id of the next number: EMP009 by EMP010, EMP999 by EMP1000. */
  lemma NextOfCanonical(n: nat)
    ensures NextEmployeeId(Canonical(n)) == Canonical(n + 1)
  {
    var digits := PadStart(NatToString(n), 3, '0');
    CanonicalParts(n);
    IdNumberOfDigits(Canonical(n), digits, n);
    NextOfNumber(Canonical(n), n);
  }

  /** The number read back from "EMP" and a run of digits is the value of the digits. */
  lemma IdNumberOfDigits(lastId: string, digits: string, n: nat)
    requires AllDigits(digits) && digits != [] && lastId == "EMP" + digits && DigitsValue(digits) == n
    ensures IdNumber(lastId) == Some(n)
  {
    StripPrefix(lastId, "EMP", digits);
    ParseIntOfDigits(digits);
  }

  /** An id whose number is n is followed by the canonical id of n + 1. */
  lemma NextOfNumber(lastId: string, n: nat)
    requires IdNumber(lastId) == Some(n)
    ensures NextEmployeeId(lastId) == Canonical(n + 1)
  {
    var next := n + 1;
    assert IntToString(next) == NatToString(next);
  }

  /** Removing a prefix that is there leaves what follows it. */
  lemma StripPrefix(s: string, pat: string, rest: string)
    requires |pat| > 0 && s == pat + rest
    ensures ReplaceFirst(s, pat, "") == rest
  {
    assert s[..|pat|] == pat && s[|pat|..] == rest;
  }

  lemma CanonicalExamples()
    ensures Canonical(1) == "EMP001" && Canonical(999) == "EMP999" && Canonical(1000) == "EMP1000"
  {
    assert NatToString(1) == "1";
    assert NatToString(999) == NatToString(99) + "9" && NatToString(99) == "99";
    assert NatToString(1000) == NatToString(100) + "0" && NatToString(100) == NatToString(10) + "0";
  }

  /**
   * The first id is EMP001; once EMP999 and EMP1000 are both stored, string order ranks EMP999
   * above EMP1000, so the generator hands out EMP1000 a second time.
   */
  lemma GenerateEmployeeIdDuplicates(ids: seq<string>)
    requires ids == [Canonical(999), Canonical(1000)]
    ensures GenerateEmployeeId([]) == Canonical(1)
    ensures GenerateEmployeeId(ids) == Canonical(1000) && Canonical(1000) in ids
  {
    CanonicalExamples();
    var hi, lo := ids[0], ids[1];
    assert LexLess(lo, hi) by {
      assert lo[1..][1..][1..] == "1000" && hi[1..][1..][1..] == "999";
    }
    LexLessTotal(lo, hi);
    assert LexMax(ids) == hi;
    NextOfCanonical(999);
  }

  /** The employee number an id carries, when it is "EMP" followed by digits only. */
  function EmployeeNumber(id: string): Option<nat>
  {
    if |id| > 3 && id[..3] == "EMP" && AllDigits(id[3..]) then Some(DigitsValue(id[3..])) else None
  }

  function MaxNumber(ids: seq<string>): (m: nat)
    ensures forall id :: id in ids && EmployeeNumber(id).Some? ==> EmployeeNumber(id).value <= m
    decreases |ids|
  {
    if ids == [] then 0
    else
      var rest := MaxNumber(ids[1..]);
      assert forall id :: id in ids ==> id == ids[0] || id in ids[1..];
      var here := if EmployeeNumber(ids[0]).Some? then EmployeeNumber(ids[0]).value else 0;
      if here > rest then here else rest
  }

  /** generateEmployeeId as evidently intended: one past the greatest employee number. */
  function GenerateEmployeeIdCorrected(ids: seq<string>): string
  {
    Canonical(MaxNumber(ids) + 1)
  }

  lemma EmployeeNumberOfCanonical(n: nat)
    ensures EmployeeNumber(Canonical(n)) == Some(n)
  {
    CanonicalParts(n);
  }

  /**
   * The corrected generator never repeats an id that carries a number, so never one it handed
   * out before: the new id's number is one past all of theirs.
   */
  lemma CorrectedIsFresh(ids: seq<string>)
    ensures var next := GenerateEmployeeIdCorrected(ids);
      && EmployeeNumber(next) == Some(MaxNumber(ids) + 1)
      && (forall id :: id in ids && EmployeeNumber(id).Some? ==> id != next)
  {
    EmployeeNumberOfCanonical(MaxNumber(ids) + 1);
  }

  lemma CorrectedStartsAtOne(ids: seq<string>)
    requires ids == []
    ensures GenerateEmployeeIdCorrected(ids) == GenerateEmployeeId(ids) == "EMP001"
  {
    CanonicalExamples();
  }

  /** Where string order does no harm the two generators agree: EMP001 first, then successors. */
  lemma CorrectedAgreesOnSuccessor(n: nat)
    ensures GenerateEmployeeIdCorrected([Canonical(n)]) == GenerateEmployeeId([Canonical(n)])
  {
    EmployeeNumberOfCanonical(n);
    var ids := [Canonical(n)];
    assert ids[1..] == [];
    assert MaxNumber(ids) == n;
    assert LexMax(ids) == Canonical(n);
    NextOfCanonical(n);
  }

  // ---------------------------------------------------------------- calculateAge

  /** calculateAge with today as a parameter: the year difference, less one before this year's birthday. */
  function CalculateAge(birth: Dates.Civil, today: Dates.Civil): (age: int)
    ensures today.year - birth.year - 1 <= age <= today.year - birth.year
    ensures age == today.year - birth.year <==>
              birth.month < today.month || (birth.month == today.month && birth.day <= today.day)
  {
    var age := today.year - birth.year;
    var monthDiff := today.month - birth.month;
    if monthDiff < 0 || (monthDiff == 0 && today.day < birth.day) then age - 1 else age
  }

  /** Calendar order of (year, month, day) triples. */
  predicate OnOrBefore(a: Dates.Civil, b: Dates.Civil)
  {
    a.year < b.year || (a.year == b.year && (a.month < b.month || (a.month == b.month && a.day <= b.day)))
  }

  /** The k-th birthday: the same month and day, k years on. */
  function Anniversary(birth: Dates.Civil, k: int): Dates.Civil
  {
    Dates.Civil(birth.year + k, birth.month, birth.day)
  }

  /**
   * The age is the number of completed years: the age-th birthday has come and the next has
   * not; so it is never negative for a birth date on or before today.
   */
  lemma AgeIsCompletedYears(birth: Dates.Civil, today: Dates.Civil)
    ensures var age := CalculateAge(birth, today);
      && OnOrBefore(Anniversary(birth, age), today)
      && !OnOrBefore(Anniversary(birth, age + 1), today)
    ensures OnOrBefore(birth, today) ==> CalculateAge(birth, today) >= 0
  {
  }
}
