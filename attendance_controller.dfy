/**
 * The clock-in / clock-out day record of backend/src/controllers/attendanceController.js
 * (none, then timed in, then timed out), lateness against 08:00, worked and overtime hours,
 * the administrative update, and the monthly report summary.
 */
module AttendanceController {
  import opened Basics
  import opened Text
  import opened Dates
  import opened Store
  import opened Validators

  const WorkStart: TimeOfDay := TimeOfDay(8, 0)
  const RegularHours: real := 8.0

  datatype AttendanceError =
    | AlreadyTimedIn
    | NoTimeInRecord
    | AlreadyTimedOut
      /** `attendance.time_in.split` on a row without time_in throws; the handler answers 500. */
    | MissingTimeIn
    | RecordNotFound
    | AccessDenied

  function Minutes(t: TimeOfDay): int
  {
    t.hour * 60 + t.minute
  }

  // ---------------------------------------------------------------- time in

  /**
   * timeIn's lateness: late when the clock text is after "08:00" (a string comparison), and
   * then `(h - 8) * 60 + (m - 0)` minutes late. So an employee is late exactly after 08:00, by
   * the minutes past it, and otherwise 0 minutes late.
   */
  function LateMinutes(now: TimeOfDay): (late: int)
    requires ValidTime(now)
    ensures late == if Minutes(now) > Minutes(WorkStart) then Minutes(now) - Minutes(WorkStart) else 0
    ensures late >= 0
  {
    TextOrderIsTimeOrder(WorkStart, now);
    if LexLess(TimeText(WorkStart), TimeText(now)) then (now.hour - WorkStart.hour) * 60 + (now.minute - WorkStart.minute)
    else 0
  }

  /** Comparing the zero-padded texts orders times as comparing minutes since midnight does. */
  lemma TextOrderIsTimeOrder(a: TimeOfDay, b: TimeOfDay)
    requires ValidTime(a) && ValidTime(b)
    ensures LexLess(TimeText(a), TimeText(b)) <==> Minutes(a) < Minutes(b)
  {
    var x := TimeText(a);
    var y := TimeText(b);
    assert LexLess(x, y) == FirstDifferenceLess(x, y, 0) by {
      LexLessFromIndex(x, y, 0);
    }
    var ah1, ah0, am1, am0 := a.hour / 10, a.hour % 10, a.minute / 10, a.minute % 10;
    var bh1, bh0, bm1, bm0 := b.hour / 10, b.hour % 10, b.minute / 10, b.minute % 10;
    assert x == [DigitChar(ah1), DigitChar(ah0), ':', DigitChar(am1), DigitChar(am0)];
    assert y == [DigitChar(bh1), DigitChar(bh0), ':', DigitChar(bm1), DigitChar(bm0)];
    assert Minutes(a) == 600 * ah1 + 60 * ah0 + 10 * am1 + am0;
    assert Minutes(b) == 600 * bh1 + 60 * bh0 + 10 * bm1 + bm0;
    DigitCharOrder(ah1, bh1);
    DigitCharOrder(ah0, bh0);
    DigitCharOrder(am1, bm1);
    DigitCharOrder(am0, bm0);
    assert FirstDifferenceLess(x, y, 5) == false;
    assert FirstDifferenceLess(x, y, 4) == (am0 < bm0);
    assert FirstDifferenceLess(x, y, 3) == (am1 < bm1 || (am1 == bm1 && am0 < bm0));
    assert FirstDifferenceLess(x, y, 2) == FirstDifferenceLess(x, y, 3);
    assert FirstDifferenceLess(x, y, 1) == (ah0 < bh0 || (ah0 == bh0 && FirstDifferenceLess(x, y, 3)));
    assert FirstDifferenceLess(x, y, 0) == (ah1 < bh1 || (ah1 == bh1 && FirstDifferenceLess(x, y, 1)));
  }

  lemma DigitCharOrder(p: nat, q: nat)
    requires p < 10 && q < 10
    ensures DigitChar(p) < DigitChar(q) <==> p < q
    ensures DigitChar(p) == DigitChar(q) <==> p == q
  {
  }

  /** Lexicographic comparison of equal-length strings from index i on. */
  predicate FirstDifferenceLess(x: string, y: string, i: nat)
    requires |x| == |y| && i <= |x|
    decreases |x| - i
  {
    if i == |x| then false
    else if x[i] != y[i] then x[i] < y[i]
    else FirstDifferenceLess(x, y, i + 1)
  }

  lemma {:induction false} LexLessFromIndex(x: string, y: string, i: nat)
    requires |x| == |y| && i <= |x|
    ensures LexLess(x[i..], y[i..]) == FirstDifferenceLess(x, y, i)
    decreases |x| - i
  {
    if i < |x| {
      assert x[i..][1..] == x[i + 1..] && y[i..][1..] == y[i + 1..];
      LexLessFromIndex(x, y, i + 1);
    } else {
      assert y[i..] == [];
    }
  }

  /** The row timeIn inserts: time_in, late_minutes, and status late or present. */
  function TimeInRow(now: TimeOfDay): AttendanceRow
    requires ValidTime(now)
  {
    var late := LexLess(TimeText(WorkStart), TimeText(now));
    AttendanceRow(Some(now), None, None, None, Some(LateMinutes(now)), if late then Late else Present, None)
  }

  function TimeInOutcome(att: map<AttendanceKey, AttendanceRow>, userId: int, today: Day, now: TimeOfDay): Result<AttendanceRow, AttendanceError>
    requires ValidTime(now)
  {
    if (userId, today) in att then Failure(AlreadyTimedIn) else Success(TimeInRow(now))
  }

  /** timeIn: refuse a second record for the day; otherwise insert one stamped with the current time. */
  method TimeIn(db: Database, userId: int, today: Day, now: TimeOfDay) returns (r: Result<AttendanceRow, AttendanceError>)
    requires ValidTime(now)
    modifies db`attendance
    ensures r == TimeInOutcome(old(db.attendance), userId, today, now)
    ensures db.attendance == if r.Success? then old(db.attendance)[(userId, today) := r.value] else old(db.attendance)
  {
    if (userId, today) in db.attendance {
      return Failure(AlreadyTimedIn);   // ROLLBACK
    }
    var isLate := LexLess(TimeText(WorkStart), TimeText(now));
    var lateMinutes := 0;
    if isLate {
      lateMinutes := (now.hour - WorkStart.hour) * 60 + (now.minute - WorkStart.minute);
    }
    var row := AttendanceRow(Some(now), None, None, None, Some(lateMinutes), if isLate then Late else Present, None);
    db.attendance := db.attendance[(userId, today) := row];
    r := Success(row);
  }

  // ---------------------------------------------------------------- time out

  /** Hours between two clock times (negative when the second is earlier). */
  function WorkedHours(timeIn: TimeOfDay, timeOut: TimeOfDay): (hours: real)
    ensures hours >= 0.0 <==> Minutes(timeIn) <= Minutes(timeOut)
    ensures hours * 60.0 == (Minutes(timeOut) - Minutes(timeIn)) as real
  {
    (Minutes(timeOut) - Minutes(timeIn)) as real / 60.0
  }

  /**
   * Overtime: the hours beyond the 8-hour day, or 0. It lies between 0 and the hours worked,
   * is positive exactly beyond the regular day, and leaves at most the regular day.
   */
  function Overtime(hours: real): (ot: real)
    ensures 0.0 <= ot <= (if hours > 0.0 then hours else 0.0)
    ensures hours - ot <= RegularHours
    ensures ot > 0.0 <==> hours > RegularHours
  {
    if hours > RegularHours then hours - RegularHours else 0.0
  }

  function TimeOutOutcome(att: map<AttendanceKey, AttendanceRow>, userId: int, today: Day, now: TimeOfDay): Result<AttendanceRow, AttendanceError>
  {
    if (userId, today) !in att then Failure(NoTimeInRecord)
    else
      var row := att[(userId, today)];
      if row.timeOut.Some? then Failure(AlreadyTimedOut)
      else if row.timeIn.None? then Failure(MissingTimeIn)
      else
        var hours := WorkedHours(row.timeIn.value, now);
        Success(row.(timeOut := Some(now), totalHours := Some(hours), overtimeHours := Some(Overtime(hours))))
  }

  /** timeOut: today's record must exist and not be closed; stamp time_out, total and overtime hours. */
  method TimeOut(db: Database, userId: int, today: Day, now: TimeOfDay) returns (r: Result<AttendanceRow, AttendanceError>)
    modifies db`attendance
    ensures r == TimeOutOutcome(old(db.attendance), userId, today, now)
    ensures db.attendance == if r.Success? then old(db.attendance)[(userId, today) := r.value] else old(db.attendance)
  {
    if (userId, today) !in db.attendance {
      return Failure(NoTimeInRecord);   // ROLLBACK
    }
    var row := db.attendance[(userId, today)];
    if row.timeOut.Some? {
      return Failure(AlreadyTimedOut);   // ROLLBACK
    }
    if row.timeIn.None? {
      return Failure(MissingTimeIn);   // the thrown TypeError, ROLLBACK
    }
    var totalMinutes := Minutes(now) - Minutes(row.timeIn.value);
    var totalHours := totalMinutes as real / 60.0;
    var overtimeHours := 0.0;
    if totalHours > RegularHours {
      overtimeHours := totalHours - RegularHours;
    }
    var updated := row.(timeOut := Some(now), totalHours := Some(totalHours), overtimeHours := Some(overtimeHours));
    db.attendance := db.attendance[(userId, today) := updated];
    r := Success(updated);
  }

  /**
   * The day record is a one-way state machine: no time-out before a time-in, one time-in per
   * day, and one time-out after it, whose hours run from the recorded time-in.
   */
  lemma DayStateMachine(att: map<AttendanceKey, AttendanceRow>, userId: int, today: Day, t1: TimeOfDay, t2: TimeOfDay, t3: TimeOfDay)
    requires ValidTime(t1) && ValidTime(t2) && ValidTime(t3)
    requires (userId, today) !in att
    ensures TimeOutOutcome(att, userId, today, t2) == Failure(NoTimeInRecord)
    ensures var i := TimeInOutcome(att, userId, today, t1);
      && i.Success?
      && var att1 := att[(userId, today) := i.value];
         && TimeInOutcome(att1, userId, today, t2) == Failure(AlreadyTimedIn)
         && var o := TimeOutOutcome(att1, userId, today, t2);
            && o.Success? && o.value.totalHours == Some(WorkedHours(t1, t2)) && o.value.status == i.value.status
            && TimeOutOutcome(att1[(userId, today) := o.value], userId, today, t3) == Failure(AlreadyTimedOut)
            && TimeInOutcome(att1[(userId, today) := o.value], userId, today, t3) == Failure(AlreadyTimedIn)
  {
  }

  // ---------------------------------------------------------------- administrative update

  /** The fields of an update request; an absent field keeps the stored value (COALESCE). */
  datatype AttendanceEdit = AttendanceEdit(
    timeIn: Option<TimeOfDay>, timeOut: Option<TimeOfDay>, status: Option<AttendanceStatus>, remarks: Option<string>)

  function Coalesce<T>(given: Option<T>, stored: Option<T>): Option<T>
  {
    if given.Some? then given else stored
  }

  /**
   * update as written: total_hours is recomputed only when both times are given (NULL otherwise,
   * so kept), but overtime_hours starts at 0 rather than NULL, so every other update writes 0.
   */
  function UpdateOutcome(att: map<AttendanceKey, AttendanceRow>, key: AttendanceKey, edit: AttendanceEdit): Result<AttendanceRow, AttendanceError>
  {
    if key !in att then Failure(RecordNotFound)
    else
      var row := att[key];
      var both := edit.timeIn.Some? && edit.timeOut.Some?;
      var totalHours: Option<real> := if both then Some(WorkedHours(edit.timeIn.value, edit.timeOut.value)) else None;
      var overtimeHours: Option<real> := Some(if both then Overtime(totalHours.value) else 0.0);
      Success(AttendanceRow(
        Coalesce(edit.timeIn, row.timeIn), Coalesce(edit.timeOut, row.timeOut),
        Coalesce(totalHours, row.totalHours), Coalesce(overtimeHours, row.overtimeHours),
        row.lateMinutes, if edit.status.Some? then edit.status.value else row.status,
        Coalesce(edit.remarks, row.remarks)))
  }

  /** A remarks-only edit of a 10-hour day wipes its 2 overtime hours. */
  lemma UpdateResetsOvertime()
    ensures var row := AttendanceRow(Some(TimeOfDay(8, 0)), Some(TimeOfDay(18, 0)), Some(10.0), Some(2.0), Some(0), Present, None);
      var out := UpdateOutcome(map[(1, 0) := row], (1, 0), AttendanceEdit(None, None, None, Some("ok")));
      && out.Success?
      && out.value.totalHours == Some(10.0)
      && out.value.overtimeHours == Some(0.0)
  {
  }

  /** update as evidently intended: overtime, like total hours, recomputed from both times or kept. */
  function UpdateOutcomeCorrected(att: map<AttendanceKey, AttendanceRow>, key: AttendanceKey, edit: AttendanceEdit): Result<AttendanceRow, AttendanceError>
  {
    if key !in att then Failure(RecordNotFound)
    else
      var row := att[key];
      var both := edit.timeIn.Some? && edit.timeOut.Some?;
      var totalHours: Option<real> := if both then Some(WorkedHours(edit.timeIn.value, edit.timeOut.value)) else None;
      var overtimeHours: Option<real> := if both then Some(Overtime(totalHours.value)) else None;
      Success(AttendanceRow(
        Coalesce(edit.timeIn, row.timeIn), Coalesce(edit.timeOut, row.timeOut),
        Coalesce(totalHours, row.totalHours), Coalesce(overtimeHours, row.overtimeHours),
        row.lateMinutes, if edit.status.Some? then edit.status.value else row.status,
        Coalesce(edit.remarks, row.remarks)))
  }

  /** The row's hours agree with each other: overtime is the overtime of the total hours. */
  predicate HoursConsistent(row: AttendanceRow)
  {
    row.totalHours.Some? ==> row.overtimeHours == Some(Overtime(row.totalHours.value))
  }

  /**
   * The corrected update keeps a consistent row consistent, leaves the hours alone when the
   * times are not both given, and agrees with the written update when they are.
   */
  lemma UpdateCorrectedKeepsHours(att: map<AttendanceKey, AttendanceRow>, key: AttendanceKey, edit: AttendanceEdit)
    ensures var out := UpdateOutcomeCorrected(att, key, edit);
      && (out.Success? <==> key in att)
      && (key in att && HoursConsistent(att[key]) ==> HoursConsistent(out.value))
      && (key in att && !(edit.timeIn.Some? && edit.timeOut.Some?) ==>
            out.value.totalHours == att[key].totalHours && out.value.overtimeHours == att[key].overtimeHours)
      && (edit.timeIn.Some? && edit.timeOut.Some? ==> out == UpdateOutcome(att, key, edit))
  {
  }

  /** update: the COALESCE update of one row, as written; a missing row is 404 and changes nothing. */
  method Update(db: Database, key: AttendanceKey, edit: AttendanceEdit) returns (r: Result<AttendanceRow, AttendanceError>)
    modifies db`attendance
    ensures r == UpdateOutcome(old(db.attendance), key, edit)
    ensures db.attendance == if r.Success? then old(db.attendance)[key := r.value] else old(db.attendance)
  {
    var totalHours: Option<real> := None;
    var overtimeHours := 0.0;
    if edit.timeIn.Some? && edit.timeOut.Some? {
      var hours := (Minutes(edit.timeOut.value) - Minutes(edit.timeIn.value)) as real / 60.0;
      totalHours := Some(hours);
      if hours > RegularHours {
        overtimeHours := hours - RegularHours;
      }
    }
    if key !in db.attendance {
      return Failure(RecordNotFound);
    }
    var row := db.attendance[key];
    var updated := AttendanceRow(
      Coalesce(edit.timeIn, row.timeIn), Coalesce(edit.timeOut, row.timeOut),
      Coalesce(totalHours, row.totalHours), Coalesce(Some(overtimeHours), row.overtimeHours),
      row.lateMinutes, if edit.status.Some? then edit.status.value else row.status,
      Coalesce(edit.remarks, row.remarks));
    db.attendance := db.attendance[key := updated];
    r := Success(updated);
  }

  // ---------------------------------------------------------------- monthly report

  /** The employee's rows of the month, by ascending date. */
  function MonthRows(att: map<AttendanceKey, AttendanceRow>, userId: int, start: Day, end: Day): seq<AttendanceRow>
    decreases end - start
  {
    if end < start then []
    else MonthRows(att, userId, start, end - 1) + (if (userId, end) in att then [att[(userId, end)]] else [])
  }

  function CountStatus(rows: seq<AttendanceRow>, st: AttendanceStatus): nat
    decreases |rows|
  {
    if rows == [] then 0
    else CountStatus(rows[..|rows| - 1], st) + (if rows[|rows| - 1].status == st then 1 else 0)
  }

  function SumLateMinutes(rows: seq<AttendanceRow>): int
    decreases |rows|
  {
    if rows == [] then 0 else SumLateMinutes(rows[..|rows| - 1]) + rows[|rows| - 1].lateMinutes.GetOr(0)
  }

  function SumHours(rows: seq<AttendanceRow>): real
    decreases |rows|
  {
    if rows == [] then 0.0 else SumHours(rows[..|rows| - 1]) + rows[|rows| - 1].totalHours.GetOr(0.0)
  }

  function SumOvertime(rows: seq<AttendanceRow>): real
    decreases |rows|
  {
    if rows == [] then 0.0 else SumOvertime(rows[..|rows| - 1]) + rows[|rows| - 1].overtimeHours.GetOr(0.0)
  }

  datatype Summary = Summary(totalDays: nat, presentDays: nat, lateDays: nat, absentDays: nat, halfDays: nat,
                             totalHours: real, totalOvertimeHours: real, totalLateMinutes: int)

  /** The summary object: the row count, four status filters, and three sums with NULL read as 0. */
  function Summarize(rows: seq<AttendanceRow>): Summary
  {
    Summary(|rows|, CountStatus(rows, Present), CountStatus(rows, Late), CountStatus(rows, Absent),
            CountStatus(rows, HalfDay), SumHours(rows), SumOvertime(rows), SumLateMinutes(rows))
  }

  /** Each row has one status, so the five status counts add up to the row count. */
  lemma {:induction false} StatusCountsPartition(rows: seq<AttendanceRow>)
    ensures CountStatus(rows, Present) + CountStatus(rows, Late) + CountStatus(rows, Absent)
            + CountStatus(rows, HalfDay) + CountStatus(rows, OnLeave) == |rows|
    decreases |rows|
  {
    if rows != [] {
      StatusCountsPartition(rows[..|rows| - 1]);
    }
  }

  /**
   * The four counts of the summary never exceed the days reported, the rest being on_leave
   * days; a month holds at most one row per calendar day.
   */
  lemma SummaryBounds(att: map<AttendanceKey, AttendanceRow>, userId: int, start: Day, end: Day)
    ensures var s := Summarize(MonthRows(att, userId, start, end));
      && s.presentDays + s.lateDays + s.absentDays + s.halfDays
         == s.totalDays - CountStatus(MonthRows(att, userId, start, end), OnLeave)
      && s.totalDays <= if end < start then 0 else end - start + 1
  {
    StatusCountsPartition(MonthRows(att, userId, start, end));
    MonthRowsBound(att, userId, start, end);
  }

  lemma {:induction false} MonthRowsBound(att: map<AttendanceKey, AttendanceRow>, userId: int, start: Day, end: Day)
    ensures |MonthRows(att, userId, start, end)| <= if end < start then 0 else end - start + 1
    decreases end - start
  {
    if end >= start {
      MonthRowsBound(att, userId, start, end - 1);
    }
  }

  /** The first and last day of a report month. */
  function MonthBounds(year: int, month: int): (Day, Day)
    requires year >= 1 && 1 <= month <= 12
  {
    var first := Civil(year, month, 1);
    (DayNumberOf(first), DayNumberOf(EndOfMonth(first)))
  }

  /** getMonthlyReport: 403 unless admin, hr or the employee; otherwise the month's rows and their summary. */
  function MonthlyReport(caller: Caller, userId: int, att: map<AttendanceKey, AttendanceRow>, year: int, month: int)
    : (r: Result<(seq<AttendanceRow>, Summary), AttendanceError>)
    requires 2020 <= year <= 2100 && 1 <= month <= 12
    ensures r.Failure? <==> !(caller.role == Admin || caller.role == Hr || caller.userId == userId)
    ensures r.Failure? ==> r.error == AccessDenied
    ensures r.Success? ==> r.value.1.totalDays == |r.value.0| <= DaysInMonth(year, month)
  {
    if !AdminHrOrSelf(caller, userId) then Failure(AccessDenied)
    else
      var (first, last) := MonthBounds(year, month);
      MonthBrackets(Civil(year, month, 1));
      MonthRowsBound(att, userId, first, last);
      var rows := MonthRows(att, userId, first, last);
      Success((rows, Summarize(rows)))
  }
}
