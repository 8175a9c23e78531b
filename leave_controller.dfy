/**
 * The leave request life cycle of backend/src/controllers/leaveController.js: filing a request
 * against the year's leave credits, editing it while pending, and approving (credits and
 * attendance), declining or cancelling it.
 */
module LeaveController {
  import opened Basics
  import opened Dates
  import opened Store

  datatype LeaveError =
    | LeaveTypeNotFound
      /** Carries the number of days still available, as the message shows it. */
    | InsufficientCredits(available: int)
    | RequestNotFound
    | NotPending
    | StoreError(code: string)

  // ---------------------------------------------------------------- create

  /** What create decides: the credit row to create (if there was none) and the day count. */
  datatype Filing = Filing(newCredit: Option<LeaveCredit>, totalDays: nat)

  /**
   * create: count the weekdays of the request; with no credit row for the year, initialise one
   * from the leave type's max_days (or fail if the type is unknown); refuse a request longer
   * than the credits available.
   */
  function CreateOutcome(leaveTypes: map<int, int>, credits: map<CreditKey, LeaveCredit>,
                         userId: int, leaveTypeId: int, startDate: Day, endDate: Day, year: int): (r: Result<Filing, LeaveError>)
    ensures r == Failure(LeaveTypeNotFound) <==> (userId, leaveTypeId, year) !in credits && leaveTypeId !in leaveTypes
    ensures r.Success? ==> r.value.totalDays == CountWeekdays(startDate, endDate)
    ensures r.Success? ==> (r.value.newCredit.Some? <==> (userId, leaveTypeId, year) !in credits)
  {
    var days := CountWeekdays(startDate, endDate);
    if (userId, leaveTypeId, year) !in credits then
      if leaveTypeId !in leaveTypes then Failure(LeaveTypeNotFound)
      else
        var maxDays := leaveTypes[leaveTypeId];
        if days > maxDays then Failure(InsufficientCredits(maxDays))
        else Success(Filing(Some(LeaveCredit(maxDays, 0, maxDays)), days))
    else
      var remaining := credits[(userId, leaveTypeId, year)].remainingCredits;
      if days > remaining then Failure(InsufficientCredits(remaining))
      else Success(Filing(None, days))
  }

  /**
   * A filed request never asks for more days than are available (the year's remaining credits,
   * or max_days for a first request), and it is refused exactly when it would.
   */
  lemma CreateRespectsCredits(leaveTypes: map<int, int>, credits: map<CreditKey, LeaveCredit>,
                              userId: int, leaveTypeId: int, startDate: Day, endDate: Day, year: int)
    ensures var key := (userId, leaveTypeId, year);
      var out := CreateOutcome(leaveTypes, credits, userId, leaveTypeId, startDate, endDate, year);
      var days := CountWeekdays(startDate, endDate);
      && (out == Failure(LeaveTypeNotFound) <==> key !in credits && leaveTypeId !in leaveTypes)
      && (key in credits ==>
            (out.Success? <==> days <= credits[key].remainingCredits)
            && (out.Success? ==> out.value == Filing(None, days)))
      && (key !in credits && leaveTypeId in leaveTypes ==>
            (out.Success? <==> days <= leaveTypes[leaveTypeId])
            && (out.Success? ==> out.value.newCredit == Some(LeaveCredit(leaveTypes[leaveTypeId], 0, leaveTypes[leaveTypeId]))))
      && (out.Success? ==> out.value.totalDays == days <= (if key in credits then credits[key].remainingCredits
                                                           else leaveTypes[leaveTypeId]))
  {
  }

  /**
   * create: inside one transaction, the lazily created credit row and the pending request; a
   * refusal rolls back, the new credit row included.
   */
  method Create(db: Database, userId: int, leaveTypeId: int, startDate: Day, endDate: Day,
                reason: Option<string>, year: int) returns (r: Result<int, LeaveError>)
    requires db.Valid()
    modifies db`leaveCredits, db`leaveRequests, db`nextLeaveId
    ensures db.Valid()
    ensures match CreateOutcome(old(db.leaveTypes), old(db.leaveCredits), userId, leaveTypeId, startDate, endDate, year)
      case Failure(e) =>
        && r == Failure(e)
        && db.leaveCredits == old(db.leaveCredits)
        && db.leaveRequests == old(db.leaveRequests)
        && db.nextLeaveId == old(db.nextLeaveId)
      case Success(f) =>
        var id := old(db.nextLeaveId);
        && r == Success(id)
        && db.leaveCredits == (if f.newCredit.Some? then old(db.leaveCredits)[(userId, leaveTypeId, year) := f.newCredit.value]
                               else old(db.leaveCredits))
        && db.leaveRequests == old(db.leaveRequests)[id :=
             LeaveRequest(userId, leaveTypeId, startDate, endDate, f.totalDays, reason, Pending, None, None)]
        && db.nextLeaveId == id + 1
  {
    var totalDays := WeekdayCount(startDate, endDate);
    var key := (userId, leaveTypeId, year);
    var credits := db.leaveCredits;
    if key !in credits {
      if leaveTypeId !in db.leaveTypes {
        return Failure(LeaveTypeNotFound);   // ROLLBACK
      }
      var maxDays := db.leaveTypes[leaveTypeId];
      credits := credits[key := LeaveCredit(maxDays, 0, maxDays)];
      if totalDays > maxDays {
        return Failure(InsufficientCredits(maxDays));   // ROLLBACK drops the new credit row
      }
    } else {
      var remaining := credits[key].remainingCredits;
      if totalDays > remaining {
        return Failure(InsufficientCredits(remaining));   // ROLLBACK
      }
    }
    var id := db.nextLeaveId;
    // COMMIT
    db.leaveCredits := credits;
    db.leaveRequests := db.leaveRequests[id := LeaveRequest(userId, leaveTypeId, startDate, endDate, totalDays, reason, Pending, None, None)];
    db.nextLeaveId := id + 1;
    r := Success(id);
  }

  // ---------------------------------------------------------------- update

  /**
   * update as written: only the caller's own pending request; the day count is recomputed when
   * both dates are given and otherwise kept, while each date given alone still replaces the
   * stored one (COALESCE).
   */
  function UpdateOutcome(requests: map<int, LeaveRequest>, callerId: int, id: int,
                         startDate: Option<Day>, endDate: Option<Day>, reason: Option<string>): Result<LeaveRequest, LeaveError>
  {
    if id !in requests || requests[id].userId != callerId then Failure(RequestNotFound)
    else
      var leave := requests[id];
      if leave.status != Pending then Failure(NotPending)
      else
        var totalDays := if startDate.Some? && endDate.Some? then CountWeekdays(startDate.value, endDate.value)
                         else leave.totalDays;
        Success(leave.(startDate := startDate.GetOr(leave.startDate), endDate := endDate.GetOr(leave.endDate),
                       totalDays := totalDays, reason := if reason.Some? then reason else leave.reason))
  }

  /** A request whose day count is the number of weekdays between its stored dates. */
  predicate DaysConsistent(leave: LeaveRequest)
  {
    leave.totalDays == CountWeekdays(leave.startDate, leave.endDate)
  }

  /**
   * update succeeds only on the caller's own pending request, keeps it pending and its owner and
   * type, and counts the weekdays afresh whenever both dates are given.
   */
  lemma UpdateGuards(requests: map<int, LeaveRequest>, callerId: int, id: int,
                     startDate: Option<Day>, endDate: Option<Day>, reason: Option<string>)
    ensures var out := UpdateOutcome(requests, callerId, id, startDate, endDate, reason);
      && (out.Success? <==> id in requests && requests[id].userId == callerId && requests[id].status == Pending)
      && (out.Success? ==>
            && out.value.status == Pending && out.value.userId == callerId
            && out.value.leaveTypeId == requests[id].leaveTypeId
            && (startDate.Some? && endDate.Some? ==> DaysConsistent(out.value))
            && (startDate.None? && endDate.None? ==> out.value.totalDays == requests[id].totalDays))
  {
  }

  /** Changing only the start date leaves the day count of the old dates: 2025-01-06 .. 01-10, moved to start 01-08. */
  lemma UpdateOneDateIsStale()
    ensures var mon := DayNumberOf(Civil(2025, 1, 6));
      var leave := LeaveRequest(7, 1, mon, mon + 4, 5, None, Pending, None, None);
      && DaysConsistent(leave)
      && var out := UpdateOutcome(map[1 := leave], 7, 1, Some(mon + 2), None, None);
         out.Success? && !DaysConsistent(out.value)
  {
    var mon := DayNumberOf(Civil(2025, 1, 6));
    SecondWeekOf2025(mon);
  }

  /** 2025-01-06 is a Monday: that week has five weekdays, and three from its Wednesday on. */
  lemma SecondWeekOf2025(mon: Day)
    requires mon == DayNumberOf(Civil(2025, 1, 6))
    ensures CountWeekdays(mon, mon + 4) == 5 && CountWeekdays(mon + 2, mon + 4) == 3
  {
    NewYear2025IsWednesday();
    assert mon == DayNumberOf(Civil(2025, 1, 1)) + 5;
    WeekdayShift(DayNumberOf(Civil(2025, 1, 1)), 5);
    MondayToFriday(mon);
  }

  /** Monday to Friday counts five weekdays, Wednesday to Friday three. */
  lemma MondayToFriday(mon: Day)
    requires Weekday(mon) == 1
    ensures CountWeekdays(mon, mon + 4) == 5 && CountWeekdays(mon + 2, mon + 4) == 3
  {
    WeekHasFiveWeekdays(mon);
    WeekdayShift(mon, 4);
    assert CountWeekdays(mon, mon + 4) == 5 by {
      CountWeekdaysSplit(mon, mon + 4, mon + 6);
      WeekdayShift(mon, 5);
      WeekdayShift(mon, 6);
      assert CountWeekdays(mon + 5, mon + 6) == 0 by {
        assert CountWeekdays(mon + 5, mon + 5) == 0;
      }
    }
    assert CountWeekdays(mon + 2, mon + 4) == 3 by {
      WeekdayShift(mon, 2);
      WeekdayShift(mon, 3);
      assert CountWeekdays(mon + 2, mon + 2) == 1;
      assert CountWeekdays(mon + 2, mon + 3) == 2;
    }
  }

  /** update as evidently intended: recount the weekdays of the dates the row ends up with. */
  function UpdateOutcomeCorrected(requests: map<int, LeaveRequest>, callerId: int, id: int,
                                  startDate: Option<Day>, endDate: Option<Day>, reason: Option<string>): Result<LeaveRequest, LeaveError>
  {
    if id !in requests || requests[id].userId != callerId then Failure(RequestNotFound)
    else
      var leave := requests[id];
      if leave.status != Pending then Failure(NotPending)
      else
        var s := startDate.GetOr(leave.startDate);
        var e := endDate.GetOr(leave.endDate);
        Success(leave.(startDate := s, endDate := e, totalDays := CountWeekdays(s, e),
                       reason := if reason.Some? then reason else leave.reason))
  }

  /** The corrected update keeps every request's day count in step with its dates, and agrees with the written one when both dates are given. */
  lemma UpdateCorrectedKeepsDays(requests: map<int, LeaveRequest>, callerId: int, id: int,
                                 startDate: Option<Day>, endDate: Option<Day>, reason: Option<string>)
    ensures var out := UpdateOutcomeCorrected(requests, callerId, id, startDate, endDate, reason);
      && (out.Success? ==> DaysConsistent(out.value))
      && (out.Success? <==> UpdateOutcome(requests, callerId, id, startDate, endDate, reason).Success?)
      && (startDate.Some? && endDate.Some? ==> out == UpdateOutcome(requests, callerId, id, startDate, endDate, reason))
  {
  }

  /** update: the guarded COALESCE update of the request, as written. */
  method Update(db: Database, callerId: int, id: int, startDate: Option<Day>, endDate: Option<Day>,
                reason: Option<string>) returns (r: Result<LeaveRequest, LeaveError>)
    requires db.Valid()
    modifies db`leaveRequests
    ensures db.Valid()
    ensures r == UpdateOutcome(old(db.leaveRequests), callerId, id, startDate, endDate, reason)
    ensures r.Success? ==> db.leaveRequests == old(db.leaveRequests)[id := r.value]
    ensures r.Failure? ==> db.leaveRequests == old(db.leaveRequests)
  {
    if id !in db.leaveRequests || db.leaveRequests[id].userId != callerId {
      return Failure(RequestNotFound);
    }
    var leave := db.leaveRequests[id];
    if leave.status != Pending {
      return Failure(NotPending);
    }
    var totalDays := leave.totalDays;
    if startDate.Some? && endDate.Some? {
      totalDays := WeekdayCount(startDate.value, endDate.value);
    }
    var updated := leave.(startDate := startDate.GetOr(leave.startDate), endDate := endDate.GetOr(leave.endDate),
                          totalDays := totalDays, reason := if reason.Some? then reason else leave.reason);
    db.leaveRequests := db.leaveRequests[id := updated];
    r := Success(updated);
  }

  // ---------------------------------------------------------------- approve

  /** `INSERT ... VALUES (user, date, 'on_leave') ON CONFLICT (user_id, date) DO UPDATE SET status = 'on_leave'`. */
  function UpsertOnLeave(att: map<AttendanceKey, AttendanceRow>, userId: int, d: Day): map<AttendanceKey, AttendanceRow>
  {
    if (userId, d) in att then att[(userId, d) := att[(userId, d)].(status := OnLeave)]
    else att[(userId, d) := AttendanceRow(None, None, None, None, None, OnLeave, None)]
  }

  /** The attendance table after the approval loop has reached `end`: an upsert on each weekday. */
  function MarkOnLeave(att: map<AttendanceKey, AttendanceRow>, userId: int, start: Day, end: Day): map<AttendanceKey, AttendanceRow>
    decreases end - start
  {
    if end < start then att
    else
      var before := MarkOnLeave(att, userId, start, end - 1);
      if IsWeekend(end) then before else UpsertOnLeave(before, userId, end)
  }

  /**
   * After approval each weekday of the leave has an on_leave row for the employee (an existing
   * row keeps its other columns), and every other row, weekends included, is untouched.
   */
  lemma {:induction false} MarkOnLeaveExactly(att: map<AttendanceKey, AttendanceRow>, userId: int, start: Day, end: Day)
    ensures var m := MarkOnLeave(att, userId, start, end);
      && (forall k :: k in att ==> k in m)
      && (forall k :: k in m ==> k in att || (k.0 == userId && start <= k.1 <= end && !IsWeekend(k.1)))
      && (forall k :: k in m && (k.0 != userId || k.1 < start || k.1 > end || IsWeekend(k.1)) ==> m[k] == att[k])
      && (forall d :: start <= d <= end && !IsWeekend(d) ==>
            (userId, d) in m
            && m[(userId, d)] == if (userId, d) in att then att[(userId, d)].(status := OnLeave)
                                 else AttendanceRow(None, None, None, None, None, OnLeave, None))
    decreases end - start
  {
    if end >= start {
      MarkOnLeaveExactly(att, userId, start, end - 1);
    }
  }

  /** What approve leaves behind: the request, the credit table and the attendance table. */
  datatype Approval = Approval(leave: LeaveRequest, credits: map<CreditKey, LeaveCredit>,
                               attendance: map<AttendanceKey, AttendanceRow>)

  /** The credit row of the request's user, type and the current year, with the days moved from remaining to used. */
  function DeductCredits(credits: map<CreditKey, LeaveCredit>, leave: LeaveRequest, year: int): map<CreditKey, LeaveCredit>
  {
    var key := (leave.userId, leave.leaveTypeId, year);
    if key in credits then
      credits[key := credits[key].(usedCredits := credits[key].usedCredits + leave.totalDays,
                                   remainingCredits := credits[key].remainingCredits - leave.totalDays)]
    else credits
  }

  /**
   * approve: only a pending request; mark it approved by the reviewer, move its days from
   * remaining to used credits, and put the employee on leave on each weekday. The writes are the
   * request update (0), the credit update (1), then one upsert per weekday (2, 3, ...).
   */
  function ApproveOutcome(requests: map<int, LeaveRequest>, credits: map<CreditKey, LeaveCredit>,
                          att: map<AttendanceKey, AttendanceRow>, id: int, reviewerId: int,
                          remarks: Option<string>, year: int, fault: StoreFault): (r: Result<Approval, LeaveError>)
    ensures r == Failure(RequestNotFound) <==> id !in requests || requests[id].status != Pending
    ensures fault == NoFault ==> (r.Success? <==> id in requests && requests[id].status == Pending)
    ensures r.Success? ==> && r.value.leave.status == LeaveStatus.Approved && r.value.leave.reviewedBy == Some(reviewerId)
                           && r.value.leave.totalDays == requests[id].totalDays
                           && r.value.leave.userId == requests[id].userId
  {
    if id !in requests || requests[id].status != Pending then Failure(RequestNotFound)
    else
      var leave := requests[id];
      if FaultHits(fault, 2 + CountWeekdays(leave.startDate, leave.endDate)) then Failure(StoreError(fault.code))
      else
        Success(Approval(
          leave.(status := LeaveStatus.Approved, reviewedBy := Some(reviewerId), reviewRemarks := remarks),
          DeductCredits(credits, leave, year),
          MarkOnLeave(att, leave.userId, leave.startDate, leave.endDate)))
  }

  /**
   * Approval moves the request's days from remaining to used, so used + remaining (and the total)
   * is preserved; without a credit row for the year nothing is deducted.
   */
  lemma ApproveKeepsCreditSum(credits: map<CreditKey, LeaveCredit>, leave: LeaveRequest, year: int)
    ensures var key := (leave.userId, leave.leaveTypeId, year);
      var after := DeductCredits(credits, leave, year);
      && after.Keys == credits.Keys
      && (forall k :: k in credits && k != key ==> after[k] == credits[k])
      && (key in credits ==>
            && after[key].usedCredits + after[key].remainingCredits == credits[key].usedCredits + credits[key].remainingCredits
            && after[key].remainingCredits == credits[key].remainingCredits - leave.totalDays
            && after[key].totalCredits == credits[key].totalCredits)
  {
  }

  method Approve(db: Database, id: int, reviewerId: int, remarks: Option<string>, year: int, fault: StoreFault)
    returns (r: Result<LeaveRequest, LeaveError>)
    requires db.Valid()
    modifies db`leaveRequests, db`leaveCredits, db`attendance
    ensures db.Valid()
    ensures match ApproveOutcome(old(db.leaveRequests), old(db.leaveCredits), old(db.attendance), id, reviewerId, remarks, year, fault)
      case Failure(e) =>
        && r == Failure(e)
        && db.leaveRequests == old(db.leaveRequests)
        && db.leaveCredits == old(db.leaveCredits)
        && db.attendance == old(db.attendance)
      case Success(a) =>
        && r == Success(a.leave)
        && db.leaveRequests == old(db.leaveRequests)[id := a.leave]
        && db.leaveCredits == a.credits
        && db.attendance == a.attendance
  {
    if id !in db.leaveRequests || db.leaveRequests[id].status != Pending {
      return Failure(RequestNotFound);   // ROLLBACK
    }
    var leave := db.leaveRequests[id];
    if FaultHits(fault, 2) {
      return Failure(StoreError(fault.code));   // ROLLBACK
    }
    var approved := leave.(status := LeaveStatus.Approved, reviewedBy := Some(reviewerId), reviewRemarks := remarks);
    var credits := DeductCredits(db.leaveCredits, leave, year);
    var att := db.attendance;
    var date := leave.startDate;
    var writes := 2;
    while date <= leave.endDate
      invariant leave.startDate <= date && (date <= leave.endDate + 1 || date == leave.startDate)
      invariant att == MarkOnLeave(db.attendance, leave.userId, leave.startDate, date - 1)
      invariant writes == 2 + CountWeekdays(leave.startDate, date - 1)
      invariant !FaultHits(fault, writes)
      invariant unchanged(db)
      decreases leave.endDate - date
    {
      if !IsWeekend(date) {
        CountWeekdaysSplit(leave.startDate, date, leave.endDate);
        if FaultHits(fault, writes + 1) {
          return Failure(StoreError(fault.code));   // ROLLBACK
        }
        att := UpsertOnLeave(att, leave.userId, date);
        writes := writes + 1;
      }
      date := date + 1;
    }
    assert date == leave.endDate + 1 || leave.endDate < leave.startDate;
    // COMMIT
    db.leaveRequests := db.leaveRequests[id := approved];
    db.leaveCredits := credits;
    db.attendance := att;
    r := Success(approved);
  }

  // ---------------------------------------------------------------- decline, cancel, credits

  /** decline: `... WHERE id = $4 AND status = 'pending'`, by any reviewer. */
  function DeclineOutcome(requests: map<int, LeaveRequest>, id: int, reviewerId: int, remarks: Option<string>): Option<LeaveRequest>
  {
    if id in requests && requests[id].status == Pending then
      Some(requests[id].(status := Declined, reviewedBy := Some(reviewerId), reviewRemarks := remarks))
    else None
  }

  /** cancel: `... WHERE id = $2 AND user_id = $3 AND status = 'pending'`, only by the requester. */
  function CancelOutcome(requests: map<int, LeaveRequest>, id: int, callerId: int): Option<LeaveRequest>
  {
    if id in requests && requests[id].userId == callerId && requests[id].status == Pending then
      Some(requests[id].(status := LeaveStatus.Cancelled))
    else None
  }

  /**
   * Pending is the only state a request leaves: approve, decline and cancel each apply exactly
   * to a pending request (cancel only to the requester's own), each moves it to its final
   * status, and after any of them none of the three applies any more.
   */
  lemma LifeCycle(requests: map<int, LeaveRequest>, id: int, reviewerId: int, callerId: int,
                  remarks: Option<string>, year: int)
    ensures ApproveOutcome(requests, map[], map[], id, reviewerId, remarks, year, NoFault).Success?
            <==> id in requests && requests[id].status == Pending
    ensures DeclineOutcome(requests, id, reviewerId, remarks).Some? <==> id in requests && requests[id].status == Pending
    ensures CancelOutcome(requests, id, callerId).Some?
            <==> id in requests && requests[id].status == Pending && requests[id].userId == callerId
    ensures var a := ApproveOutcome(requests, map[], map[], id, reviewerId, remarks, year, NoFault);
      a.Success? ==> a.value.leave.status == LeaveStatus.Approved && Final(requests[id := a.value.leave], id, reviewerId, callerId, remarks, year)
    ensures var d := DeclineOutcome(requests, id, reviewerId, remarks);
      d.Some? ==> d.value.status == Declined && Final(requests[id := d.value], id, reviewerId, callerId, remarks, year)
    ensures var c := CancelOutcome(requests, id, callerId);
      c.Some? ==> c.value.status == LeaveStatus.Cancelled && Final(requests[id := c.value], id, reviewerId, callerId, remarks, year)
  {
  }

  /** None of approve, decline and cancel applies to request `id` any more. */
  predicate Final(requests: map<int, LeaveRequest>, id: int, reviewerId: int, callerId: int, remarks: Option<string>, year: int)
  {
    && ApproveOutcome(requests, map[], map[], id, reviewerId, remarks, year, NoFault).Failure?
    && DeclineOutcome(requests, id, reviewerId, remarks).None?
    && CancelOutcome(requests, id, callerId).None?
  }

  method Decline(db: Database, id: int, reviewerId: int, remarks: Option<string>) returns (r: Option<LeaveRequest>)
    requires db.Valid()
    modifies db`leaveRequests
    ensures db.Valid()
    ensures r == DeclineOutcome(old(db.leaveRequests), id, reviewerId, remarks)
    ensures db.leaveRequests == if r.Some? then old(db.leaveRequests)[id := r.value] else old(db.leaveRequests)
  {
    if id in db.leaveRequests && db.leaveRequests[id].status == Pending {
      var declined := db.leaveRequests[id].(status := Declined, reviewedBy := Some(reviewerId), reviewRemarks := remarks);
      db.leaveRequests := db.leaveRequests[id := declined];
      r := Some(declined);
    } else {
      r := None;
    }
  }

  method Cancel(db: Database, id: int, callerId: int) returns (r: Option<LeaveRequest>)
    requires db.Valid()
    modifies db`leaveRequests
    ensures db.Valid()
    ensures r == CancelOutcome(old(db.leaveRequests), id, callerId)
    ensures db.leaveRequests == if r.Some? then old(db.leaveRequests)[id := r.value] else old(db.leaveRequests)
  {
    if id in db.leaveRequests && db.leaveRequests[id].userId == callerId && db.leaveRequests[id].status == Pending {
      var cancelled := db.leaveRequests[id].(status := LeaveStatus.Cancelled);
      db.leaveRequests := db.leaveRequests[id := cancelled];
      r := Some(cancelled);
    } else {
      r := None;
    }
  }

  /** getLeaveCredits: the year's credit rows of the user, or None (403) for a caller who is neither admin, hr nor that user. */
  function LeaveCredits(caller: Caller, userId: int, credits: map<CreditKey, LeaveCredit>, year: int): (r: Option<map<int, LeaveCredit>>)
    ensures r.Some? <==> caller.role == Admin || caller.role == Hr || caller.userId == userId
    ensures r.Some? ==> forall t :: t in r.value <==> (userId, t, year) in credits
    ensures r.Some? ==> forall t :: t in r.value ==> r.value[t] == credits[(userId, t, year)]
  {
    if !AdminHrOrSelf(caller, userId) then None
    else Some(map k | k in credits && k.0 == userId && k.2 == year :: k.1 := credits[k])
  }
}
