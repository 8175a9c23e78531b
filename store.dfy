/**
 * The relational store the controllers work on, as one object whose fields are the tables.
 * Each BEGIN ... COMMIT / ROLLBACK block of the source becomes a method that computes its
 * writes first and assigns the fields only when every write has succeeded.
 */
module Store {
  import opened Basics
  import opened Dates

  /**
   * A column value of the users table: NULL, a number, or text. node-postgres hands NUMERIC
   * columns such as basic_salary over as text, and a form sends its fields as text too.
   */
  datatype Value = Null | Num(n: real) | Str(s: string)

  /** A users row: column name to value. */
  type UserRow = map<string, Value>

  datatype Role = Admin | Hr | Employee

  /** The authenticated caller (req.user) as the auth middleware resolves it. */
  datatype Caller = Caller(userId: int, role: Role)

  /**
   * The check `role !== 'admin' && role !== 'hr' && userId !== parseInt(id)` answers 403;
   * this is its complement: admin and hr may act on anyone, everyone else only on themself.
   */
  predicate AdminHrOrSelf(caller: Caller, targetId: int)
  {
    caller.role == Admin || caller.role == Hr || caller.userId == targetId
  }

  // ---------------------------------------------------------------- attendance

  /** A TIME column value: hours and minutes of the day. */
  datatype TimeOfDay = TimeOfDay(hour: int, minute: int)

  datatype AttendanceStatus = Present | Absent | Late | HalfDay | OnLeave

  /** An attendance row; the nullable columns are Options. */
  datatype AttendanceRow = AttendanceRow(
    timeIn: Option<TimeOfDay>,
    timeOut: Option<TimeOfDay>,
    totalHours: Option<real>,
    overtimeHours: Option<real>,
    lateMinutes: Option<int>,
    status: AttendanceStatus,
    remarks: Option<string>)

  /** Attendance rows are unique per (user id, date). */
  type AttendanceKey = (int, Day)

  // ---------------------------------------------------------------- payroll

  /** The `type` column of allowances and deductions; any other text is OtherType. */
  datatype RuleType = Fixed | Percentage | OtherType

  /** A row of the allowances or the deductions table. */
  datatype Rule = Rule(name: string, ruleType: RuleType, amount: real, percentage: real, isActive: bool)

  datatype PayrollStatus = Draft | PendingApproval | Approved | Processed | Cancelled

  datatype PayrollRecord = PayrollRecord(
    userId: int,
    periodStart: Day,
    periodEnd: Day,
    basicSalary: real,
    totalHoursWorked: real,
    overtimePay: real,
    totalAllowances: real,
    totalDeductions: real,
    grossPay: real,
    netPay: real,
    status: PayrollStatus,
    approvedBy: Option<int>,
    approvedAt: Option<Day>)

  datatype ItemType = AllowanceItem | OvertimeItem | DeductionItem

  /** One named amount of a payslip's breakdown. */
  datatype LineItem = LineItem(itemType: ItemType, name: string, amount: real)

  /** A payroll_details row. */
  datatype DetailRow = DetailRow(payrollId: int, item: LineItem)

  // ---------------------------------------------------------------- leave

  datatype LeaveStatus = Pending | Approved | Declined | Cancelled

  datatype LeaveRequest = LeaveRequest(
    userId: int,
    leaveTypeId: int,
    startDate: Day,
    endDate: Day,
    totalDays: int,
    reason: Option<string>,
    status: LeaveStatus,
    reviewedBy: Option<int>,
    reviewRemarks: Option<string>)

  datatype LeaveCredit = LeaveCredit(totalCredits: int, usedCredits: int, remainingCredits: int)

  /** leave_credits rows are unique per (user id, leave type id, year). */
  type CreditKey = (int, int, int)

  /** A store operation the database rejects (a constraint violation, a lost connection, ...). */
  datatype StoreFault = NoFault | RejectWrite(index: nat, code: string)

  /** Whether the fault strikes one of the first `writes` writes of a transaction. */
  predicate FaultHits(fault: StoreFault, writes: nat)
  {
    fault.RejectWrite? && fault.index < writes
  }

  class Database {
    var users: map<int, UserRow>
    var attendance: map<AttendanceKey, AttendanceRow>
    var allowances: seq<Rule>
    var deductions: seq<Rule>
    var payrolls: map<int, PayrollRecord>
    var payrollDetails: seq<DetailRow>
    var nextPayrollId: int
    /** leave_types: id to max_days. */
    var leaveTypes: map<int, int>
    var leaveCredits: map<CreditKey, LeaveCredit>
    var leaveRequests: map<int, LeaveRequest>
    var nextLeaveId: int

    /** Serial ids are above every id in use, and every detail row has its payroll. */
    ghost predicate Valid()
      reads this
    {
      && (forall id :: id in payrolls ==> id < nextPayrollId)
      && (forall k :: 0 <= k < |payrollDetails| ==> payrollDetails[k].payrollId in payrolls)
      && (forall id :: id in leaveRequests ==> id < nextLeaveId)
    }

    constructor ()
      ensures Valid()
      ensures users == map[] && attendance == map[] && allowances == [] && deductions == []
      ensures payrolls == map[] && payrollDetails == [] && nextPayrollId == 1
      ensures leaveTypes == map[] && leaveCredits == map[] && leaveRequests == map[] && nextLeaveId == 1
    {
      users := map[];
      attendance := map[];
      allowances := [];
      deductions := [];
      payrolls := map[];
      payrollDetails := [];
      nextPayrollId := 1;
      leaveTypes := map[];
      leaveCredits := map[];
      leaveRequests := map[];
      nextLeaveId := 1;
    }
  }
}
