/**
 * The payroll calculation of backend/src/services/payrollService.js: for one employee and one
 * pay period, the rates, overtime, attendance deductions, configured allowances and deductions
 * (the withholding tax among them), gross and net pay, the ordered line items, and their
 * all-or-nothing insertion.
 */
module PayrollService {
  import opened Basics
  import opened Dates
  import opened Store
  import opened Text
  import Tax

  const HoursPerDay: real := 8.0
  const OvertimeMultiplier: real := 1.5
  /** The deduction whose amount is the withholding tax on gross pay, whatever its type. */
  const WithholdingTaxName: string := "Withholding Tax"

  // ---------------------------------------------------------------- working days

  /** The working-day count used as the divisor: the weekdays of the period, at least 1. */
  function WorkingDays(start: Day, end: Day): int
  {
    var n := CountWeekdays(start, end);
    if n > 0 then n else 1
  }

  /** calculateWorkingDays: count the weekdays of the period, then floor the count at 1. */
  method CalculateWorkingDays(start: Day, end: Day) returns (workingDays: int)
    ensures workingDays == WorkingDays(start, end)
    ensures workingDays >= 1
    ensures workingDays == 1 || workingDays == CountWeekdays(start, end)
    ensures end - start >= 2 ==> workingDays == CountWeekdays(start, end)
  {
    var count := WeekdayCount(start, end);
    NoWeekdayMeansWeekend(start, end);
    workingDays := if count > 0 then count else 1;
  }

  // ---------------------------------------------------------------- attendance aggregate

  /** The SUM / COUNT aggregate over an employee's attendance rows of the period. */
  datatype AttendanceTotals = AttendanceTotals(
    totalHours: real, overtimeHours: real, lateMinutes: int, absentDays: nat, halfDays: nat)

  const NoAttendance := AttendanceTotals(0.0, 0.0, 0, 0, 0)

  /** What one day's row (if any) adds; NULL columns add nothing, as SUM skips them. */
  function DayTotals(att: map<AttendanceKey, AttendanceRow>, userId: int, d: Day): AttendanceTotals
  {
    if (userId, d) !in att then NoAttendance
    else
      var row := att[(userId, d)];
      AttendanceTotals(
        row.totalHours.GetOr(0.0),
        row.overtimeHours.GetOr(0.0),
        row.lateMinutes.GetOr(0),
        if row.status == Absent then 1 else 0,
        if row.status == HalfDay then 1 else 0)
  }

  function AddTotals(a: AttendanceTotals, b: AttendanceTotals): AttendanceTotals
  {
    AttendanceTotals(a.totalHours + b.totalHours, a.overtimeHours + b.overtimeHours,
      a.lateMinutes + b.lateMinutes, a.absentDays + b.absentDays, a.halfDays + b.halfDays)
  }

  /**
   * The aggregate over `date BETWEEN start AND end`: since rows are unique per (user, date),
   * summing the rows of the period is summing day by day.
   */
  function PeriodTotals(att: map<AttendanceKey, AttendanceRow>, userId: int, start: Day, end: Day): AttendanceTotals
    decreases end - start
  {
    if end < start then NoAttendance
    else AddTotals(PeriodTotals(att, userId, start, end - 1), DayTotals(att, userId, end))
  }

  /** Missing attendance rows contribute zero, not a failure (COALESCE of an empty SUM). */
  lemma {:induction false} NoRowsNoTotals(att: map<AttendanceKey, AttendanceRow>, userId: int, start: Day, end: Day)
    requires forall d :: start <= d <= end ==> (userId, d) !in att
    ensures PeriodTotals(att, userId, start, end) == NoAttendance
    decreases end - start
  {
    if end >= start {
      NoRowsNoTotals(att, userId, start, end - 1);
      assert (userId, end) !in att;
      assert DayTotals(att, userId, end) == NoAttendance;
    }
  }

  /** Absent and half days together are never more than the days of the period. */
  lemma {:induction false} CountedDaysBound(att: map<AttendanceKey, AttendanceRow>, userId: int, start: Day, end: Day)
    ensures var t := PeriodTotals(att, userId, start, end);
      t.absentDays + t.halfDays <= if end < start then 0 else end - start + 1
    decreases end - start
  {
    if end >= start {
      CountedDaysBound(att, userId, start, end - 1);
    }
  }

  // ---------------------------------------------------------------- allowances and deductions

  datatype RuleTable = AllowanceTable | DeductionTable

  /**
   * One rule's amount: the fixed amount, or the percentage of the basic salary, or 0 for an
   * unknown type; a deduction named "Withholding Tax" is the tax on gross pay instead.
   */
  function RuleAmount(table: RuleTable, rule: Rule, basicSalary: real, grossPay: real): real
  {
    if table == DeductionTable && rule.name == WithholdingTaxName then Tax.WithholdingTax(grossPay)
    else match rule.ruleType
      case Fixed => rule.amount
      case Percentage => (rule.percentage / 100.0) * basicSalary
      case OtherType => 0.0
  }

  /** `SELECT * FROM ... WHERE is_active = true`, in table order. */
  function ActiveRules(rules: seq<Rule>): (active: seq<Rule>)
    ensures |active| <= |rules|
    ensures forall r :: r in active ==> r in rules && r.isActive
    ensures forall r :: r in rules && r.isActive ==> r in active
    decreases |rules|
  {
    if rules == [] then []
    else
      var rest := ActiveRules(rules[..|rules| - 1]);
      var last := rules[|rules| - 1];
      assert forall r :: r in rules ==> r in rules[..|rules| - 1] || r == last;
      if last.isActive then rest + [last] else rest
  }

  /** The running total the loop accumulates over the rules. */
  function RulesTotal(table: RuleTable, rules: seq<Rule>, basicSalary: real, grossPay: real): real
    decreases |rules|
  {
    if rules == [] then 0.0
    else RulesTotal(table, rules[..|rules| - 1], basicSalary, grossPay)
         + RuleAmount(table, rules[|rules| - 1], basicSalary, grossPay)
  }

  function ItemTypeOf(table: RuleTable): ItemType
  {
    if table == AllowanceTable then AllowanceItem else DeductionItem
  }

  /** The detail list the loop builds: one item per rule whose amount is above zero, in rule order. */
  function RuleItems(table: RuleTable, rules: seq<Rule>, basicSalary: real, grossPay: real): seq<LineItem>
    decreases |rules|
  {
    if rules == [] then []
    else
      var r := rules[|rules| - 1];
      var amount := RuleAmount(table, r, basicSalary, grossPay);
      RuleItems(table, rules[..|rules| - 1], basicSalary, grossPay)
        + (if amount > 0.0 then [LineItem(ItemTypeOf(table), r.name, amount)] else [])
  }

  /** The attendance deductions, each listed only when above zero: Absence, Half Day, Late. */
  function AttendanceItems(absence: real, halfDay: real, late: real): seq<LineItem>
  {
    (if absence > 0.0 then [LineItem(DeductionItem, "Absence", absence)] else [])
    + (if halfDay > 0.0 then [LineItem(DeductionItem, "Half Day", halfDay)] else [])
    + (if late > 0.0 then [LineItem(DeductionItem, "Late", late)] else [])
  }

  function OvertimeItems(overtimePay: real): seq<LineItem>
  {
    if overtimePay > 0.0 then [LineItem(OvertimeItem, "Overtime Pay", overtimePay)] else []
  }

  // ---------------------------------------------------------------- the payslip

  /** The rates and attendance deductions derived from the salary and the aggregate. */
  datatype Rates = Rates(dailyRate: real, hourlyRate: real, overtimePay: real,
                         absence: real, halfDay: real, late: real)

  function ComputeRates(basicSalary: real, workingDays: int, t: AttendanceTotals): Rates
    requires workingDays >= 1
  {
    var dailyRate := basicSalary / workingDays as real;
    var hourlyRate := dailyRate / HoursPerDay;
    Rates(dailyRate, hourlyRate,
      t.overtimeHours * hourlyRate * OvertimeMultiplier,
      t.absentDays as real * dailyRate,
      t.halfDays as real * (dailyRate / 2.0),
      (t.lateMinutes as real / 60.0) * hourlyRate)
  }

  datatype Payslip = Payslip(
    basicSalary: real,
    workingDays: int,
    dailyRate: real,
    hourlyRate: real,
    totalHours: real,
    overtimePay: real,
    absenceDeduction: real,
    halfDayDeduction: real,
    lateDeduction: real,
    totalAllowances: real,
    grossPay: real,
    totalDeductions: real,
    netPay: real,
    allowanceItems: seq<LineItem>,
    deductionItems: seq<LineItem>)

  /** Every figure of the payslip, from the salary, the working days, the attendance and the rules. */
  function ComputePayslip(basicSalary: real, workingDays: int, t: AttendanceTotals,
                          allowances: seq<Rule>, deductions: seq<Rule>): (p: Payslip)
    requires workingDays >= 1
    ensures p.basicSalary == basicSalary && p.workingDays == workingDays
    ensures p.grossPay == basicSalary + p.overtimePay + p.totalAllowances
    ensures p.netPay == p.grossPay - p.totalDeductions
  {
    Assemble(basicSalary, workingDays, t, ComputeRates(basicSalary, workingDays, t), allowances, deductions)
  }

  /** The payslip around given rates: allowances, gross pay, deductions, net pay and the item lists. */
  function Assemble(basicSalary: real, workingDays: int, t: AttendanceTotals, rt: Rates,
                    allowances: seq<Rule>, deductions: seq<Rule>): Payslip
  {
    var totalAllowances := RulesTotal(AllowanceTable, allowances, basicSalary, 0.0);
    var grossPay := basicSalary + rt.overtimePay + totalAllowances;
    var totalDeductions := rt.absence + rt.halfDay + rt.late
                           + RulesTotal(DeductionTable, deductions, basicSalary, grossPay);
    Payslip(basicSalary, workingDays, rt.dailyRate, rt.hourlyRate, t.totalHours, rt.overtimePay,
      rt.absence, rt.halfDay, rt.late, totalAllowances, grossPay, totalDeductions, grossPay - totalDeductions,
      RuleItems(AllowanceTable, allowances, basicSalary, 0.0),
      AttendanceItems(rt.absence, rt.halfDay, rt.late) + RuleItems(DeductionTable, deductions, basicSalary, grossPay))
  }

  /** The payroll_details rows in insertion order: allowances, overtime, then deductions. */
  function LineItems(p: Payslip): seq<LineItem>
  {
    p.allowanceItems + OvertimeItems(p.overtimePay) + p.deductionItems
  }

  function DetailRows(payrollId: int, items: seq<LineItem>): (rows: seq<DetailRow>)
    ensures |rows| == |items|
    ensures forall i :: 0 <= i < |items| ==> rows[i] == DetailRow(payrollId, items[i])
  {
    seq(|items|, i requires 0 <= i < |items| => DetailRow(payrollId, items[i]))
  }

  /** The payroll row inserted for a payslip: status draft, not approved. */
  function DraftRecord(userId: int, start: Day, end: Day, p: Payslip): PayrollRecord
  {
    PayrollRecord(userId, start, end, p.basicSalary, p.totalHours, p.overtimePay, p.totalAllowances,
      p.totalDeductions, p.grossPay, p.netPay, Draft, None, None)
  }

  datatype PayrollError =
    | EmployeeNotFound
      /** Carries the first_name and last_name columns the message names. */
    | NoBasicSalary(firstName: Option<Value>, lastName: Option<Value>)
    | StoreError(code: string)

  function Column(row: UserRow, name: string): Option<Value>
  {
    if name in row then Some(row[name]) else None
  }

  /**
   * basic_salary as `!basic_salary || basic_salary <= 0` and parseFloat read it: a number as it
   * is, a decimal text (the NUMERIC text, or a form value) by its value; NULL, an absent column
   * and "" are falsy, None. Any other text is None too (see README, Left out).
   */
  function SalaryOf(row: UserRow): Option<real>
  {
    if "basic_salary" !in row then None
    else match row["basic_salary"]
      case Null => None
      case Num(n) => Some(n)
      case Str(t) => if IsDecimalText(t) then Some(DecimalValue(t)) else None
  }

  /**
   * What calculatePayroll does with the store's tables: fail for an unknown employee or one
   * without a positive salary, or when the store rejects one of its writes (the payroll row
   * is write 0, the detail rows follow); otherwise the payslip.
   */
  function PayrollOutcome(users: map<int, UserRow>, att: map<AttendanceKey, AttendanceRow>,
                          allowances: seq<Rule>, deductions: seq<Rule>,
                          userId: int, start: Day, end: Day, fault: StoreFault): (r: Result<Payslip, PayrollError>)
    ensures r == Failure(EmployeeNotFound) <==> userId !in users
    ensures r.Success? ==> userId in users && SalaryOf(users[userId]).Some?
                           && SalaryOf(users[userId]).value > 0.0 && r.value.basicSalary == SalaryOf(users[userId]).value
    ensures fault == NoFault ==>
              (r.Success? <==> userId in users && SalaryOf(users[userId]).Some? && SalaryOf(users[userId]).value > 0.0)
  {
    if userId !in users then Failure(EmployeeNotFound)
    else
      var row := users[userId];
      var salary := SalaryOf(row);
      if salary.None? || salary.value <= 0.0 then
        Failure(NoBasicSalary(Column(row, "first_name"), Column(row, "last_name")))
      else
        var p := ComputePayslip(salary.value, WorkingDays(start, end), PeriodTotals(att, userId, start, end),
                                ActiveRules(allowances), ActiveRules(deductions));
        if FaultHits(fault, 1 + |LineItems(p)|) then Failure(StoreError(fault.code)) else Success(p)
  }

  /**
   * A salary stored as decimal text is read by its value: with no store fault the payroll is
   * computed exactly when that value is positive, on that value; an empty text is refused.
   */
  lemma TextSalaryIsRead(users: map<int, UserRow>, att: map<AttendanceKey, AttendanceRow>,
                         allowances: seq<Rule>, deductions: seq<Rule>, userId: int, start: Day, end: Day, t: string)
    requires userId in users && "basic_salary" in users[userId] && users[userId]["basic_salary"] == Str(t)
    ensures var r := PayrollOutcome(users, att, allowances, deductions, userId, start, end, NoFault);
      && (IsDecimalText(t) ==> (r.Success? <==> DecimalValue(t) > 0.0))
      && (r.Success? ==> IsDecimalText(t) && r.value.basicSalary == DecimalValue(t))
      && (t == "" ==> r.Failure? && r.error.NoBasicSalary?)
  {
  }

  /** An employee whose basic_salary is the NUMERIC text "22000.00" is paid on a salary of 22000. */
  lemma NumericTextSalaryPays(att: map<AttendanceKey, AttendanceRow>, allowances: seq<Rule>, deductions: seq<Rule>,
                              start: Day, end: Day)
    ensures var r := PayrollOutcome(map[1 := map["basic_salary" := Str("22000.00")]], att, allowances, deductions,
                                    1, start, end, NoFault);
      r.Success? && r.value.basicSalary == 22000.0
  {
    var users: map<int, UserRow> := map[1 := map["basic_salary" := Str("22000.00")]];
    NumericTextExample();
    TextSalaryIsRead(users, att, allowances, deductions, 1, start, end, "22000.00");
  }

  // ---------------------------------------------------------------- properties of the payslip

  /** The rates divide the salary evenly: a working day's pay times the days, an hour's pay times 8. */
  lemma RatesMeaning(basicSalary: real, workingDays: int, t: AttendanceTotals)
    requires workingDays >= 1
    ensures var rt := ComputeRates(basicSalary, workingDays, t);
      && rt.dailyRate * workingDays as real == basicSalary
      && rt.hourlyRate * HoursPerDay == rt.dailyRate
      && rt.overtimePay * HoursPerDay * workingDays as real == t.overtimeHours * OvertimeMultiplier * basicSalary
      && rt.halfDay * 2.0 == t.halfDays as real * rt.dailyRate
  {
    var rt := ComputeRates(basicSalary, workingDays, t);
    var w := workingDays as real;
    assert rt.dailyRate * w == basicSalary;
    calc {
      rt.overtimePay * HoursPerDay * w;
      t.overtimeHours * (rt.hourlyRate * HoursPerDay) * OvertimeMultiplier * w;
      t.overtimeHours * OvertimeMultiplier * (rt.dailyRate * w);
    }
  }

  /** 22000 over 22 working days: 1000 a day, 125 an hour, and 10 overtime hours pay 1875. */
  lemma RatesExample()
    ensures ComputeRates(22000.0, 22, AttendanceTotals(0.0, 10.0, 0, 0, 0))
         == Rates(1000.0, 125.0, 1875.0, 0.0, 0.0, 0.0)
  {
  }

  /** Net pay is gross minus deductions with no floor: two absences on a one-day period go negative. */
  lemma NetPayNotClamped()
    ensures ComputePayslip(1000.0, 1, AttendanceTotals(0.0, 0.0, 0, 2, 0), [], []).netPay == -1000.0
  {
  }

  /** The sum of the amounts of the line items of one type. */
  function ItemsTotal(items: seq<LineItem>, kind: ItemType): real
    decreases |items|
  {
    if items == [] then 0.0
    else ItemsTotal(items[..|items| - 1], kind)
         + (if items[|items| - 1].itemType == kind then items[|items| - 1].amount else 0.0)
  }

  lemma {:induction false} ItemsTotalAppend(xs: seq<LineItem>, ys: seq<LineItem>, kind: ItemType)
    ensures ItemsTotal(xs + ys, kind) == ItemsTotal(xs, kind) + ItemsTotal(ys, kind)
    decreases |ys|
  {
    if ys == [] {
      assert xs + ys == xs;
    } else {
      assert (xs + ys)[..|xs + ys| - 1] == xs + ys[..|ys| - 1];
      ItemsTotalAppend(xs, ys[..|ys| - 1], kind);
    }
  }

  /** A rule whose amount and percentage are not negative. */
  predicate NonNegativeRule(r: Rule)
  {
    r.amount >= 0.0 && r.percentage >= 0.0
  }

  lemma RuleAmountNonNegative(table: RuleTable, r: Rule, basicSalary: real, grossPay: real)
    requires NonNegativeRule(r) && basicSalary >= 0.0
    ensures RuleAmount(table, r, basicSalary, grossPay) >= 0.0
  {
    if !(table == DeductionTable && r.name == WithholdingTaxName) && r.ruleType == Percentage {
      assert r.percentage / 100.0 >= 0.0;
    }
  }

  /** The rule items are all of the table's type and all above zero. */
  lemma {:induction false} RuleItemsShape(table: RuleTable, rules: seq<Rule>, basicSalary: real, grossPay: real)
    ensures AllPositiveOf(RuleItems(table, rules, basicSalary, grossPay), ItemTypeOf(table))
    decreases |rules|
  {
    if rules != [] {
      var r := rules[|rules| - 1];
      RuleItemsShape(table, rules[..|rules| - 1], basicSalary, grossPay);
      AllPositiveAppend(RuleItems(table, rules[..|rules| - 1], basicSalary, grossPay),
        OptionalItem(ItemTypeOf(table), r.name, RuleAmount(table, r, basicSalary, grossPay)), ItemTypeOf(table));
    }
  }

  /** With amounts not negative, dropping the zero amounts loses nothing: the items sum to the total. */
  lemma {:induction false} RuleItemsTotal(table: RuleTable, rules: seq<Rule>, basicSalary: real, grossPay: real, kind: ItemType)
    requires forall r :: r in rules ==> NonNegativeRule(r)
    requires basicSalary >= 0.0
    ensures ItemsTotal(RuleItems(table, rules, basicSalary, grossPay), kind)
         == if kind == ItemTypeOf(table) then RulesTotal(table, rules, basicSalary, grossPay) else 0.0
    decreases |rules|
  {
    if rules != [] {
      var init := rules[..|rules| - 1];
      var r := rules[|rules| - 1];
      assert forall x :: x in init ==> x in rules;
      RuleItemsTotal(table, init, basicSalary, grossPay, kind);
      var amount := RuleAmount(table, r, basicSalary, grossPay);
      RuleAmountNonNegative(table, r, basicSalary, grossPay);
      var tail := OptionalItem(ItemTypeOf(table), r.name, amount);
      var items := RuleItems(table, init, basicSalary, grossPay);
      assert RuleItems(table, rules, basicSalary, grossPay) == items + tail;
      ItemsTotalAppend(items, tail, kind);
      OptionalItemTotal(ItemTypeOf(table), r.name, amount, kind);
      assert RulesTotal(table, rules, basicSalary, grossPay) == RulesTotal(table, init, basicSalary, grossPay) + amount;
    }
  }

  /** With a salary, overtime and late minutes not negative, every rate and attendance deduction is not negative. */
  lemma RatesNonNegative(basicSalary: real, workingDays: int, t: AttendanceTotals)
    requires workingDays >= 1 && basicSalary >= 0.0 && t.overtimeHours >= 0.0 && t.lateMinutes >= 0
    ensures var rt := ComputeRates(basicSalary, workingDays, t);
      rt.overtimePay >= 0.0 && rt.absence >= 0.0 && rt.halfDay >= 0.0 && rt.late >= 0.0
  {
    var rt := ComputeRates(basicSalary, workingDays, t);
    assert rt.dailyRate >= 0.0;
    assert rt.hourlyRate >= 0.0;
    assert t.overtimeHours * rt.hourlyRate >= 0.0;
    assert t.lateMinutes as real / 60.0 >= 0.0;
  }

  /** An optional single item of type DeductionItem or OvertimeItem, listed only when above zero. */
  function OptionalItem(kind: ItemType, name: string, amount: real): seq<LineItem>
  {
    if amount > 0.0 then [LineItem(kind, name, amount)] else []
  }

  lemma OptionalItemTotal(kind: ItemType, name: string, amount: real, k: ItemType)
    requires amount >= 0.0
    ensures ItemsTotal(OptionalItem(kind, name, amount), k) == if k == kind then amount else 0.0
  {
    if amount > 0.0 {
      assert OptionalItem(kind, name, amount)[..0] == [];
    }
  }

  lemma AttendanceItemsTotal(absence: real, halfDay: real, late: real, kind: ItemType)
    requires absence >= 0.0 && halfDay >= 0.0 && late >= 0.0
    ensures ItemsTotal(AttendanceItems(absence, halfDay, late), kind)
         == if kind == DeductionItem then absence + halfDay + late else 0.0
  {
    var a1 := OptionalItem(DeductionItem, "Absence", absence);
    var a2 := OptionalItem(DeductionItem, "Half Day", halfDay);
    var a3 := OptionalItem(DeductionItem, "Late", late);
    assert AttendanceItems(absence, halfDay, late) == a1 + a2 + a3;
    ItemsTotalAppend(a1 + a2, a3, kind);
    ItemsTotalAppend(a1, a2, kind);
    OptionalItemTotal(DeductionItem, "Absence", absence, kind);
    OptionalItemTotal(DeductionItem, "Half Day", halfDay, kind);
    OptionalItemTotal(DeductionItem, "Late", late, kind);
  }

  lemma OvertimeItemsTotal(overtimePay: real, kind: ItemType)
    requires overtimePay >= 0.0
    ensures ItemsTotal(OvertimeItems(overtimePay), kind) == if kind == OvertimeItem then overtimePay else 0.0
  {
    assert OvertimeItems(overtimePay) == OptionalItem(OvertimeItem, "Overtime Pay", overtimePay);
    OptionalItemTotal(OvertimeItem, "Overtime Pay", overtimePay, kind);
  }

  /** The detail list of a payslip is its four parts in a row. */
  lemma AssembleParts(basicSalary: real, workingDays: int, t: AttendanceTotals, rt: Rates,
                      allowances: seq<Rule>, deductions: seq<Rule>)
    ensures var p := Assemble(basicSalary, workingDays, t, rt, allowances, deductions);
      LineItems(p) == RuleItems(AllowanceTable, allowances, basicSalary, 0.0) + OvertimeItems(rt.overtimePay)
        + AttendanceItems(rt.absence, rt.halfDay, rt.late) + RuleItems(DeductionTable, deductions, basicSalary, p.grossPay)
  {
  }

  lemma ItemsTotalOfParts(al: seq<LineItem>, ov: seq<LineItem>, att: seq<LineItem>, de: seq<LineItem>, kind: ItemType)
    ensures ItemsTotal(al + ov + att + de, kind)
         == ItemsTotal(al, kind) + ItemsTotal(ov, kind) + ItemsTotal(att, kind) + ItemsTotal(de, kind)
  {
    ItemsTotalAppend(al + ov + att, de, kind);
    ItemsTotalAppend(al + ov, att, kind);
    ItemsTotalAppend(al, ov, kind);
  }

  lemma AssembleReconciles(basicSalary: real, workingDays: int, t: AttendanceTotals, rt: Rates,
                           allowances: seq<Rule>, deductions: seq<Rule>, kind: ItemType)
    requires basicSalary >= 0.0
    requires rt.overtimePay >= 0.0 && rt.absence >= 0.0 && rt.halfDay >= 0.0 && rt.late >= 0.0
    requires forall r :: r in allowances ==> NonNegativeRule(r)
    requires forall r :: r in deductions ==> NonNegativeRule(r)
    ensures var p := Assemble(basicSalary, workingDays, t, rt, allowances, deductions);
      ItemsTotal(LineItems(p), kind)
        == match kind
           case AllowanceItem => p.totalAllowances
           case OvertimeItem => p.overtimePay
           case DeductionItem => p.totalDeductions
  {
    var p := Assemble(basicSalary, workingDays, t, rt, allowances, deductions);
    var al := RuleItems(AllowanceTable, allowances, basicSalary, 0.0);
    var ov := OvertimeItems(rt.overtimePay);
    var att := AttendanceItems(rt.absence, rt.halfDay, rt.late);
    var de := RuleItems(DeductionTable, deductions, basicSalary, p.grossPay);
    AssembleParts(basicSalary, workingDays, t, rt, allowances, deductions);
    ItemsTotalOfParts(al, ov, att, de, kind);
    RuleItemsTotal(AllowanceTable, allowances, basicSalary, 0.0, kind);
    RuleItemsTotal(DeductionTable, deductions, basicSalary, p.grossPay, kind);
    AttendanceItemsTotal(rt.absence, rt.halfDay, rt.late, kind);
    OvertimeItemsTotal(rt.overtimePay, kind);
  }

  /**
   * When the salary, the overtime and late minutes and every rule's figures are not negative,
   * the detail rows account for the totals: the allowance rows sum to totalAllowances, the
   * overtime row to overtimePay, the deduction rows to totalDeductions.
   */
  lemma PayslipReconciles(basicSalary: real, workingDays: int, t: AttendanceTotals,
                          allowances: seq<Rule>, deductions: seq<Rule>)
    requires workingDays >= 1 && basicSalary >= 0.0 && t.overtimeHours >= 0.0 && t.lateMinutes >= 0
    requires forall r :: r in allowances ==> NonNegativeRule(r)
    requires forall r :: r in deductions ==> NonNegativeRule(r)
    ensures var p := ComputePayslip(basicSalary, workingDays, t, allowances, deductions);
      && ItemsTotal(LineItems(p), AllowanceItem) == p.totalAllowances
      && ItemsTotal(LineItems(p), OvertimeItem) == p.overtimePay
      && ItemsTotal(LineItems(p), DeductionItem) == p.totalDeductions
      && p.grossPay == basicSalary + p.overtimePay + p.totalAllowances
      && p.netPay == p.grossPay - p.totalDeductions
  {
    var rt := ComputeRates(basicSalary, workingDays, t);
    RatesNonNegative(basicSalary, workingDays, t);
    AssembleReconciles(basicSalary, workingDays, t, rt, allowances, deductions, AllowanceItem);
    AssembleReconciles(basicSalary, workingDays, t, rt, allowances, deductions, OvertimeItem);
    AssembleReconciles(basicSalary, workingDays, t, rt, allowances, deductions, DeductionItem);
  }

  /** Where a type of line item sits in the insertion order. */
  function Rank(kind: ItemType): nat
  {
    match kind
    case AllowanceItem => 0
    case OvertimeItem => 1
    case DeductionItem => 2
  }

  /**
   * The detail rows go in as allowances, then overtime, then deductions, every amount above
   * zero, and the deductions open with the attendance ones in the order Absence, Half Day, Late.
   */
  lemma LineItemOrder(basicSalary: real, workingDays: int, t: AttendanceTotals,
                      allowances: seq<Rule>, deductions: seq<Rule>)
    requires workingDays >= 1
    ensures var p := ComputePayslip(basicSalary, workingDays, t, allowances, deductions);
      && OrderedPositive(LineItems(p))
      && p.deductionItems[..|AttendanceItems(p.absenceDeduction, p.halfDayDeduction, p.lateDeduction)|]
         == AttendanceItems(p.absenceDeduction, p.halfDayDeduction, p.lateDeduction)
  {
    AssembleOrder(basicSalary, workingDays, t, ComputeRates(basicSalary, workingDays, t), allowances, deductions);
  }

  /** Every item of the sequence has this type and an amount above zero. */
  predicate AllPositiveOf(items: seq<LineItem>, kind: ItemType)
  {
    forall it :: it in items ==> it.itemType == kind && it.amount > 0.0
  }

  lemma AllPositiveAppend(xs: seq<LineItem>, ys: seq<LineItem>, kind: ItemType)
    requires AllPositiveOf(xs, kind) && AllPositiveOf(ys, kind)
    ensures AllPositiveOf(xs + ys, kind)
  {
  }

  lemma AttendanceItemsShape(absence: real, halfDay: real, late: real)
    ensures AllPositiveOf(AttendanceItems(absence, halfDay, late), DeductionItem)
  {
    var a1 := OptionalItem(DeductionItem, "Absence", absence);
    var a2 := OptionalItem(DeductionItem, "Half Day", halfDay);
    var a3 := OptionalItem(DeductionItem, "Late", late);
    assert AttendanceItems(absence, halfDay, late) == a1 + a2 + a3;
    AllPositiveAppend(a1, a2, DeductionItem);
    AllPositiveAppend(a1 + a2, a3, DeductionItem);
  }

  /** Every amount above zero, and the types in insertion order: allowances, overtime, deductions. */
  predicate OrderedPositive(items: seq<LineItem>)
  {
    && (forall i :: 0 <= i < |items| ==> items[i].amount > 0.0)
    && (forall i, j :: 0 <= i < j < |items| ==> Rank(items[i].itemType) <= Rank(items[j].itemType))
  }

  lemma OrderOfParts(al: seq<LineItem>, ov: seq<LineItem>, de: seq<LineItem>)
    requires AllPositiveOf(al, AllowanceItem) && AllPositiveOf(ov, OvertimeItem) && AllPositiveOf(de, DeductionItem)
    ensures OrderedPositive(al + ov + de)
  {
    var items := al + ov + de;
    forall i | 0 <= i < |items|
      ensures items[i].amount > 0.0
      ensures Rank(items[i].itemType) == if i < |al| then 0 else if i < |al| + |ov| then 1 else 2
    {
      if i < |al| {
        assert items[i] == al[i] && al[i] in al;
      } else if i < |al| + |ov| {
        assert items[i] == ov[i - |al|] && ov[i - |al|] in ov;
      } else {
        assert items[i] == de[i - |al| - |ov|] && de[i - |al| - |ov|] in de;
      }
    }
  }

  lemma AssembleOrder(basicSalary: real, workingDays: int, t: AttendanceTotals, rt: Rates,
                      allowances: seq<Rule>, deductions: seq<Rule>)
    ensures var p := Assemble(basicSalary, workingDays, t, rt, allowances, deductions);
      && OrderedPositive(LineItems(p))
      && p.deductionItems[..|AttendanceItems(p.absenceDeduction, p.halfDayDeduction, p.lateDeduction)|]
         == AttendanceItems(p.absenceDeduction, p.halfDayDeduction, p.lateDeduction)
  {
    var p := Assemble(basicSalary, workingDays, t, rt, allowances, deductions);
    var al := RuleItems(AllowanceTable, allowances, basicSalary, 0.0);
    var ov := OvertimeItems(rt.overtimePay);
    var att := AttendanceItems(rt.absence, rt.halfDay, rt.late);
    var de := RuleItems(DeductionTable, deductions, basicSalary, p.grossPay);
    assert p.allowanceItems == al && p.overtimePay == rt.overtimePay && p.deductionItems == att + de;
    RuleItemsShape(AllowanceTable, allowances, basicSalary, 0.0);
    RuleItemsShape(DeductionTable, deductions, basicSalary, p.grossPay);
    AttendanceItemsShape(rt.absence, rt.halfDay, rt.late);
    AllPositiveAppend(att, de, DeductionItem);
    OrderOfParts(al, ov, att + de);
    assert (att + de)[..|att|] == att;
  }

  /**
   * The computing half of calculatePayroll: the rates, then the allowance loop, gross pay, the
   * attendance deductions and the deduction loop, each loop adding to its total and listing the
   * amounts above zero.
   */
  method BuildPayslip(basicSalary: real, workingDays: int, attendance: AttendanceTotals,
                      allowances: seq<Rule>, deductions: seq<Rule>) returns (p: Payslip)
    requires workingDays >= 1
    ensures p == ComputePayslip(basicSalary, workingDays, attendance, allowances, deductions)
  {
    var rates := ComputeRates(basicSalary, workingDays, attendance);

    var totalAllowances := 0.0;
    var allowanceDetails: seq<LineItem> := [];
    var i := 0;
    while i < |allowances|
      invariant 0 <= i <= |allowances|
      invariant totalAllowances == RulesTotal(AllowanceTable, allowances[..i], basicSalary, 0.0)
      invariant allowanceDetails == RuleItems(AllowanceTable, allowances[..i], basicSalary, 0.0)
    {
      var amount := RuleAmount(AllowanceTable, allowances[i], basicSalary, 0.0);
      totalAllowances := totalAllowances + amount;
      if amount > 0.0 {
        allowanceDetails := allowanceDetails + [LineItem(AllowanceItem, allowances[i].name, amount)];
      }
      assert allowances[..i + 1][..i] == allowances[..i];
      i := i + 1;
    }
    assert allowances[..i] == allowances;

    var grossPay := basicSalary + rates.overtimePay + totalAllowances;

    var totalDeductions := rates.absence + rates.halfDay + rates.late;
    var deductionDetails := AttendanceItems(rates.absence, rates.halfDay, rates.late);
    ghost var attendanceItems := deductionDetails;
    ghost var attendanceTotal := totalDeductions;
    var j := 0;
    while j < |deductions|
      invariant 0 <= j <= |deductions|
      invariant totalDeductions == attendanceTotal + RulesTotal(DeductionTable, deductions[..j], basicSalary, grossPay)
      invariant deductionDetails == attendanceItems + RuleItems(DeductionTable, deductions[..j], basicSalary, grossPay)
    {
      var amount := RuleAmount(DeductionTable, deductions[j], basicSalary, grossPay);
      totalDeductions := totalDeductions + amount;
      if amount > 0.0 {
        deductionDetails := deductionDetails + [LineItem(DeductionItem, deductions[j].name, amount)];
      }
      assert deductions[..j + 1][..j] == deductions[..j];
      j := j + 1;
    }
    assert deductions[..j] == deductions;

    p := Payslip(basicSalary, workingDays, rates.dailyRate, rates.hourlyRate, attendance.totalHours,
      rates.overtimePay, rates.absence, rates.halfDay, rates.late, totalAllowances, grossPay,
      totalDeductions, grossPay - totalDeductions, allowanceDetails, deductionDetails);
    assert p == Assemble(basicSalary, workingDays, attendance, rates, allowances, deductions);
  }

  /** Adding a payroll under the next id and details pointing at it keeps the references intact. */
  lemma ValidAfterCommit(payrolls: map<int, PayrollRecord>, details: seq<DetailRow>, nextId: int,
                         id: int, record: PayrollRecord, staged: seq<DetailRow>)
    requires forall i :: i in payrolls ==> i < nextId
    requires forall k :: 0 <= k < |details| ==> details[k].payrollId in payrolls
    requires id == nextId
    requires forall k :: 0 <= k < |staged| ==> staged[k].payrollId == id
    ensures forall i :: i in payrolls ==> i < id + 1
    ensures forall k :: 0 <= k < |details + staged| ==> (details + staged)[k].payrollId in payrolls[id := record]
  {
    forall k | 0 <= k < |details + staged|
      ensures (details + staged)[k].payrollId in payrolls[id := record]
    {
      if k < |details| {
        assert (details + staged)[k] == details[k];
      } else {
        assert (details + staged)[k] == staged[k - |details|];
      }
    }
  }

  datatype Created = Created(id: int, record: PayrollRecord)

  /**
   * Whether calculatePayroll got as far as the payroll INSERT, which draws the next value of the
   * id sequence: a success, or a write the store rejected.
   */
  predicate DrawsId(out: Result<Payslip, PayrollError>)
  {
    out.Success? || out.error.StoreError?
  }

  /**
   * The writing half of calculatePayroll: BEGIN; INSERT the payroll row (write 0); INSERT each
   * detail row (writes 1, 2, ...); COMMIT. A rejected write rolls the rows back, but the id the
   * INSERT drew from the serial sequence stays used: sequences are not transactional.
   */
  method InsertPayroll(db: Database, userId: int, start: Day, end: Day, p: Payslip, fault: StoreFault)
    returns (r: Result<Created, PayrollError>)
    requires db.Valid()
    modifies db`payrolls, db`payrollDetails, db`nextPayrollId
    ensures db.Valid()
    ensures FaultHits(fault, 1 + |LineItems(p)|) ==>
      && r == Failure(StoreError(fault.code))
      && db.payrolls == old(db.payrolls)
      && db.payrollDetails == old(db.payrollDetails)
      && db.nextPayrollId == old(db.nextPayrollId) + 1
    ensures !FaultHits(fault, 1 + |LineItems(p)|) ==>
      var id := old(db.nextPayrollId);
      && r == Success(Created(id, DraftRecord(userId, start, end, p)))
      && db.payrolls == old(db.payrolls)[id := DraftRecord(userId, start, end, p)]
      && db.payrollDetails == old(db.payrollDetails) + DetailRows(id, LineItems(p))
      && db.nextPayrollId == id + 1
  {
    var id := db.nextPayrollId;
    db.nextPayrollId := id + 1;   // nextval, outside the transaction
    var record := DraftRecord(userId, start, end, p);
    if FaultHits(fault, 1) {
      return Failure(StoreError(fault.code));   // ROLLBACK
    }
    var items := LineItems(p);
    var staged: seq<DetailRow> := [];
    var k := 0;
    while k < |items|
      invariant 0 <= k <= |items|
      invariant staged == DetailRows(id, items[..k])
      invariant !FaultHits(fault, k + 1)
    {
      if FaultHits(fault, k + 2) {
        return Failure(StoreError(fault.code));   // ROLLBACK
      }
      staged := staged + [DetailRow(id, items[k])];
      k := k + 1;
    }
    assert items[..k] == items;
    ValidAfterCommit(db.payrolls, db.payrollDetails, id, id, record, staged);
    // COMMIT
    db.payrolls := db.payrolls[id := record];
    db.payrollDetails := db.payrollDetails + staged;
    r := Success(Created(id, record));
  }

  /**
   * calculatePayroll: the checks on the employee, the payslip, then its insertion. On any
   * failure no row is written, and the id counter moves on only when the INSERT ran; on success
   * the draft row and its details are written under the next id.
   */
  method CalculatePayroll(db: Database, userId: int, start: Day, end: Day, fault: StoreFault)
    returns (r: Result<Created, PayrollError>)
    requires db.Valid()
    modifies db`payrolls, db`payrollDetails, db`nextPayrollId
    ensures db.Valid()
    ensures var out := PayrollOutcome(db.users, db.attendance, db.allowances, db.deductions, userId, start, end, fault);
      match out
      case Failure(e) =>
        && r == Failure(e)
        && db.payrolls == old(db.payrolls)
        && db.payrollDetails == old(db.payrollDetails)
        && db.nextPayrollId == old(db.nextPayrollId) + (if DrawsId(out) then 1 else 0)
      case Success(p) =>
        var id := old(db.nextPayrollId);
        && r == Success(Created(id, DraftRecord(userId, start, end, p)))
        && db.payrolls == old(db.payrolls)[id := DraftRecord(userId, start, end, p)]
        && db.payrollDetails == old(db.payrollDetails) + DetailRows(id, LineItems(p))
        && db.nextPayrollId == id + 1
  {
    if userId !in db.users {
      return Failure(EmployeeNotFound);
    }
    var row := db.users[userId];
    var salary := SalaryOf(row);
    if salary.None? || salary.value <= 0.0 {
      return Failure(NoBasicSalary(Column(row, "first_name"), Column(row, "last_name")));
    }
    var workingDays := CalculateWorkingDays(start, end);
    var attendance := PeriodTotals(db.attendance, userId, start, end);
    var p := BuildPayslip(salary.value, workingDays, attendance, ActiveRules(db.allowances), ActiveRules(db.deductions));
    r := InsertPayroll(db, userId, start, end, p, fault);
  }
}
