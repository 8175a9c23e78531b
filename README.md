# Payroll system backend — a verified Dafny model

This project models the server side of a small payroll and HR system. Employees clock in and
out each day and file leave requests against yearly leave credits. HR approves leave and
generates payroll for a pay period. The payroll engine computes working days, daily and hourly
rates, overtime, attendance deductions, configured allowances and deductions, and a progressive
withholding tax. It then writes the payroll row and its line items in one transaction. Around
the engine sit the controllers for payroll, leave, attendance and users; the date, time and id
helpers; the attendance request validators; and the error handler that turns database errors
into HTTP answers.

How the model is built:

- **Database.** `Store.Database` is one object whose fields are the tables (`map`s keyed by id
  or by (user, date), and `seq`s for the rule tables and the detail rows).
- **Transactions.** Each BEGIN … COMMIT / ROLLBACK block is a method that prepares its writes in
  locals and assigns the fields only when every write has succeeded. A database failure is a
  `StoreFault` parameter that rejects the n-th write of the transaction, so rollback is proved:
  a failed transaction leaves every table as it was.
- **Operations.** Every operation is a method proved against a specification function (its
  "outcome"). The properties are lemmas about those functions.
- **Dates** are day numbers: day 0 is 0001-01-01, a Monday. Civil dates (year, month, day) are
  used where the source works on calendar fields.
- **Money** is `real`.
- **Parameters.** The current date, time and year are parameters. `NOW()` is one where the model keeps the column it writes: a payroll's approved_at and a user's updated_at.

Modules:

- `Basics`: `Option`, `Result`, `Sum`.
- `Text`: digits, `parseInt`, `toString`, `padStart`, string order.
- `Dates`: `dateUtils.js`, weekday counting, the Gregorian calendar.
- `Tax`: the withholding tax.
- `Store`: the tables.
- `PayrollService`: `calculatePayroll`, `calculateWorkingDays`.
- `PayrollController`: batch generation, approve, delete.
- `LeaveController`: the leave request life cycle.
- `Validators`: the attendance request rules.
- `AttendanceController`: clock-in, clock-out, update, monthly report.
- `Helpers`: `formatTime`, `generateEmployeeId`, `calculateAge`.
- `UserController`: listing query, read, update.
- `ErrorHandler`: the error handler.

## Model

| member | source | states |
|---|---|---|
| Basics.SumAppend | backend/src/controllers/payrollController.js:25 | A running total over two stretches is the sum of their totals |
| Text.NatToStringRoundTrip | backend/src/utils/helpers.js:36 | Reading back the decimal text of a number gives the number |
| Text.ParseIntOfDigits | backend/src/utils/helpers.js:35 | parseInt of a string of digits is its decimal value |
| Text.LeadingZerosValue | backend/src/utils/helpers.js:36 | Zeros put in front by padStart do not change the value |
| Text.PadStart | backend/src/utils/helpers.js:36 | padStart reaches the width (or keeps a longer string) by prepending the pad character |
| Text.DecimalValue | backend/src/services/payrollService.js:46 | A decimal text without a leading minus has a value ≥ 0; a negative value comes only after '-' |
| Text.WholeDecimal | backend/src/services/payrollService.js:46 | A run of digits is a decimal text worth its digits' value |
| Text.FractionDecimal | backend/src/services/payrollService.js:46 | Digits, '.', digits is a decimal text worth its whole digits plus its fraction digits over their power of ten (DecimalOf) |
| Text.NegatedDecimal | backend/src/services/payrollService.js:46 | A leading '-' negates an unsigned decimal text's value |
| Text.NatDecimalRoundTrip | backend/src/services/payrollService.js:46 | The decimal text of every natural number reads back as that number |
| Text.NumericTextExample | backend/src/services/payrollService.js:46 | The NUMERIC text "22000.00" is the number 22000 |
| Text.ParseIntPrefix | backend/src/utils/helpers.js:19 | parseInt gives NaN when the text opens with neither a digit nor a sign; a leading digit gives a number ≥ 0; only a leading minus gives a negative number |
| Text.LexLess | backend/src/controllers/attendanceController.js:152 | JavaScript's `<` on strings is never true of equal strings, and a proper prefix is less than the longer string |
| Dates.AddDays | backend/src/utils/dateUtils.js:29-33 | addDays moves the date by exactly |days| days and the weekday by days mod 7 |
| Dates.AddDaysInverse | backend/src/utils/dateUtils.js:29-33 | addDays(d, 0) is d, and adding n then -n days gives d back |
| Dates.DaysBetween | backend/src/utils/dateUtils.js:35-40 | getDaysBetween is never negative, is 0 exactly for equal dates, and is the distance in days |
| Dates.DaysBetweenSymmetric | backend/src/utils/dateUtils.js:35-40 | getDaysBetween does not depend on argument order |
| Dates.DateRange | backend/src/utils/dateUtils.js:11-22 | getDateRange yields start, start+1, … up to end: empty when end < start, else end − start + 1 days |
| Dates.WeekdayCount | backend/src/services/payrollService.js:193-198 | The counting loop returns the number of days in [start, end] that are not Saturday or Sunday |
| Dates.CountWeekdaysBound | backend/src/controllers/leaveController.js:175-182 | A weekday count never exceeds the number of days of the period |
| Dates.CountWeekdaysSplit | backend/src/controllers/leaveController.js:392-406 | Counting a period is counting its two halves, split at any day |
| Dates.WeekHasFiveWeekdays | backend/src/utils/dateUtils.js:24-27 | Any seven consecutive days hold exactly five weekdays |
| Dates.WholeWeeks | backend/src/services/payrollService.js:188-201 | A period of w whole weeks has 5w working days |
| Dates.NoWeekdayMeansWeekend | backend/src/utils/dateUtils.js:24-27 | The weekday count is 0 exactly when every day of the period is a weekend day (or the period is empty) |
| Dates.DaysInMonth | backend/src/utils/dateUtils.js:6-9 | A month has 28 to 31 days |
| Dates.YearIsTwelveMonths | backend/src/utils/dateUtils.js:6-9 | The twelve month lengths add up to the year's length |
| Dates.DaysBeforeYearClosedForm | backend/src/utils/dateUtils.js:24-27 | The days before a year are 365 per year plus the Gregorian leap days |
| Dates.NewYearWeekday | backend/src/utils/dateUtils.js:24-27 | The weekday of January 1 of any year, in closed form |
| Dates.NewYear2025IsWednesday | backend/src/utils/dateUtils.js:24-27 | The day numbering agrees with the calendar: 2025-01-01 was a Wednesday |
| Dates.StartOfMonth | backend/src/utils/dateUtils.js:1-4 | getStartOfMonth is day 1 of the same month and year |
| Dates.EndOfMonth | backend/src/utils/dateUtils.js:6-9 | getEndOfMonth is a valid day of the same month and year, on or after the given day |
| Dates.MonthBrackets | backend/src/utils/dateUtils.js:1-9 | Every date lies between its month's start and end, which span exactly the month's length |
| Dates.EndOfMonthPrecedesNextMonth | backend/src/utils/dateUtils.js:6-9 | The end of a month is the day before the first of the next month (day 0 of month + 1) |
| Dates.EndOfFebruary | backend/src/utils/dateUtils.js:6-9 | February ends on the 29th in 2024 and 2000 and on the 28th in 2023 and 1900 |
| Tax.AnnualTax | backend/src/services/payrollService.js:210-222 | The annual tax is never negative, and it is 0 exactly up to the exempt 250000 |
| Tax.WithholdingTax | backend/src/services/payrollService.js:203-226 | The monthly tax is never negative, is 0 when 12 × gross ≤ 250000, and is at most 35 % of gross |
| Tax.AnnualTaxBounds | backend/src/services/payrollService.js:210-222 | The annual tax lies between 0 and 35 % of the income |
| Tax.AnnualTaxIsMarginal | backend/src/services/payrollService.js:210-222 | The if/else-if chain equals the marginal-rate table: 0 %, 15 %, 20 %, 25 %, 30 %, 35 % on the slices above 250000, 400000, 800000, 2000000 and 8000000 |
| Tax.BracketBoundaries | backend/src/services/payrollService.js:210-225 | At the bracket bounds the annual tax is 0, 22500, 102500, 402500 and 2202500; the monthly tax is the annual one over 12 |
| Tax.AnnualTaxMonotone | backend/src/services/payrollService.js:210-222 | The annual tax is non-decreasing and grows by at most 35 % of the increase (so it is continuous) |
| Tax.WithholdingTaxMonotone | backend/src/services/payrollService.js:203-226 | More gross pay never means less withholding tax |
| PayrollService.CalculateWorkingDays | backend/src/services/payrollService.js:188-201 | The result is the weekday count of the period, or 1 when that count is 0, so always at least 1 |
| PayrollService.NoRowsNoTotals | backend/src/services/payrollService.js:30-41 | With no attendance rows in the period, every aggregate is 0 |
| PayrollService.CountedDaysBound | backend/src/services/payrollService.js:35-36 | Absent plus half days never exceed the days of the period |
| PayrollService.ActiveRules | backend/src/services/payrollService.js:58-60 | The active rules are exactly the rules marked active |
| PayrollService.RatesMeaning | backend/src/services/payrollService.js:46-55 | The daily rate times the working days is the salary, the hourly rate is 1/8 of the daily rate, overtime is hours × hourly × 1.5, and a half day is deducted at half the daily rate |
| PayrollService.RatesExample | backend/src/services/payrollService.js:46-50 | 22000 over 22 days gives 1000 a day and 125 an hour, and 10 overtime hours pay 1875 |
| PayrollService.NetPayNotClamped | backend/src/services/payrollService.js:126 | Net pay is gross minus deductions with no floor, and can be negative |
| PayrollService.ItemsTotalAppend | backend/src/services/payrollService.js:153-176 | The total of a kind of line item over two lists is the sum of the two totals |
| PayrollService.RuleAmountNonNegative | backend/src/services/payrollService.js:66-71 | A rule with non-negative figures yields a non-negative amount, fixed or percentage, withholding tax included |
| PayrollService.RuleItemsShape | backend/src/services/payrollService.js:73-78 | Only amounts above zero become line items, all of the table's type |
| PayrollService.RuleItemsTotal | backend/src/services/payrollService.js:62-79 | With non-negative amounts the listed items sum to the loop's running total |
| PayrollService.RatesNonNegative | backend/src/services/payrollService.js:46-55 | With a non-negative salary, overtime and lateness, every rate and deduction is non-negative |
| PayrollService.OptionalItemTotal | backend/src/services/payrollService.js:92-100 | An item listed only when above zero accounts for its whole amount |
| PayrollService.AttendanceItemsTotal | backend/src/services/payrollService.js:89-100 | The Absence, Half Day and Late items sum to the three attendance deductions |
| PayrollService.OvertimeItemsTotal | backend/src/services/payrollService.js:161-168 | The Overtime Pay item accounts for the overtime pay |
| PayrollService.AssembleParts | backend/src/services/payrollService.js:153-176 | The detail rows are allowances, then overtime, then attendance deductions, then configured deductions |
| PayrollService.ItemsTotalOfParts | backend/src/services/payrollService.js:153-176 | A kind's total over the four parts is the sum over the parts |
| PayrollService.AssembleReconciles | backend/src/services/payrollService.js:62-126 | For given rates, the allowance, overtime and deduction items sum to totalAllowances, overtimePay and totalDeductions |
| PayrollService.ComputePayslip | backend/src/services/payrollService.js:43-126 | The payslip keeps the salary and the working days; gross = basic + overtime + allowances and net = gross − deductions |
| PayrollService.PayrollOutcome | backend/src/services/payrollService.js:4-186 | "Employee not found" exactly for an unknown id; success needs a positive salary, which becomes the payslip's basic; when no write is rejected that is also enough |
| PayrollService.TextSalaryIsRead | backend/src/services/payrollService.js:22-46 | A salary stored as decimal text is read by its value: with no rejected write the payroll is computed exactly when that value is positive, on that value; "" is refused as no salary |
| PayrollService.NumericTextSalaryPays | backend/src/services/payrollService.js:22-46 | An employee whose basic_salary is the text "22000.00" is paid on 22000 |
| PayrollService.PayslipReconciles | backend/src/services/payrollService.js:62-126 | When all figures are non-negative the detail rows account for the payslip's totals, with gross = basic + overtime + allowances and net = gross − deductions |
| PayrollService.LineItemOrder | backend/src/services/payrollService.js:92-100 | Line items go allowances, overtime, deductions, all above zero, and the deductions open with Absence, Half Day, Late |
| PayrollService.AllPositiveAppend | backend/src/services/payrollService.js:73-78 | Joining two lists of positive items of one kind gives such a list |
| PayrollService.AttendanceItemsShape | backend/src/services/payrollService.js:92-100 | The attendance items are positive deductions |
| PayrollService.OrderOfParts | backend/src/services/payrollService.js:153-176 | Allowances, then overtime, then deductions are in insertion order |
| PayrollService.AssembleOrder | backend/src/services/payrollService.js:153-176 | The assembled payslip's detail list is ordered and positive |
| PayrollService.DetailRows | backend/src/services/payrollService.js:153-176 | One detail row per line item, in order, all under the new payroll id |
| PayrollService.BuildPayslip | backend/src/services/payrollService.js:43-126 | The two accumulator loops compute exactly the payslip the specification function defines |
| PayrollService.ValidAfterCommit | backend/src/services/payrollService.js:129-176 | Committing a payroll under the next id with details pointing at it keeps ids fresh and every detail's payroll present |
| PayrollService.InsertPayroll | backend/src/services/payrollService.js:129-182 | The INSERT draws the next id; a rejected write rolls the rows back but the drawn id stays used; otherwise the draft row is stored under the next id and its detail rows are appended in order |
| PayrollService.CalculatePayroll | backend/src/services/payrollService.js:4-186 | An unknown employee or a missing or non-positive salary fails and changes nothing; otherwise the payslip is computed and its rows inserted all-or-nothing, the id drawn either way |
| PayrollController.Outcomes | backend/src/controllers/payrollController.js:17-23 | Each employee's outcome is calculatePayroll on that employee with its own fault |
| PayrollController.SummarizeCounts | backend/src/controllers/payrollController.js:17-33 | generated + failed is the number of ids, there is one error per failure in input order, and totalAmount sums the successful net pays only |
| PayrollController.BatchCreatesEverySuccess | backend/src/controllers/payrollController.js:17-33 | A failure does not stop the batch: every success has its draft record under the starting id plus the ids drawn before it, and the id counter advances once per employee whose INSERT ran, so at least once per success |
| PayrollController.DrawnBeforePrefix | backend/src/controllers/payrollController.js:17-33 | The ids drawn before an employee depend only on the employees before it |
| PayrollController.GenerateOne | backend/src/controllers/payrollController.js:17-33 | One pass of the loop: the tables change as ApplyOne says for the employee's outcome, and the results gain that outcome's tally |
| PayrollController.GeneratePayroll | backend/src/controllers/payrollController.js:6-50 | The loop's results and the tables it leaves are the batch summary and the batch application of the per-employee outcomes |
| PayrollController.ApproveOnlyOnce | backend/src/controllers/payrollController.js:202-215 | Approval succeeds exactly for a draft or pending_approval payroll, gives the row with status approved, approved_by the approver and approved_at the time and every other field unchanged, and cannot happen twice |
| PayrollController.Approve | backend/src/controllers/payrollController.js:198-232 | The row is approved in place when the guard holds; otherwise nothing changes |
| PayrollController.WithoutPayroll | backend/src/controllers/payrollController.js:238-241 | The rows left are exactly the detail rows of other payrolls |
| PayrollController.DeleteOnlyDrafts | backend/src/controllers/payrollController.js:238-248 | Only a draft can be deleted; this removes it and its details and nothing else; an approved payroll cannot be deleted |
| PayrollController.Delete | backend/src/controllers/payrollController.js:234-264 | Delete removes the draft and its details, or changes nothing |
| LeaveController.CreateRespectsCredits | backend/src/controllers/leaveController.js:184-239 | A request is filed only for at most the available days (max_days for a new credit row, remaining otherwise), refused exactly when it asks for more, and an unknown type fails |
| LeaveController.CreateOutcome | backend/src/controllers/leaveController.js:184-239 | An unknown leave type fails only when the year has no credit row; a filed request counts the weekdays, and it creates a credit row exactly when the year had none |
| LeaveController.Create | backend/src/controllers/leaveController.js:165-262 | The lazily created credit row and the pending request are stored together, or nothing is (refusals roll back) |
| LeaveController.UpdateGuards | backend/src/controllers/leaveController.js:273-321 | Update applies only to the caller's own pending request, keeps owner, type and status, and recounts the days when both dates are given |
| LeaveController.UpdateOneDateIsStale | backend/src/controllers/leaveController.js:297-321 | Moving only the start of a Monday–Friday request to Wednesday keeps 5 days where 3 are requested |
| LeaveController.SecondWeekOf2025 | backend/src/controllers/leaveController.js:175-182 | 2025-01-06 .. 01-10 holds five weekdays, and 01-08 .. 01-10 three |
| LeaveController.MondayToFriday | backend/src/controllers/leaveController.js:175-182 | Monday to Friday counts five weekdays and Wednesday to Friday three |
| LeaveController.UpdateCorrectedKeepsDays | backend/src/controllers/leaveController.js:297-321 | The corrected update keeps every day count equal to the weekdays of the stored dates |
| LeaveController.Update | backend/src/controllers/leaveController.js:264-344 | The guarded COALESCE update is stored, or nothing changes |
| LeaveController.MarkOnLeaveExactly | backend/src/controllers/leaveController.js:388-406 | Each weekday of the leave gets an on_leave row (other columns of an existing row kept), and every other row, weekends included, is untouched |
| LeaveController.ApproveKeepsCreditSum | backend/src/controllers/leaveController.js:378-386 | Approval moves the days from remaining to used, so used + remaining and the total are preserved |
| LeaveController.ApproveOutcome | backend/src/controllers/leaveController.js:346-428 | Only a pending request can be approved (otherwise 404), and when no write is rejected a pending one always is; the approved request keeps its user and days and records the reviewer |
| LeaveController.Approve | backend/src/controllers/leaveController.js:346-428 | A pending request is approved with its credits deducted and its weekdays marked on leave, all together; any failure leaves every table unchanged |
| LeaveController.LifeCycle | backend/src/controllers/leaveController.js:354-484 | Approve, decline and cancel (cancel by the requester only) each apply exactly to a pending request, move it to its final status, and after any of them none applies again |
| LeaveController.Decline | backend/src/controllers/leaveController.js:430-465 | A pending request is declined in place; otherwise nothing changes |
| LeaveController.Cancel | backend/src/controllers/leaveController.js:467-500 | The requester's pending request is cancelled in place; otherwise nothing changes |
| LeaveController.LeaveCredits | backend/src/controllers/leaveController.js:503-530 | Admin, hr or the user themself get exactly the user's credit rows of the year; anyone else is refused |
| Validators.TwoDigits | backend/src/validators/attendanceValidator.js:12 | A two-digit field is two digit characters |
| Validators.IsTime | backend/src/validators/attendanceValidator.js:12 | An accepted text is "HH:mm" of digits with hour ≤ 23 and minute ≤ 59 |
| Validators.TimeRoundTrip | backend/src/validators/attendanceValidator.js:12 | The pattern accepts exactly the zero-padded texts of times 00:00–23:59: printing then parsing and parsing then printing give back the input |
| Validators.TimeGrammarExamples | backend/src/validators/attendanceValidator.js:23 | "24:00", "8:00", "12:60" and "08:00:00" are refused; "00:00", "23:59" and "08:00" pass |
| Validators.TimeFieldRules | backend/src/validators/attendanceValidator.js:9-13 | A time field passes exactly when present and matching the pattern (never empty), and then names a valid time |
| Validators.StatusNamesRoundTrip | backend/src/validators/attendanceValidator.js:37-40 | The accepted status names are exactly the five statuses' names, one each |
| Validators.IntTextRoundTrip | backend/src/validators/attendanceValidator.js:45-50 | isInt accepts the decimal text of every integer and reads it back as that integer |
| Validators.ReportQueryOfNumbers | backend/src/validators/attendanceValidator.js:45-50 | A month and year written as integers pass exactly when the month is 1..12 and the year 2020..2100 |
| Validators.ReportQueryAccepts | backend/src/validators/attendanceValidator.js:45-50 | "02"/"2024" and "+12"/"2100" are valid report queries |
| Validators.ReportQueryRejects | backend/src/validators/attendanceValidator.js:45-50 | Month 13 or 0, year 2019, an empty or sign-only month are refused |
| AttendanceController.TextOrderIsTimeOrder | backend/src/controllers/attendanceController.js:151-157 | Comparing zero-padded "HH:mm" texts orders times as minutes since midnight do |
| AttendanceController.LateMinutes | backend/src/controllers/attendanceController.js:150-159 | Late minutes are the minutes past 08:00, or 0 at or before it |
| AttendanceController.TimeIn | backend/src/controllers/attendanceController.js:128-195 | A second time-in for the day is refused and changes nothing; otherwise the row with time, lateness and status is inserted |
| AttendanceController.WorkedHours | backend/src/controllers/attendanceController.js:229-235 | Worked hours are the minutes between the two clock times over 60, non-negative exactly when time-out is not earlier than time-in |
| AttendanceController.Overtime | backend/src/controllers/attendanceController.js:237-242 | Overtime is between 0 and the hours worked, positive exactly beyond 8 hours, and leaves at most 8 regular hours |
| AttendanceController.TimeOut | backend/src/controllers/attendanceController.js:197-273 | Time-out needs today's open record; it stores time_out with total and overtime hours, or changes nothing |
| AttendanceController.DayStateMachine | backend/src/controllers/attendanceController.js:137-227 | No time-out before time-in, one time-in per day, one time-out after it, with hours counted from the recorded time-in |
| AttendanceController.UpdateResetsOvertime | backend/src/controllers/attendanceController.js:281-306 | A remarks-only edit of a 10-hour day sets its 2 overtime hours to 0 |
| AttendanceController.UpdateCorrectedKeepsHours | backend/src/controllers/attendanceController.js:283-306 | The corrected update keeps overtime in step with total hours, and agrees with the written one when both times are given |
| AttendanceController.Update | backend/src/controllers/attendanceController.js:275-331 | The COALESCE update of the row is stored; a missing row is 404 and changes nothing |
| AttendanceController.StatusCountsPartition | backend/src/controllers/attendanceController.js:395-400 | The five status counts add up to the number of rows |
| AttendanceController.SummaryBounds | backend/src/controllers/attendanceController.js:394-404 | The present, late, absent and half-day counts add up to totalDays minus the on-leave days, and totalDays is at most the days of the period |
| AttendanceController.MonthRowsBound | backend/src/controllers/attendanceController.js:378-392 | A month has at most one row per day |
| AttendanceController.MonthlyReport | backend/src/controllers/attendanceController.js:365-416 | Refused exactly for a caller who is neither admin, hr nor the employee; otherwise totalDays is the row count and at most the month's length |
| Helpers.FormatTime | backend/src/utils/helpers.js:16-23 | "" exactly for a missing or empty time; otherwise the text ends in " AM" or " PM" |
| Helpers.FormatTimeOfClock | backend/src/utils/helpers.js:16-23 | On an "HH:mm" (or "HH:mm:ss") text the hour shows on the 12-hour dial, 0 and 12 as 12, PM from noon, the minutes copied; the shown hour and mark give back the hour |
| Helpers.FormatMidnight | backend/src/utils/helpers.js:17-22 | "00:30" shows as "12:30 AM"; an absent or empty time as "" |
| Helpers.FormatNoon | backend/src/utils/helpers.js:19-22 | "12:05" shows as "12:05 PM" |
| Helpers.FormatAfternoonWithSeconds | backend/src/utils/helpers.js:18-22 | "13:45:00" shows as "1:45 PM" |
| Helpers.Split | backend/src/utils/helpers.js:18 | split always yields at least one piece |
| Helpers.SplitWithoutSeparator | backend/src/utils/helpers.js:18 | A string without the separator splits into itself |
| Helpers.LexMax | backend/src/utils/helpers.js:26-28 | The chosen id is stored and no stored id is greater in string order |
| Helpers.LexLessTotal | backend/src/utils/helpers.js:26-28 | String order is total and antisymmetric |
| Helpers.LexLessTrans | backend/src/utils/helpers.js:26-28 | String order is transitive |
| Helpers.NextEmployeeId | backend/src/utils/helpers.js:34-36 | The next id is "EMP" followed by at least three characters |
| Helpers.GenerateEmployeeId | backend/src/utils/helpers.js:25-37 | Every generated id is "EMP" followed by at least three characters; with no users it is EMP001 |
| Helpers.NextOfCanonical | backend/src/utils/helpers.js:34-36 | The id after EMPn (padded to 3 digits) is EMP(n+1): EMP009 → EMP010, EMP999 → EMP1000 |
| Helpers.CanonicalExamples | backend/src/utils/helpers.js:31-36 | Employee numbers 1, 999 and 1000 print as EMP001, EMP999 and EMP1000 |
| Helpers.GenerateEmployeeIdDuplicates | backend/src/utils/helpers.js:25-37 | EMP001 comes first; with EMP999 and EMP1000 stored the generator returns EMP1000 again |
| Helpers.MaxNumber | backend/src/utils/helpers.js:26-28 | The greatest employee number is at least every stored one |
| Helpers.CorrectedIsFresh | backend/src/utils/helpers.js:25-37 | The corrected generator's number is one past every stored number, so it never repeats a stored id |
| Helpers.CorrectedStartsAtOne | backend/src/utils/helpers.js:30-32 | Both generators give EMP001 for no users |
| Helpers.CorrectedAgreesOnSuccessor | backend/src/utils/helpers.js:34-36 | With one stored id the corrected generator agrees with the written one |
| Helpers.CalculateAge | backend/src/utils/helpers.js:39-50 | The age is the difference of the years, and exactly that when this year's birthday has come; otherwise one less |
| Helpers.AgeIsCompletedYears | backend/src/utils/helpers.js:39-50 | The age is the number of completed years (that birthday has come, the next has not), so ≥ 0 for a birth date on or before today |
| UserController.StripPasswordHash | backend/src/controllers/userController.js:254 | The user handed back has every column but password_hash |
| UserController.ListedUsers | backend/src/controllers/userController.js:61-64 | The listed users are the rows, in order, each without password_hash |
| UserController.GetById | backend/src/controllers/userController.js:83-115 | 403 unless admin, hr or self; 404 for no row; else the row without password_hash |
| UserController.BuildListQuery | backend/src/controllers/userController.js:17-58 | Each present filter's placeholder is its position and reads its own parameter; LIMIT and OFFSET take the last two; the count query is handed the rest |
| UserController.RemoveSensitive | backend/src/controllers/userController.js:198-199 | Exactly the fields other than password and password_hash remain |
| UserController.MapColumns | backend/src/controllers/userController.js:216-220 | The forEach loop builds exactly the renamed field list |
| UserController.AssignMeaning | backend/src/controllers/userController.js:219 | Assigning a property keeps keys distinct, adds the key, sets its value and leaves other keys |
| UserController.MapColumnsMeaning | backend/src/controllers/userController.js:202-227 | dbUpdates has each renamed column once, holding the value of the last body key renamed to it, and is empty exactly when the body is |
| UserController.Renamed | backend/src/controllers/userController.js:218-219 | Renaming keeps the number of fields |
| UserController.ColumnsOf | backend/src/controllers/userController.js:218 | Every written column comes from some body key |
| UserController.MapColumnsRenames | backend/src/controllers/userController.js:202-220 | Without collisions the mapping is a pure rename: same order, same values |
| UserController.PlaceholdersBindValues | backend/src/controllers/userController.js:230-235 | $1 is the id, the k-th column reads $(k+2), which holds its value, and the placeholders 2..|values| are distinct |
| UserController.Update | backend/src/controllers/userController.js:184-264 | The stored row is the specification's new row, written under the lower-cased SET columns, and the answer lacks password_hash; any refusal changes nothing |
| UserController.FoldedKeys | backend/src/controllers/userController.js:230-235 | The columns the database reads are the body's columns folded to lower case |
| UserController.FoldedLookup | backend/src/controllers/userController.js:230-235 | When no two folded columns clash, each folded column holds its own key's value |
| UserController.FoldedInjective | backend/src/controllers/userController.js:230-235 | When no two folded columns clash, no two distinct keys fold to the same column |
| UserController.ColumnForFolds | backend/src/controllers/userController.js:202-218 | Neither a key that columnMap renames nor its column folds to password_hash |
| UserController.ApplyFieldsMeaning | backend/src/controllers/userController.js:235 | SET writes each listed column and keeps every other one |
| UserController.UpdateMeaning | backend/src/controllers/userController.js:184-244 | For any body left after the password filter, a successful update requires admin, hr or self and an existing row; it writes updated_at and each renamed column, lower-cased, with the last value given for it; no two columns fold together; every other column is kept |
| UserController.CaseVariantWritesHash | backend/src/controllers/userController.js:198-235 | Any spelling of password_hash other than the exact one passes the filter, and an employee's update of their own row writes it to the stored hash |
| UserController.SingleKeyUpdate | backend/src/controllers/userController.js:184-244 | A one-key body that neither the filter nor columnMap touches sets exactly the folded column and updated_at |
| UserController.UpperCaseKeyWritesHash | backend/src/controllers/userController.js:198-235 | The body {"PASSWORD_HASH": h} from an employee for their own row overwrites the stored hash with h |
| UserController.NoHashColumn | backend/src/controllers/userController.js:198-220 | When no body key folds to password_hash, no written column folds to password_hash |
| UserController.RemoveSensitiveCorrected | backend/src/controllers/userController.js:198-199 | The intended filter keeps exactly the fields whose folded key is neither password nor password_hash |
| UserController.UpdateKeepsPasswordHash | backend/src/controllers/userController.js:198-254 | With the corrected filter an update never changes the stored password hash and never returns it |
| UserController.CorrectedFilterAgrees | backend/src/controllers/userController.js:198-199 | On bodies whose password keys are spelled exactly, the corrected filter is the written one |
| UserController.NothingToUpdate | backend/src/controllers/userController.js:222-227 | An empty body, or one with only password fields, is refused with 400 |
| UserController.EmployeeMaySetOwnRole | backend/src/controllers/userController.js:190-220 | The only check is admin, hr or self: an employee may set the role column of their own row |
| ErrorHandler.HandleError | backend/src/middleware/errorHandler.js:30-32 | The answer always has success false |
| ErrorHandler.ErrorResponses | backend/src/middleware/errorHandler.js:5-28 | 23505 is 409 and 23503, 23502, 22P02 are 400 with their messages whatever the error carried; any other error keeps its status or 500 and its message or "Internal server error" |
| ErrorHandler.TranslatedStatuses | backend/src/middleware/errorHandler.js:9-28 | Translated codes are client errors, and only a unique violation is a conflict |
| ErrorHandler.BareErrorIs500 | backend/src/middleware/errorHandler.js:5-6 | An error without status, message or code (or with falsy ones) is 500 "Internal server error" |

## Left out

- The SQL itself, the connection pool and node-postgres are not modelled. Tables are maps and sequences. A query becomes what it selects or writes, and the SUM/COUNT aggregate of the payroll is a sum over the days of the period.
- Database failures are modelled as one injected rejected write per transaction, in calculatePayroll and leave approval only. The other transactions (leave create/update, attendance time-in/out) model only their own refusals.
- PayrollService.PayrollOutcome: basic_salary is read as a number, or as a plain decimal text (an optional '-', digits, an optional '.' and digits), which is how NUMERIC arrives and how a form sends it. Any other text is refused here as having no salary. The source goes on with such text: `"abc" <= 0` is false, so the pay figures become NaN. Text such as "12abc" or " 12" is read by parseFloat's prefix rule. Real numbers cannot carry NaN, so these cases are not modelled.
- Column types, NOT NULL, foreign keys and the serial id columns of attendance and payroll_details are left out. Attendance rows are keyed by (user, date). The database schema is not part of this model.
- PayrollController.Delete: the removal of a payroll's detail rows is modelled as the foreign key's ON DELETE CASCADE. The schema that would confirm this is not part of this model.
- JavaScript number arithmetic is left out. Money and hours are real numbers, so IEEE rounding, `parseFloat` of anything but a plain decimal text and the `toFixed(2)` text rounding of hours are not modelled.
- The clock and the time zone are left out. Today, the current time and the year are parameters. `new Date(...)` parsing and local-time `getDay` are replaced by day numbers.
- LeaveController.MarkOnLeave marks the leave's own weekdays. The source writes each day as `date.toISOString().split('T')[0]` (backend/src/controllers/leaveController.js:389-395). Its Date starts from the start_date that node-postgres parses at local midnight, so east of UTC (the Philippines is UTC+8) that text is the previous calendar day. A Monday–Friday leave would then be marked Sunday–Thursday. This depends on the server's time zone and is not modelled.
- Most `NOW()` timestamps are left out. Only a payroll's approved_at and a user's updated_at on update take `NOW()` as a parameter. Leave requests and attendance rows have no field for the others, which are:
  - reviewed_at in leave approve and decline (backend/src/controllers/leaveController.js:372, 437);
  - updated_at in leave update and cancel (backend/src/controllers/leaveController.js:317, 473);
  - updated_at in attendance time-out and update (backend/src/controllers/attendanceController.js:246, 302).
- `logActivity` (an audit insert that swallows its errors) is left out, as are authentication, JWT, bcrypt and the role middleware.
- `formatCurrency` and `formatDate` (Intl formatting), the PDF and Excel stubs, the seed scripts and the frontend are left out.
- The express-validator chains other than the attendance ones are left out. The date check of the time-in body is also left out, because the controller takes the date from the clock.
- Helpers.FormatTime: `parseInt` is modelled without its skipping of leading white space. JavaScript's `%` on a negative hour is modelled, but nothing is proved about negative hours.
- Helpers.GenerateEmployeeId: `ORDER BY employee_id DESC` is modelled as character-code order, so a database collation that orders digits differently is not captured. A NULL employee_id, which sorts first, is not modelled either.
- Helpers.CalculateAge: the birth date is taken as calendar fields, so the UTC parsing of `new Date(dateOfBirth)` is not modelled.
- UserController.Update:
  - The body is a list of distinct keys in `Object.keys` order, with string, number or null values.
  - A key inherited from `Object.prototype` (such as "constructor") is not modelled: columnMap would return a function for it.
  - A value of the wrong type for its column is not modelled; it would make the database answer 22P02.
  - Of the database's own refusals, only an unknown column (42703) and a column assigned twice, updated_at included (42601), are modelled.
  - The SET clause splices each key in unquoted. The model folds it to lower case, ASCII A to Z only. A key that is not a plain identifier (spaces, quotes, any SQL text) changes the statement itself and can inject SQL; that is not modelled.
- UserController.BuildListQuery builds the conditions and parameters, not the SQL text. getAll's count query keeps the SQL `SELECT COUNT(*) FROM users WHERE 1=1`, with no condition and no placeholder, yet it is given one parameter per filter (backend/src/controllers/userController.js:51-56). So with any filter present the database refuses the count query's bind, because it has more parameters than placeholders, and getAll answers 500 through `next(error)`. The model states only the parameters the count query is given. The refusal and the 500 are left out.
- User create, delete and changeStatus are left out; of the user operations only update, getById and the getAll listing are modelled.
- ErrorHandler: the development-mode `stack` and `error` fields of the body are left out.
- LeaveController.LeaveCredits: the join with leave_types (backend/src/controllers/leaveController.js:516-521) adds leave_type_name and max_days to each row and orders the rows by leave type name. The model answers a map from leave type to credit row, so those two columns and the order are not modelled.
- The attendance routes mount timeIn and timeOut without attendanceValidator (backend/src/routes/attendance.routes.js:11-12). So the time-in and time-out chains (Validators.TimeFieldValid and Validators.TimeOutBodyValid, with the Validators.TimeFieldRules row above) never run for those routes, and those bodies reach the controller unchecked. The model states the chains as written, on their own; the attendance controllers take their inputs as given.
- PayrollService.InsertPayroll: the serial sequence hands out the id when the INSERT runs, outside the transaction. The model takes a rejection of the INSERT itself (write 0) to come after the id was drawn, so the id counter moves on for every rejected write.
- Leave requests: the getAll, getById and my-leaves listings and the leave-type listing are left out.

## Findings

| source | as written | input that shows it | evidently intended | confidence | as-written member | corrected member |
|---|---|---|---|---|---|---|
| backend/src/controllers/attendanceController.js:281-299 | `overtimeHours` starts at 0, not null, so `COALESCE($4, overtime_hours)` writes 0 whenever timeIn and timeOut are not both given | a row 08:00–18:00 with 10 hours and 2 overtime hours, updated with remarks only, ends with overtime 0 and total 10 | overtime, like total_hours, is kept unless both times are given | high (not executed) | AttendanceController.UpdateResetsOvertime | AttendanceController.UpdateCorrectedKeepsHours |
| backend/src/controllers/leaveController.js:297-321 | the day count is recomputed only when both dates are given, yet each date given alone still replaces the stored one | a Monday–Friday request (5 days) whose start alone moves to Wednesday keeps total_days 5 for a 3-day leave | the day count is the weekdays of the dates the row ends up with | high (not executed) | LeaveController.UpdateOneDateIsStale | LeaveController.UpdateCorrectedKeepsDays |
| backend/src/controllers/userController.js:198-235 | `delete updates.password_hash` removes only that exact key, but the key is spliced unquoted into SET and the database folds it to lower case | an employee updating their own row with the body {"PASSWORD_HASH": h} overwrites the stored hash with h | an update never changes the stored password hash | high (not executed) | UserController.UpperCaseKeyWritesHash | UserController.UpdateKeepsPasswordHash |
| backend/src/utils/helpers.js:26-36 | the last id is the greatest in string order, where "EMP999" > "EMP1000" | with EMP999 and EMP1000 stored the next id is EMP1000 again | the next id is one past the greatest employee number | high (not executed) | Helpers.GenerateEmployeeIdDuplicates | Helpers.CorrectedIsFresh |

The methods `AttendanceController.Update` and `LeaveController.Update` model the code as
written. The corrected functions `AttendanceController.UpdateOutcomeCorrected`,
`LeaveController.UpdateOutcomeCorrected`, `Helpers.GenerateEmployeeIdCorrected` and
`UserController.UpdateOutcomeCorrected` state the
intended behaviour, and the lemmas in the last column prove it.
