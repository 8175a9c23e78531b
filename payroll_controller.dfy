/**
 * The payroll endpoints of backend/src/controllers/payrollController.js: batch generation over a
 * list of employees with per-employee failure isolation, and the status guards of approve and
 * delete.
 */
module PayrollController {
  import opened Basics
  import opened Dates
  import opened Store
  import opened PayrollService

  // ---------------------------------------------------------------- batch generation

  datatype BatchError = BatchError(employeeId: int, error: PayrollError)

  /** The `results` object: counts, the failures in input order, and the sum of net pay. */
  datatype BatchResult = BatchResult(generated: nat, failed: nat, errors: seq<BatchError>, totalAmount: real)

  /** What calculatePayroll gives for each employee of the batch, each with its own injected fault. */
  function Outcomes(users: map<int, UserRow>, att: map<AttendanceKey, AttendanceRow>,
                    allowances: seq<Rule>, deductions: seq<Rule>,
                    ids: seq<int>, start: Day, end: Day, faults: seq<StoreFault>): (out: seq<Result<Payslip, PayrollError>>)
    requires |faults| == |ids|
    ensures |out| == |ids|
    ensures forall i :: 0 <= i < |ids| ==>
      out[i] == PayrollOutcome(users, att, allowances, deductions, ids[i], start, end, faults[i])
  {
    seq(|ids|, i requires 0 <= i < |ids| =>
      PayrollOutcome(users, att, allowances, deductions, ids[i], start, end, faults[i]))
  }

  /** The results after the loop body has run for each employee in turn. */
  function Summarize(ids: seq<int>, outcomes: seq<Result<Payslip, PayrollError>>): BatchResult
    requires |outcomes| == |ids|
    decreases |ids|
  {
    if ids == [] then BatchResult(0, 0, [], 0.0)
    else
      Tally(Summarize(ids[..|ids| - 1], outcomes[..|ids| - 1]), ids[|ids| - 1], outcomes[|ids| - 1])
  }

  /** One employee's contribution: a success counts and adds its net pay, a failure counts and records the error. */
  function Tally(acc: BatchResult, id: int, outcome: Result<Payslip, PayrollError>): BatchResult
  {
    match outcome
    case Success(p) => acc.(generated := acc.generated + 1, totalAmount := acc.totalAmount + p.netPay)
    case Failure(e) => acc.(failed := acc.failed + 1, errors := acc.errors + [BatchError(id, e)])
  }

  lemma SummarizeStep(ids: seq<int>, outcomes: seq<Result<Payslip, PayrollError>>, i: nat)
    requires |outcomes| == |ids| && i < |ids|
    ensures Summarize(ids[..i + 1], outcomes[..i + 1]) == Tally(Summarize(ids[..i], outcomes[..i]), ids[i], outcomes[i])
  {
    assert ids[..i + 1][..i] == ids[..i];
    assert outcomes[..i + 1][..i] == outcomes[..i];
  }

  /** The net pay of the employees whose payroll was generated, in input order. */
  function SuccessNets(outcomes: seq<Result<Payslip, PayrollError>>): seq<real>
    decreases |outcomes|
  {
    if outcomes == [] then []
    else SuccessNets(outcomes[..|outcomes| - 1])
         + (if outcomes[|outcomes| - 1].Success? then [outcomes[|outcomes| - 1].value.netPay] else [])
  }

  /** The employees whose payroll failed, in input order. */
  function FailedIds(ids: seq<int>, outcomes: seq<Result<Payslip, PayrollError>>): seq<int>
    requires |outcomes| == |ids|
    decreases |ids|
  {
    if ids == [] then []
    else FailedIds(ids[..|ids| - 1], outcomes[..|ids| - 1])
         + (if outcomes[|ids| - 1].Failure? then [ids[|ids| - 1]] else [])
  }

  /**
   * The counts account for every employee, there is one error entry per failure naming the
   * failed employees in input order, and the total is the sum of the successful net pays only.
   */
  lemma {:induction false} SummarizeCounts(ids: seq<int>, outcomes: seq<Result<Payslip, PayrollError>>)
    requires |outcomes| == |ids|
    ensures var r := Summarize(ids, outcomes);
      && r.generated + r.failed == |ids|
      && |r.errors| == r.failed
      && r.generated == |SuccessNets(outcomes)|
      && r.totalAmount == Sum(SuccessNets(outcomes))
      && |r.errors| == |FailedIds(ids, outcomes)|
      && forall k :: 0 <= k < |r.errors| ==> r.errors[k].employeeId == FailedIds(ids, outcomes)[k]
    decreases |ids|
  {
    if ids != [] {
      var n := |ids| - 1;
      SummarizeCounts(ids[..n], outcomes[..n]);
      assert outcomes[..n] == outcomes[..|outcomes| - 1];
      var nets := SuccessNets(outcomes[..n]);
      if outcomes[n].Success? {
        SumAppend(nets, [outcomes[n].value.netPay]);
        assert Sum([outcomes[n].value.netPay]) == outcomes[n].value.netPay by {
          assert [outcomes[n].value.netPay][..0] == [];
        }
      } else {
        assert nets + [] == nets;
      }
    }
  }

  /** How many of the first i employees drew a payroll id: the ids consumed before employee i. */
  function DrawnBefore(outcomes: seq<Result<Payslip, PayrollError>>, i: nat): nat
    requires i <= |outcomes|
    decreases i
  {
    if i == 0 then 0 else DrawnBefore(outcomes, i - 1) + (if DrawsId(outcomes[i - 1]) then 1 else 0)
  }

  /** The payroll and detail tables and the id counter as the batch leaves them. */
  datatype Tables = Tables(payrolls: map<int, PayrollRecord>, details: seq<DetailRow>, nextId: int)

  /** The tables after employees ids[..] have been processed in order, each success committing its rows. */
  function ApplyBatch(t: Tables, ids: seq<int>, outcomes: seq<Result<Payslip, PayrollError>>, start: Day, end: Day): Tables
    requires |outcomes| == |ids|
    decreases |ids|
  {
    if ids == [] then t
    else ApplyOne(ApplyBatch(t, ids[..|ids| - 1], outcomes[..|ids| - 1], start, end), ids[|ids| - 1], outcomes[|ids| - 1], start, end)
  }

  /**
   * One employee's transaction: a success inserts its draft and details under the next id; a
   * rejected write leaves the tables but uses up the id; an earlier refusal leaves everything.
   */
  function ApplyOne(before: Tables, id: int, outcome: Result<Payslip, PayrollError>, start: Day, end: Day): Tables
  {
    match outcome
    case Failure(e) => if e.StoreError? then before.(nextId := before.nextId + 1) else before
    case Success(p) =>
      Tables(before.payrolls[before.nextId := DraftRecord(id, start, end, p)],
             before.details + DetailRows(before.nextId, LineItems(p)),
             before.nextId + 1)
  }

  /** What calculatePayroll promises about the tables, for one outcome, is one ApplyOne step. */
  lemma CalculateIsApplyOne(before: Tables, after: Tables, id: int, o: Result<Payslip, PayrollError>, start: Day, end: Day)
    requires match o
      case Failure(e) =>
        && after.payrolls == before.payrolls && after.details == before.details
        && after.nextId == before.nextId + (if DrawsId(o) then 1 else 0)
      case Success(p) =>
        && after.payrolls == before.payrolls[before.nextId := DraftRecord(id, start, end, p)]
        && after.details == before.details + DetailRows(before.nextId, LineItems(p))
        && after.nextId == before.nextId + 1
    ensures after == ApplyOne(before, id, o, start, end)
  {
  }

  lemma ApplyBatchStep(t: Tables, ids: seq<int>, outcomes: seq<Result<Payslip, PayrollError>>, i: nat, start: Day, end: Day)
    requires |outcomes| == |ids| && i < |ids|
    ensures ApplyBatch(t, ids[..i + 1], outcomes[..i + 1], start, end)
         == ApplyOne(ApplyBatch(t, ids[..i], outcomes[..i], start, end), ids[i], outcomes[i], start, end)
  {
    assert ids[..i + 1][..i] == ids[..i];
    assert outcomes[..i + 1][..i] == outcomes[..i];
  }

  /**
   * A failure does not stop the batch: every employee whose payroll succeeded has its draft
   * record under the id counted from the starting counter by the ids drawn before it, and the
   * counter advances once per employee whose INSERT ran, succeeded or rolled back.
   */
  lemma {:induction false} BatchCreatesEverySuccess(t: Tables, ids: seq<int>, outcomes: seq<Result<Payslip, PayrollError>>,
                                                    start: Day, end: Day)
    requires |outcomes| == |ids|
    requires forall id :: id in t.payrolls ==> id < t.nextId
    ensures var r := ApplyBatch(t, ids, outcomes, start, end);
      && r.nextId == t.nextId + DrawnBefore(outcomes, |ids|)
      && (forall id :: id in r.payrolls ==> id < r.nextId)
      && (forall id :: id in t.payrolls ==> id in r.payrolls && r.payrolls[id] == t.payrolls[id])
      && forall i :: 0 <= i < |ids| && outcomes[i].Success? ==>
           var id := t.nextId + DrawnBefore(outcomes, i);
           id in r.payrolls && r.payrolls[id] == DraftRecord(ids[i], start, end, outcomes[i].value)
    decreases |ids|
  {
    if ids != [] {
      var n := |ids| - 1;
      BatchCreatesEverySuccess(t, ids[..n], outcomes[..n], start, end);
      assert forall i :: 0 <= i <= n ==> DrawnBefore(outcomes[..n], i) == DrawnBefore(outcomes, i) by {
        forall i | 0 <= i <= n
          ensures DrawnBefore(outcomes[..n], i) == DrawnBefore(outcomes, i)
        {
          DrawnBeforePrefix(outcomes, n, i);
        }
      }
    }
  }

  lemma {:induction false} DrawnBeforePrefix(outcomes: seq<Result<Payslip, PayrollError>>, n: nat, i: nat)
    requires i <= n <= |outcomes|
    ensures DrawnBefore(outcomes[..n], i) == DrawnBefore(outcomes, i)
    decreases i
  {
    if i > 0 {
      DrawnBeforePrefix(outcomes, n, i - 1);
    }
  }

  /** The body of generatePayroll's loop: calculatePayroll for one employee, and its tally in the results. */
  method GenerateOne(db: Database, id: int, start: Day, end: Day, fault: StoreFault, acc: BatchResult)
    returns (next: BatchResult)
    requires db.Valid()
    modifies db`payrolls, db`payrollDetails, db`nextPayrollId
    ensures db.Valid()
    ensures var o := PayrollOutcome(db.users, db.attendance, db.allowances, db.deductions, id, start, end, fault);
      && next == Tally(acc, id, o)
      && Tables(db.payrolls, db.payrollDetails, db.nextPayrollId)
         == ApplyOne(Tables(old(db.payrolls), old(db.payrollDetails), old(db.nextPayrollId)), id, o, start, end)
  {
    ghost var before := Tables(db.payrolls, db.payrollDetails, db.nextPayrollId);
    ghost var o := PayrollOutcome(db.users, db.attendance, db.allowances, db.deductions, id, start, end, fault);
    var r := CalculatePayroll(db, id, start, end, fault);
    CalculateIsApplyOne(before, Tables(db.payrolls, db.payrollDetails, db.nextPayrollId), id, o, start, end);
    match r {
      case Success(created) =>
        next := acc.(generated := acc.generated + 1, totalAmount := acc.totalAmount + created.record.netPay);
      case Failure(e) =>
        next := acc.(failed := acc.failed + 1, errors := acc.errors + [BatchError(id, e)]);
    }
  }

  /**
   * generatePayroll: for each employee in turn, calculatePayroll inside its own try/catch; a
   * success counts and adds its net pay, a failure counts and records the employee and error.
   */
  method GeneratePayroll(db: Database, ids: seq<int>, start: Day, end: Day, faults: seq<StoreFault>)
    returns (results: BatchResult)
    requires db.Valid()
    requires |faults| == |ids|
    modifies db`payrolls, db`payrollDetails, db`nextPayrollId
    ensures db.Valid()
    ensures var out := Outcomes(db.users, db.attendance, db.allowances, db.deductions, ids, start, end, faults);
      && results == Summarize(ids, out)
      && Tables(db.payrolls, db.payrollDetails, db.nextPayrollId)
         == ApplyBatch(Tables(old(db.payrolls), old(db.payrollDetails), old(db.nextPayrollId)), ids, out, start, end)
  {
    ghost var out := Outcomes(db.users, db.attendance, db.allowances, db.deductions, ids, start, end, faults);
    ghost var t0 := Tables(db.payrolls, db.payrollDetails, db.nextPayrollId);
    results := BatchResult(0, 0, [], 0.0);
    var i := 0;
    while i < |ids|
      invariant 0 <= i <= |ids|
      invariant db.Valid()
      invariant out == Outcomes(db.users, db.attendance, db.allowances, db.deductions, ids, start, end, faults)
      invariant results == Summarize(ids[..i], out[..i])
      invariant Tables(db.payrolls, db.payrollDetails, db.nextPayrollId) == ApplyBatch(t0, ids[..i], out[..i], start, end)
    {
      ghost var before := Tables(db.payrolls, db.payrollDetails, db.nextPayrollId);
      assert out[i] == PayrollOutcome(db.users, db.attendance, db.allowances, db.deductions, ids[i], start, end, faults[i]);
      results := GenerateOne(db, ids[i], start, end, faults[i], results);
      ApplyBatchStep(t0, ids, out, i, start, end);
      SummarizeStep(ids, out, i);
      i := i + 1;
    }
    assert ids[..i] == ids;
    assert out[..i] == out;
  }

  // ---------------------------------------------------------------- approve and delete

  predicate Approvable(s: PayrollStatus)
  {
    s == Draft || s == PendingApproval
  }

  /**
   * approve's UPDATE ... WHERE id = $2 AND status IN ('draft', 'pending_approval'): the approved
   * record, or None when no row matches (not found or already processed).
   */
  function ApprovePayroll(payrolls: map<int, PayrollRecord>, id: int, approver: int, now: Day): Option<PayrollRecord>
  {
    if id in payrolls && Approvable(payrolls[id].status) then
      Some(payrolls[id].(status := PayrollStatus.Approved, approvedBy := Some(approver), approvedAt := Some(now)))
    else None
  }

  /**
   * Approval succeeds exactly for a draft or pending payroll; it changes the status, approver
   * and time and no pay figure; and a payroll can be approved only once.
   */
  lemma ApproveOnlyOnce(payrolls: map<int, PayrollRecord>, id: int, approver: int, now: Day, approver2: int, later: Day)
    ensures ApprovePayroll(payrolls, id, approver, now).Some? <==> id in payrolls && Approvable(payrolls[id].status)
    ensures var r := ApprovePayroll(payrolls, id, approver, now);
      r.Some? ==>
        && r.value == payrolls[id].(status := PayrollStatus.Approved, approvedBy := Some(approver), approvedAt := Some(now))
        && r.value.netPay == payrolls[id].netPay && r.value.grossPay == payrolls[id].grossPay
        && r.value.userId == payrolls[id].userId
        && ApprovePayroll(payrolls[id := r.value], id, approver2, later).None?
  {
  }

  /** approve: update the row in place when the guard holds; otherwise nothing changes. */
  method Approve(db: Database, id: int, approver: int, now: Day) returns (r: Option<PayrollRecord>)
    requires db.Valid()
    modifies db`payrolls
    ensures db.Valid()
    ensures r == ApprovePayroll(old(db.payrolls), id, approver, now)
    ensures r.Some? ==> db.payrolls == old(db.payrolls)[id := r.value]
    ensures r.None? ==> db.payrolls == old(db.payrolls)
  {
    if id in db.payrolls && Approvable(db.payrolls[id].status) {
      var record := db.payrolls[id].(status := PayrollStatus.Approved, approvedBy := Some(approver), approvedAt := Some(now));
      db.payrolls := db.payrolls[id := record];
      r := Some(record);
    } else {
      r := None;
    }
  }

  /** The detail rows of other payrolls, in order: what the cascade leaves behind. */
  function WithoutPayroll(details: seq<DetailRow>, id: int): (rest: seq<DetailRow>)
    ensures forall d :: d in rest <==> d in details && d.payrollId != id
    decreases |details|
  {
    if details == [] then []
    else
      var last := details[|details| - 1];
      assert forall d :: d in details <==> d in details[..|details| - 1] || d == last;
      WithoutPayroll(details[..|details| - 1], id) + (if last.payrollId != id then [last] else [])
  }

  /** delete's DELETE ... WHERE id = $1 AND status = 'draft': the tables afterwards, or None when no row matches. */
  function DeletePayroll(payrolls: map<int, PayrollRecord>, details: seq<DetailRow>, id: int)
    : Option<(map<int, PayrollRecord>, seq<DetailRow>)>
  {
    if id in payrolls && payrolls[id].status == Draft then Some((payrolls - {id}, WithoutPayroll(details, id)))
    else None
  }

  /**
   * Only a draft can be deleted; deleting it leaves every other payroll and its details as they
   * were and no detail row behind; once approved a payroll can no longer be deleted.
   */
  lemma DeleteOnlyDrafts(payrolls: map<int, PayrollRecord>, details: seq<DetailRow>, id: int, approver: int, now: Day)
    ensures DeletePayroll(payrolls, details, id).Some? <==> id in payrolls && payrolls[id].status == Draft
    ensures var r := DeletePayroll(payrolls, details, id);
      r.Some? ==>
        && id !in r.value.0
        && (forall other :: other in payrolls && other != id ==> other in r.value.0 && r.value.0[other] == payrolls[other])
        && (forall d :: d in r.value.1 ==> d.payrollId != id)
        && (forall d :: d in details && d.payrollId != id ==> d in r.value.1)
    ensures var a := ApprovePayroll(payrolls, id, approver, now);
      a.Some? ==> DeletePayroll(payrolls[id := a.value], details, id).None?
  {
  }

  /** delete: remove a draft payroll and, by the foreign key's cascade, its detail rows. */
  method Delete(db: Database, id: int) returns (deleted: bool)
    requires db.Valid()
    modifies db`payrolls, db`payrollDetails
    ensures db.Valid()
    ensures deleted <==> DeletePayroll(old(db.payrolls), old(db.payrollDetails), id).Some?
    ensures deleted ==> (db.payrolls, db.payrollDetails) == DeletePayroll(old(db.payrolls), old(db.payrollDetails), id).value
    ensures !deleted ==> db.payrolls == old(db.payrolls) && db.payrollDetails == old(db.payrollDetails)
  {
    if id in db.payrolls && db.payrolls[id].status == Draft {
      var rest := WithoutPayroll(db.payrollDetails, id);
      forall k | 0 <= k < |rest|
        ensures rest[k].payrollId in db.payrolls - {id}
      {
        assert rest[k] in rest;
        assert rest[k] in db.payrollDetails;
      }
      db.payrolls := db.payrolls - {id};
      db.payrollDetails := rest;
      deleted := true;
    } else {
      deleted := false;
    }
  }
}
