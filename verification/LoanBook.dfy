/** The loan table and the transaction log tell the same story, loan by loan and in
    total, in every reachable state. */
module LoanBook {
  import opened Domain
  import opened Ledger
  import opened BankSpec
  import opened Sums
  import opened Conservation
  import Emi

  predicate Concerns(row: Row, kind: TxnType, id: LoanId) {
    row.kind == kind && row.memo == ForLoan(id)
  }

  /** The sum of one loan's rows of one kind. */
  function LoanTotal(log: seq<Row>, kind: TxnType, id: LoanId): int {
    if log == [] then 0
    else LoanTotal(log[..|log| - 1], kind, id) + (if Concerns(log[|log| - 1], kind, id) then log[|log| - 1].amount else 0)
  }

  function LoanCount(log: seq<Row>, kind: TxnType, id: LoanId): nat {
    if log == [] then 0
    else LoanCount(log[..|log| - 1], kind, id) + (if Concerns(log[|log| - 1], kind, id) then 1 else 0)
  }

  function DisbursedOf(loan: Loan): int {
    if loan.Disbursed() then loan.principal else 0
  }

  function OutstandingOf(loan: Loan): int {
    if loan.Payable() then loan.remaining else 0
  }

  /** LoanRepository.total_disbursed and total_outstanding. */
  ghost function TotalDisbursed(s: Store): int { Sum(s.loans, DisbursedOf) }

  ghost function TotalOutstanding(s: Store): int { Sum(s.loans, OutstandingOf) }

  /** One loan on its own. APPROVED is never reached. */
  predicate LoanOk(loan: Loan) {
    && loan.principal > 0 && loan.emi > 0 && loan.tenure >= 1 && loan.emi * loan.tenure >= loan.principal
    && loan.paid >= 0 && loan.remaining >= 0 && loan.paid + loan.remaining == loan.principal
    && match loan.status
       case PENDING | REJECTED => loan.paid == 0 && loan.approval.None? && loan.nextEmi.None?
       case APPROVED => false
       case ACTIVE => loan.remaining > 0 && loan.approval.Some? && loan.nextEmi.Some?
       case CLOSED => loan.remaining == 0 && loan.approval.Some? && loan.nextEmi.None?
  }

  /** One loan against its rows in the log: disbursed once and in full if at all, paid
      what its repayment rows say, and due thirty days after each payment. */
  predicate LoanLogged(log: seq<Row>, id: LoanId, loan: Loan) {
    && LoanTotal(log, LOAN_DISBURSEMENT, id) == DisbursedOf(loan)
    && LoanCount(log, LOAN_DISBURSEMENT, id) == (if loan.Disbursed() then 1 else 0)
    && LoanTotal(log, LOAN_REPAYMENT, id) == loan.paid
    && (!loan.Disbursed() ==> LoanCount(log, LOAN_REPAYMENT, id) == 0)
    && (loan.status.ACTIVE? && loan.approval.Some? ==>
          loan.nextEmi == Some(loan.approval.value + THIRTY_DAYS * (LoanCount(log, LOAN_REPAYMENT, id) + 1)))
  }

  predicate Unlogged(log: seq<Row>, id: LoanId) {
    && LoanTotal(log, LOAN_DISBURSEMENT, id) == 0 == LoanTotal(log, LOAN_REPAYMENT, id)
    && LoanCount(log, LOAN_DISBURSEMENT, id) == 0 == LoanCount(log, LOAN_REPAYMENT, id)
  }

  ghost predicate TotalsAgree(s: Store) {
    && TotalDisbursed(s) == TotalByType(s.ledger.log, LOAN_DISBURSEMENT)
    && TotalDisbursed(s) - TotalOutstanding(s) == TotalByType(s.ledger.log, LOAN_REPAYMENT)
  }

  ghost predicate LoansAgree(s: Store) {
    && (forall id :: id in s.loans ==> LoanOk(s.loans[id]) && LoanLogged(s.ledger.log, id, s.loans[id]))
    && (forall id: LoanId :: id !in s.loans ==> Unlogged(s.ledger.log, id))
  }

  ghost predicate BookOk(s: Store) {
    LoansAgree(s) && TotalsAgree(s)
  }

  // ---- rows ----------------------------------------------------------------

  lemma AppendLoanRow(log: seq<Row>, row: Row, kind: TxnType, id: LoanId)
    ensures LoanTotal(log + [row], kind, id) == LoanTotal(log, kind, id) + (if Concerns(row, kind, id) then row.amount else 0)
    ensures LoanCount(log + [row], kind, id) == LoanCount(log, kind, id) + (if Concerns(row, kind, id) then 1 else 0)
  {
    assert (log + [row])[..|log|] == log;
  }

  predicate LoanKind(kind: TxnType) {
    kind == LOAN_DISBURSEMENT || kind == LOAN_REPAYMENT
  }

  /** No loan row was added. */
  ghost predicate SameLoanRows(log: seq<Row>, log': seq<Row>) {
    && (forall kind, id: LoanId :: LoanKind(kind) ==>
          LoanTotal(log', kind, id) == LoanTotal(log, kind, id) && LoanCount(log', kind, id) == LoanCount(log, kind, id))
    && (forall kind :: LoanKind(kind) ==> TotalByType(log', kind) == TotalByType(log, kind))
  }

  lemma OtherRow(log: seq<Row>, row: Row)
    requires !LoanKind(row.kind)
    ensures SameLoanRows(log, log + [row])
  {
    forall kind, id: LoanId | LoanKind(kind)
      ensures LoanTotal(log + [row], kind, id) == LoanTotal(log, kind, id)
      ensures LoanCount(log + [row], kind, id) == LoanCount(log, kind, id)
    {
      AppendLoanRow(log, row, kind, id);
    }
    forall kind | LoanKind(kind)
      ensures TotalByType(log + [row], kind) == TotalByType(log, kind)
    {
      AppendTotal(log, row, kind);
    }
  }

  lemma ExecRows(l: Ledger, op: Op)
    ensures SameLoanRows(l.log, Exec(l, op).0.log)
  {
    hide SameLoanRows;
    if Screen(op).None? && Guard(op, Lookup(l, op)).None? {
      var log, log' := l.log, Exec(l, op).0.log;
      OtherRow(log, log'[|log|]);
      if op.Transfer? {
        OtherRow(log + [log'[|log|]], log'[|log| + 1]);
        assert log' == log + [log'[|log|]] + [log'[|log| + 1]];
        SameTrans(log, log + [log'[|log|]], log');
      } else {
        assert log' == log + [log'[|log|]];
      }
    } else {
      SameRefl(l.log);
    }
  }

  lemma SameTrans(a: seq<Row>, b: seq<Row>, c: seq<Row>)
    requires SameLoanRows(a, b) && SameLoanRows(b, c)
    ensures SameLoanRows(a, c)
  {
  }

  lemma SameRefl(a: seq<Row>)
    ensures SameLoanRows(a, a)
  {
  }

  // ---- calls ---------------------------------------------------------------

  /** Calls that are not about a loan add no loan row and leave the loan table alone. */
  lemma OtherCalls(s: Store, c: Call)
    requires !c.ApplyLoan? && !c.ApproveLoan? && !c.RejectLoan? && !c.PayEmi?
    ensures Step(s, c).0.loans == s.loans && SameLoanRows(s.ledger.log, Step(s, c).0.ledger.log)
  {
    hide SameLoanRows, Exec, Emi.RoundPaise;
    var log, log' := s.ledger.log, Step(s, c).0.ledger.log;
    if c.Money? {
      ExecRows(s.ledger, c.op);
      SameRefl(log);
    } else if log' == log {
      SameRefl(log);
    } else {
      OtherRow(log, log'[|log|]);
    }
  }

  lemma OtherCallsKeepBook(s: Store, s': Store)
    requires BookOk(s) && s'.loans == s.loans && SameLoanRows(s.ledger.log, s'.ledger.log)
    ensures BookOk(s')
  {
    assert LoanKind(LOAN_DISBURSEMENT) && LoanKind(LOAN_REPAYMENT);
  }

  /** The limits of a loan application make the rounded instalments cover the principal. */
  lemma AcceptedEmiCovers(s: Store, acc: AccNo, product: Option<LoanType>, principal: int, rate: real, tenure: int)
    requires Screening(s, acc, product, principal, rate, tenure).None?
    ensures Emi.CalculateEmi(principal, rate, tenure) > 0
    ensures Emi.CalculateEmi(principal, rate, tenure) * tenure >= principal
  {
    hide Emi.CalculateEmi;
    var r := rate / 1200.0;
    assert rate >= 7.0 && tenure <= 360;
    assert r >= 0.005;
    Emi.MulMono(0.005, r, principal as real);
    assert principal as real * r >= 500.0;
    Emi.RoundedEmiCovers(principal, rate, tenure);
  }

  lemma ApplyKeepsBook(s: Store, id: LoanId, acc: AccNo, product: Option<LoanType>, principal: int, rate: real, tenure: int)
    requires BookOk(s)
    ensures BookOk(ApplyStep(s, id, acc, product, principal, rate, tenure).0)
  {
    hide Emi.CalculateEmi, Screening;
    if Screening(s, acc, product, principal, rate, tenure).None? && id !in s.loans {
      AcceptedEmiCovers(s, acc, product, principal, rate, tenure);
      PrincipalPositive(s, acc, product, principal, rate, tenure);
      var loan := ApplyStep(s, id, acc, product, principal, rate, tenure).0.loans[id];
      SumInsert(s.loans, DisbursedOf, id, loan);
      SumInsert(s.loans, OutstandingOf, id, loan);
      assert Unlogged(s.ledger.log, id);
    }
  }

  lemma PrincipalPositive(s: Store, acc: AccNo, product: Option<LoanType>, principal: int, rate: real, tenure: int)
    requires Screening(s, acc, product, principal, rate, tenure).None?
    ensures principal > 0 && tenure >= 1
  {
  }

  lemma ReplaceLoan(s: Store, s': Store, id: LoanId, row: Row)
    requires LoansAgree(s) && id in s.loans
    requires id in s'.loans && s'.loans == s.loans[id := s'.loans[id]] && s'.ledger.log == s.ledger.log + [row]
    requires LoanKind(row.kind) && row.memo == ForLoan(id)
    requires LoanOk(s'.loans[id]) && LoanLogged(s'.ledger.log, id, s'.loans[id])
    ensures LoansAgree(s')
  {
    hide LoanOk;
    forall other: LoanId | other != id
      ensures other in s'.loans ==> LoanOk(s'.loans[other]) && LoanLogged(s'.ledger.log, other, s'.loans[other])
      ensures other !in s'.loans ==> Unlogged(s'.ledger.log, other)
    {
      AppendLoanRow(s.ledger.log, row, LOAN_DISBURSEMENT, other);
      AppendLoanRow(s.ledger.log, row, LOAN_REPAYMENT, other);
    }
  }

  lemma ApproveKeepsBook(s: Store, id: LoanId, now: Time)
    requires BookOk(s)
    ensures BookOk(ApproveStep(s, id, now).0)
  {
    hide TotalByType, LoanTotal, LoanCount;
    var s' := ApproveStep(s, id, now).0;
    if s' != s {
      var log, loan := s.ledger.log, s.loans[id];
      var row := s'.ledger.log[|log|];
      assert s'.ledger.log == log + [row];
      AppendLoanRow(log, row, LOAN_DISBURSEMENT, id);
      AppendLoanRow(log, row, LOAN_REPAYMENT, id);
      ReplaceLoan(s, s', id, row);
      AppendTotal(log, row, LOAN_DISBURSEMENT);
      AppendTotal(log, row, LOAN_REPAYMENT);
      SumUpdate(s.loans, DisbursedOf, id, s'.loans[id]);
      SumUpdate(s.loans, OutstandingOf, id, s'.loans[id]);
    }
  }

  lemma RejectKeepsBook(s: Store, id: LoanId)
    requires BookOk(s)
    ensures BookOk(RejectStep(s, id).0)
  {
    var s' := RejectStep(s, id).0;
    if s' != s {
      SumUpdate(s.loans, DisbursedOf, id, s'.loans[id]);
      SumUpdate(s.loans, OutstandingOf, id, s'.loans[id]);
    }
  }

  lemma PayKeepsBook(s: Store, acc: AccNo, id: LoanId, instalment: Option<int>, now: Time)
    requires BookOk(s)
    ensures BookOk(PayEmiStep(s, acc, id, instalment, now).0)
  {
    hide TotalByType, LoanTotal, LoanCount;
    var s' := PayEmiStep(s, acc, id, instalment, now).0;
    if EmiRefusal(s, acc, id, instalment).None? {
      var log, loan := s.ledger.log, s.loans[id];
      assert LoanOk(loan) && LoanLogged(log, id, loan);
      var row := s'.ledger.log[|log|];
      assert s'.ledger.log == log + [row];
      AppendLoanRow(log, row, LOAN_DISBURSEMENT, id);
      AppendLoanRow(log, row, LOAN_REPAYMENT, id);
      ReplaceLoan(s, s', id, row);
      AppendTotal(log, row, LOAN_DISBURSEMENT);
      AppendTotal(log, row, LOAN_REPAYMENT);
      SumUpdate(s.loans, DisbursedOf, id, s'.loans[id]);
      SumUpdate(s.loans, OutstandingOf, id, s'.loans[id]);
    }
  }

  lemma StepKeepsBook(s: Store, c: Call)
    requires BookOk(s)
    ensures BookOk(Step(s, c).0)
  {
    hide BookOk, Emi.CalculateEmi, Emi.RoundPaise, Exec, EmiRefusal, Screening;
    match c {
      case ApplyLoan(id, acc, product, principal, rate, tenure) => ApplyKeepsBook(s, id, acc, product, principal, rate, tenure);
      case ApproveLoan(id, now) => ApproveKeepsBook(s, id, now);
      case RejectLoan(id) => RejectKeepsBook(s, id);
      case PayEmi(acc, id, instalment, now) => PayKeepsBook(s, acc, id, instalment, now);
      case _ =>
        OtherCalls(s, c);
        OtherCallsKeepBook(s, Step(s, c).0);
    }
  }

  lemma {:induction false} RunKeepsBook(s: Store, calls: seq<Call>)
    requires BookOk(s)
    ensures BookOk(Run(s, calls))
    decreases |calls|
  {
    hide BookOk, Step;
    if calls != [] {
      StepKeepsBook(s, calls[0]);
      RunKeepsBook(Step(s, calls[0]).0, calls[1..]);
    }
  }

  /** In every reachable state the loan totals are the log totals, and every loan
      agrees with its own rows. */
  lemma BookAgreesWithLog(calls: seq<Call>)
    ensures var s := Run(EMPTY, calls);
            && TotalDisbursed(s) == TotalByType(s.ledger.log, LOAN_DISBURSEMENT)
            && TotalDisbursed(s) - TotalOutstanding(s) == TotalByType(s.ledger.log, LOAN_REPAYMENT)
            && (forall id :: id in s.loans ==> LoanOk(s.loans[id]) && LoanLogged(s.ledger.log, id, s.loans[id]))
  {
    RunKeepsBook(EMPTY, calls);
  }

  /** A loan's status only moves forward, and nothing else about its terms changes. */
  predicate Forward(before: Loan, after: Loan) {
    && after.acc == before.acc && after.principal == before.principal && after.rate == before.rate
    && after.tenure == before.tenure && after.emi == before.emi
    && (before.approval.Some? ==> after.approval == before.approval)
    && after.remaining <= before.remaining
    && (after.status == before.status
        || (before.status.PENDING? && !after.status.APPROVED?)
        || (before.status.ACTIVE? && after.status.CLOSED?))
  }

  lemma StepMovesForward(s: Store, c: Call, id: LoanId)
    requires BookOk(s) && id in s.loans
    ensures id in Step(s, c).0.loans && Forward(s.loans[id], Step(s, c).0.loans[id])
    ensures s.loans[id].status.PENDING? ==> !Step(s, c).0.loans[id].status.CLOSED?
  {
    hide Emi.CalculateEmi, Emi.RoundPaise, Exec, TotalsAgree, LoanLogged, Unlogged, Screening;
    assert LoanOk(s.loans[id]);
  }

  lemma {:induction false} LoansOnlyMoveForward(s: Store, calls: seq<Call>, id: LoanId)
    requires BookOk(s) && id in s.loans
    ensures id in Run(s, calls).loans && Forward(s.loans[id], Run(s, calls).loans[id])
    decreases |calls|
  {
    hide BookOk, Step;
    if calls != [] {
      StepMovesForward(s, calls[0], id);
      StepKeepsBook(s, calls[0]);
      LoansOnlyMoveForward(Step(s, calls[0]).0, calls[1..], id);
    }
  }
}
