/** What every service accepts and what it then does, in the fields of the rows and with
    the bank's figures written out, apart from the functions that compute it. */
module Acceptance {
  import opened Domain
  import opened Ledger
  import opened BankSpec
  import opened LoanBook
  import Emi

  predicate Known(s: Store, acc: AccNo) {
    acc in s.ledger.accounts && !s.ledger.accounts[acc].deleted
  }

  predicate Open(s: Store, acc: AccNo) {
    Known(s, acc) && s.ledger.accounts[acc].active && !s.ledger.accounts[acc].frozen
  }

  /** The ledger with one account's balance moved and one row booked for it. */
  predicate BookedOn(l: Ledger, l': Ledger, acc: AccNo, change: int, kind: TxnType, amount: int, memo: Memo) {
    && acc in l.accounts
    && var balance := l.accounts[acc].balance + change;
       && l'.accounts == l.accounts[acc := l.accounts[acc].(balance := balance)]
       && l'.log == l.log + [Row(acc, kind, amount, balance, None, memo)]
  }

  // ---- interest ---------------------------------------------------------------------

  /** A year's interest paid month by month is three and a half per cent, give or take
      half a paisa a month. */
  lemma TwelveMonths(balance: int)
    ensures Emi.Abs((12 * MonthlyInterest(balance)) as real - balance as real * 35.0 / 1000.0) <= 6.0
  {
    var i := MonthlyInterest(balance);
    assert Emi.Abs(i as real - balance as real * (3.5 / 12.0 / 100.0)) <= 0.5;
    assert (12 * i) as real == 12.0 * i as real;
  }

  lemma SmallestInterest(balance: int)
    ensures MonthlyInterest(balance) <= 0 <==> balance <= 171
  {
    var x := balance as real * (3.5 / 12.0 / 100.0);
    assert balance <= 171 ==> x < 0.5;
    assert balance >= 172 ==> x > 0.5;
  }

  lemma InterestMeaning(s: Store, acc: AccNo)
    ensures var (s', answer) := Step(s, Interest(acc));
            && (answer == Refused(NotFound) <==> !Known(s, acc))
            && (answer == Refused(FrozenOrClosed) <==> Known(s, acc) && !Open(s, acc))
            && (answer == Refused(NoInterest) <==> Open(s, acc) && s.ledger.accounts[acc].balance <= 171)
            && (answer.InterestPaid? <==> Open(s, acc) && s.ledger.accounts[acc].balance >= 172)
            && (!answer.InterestPaid? ==> s' == s)
            && (answer.InterestPaid? ==>
                  var balance, interest := s.ledger.accounts[acc].balance, answer.interest;
                  && Emi.Abs((12 * interest) as real - balance as real * 35.0 / 1000.0) <= 6.0
                  && answer.balance == balance + interest
                  && s' == s.(ledger := s'.ledger)
                  && BookedOn(s.ledger, s'.ledger, acc, interest, INTEREST, interest, Plain))
  {
    hide MonthlyInterest, Emi.Abs;
    if acc in s.ledger.accounts {
      TwelveMonths(s.ledger.accounts[acc].balance);
      SmallestInterest(s.ledger.accounts[acc].balance);
    }
  }

  // ---- loans -------------------------------------------------------------------------

  /** The bank's loan products: from a thousand rupees to a crore, and for each kind of
      loan the longest tenure in months and the range of the annual rate in percent. */
  predicate WithinLimits(product: Option<LoanType>, principal: int, rate: real, tenure: int) {
    && 100000 <= principal <= 1000000000 && 1 <= tenure
    && ((product == Some(PERSONAL) && tenure <= 60 && 10.0 <= rate <= 15.0)
        || (product == Some(HOME) && tenure <= 360 && 7.0 <= rate <= 10.0)
        || (product == Some(VEHICLE) && tenure <= 84 && 8.0 <= rate <= 12.0)
        || (product == Some(EDUCATION) && tenure <= 120 && 7.5 <= rate <= 11.0)
        || (product == Some(BUSINESS) && tenure <= 120 && 12.0 <= rate <= 18.0))
  }

  /** What an application asks for is granted exactly within those limits, to an open
      account; the loan is then pending, owes its principal, and its instalments come to
      at least the principal and one month's interest and at most the principal and every
      month's interest on all of it, each give or take half a paisa an instalment. */
  lemma ApplicationMeaning(s: Store, id: LoanId, acc: AccNo, product: Option<LoanType>, principal: int, rate: real, tenure: int)
    ensures var (s', answer) := Step(s, ApplyLoan(id, acc, product, principal, rate, tenure));
            && (answer.LoanApplied? <==> id !in s.loans && Open(s, acc) && WithinLimits(product, principal, rate, tenure))
            && (!answer.LoanApplied? ==> s' == s)
            && (answer.LoanApplied? ==>
                  && s' == s.(loans := s.loans[id := Loan(acc, principal, rate, tenure, answer.emi, 0, principal, PENDING, None, None)])
                  && var paid, p, n := (answer.emi * tenure) as real, principal as real, tenure as real;
                     && p + p * (rate / 1200.0) - 0.5 * n <= paid
                     && paid <= p + p * (rate / 1200.0) * n + 0.5 * n)
  {
    ScreeningMeaning(s, acc, product, principal, rate, tenure);
    hide Screening, Emi.CalculateEmi;
    if id !in s.loans && Open(s, acc) && WithinLimits(product, principal, rate, tenure) {
      Emi.TotalCost(principal, rate, tenure);
    }
  }

  lemma ScreeningMeaning(s: Store, acc: AccNo, product: Option<LoanType>, principal: int, rate: real, tenure: int)
    ensures var refusal := Screening(s, acc, product, principal, rate, tenure);
            && (refusal.None? <==> Open(s, acc) && WithinLimits(product, principal, rate, tenure))
            && (refusal == Some(NotFound) <==> !Known(s, acc))
            && (refusal == Some(FrozenOrClosed) <==> Known(s, acc) && !Open(s, acc))
            && (refusal == Some(InvalidLoanType) <==> Open(s, acc) && product.None?)
            && (refusal == Some(BelowMinimum) <==> Open(s, acc) && product.Some? && principal < 100000)
            && (refusal == Some(AboveMaximum) <==> Open(s, acc) && product.Some? && principal > 1000000000)
  {
  }

  /** An approval pays out a pending loan to its open account and starts the clock: the
      first instalment is due thirty days on. */
  lemma ApprovalMeaning(s: Store, id: LoanId, now: Time)
    ensures var (s', answer) := Step(s, ApproveLoan(id, now));
            && (answer.LoanApproved? <==> id in s.loans && s.loans[id].status == PENDING && Open(s, s.loans[id].acc))
            && (answer == Refused(LoanNotFound) <==> id !in s.loans)
            && (forall status :: answer == Refused(LoanNotPending(status)) <==>
                  id in s.loans && s.loans[id].status == status != PENDING)
            && (!answer.LoanApproved? ==> s' == s)
            && (answer.LoanApproved? ==>
                  var loan := s.loans[id];
                  && s'.loans == s.loans[id := loan.(status := ACTIVE, approval := Some(now), nextEmi := Some(now + 30 * 24 * 60 * 60))]
                  && BookedOn(s.ledger, s'.ledger, loan.acc, loan.principal, LOAN_DISBURSEMENT, loan.principal, ForLoan(id))
                  && answer.balance == s.ledger.accounts[loan.acc].balance + loan.principal
                  && s'.goals == s.goals && s'.records == s.records)
  {
  }

  lemma RejectionMeaning(s: Store, id: LoanId)
    ensures var (s', answer) := Step(s, RejectLoan(id));
            && (answer == Ok <==> id in s.loans && s.loans[id].status == PENDING)
            && (answer == Ok ==> s' == s.(loans := s.loans[id := s.loans[id].(status := REJECTED)]))
            && (answer != Ok ==> s' == s)
  {
  }

  /** The amount of a payment: the instalment unless another is named. */
  function AmountAsked(loan: Loan, instalment: Option<int>): int {
    if instalment == None then loan.emi else instalment.value
  }

  /** A payment of any amount is taken exactly from the loan's own, open account, when that
      holds the whole amount asked. What is owed at most is taken; the due date moves on by
      thirty days, or the loan closes. */
  lemma PaymentMeaning(s: Store, acc: AccNo, id: LoanId, instalment: Option<int>, now: Time)
    ensures var (s', answer) := Step(s, PayEmi(acc, id, instalment, now));
            && (answer.EmiPaid? <==>
                  && id in s.loans && (s.loans[id].status == ACTIVE || s.loans[id].status == APPROVED)
                  && s.loans[id].acc == acc && Open(s, acc)
                  && 0 < AmountAsked(s.loans[id], instalment) <= s.ledger.accounts[acc].balance)
            && (answer == Refused(LoanNotFound) <==> id !in s.loans)
            && (answer == Refused(NotOwner) <==>
                  id in s.loans && (s.loans[id].status == ACTIVE || s.loans[id].status == APPROVED) && s.loans[id].acc != acc)
            && (!answer.EmiPaid? ==> s' == s)
            && (answer.EmiPaid? ==>
                  var loan := s.loans[id];
                  var asked := AmountAsked(loan, instalment);
                  var taken := if asked <= loan.remaining then asked else loan.remaining;
                  && answer.paid == taken && answer.balance == s.ledger.accounts[acc].balance - taken
                  && BookedOn(s.ledger, s'.ledger, acc, -taken, LOAN_REPAYMENT, taken, ForLoan(id))
                  && s'.loans.Keys == s.loans.Keys && (forall other :: other in s.loans && other != id ==> s'.loans[other] == s.loans[other])
                  && s'.loans[id].paid == loan.paid + taken
                  && answer.remaining == s'.loans[id].remaining && (answer.closed <==> s'.loans[id].status == CLOSED)
                  && (taken < loan.remaining ==>
                        && s'.loans[id] == loan.(paid := loan.paid + taken, remaining := loan.remaining - taken,
                                                 nextEmi := s'.loans[id].nextEmi)
                        && s'.loans[id].nextEmi ==
                             Some((if loan.nextEmi.Some? then loan.nextEmi.value else now) + 30 * 24 * 60 * 60))
                  && (taken >= loan.remaining ==>
                        s'.loans[id] == loan.(paid := loan.paid + taken, remaining := 0, status := CLOSED, nextEmi := None))
                  && s'.goals == s.goals && s'.records == s.records)
  {
  }

  // ---- savings goals -------------------------------------------------------------------

  lemma GoalMeaning(s: Store, id: GoalId, acc: AccNo, nameLength: nat, target: int)
    ensures var (s', answer) := Step(s, CreateGoal(id, acc, nameLength, target));
            && (answer == Ok <==> nameLength >= 2 && target > 0 && id !in s.goals && acc in s.ledger.accounts)
            && (answer == Ok ==> s' == s.(goals := s.goals[id := Goal(acc, target, 0, false)]))
            && (answer != Ok ==> s' == s)
  {
  }

  lemma ContributionMeaning(s: Store, acc: AccNo, id: GoalId, amount: int)
    ensures var (s', answer) := Step(s, Contribute(acc, id, amount));
            && (answer == Ok <==> Known(s, acc) && id in s.goals && 0 < amount <= s.ledger.accounts[acc].balance)
            && (answer != Ok ==> s' == s)
            && (answer == Ok ==>
                  var goal := s.goals[id];
                  && BookedOn(s.ledger, s'.ledger, acc, -amount, TRANSFER_OUT, amount, ForGoal(id))
                  && s'.goals == s.goals[id := goal.(current := goal.current + amount, completed := s'.goals[id].completed)]
                  && (s'.goals[id].completed <==> goal.completed || goal.current + amount >= goal.target)
                  && s'.loans == s.loans && s'.records == s.records)
  {
  }

  lemma GoalDeletionMeaning(s: Store, acc: AccNo, id: GoalId)
    ensures var (s', answer) := Step(s, DeleteGoal(acc, id));
            && (answer == Ok <==> id in s.goals)
            && (answer != Ok ==> s' == s)
            && (answer == Ok ==>
                  var refund := s.goals[id].current;
                  && s'.goals == s.goals - {id} && s'.ledger.log == s.ledger.log
                  && s'.loans == s.loans && s'.records == s.records
                  && s'.ledger.accounts ==
                       if refund > 0 && Known(s, acc)
                       then s.ledger.accounts[acc := s.ledger.accounts[acc].(balance := s.ledger.accounts[acc].balance + refund)]
                       else s.ledger.accounts)
  {
  }

  /** A goal counts as completed exactly while it holds its target. */
  predicate GoalsOk(s: Store) {
    forall g :: g in s.goals ==>
      s.goals[g].target > 0 && s.goals[g].current >= 0 && (s.goals[g].completed <==> s.goals[g].current >= s.goals[g].target)
  }

  lemma StepKeepsGoals(s: Store, c: Call)
    requires GoalsOk(s)
    ensures GoalsOk(Step(s, c).0)
  {
    hide Emi.CalculateEmi, Emi.RoundPaise, Exec, EmiRefusal, Screening;
  }

  lemma {:induction false} GoalsCompleteAtTheirTarget(s: Store, calls: seq<Call>)
    requires GoalsOk(s)
    ensures GoalsOk(Run(s, calls))
    decreases |calls|
  {
    hide Step, GoalsOk;
    if calls != [] {
      StepKeepsGoals(s, calls[0]);
      GoalsCompleteAtTheirTarget(Step(s, calls[0]).0, calls[1..]);
    }
  }

  // ---- accounts --------------------------------------------------------------------------

  /** One account, and nothing else, becomes a. */
  predicate Becomes(s: Store, s': Store, acc: AccNo, a: Account) {
    s' == s.(ledger := s.ledger.(accounts := s.ledger.accounts[acc := a]))
  }

  lemma RegistrationMeaning(s: Store, acc: AccNo)
    ensures var (s', answer) := Step(s, Register(acc));
            && (answer == Ok <==> acc !in s.ledger.accounts)
            && (answer == Ok ==> Becomes(s, s', acc, Account(0, true, false, false)) && Open(s', acc))
            && (answer != Ok ==> s' == s)
  {
  }

  lemma ClosingMeaning(s: Store, acc: AccNo, passwordOk: bool)
    ensures var (s', answer) := Step(s, Close(acc, passwordOk));
            && (answer == Ok <==> Known(s, acc) && passwordOk)
            && (answer == Refused(NotFound) <==> !Known(s, acc))
            && (answer == Ok ==> Becomes(s, s', acc, s.ledger.accounts[acc].(active := false)))
            && (answer != Ok ==> s' == s)
  {
  }

  lemma FreezingMeaning(s: Store, acc: AccNo)
    ensures var (s', answer) := Step(s, Freeze(acc));
            && (answer == Ok <==> Open(s, acc))
            && (answer == Refused(AlreadyFrozen) <==> Known(s, acc) && s.ledger.accounts[acc].frozen)
            && (answer == Refused(IsClosed) <==>
                  Known(s, acc) && !s.ledger.accounts[acc].frozen && !s.ledger.accounts[acc].active)
            && (answer == Ok ==> Becomes(s, s', acc, s.ledger.accounts[acc].(frozen := true, active := false)))
            && (answer != Ok ==> s' == s)
  {
  }

  lemma UnfreezingMeaning(s: Store, acc: AccNo)
    ensures var (s', answer) := Step(s, Unfreeze(acc));
            && (answer == Ok <==> Known(s, acc) && s.ledger.accounts[acc].frozen)
            && (answer == Ok ==> Becomes(s, s', acc, s.ledger.accounts[acc].(frozen := false)))
            && (answer != Ok ==> s' == s)
  {
  }

  lemma DeletionMeaning(s: Store, acc: AccNo)
    ensures var (s', answer) := Step(s, Delete(acc));
            && (answer == Ok <==> Known(s, acc))
            && (answer == Ok ==> Becomes(s, s', acc, s.ledger.accounts[acc].(deleted := true, active := false)))
            && (answer != Ok ==> s' == s)
  {
  }

  // ---- whose rows ------------------------------------------------------------------------

  /** Every row about a loan is on the account of that loan's owner. */
  predicate RowsOwned(s: Store) {
    forall i :: 0 <= i < |s.ledger.log| && s.ledger.log[i].memo.ForLoan? ==>
      s.ledger.log[i].memo.loan in s.loans && s.ledger.log[i].acc == s.loans[s.ledger.log[i].memo.loan].acc
  }

  /** A call books rows about a loan on its owner's account only, and never moves a loan. */
  predicate AddsOwnedRows(s: Store, s': Store) {
    && s.ledger.log <= s'.ledger.log
    && (forall id :: id in s.loans ==> id in s'.loans && s'.loans[id].acc == s.loans[id].acc)
    && (forall i :: |s.ledger.log| <= i < |s'.ledger.log| && s'.ledger.log[i].memo.ForLoan? ==>
          s'.ledger.log[i].memo.loan in s.loans && s'.ledger.log[i].acc == s.loans[s'.ledger.log[i].memo.loan].acc)
  }

  lemma MoneyAddsOwnedRows(s: Store, op: Op, key: Option<Key>, persisted: bool)
    ensures AddsOwnedRows(s, MoneyStep(s, op, key, persisted).0)
  {
    hide Exec, Admissible;
    ExecMeaning(s.ledger, op);
    RefusalChangesNothing(s.ledger, op);
  }

  lemma BookedIsOwned(s: Store, s': Store, acc: AccNo, change: int, kind: TxnType, amount: int, memo: Memo)
    requires BookedOn(s.ledger, s'.ledger, acc, change, kind, amount, memo)
    requires memo.ForLoan? ==> memo.loan in s.loans && s.loans[memo.loan].acc == acc
    requires forall id :: id in s.loans ==> id in s'.loans && s'.loans[id].acc == s.loans[id].acc
    ensures AddsOwnedRows(s, s')
  {
  }

  lemma PaymentAddsOwnedRows(s: Store, acc: AccNo, id: LoanId, instalment: Option<int>, now: Time)
    ensures AddsOwnedRows(s, Step(s, PayEmi(acc, id, instalment, now)).0)
  {
    hide Step, BookedOn;
    PaymentMeaning(s, acc, id, instalment, now);
    var (s', answer) := Step(s, PayEmi(acc, id, instalment, now));
    if answer.EmiPaid? {
      var taken := if AmountAsked(s.loans[id], instalment) <= s.loans[id].remaining
                   then AmountAsked(s.loans[id], instalment) else s.loans[id].remaining;
      BookedIsOwned(s, s', acc, -taken, LOAN_REPAYMENT, taken, ForLoan(id));
    }
  }

  lemma ApprovalAddsOwnedRows(s: Store, id: LoanId, now: Time)
    ensures AddsOwnedRows(s, Step(s, ApproveLoan(id, now)).0)
  {
    hide Step, BookedOn;
    ApprovalMeaning(s, id, now);
    var (s', answer) := Step(s, ApproveLoan(id, now));
    if answer.LoanApproved? {
      var loan := s.loans[id];
      BookedIsOwned(s, s', loan.acc, loan.principal, LOAN_DISBURSEMENT, loan.principal, ForLoan(id));
    }
  }

  lemma StepAddsOwnedRows(s: Store, c: Call)
    ensures AddsOwnedRows(s, Step(s, c).0)
  {
    hide MoneyStep, PayEmiStep, ApproveStep, AddsOwnedRows;
    match c {
      case PayEmi(acc, id, instalment, now) => PaymentAddsOwnedRows(s, acc, id, instalment, now);
      case ApproveLoan(id, now) => ApprovalAddsOwnedRows(s, id, now);
      case Money(op, key, persisted) => MoneyAddsOwnedRows(s, op, key, persisted);
      case _ => OtherCallsAddOwnedRows(s, c);
    }
  }

  lemma OtherCallsAddOwnedRows(s: Store, c: Call)
    requires !c.PayEmi? && !c.ApproveLoan? && !c.Money?
    ensures AddsOwnedRows(s, Step(s, c).0)
  {
    hide MoneyStep, PayEmiStep, ApproveStep, Emi.CalculateEmi, Emi.RoundPaise, Screening;
  }

  lemma OwnedRowsStay(s: Store, s': Store)
    requires RowsOwned(s) && AddsOwnedRows(s, s')
    ensures RowsOwned(s')
  {
    forall i | 0 <= i < |s'.ledger.log| && s'.ledger.log[i].memo.ForLoan?
      ensures s'.ledger.log[i].memo.loan in s'.loans && s'.ledger.log[i].acc == s'.loans[s'.ledger.log[i].memo.loan].acc
    {
      if i < |s.ledger.log| {
        assert s'.ledger.log[i] == s.ledger.log[i];
      }
    }
  }

  /** In every run, the empty bank's included, nobody but its owner is paid or pays for a loan. */
  lemma {:induction false} OnlyOwnersPay(s: Store, calls: seq<Call>)
    requires RowsOwned(s)
    ensures RowsOwned(Run(s, calls))
    decreases |calls|
  {
    hide Step, RowsOwned, AddsOwnedRows;
    if calls != [] {
      StepAddsOwnedRows(s, calls[0]);
      OwnedRowsStay(s, Step(s, calls[0]).0);
      OnlyOwnersPay(Step(s, calls[0]).0, calls[1..]);
    }
  }

  // ---- recorded answers --------------------------------------------------------------------

  /** A record is answered as it is to an operation of its own kind, and by that
      operation's defaults otherwise. */
  lemma CachedMeaning(op: Op, record: Response)
    ensures op.Transfer? && record.Transferred? ==> Cached(op, record) == record
    ensures !op.Transfer? && !record.Transferred? ==> Cached(op, record) == record
    ensures op.Transfer? && !record.Transferred? ==> Cached(op, record) == Transferred(0, 0)
    ensures !op.Transfer? && record.Transferred? ==> Cached(op, record) == AlreadyCompleted
  {
  }
}
