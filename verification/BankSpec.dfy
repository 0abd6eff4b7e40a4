/** What every service call means for the committed store when calls do not
    overlap: one total function from a store and a call to the next store and the
    answer given. */
module BankSpec {
  import opened Domain
  import opened Ledger
  import Emi

  datatype Store = Store(ledger: Ledger, loans: map<LoanId, Loan>, goals: map<GoalId, Goal>, records: map<Key, Response>)

  /** Generated identifiers, clock readings, the outcome of a password check and
      whether the idempotency record could be stored are inputs. */
  datatype Call =
    | Register(acc: AccNo)
    | Money(op: Op, key: Option<Key>, persisted: bool)
    | Interest(acc: AccNo)
    | ApplyLoan(loan: LoanId, acc: AccNo, product: Option<LoanType>, principal: int, rate: real, tenure: int)
    | ApproveLoan(loan: LoanId, now: Time)
    | RejectLoan(loan: LoanId)
    | PayEmi(acc: AccNo, loan: LoanId, instalment: Option<int>, now: Time)
    | CreateGoal(goal: GoalId, acc: AccNo, nameLength: nat, target: int)
    | Contribute(acc: AccNo, goal: GoalId, amount: int)
    | DeleteGoal(acc: AccNo, goal: GoalId)
    | Close(acc: AccNo, passwordOk: bool)
    | Freeze(acc: AccNo)
    | Unfreeze(acc: AccNo)
    | Delete(acc: AccNo)

  const EMPTY := Store(Ledger(map[], []), map[], map[], map[])

  const SAVINGS_INTEREST_RATE := 3.5
  const MIN_PRINCIPAL := 100000         // 1000 rupees
  const MAX_PRINCIPAL := 1000000000     // one crore
  const THIRTY_DAYS: Time := 30 * 86400

  function MaxTenure(t: LoanType): int {
    match t
    case PERSONAL => 60
    case HOME => 360
    case VEHICLE => 84
    case EDUCATION => 120
    case BUSINESS => 120
  }

  function MinRate(t: LoanType): real {
    match t
    case PERSONAL => 10.0
    case HOME => 7.0
    case VEHICLE => 8.0
    case EDUCATION => 7.5
    case BUSINESS => 12.0
  }

  function MaxRate(t: LoanType): real {
    match t
    case PERSONAL => 15.0
    case HOME => 10.0
    case VEHICLE => 12.0
    case EDUCATION => 11.0
    case BUSINESS => 18.0
  }

  function MonthlyInterest(balance: int): int {
    Emi.RoundPaise(balance as real * (SAVINGS_INTEREST_RATE / 12.0 / 100.0))
  }

  function Min(a: int, b: int): int {
    if a <= b then a else b
  }

  /** What a recorded result looks like to the operation that finds it: deposit and
      withdraw read `message` and `data`, transfer reads the two balances, and each
      falls back on its own defaults. */
  function Cached(op: Op, record: Response): Response {
    if op.Transfer? == record.Transferred? then record
    else if op.Transfer? then Transferred(0, 0)
    else AlreadyCompleted
  }

  function MoneyStep(s: Store, op: Op, key: Option<Key>, persisted: bool): (Store, Response) {
    if Screen(op).Some? then (s, Refused(Screen(op).value))
    else if key.Some? && key.value in s.records then (s, Cached(op, s.records[key.value]))
    else
      var (l, r) := Exec(s.ledger, op);
      if r.Refused? then (s, r)
      else (s.(ledger := l, records := if key.Some? && persisted then s.records[key.value := r] else s.records), r)
  }

  function RegisterStep(s: Store, acc: AccNo): (Store, Response) {
    if acc in s.ledger.accounts then (s, Raised)
    else (s.(ledger := s.ledger.(accounts := s.ledger.accounts[acc := Account(0, true, false, false)])), Ok)
  }

  function InterestStep(s: Store, acc: AccNo): (Store, Response) {
    match Live(s.ledger.accounts, acc)
    case None => (s, Refused(NotFound))
    case Some(a) =>
      if !a.CanTransact() then (s, Refused(FrozenOrClosed))
      else
        var interest := MonthlyInterest(a.balance);
        if interest <= 0 then (s, Refused(NoInterest))
        else
          var l := Post(s.ledger, acc, INTEREST, interest, None, Plain);
          (s.(ledger := l), InterestPaid(interest, a.balance + interest))
  }

  /** The checks of a loan application, in order. */
  function Screening(s: Store, acc: AccNo, product: Option<LoanType>, principal: int, rate: real, tenure: int): Option<Reason> {
    match Live(s.ledger.accounts, acc)
    case None => Some(NotFound)
    case Some(a) =>
      if !a.CanTransact() then Some(FrozenOrClosed)
      else if product.None? then Some(InvalidLoanType)
      else if principal < MIN_PRINCIPAL then Some(BelowMinimum)
      else if principal > MAX_PRINCIPAL then Some(AboveMaximum)
      else if tenure < 1 || tenure > MaxTenure(product.value) then Some(BadTenure)
      else if rate < MinRate(product.value) || rate > MaxRate(product.value) then Some(BadRate)
      else None
  }

  function ApplyStep(s: Store, id: LoanId, acc: AccNo, product: Option<LoanType>, principal: int, rate: real, tenure: int): (Store, Response) {
    var refusal := Screening(s, acc, product, principal, rate, tenure);
    if refusal.Some? then (s, Refused(refusal.value))
    else if id in s.loans then (s, Raised)
    else
      var emi := Emi.CalculateEmi(principal, rate, tenure);
      var loan := Loan(acc, principal, rate, tenure, emi, 0, principal, PENDING, None, None);
      (s.(loans := s.loans[id := loan]), LoanApplied(emi))
  }

  function ApproveStep(s: Store, id: LoanId, now: Time): (Store, Response) {
    if id !in s.loans then (s, Refused(LoanNotFound))
    else
      var loan := s.loans[id];
      if !loan.status.PENDING? then (s, Refused(LoanNotPending(loan.status)))
      else match Live(s.ledger.accounts, loan.acc)
        case None => (s, Refused(NotFound))
        case Some(a) =>
          if !a.CanTransact() then (s, Refused(FrozenOrClosed))
          else
            var l := Post(s.ledger, loan.acc, LOAN_DISBURSEMENT, loan.principal, None, ForLoan(id));
            var loan' := loan.(status := ACTIVE, approval := Some(now), nextEmi := Some(now + THIRTY_DAYS));
            (s.(ledger := l, loans := s.loans[id := loan']), LoanApproved(a.balance + loan.principal))
  }

  function RejectStep(s: Store, id: LoanId): (Store, Response) {
    if id !in s.loans then (s, Refused(LoanNotFound))
    else if !s.loans[id].status.PENDING? then (s, Refused(LoanNotPending(s.loans[id].status)))
    else (s.(loans := s.loans[id := s.loans[id].(status := REJECTED)]), Ok)
  }

  /** A loan after one payment; a payment that clears it closes it. */
  function Repaid(loan: Loan, payment: int, now: Time): Loan {
    var paid := loan.(paid := loan.paid + payment, remaining := loan.remaining - payment);
    if paid.remaining <= 0 then paid.(status := CLOSED, remaining := 0, nextEmi := None)
    else paid.(nextEmi := Some(if loan.nextEmi.Some? then loan.nextEmi.value + THIRTY_DAYS else now + THIRTY_DAYS))
  }

  /** The checks of an EMI payment, in order. */
  function EmiRefusal(s: Store, acc: AccNo, id: LoanId, instalment: Option<int>): Option<Reason> {
    if id !in s.loans then Some(LoanNotFound)
    else if !s.loans[id].Payable() then Some(LoanNotPayable(s.loans[id].status))
    else if s.loans[id].acc != acc then Some(NotOwner)
    else match Live(s.ledger.accounts, acc)
      case None => Some(NotFound)
      case Some(a) =>
        if !a.CanTransact() then Some(FrozenOrClosed)
        else
          var payment := if instalment.Some? then instalment.value else s.loans[id].emi;
          if payment <= 0 then Some(NotPositive)
          else if payment > a.balance then Some(Insufficient(a.balance))
          else None
  }

  function PayEmiStep(s: Store, acc: AccNo, id: LoanId, instalment: Option<int>, now: Time): (Store, Response) {
    if EmiRefusal(s, acc, id, instalment).Some? then (s, Refused(EmiRefusal(s, acc, id, instalment).value))
    else
      var loan := s.loans[id];
      var payment := Min(if instalment.Some? then instalment.value else loan.emi, loan.remaining);
      var l := Post(s.ledger, acc, LOAN_REPAYMENT, payment, None, ForLoan(id));
      var loan' := Repaid(loan, payment, now);
      (s.(ledger := l, loans := s.loans[id := loan']),
       EmiPaid(payment, loan'.remaining, l.accounts[acc].balance, loan'.status.CLOSED?))
  }

  function CreateGoalStep(s: Store, id: GoalId, acc: AccNo, nameLength: nat, target: int): (Store, Response) {
    if nameLength < 2 then (s, Refused(BadName))
    else if target <= 0 then (s, Refused(NotPositive))
    else if id in s.goals || acc !in s.ledger.accounts then (s, Raised)
    else (s.(goals := s.goals[id := Goal(acc, target, 0, false)]), Ok)
  }

  /** Neither the account's status nor the goal's owner is checked. */
  function ContributeStep(s: Store, acc: AccNo, id: GoalId, amount: int): (Store, Response) {
    if amount <= 0 then (s, Refused(NotPositive))
    else match Live(s.ledger.accounts, acc)
      case None => (s, Refused(NotFound))
      case Some(a) =>
        if amount > a.balance then (s, Refused(Insufficient(a.balance)))
        else if id !in s.goals then (s, Refused(GoalNotFound))
        else
          var goal := s.goals[id];
          var current := goal.current + amount;
          var goal' := goal.(current := current, completed := goal.completed || current >= goal.target);
          (s.(ledger := Post(s.ledger, acc, TRANSFER_OUT, amount, None, ForGoal(id)), goals := s.goals[id := goal']), Ok)
  }

  /** The refund goes to the caller's account, without a log row, and is lost when
      that account is not live. */
  function DeleteGoalStep(s: Store, acc: AccNo, id: GoalId): (Store, Response) {
    if id !in s.goals then (s, Refused(GoalNotFound))
    else
      var refund := s.goals[id].current;
      var accounts :=
        if refund > 0 && Live(s.ledger.accounts, acc).Some? then Credit(s.ledger.accounts, acc, refund)
        else s.ledger.accounts;
      (s.(ledger := s.ledger.(accounts := accounts), goals := s.goals - {id}), Ok)
  }

  function SetAccount(s: Store, acc: AccNo, a: Account): Store {
    s.(ledger := s.ledger.(accounts := s.ledger.accounts[acc := a]))
  }

  function CloseStep(s: Store, acc: AccNo, passwordOk: bool): (Store, Response) {
    match Live(s.ledger.accounts, acc)
    case None => (s, Refused(NotFound))
    case Some(a) =>
      if !passwordOk then (s, Refused(WrongPassword))
      else (SetAccount(s, acc, a.(active := false)), Ok)
  }

  function FreezeStep(s: Store, acc: AccNo): (Store, Response) {
    match Live(s.ledger.accounts, acc)
    case None => (s, Refused(NotFound))
    case Some(a) =>
      if !a.active && !a.frozen then (s, Refused(IsClosed))
      else if a.frozen then (s, Refused(AlreadyFrozen))
      else (SetAccount(s, acc, a.(frozen := true, active := false)), Ok)
  }

  function UnfreezeStep(s: Store, acc: AccNo): (Store, Response) {
    match Live(s.ledger.accounts, acc)
    case None => (s, Refused(NotFound))
    case Some(a) =>
      if !a.frozen then (s, Refused(NotFrozen))
      else (SetAccount(s, acc, a.(frozen := false)), Ok)
  }

  function DeleteStep(s: Store, acc: AccNo): (Store, Response) {
    match Live(s.ledger.accounts, acc)
    case None => (s, Refused(NotFound))
    case Some(a) => (SetAccount(s, acc, a.(deleted := true, active := false)), Ok)
  }

  function Step(s: Store, c: Call): (Store, Response) {
    match c
    case Register(acc) => RegisterStep(s, acc)
    case Money(op, key, persisted) => MoneyStep(s, op, key, persisted)
    case Interest(acc) => InterestStep(s, acc)
    case ApplyLoan(id, acc, product, principal, rate, tenure) => ApplyStep(s, id, acc, product, principal, rate, tenure)
    case ApproveLoan(id, now) => ApproveStep(s, id, now)
    case RejectLoan(id) => RejectStep(s, id)
    case PayEmi(acc, id, instalment, now) => PayEmiStep(s, acc, id, instalment, now)
    case CreateGoal(id, acc, nameLength, target) => CreateGoalStep(s, id, acc, nameLength, target)
    case Contribute(acc, id, amount) => ContributeStep(s, acc, id, amount)
    case DeleteGoal(acc, id) => DeleteGoalStep(s, acc, id)
    case Close(acc, passwordOk) => CloseStep(s, acc, passwordOk)
    case Freeze(acc) => FreezeStep(s, acc)
    case Unfreeze(acc) => UnfreezeStep(s, acc)
    case Delete(acc) => DeleteStep(s, acc)
  }

  /** The store after a sequence of calls. */
  function Run(s: Store, calls: seq<Call>): Store
    decreases |calls|
  {
    if calls == [] then s else Run(Step(s, calls[0]).0, calls[1..])
  }

  /** The answers to a sequence of calls. */
  function Answers(s: Store, calls: seq<Call>): seq<Response>
    decreases |calls|
  {
    if calls == [] then [] else [Step(s, calls[0]).1] + Answers(Step(s, calls[0]).0, calls[1..])
  }

  lemma {:induction false} RunConcat(s: Store, first: seq<Call>, second: seq<Call>)
    ensures Run(s, first + second) == Run(Run(s, first), second)
    ensures Answers(s, first + second) == Answers(s, first) + Answers(Run(s, first), second)
    decreases |first|
  {
    if first == [] {
      assert first + second == second;
    } else {
      hide Step;
      assert (first + second)[1..] == first[1..] + second;
      RunConcat(Step(s, first[0]).0, first[1..], second);
    }
  }

  lemma AcceptedPayer(s: Store, acc: AccNo, id: LoanId, instalment: Option<int>)
    requires EmiRefusal(s, acc, id, instalment).None?
    ensures id in s.loans && acc in s.ledger.accounts
  {
  }

  lemma RunOfOne(s: Store, a: Call)
    ensures Run(s, [a]) == Step(s, a).0
  {
    hide Step;
    assert [a][1..] == [];
    assert Run(Step(s, a).0, []) == Step(s, a).0;
  }

  lemma RunOfTwo(s: Store, a: Call, b: Call)
    ensures Run(s, [a, b]) == Step(Step(s, a).0, b).0
  {
    hide Step, Run;
    assert [a] + [b] == [a, b];
    RunConcat(s, [a], [b]);
    RunOfOne(s, a);
    RunOfOne(Step(s, a).0, b);
  }
}
