/** The entities of domain/entities.py. Money is counted in paise and time in
    seconds. Account numbers are ten-digit strings, so their string order is the
    order of the numbers used here. */
module Domain {
  type AccNo = nat
  type LoanId = nat
  type GoalId = nat
  type Key = nat
  type Time = int

  datatype Option<+T> = None | Some(value: T)

  datatype Account = Account(balance: int, active: bool, frozen: bool, deleted: bool) {
    predicate CanTransact() {
      active && !frozen
    }
  }

  datatype TxnType =
    | DEPOSIT | WITHDRAW | TRANSFER_OUT | TRANSFER_IN
    | INTEREST | LOAN_DISBURSEMENT | LOAN_REPAYMENT

  /** What the free-text description of a log row refers to. */
  datatype Memo = Plain | ForLoan(loan: LoanId) | ForGoal(goal: GoalId)

  datatype Row = Row(acc: AccNo, kind: TxnType, amount: int, balance: int, target: Option<AccNo>, memo: Memo)

  datatype LoanType = PERSONAL | HOME | VEHICLE | EDUCATION | BUSINESS

  datatype LoanStatus = PENDING | APPROVED | ACTIVE | CLOSED | REJECTED

  datatype Loan = Loan(
    acc: AccNo,
    principal: int,
    rate: real,
    tenure: int,
    emi: int,
    paid: int,
    remaining: int,
    status: LoanStatus,
    approval: Option<Time>,
    nextEmi: Option<Time>)
  {
    /** Estimated remaining EMIs. */
    function RemainingEmis(): int {
      if emi <= 0 then 0
      else if remaining >= 0 then remaining / emi + (if remaining % emi > 0 then 1 else 0)
      else -((-remaining) / emi)  // int() truncates towards zero, and a Decimal remainder takes the sign of the dividend
    }

    predicate Disbursed() {
      status in {APPROVED, ACTIVE, CLOSED}
    }

    predicate Payable() {
      status in {APPROVED, ACTIVE}
    }
  }

  datatype Goal = Goal(acc: AccNo, target: int, current: int, completed: bool)

  /** Why a service refuses a request. */
  datatype Reason =
    | NotPositive | SelfTransfer | NotFound | SenderNotFound | RecipientNotFound
    | IsFrozen | IsClosed | FrozenOrClosed | SenderInactive | RecipientInactive
    | Insufficient(available: int) | DatabaseError | NoInterest
    | InvalidLoanType | BelowMinimum | AboveMaximum | BadTenure | BadRate
    | LoanNotFound | LoanNotPending(status: LoanStatus) | LoanNotPayable(status: LoanStatus) | NotOwner
    | BadName | GoalNotFound | WrongPassword | AlreadyFrozen | NotFrozen

  /** ServiceResult and TransferResult. `Raised` stands for an exception that
      leaves the service. */
  datatype Response =
    | Refused(reason: Reason)
    | Raised
    | Deposited(balance: int)
    | Withdrawn(balance: int)
    | Transferred(senderBalance: int, receiverBalance: int)
    | AlreadyCompleted
    | InterestPaid(interest: int, balance: int)
    | LoanApplied(emi: int)
    | LoanApproved(balance: int)
    | EmiPaid(paid: int, remaining: int, balance: int, closed: bool)
    | Ok
}
