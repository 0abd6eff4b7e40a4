/** Money is neither made nor lost except through the kinds of log row that say so,
    and the log accounts for every balance. */
module Conservation {
  import opened Domain
  import opened Ledger
  import opened BankSpec
  import opened Sums
  import Emi

  function BalanceOf(a: Account): int { a.balance }

  function CurrentOf(g: Goal): int { g.current }

  /** Every balance, those of closed and deleted accounts included, and every goal. */
  ghost function TotalMoney(s: Store): int {
    Sum(s.ledger.accounts, BalanceOf) + Sum(s.goals, CurrentOf)
  }

  /** TransactionRepository.total_by_type. */
  function TotalByType(log: seq<Row>, kind: TxnType): int {
    if log == [] then 0
    else TotalByType(log[..|log| - 1], kind) + (if log[|log| - 1].kind == kind then log[|log| - 1].amount else 0)
  }

  /** What has entered the bank from outside, less what has left it, according to the log. */
  function NetInflow(log: seq<Row>): int {
    TotalByType(log, DEPOSIT) - TotalByType(log, WITHDRAW) + TotalByType(log, INTEREST)
    + TotalByType(log, LOAN_DISBURSEMENT) - TotalByType(log, LOAN_REPAYMENT)
  }

  /** A goal's savings vanish when it is deleted on behalf of an account that is not live. */
  function LostBy(s: Store, c: Call): int {
    if c.DeleteGoal? && c.goal in s.goals && s.goals[c.goal].current > 0 && Live(s.ledger.accounts, c.acc).None?
    then s.goals[c.goal].current else 0
  }

  function Lost(s: Store, calls: seq<Call>): int
    decreases |calls|
  {
    if calls == [] then 0 else LostBy(s, calls[0]) + Lost(Step(s, calls[0]).0, calls[1..])
  }

  predicate Solvent(s: Store) {
    && (forall a :: a in s.ledger.accounts ==> s.ledger.accounts[a].balance >= 0)
    && (forall g :: g in s.goals ==> s.goals[g].current >= 0)
    && (forall id :: id in s.loans ==> s.loans[id].principal > 0 && s.loans[id].remaining >= 0)
  }

  lemma AppendTotal(log: seq<Row>, row: Row, kind: TxnType)
    ensures TotalByType(log + [row], kind) == TotalByType(log, kind) + (if row.kind == kind then row.amount else 0)
  {
    assert (log + [row])[..|log|] == log;
  }

  lemma AppendInflow(log: seq<Row>, row: Row)
    ensures NetInflow(log + [row]) == NetInflow(log) +
              match row.kind {
                case DEPOSIT | INTEREST | LOAN_DISBURSEMENT => row.amount
                case WITHDRAW | LOAN_REPAYMENT => -row.amount
                case TRANSFER_OUT | TRANSFER_IN => 0
              }
  {
    AppendTotal(log, row, DEPOSIT);
    AppendTotal(log, row, WITHDRAW);
    AppendTotal(log, row, INTEREST);
    AppendTotal(log, row, LOAN_DISBURSEMENT);
    AppendTotal(log, row, LOAN_REPAYMENT);
  }

  lemma CreditMoves(accounts: map<AccNo, Account>, acc: AccNo, amount: int)
    requires acc in accounts
    ensures Sum(Credit(accounts, acc, amount), BalanceOf) == Sum(accounts, BalanceOf) + amount
  {
    SumUpdate(accounts, BalanceOf, acc, accounts[acc].(balance := accounts[acc].balance + amount));
  }

  /** The ledger's imbalance: what its accounts hold beyond what the log explains. */
  ghost function Unexplained(l: Ledger): int {
    Sum(l.accounts, BalanceOf) - NetInflow(l.log)
  }

  /** One booked row changes the balances by what it adds to the inflow, except a
      transfer row, which is only one half of a movement. */
  lemma PostUnexplained(l: Ledger, acc: AccNo, kind: TxnType, amount: int, target: Option<AccNo>, memo: Memo)
    requires acc in l.accounts
    ensures Unexplained(Post(l, acc, kind, amount, target, memo)) == Unexplained(l) +
              (if kind.TRANSFER_OUT? then -amount else if kind.TRANSFER_IN? then amount else 0)
  {
    hide TotalByType, NetInflow;
    var l' := Post(l, acc, kind, amount, target, memo);
    CreditMoves(l.accounts, acc, Sign(kind) * amount);
    AppendInflow(l.log, l'.log[|l.log|]);
    assert l'.log == l.log + [l'.log[|l.log|]];
  }

  /** Deposits, withdrawals and transfers balance exactly, whatever the ledger. */
  lemma ExecConserves(l: Ledger, op: Op)
    ensures Unexplained(Exec(l, op).0) == Unexplained(l)
  {
    hide Unexplained;
    if Screen(op).None? && Guard(op, Lookup(l, op)).None? {
      match op
      case Deposit(a, amount) => PostUnexplained(l, a, DEPOSIT, amount, None, Plain);
      case Withdraw(a, amount) => PostUnexplained(l, a, WITHDRAW, amount, None, Plain);
      case Transfer(s, r, amount) =>
        PostUnexplained(l, s, TRANSFER_OUT, amount, Some(r), Plain);
        PostUnexplained(Post(l, s, TRANSFER_OUT, amount, Some(r), Plain), r, TRANSFER_IN, amount, Some(s), Plain);
    }
  }

  lemma StatusUnexplained(s: Store, acc: AccNo, a: Account)
    requires acc in s.ledger.accounts && a.balance == s.ledger.accounts[acc].balance
    ensures Unexplained(SetAccount(s, acc, a).ledger) == Unexplained(s.ledger)
  {
    SumUpdate(s.ledger.accounts, BalanceOf, acc, a);
  }

  lemma StepConserves(s: Store, c: Call)
    requires Solvent(s)
    ensures var s' := Step(s, c).0;
            Unexplained(s'.ledger) + Sum(s'.goals, CurrentOf)
            == Unexplained(s.ledger) + Sum(s.goals, CurrentOf) - LostBy(s, c)
  {
    hide Unexplained, Emi.RoundPaise, Emi.CalculateEmi, Exec, PayEmiStep, ContributeStep, DeleteGoalStep, Screening;
    var s' := Step(s, c).0;
    match c
    case Register(acc) =>
      if acc !in s.ledger.accounts {
        RegisterUnexplained(s, acc);
      }
    case Money(op, _, _) => ExecConserves(s.ledger, op);
    case Interest(acc) =>
      if s' != s {
        PostUnexplained(s.ledger, acc, INTEREST, MonthlyInterest(s.ledger.accounts[acc].balance), None, Plain);
      }
    case ApplyLoan(_, _, _, _, _, _) =>
    case ApproveLoan(id, now) =>
      if s' != s {
        PostUnexplained(s.ledger, s.loans[id].acc, LOAN_DISBURSEMENT, s.loans[id].principal, None, ForLoan(id));
      }
    case RejectLoan(_) =>
    case PayEmi(acc, id, instalment, now) => PayUnexplained(s, acc, id, instalment, now);
    case CreateGoal(id, acc, _, target) =>
      if s' != s {
        SumInsert(s.goals, CurrentOf, id, Goal(acc, target, 0, false));
      }
    case Contribute(acc, id, amount) => ContributeUnexplained(s, acc, id, amount);
    case DeleteGoal(acc, id) => DeleteGoalUnexplained(s, acc, id);
    case Close(acc, _) => if s' != s { StatusUnexplained(s, acc, s'.ledger.accounts[acc]); }
    case Freeze(acc) => if s' != s { StatusUnexplained(s, acc, s'.ledger.accounts[acc]); }
    case Unfreeze(acc) => if s' != s { StatusUnexplained(s, acc, s'.ledger.accounts[acc]); }
    case Delete(acc) => if s' != s { StatusUnexplained(s, acc, s'.ledger.accounts[acc]); }
  }

  lemma RegisterUnexplained(s: Store, acc: AccNo)
    requires acc !in s.ledger.accounts
    ensures Unexplained(RegisterStep(s, acc).0.ledger) == Unexplained(s.ledger)
  {
    SumInsert(s.ledger.accounts, BalanceOf, acc, Account(0, true, false, false));
  }

  lemma DeleteGoalUnexplained(s: Store, acc: AccNo, id: GoalId)
    requires Solvent(s)
    ensures var s' := DeleteGoalStep(s, acc, id).0;
            Unexplained(s'.ledger) + Sum(s'.goals, CurrentOf)
            == Unexplained(s.ledger) + Sum(s.goals, CurrentOf) - LostBy(s, DeleteGoal(acc, id))
  {
    if id in s.goals {
      SumWithout(s.goals, CurrentOf, id);
      if Live(s.ledger.accounts, acc).Some? {
        CreditMoves(s.ledger.accounts, acc, s.goals[id].current);
      }
    }
  }

  lemma PayUnexplained(s: Store, acc: AccNo, id: LoanId, instalment: Option<int>, now: Time)
    ensures var s' := PayEmiStep(s, acc, id, instalment, now).0;
            s'.goals == s.goals && Unexplained(s'.ledger) == Unexplained(s.ledger)
  {
    hide Unexplained;
    if EmiRefusal(s, acc, id, instalment).None? {
      var loan := s.loans[id];
      var payment := Min(if instalment.Some? then instalment.value else loan.emi, loan.remaining);
      PostUnexplained(s.ledger, acc, LOAN_REPAYMENT, payment, None, ForLoan(id));
    }
  }

  lemma ContributeUnexplained(s: Store, acc: AccNo, id: GoalId, amount: int)
    ensures var s' := ContributeStep(s, acc, id, amount).0;
            Unexplained(s'.ledger) + Sum(s'.goals, CurrentOf) == Unexplained(s.ledger) + Sum(s.goals, CurrentOf)
  {
    hide Unexplained;
    var s' := ContributeStep(s, acc, id, amount).0;
    if s' != s {
      PostUnexplained(s.ledger, acc, TRANSFER_OUT, amount, None, ForGoal(id));
      SumUpdate(s.goals, CurrentOf, id, s'.goals[id]);
    }
  }

  lemma ExecKeepsSolvent(s: Store, op: Op, records: map<Key, Response>)
    requires Solvent(s)
    ensures Solvent(s.(ledger := Exec(s.ledger, op).0, records := records))
  {
  }

  lemma PayKeepsSolvent(s: Store, acc: AccNo, id: LoanId, instalment: Option<int>, now: Time)
    requires Solvent(s)
    ensures Solvent(PayEmiStep(s, acc, id, instalment, now).0)
  {
  }

  lemma GoalCallsKeepSolvent(s: Store, acc: AccNo, id: GoalId, amount: int)
    requires Solvent(s)
    ensures Solvent(ContributeStep(s, acc, id, amount).0) && Solvent(DeleteGoalStep(s, acc, id).0)
  {
  }

  /** No call overdraws an account or a goal. */
  lemma StepKeepsSolvent(s: Store, c: Call)
    requires Solvent(s)
    ensures Solvent(Step(s, c).0)
  {
    hide Emi.RoundPaise, Emi.CalculateEmi, Exec, PayEmiStep, ContributeStep, DeleteGoalStep;
    match c {
      case Money(op, _, _) => ExecKeepsSolvent(s, op, Step(s, c).0.records);
      case PayEmi(acc, id, instalment, now) => PayKeepsSolvent(s, acc, id, instalment, now);
      case Contribute(acc, id, amount) => GoalCallsKeepSolvent(s, acc, id, amount);
      case DeleteGoal(acc, id) => GoalCallsKeepSolvent(s, acc, id, 0);
      case _ =>
    }
  }

  lemma {:induction false} RunKeepsSolvent(s: Store, calls: seq<Call>)
    requires Solvent(s)
    ensures Solvent(Run(s, calls))
    decreases |calls|
  {
    hide Step, Solvent;
    if calls != [] {
      StepKeepsSolvent(s, calls[0]);
      RunKeepsSolvent(Step(s, calls[0]).0, calls[1..]);
    }
  }

  lemma {:induction false} RunConserves(s: Store, calls: seq<Call>)
    requires Solvent(s)
    ensures var s' := Run(s, calls);
            TotalMoney(s') - NetInflow(s'.ledger.log) == TotalMoney(s) - NetInflow(s.ledger.log) - Lost(s, calls)
    decreases |calls|
  {
    hide Step, Solvent, NetInflow;
    if calls != [] {
      StepConserves(s, calls[0]);
      StepKeepsSolvent(s, calls[0]);
      RunConserves(Step(s, calls[0]).0, calls[1..]);
    }
  }

  /** Conservation over any call sequence from an empty bank: everything held is what
      the log says came in, less what left, less the refunds that reached nobody; and
      no balance is ever negative. */
  lemma MoneyIsConserved(calls: seq<Call>)
    ensures var s := Run(EMPTY, calls);
            TotalMoney(s) == NetInflow(s.ledger.log) - Lost(EMPTY, calls) && Solvent(s)
  {
    RunConserves(EMPTY, calls);
    RunKeepsSolvent(EMPTY, calls);
  }
}
