/** What each service refuses, writes and answers, given what its queries show: the
    branches of application/services.py, one service at a time. */
module ServicePlans {
  import opened Domain
  import opened Ledger
  import opened BankSpec
  import opened Session
  import Emi

  ghost predicate Refuses(v: Store, c: Call, reason: Reason) {
    !Commits(v, c) && Step(v, c).1 == Refused(reason)
  }

  ghost predicate Plans(v: Store, c: Call, plan: seq<Change>, answer: Response) {
    Commits(v, c) && Changes(v, c) == plan && (c.CreateGoal? || Step(v, c).1 == answer) && (c.CreateGoal? ==> answer == Ok)
  }

  /** The call has passed its argument checks and is not answered from the records. */
  predicate Begun(b: Books, c: Call, f: Fault) {
    && Rejected(c).None?
    && (c.Money? && c.key.Some? ==> !f.InLookup? && c.key.value !in b.committed.records)
  }

  function Struck(b: Books, c: Call, staged: seq<Change>): (Books, Response) {
    if IsTransfer(c) then (Books(b.committed, []), Refused(DatabaseError))
    else (Books(b.committed, b.pending + staged), Raised)
  }

  /** Serve, case by case: rejected or answered at once, struck before its first write,
      refused, or planned. */
  lemma ServedEarly(b: Books, c: Call, f: Fault)
    ensures Rejected(c).Some? ==> Serve(b, c, f) == (b, Refused(Rejected(c).value))
    ensures Rejected(c).None? && c.Money? && c.key.Some? ==>
              && (f.InLookup? ==> Serve(b, c, f) == (b, Raised))
              && (!f.InLookup? && c.key.value in b.committed.records ==>
                    Serve(b, c, f) == (b, Cached(c.op, b.committed.records[c.key.value])))
  {
    hide View, Commits, Changes, Step, Collides, Flush, Recorded, Rejected;
    assert b.pending + [] == b.pending;
  }

  lemma ServedAtOnce(b: Books, c: Call, f: Fault)
    requires Begun(b, c, f)
    ensures f == Before(0) ==>
              Serve(b, c, f) == if IsTransfer(c) then (Books(b.committed, []), Refused(DatabaseError)) else (b, Raised)
    ensures f != Before(0) && !Commits(View(b.committed, b.pending), c) ==>
              Serve(b, c, f) == (b, Step(View(b.committed, b.pending), c).1)
  {
    hide View, Commits, Changes, Step, Collides, Flush, Recorded, Rejected;
    assert b.pending + [] == b.pending;
  }

  lemma ServedByPlan(b: Books, c: Call, f: Fault, plan: seq<Change>, answer: Response)
    requires Begun(b, c, f) && f != Before(0) && Commits(View(b.committed, b.pending), c)
    requires plan == Changes(View(b.committed, b.pending), c)
    requires c.CreateGoal? || Step(View(b.committed, b.pending), c).1 == answer || Collides(b.committed, b.pending + plan)
    requires c.CreateGoal? ==> answer == Ok
    ensures Serve(b, c, f) ==
              if f.Before? && f.n <= |plan| then Struck(b, c, plan[..f.n])
              else if f.InCommit? || Collides(b.committed, b.pending + plan)
              then (Books(b.committed, []), if IsTransfer(c) then Refused(DatabaseError) else Raised)
              else (Books(Recorded(Flush(b.committed, b.pending + plan), c, answer), []), answer)
  {
    hide View, Commits, Changes, Step, Collides, Flush, Recorded, Rejected;
  }

  /** A call that nothing strikes publishes what is pending and its plan. */
  lemma ServedWhole(b: Books, c: Call, plan: seq<Change>, answer: Response)
    requires Rejected(c).None? && !c.Money? && Plans(View(b.committed, b.pending), c, plan, answer)
    requires !Collides(b.committed, b.pending + plan)
    ensures Serve(b, c, NoFault) == (Books(Flush(b.committed, b.pending + plan), []), answer)
  {
    hide View, Commits, Changes, Step, Collides, Flush, Rejected, Serve;
    ServedByPlan(b, c, NoFault, plan, answer);
  }

  /** A new row that the database takes is not among those the session shows. */
  lemma NewIsUnseen(s: Store, cs: seq<Change>, c: Change)
    requires !Collides(s, cs + [c])
    ensures c.AddAccount? ==> c.acc !in View(s, cs).ledger.accounts
    ensures c.AddLoan? ==> c.loan !in View(s, cs).loans
  {
    assert (cs + [c])[..|cs|] == cs;
  }

  lemma DepositPlan(v: Store, acc: AccNo, amount: int, key: Option<Key>, persisted: bool)
    requires amount > 0 && (key.Some? ==> key.value !in v.records)
    ensures var c := Money(Op.Deposit(acc, amount), key, persisted);
            match Live(v.ledger.accounts, acc)
            case None => Refuses(v, c, NotFound)
            case Some(a) =>
              if !a.CanTransact() then Refuses(v, c, if a.frozen then IsFrozen else IsClosed)
              else
                var balance := a.balance + amount;
                Plans(v, c, [PutAccount(acc, a.(balance := balance)), AddRow(Row(acc, DEPOSIT, amount, balance, None, Plain))],
                      Deposited(balance))
  {
  }

  lemma WithdrawPlan(v: Store, acc: AccNo, amount: int, key: Option<Key>, persisted: bool)
    requires amount > 0 && (key.Some? ==> key.value !in v.records)
    ensures var c := Money(Op.Withdraw(acc, amount), key, persisted);
            match Live(v.ledger.accounts, acc)
            case None => Refuses(v, c, NotFound)
            case Some(a) =>
              if !a.CanTransact() then Refuses(v, c, if a.frozen then IsFrozen else IsClosed)
              else if amount > a.balance then Refuses(v, c, Insufficient(a.balance))
              else
                var balance := a.balance - amount;
                Plans(v, c, [PutAccount(acc, a.(balance := balance)), AddRow(Row(acc, WITHDRAW, amount, balance, None, Plain))],
                      Withdrawn(balance))
  {
  }

  lemma TransferPlan(v: Store, sender: AccNo, receiver: AccNo, amount: int, key: Option<Key>, persisted: bool)
    requires amount > 0 && sender != receiver && (key.Some? ==> key.value !in v.records)
    ensures var c := Money(Op.Transfer(sender, receiver, amount), key, persisted);
            var from, to := Live(v.ledger.accounts, sender), Live(v.ledger.accounts, receiver);
            if from.None? then Refuses(v, c, SenderNotFound)
            else if to.None? then Refuses(v, c, RecipientNotFound)
            else if !from.value.CanTransact() then Refuses(v, c, SenderInactive)
            else if !to.value.CanTransact() then Refuses(v, c, RecipientInactive)
            else if amount > from.value.balance then Refuses(v, c, Insufficient(from.value.balance))
            else
              var less, more := from.value.balance - amount, to.value.balance + amount;
              Plans(v, c,
                    [PutAccount(sender, from.value.(balance := less)), PutAccount(receiver, to.value.(balance := more)),
                     AddRow(Row(sender, TRANSFER_OUT, amount, less, Some(receiver), Plain)),
                     AddRow(Row(receiver, TRANSFER_IN, amount, more, Some(sender), Plain))],
                    Transferred(less, more))
  {
  }

  lemma InterestPlan(v: Store, acc: AccNo)
    ensures var c := Interest(acc);
            match Live(v.ledger.accounts, acc)
            case None => Refuses(v, c, NotFound)
            case Some(a) =>
              if !a.CanTransact() then Refuses(v, c, FrozenOrClosed)
              else if MonthlyInterest(a.balance) <= 0 then Refuses(v, c, NoInterest)
              else
                var interest := MonthlyInterest(a.balance);
                var balance := a.balance + interest;
                Plans(v, c, [PutAccount(acc, a.(balance := balance)), AddRow(Row(acc, INTEREST, interest, balance, None, Plain))],
                      InterestPaid(interest, balance))
  {
    hide Emi.RoundPaise;
  }

  lemma ApplyPlan(v: Store, id: LoanId, acc: AccNo, product: Option<LoanType>, principal: int, rate: real, tenure: int)
    ensures var c := ApplyLoan(id, acc, product, principal, rate, tenure);
            match Screening(v, acc, product, principal, rate, tenure)
            case Some(reason) => Refuses(v, c, reason)
            case None =>
              var emi := Emi.CalculateEmi(principal, rate, tenure);
              Commits(v, c)
              && Changes(v, c) == [AddLoan(id, Loan(acc, principal, rate, tenure, emi, 0, principal, PENDING, None, None))]
              && (id !in v.loans ==> Step(v, c).1 == LoanApplied(emi))
  {
    hide Emi.CalculateEmi, Screening;
  }

  lemma ApprovePlan(v: Store, id: LoanId, now: Time)
    ensures var c := ApproveLoan(id, now);
            if id !in v.loans then Refuses(v, c, LoanNotFound)
            else if !v.loans[id].status.PENDING? then Refuses(v, c, LoanNotPending(v.loans[id].status))
            else
              var loan := v.loans[id];
              match Live(v.ledger.accounts, loan.acc)
              case None => Refuses(v, c, NotFound)
              case Some(a) =>
                if !a.CanTransact() then Refuses(v, c, FrozenOrClosed)
                else
                  var balance := a.balance + loan.principal;
                  Plans(v, c,
                        [PutLoan(id, loan.(status := ACTIVE, approval := Some(now), nextEmi := Some(now + THIRTY_DAYS))),
                         PutAccount(loan.acc, a.(balance := balance)),
                         AddRow(Row(loan.acc, LOAN_DISBURSEMENT, loan.principal, balance, None, ForLoan(id)))],
                        LoanApproved(balance))
  {
  }

  lemma RejectPlan(v: Store, id: LoanId)
    ensures var c := RejectLoan(id);
            if id !in v.loans then Refuses(v, c, LoanNotFound)
            else if !v.loans[id].status.PENDING? then Refuses(v, c, LoanNotPending(v.loans[id].status))
            else Plans(v, c, [PutLoan(id, v.loans[id].(status := REJECTED))], Ok)
  {
  }

  lemma PayPlan(v: Store, acc: AccNo, id: LoanId, instalment: Option<int>, now: Time)
    ensures var c := PayEmi(acc, id, instalment, now);
            match EmiRefusal(v, acc, id, instalment)
            case Some(reason) => Refuses(v, c, reason)
            case None =>
              && id in v.loans && acc in v.ledger.accounts
              && var loan, a := v.loans[id], v.ledger.accounts[acc];
                 var paid := Min(if instalment.Some? then instalment.value else loan.emi, loan.remaining);
                 var loan', balance := Repaid(loan, paid, now), a.balance - paid;
                 Plans(v, c,
                       [PutAccount(acc, a.(balance := balance)), PutLoan(id, loan'),
                        AddRow(Row(acc, LOAN_REPAYMENT, paid, balance, None, ForLoan(id)))],
                       EmiPaid(paid, loan'.remaining, balance, loan'.status.CLOSED?))
  {
  }

  lemma CreateGoalPlan(v: Store, id: GoalId, acc: AccNo, nameLength: nat, target: int)
    requires nameLength >= 2 && target > 0
    ensures Plans(v, CreateGoal(id, acc, nameLength, target), [AddGoal(id, Goal(acc, target, 0, false))], Ok)
  {
  }

  lemma ContributePlan(v: Store, acc: AccNo, id: GoalId, amount: int)
    requires amount > 0
    ensures var c := Contribute(acc, id, amount);
            match Live(v.ledger.accounts, acc)
            case None => Refuses(v, c, NotFound)
            case Some(a) =>
              if amount > a.balance then Refuses(v, c, Insufficient(a.balance))
              else if id !in v.goals then Refuses(v, c, GoalNotFound)
              else
                var goal, balance := v.goals[id], a.balance - amount;
                var current := goal.current + amount;
                Plans(v, c,
                      [PutAccount(acc, a.(balance := balance)),
                       AddRow(Row(acc, TRANSFER_OUT, amount, balance, None, ForGoal(id))),
                       PutGoal(id, goal.(current := current, completed := goal.completed || current >= goal.target))],
                      Ok)
  {
  }

  lemma DeleteGoalPlan(v: Store, acc: AccNo, id: GoalId)
    ensures var c := DeleteGoal(acc, id);
            if id !in v.goals then Refuses(v, c, GoalNotFound)
            else
              var refund, found := v.goals[id].current, Live(v.ledger.accounts, acc);
              if refund > 0 && found.Some?
              then Plans(v, c, [DropGoal(id), PutAccount(acc, found.value.(balance := found.value.balance + refund))], Ok)
              else Plans(v, c, [DropGoal(id)], Ok)
  {
  }

  lemma RegisterPlan(v: Store, acc: AccNo)
    ensures var c := Register(acc);
            Commits(v, c) && Changes(v, c) == [AddAccount(acc, Account(0, true, false, false))]
            && (acc !in v.ledger.accounts ==> Step(v, c).1 == Ok)
  {
  }

  lemma StatusPlans(v: Store, acc: AccNo, passwordOk: bool)
    ensures match Live(v.ledger.accounts, acc)
            case None =>
              && Refuses(v, Close(acc, passwordOk), NotFound) && Refuses(v, Freeze(acc), NotFound)
              && Refuses(v, Unfreeze(acc), NotFound) && Refuses(v, Delete(acc), NotFound)
            case Some(a) =>
              && (if !passwordOk then Refuses(v, Close(acc, passwordOk), WrongPassword)
                  else Plans(v, Close(acc, passwordOk), [PutAccount(acc, a.(active := false))], Ok))
              && (if !a.active && !a.frozen then Refuses(v, Freeze(acc), IsClosed)
                  else if a.frozen then Refuses(v, Freeze(acc), AlreadyFrozen)
                  else Plans(v, Freeze(acc), [PutAccount(acc, a.(frozen := true)),
                                              PutAccount(acc, a.(frozen := true, active := false))], Ok))
              && (if !a.frozen then Refuses(v, Unfreeze(acc), NotFrozen)
                  else Plans(v, Unfreeze(acc), [PutAccount(acc, a.(frozen := false))], Ok))
              && Plans(v, Delete(acc), [PutAccount(acc, a.(deleted := true, active := false))], Ok)
  {
  }
}
