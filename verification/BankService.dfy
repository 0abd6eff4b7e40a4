/** The services of application/services.py over the database session of one worker.
    A service stages changes step by step and then commits; `committed` is what other
    workers see. The session outlives the call: what a raised call has staged stays
    pending, queries show it, and the next commit publishes it. An exception may strike
    before any write, before the commit, or in it. Every method does to the store and to
    the session exactly what Session.Serve says, whatever it finds pending. */
module BankService {
  import opened Domain
  import opened Ledger
  import opened BankSpec
  import opened Session
  import opened ServicePlans
  import Emi

  class Bank {
    var committed: Store
    var pending: seq<Change>

    constructor ()
      ensures Now() == Books(EMPTY, [])
    {
      committed, pending := EMPTY, [];
    }

    function Now(): Books
      reads this
    {
      Books(committed, pending)
    }

    // ---- repositories and the session -------------------------------------

    function Shown(): Store
      reads this
    {
      View(committed, pending)
    }

    function GetAccount(acc: AccNo): Option<Account>
      reads this
    {
      Live(Shown().ledger.accounts, acc)
    }

    function GetLoan(id: LoanId): Option<Loan>
      reads this
    {
      if id in Shown().loans then Some(Shown().loans[id]) else None
    }

    function GetGoal(id: GoalId): Option<Goal>
      reads this
    {
      if id in Shown().goals then Some(Shown().goals[id]) else None
    }

    method Stage(c: Change)
      modifies this`pending
      ensures pending == old(pending) + [c]
    {
      pending := pending + [c];
    }

    /** A commit whose writes the database refuses undoes the whole transaction. */
    method Commit(fault: Fault) returns (ok: bool)
      modifies this
      ensures ok <==> !fault.InCommit? && !Collides(old(committed), old(pending))
      ensures committed == (if ok then Flush(old(committed), old(pending)) else old(committed)) && pending == []
    {
      ok := !(fault.InCommit? || Collides(committed, pending));
      if ok {
        committed := Flush(committed, pending);
      }
      pending := [];
    }

    method Rollback()
      modifies this`pending
      ensures pending == []
    {
      pending := [];
    }

    /** Storing an idempotency record is a commit of its own, whose failure is swallowed. */
    method StoreRecord(key: Option<Key>, result: Response, persisted: bool)
      requires pending == []
      modifies this
      ensures pending == []
      ensures committed == if key.Some? && persisted
                           then old(committed).(records := old(committed).records[key.value := result])
                           else old(committed)
    {
      if key.None? {
        return;
      }
      if persisted {
        committed := committed.(records := committed.records[key.value := result]);
      } else {
        Rollback();
      }
    }

    // ---- TransactionService ------------------------------------------------

    method Deposit(acc: AccNo, amount: int, key: Option<Key>, persisted: bool, fault: Fault) returns (r: Response)
      modifies this
      ensures (Now(), r) == Serve(old(Now()), Money(Op.Deposit(acc, amount), key, persisted), fault)
    {
      hide View, Flush, MakeAll, Collides, Commits, Changes, Step, Serve, Recorded, MonthlyInterest;
      ghost var b, c := Now(), Money(Op.Deposit(acc, amount), key, persisted);
      ServedEarly(b, c, fault);
      if amount <= 0 {
        return Refused(NotPositive);
      }
      if key.Some? {
        if fault.InLookup? { return Raised; }
        if key.value in committed.records {
          return Cached(Op.Deposit(acc, amount), committed.records[key.value]);
        }
      }
      ServedAtOnce(b, c, fault);
      ViewKeepsRecords(committed, pending);
      DepositPlan(Shown(), acc, amount, key, persisted);
      if fault == Before(0) { return Raised; }
      var found := GetAccount(acc);
      if found.None? {
        return Refused(NotFound);
      }
      var account := found.value;
      if !account.CanTransact() {
        return Refused(if account.frozen then IsFrozen else IsClosed);
      }
      account := account.(balance := account.balance + amount);
      var update := PutAccount(acc, account);
      var txn := AddRow(Row(acc, DEPOSIT, amount, account.balance, None, Plain));
      ServedByPlan(b, c, fault, [update, txn], Deposited(account.balance));
      Behind(pending, update, txn, txn, txn);
      Stage(update);
      if fault == Before(1) { return Raised; }
      Stage(txn);
      if fault == Before(2) { return Raised; }
      var ok := Commit(fault);
      if !ok { return Raised; }
      r := Deposited(account.balance);
      StoreRecord(key, r, persisted);
      RecordedIs(Flush(b.committed, b.pending + [update, txn]), c, r);
    }

    method Withdraw(acc: AccNo, amount: int, key: Option<Key>, persisted: bool, fault: Fault) returns (r: Response)
      modifies this
      ensures (Now(), r) == Serve(old(Now()), Money(Op.Withdraw(acc, amount), key, persisted), fault)
    {
      hide View, Flush, MakeAll, Collides, Commits, Changes, Step, Serve, Recorded, MonthlyInterest;
      ghost var b, c := Now(), Money(Op.Withdraw(acc, amount), key, persisted);
      ServedEarly(b, c, fault);
      if amount <= 0 {
        return Refused(NotPositive);
      }
      if key.Some? {
        if fault.InLookup? { return Raised; }
        if key.value in committed.records {
          return Cached(Op.Withdraw(acc, amount), committed.records[key.value]);
        }
      }
      ServedAtOnce(b, c, fault);
      ViewKeepsRecords(committed, pending);
      WithdrawPlan(Shown(), acc, amount, key, persisted);
      if fault == Before(0) { return Raised; }
      var found := GetAccount(acc);
      if found.None? {
        return Refused(NotFound);
      }
      var account := found.value;
      if !account.CanTransact() {
        return Refused(if account.frozen then IsFrozen else IsClosed);
      }
      if amount > account.balance {
        return Refused(Insufficient(account.balance));
      }
      account := account.(balance := account.balance - amount);
      var update := PutAccount(acc, account);
      var txn := AddRow(Row(acc, WITHDRAW, amount, account.balance, None, Plain));
      ServedByPlan(b, c, fault, [update, txn], Withdrawn(account.balance));
      Behind(pending, update, txn, txn, txn);
      Stage(update);
      if fault == Before(1) { return Raised; }
      Stage(txn);
      if fault == Before(2) { return Raised; }
      var ok := Commit(fault);
      if !ok { return Raised; }
      r := Withdrawn(account.balance);
      StoreRecord(key, r, persisted);
      RecordedIs(Flush(b.committed, b.pending + [update, txn]), c, r);
    }

    /** The critical section of a transfer. An exception leaves this method with the
        transfer's own writes undone by its savepoint and the rest still pending. */
    method AttemptTransfer(sender: AccNo, receiver: AccNo, amount: int, fault: Fault) returns (raised: bool, r: Response)
      modifies this
      ensures raised ==> committed == old(committed)
      ensures !raised ==>
        var from, to := old(GetAccount(sender)), old(GetAccount(receiver));
        && fault != Before(0)
        && if from.None? then Now() == old(Now()) && r == Refused(SenderNotFound)
           else if to.None? then Now() == old(Now()) && r == Refused(RecipientNotFound)
           else if !from.value.CanTransact() then Now() == old(Now()) && r == Refused(SenderInactive)
           else if !to.value.CanTransact() then Now() == old(Now()) && r == Refused(RecipientInactive)
           else if amount > from.value.balance then Now() == old(Now()) && r == Refused(Insufficient(from.value.balance))
           else
             var plan := TransferWrites(sender, receiver, amount, from.value, to.value);
             && !(fault.Before? && fault.n <= 4) && !fault.InCommit? && !Collides(old(committed), old(pending) + plan)
             && Now() == Books(Flush(old(committed), old(pending) + plan), [])
             && r == Transferred(from.value.balance - amount, to.value.balance + amount)
      ensures raised ==>
        var from, to := old(GetAccount(sender)), old(GetAccount(receiver));
        || fault == Before(0)
        || (from.Some? && to.Some? && from.value.CanTransact() && to.value.CanTransact() && amount <= from.value.balance
            && ((fault.Before? && fault.n <= 4) || fault.InCommit?
                || Collides(old(committed), old(pending) + TransferWrites(sender, receiver, amount, from.value, to.value))))
    {
      hide View, Flush, MakeAll, Collides;
      if fault == Before(0) { return true, Raised; }
      var from, to := GetAccount(sender), GetAccount(receiver);
      if from.None? { return false, Refused(SenderNotFound); }
      if to.None? { return false, Refused(RecipientNotFound); }
      var src, dst := from.value, to.value;
      if !src.CanTransact() { return false, Refused(SenderInactive); }
      if !dst.CanTransact() { return false, Refused(RecipientInactive); }
      if amount > src.balance { return false, Refused(Insufficient(src.balance)); }

      var savepoint := pending;
      src := src.(balance := src.balance - amount);
      dst := dst.(balance := dst.balance + amount);
      var debit, credit := PutAccount(sender, src), PutAccount(receiver, dst);
      var sent := AddRow(Row(sender, TRANSFER_OUT, amount, src.balance, Some(receiver), Plain));
      var received := AddRow(Row(receiver, TRANSFER_IN, amount, dst.balance, Some(sender), Plain));
      Behind(pending, debit, credit, sent, received);
      Stage(debit);
      if fault == Before(1) { pending := savepoint; return true, Raised; }
      Stage(credit);
      if fault == Before(2) { pending := savepoint; return true, Raised; }
      Stage(sent);
      if fault == Before(3) { pending := savepoint; return true, Raised; }
      Stage(received);
      // the savepoint is released here: its writes now belong to the outer transaction
      if fault == Before(4) { return true, Raised; }
      var ok := Commit(fault);
      if !ok { return true, Raised; }
      return false, Transferred(src.balance, dst.balance);
    }

    /** All or nothing wherever the exception strikes, and nothing left pending by it. */
    method Transfer(sender: AccNo, receiver: AccNo, amount: int, key: Option<Key>, persisted: bool, fault: Fault) returns (r: Response)
      modifies this
      ensures (Now(), r) == Serve(old(Now()), Money(Op.Transfer(sender, receiver, amount), key, persisted), fault)
    {
      hide View, Flush, MakeAll, Collides, Commits, Changes, Step, Serve, Recorded, MonthlyInterest;
      ghost var b, c := Now(), Money(Op.Transfer(sender, receiver, amount), key, persisted);
      ServedEarly(b, c, fault);
      if amount <= 0 {
        return Refused(NotPositive);
      }
      if sender == receiver {
        return Refused(SelfTransfer);
      }
      if key.Some? {
        if fault.InLookup? { return Raised; }
        if key.value in committed.records {
          return Cached(Op.Transfer(sender, receiver, amount), committed.records[key.value]);
        }
      }
      ServedAtOnce(b, c, fault);
      ViewKeepsRecords(committed, pending);
      TransferPlan(Shown(), sender, receiver, amount, key, persisted);
      ghost var from, to := GetAccount(sender), GetAccount(receiver);
      ghost var plan := [];
      if fault != Before(0) && Commits(Shown(), c) {
        plan := TransferWrites(sender, receiver, amount, from.value, to.value);
        ServedByPlan(b, c, fault, plan, Transferred(from.value.balance - amount, to.value.balance + amount));
      }
      var raised: bool;
      raised, r := AttemptTransfer(sender, receiver, amount, fault);
      if raised {
        Rollback();
        return Refused(DatabaseError);
      }
      if r.Refused? {
        return;
      }
      StoreRecord(key, r, persisted);
      RecordedIs(Flush(b.committed, b.pending + plan), c, r);
    }

    method ApplyInterest(acc: AccNo, fault: Fault) returns (r: Response)
      modifies this
      ensures (Now(), r) == Serve(old(Now()), Interest(acc), fault)
    {
      hide View, Flush, MakeAll, Collides, Commits, Changes, Step, Serve, Recorded, MonthlyInterest;
      ghost var b, c := Now(), Interest(acc);
      ServedEarly(b, c, fault);
      ServedAtOnce(b, c, fault);
      InterestPlan(Shown(), acc);
      if fault == Before(0) { return Raised; }
      var found := GetAccount(acc);
      if found.None? {
        return Refused(NotFound);
      }
      var account := found.value;
      if !account.CanTransact() {
        return Refused(FrozenOrClosed);
      }
      var interest := MonthlyInterest(account.balance);
      if interest <= 0 {
        return Refused(NoInterest);
      }
      account := account.(balance := account.balance + interest);
      var update := PutAccount(acc, account);
      var txn := AddRow(Row(acc, INTEREST, interest, account.balance, None, Plain));
      ServedByPlan(b, c, fault, [update, txn], InterestPaid(interest, account.balance));
      Behind(pending, update, txn, txn, txn);
      Stage(update);
      if fault == Before(1) { return Raised; }
      Stage(txn);
      if fault == Before(2) { return Raised; }
      var ok := Commit(fault);
      if !ok { return Raised; }
      r := InterestPaid(interest, account.balance);
      RecordedIs(committed, c, r);
    }

    // ---- LoanService -------------------------------------------------------

    method ApplyLoan(id: LoanId, acc: AccNo, product: Option<LoanType>, principal: int, rate: real, tenure: int, fault: Fault)
      returns (r: Response)
      modifies this
      ensures (Now(), r) == Serve(old(Now()), Call.ApplyLoan(id, acc, product, principal, rate, tenure), fault)
    {
      hide View, Flush, MakeAll, Collides, Commits, Changes, Step, Serve, Recorded, MonthlyInterest;
      ghost var b, c := Now(), Call.ApplyLoan(id, acc, product, principal, rate, tenure);
      ServedEarly(b, c, fault);
      ServedAtOnce(b, c, fault);
      ApplyPlan(Shown(), id, acc, product, principal, rate, tenure);
      if fault == Before(0) { return Raised; }
      var found := GetAccount(acc);
      if found.None? {
        return Refused(NotFound);
      }
      if !found.value.CanTransact() {
        return Refused(FrozenOrClosed);
      }
      if product.None? {
        return Refused(InvalidLoanType);
      }
      if principal < MIN_PRINCIPAL {
        return Refused(BelowMinimum);
      }
      if principal > MAX_PRINCIPAL {
        return Refused(AboveMaximum);
      }
      if tenure < 1 || tenure > MaxTenure(product.value) {
        return Refused(BadTenure);
      }
      if rate < MinRate(product.value) || rate > MaxRate(product.value) {
        return Refused(BadRate);
      }
      var emi := Emi.CalculateEmi(principal, rate, tenure);
      var create := AddLoan(id, Loan(acc, principal, rate, tenure, emi, 0, principal, PENDING, None, None));
      Behind(pending, create, create, create, create);
      if !Collides(committed, pending + [create]) {
        NewIsUnseen(committed, pending, create);
      }
      ServedByPlan(b, c, fault, [create], LoanApplied(emi));
      Stage(create);
      if fault == Before(1) { return Raised; }
      var ok := Commit(fault);
      if !ok { return Raised; }
      r := LoanApplied(emi);
      RecordedIs(committed, c, r);
    }

    method ApproveLoan(id: LoanId, now: Time, fault: Fault) returns (r: Response)
      modifies this
      ensures (Now(), r) == Serve(old(Now()), Call.ApproveLoan(id, now), fault)
    {
      hide View, Flush, MakeAll, Collides, Commits, Changes, Step, Serve, Recorded, MonthlyInterest;
      ghost var b, c := Now(), Call.ApproveLoan(id, now);
      ServedEarly(b, c, fault);
      ServedAtOnce(b, c, fault);
      ApprovePlan(Shown(), id, now);
      if fault == Before(0) { return Raised; }
      var stored := GetLoan(id);
      if stored.None? {
        return Refused(LoanNotFound);
      }
      var loan := stored.value;
      if loan.status != PENDING {
        return Refused(LoanNotPending(loan.status));
      }
      var found := GetAccount(loan.acc);
      if found.None? {
        return Refused(NotFound);
      }
      var account := found.value;
      if !account.CanTransact() {
        return Refused(FrozenOrClosed);
      }
      loan := loan.(status := ACTIVE);
      loan := loan.(approval := Some(now));
      loan := loan.(nextEmi := Some(now + THIRTY_DAYS));
      account := account.(balance := account.balance + loan.principal);
      var activate, update := PutLoan(id, loan), PutAccount(loan.acc, account);
      var txn := AddRow(Row(loan.acc, LOAN_DISBURSEMENT, loan.principal, account.balance, None, ForLoan(id)));
      ServedByPlan(b, c, fault, [activate, update, txn], LoanApproved(account.balance));
      Behind(pending, activate, update, txn, txn);
      Stage(activate);
      if fault == Before(1) { return Raised; }
      Stage(update);
      if fault == Before(2) { return Raised; }
      Stage(txn);
      if fault == Before(3) { return Raised; }
      var ok := Commit(fault);
      if !ok { return Raised; }
      r := LoanApproved(account.balance);
      RecordedIs(committed, c, r);
    }

    method RejectLoan(id: LoanId, fault: Fault) returns (r: Response)
      modifies this
      ensures (Now(), r) == Serve(old(Now()), Call.RejectLoan(id), fault)
    {
      hide View, Flush, MakeAll, Collides, Commits, Changes, Step, Serve, Recorded, MonthlyInterest;
      ghost var b, c := Now(), Call.RejectLoan(id);
      ServedEarly(b, c, fault);
      ServedAtOnce(b, c, fault);
      RejectPlan(Shown(), id);
      if fault == Before(0) { return Raised; }
      var stored := GetLoan(id);
      if stored.None? {
        return Refused(LoanNotFound);
      }
      var loan := stored.value;
      if loan.status != PENDING {
        return Refused(LoanNotPending(loan.status));
      }
      var update := PutLoan(id, loan.(status := REJECTED));
      ServedByPlan(b, c, fault, [update], Ok);
      Behind(pending, update, update, update, update);
      Stage(update);
      if fault == Before(1) { return Raised; }
      var ok := Commit(fault);
      if !ok { return Raised; }
      r := Ok;
      RecordedIs(committed, c, r);
    }

    method PayEmi(acc: AccNo, id: LoanId, instalment: Option<int>, now: Time, fault: Fault) returns (r: Response)
      modifies this
      ensures (Now(), r) == Serve(old(Now()), Call.PayEmi(acc, id, instalment, now), fault)
    {
      hide View, Flush, MakeAll, Collides, Commits, Changes, Step, Serve, Recorded, MonthlyInterest;
      ghost var b, c := Now(), Call.PayEmi(acc, id, instalment, now);
      ServedEarly(b, c, fault);
      ServedAtOnce(b, c, fault);
      PayPlan(Shown(), acc, id, instalment, now);
      if fault == Before(0) { return Raised; }
      var stored := GetLoan(id);
      if stored.None? {
        return Refused(LoanNotFound);
      }
      var loan := stored.value;
      if loan.status != APPROVED && loan.status != ACTIVE {
        return Refused(LoanNotPayable(loan.status));
      }
      if loan.acc != acc {
        return Refused(NotOwner);
      }
      var found := GetAccount(acc);
      if found.None? {
        return Refused(NotFound);
      }
      var account := found.value;
      if !account.CanTransact() {
        return Refused(FrozenOrClosed);
      }
      var payment := if instalment.Some? then instalment.value else loan.emi;
      if payment <= 0 {
        return Refused(NotPositive);
      }
      if payment > account.balance {
        return Refused(Insufficient(account.balance));
      }
      var actual := Min(payment, loan.remaining);
      account := account.(balance := account.balance - actual);
      loan := loan.(paid := loan.paid + actual);
      loan := loan.(remaining := loan.remaining - actual);
      if loan.nextEmi.Some? {
        loan := loan.(nextEmi := Some(loan.nextEmi.value + THIRTY_DAYS));
      } else {
        loan := loan.(nextEmi := Some(now + THIRTY_DAYS));
      }
      if loan.remaining <= 0 {
        loan := loan.(status := CLOSED);
        loan := loan.(remaining := 0);
        loan := loan.(nextEmi := None);
      }
      var debit, update := PutAccount(acc, account), PutLoan(id, loan);
      var txn := AddRow(Row(acc, LOAN_REPAYMENT, actual, account.balance, None, ForLoan(id)));
      ServedByPlan(b, c, fault, [debit, update, txn], EmiPaid(actual, loan.remaining, account.balance, loan.status == CLOSED));
      Behind(pending, debit, update, txn, txn);
      Stage(debit);
      if fault == Before(1) { return Raised; }
      Stage(update);
      if fault == Before(2) { return Raised; }
      Stage(txn);
      if fault == Before(3) { return Raised; }
      var ok := Commit(fault);
      if !ok { return Raised; }
      r := EmiPaid(actual, loan.remaining, account.balance, loan.status == CLOSED);
      RecordedIs(committed, c, r);
    }

    // ---- SavingsGoalService ------------------------------------------------

    method CreateGoal(id: GoalId, acc: AccNo, nameLength: nat, target: int, fault: Fault) returns (r: Response)
      modifies this
      ensures (Now(), r) == Serve(old(Now()), Call.CreateGoal(id, acc, nameLength, target), fault)
    {
      hide View, Flush, MakeAll, Collides, Commits, Changes, Step, Serve, Recorded, MonthlyInterest;
      ghost var b, c := Now(), Call.CreateGoal(id, acc, nameLength, target);
      ServedEarly(b, c, fault);
      if nameLength < 2 {
        return Refused(BadName);
      }
      if target <= 0 {
        return Refused(NotPositive);
      }
      ServedAtOnce(b, c, fault);
      CreateGoalPlan(Shown(), id, acc, nameLength, target);
      if fault == Before(0) { return Raised; }
      var create := AddGoal(id, Goal(acc, target, 0, false));
      ServedByPlan(b, c, fault, [create], Ok);
      Behind(pending, create, create, create, create);
      Stage(create);
      if fault == Before(1) { return Raised; }
      var ok := Commit(fault);
      if !ok { return Raised; }
      r := Ok;
      RecordedIs(committed, c, r);
    }

    method Contribute(acc: AccNo, id: GoalId, amount: int, fault: Fault) returns (r: Response)
      modifies this
      ensures (Now(), r) == Serve(old(Now()), Call.Contribute(acc, id, amount), fault)
    {
      hide View, Flush, MakeAll, Collides, Commits, Changes, Step, Serve, Recorded, MonthlyInterest;
      ghost var b, c := Now(), Call.Contribute(acc, id, amount);
      ServedEarly(b, c, fault);
      if amount <= 0 {
        return Refused(NotPositive);
      }
      ServedAtOnce(b, c, fault);
      ContributePlan(Shown(), acc, id, amount);
      if fault == Before(0) { return Raised; }
      var found := GetAccount(acc);
      if found.None? {
        return Refused(NotFound);
      }
      var account := found.value;
      if amount > account.balance {
        return Refused(Insufficient(account.balance));
      }
      var stored := GetGoal(id);
      if stored.None? {
        return Refused(GoalNotFound);
      }
      account := account.(balance := account.balance - amount);
      var goal := stored.value;
      goal := goal.(current := goal.current + amount);
      if goal.current >= goal.target {
        goal := goal.(completed := true);
      }
      var debit, add := PutAccount(acc, account), PutGoal(id, goal);
      var txn := AddRow(Row(acc, TRANSFER_OUT, amount, account.balance, None, ForGoal(id)));
      ServedByPlan(b, c, fault, [debit, txn, add], Ok);
      Behind(pending, debit, txn, add, add);
      Stage(debit);
      if fault == Before(1) { return Raised; }
      Stage(txn);
      if fault == Before(2) { return Raised; }
      Stage(add);
      if fault == Before(3) { return Raised; }
      var ok := Commit(fault);
      if !ok { return Raised; }
      r := Ok;
      RecordedIs(committed, c, r);
    }

    method DeleteGoal(acc: AccNo, id: GoalId, fault: Fault) returns (r: Response)
      modifies this
      ensures (Now(), r) == Serve(old(Now()), Call.DeleteGoal(acc, id), fault)
    {
      hide View, Flush, MakeAll, Collides, Commits, Changes, Step, Serve, Recorded, MonthlyInterest;
      ghost var b, c := Now(), Call.DeleteGoal(acc, id);
      ServedEarly(b, c, fault);
      ServedAtOnce(b, c, fault);
      DeleteGoalPlan(Shown(), acc, id);
      if fault == Before(0) { return Raised; }
      var stored := GetGoal(id);
      if stored.None? {
        return Refused(GoalNotFound);
      }
      var refund, drop := stored.value.current, DropGoal(id);
      ghost var plan := Changes(Shown(), c);
      ServedByPlan(b, c, fault, plan, Ok);
      Behind(pending, plan[0], plan[|plan| - 1], drop, drop);
      ViewAfter(committed, pending, drop);
      Stage(drop);
      if fault == Before(1) { return Raised; }
      if refund > 0 {
        var found := GetAccount(acc);
        if found.Some? {
          Stage(PutAccount(acc, found.value.(balance := found.value.balance + refund)));
          if fault == Before(2) { return Raised; }
        }
      }
      var ok := Commit(fault);
      if !ok { return Raised; }
      r := Ok;
      RecordedIs(committed, c, r);
    }

    // ---- AuthService, AccountService, AdminService -------------------------

    method Register(acc: AccNo, fault: Fault) returns (r: Response)
      modifies this
      ensures (Now(), r) == Serve(old(Now()), Call.Register(acc), fault)
    {
      hide View, Flush, MakeAll, Collides, Commits, Changes, Step, Serve, Recorded, MonthlyInterest;
      ghost var b, c := Now(), Call.Register(acc);
      ServedEarly(b, c, fault);
      ServedAtOnce(b, c, fault);
      RegisterPlan(Shown(), acc);
      if fault == Before(0) { return Raised; }
      var create := AddAccount(acc, Account(0, true, false, false));
      Behind(pending, create, create, create, create);
      if !Collides(committed, pending + [create]) {
        NewIsUnseen(committed, pending, create);
      }
      ServedByPlan(b, c, fault, [create], Ok);
      Stage(create);
      if fault == Before(1) { return Raised; }
      var ok := Commit(fault);
      if !ok { return Raised; }
      r := Ok;
      RecordedIs(committed, c, r);
    }

    method CloseAccount(acc: AccNo, passwordOk: bool, fault: Fault) returns (r: Response)
      modifies this
      ensures (Now(), r) == Serve(old(Now()), Close(acc, passwordOk), fault)
    {
      hide View, Flush, MakeAll, Collides, Commits, Changes, Step, Serve, Recorded, MonthlyInterest;
      ghost var b, c := Now(), Close(acc, passwordOk);
      ServedEarly(b, c, fault);
      ServedAtOnce(b, c, fault);
      StatusPlans(Shown(), acc, passwordOk);
      if fault == Before(0) { return Raised; }
      var found := GetAccount(acc);
      if found.None? {
        return Refused(NotFound);
      }
      if !passwordOk {
        return Refused(WrongPassword);
      }
      var update := PutAccount(acc, found.value.(active := false));
      ServedByPlan(b, c, fault, [update], Ok);
      Behind(pending, update, update, update, update);
      Stage(update);
      if fault == Before(1) { return Raised; }
      var ok := Commit(fault);
      if !ok { return Raised; }
      r := Ok;
      RecordedIs(committed, c, r);
    }

    method FreezeAccount(acc: AccNo, fault: Fault) returns (r: Response)
      modifies this
      ensures (Now(), r) == Serve(old(Now()), Freeze(acc), fault)
    {
      hide View, Flush, MakeAll, Collides, Commits, Changes, Step, Serve, Recorded, MonthlyInterest;
      ghost var b, c := Now(), Freeze(acc);
      ServedEarly(b, c, fault);
      ServedAtOnce(b, c, fault);
      StatusPlans(Shown(), acc, true);
      if fault == Before(0) { return Raised; }
      var found := GetAccount(acc);
      if found.None? {
        return Refused(NotFound);
      }
      var account := found.value;
      if !account.active && !account.frozen {
        return Refused(IsClosed);
      }
      if account.frozen {
        return Refused(AlreadyFrozen);
      }
      var freeze := PutAccount(acc, account.(frozen := true));
      ghost var close := PutAccount(acc, account.(frozen := true, active := false));
      ServedByPlan(b, c, fault, [freeze, close], Ok);
      Behind(pending, freeze, close, close, close);
      ViewAfter(committed, pending, freeze);
      Stage(freeze);
      if fault == Before(1) { return Raised; }
      var again := GetAccount(acc);
      if again.Some? {
        Stage(PutAccount(acc, again.value.(active := false)));
      }
      if fault == Before(2) { return Raised; }
      var ok := Commit(fault);
      if !ok { return Raised; }
      r := Ok;
      RecordedIs(committed, c, r);
    }

    method UnfreezeAccount(acc: AccNo, fault: Fault) returns (r: Response)
      modifies this
      ensures (Now(), r) == Serve(old(Now()), Unfreeze(acc), fault)
    {
      hide View, Flush, MakeAll, Collides, Commits, Changes, Step, Serve, Recorded, MonthlyInterest;
      ghost var b, c := Now(), Unfreeze(acc);
      ServedEarly(b, c, fault);
      ServedAtOnce(b, c, fault);
      StatusPlans(Shown(), acc, true);
      if fault == Before(0) { return Raised; }
      var found := GetAccount(acc);
      if found.None? {
        return Refused(NotFound);
      }
      if !found.value.frozen {
        return Refused(NotFrozen);
      }
      var update := PutAccount(acc, found.value.(frozen := false));
      ServedByPlan(b, c, fault, [update], Ok);
      Behind(pending, update, update, update, update);
      Stage(update);
      if fault == Before(1) { return Raised; }
      var ok := Commit(fault);
      if !ok { return Raised; }
      r := Ok;
      RecordedIs(committed, c, r);
    }

    method DeleteAccount(acc: AccNo, fault: Fault) returns (r: Response)
      modifies this
      ensures (Now(), r) == Serve(old(Now()), Delete(acc), fault)
    {
      hide View, Flush, MakeAll, Collides, Commits, Changes, Step, Serve, Recorded, MonthlyInterest;
      ghost var b, c := Now(), Delete(acc);
      ServedEarly(b, c, fault);
      ServedAtOnce(b, c, fault);
      StatusPlans(Shown(), acc, true);
      if fault == Before(0) { return Raised; }
      var found := GetAccount(acc);
      if found.None? {
        return Refused(NotFound);
      }
      var update := PutAccount(acc, found.value.(deleted := true, active := false));
      ServedByPlan(b, c, fault, [update], Ok);
      Behind(pending, update, update, update, update);
      Stage(update);
      if fault == Before(1) { return Raised; }
      var ok := Commit(fault);
      if !ok { return Raised; }
      r := Ok;
      RecordedIs(committed, c, r);
    }
  }

  /** The four writes of a transfer, from the two accounts as read. */
  function TransferWrites(sender: AccNo, receiver: AccNo, amount: int, from: Account, to: Account): seq<Change> {
    [PutAccount(sender, from.(balance := from.balance - amount)), PutAccount(receiver, to.(balance := to.balance + amount)),
     AddRow(Row(sender, TRANSFER_OUT, amount, from.balance - amount, Some(receiver), Plain)),
     AddRow(Row(receiver, TRANSFER_IN, amount, to.balance + amount, Some(sender), Plain))]
  }

  lemma RecordedIs(s: Store, c: Call, answer: Response)
    ensures Recorded(s, c, answer) ==
              if c.Money? && c.key.Some? && c.persisted then s.(records := s.records[c.key.value := answer]) else s
  {
  }
}
