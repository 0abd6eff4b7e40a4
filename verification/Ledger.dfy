/** Accounts and the append-only transaction log, and what one deposit, withdrawal
    or transfer means when it runs alone. */
module Ledger {
  import opened Domain

  datatype Ledger = Ledger(accounts: map<AccNo, Account>, log: seq<Row>)

  /** The money movements that take account locks. */
  datatype Op =
    | Deposit(acc: AccNo, amount: int)
    | Withdraw(acc: AccNo, amount: int)
    | Transfer(sender: AccNo, receiver: AccNo, amount: int)

  /** AccountRepository.get: soft-deleted rows are invisible. */
  function Live(accounts: map<AccNo, Account>, acc: AccNo): Option<Account> {
    if acc in accounts && !accounts[acc].deleted then Some(accounts[acc]) else None
  }

  /** +1 for kinds that credit their account, -1 for kinds that debit it. */
  function Sign(kind: TxnType): int {
    match kind
    case DEPOSIT | TRANSFER_IN | INTEREST | LOAN_DISBURSEMENT => 1
    case WITHDRAW | TRANSFER_OUT | LOAN_REPAYMENT => -1
  }

  /** The accounts an operation reads, in the order it reads them. */
  function Parties(op: Op): seq<AccNo> {
    match op
    case Deposit(a, _) => [a]
    case Withdraw(a, _) => [a]
    case Transfer(s, r, _) => [s, r]
  }

  /** What is refused before any lock is taken. */
  function Screen(op: Op): Option<Reason> {
    if op.amount <= 0 then Some(NotPositive)
    else if op.Transfer? && op.sender == op.receiver then Some(SelfTransfer)
    else None
  }

  function Inactive(account: Account): Reason {
    if account.frozen then IsFrozen else IsClosed
  }

  /** What is refused once the accounts have been read. */
  function Guard(op: Op, read: seq<Option<Account>>): Option<Reason>
    requires |read| == |Parties(op)|
  {
    match op
    case Deposit(_, _) =>
      if read[0].None? then Some(NotFound)
      else if !read[0].value.CanTransact() then Some(Inactive(read[0].value))
      else None
    case Withdraw(_, amount) =>
      if read[0].None? then Some(NotFound)
      else if !read[0].value.CanTransact() then Some(Inactive(read[0].value))
      else if amount > read[0].value.balance then Some(Insufficient(read[0].value.balance))
      else None
    case Transfer(_, _, amount) =>
      if read[0].None? then Some(SenderNotFound)
      else if read[1].None? then Some(RecipientNotFound)
      else if !read[0].value.CanTransact() then Some(SenderInactive)
      else if !read[1].value.CanTransact() then Some(RecipientInactive)
      else if amount > read[0].value.balance then Some(Insufficient(read[0].value.balance))
      else None
  }

  function Lookup(l: Ledger, op: Op): (read: seq<Option<Account>>)
    ensures |read| == |Parties(op)|
  {
    match op
    case Deposit(a, _) => [Live(l.accounts, a)]
    case Withdraw(a, _) => [Live(l.accounts, a)]
    case Transfer(s, r, _) => [Live(l.accounts, s), Live(l.accounts, r)]
  }

  function Credit(accounts: map<AccNo, Account>, acc: AccNo, amount: int): map<AccNo, Account>
    requires acc in accounts
  {
    accounts[acc := accounts[acc].(balance := accounts[acc].balance + amount)]
  }

  /** Book one log row against an account: its balance moves by the signed amount
      and the row records the balance it leaves. */
  function Post(l: Ledger, acc: AccNo, kind: TxnType, amount: int, target: Option<AccNo>, memo: Memo): Ledger
    requires acc in l.accounts
  {
    var accounts := Credit(l.accounts, acc, Sign(kind) * amount);
    Ledger(accounts, l.log + [Row(acc, kind, amount, accounts[acc].balance, target, memo)])
  }

  /** An operation run alone, from start to finish. */
  function Exec(l: Ledger, op: Op): (Ledger, Response) {
    if Screen(op).Some? then (l, Refused(Screen(op).value))
    else if Guard(op, Lookup(l, op)).Some? then (l, Refused(Guard(op, Lookup(l, op)).value))
    else match op
      case Deposit(a, amount) =>
        var l' := Post(l, a, DEPOSIT, amount, None, Plain);
        (l', Deposited(l'.accounts[a].balance))
      case Withdraw(a, amount) =>
        var l' := Post(l, a, WITHDRAW, amount, None, Plain);
        (l', Withdrawn(l'.accounts[a].balance))
      case Transfer(s, r, amount) =>
        var l' := Post(Post(l, s, TRANSFER_OUT, amount, Some(r), Plain), r, TRANSFER_IN, amount, Some(s), Plain);
        (l', Transferred(l'.accounts[s].balance, l'.accounts[r].balance))
  }

  /** What a failed attempt cannot do: a refusal leaves the ledger as it was. */
  lemma RefusalChangesNothing(l: Ledger, op: Op)
    ensures Exec(l, op).1.Refused? <==> Exec(l, op).0 == l
  {
    if !Exec(l, op).1.Refused? {
      assert |Exec(l, op).0.log| > |l.log|;
    }
  }

  /** An account that exists, is not deleted, open and not frozen. */
  predicate Usable(l: Ledger, acc: AccNo) {
    acc in l.accounts && !l.accounts[acc].deleted && l.accounts[acc].CanTransact()
  }

  /** When a bank should let a movement through. */
  predicate Admissible(l: Ledger, op: Op) {
    && op.amount > 0
    && match op
       case Deposit(a, _) => Usable(l, a)
       case Withdraw(a, amount) => Usable(l, a) && amount <= l.accounts[a].balance
       case Transfer(s, r, amount) => s != r && Usable(l, s) && Usable(l, r) && amount <= l.accounts[s].balance
  }

  /** What a movement adds to an account. */
  function Share(op: Op, acc: AccNo): int {
    match op
    case Deposit(a, amount) => if a == acc then amount else 0
    case Withdraw(a, amount) => if a == acc then -amount else 0
    case Transfer(s, r, amount) => (if r == acc then amount else 0) - (if s == acc then amount else 0)
  }

  /** A movement goes through exactly when it should, and then moves its shares, touches
      nothing else of any account, books exactly its own rows, and answers with the
      balances it leaves. */
  lemma ExecMeaning(l: Ledger, op: Op)
    ensures var (l', answer) := Exec(l, op);
            && (!answer.Refused? <==> Admissible(l, op))
            && (Admissible(l, op) ==>
                  && l'.accounts.Keys == l.accounts.Keys
                  && (forall a :: a in l.accounts ==>
                        l'.accounts[a] == l.accounts[a].(balance := l.accounts[a].balance + Share(op, a)))
                  && match op
                     case Deposit(a, x) =>
                       && answer == Deposited(l'.accounts[a].balance)
                       && l'.log == l.log + [Row(a, DEPOSIT, x, l'.accounts[a].balance, None, Plain)]
                     case Withdraw(a, x) =>
                       && answer == Withdrawn(l'.accounts[a].balance)
                       && l'.log == l.log + [Row(a, WITHDRAW, x, l'.accounts[a].balance, None, Plain)]
                     case Transfer(s, r, x) =>
                       && answer == Transferred(l'.accounts[s].balance, l'.accounts[r].balance)
                       && l'.log == l.log + [Row(s, TRANSFER_OUT, x, l'.accounts[s].balance, Some(r), Plain),
                                             Row(r, TRANSFER_IN, x, l'.accounts[r].balance, Some(s), Plain)])
  {
    if Admissible(l, op) && op.Transfer? {
      var mid := Post(l, op.sender, TRANSFER_OUT, op.amount, Some(op.receiver), Plain);
      assert mid.accounts.Keys == l.accounts.Keys;
    }
  }

  /** An account that exists and is not deleted. */
  predicate Stored(l: Ledger, acc: AccNo) {
    acc in l.accounts && !l.accounts[acc].deleted
  }

  /** Why a deposit or withdrawal is refused: what is wrong first, in the order of the checks. */
  lemma RefusalOfOne(l: Ledger, op: Op)
    requires !op.Transfer?
    ensures var answer, a := Exec(l, op).1, op.acc;
            && (answer == Refused(NotPositive) <==> op.amount <= 0)
            && (answer == Refused(NotFound) <==> op.amount > 0 && !Stored(l, a))
            && (answer == Refused(IsFrozen) <==> op.amount > 0 && Stored(l, a) && l.accounts[a].frozen)
            && (answer == Refused(IsClosed) <==>
                  op.amount > 0 && Stored(l, a) && !l.accounts[a].frozen && !l.accounts[a].active)
            && (forall b :: answer == Refused(Insufficient(b)) <==>
                  op.Withdraw? && op.amount > 0 && Usable(l, a) && op.amount > b == l.accounts[a].balance)
  {
  }

  /** Why a transfer is refused. */
  lemma RefusalOfTransfer(l: Ledger, s: AccNo, r: AccNo, amount: int)
    ensures var answer := Exec(l, Transfer(s, r, amount)).1;
            var asked := amount > 0 && s != r;
            && (answer == Refused(NotPositive) <==> amount <= 0)
            && (answer == Refused(SelfTransfer) <==> amount > 0 && s == r)
            && (answer == Refused(SenderNotFound) <==> asked && !Stored(l, s))
            && (answer == Refused(RecipientNotFound) <==> asked && Stored(l, s) && !Stored(l, r))
            && (answer == Refused(SenderInactive) <==> asked && Stored(l, s) && Stored(l, r) && !Usable(l, s))
            && (answer == Refused(RecipientInactive) <==> asked && Usable(l, s) && Stored(l, r) && !Usable(l, r))
            && (forall b :: answer == Refused(Insufficient(b)) <==>
                  asked && Usable(l, s) && Usable(l, r) && amount > b == l.accounts[s].balance)
  {
  }
}
