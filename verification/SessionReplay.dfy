/** The log against every single account on every day a worker can have: a balance is what
    the account's rows add up to, plus the refunds it received without a row, plus the
    drift of calls that an exception cut short and some later commit has published. */
module SessionReplay {
  import opened Domain
  import opened Ledger
  import opened BankSpec
  import opened LedgerReplay
  import opened Session
  import opened SessionRuns
  import opened SessionMoney
  import Emi

  /** What an account's rows add up to. */
  function Booked(log: seq<Row>, acc: AccNo): int {
    if log == [] then 0
    else Booked(log[..|log| - 1], acc) + Effect(Entry.Booked(log[|log| - 1]), acc)
  }

  /** What an account holds beyond its rows. */
  function Excess(s: Store, acc: AccNo): int {
    BalanceAt(s.ledger, acc) - Booked(s.ledger.log, acc)
  }

  /** What one more change does to it. */
  function ExcessOf(t: Store, c: Change, acc: AccNo): int {
    match c
    case PutAccount(a, x) => if a == acc then x.balance - BalanceAt(t.ledger, acc) else 0
    case AddAccount(a, x) => if a == acc && a !in t.ledger.accounts then x.balance else 0
    case AddRow(row) => -Effect(Entry.Booked(row), acc)
    case _ => 0
  }

  lemma ChangeExcess(t: Store, c: Change, acc: AccNo)
    ensures Excess(Make(t, c), acc) == Excess(t, acc) + ExcessOf(t, c, acc)
  {
    if c.AddRow? {
      assert (t.ledger.log + [c.row])[..|t.ledger.log|] == t.ledger.log;
    }
  }

  /** By how much an account's balance and its rows differ when a call has made its first
      n writes, and no more, on a session that shows v. */
  function Owing(v: Store, c: Call, n: nat, acc: AccNo): int
    requires Commits(v, c)
  {
    match c
    case Money(op, _, _) =>
      (match op
       case Deposit(a, amount) => if n == 1 && a == acc then amount else 0
       case Withdraw(a, amount) => if n == 1 && a == acc then -amount else 0
       case Transfer(a, b, amount) =>
         if (n == 1 || n == 2) && a == acc then -amount
         else if (n == 2 || n == 3) && b == acc then amount
         else 0)
    case Interest(a) => if n == 1 && a == acc then MonthlyInterest(v.ledger.accounts[a].balance) else 0
    case ApproveLoan(id, _) => if n == 2 && v.loans[id].acc == acc then v.loans[id].principal else 0
    case PayEmi(a, id, instalment, _) => if (n == 1 || n == 2) && a == acc then -EmiPayment(v, id, instalment) else 0
    case Contribute(a, _, amount) => if n == 1 && a == acc then -amount else 0
    case DeleteGoal(a, id) => if n == 2 && a == acc then v.goals[id].current else 0
    case _ => 0
  }

  /** The n-th write of a call moves the excess by the difference in what is owing. */
  predicate StepsOwing(v: Store, t: Store, c: Call, n: nat, acc: AccNo)
    requires Commits(v, c) && n < |Changes(v, c)|
  {
    var plan := Changes(v, c);
    ExcessOf(MakeAll(t, plan[..n]), plan[n], acc) == Owing(v, c, n + 1, acc) - Owing(v, c, n, acc)
  }

  lemma TransferOwing(v: Store, t: Store, c: Call, n: nat, acc: AccNo)
    requires Commits(v, c) && Shows(v, t) && IsTransfer(c) && n < |Changes(v, c)|
    ensures StepsOwing(v, t, c, n, acc)
  {
    var plan, l' := Changes(v, c), Step(v, c).0.ledger;
    hide MakeAll, Guard;
    ExecMeaning(v.ledger, c.op);
    PrefixMade(t, plan, n);
    var a, b, x := c.op.sender, c.op.receiver, c.op.amount;
    assert a != b && l'.accounts[a].balance == v.ledger.accounts[a].balance - x;
    assert l'.accounts[b].balance == v.ledger.accounts[b].balance + x;
  }

  lemma MoneyOwing(v: Store, t: Store, c: Call, n: nat, acc: AccNo)
    requires Commits(v, c) && Shows(v, t) && c.Money? && !IsTransfer(c) && n < |Changes(v, c)|
    ensures StepsOwing(v, t, c, n, acc)
  {
    var plan, l' := Changes(v, c), Step(v, c).0.ledger;
    hide MakeAll, Guard;
    ExecMeaning(v.ledger, c.op);
    PrefixMade(t, plan, n);
    assert l'.accounts[c.op.acc].balance == v.ledger.accounts[c.op.acc].balance + Share(c.op, c.op.acc);
  }

  lemma LoanOwing(v: Store, t: Store, c: Call, n: nat, acc: AccNo)
    requires Commits(v, c) && Shows(v, t) && n < |Changes(v, c)|
    requires c.Interest? || c.ApplyLoan? || c.ApproveLoan? || c.RejectLoan? || c.PayEmi?
    ensures StepsOwing(v, t, c, n, acc)
  {
    hide MakeAll, Screening, EmiRefusal, Emi.RoundPaise, Emi.CalculateEmi;
    if c.PayEmi? {
      AcceptedPayer(v, c.acc, c.loan, c.instalment);
    }
    PrefixMade(t, Changes(v, c), n);
  }

  lemma OtherOwing(v: Store, t: Store, c: Call, n: nat, acc: AccNo)
    requires Commits(v, c) && !Clashes(t, c) && Shows(v, t) && n < |Changes(v, c)|
    requires !(c.Money? || c.Interest? || c.ApplyLoan? || c.ApproveLoan? || c.RejectLoan? || c.PayEmi?)
    ensures StepsOwing(v, t, c, n, acc)
  {
    hide MakeAll;
    PrefixMade(t, Changes(v, c), n);
  }

  lemma EveryWriteOwes(v: Store, t: Store, c: Call, n: nat, acc: AccNo)
    requires Commits(v, c) && !Clashes(t, c) && Shows(v, t) && n < |Changes(v, c)|
    ensures StepsOwing(v, t, c, n, acc)
  {
    hide StepsOwing, Changes, Commits, Clashes, Shows;
    if IsTransfer(c) {
      TransferOwing(v, t, c, n, acc);
    } else if c.Money? {
      MoneyOwing(v, t, c, n, acc);
    } else if c.Interest? || c.ApplyLoan? || c.ApproveLoan? || c.RejectLoan? || c.PayEmi? {
      LoanOwing(v, t, c, n, acc);
    } else {
      OtherOwing(v, t, c, n, acc);
    }
  }

  lemma {:induction false} PlanExcess(b: Books, c: Call, n: nat, acc: AccNo)
    requires var v := View(b.committed, b.pending);
             Commits(v, c) && n <= |Changes(v, c)| && !Collides(b.committed, b.pending + Changes(v, c)[..n])
    ensures var v := View(b.committed, b.pending);
            Excess(MakeAll(b.committed, b.pending + Changes(v, c)[..n]), acc)
              == Excess(MakeAll(b.committed, b.pending), acc) + Owing(v, c, n, acc)
    decreases n
  {
    var v, t := View(b.committed, b.pending), MakeAll(b.committed, b.pending);
    hide View, Excess, Changes, Commits, Clashes, MakeAll, ExcessOf, Shows, Collides, Make;
    var plan := Changes(v, c);
    if n == 0 {
      assert b.pending + plan[..0] == b.pending;
      NothingOwing(v, c, acc);
    } else {
      hide Owing;
      var before := b.pending + plan[..n - 1];
      CollidesConcat(b.committed, b.pending, plan[..n]);
      PlanCollides(v, t, c, n);
      assert plan[..n] == plan[..n - 1] + [plan[n - 1]];
      CollidesConcat(b.committed, b.pending, plan[..n - 1]);
      CollidesConcat(t, plan[..n - 1], [plan[n - 1]]);
      PlanExcess(b, c, n - 1, acc);
      ViewShows(b.committed, b.pending);
      EveryWriteOwes(v, t, c, n - 1, acc);
      MakeConcat(b.committed, b.pending, plan[..n - 1]);
      ChangeExcess(MakeAll(b.committed, before), plan[n - 1], acc);
      MakeOneMore(b.committed, before, plan[n - 1]);
      assert before + [plan[n - 1]] == b.pending + plan[..n];
    }
  }

  lemma NothingOwing(v: Store, c: Call, acc: AccNo)
    requires Commits(v, c)
    ensures Owing(v, c, 0, acc) == 0
  {
  }

  // ---- whole days ------------------------------------------------------------------

  function OwingNext(b: Books, c: Call, f: Fault, acc: AccNo, t: Tally): Tally {
    var v := View(b.committed, b.pending);
    match OutcomeOf(b, c, f)
    case Answers(_) => t
    case Raises(staged) => if staged == [] then t else t.(held := t.held + Owing(v, c, |staged|, acc))
    case RollsBack => t.(held := 0)
    case Publishes(plan, _) => Tally(t.published + t.held + Owing(v, c, |plan|, acc), 0)
  }

  function OwingAfter(b: Books, day: seq<Request>, acc: AccNo, t: Tally): Tally
    decreases |day|
  {
    if day == [] then t
    else OwingAfter(Serve(b, day[0].call, day[0].fault).0, day[1..], acc, OwingNext(b, day[0].call, day[0].fault, acc, t))
  }

  predicate Agrees(b: Books, acc: AccNo, t: Tally) {
    && Excess(b.committed, acc) == t.published
    && (!Collides(b.committed, b.pending) ==> Excess(MakeAll(b.committed, b.pending), acc) == t.published + t.held)
  }

  lemma PublishedExcess(s: Store, cs: seq<Change>, c: Call, answer: Response, acc: AccNo)
    ensures Excess(Recorded(Flush(s, cs), c, answer), acc) == Excess(MakeAll(s, cs), acc)
  {
  }

  lemma ServeAgrees(b: Books, c: Call, f: Fault, acc: AccNo, t: Tally)
    requires Agrees(b, acc, t)
    ensures Agrees(Serve(b, c, f).0, acc, OwingNext(b, c, f, acc, t))
  {
    hide OutcomeOf, Excess, Flush, Collides, Owing, View, Changes, Commits, Recorded, MakeAll;
    match OutcomeOf(b, c, f) {
      case Answers(_) =>
      case RollsBack => ViewOfNothing(b.committed);
      case Publishes(plan, answer) =>
        PublishedPlan(b, c, f);
        CollidesConcat(b.committed, b.pending, plan);
        PlanExcess(b, c, |plan|, acc);
        PublishedExcess(b.committed, b.pending + plan, c, answer, acc);
        ViewOfNothing(Recorded(Flush(b.committed, b.pending + plan), c, answer));
      case Raises(staged) =>
        if staged == [] {
          assert b.pending + staged == b.pending;
        } else {
          RaisedPlan(b, c, f);
          CollidesConcat(b.committed, b.pending, staged);
          if !Collides(b.committed, b.pending + staged) {
            PlanExcess(b, c, |staged|, acc);
          }
        }
    }
  }

  lemma {:induction false} DayAgrees(b: Books, day: seq<Request>, acc: AccNo, t: Tally)
    requires Agrees(b, acc, t)
    ensures Agrees(ServeAll(b, day), acc, OwingAfter(b, day, acc, t))
    decreases |day|
  {
    hide Agrees, Serve, OwingNext;
    if day != [] {
      ServeAgrees(b, day[0].call, day[0].fault, acc, t);
      DayAgrees(Serve(b, day[0].call, day[0].fault).0, day[1..], acc, OwingNext(b, day[0].call, day[0].fault, acc, t));
    }
  }

  /** On every day from an empty bank, every account holds what its rows add up to, plus
      its refunds and the published part of calls cut short. */
  lemma EveryBalanceIsAccountedFor(day: seq<Request>, acc: AccNo)
    ensures var s := ServeAll(Books(EMPTY, []), day).committed;
            BalanceAt(s.ledger, acc)
              == Booked(s.ledger.log, acc) + OwingAfter(Books(EMPTY, []), day, acc, Tally(0, 0)).published
  {
    ViewOfNothing(EMPTY);
    DayAgrees(Books(EMPTY, []), day, acc, Tally(0, 0));
  }
}
