/** Short histories that show what the savings-goal services allow. */
module Witnesses {
  import opened Domain
  import opened Ledger
  import opened BankSpec
  import opened Sums
  import opened Conservation
  import opened LedgerReplay
  import opened Permanence

  /** One account and one goal, with nothing else in the bank. */
  function Small(account: Account, log: seq<Row>, goals: map<GoalId, Goal>): Store {
    Store(Ledger(map[0 := account], log), map[], goals, map[])
  }

  const OPEN := Account(10, true, false, false)
  const FROZEN := Account(10, false, true, false)
  const PAID_IN := [Row(0, DEPOSIT, 10, 10, None, Plain)]
  const OPENING: seq<Call> := [Register(0), Money(Op.Deposit(0, 10), None, false), CreateGoal(7, 0, 2, 100)]

  lemma Paid()
    ensures Step(Small(Account(0, true, false, false), [], map[]), Money(Op.Deposit(0, 10), None, false)).0
         == Small(OPEN, PAID_IN, map[])
  {
    var l := Ledger(map[0 := Account(0, true, false, false)], []);
    assert Exec(l, Op.Deposit(0, 10)).0 == Post(l, 0, DEPOSIT, 10, None, Plain);
    assert Post(l, 0, DEPOSIT, 10, None, Plain).accounts == map[0 := OPEN];
    assert Post(l, 0, DEPOSIT, 10, None, Plain).log == PAID_IN;
  }

  lemma Opened()
    ensures Run(EMPTY, OPENING) == Small(OPEN, PAID_IN, map[7 := Goal(0, 100, 0, false)])
  {
    var s1 := Small(Account(0, true, false, false), [], map[]);
    assert Step(EMPTY, Register(0)).0 == s1;
    Paid();
    assert Step(Small(OPEN, PAID_IN, map[]), CreateGoal(7, 0, 2, 100)).0 == Small(OPEN, PAID_IN, map[7 := Goal(0, 100, 0, false)]);
    hide Step, Run;
    RunOfTwo(EMPTY, OPENING[0], OPENING[1]);
    RunOfOne(Small(OPEN, PAID_IN, map[]), OPENING[2]);
    RunConcat(EMPTY, [OPENING[0], OPENING[1]], [OPENING[2]]);
    assert [OPENING[0], OPENING[1]] + [OPENING[2]] == OPENING;
  }

  lemma Saved(a: Account, x: int)
    requires a.balance == 10 && !a.deleted && 0 < x <= 10
    ensures Step(Small(a, PAID_IN, map[7 := Goal(0, 100, 0, false)]), Contribute(0, 7, x)).0
         == Small(a.(balance := 10 - x), PAID_IN + [Row(0, TRANSFER_OUT, x, 10 - x, None, ForGoal(7))], map[7 := Goal(0, 100, x, false)])
  {
    var s' := Step(Small(a, PAID_IN, map[7 := Goal(0, 100, 0, false)]), Contribute(0, 7, x)).0;
    assert s'.ledger.accounts == map[0 := a.(balance := 10 - x)];
    assert s'.goals == map[7 := Goal(0, 100, x, false)];
  }

  /** A frozen account's balance moves both ways: of its ten paise, four are put into a
      goal after the freeze, and taken back by deleting it. */
  lemma FrozenBalanceMoves()
    ensures var s := Run(EMPTY, OPENING + [Freeze(0)]);
            var s1, s2 := Run(s, [Contribute(0, 7, 4)]), Run(s, [Contribute(0, 7, 4), DeleteGoal(0, 7)]);
            && 0 in s.ledger.accounts && s.ledger.accounts[0].frozen && Barred(s, 0)
            && BalanceAt(s.ledger, 0) == 10 && BalanceAt(s1.ledger, 0) == 6 && BalanceAt(s2.ledger, 0) == 10
  {
    Opened();
    var start := Run(EMPTY, OPENING);
    var s := Small(FROZEN, PAID_IN, map[7 := Goal(0, 100, 0, false)]);
    assert Step(start, Freeze(0)).0 == s;
    Saved(FROZEN, 4);
    var s1 := Step(s, Contribute(0, 7, 4)).0;
    assert BalanceAt(Step(s1, DeleteGoal(0, 7)).0.ledger, 0) == 10;
    hide Step, Run;
    RunConcat(EMPTY, OPENING, [Freeze(0)]);
    RunOfOne(start, Freeze(0));
    RunOfOne(s, Contribute(0, 7, 4));
    RunOfTwo(s, Contribute(0, 7, 4), DeleteGoal(0, 7));
  }

  /** A refund vanishes: a goal holding ten paise, deleted in the name of an account that
      does not exist, takes them with it. */
  lemma RefundsCanVanish()
    ensures var s := Run(EMPTY, OPENING + [Contribute(0, 7, 10)]);
            && TotalMoney(s) == 10 && LostBy(s, DeleteGoal(1, 7)) == 10
            && TotalMoney(Run(s, [DeleteGoal(1, 7)])) == 0
  {
    Opened();
    var start := Run(EMPTY, OPENING);
    Saved(OPEN, 10);
    var s := Step(start, Contribute(0, 7, 10)).0;
    var empty := Step(s, DeleteGoal(1, 7)).0;
    assert empty.ledger.accounts == map[0 := Account(0, true, false, false)] && empty.goals == map[];
    hide Step, Run;
    RunConcat(EMPTY, OPENING, [Contribute(0, 7, 10)]);
    RunOfOne(start, Contribute(0, 7, 10));
    RunOfOne(s, DeleteGoal(1, 7));
    OneOfEach();
  }

  lemma OneOfEach()
    ensures Sum(map[0 := Account(0, true, false, false)], BalanceOf) == 0
    ensures Sum(map[7 := Goal(0, 100, 10, false)], CurrentOf) == 10 && Sum(map[], CurrentOf) == 0
  {
    var accounts: map<AccNo, Account> := map[];
    SumInsert(accounts, BalanceOf, 0, Account(0, true, false, false));
    assert accounts[0 := Account(0, true, false, false)] == map[0 := Account(0, true, false, false)];
    var goals: map<GoalId, Goal> := map[];
    SumInsert(goals, CurrentOf, 7, Goal(0, 100, 10, false));
    assert goals[7 := Goal(0, 100, 10, false)] == map[7 := Goal(0, 100, 10, false)];
  }
}
