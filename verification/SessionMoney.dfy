/** Every paisa is accounted for on every day a worker can have, whatever exceptions
    strike: the committed money is what the log explains, plus exactly the drift of the
    half-done calls that some later commit has published. */
module SessionMoney {
  import opened Domain
  import opened Ledger
  import opened BankSpec
  import opened Sums
  import opened Conservation
  import opened Session
  import opened SessionRuns
  import Emi

  /** All money held, less what the log says came in. */
  ghost function Worth(s: Store): int {
    Unexplained(s.ledger) + Sum(s.goals, CurrentOf)
  }

  /** How much a log row brings in. */
  function Inflow(row: Row): int {
    match row.kind
    case DEPOSIT | INTEREST | LOAN_DISBURSEMENT => row.amount
    case WITHDRAW | LOAN_REPAYMENT => -row.amount
    case TRANSFER_OUT | TRANSFER_IN => 0
  }

  /** What one more change does to the worth of what would be published. */
  function Weight(t: Store, dropped: set<GoalId>, c: Change): int {
    match c
    case PutAccount(a, x) => x.balance - (if a in t.ledger.accounts then t.ledger.accounts[a].balance else 0)
    case AddAccount(a, x) => if a in t.ledger.accounts then 0 else x.balance
    case AddRow(row) => -Inflow(row)
    case PutGoal(g, x) =>
      if g in dropped then 0 else x.current - (if g in t.goals then t.goals[g].current else 0)
    case AddGoal(g, x) => if g in dropped || g in t.goals then 0 else x.current
    case DropGoal(g) => if g in t.goals && g !in dropped then -t.goals[g].current else 0
    case _ => 0
  }

  lemma MakeOneMore(s: Store, cs: seq<Change>, c: Change)
    ensures MakeAll(s, cs + [c]) == Make(MakeAll(s, cs), c)
    ensures Dropped(cs + [c]) == Dropped(cs) + (if c.DropGoal? then {c.goal} else {})
  {
    assert (cs + [c])[..|cs|] == cs;
    forall g
      ensures g in Dropped(cs + [c]) <==> g in Dropped(cs) || (c.DropGoal? && g == c.goal)
    {
      if g in Dropped(cs) {
        assert DropGoal(g) in cs + [c];
      }
      if c.DropGoal? && g == c.goal {
        assert c in cs + [c];
      }
    }
  }

  lemma ChangeWorth(s: Store, cs: seq<Change>, c: Change)
    ensures Worth(Flush(s, cs + [c])) == Worth(Flush(s, cs)) + Weight(MakeAll(s, cs), Dropped(cs), c)
  {
    MakeOneMore(s, cs, c);
    var t, dropped := MakeAll(s, cs), Dropped(cs);
    hide MakeAll, Dropped, Sum, NetInflow;
    assert !c.DropGoal? ==> Dropped(cs + [c]) == dropped;
    match c
    case PutAccount(a, _) => AccountWorth(t.ledger, a, Make(t, c).ledger.accounts[a]);
    case AddAccount(a, x) => AccountWorth(t.ledger, a, x);
    case AddRow(row) => AppendInflow(t.ledger.log, row);
    case PutGoal(g, x) => GoalWorth(t.goals, dropped, g, x);
    case AddGoal(g, x) => GoalWorth(t.goals, dropped, g, x);
    case DropGoal(g) => DropWorth(t.goals, dropped, g);
    case PutLoan(_, _) =>
    case AddLoan(_, _) =>
  }

  lemma AccountWorth(l: Ledger, a: AccNo, x: Account)
    ensures Sum(l.accounts[a := x], BalanceOf)
         == Sum(l.accounts, BalanceOf) + x.balance - (if a in l.accounts then l.accounts[a].balance else 0)
  {
    if a in l.accounts {
      SumUpdate(l.accounts, BalanceOf, a, x);
    } else {
      SumInsert(l.accounts, BalanceOf, a, x);
    }
  }

  lemma GoalWorth(goals: map<GoalId, Goal>, dropped: set<GoalId>, g: GoalId, x: Goal)
    ensures Sum(goals[g := x] - dropped, CurrentOf)
         == Sum(goals - dropped, CurrentOf)
            + if g in dropped then 0 else x.current - (if g in goals then goals[g].current else 0)
  {
    if g in dropped {
      assert goals[g := x] - dropped == goals - dropped;
    } else {
      assert goals[g := x] - dropped == (goals - dropped)[g := x];
      if g in goals {
        SumUpdate(goals - dropped, CurrentOf, g, x);
      } else {
        SumInsert(goals - dropped, CurrentOf, g, x);
      }
    }
  }

  lemma DropWorth(goals: map<GoalId, Goal>, dropped: set<GoalId>, g: GoalId)
    ensures Sum(goals - (dropped + {g}), CurrentOf)
         == Sum(goals - dropped, CurrentOf) - (if g in goals && g !in dropped then goals[g].current else 0)
  {
    if g in goals && g !in dropped {
      SumWithout(goals - dropped, CurrentOf, g);
      assert goals - (dropped + {g}) == (goals - dropped) - {g};
    } else {
      assert goals - (dropped + {g}) == goals - dropped;
    }
  }

  // ---- the drift of a call cut short --------------------------------------------

  function EmiPayment(v: Store, id: LoanId, instalment: Option<int>): int
    requires id in v.loans
  {
    Min(if instalment.Some? then instalment.value else v.loans[id].emi, v.loans[id].remaining)
  }

  /** By how much the books are out when a call has made its first n writes, and no more,
      on a session that shows v and has already asked for the deletion of some goals. */
  function Drift(v: Store, dropped: set<GoalId>, c: Call, n: nat): int
    requires Commits(v, c)
  {
    match c
    case Money(op, _, _) =>
      (match op
       case Deposit(_, amount) => if n == 1 then amount else 0
       case Withdraw(_, amount) => if n == 1 then -amount else 0
       case Transfer(_, _, amount) => if n == 1 then -amount else 0)
    case Interest(acc) => if n == 1 then MonthlyInterest(v.ledger.accounts[acc].balance) else 0
    case ApproveLoan(id, _) => if n == 2 then v.loans[id].principal else 0
    case PayEmi(_, id, instalment, _) => if n == 1 || n == 2 then -EmiPayment(v, id, instalment) else 0
    case Contribute(_, id, amount) => if n == 1 || n == 2 || (n == 3 && id in dropped) then -amount else 0
    case DeleteGoal(acc, id) =>
      var refund := v.goals[id].current;
      if n == 1 then (if id in dropped then 0 else -refund)
      else if n == 2 then (if id in dropped then refund else 0)
      else 0
    case _ => 0
  }

  /** What a session shows is what is there, pending soft deletions apart. */
  predicate Shows(v: Store, t: Store) {
    && (forall a :: a in v.ledger.accounts ==>
          a in t.ledger.accounts
          && t.ledger.accounts[a] == v.ledger.accounts[a].(deleted := t.ledger.accounts[a].deleted))
    && (forall g :: g in v.goals ==> g in t.goals && t.goals[g] == v.goals[g])
    && (forall id :: id in v.loans ==> id in t.loans && t.loans[id] == v.loans[id])
  }

  lemma ViewShows(s: Store, cs: seq<Change>)
    ensures Shows(View(s, cs), MakeAll(s, cs))
  {
  }

  /** The n-th write of a call moves the worth by the difference in drift. */
  ghost predicate StepsDrift(v: Store, t: Store, dropped: set<GoalId>, c: Call, n: nat)
    requires Commits(v, c) && n < |Changes(v, c)|
  {
    var plan := Changes(v, c);
    Weight(MakeAll(t, plan[..n]), dropped + Dropped(plan[..n]), plan[n]) == Drift(v, dropped, c, n + 1) - Drift(v, dropped, c, n)
  }

  lemma PrefixMade(t: Store, plan: seq<Change>, n: nat)
    requires n < |plan| <= 4
    ensures n == 0 ==> MakeAll(t, plan[..n]) == t
    ensures n == 1 ==> MakeAll(t, plan[..n]) == Make(t, plan[0])
    ensures n == 2 ==> MakeAll(t, plan[..n]) == Make(Make(t, plan[0]), plan[1])
    ensures n == 3 ==> MakeAll(t, plan[..n]) == Make(Make(Make(t, plan[0]), plan[1]), plan[2])
  {
    hide Make;
    MakePlan(t, plan[..n]);
  }

  lemma TransferDrift(v: Store, t: Store, dropped: set<GoalId>, c: Call, n: nat)
    requires Commits(v, c) && Shows(v, t) && IsTransfer(c) && n < |Changes(v, c)|
    ensures StepsDrift(v, t, dropped, c, n)
  {
    var plan, l' := Changes(v, c), Step(v, c).0.ledger;
    hide MakeAll, Guard, Dropped;
    ExecMeaning(v.ledger, c.op);
    assert c.op.sender != c.op.receiver;
    PrefixMade(t, plan, n);
    var a, b, x := c.op.sender, c.op.receiver, c.op.amount;
    assert l'.accounts[a].balance == v.ledger.accounts[a].balance - x;
    assert l'.accounts[b].balance == v.ledger.accounts[b].balance + x;
  }

  lemma MoneyDrift(v: Store, t: Store, dropped: set<GoalId>, c: Call, n: nat)
    requires Commits(v, c) && Shows(v, t) && c.Money? && !IsTransfer(c) && n < |Changes(v, c)|
    ensures StepsDrift(v, t, dropped, c, n)
  {
    var plan, l' := Changes(v, c), Step(v, c).0.ledger;
    hide MakeAll, Guard, Dropped;
    ExecMeaning(v.ledger, c.op);
    PrefixMade(t, plan, n);
    assert l'.accounts[c.op.acc].balance == v.ledger.accounts[c.op.acc].balance + Share(c.op, c.op.acc);
    assert Inflow(l'.log[|v.ledger.log|]) == Share(c.op, c.op.acc);
  }

  lemma LoanDrift(v: Store, t: Store, dropped: set<GoalId>, c: Call, n: nat)
    requires Commits(v, c) && !Clashes(t, c) && Shows(v, t) && n < |Changes(v, c)|
    requires c.Interest? || c.ApplyLoan? || c.ApproveLoan? || c.RejectLoan? || c.PayEmi?
    ensures StepsDrift(v, t, dropped, c, n)
  {
    hide MakeAll, Screening, EmiRefusal, Emi.RoundPaise, Emi.CalculateEmi, Dropped;
    if c.PayEmi? {
      AcceptedPayer(v, c.acc, c.loan, c.instalment);
    }
    PrefixMade(t, Changes(v, c), n);
  }

  lemma GoalDrift(v: Store, t: Store, dropped: set<GoalId>, c: Call, n: nat)
    requires Commits(v, c) && !Clashes(t, c) && Shows(v, t) && n < |Changes(v, c)|
    requires c.CreateGoal? || c.Contribute? || c.DeleteGoal?
    ensures StepsDrift(v, t, dropped, c, n)
  {
    hide MakeAll;
    var plan := Changes(v, c);
    PrefixMade(t, plan, n);
    if c.DeleteGoal? && n == 1 {
      assert plan[..1] == [DropGoal(c.goal)];
    } else {
      assert Dropped(plan[..n]) == {};
    }
  }

  lemma AccountDrift(v: Store, t: Store, dropped: set<GoalId>, c: Call, n: nat)
    requires Commits(v, c) && !Clashes(t, c) && Shows(v, t) && n < |Changes(v, c)|
    requires c.Register? || c.Close? || c.Freeze? || c.Unfreeze? || c.Delete?
    ensures StepsDrift(v, t, dropped, c, n)
  {
    hide MakeAll, Dropped;
    PrefixMade(t, Changes(v, c), n);
  }

  lemma EveryWriteDrifts(v: Store, t: Store, dropped: set<GoalId>, c: Call, n: nat)
    requires Commits(v, c) && !Clashes(t, c) && Shows(v, t) && n < |Changes(v, c)|
    ensures StepsDrift(v, t, dropped, c, n)
  {
    hide StepsDrift, Changes, Commits, Clashes, Shows;
    if IsTransfer(c) {
      TransferDrift(v, t, dropped, c, n);
    } else if c.Money? {
      MoneyDrift(v, t, dropped, c, n);
    } else if c.CreateGoal? || c.Contribute? || c.DeleteGoal? {
      GoalDrift(v, t, dropped, c, n);
    } else if c.Register? || c.Close? || c.Freeze? || c.Unfreeze? || c.Delete? {
      AccountDrift(v, t, dropped, c, n);
    } else {
      LoanDrift(v, t, dropped, c, n);
    }
  }

  /** A call's first n writes move the worth of what would be published by its drift. */
  lemma {:induction false} PlanWorth(b: Books, c: Call, n: nat)
    requires var v := View(b.committed, b.pending);
             Commits(v, c) && n <= |Changes(v, c)| && !Collides(b.committed, b.pending + Changes(v, c)[..n])
    ensures var v := View(b.committed, b.pending);
            Worth(Flush(b.committed, b.pending + Changes(v, c)[..n]))
              == Worth(Flush(b.committed, b.pending)) + Drift(v, Dropped(b.pending), c, n)
    decreases n
  {
    var v, t, dropped := View(b.committed, b.pending), MakeAll(b.committed, b.pending), Dropped(b.pending);
    hide View, Flush, Worth, Changes, Commits, Clashes, MakeAll, Weight, Shows, Collides;
    var plan := Changes(v, c);
    if n == 0 {
      assert b.pending + plan[..0] == b.pending;
      NoDrift(v, dropped, c);
    } else {
      hide Drift;
      CollidesConcat(b.committed, b.pending, plan[..n]);
      PlanCollides(v, t, c, n);
      assert plan[..n] == plan[..n - 1] + [plan[n - 1]];
      CollidesConcat(b.committed, b.pending, plan[..n - 1]);
      CollidesConcat(t, plan[..n - 1], [plan[n - 1]]);
      PlanWorth(b, c, n - 1);
      ViewShows(b.committed, b.pending);
      EveryWriteDrifts(v, t, dropped, c, n - 1);
      ChangeWorth(b.committed, b.pending + plan[..n - 1], plan[n - 1]);
      assert b.pending + plan[..n - 1] + [plan[n - 1]] == b.pending + plan[..n];
      MakeConcat(b.committed, b.pending, plan[..n - 1]);
      DroppedConcat(b.pending, plan[..n - 1]);
    }
  }

  lemma NoDrift(v: Store, dropped: set<GoalId>, c: Call)
    requires Commits(v, c)
    ensures Drift(v, dropped, c, 0) == 0
  {
  }

  lemma DroppedConcat(a: seq<Change>, b: seq<Change>)
    ensures Dropped(a + b) == Dropped(a) + Dropped(b)
  {
    forall g
      ensures g in Dropped(a + b) <==> g in Dropped(a) || g in Dropped(b)
    {
      if g in Dropped(a) || g in Dropped(b) {
        assert DropGoal(g) in a + b;
      }
    }
  }

  // ---- whole days ------------------------------------------------------------------

  /** The drift that has been published, and the drift still held in the session. */
  datatype Tally = Tally(published: int, held: int)

  function TallyNext(b: Books, c: Call, f: Fault, t: Tally): Tally {
    var v, dropped := View(b.committed, b.pending), Dropped(b.pending);
    match OutcomeOf(b, c, f)
    case Answers(_) => t
    case Raises(staged) => if staged == [] then t else t.(held := t.held + Drift(v, dropped, c, |staged|))
    case RollsBack => t.(held := 0)
    case Publishes(plan, _) => Tally(t.published + t.held + Drift(v, dropped, c, |plan|), 0)
  }

  function TallyAfter(b: Books, day: seq<Request>, t: Tally): Tally
    decreases |day|
  {
    if day == [] then t
    else TallyAfter(Serve(b, day[0].call, day[0].fault).0, day[1..], TallyNext(b, day[0].call, day[0].fault, t))
  }

  /** Worth and tally agree, for the committed store and for what would be published --
      if the database would take it. */
  ghost predicate Tallies(b: Books, t: Tally) {
    && Worth(b.committed) == t.published
    && (!Collides(b.committed, b.pending) ==> Worth(Flush(b.committed, b.pending)) == t.published + t.held)
  }

  lemma RecordedWorth(s: Store, c: Call, answer: Response)
    ensures Worth(Recorded(s, c, answer)) == Worth(s)
  {
  }

  lemma RaisedPlan(b: Books, c: Call, f: Fault)
    requires OutcomeOf(b, c, f).Raises? && OutcomeOf(b, c, f).staged != []
    ensures var v, staged := View(b.committed, b.pending), OutcomeOf(b, c, f).staged;
            Commits(v, c) && |staged| <= |Changes(v, c)| && staged == Changes(v, c)[..|staged|]
  {
    hide View, Commits, Changes, Collides;
  }

  lemma PublishedPlan(b: Books, c: Call, f: Fault)
    requires OutcomeOf(b, c, f).Publishes?
    ensures var v, plan := View(b.committed, b.pending), OutcomeOf(b, c, f).plan;
            Commits(v, c) && plan == Changes(v, c) == Changes(v, c)[..|plan|] && !Collides(b.committed, b.pending + plan)
  {
    hide View, Commits, Changes, Collides;
  }

  lemma ServeTallies(b: Books, c: Call, f: Fault, t: Tally)
    requires Tallies(b, t)
    ensures Tallies(Serve(b, c, f).0, TallyNext(b, c, f, t))
  {
    hide OutcomeOf, Worth, Flush, Collides, Drift, View, Changes, Commits, Recorded;
    match OutcomeOf(b, c, f) {
      case Answers(_) =>
      case RollsBack => ViewOfNothing(b.committed);
      case Publishes(plan, answer) =>
        PublishedPlan(b, c, f);
        CollidesConcat(b.committed, b.pending, plan);
        PlanWorth(b, c, |plan|);
        var after := Flush(b.committed, b.pending + plan);
        RecordedWorth(after, c, answer);
        ViewOfNothing(Recorded(after, c, answer));
      case Raises(staged) =>
        if staged == [] {
          assert b.pending + staged == b.pending;
        } else {
          RaisedPlan(b, c, f);
          CollidesConcat(b.committed, b.pending, staged);
          if !Collides(b.committed, b.pending + staged) {
            PlanWorth(b, c, |staged|);
          }
        }
    }
  }

  lemma {:induction false} DayTallies(b: Books, day: seq<Request>, t: Tally)
    requires Tallies(b, t)
    ensures Tallies(ServeAll(b, day), TallyAfter(b, day, t))
    decreases |day|
  {
    hide Tallies, Serve, TallyNext;
    if day != [] {
      ServeTallies(b, day[0].call, day[0].fault, t);
      DayTallies(Serve(b, day[0].call, day[0].fault).0, day[1..], TallyNext(b, day[0].call, day[0].fault, t));
    }
  }

  /** Conservation on every day, from an empty bank: committed balances and goals are what
      the log says came in, less what left, plus the published drift of calls that an
      exception cut short (and of goals deleted with nobody to refund). So money is
      conserved to the paisa exactly when that drift is zero. */
  lemma EveryPaisaIsAccountedFor(day: seq<Request>)
    ensures var s := ServeAll(Books(EMPTY, []), day).committed;
            TotalMoney(s) == NetInflow(s.ledger.log) + TallyAfter(Books(EMPTY, []), day, Tally(0, 0)).published
  {
    ViewOfNothing(EMPTY);
    DayTallies(Books(EMPTY, []), day, Tally(0, 0));
  }

  lemma RegisterPublishes(b: Books, acc: AccNo)
    requires acc !in MakeAll(b.committed, b.pending).ledger.accounts && !Collides(b.committed, b.pending)
    ensures OutcomeOf(b, Register(acc), NoFault).Publishes?
  {
    CollidesConcat(b.committed, b.pending, [AddAccount(acc, Account(0, true, false, false))]);
    var plan := [AddAccount(acc, Account(0, true, false, false))];
    assert plan[..0] == [] && !Collides(MakeAll(b.committed, b.pending), plan[..0]);
    hide View, MakeAll;
  }

  lemma DepositLeavesDrift(s: Store, acc: AccNo, x: int)
    requires Usable(s.ledger, acc) && x > 0
    ensures var b := Serve(Books(s, []), Money(Op.Deposit(acc, x), None, false), Before(1)).0;
            && b.committed == s && Tallies(b, Tally(Worth(s), x))
            && !Collides(s, b.pending) && MakeAll(s, b.pending).ledger.accounts.Keys == s.ledger.accounts.Keys
  {
    var c, b0 := Money(Op.Deposit(acc, x), None, false), Books(s, []);
    ViewOfNothing(s);
    var put := Changes(s, c)[0];
    assert put.PutAccount? && put.acc == acc && Changes(s, c)[..1] == [put] && [] + [put] == [put];
    assert OutcomeOf(b0, c, Before(1)) == Raises([put]);
    assert Drift(s, {}, c, 1) == x;
    hide OutcomeOf, Worth, View, Flush, Changes, Commits, Drift, Step;
    NothingAddedNothingTaken(s, [put]);
    MakePlan(s, [put]);
    hide Collides, MakeAll;
    ServeTallies(b0, c, Before(1), Tally(Worth(s), 0));
  }

  /** Drift held in the session comes out with the next registration. */
  lemma HeldDriftSurfaces(b: Books, t: Tally, other: AccNo)
    requires Tallies(b, t) && !Collides(b.committed, b.pending)
    requires other !in MakeAll(b.committed, b.pending).ledger.accounts
    ensures Worth(Serve(b, Register(other), NoFault).0.committed) == t.published + t.held
  {
    RegisterPublishes(b, other);
    RegisterDriftsNothing(b, other);
    hide OutcomeOf, Worth, Collides, MakeAll, View, Flush, Changes, Commits, Drift;
    ServeTallies(b, Register(other), NoFault, t);
  }

  lemma RegisterDriftsNothing(b: Books, other: AccNo)
    ensures var v := View(b.committed, b.pending);
            Commits(v, Register(other)) && forall n: nat :: Drift(v, Dropped(b.pending), Register(other), n) == 0
  {
    hide View;
  }

  /** That drift is real. From any store: a deposit that raises between its balance and
      its row, and any new customer's registration on the same worker afterwards, leave the
      bank holding more than its log explains. */
  lemma RaisedDepositMakesMoney(s: Store, acc: AccNo, x: int, other: AccNo)
    requires Usable(s.ledger, acc) && x > 0 && other !in s.ledger.accounts
    ensures var b1 := Serve(Books(s, []), Money(Op.Deposit(acc, x), None, false), Before(1)).0;
            var b2 := Serve(b1, Register(other), NoFault).0;
            Worth(b1.committed) == Worth(s) && Worth(b2.committed) == Worth(s) + x
  {
    hide Serve, Tallies, Collides, MakeAll, Usable, Worth;
    DepositLeavesDrift(s, acc, x);
    HeldDriftSurfaces(Serve(Books(s, []), Money(Op.Deposit(acc, x), None, false), Before(1)).0, Tally(Worth(s), x), other);
  }

  // ---- nobody is overdrawn, whatever happens ------------------------------------

  predicate PositiveChange(c: Change) {
    match c
    case PutAccount(_, a) => a.balance >= 0
    case AddAccount(_, a) => a.balance >= 0
    case PutGoal(_, g) => g.current >= 0
    case AddGoal(_, g) => g.current >= 0
    case PutLoan(_, loan) => loan.principal > 0 && loan.remaining >= 0
    case AddLoan(_, loan) => loan.principal > 0 && loan.remaining >= 0
    case _ => true
  }

  lemma PositiveChangeKeepsSolvent(s: Store, c: Change)
    requires Solvent(s) && PositiveChange(c)
    ensures Solvent(Make(s, c))
  {
  }

  lemma {:induction false} PositiveKeepsSolvent(s: Store, cs: seq<Change>)
    requires Solvent(s) && forall i :: 0 <= i < |cs| ==> PositiveChange(cs[i])
    ensures Solvent(MakeAll(s, cs))
    decreases |cs|
  {
    hide Make, Solvent, PositiveChange;
    if cs != [] {
      PositiveKeepsSolvent(s, cs[..|cs| - 1]);
      PositiveChangeKeepsSolvent(MakeAll(s, cs[..|cs| - 1]), cs[|cs| - 1]);
    }
  }

  lemma ViewIsSolvent(s: Store, cs: seq<Change>)
    requires Solvent(MakeAll(s, cs))
    ensures Solvent(View(s, cs))
  {
  }

  /** A call writes nothing negative, because the whole call would not. */
  lemma PlanIsPositive(v: Store, c: Call)
    requires Solvent(v) && Commits(v, c)
    ensures forall i :: 0 <= i < |Changes(v, c)| ==> PositiveChange(Changes(v, c)[i])
  {
    StepKeepsSolvent(v, c);
    hide Emi.CalculateEmi, Emi.RoundPaise, Exec, EmiRefusal, Guard;
  }

  lemma ServeKeepsSolvent(b: Books, c: Call, f: Fault)
    requires Solvent(b.committed) && Solvent(MakeAll(b.committed, b.pending))
    ensures var b' := Serve(b, c, f).0; Solvent(b'.committed) && Solvent(MakeAll(b'.committed, b'.pending))
  {
    hide OutcomeOf, Changes, Commits, MakeAll, Solvent, PositiveChange, View, Flush, Recorded;
    match OutcomeOf(b, c, f) {
      case Answers(_) =>
      case RollsBack => ViewOfNothing(b.committed);
      case Publishes(plan, answer) =>
        PublishedPlan(b, c, f);
        StagedIsSolvent(b, c, |plan|);
        FlushIsSolvent(b.committed, b.pending + plan, c, answer);
        ViewOfNothing(Recorded(Flush(b.committed, b.pending + plan), c, answer));
      case Raises(staged) =>
        if staged == [] {
          assert b.pending + staged == b.pending;
        } else {
          RaisedPlan(b, c, f);
          StagedIsSolvent(b, c, |staged|);
        }
    }
  }

  lemma StagedIsSolvent(b: Books, c: Call, n: nat)
    requires Solvent(MakeAll(b.committed, b.pending)) && Commits(View(b.committed, b.pending), c)
    requires n <= |Changes(View(b.committed, b.pending), c)|
    ensures Solvent(MakeAll(b.committed, b.pending + Changes(View(b.committed, b.pending), c)[..n]))
  {
    var v := View(b.committed, b.pending);
    ViewIsSolvent(b.committed, b.pending);
    hide Changes, Commits, MakeAll, Solvent, PositiveChange, View;
    PlanIsPositive(v, c);
    PositiveKeepsSolvent(MakeAll(b.committed, b.pending), Changes(v, c)[..n]);
    MakeConcat(b.committed, b.pending, Changes(v, c)[..n]);
  }

  lemma FlushIsSolvent(s: Store, cs: seq<Change>, c: Call, answer: Response)
    requires Solvent(MakeAll(s, cs))
    ensures Solvent(Recorded(Flush(s, cs), c, answer))
  {
  }

  lemma {:induction false} DayKeepsSolvent(b: Books, day: seq<Request>)
    requires Solvent(b.committed) && Solvent(MakeAll(b.committed, b.pending))
    ensures Solvent(ServeAll(b, day).committed)
    decreases |day|
  {
    hide Serve, Solvent, MakeAll;
    if day != [] {
      ServeKeepsSolvent(b, day[0].call, day[0].fault);
      DayKeepsSolvent(Serve(b, day[0].call, day[0].fault).0, day[1..]);
    }
  }

  /** On no day does any balance or goal fall below zero. */
  lemma NobodyIsOverdrawn(day: seq<Request>)
    ensures Solvent(ServeAll(Books(EMPTY, []), day).committed)
  {
    ViewOfNothing(EMPTY);
    DayKeepsSolvent(Books(EMPTY, []), day);
  }
}
