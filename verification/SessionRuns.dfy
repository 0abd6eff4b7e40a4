/** Whole days of requests on one worker, exceptions included: when the committed store
    is what the completed calls alone would have made of it, and what happens otherwise. */
module SessionRuns {
  import opened Domain
  import opened Ledger
  import opened BankSpec
  import opened Session

  datatype Request = Request(call: Call, fault: Fault)

  function ServeAll(b: Books, day: seq<Request>): Books
    decreases |day|
  {
    if day == [] then b else ServeAll(Serve(b, day[0].call, day[0].fault).0, day[1..])
  }

  /** The calls that reached their commit, in order. */
  function Completed(b: Books, day: seq<Request>): seq<Call>
    decreases |day|
  {
    if day == [] then []
    else (if OutcomeOf(b, day[0].call, day[0].fault).Publishes? then [day[0].call] else [])
         + Completed(Serve(b, day[0].call, day[0].fault).0, day[1..])
  }

  /** No commit finds anything left over in the session. */
  predicate Undisturbed(b: Books, day: seq<Request>)
    decreases |day|
  {
    day == []
    || ((OutcomeOf(b, day[0].call, day[0].fault).Publishes? ==> b.pending == [])
        && Undisturbed(Serve(b, day[0].call, day[0].fault).0, day[1..]))
  }

  /** Every change left over is to a row that is already stored, and none is a soft
      deletion, so queries show it all. */
  predicate Visible(b: Books) {
    forall c :: c in b.pending ==>
      match c
      case PutAccount(acc, a) =>
        acc in b.committed.ledger.accounts && a.deleted == b.committed.ledger.accounts[acc].deleted
      case PutLoan(id, _) => id in b.committed.loans
      case PutGoal(id, _) => id in b.committed.goals
      case AddRow(_) => true
      case _ => false
  }

  lemma {:induction false} VisibleKeys(b: Books)
    requires Visible(b)
    ensures var t := MakeAll(b.committed, b.pending);
            && t.ledger.accounts.Keys == b.committed.ledger.accounts.Keys
            && t.loans.Keys == b.committed.loans.Keys && t.goals.Keys == b.committed.goals.Keys
            && forall a :: a in t.ledger.accounts ==>
                 t.ledger.accounts[a].deleted == b.committed.ledger.accounts[a].deleted
    decreases |b.pending|
  {
    if b.pending != [] {
      var n := |b.pending| - 1;
      var before := Books(b.committed, b.pending[..n]);
      assert b.pending[n] in b.pending;
      assert forall c :: c in before.pending ==> c in b.pending;
      VisibleKeys(before);
      assert MakeAll(b.committed, b.pending) == Make(MakeAll(b.committed, before.pending), b.pending[n]);
    }
  }

  lemma VisibleIsShown(b: Books)
    requires Visible(b)
    ensures View(b.committed, b.pending) == Flush(b.committed, b.pending) == MakeAll(b.committed, b.pending)
  {
    VisibleKeys(b);
    var t := MakeAll(b.committed, b.pending);
    assert Dropped(b.pending) == {};
    assert Found(b.committed.ledger.accounts, t.ledger.accounts) == t.ledger.accounts;
    assert Among(t.loans, b.committed.loans.Keys) == t.loans;
    assert Among(t.goals, b.committed.goals.Keys) == t.goals;
  }

  lemma FlushConcat(b: Books, plan: seq<Change>)
    requires Visible(b)
    ensures Flush(b.committed, b.pending + plan) == Flush(MakeAll(b.committed, b.pending), plan)
  {
    MakeConcat(b.committed, b.pending, plan);
    assert Dropped(b.pending + plan) == Dropped(plan);
  }

  /** What the next commit publishes: the leftovers first, as if they had been committed,
      and then the call itself, run and answered on top of them. */
  lemma LeftoversFirst(b: Books, c: Call, f: Fault)
    requires Visible(b) && OutcomeOf(b, c, f).Publishes?
    ensures var published := Flush(b.committed, b.pending);
            Serve(b, c, f) == (Books(Step(published, c).0, []), Step(published, c).1)
  {
    hide Step, Changes, Commits, View, Flush, MakeAll, Rejected, Visible, Clashes, Collides;
    var published := Flush(b.committed, b.pending);
    VisibleIsShown(b);
    var plan := Changes(published, c);
    PlanIsSomething(published, c);
    assert plan[..|plan|] == plan;
    PlanCollides(published, published, c, |plan|);
    CollidesConcat(b.committed, b.pending, plan);
    ChangesAreStep(published, c);
    FlushConcat(b, Changes(published, c));
  }

  /** On a day on which no commit finds leftovers, the committed store is what the
      completed calls make of it one after another; the raised ones have done nothing. */
  lemma {:induction false} UndisturbedDay(b: Books, day: seq<Request>)
    requires Undisturbed(b, day)
    ensures ServeAll(b, day).committed == Run(b.committed, Completed(b, day))
    decreases |day|
  {
    hide Step, OutcomeOf, Visible;
    if day != [] {
      var c, f := day[0].call, day[0].fault;
      var b' := Serve(b, c, f).0;
      UndisturbedDay(b', day[1..]);
      if OutcomeOf(b, c, f).Publishes? {
        CleanCommit(b, c, f);
        var rest := Completed(b', day[1..]);
        assert ([c] + rest)[1..] == rest;
      } else {
        assert [] + Completed(b', day[1..]) == Completed(b', day[1..]);
      }
    }
  }

  lemma CleanCommit(b: Books, c: Call, f: Fault)
    requires b.pending == [] && OutcomeOf(b, c, f).Publishes?
    ensures Serve(b, c, f) == (Books(Step(b.committed, c).0, []), Step(b.committed, c).1)
  {
    ViewOfNothing(b.committed);
    LeftoversFirst(b, c, f);
  }

  /** Only a raised call leaves anything behind, and a transfer never does: it empties the
      session even of what others have left. */
  lemma LeftoversComeFromRaisedCalls(b: Books, c: Call, f: Fault)
    ensures var b' := Serve(b, c, f).0;
            && (b'.pending == [] || b'.pending == b.pending
                || (OutcomeOf(b, c, f).Raises? && !IsTransfer(c) && b.pending <= b'.pending))
            && (IsTransfer(c) ==> b'.pending == [] || b'.pending == b.pending)
            && (OutcomeOf(b, c, f).RollsBack? ==> b'.pending == [])
  {
    hide Step, Changes, Commits, View, Flush, MakeAll, Clashes;
  }

  function AfterDeposit(s: Store, acc: AccNo, x: int): seq<Change>
    requires acc in s.ledger.accounts
  {
    var a := s.ledger.accounts[acc].(balance := s.ledger.accounts[acc].balance + x);
    [PutAccount(acc, a), AddRow(Row(acc, DEPOSIT, x, a.balance, None, Plain))]
  }

  lemma DepositPlan(s: Store, acc: AccNo, x: int, key: Key)
    requires Usable(s.ledger, acc) && x > 0 && key !in s.records
    ensures var call := Money(Op.Deposit(acc, x), Some(key), true);
            Commits(s, call) && Changes(s, call) == AfterDeposit(s, acc, x)
  {
  }

  lemma DepositRaised(s: Store, acc: AccNo, x: int, key: Key)
    requires Usable(s.ledger, acc) && x > 0 && key !in s.records
    ensures Serve(Books(s, []), Money(Op.Deposit(acc, x), Some(key), true), Before(2))
              == (Books(s, AfterDeposit(s, acc, x)), Raised)
  {
    DepositPlan(s, acc, x, key);
    ViewOfNothing(s);
    hide Commits, Changes, View, Flush, MakeAll, Step;
    var plan := AfterDeposit(s, acc, x);
    assert plan[..2] == plan && [] + plan == plan;
  }

  lemma DepositOnTop(s: Store, acc: AccNo, x: int, key: Key)
    requires Usable(s.ledger, acc) && x > 0 && key !in s.records
    ensures var b, call := Books(s, AfterDeposit(s, acc, x)), Money(Op.Deposit(acc, x), Some(key), true);
            var published := Flush(s, AfterDeposit(s, acc, x));
            && Serve(b, call, NoFault) == (Books(Step(published, call).0, []), Step(published, call).1)
            && Usable(published.ledger, acc) && published.records == s.records
            && published.ledger.accounts[acc].balance == s.ledger.accounts[acc].balance + x
            && |published.ledger.log| == |s.ledger.log| + 1
  {
    var b, call := Books(s, AfterDeposit(s, acc, x)), Money(Op.Deposit(acc, x), Some(key), true);
    assert Visible(b);
    VisibleIsShown(b);
    var published := Flush(s, b.pending);
    MakePlan(s, b.pending);
    hide MakeAll, View, Flush;
    DepositPlan(published, acc, x, key);
    NothingAddedNothingTaken(s, b.pending + AfterDeposit(published, acc, x));
    hide Collides;
    LeftoversFirst(b, call, NoFault) by {
      hide Changes, Commits, Step;
      assert OutcomeOf(b, call, NoFault).Publishes?;
    }
  }

  /** What follows for retries. A deposit that raises after staging both its writes is
      answered with an exception and put on record nowhere; retried with the same key on
      the same worker, it is credited twice and logged twice. */
  lemma RetriedDepositCountsTwice(s: Store, acc: AccNo, x: int, key: Key)
    requires Usable(s.ledger, acc) && x > 0 && key !in s.records
    ensures var call := Money(Op.Deposit(acc, x), Some(key), true);
            var (b1, first) := Serve(Books(s, []), call, Before(2));
            var (b2, second) := Serve(b1, call, NoFault);
            && first == Raised && b1.committed == s
            && second == Deposited(s.ledger.accounts[acc].balance + 2 * x)
            && acc in b2.committed.ledger.accounts
            && b2.committed.ledger.accounts[acc].balance == s.ledger.accounts[acc].balance + 2 * x
            && |b2.committed.ledger.log| == |s.ledger.log| + 2
  {
    DepositRaised(s, acc, x, key);
    DepositOnTop(s, acc, x, key);
    hide Serve, Flush;
  }

  // ---- when a retry counts once ----------------------------------------------------

  /** What a movement that gets as far as its commit does to the store. */
  lemma MoneyEffect(s: Store, c: Call)
    requires Commits(s, c) && c.Money?
    ensures Admissible(s.ledger, c.op) && Step(s, c).0.ledger == Exec(s.ledger, c.op).0
    ensures forall a :: a in s.ledger.accounts ==>
              a in Step(s, c).0.ledger.accounts
              && Step(s, c).0.ledger.accounts[a].balance == s.ledger.accounts[a].balance + Share(c.op, a)
    ensures Step(s, c).0 != s
  {
    ExecMeaning(s.ledger, c.op);
    RefusalChangesNothing(s.ledger, c.op);
  }

  /** A deposit or withdrawal cut short leaves its new balance in the session. */
  lemma OwnLeftovers(s: Store, c: Call, n: nat)
    requires Commits(s, c) && c.Money? && !IsTransfer(c) && 1 <= n <= |Changes(s, c)|
    ensures var b, shown := Books(s, Changes(s, c)[..n]), Flush(s, Changes(s, c)[..n]);
            && Visible(b)
            && c.op.acc in s.ledger.accounts && c.op.acc in shown.ledger.accounts
            && shown.ledger.accounts[c.op.acc].balance == s.ledger.accounts[c.op.acc].balance + Share(c.op, c.op.acc)
  {
    var plan := Changes(s, c);
    ExecMeaning(s.ledger, c.op);
    MakePlan(s, plan[..n]);
    assert plan[..n][0] == plan[0];
    hide MakeAll;
  }

  lemma RetryOnLeftovers(s: Store, c: Call, n: nat)
    requires Commits(s, c) && c.Money? && !IsTransfer(c) && 1 <= n <= |Changes(s, c)|
    ensures Serve(Books(s, Changes(s, c)[..n]), c, NoFault).0.committed != Step(s, c).0
  {
    OwnLeftovers(s, c, n);
    MoneyEffect(s, c);
    var b, shown := Books(s, Changes(s, c)[..n]), Flush(s, Changes(s, c)[..n]);
    var acc := c.op.acc;
    assert Share(c.op, acc) != 0;
    hide Changes, Flush, MakeAll, View, Step, Commits, Collides, Visible, Exec, Admissible, Recorded;
    if OutcomeOf(b, c, NoFault).Publishes? {
      LeftoversFirst(b, c, NoFault);
      PublishedCommits(b, c, NoFault);
      VisibleIsShown(b);
      MoneyEffect(shown, c);
    }
  }

  lemma PublishedCommits(b: Books, c: Call, f: Fault)
    requires OutcomeOf(b, c, f).Publishes?
    ensures Commits(View(b.committed, b.pending), c)
  {
  }

  /** What the first attempt leaves behind when it does not get through. */
  lemma FirstAttempt(s: Store, c: Call, f: Fault)
    requires c.Money? && !OutcomeOf(Books(s, []), c, f).Publishes?
    ensures var b := Serve(Books(s, []), c, f).0;
            if Commits(s, c) && !IsTransfer(c) && f.Before? && f.n >= 1
            then f.n <= |Changes(s, c)| && b == Books(s, Changes(s, c)[..f.n])
            else b == Books(s, [])
  {
    ViewOfNothing(s);
    if Commits(s, c) {
      PlanIsSomething(s, c);
      PlanCollides(s, s, c, |Changes(s, c)|);
      assert Changes(s, c)[..|Changes(s, c)|] == Changes(s, c) && [] + Changes(s, c) == Changes(s, c);
      assert f.Before? && f.n <= |Changes(s, c)| ==> [] + Changes(s, c)[..f.n] == Changes(s, c)[..f.n];
    }
    CommitsIsUnrecorded(s, c);
    hide View, Changes, Commits, Step, Collides, Flush, MakeAll, Rejected;
  }

  lemma CommitsIsUnrecorded(s: Store, c: Call)
    requires c.Money?
    ensures Commits(s, c) ==> Rejected(c).None? && (c.key.Some? ==> c.key.value !in s.records)
  {
  }

  /** Retrying a movement whose first attempt did not get through, on the same worker: the
      store ends up as one execution leaves it exactly when the first attempt has left
      nothing pending, that is, unless it was a deposit or a withdrawal that raised with
      something staged. Then the retry also answers as one execution does. */
  lemma RetryCountsOnceExactlyWhen(s: Store, op: Op, key: Option<Key>, persisted: bool, f: Fault)
    requires !OutcomeOf(Books(s, []), Money(op, key, persisted), f).Publishes?
    ensures var c := Money(op, key, persisted);
            var b1 := Serve(Books(s, []), c, f).0;
            var retried := Serve(b1, c, NoFault);
            && b1.committed == s
            && (retried.0.committed == Step(s, c).0 <==> b1.pending == [])
            && (b1.pending == [] ==> retried == (Books(Step(s, c).0, []), Step(s, c).1))
            && (b1.pending == [] <==> !(Commits(s, c) && !op.Transfer? && f.Before? && f.n >= 1))
  {
    var c := Money(op, key, persisted);
    FirstAttempt(s, c, f);
    if Commits(s, c) && !op.Transfer? && f.Before? && f.n >= 1 {
      RetryOnLeftovers(s, c, f.n);
    } else {
      FaultFree(s, c);
    }
    hide Serve, OutcomeOf, Step, Commits, Changes;
  }

  /** And when the first attempt did get through: a recorded one is answered again and
      changes nothing; an unrecorded one is executed again exactly when the movement can
      be made a second time. */
  lemma RetryAfterSuccess(s: Store, op: Op, key: Option<Key>, persisted: bool, f: Fault)
    requires OutcomeOf(Books(s, []), Money(op, key, persisted), f).Publishes?
    ensures var c := Money(op, key, persisted);
            var (b1, first) := Serve(Books(s, []), c, f);
            var retried := Serve(b1, c, NoFault);
            && (key.Some? && persisted ==> retried == (b1, first))
            && (!(key.Some? && persisted) ==> (retried.0 == b1 <==> !Admissible(b1.committed.ledger, op)))
  {
    var c, b := Money(op, key, persisted), Books(s, []);
    CleanCommit(b, c, f);
    PublishedCommits(b, c, f);
    ViewOfNothing(s);
    FaultFree(Step(s, c).0, c);
    hide Serve, OutcomeOf, View, Changes;
    RecordedOrNot(s, c);
    MoneyStepAgain(Step(s, c).0, c);
  }

  lemma RecordedOrNot(s: Store, c: Call)
    requires c.Money? && Commits(s, c)
    ensures var (s', r) := Step(s, c);
            && (c.key.Some? && c.persisted ==> c.key.value in s'.records && s'.records[c.key.value] == r && Cached(c.op, r) == r)
            && (c.key.Some? && !c.persisted ==> c.key.value !in s'.records)
            && Screen(c.op).None?
  {
  }

  lemma MoneyStepAgain(s: Store, c: Call)
    requires c.Money? && Screen(c.op).None?
    ensures c.key.Some? && c.key.value in s.records ==> Step(s, c) == (s, Cached(c.op, s.records[c.key.value]))
    ensures !(c.key.Some? && c.key.value in s.records) ==> (Step(s, c).0 == s <==> !Admissible(s.ledger, c.op))
  {
    ExecMeaning(s.ledger, c.op);
    RefusalChangesNothing(s.ledger, c.op);
  }
}
