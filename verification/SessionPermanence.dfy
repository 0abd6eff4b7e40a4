/** What is final even on days with exceptions: an inactive account stays inactive and
    loans only move forward. What is not: a freeze cut in two can be undone. */
module SessionPermanence {
  import opened Domain
  import opened Ledger
  import opened BankSpec
  import opened LedgerReplay
  import opened LoanBook
  import opened Permanence
  import opened Session
  import opened ServicePlans
  import opened SessionRuns
  import opened SessionMoney
  import Emi

  // ---- accounts ---------------------------------------------------------------------

  /** An inactive account -- at a given balance, when one is given. */
  predicate Still(s: Store, acc: AccNo, balance: Option<int>) {
    && acc in s.ledger.accounts && !s.ledger.accounts[acc].active
    && (balance.Some? ==> s.ledger.accounts[acc].balance == balance.value)
  }

  predicate KeepsStill(c: Change, acc: AccNo, balance: Option<int>) {
    c.PutAccount? && c.acc == acc ==> !c.account.active && (balance.Some? ==> c.account.balance == balance.value)
  }

  predicate SavingsCall(c: Call, acc: AccNo) {
    (c.Contribute? || c.DeleteGoal?) && c.acc == acc
  }

  lemma PlanKeepsStill(v: Store, c: Call, acc: AccNo, balance: Option<int>)
    requires Commits(v, c) && Still(v, acc, balance) && (balance.Some? ==> !SavingsCall(c, acc))
    ensures forall i :: 0 <= i < |Changes(v, c)| ==> KeepsStill(Changes(v, c)[i], acc, balance)
  {
    hide Emi.CalculateEmi, Emi.RoundPaise, Screening;
  }

  lemma {:induction false} MadeKeepsStill(t: Store, cs: seq<Change>, acc: AccNo, balance: Option<int>)
    requires Still(t, acc, balance) && forall i :: 0 <= i < |cs| ==> KeepsStill(cs[i], acc, balance)
    ensures Still(MakeAll(t, cs), acc, balance)
    decreases |cs|
  {
    if cs != [] {
      MadeKeepsStill(t, cs[..|cs| - 1], acc, balance);
    }
  }

  predicate StillBooks(b: Books, acc: AccNo, balance: Option<int>) {
    Still(b.committed, acc, balance) && Still(MakeAll(b.committed, b.pending), acc, balance)
  }

  lemma PrefixKeepsStill(b: Books, c: Call, n: nat, acc: AccNo, balance: Option<int>)
    requires StillBooks(b, acc, balance) && (balance.Some? ==> !SavingsCall(c, acc))
    requires Commits(View(b.committed, b.pending), c) && n <= |Changes(View(b.committed, b.pending), c)|
    ensures Still(MakeAll(b.committed, b.pending + Changes(View(b.committed, b.pending), c)[..n]), acc, balance)
  {
    var v := View(b.committed, b.pending);
    assert Still(v, acc, balance);
    hide View, Changes, Commits, MakeAll, Still, KeepsStill;
    PlanKeepsStill(v, c, acc, balance);
    MakeConcat(b.committed, b.pending, Changes(v, c)[..n]);
    MadeKeepsStill(MakeAll(b.committed, b.pending), Changes(v, c)[..n], acc, balance);
  }

  lemma PublishedIsStill(s: Store, cs: seq<Change>, c: Call, answer: Response, acc: AccNo, balance: Option<int>)
    requires Still(MakeAll(s, cs), acc, balance)
    ensures Still(Recorded(Flush(s, cs), c, answer), acc, balance)
  {
  }

  lemma ServeKeepsStill(b: Books, c: Call, f: Fault, acc: AccNo, balance: Option<int>)
    requires StillBooks(b, acc, balance) && (balance.Some? ==> !SavingsCall(c, acc))
    ensures StillBooks(Serve(b, c, f).0, acc, balance)
  {
    hide OutcomeOf, Flush, View, Changes, Commits, Recorded, MakeAll, Still, SavingsCall;
    match OutcomeOf(b, c, f) {
      case Answers(_) =>
      case RollsBack => ViewOfNothing(b.committed);
      case Publishes(plan, answer) =>
        PublishedPlan(b, c, f);
        PrefixKeepsStill(b, c, |plan|, acc, balance);
        PublishedIsStill(b.committed, b.pending + plan, c, answer, acc, balance);
        ViewOfNothing(Recorded(Flush(b.committed, b.pending + plan), c, answer));
      case Raises(staged) =>
        if staged == [] {
          assert b.pending + staged == b.pending;
        } else {
          RaisedPlan(b, c, f);
          PrefixKeepsStill(b, c, |staged|, acc, balance);
        }
    }
  }

  predicate NoSavings(day: seq<Request>, acc: AccNo) {
    forall i :: 0 <= i < |day| ==> !SavingsCall(day[i].call, acc)
  }

  lemma {:induction false} DayKeepsStill(b: Books, day: seq<Request>, acc: AccNo, balance: Option<int>)
    requires StillBooks(b, acc, balance) && (balance.Some? ==> NoSavings(day, acc))
    ensures StillBooks(ServeAll(b, day), acc, balance)
    decreases |day|
  {
    hide StillBooks, Serve;
    if day != [] {
      ServeKeepsStill(b, day[0].call, day[0].fault, acc, balance);
      DayKeepsStill(Serve(b, day[0].call, day[0].fault).0, day[1..], acc, balance);
    }
  }

  /** Whatever is called and wherever exceptions strike: an inactive account is never
      active again, and without savings calls of its own its balance never moves again. */
  lemma InactiveForGood(s: Store, day: seq<Request>, acc: AccNo)
    requires acc in s.ledger.accounts && !s.ledger.accounts[acc].active
    ensures var s' := ServeAll(Books(s, []), day).committed;
            && acc in s'.ledger.accounts && !s'.ledger.accounts[acc].active
            && (NoSavings(day, acc) ==> s'.ledger.accounts[acc].balance == s.ledger.accounts[acc].balance)
  {
    ViewOfNothing(s);
    DayKeepsStill(Books(s, []), day, acc, None);
    if NoSavings(day, acc) {
      DayKeepsStill(Books(s, []), day, acc, Some(s.ledger.accounts[acc].balance));
    }
  }

  /** But a barred account need not be inactive. From any store: a freeze that raises
      between its two writes, published by a registration, leaves its account frozen and
      active -- barred -- and lifting that freeze makes it usable again. */
  lemma HalfFreezeThaws(s: Store, acc: AccNo, other: AccNo)
    requires Usable(s.ledger, acc) && other !in s.ledger.accounts
    ensures var b1 := Serve(Books(s, []), Freeze(acc), Before(1)).0;
            var b2 := Serve(b1, Register(other), NoFault).0;
            var (b3, answer) := Serve(b2, Unfreeze(acc), NoFault);
            Barred(b2.committed, acc) && answer == Ok && Usable(b3.committed.ledger, acc)
  {
    hide Serve, Step;
    FreezeHalfPublished(s, acc, other);
    var s2 := Serve(Serve(Books(s, []), Freeze(acc), Before(1)).0, Register(other), NoFault).0.committed;
    FaultFree(s2, Unfreeze(acc));
    Thaws(s2, acc);
  }

  lemma Thaws(s: Store, acc: AccNo)
    requires Live(s.ledger.accounts, acc).Some? && s.ledger.accounts[acc].frozen && s.ledger.accounts[acc].active
    ensures Step(s, Unfreeze(acc)).1 == Ok && Usable(Step(s, Unfreeze(acc)).0.ledger, acc)
  {
  }

  lemma FreezeHalfPublished(s: Store, acc: AccNo, other: AccNo)
    requires Usable(s.ledger, acc) && other !in s.ledger.accounts
    ensures var b := Serve(Serve(Books(s, []), Freeze(acc), Before(1)).0, Register(other), NoFault).0;
            && b.pending == [] && acc in b.committed.ledger.accounts
            && b.committed.ledger.accounts[acc] == s.ledger.accounts[acc].(frozen := true)
  {
    var put, add := PutAccount(acc, s.ledger.accounts[acc].(frozen := true)), AddAccount(other, Account(0, true, false, false));
    FreezeHalf(s, acc);
    PutThenAdd(s, acc, other);
    hide Serve, Collides, Flush, MakeAll, View, Plans, Changes, Commits, Step;
    var b := Books(s, [put]);
    NewIsUnseen(s, [put], add);
    RegisterPlan(View(s, [put]), other);
    assert [put] + [add] == [put, add];
    ServedByPlan(b, Register(other), NoFault, [add], Ok);
    hide Recorded;
    RegisterRecordsNothing(Flush(s, [put, add]), other);
  }

  lemma RegisterRecordsNothing(s: Store, other: AccNo)
    ensures Recorded(s, Register(other), Ok) == s
  {
  }

  lemma FreezeHalf(s: Store, acc: AccNo)
    requires Usable(s.ledger, acc)
    ensures Serve(Books(s, []), Freeze(acc), Before(1)).0
         == Books(s, [PutAccount(acc, s.ledger.accounts[acc].(frozen := true))])
  {
    ViewOfNothing(s);
    StatusPlans(s, acc, true);
    var a := s.ledger.accounts[acc];
    var plan := [PutAccount(acc, a.(frozen := true)), PutAccount(acc, a.(frozen := true, active := false))];
    assert plan[..1] == [plan[0]] && [] + [plan[0]] == [plan[0]];
    hide View, Changes, Commits, Step, Collides, Flush, MakeAll;
    ServedByPlan(Books(s, []), Freeze(acc), Before(1), plan, Ok);
  }

  lemma PutThenAdd(s: Store, acc: AccNo, other: AccNo)
    requires Usable(s.ledger, acc) && other !in s.ledger.accounts
    ensures var put, add := PutAccount(acc, s.ledger.accounts[acc].(frozen := true)), AddAccount(other, Account(0, true, false, false));
            && !Collides(s, [put, add])
            && acc in Flush(s, [put, add]).ledger.accounts
            && Flush(s, [put, add]).ledger.accounts[acc] == s.ledger.accounts[acc].(frozen := true)
  {
    var put, add := PutAccount(acc, s.ledger.accounts[acc].(frozen := true)), AddAccount(other, Account(0, true, false, false));
    MakePlan(s, [put, add]);
    MakePlan(s, [put]);
    NothingAddedNothingTaken(s, [put]);
    assert [put, add][..1] == [put];
    hide MakeAll, Dropped;
  }

  // ---- loans -----------------------------------------------------------------------

  ghost predicate LoansOk(s: Store) {
    forall id :: id in s.loans ==> LoanOk(s.loans[id])
  }

  /** What a call writes of a loan is in order, and further on. */
  ghost predicate LoanChangeOk(v: Store, c: Change) {
    && (c.PutLoan? ==> c.loan in v.loans && LoanOk(c.terms) && Forward(v.loans[c.loan], c.terms))
    && (c.AddLoan? ==> LoanOk(c.terms))
  }

  lemma PlanMovesForward(v: Store, c: Call)
    requires Commits(v, c) && LoansOk(v)
    ensures forall i :: 0 <= i < |Changes(v, c)| ==> LoanChangeOk(v, Changes(v, c)[i])
  {
    if c.ApplyLoan? {
      AcceptedEmiCovers(v, c.acc, c.product, c.principal, c.rate, c.tenure);
      PrincipalPositive(v, c.acc, c.product, c.principal, c.rate, c.tenure);
    } else if c.PayEmi? {
      AcceptedPayer(v, c.acc, c.loan, c.instalment);
      assert LoanOk(v.loans[c.loan]);
    }
    hide Emi.CalculateEmi, Emi.RoundPaise, Screening, Exec;
  }

  /** Every loan of a store is, in another, in order and further on. */
  ghost predicate Further(s: Store, t: Store) {
    LoansOk(t) && forall id :: id in s.loans ==> id in t.loans && Forward(s.loans[id], t.loans[id])
  }

  lemma FurtherTrans(a: Store, b: Store, c: Store)
    requires Further(a, b) && Further(b, c)
    ensures Further(a, c)
  {
  }

  predicate WritesLoan(c: Change) {
    c.PutLoan? || c.AddLoan?
  }

  predicate OneLoanAtMost(cs: seq<Change>) {
    forall i, j :: 0 <= i < j < |cs| ==> !(WritesLoan(cs[i]) && WritesLoan(cs[j]))
  }

  lemma PlanWritesOneLoan(v: Store, c: Call)
    requires Commits(v, c)
    ensures OneLoanAtMost(Changes(v, c))
  {
    hide Emi.CalculateEmi, Emi.RoundPaise, Guard, EmiRefusal, Screening, Exec;
  }

  lemma StillFurther(t: Store)
    requires LoansOk(t)
    ensures Further(t, t)
  {
  }

  /** One loan change, made where the loans are as its call saw them. */
  lemma LoanChangeIsFurther(v: Store, t: Store, c: Change)
    requires Shows(v, t) && LoansOk(t) && LoanChangeOk(v, c)
    ensures Further(t, Make(t, c))
  {
    hide LoanOk;
  }

  lemma {:induction false} MadeMovesForward(v: Store, t: Store, cs: seq<Change>)
    requires Shows(v, t) && LoansOk(t) && OneLoanAtMost(cs)
    requires forall i :: 0 <= i < |cs| ==> LoanChangeOk(v, cs[i])
    ensures Further(t, MakeAll(t, cs))
    ensures (forall i :: 0 <= i < |cs| ==> !WritesLoan(cs[i])) ==> MakeAll(t, cs).loans == t.loans
    decreases |cs|
  {
    hide LoanOk, Forward;
    if cs == [] {
      StillFurther(t);
    } else {
      var n := |cs| - 1;
      var front, last := cs[..n], cs[n];
      MadeMovesForward(v, t, front);
      var made := MakeAll(t, front);
      if WritesLoan(last) {
        assert forall i :: 0 <= i < n ==> front[i] == cs[i];
        LoanChangeIsFurther(v, t, last);
        assert Make(made, last).loans == Make(t, last).loans;
      } else {
        assert Make(made, last).loans == made.loans;
      }
    }
  }

  lemma ViewLoansOk(s: Store, cs: seq<Change>)
    requires LoansOk(MakeAll(s, cs))
    ensures LoansOk(View(s, cs))
  {
    hide LoanOk;
  }

  lemma PrefixMovesForward(b: Books, c: Call, n: nat)
    requires LoansOk(MakeAll(b.committed, b.pending))
    requires Commits(View(b.committed, b.pending), c) && n <= |Changes(View(b.committed, b.pending), c)|
    ensures Further(MakeAll(b.committed, b.pending),
                    MakeAll(b.committed, b.pending + Changes(View(b.committed, b.pending), c)[..n]))
  {
    var v, t := View(b.committed, b.pending), MakeAll(b.committed, b.pending);
    ViewShows(b.committed, b.pending);
    ViewLoansOk(b.committed, b.pending);
    hide View, MakeAll, Changes, Commits, Shows, LoansOk, LoanChangeOk, Further;
    PlanMovesForward(v, c);
    PlanWritesOneLoan(v, c);
    var prefix := Changes(v, c)[..n];
    assert OneLoanAtMost(prefix);
    MadeMovesForward(v, t, prefix);
    MakeConcat(b.committed, b.pending, prefix);
  }

  /** What is committed leads on to what would be published, and all of it is in order. */
  ghost predicate LoansForward(b: Books) {
    LoansOk(b.committed) && Further(b.committed, MakeAll(b.committed, b.pending))
  }

  lemma FlushIsFurther(s: Store, t: Store, cs: seq<Change>, c: Call, answer: Response)
    requires Further(s, MakeAll(t, cs))
    ensures Further(s, Recorded(Flush(t, cs), c, answer))
  {
    hide LoanOk, Forward;
  }

  lemma ServeMovesForward(b: Books, c: Call, f: Fault)
    requires LoansForward(b)
    ensures var b' := Serve(b, c, f).0; LoansForward(b') && Further(b.committed, b'.committed)
  {
    hide OutcomeOf, Flush, View, Changes, Commits, Recorded, MakeAll, LoansOk, Further;
    StillFurther(b.committed);
    FurtherIsOk(b.committed, MakeAll(b.committed, b.pending));
    match OutcomeOf(b, c, f) {
      case Answers(_) =>
      case RollsBack => ViewOfNothing(b.committed);
      case Publishes(plan, answer) =>
        PublishedPlan(b, c, f);
        PrefixMovesForward(b, c, |plan|);
        FurtherTrans(b.committed, MakeAll(b.committed, b.pending), MakeAll(b.committed, b.pending + plan));
        FlushIsFurther(b.committed, b.committed, b.pending + plan, c, answer);
        var after := Recorded(Flush(b.committed, b.pending + plan), c, answer);
        FurtherIsOk(b.committed, after);
        StillFurther(after);
        ViewOfNothing(after);
      case Raises(staged) =>
        if staged == [] {
          assert b.pending + staged == b.pending;
        } else {
          RaisedPlan(b, c, f);
          PrefixMovesForward(b, c, |staged|);
          FurtherTrans(b.committed, MakeAll(b.committed, b.pending), MakeAll(b.committed, b.pending + staged));
        }
    }
  }

  lemma FurtherIsOk(s: Store, t: Store)
    requires Further(s, t)
    ensures LoansOk(t)
  {
  }

  lemma {:induction false} DayMovesForward(b: Books, day: seq<Request>)
    requires LoansForward(b)
    ensures LoansForward(ServeAll(b, day)) && Further(b.committed, ServeAll(b, day).committed)
    decreases |day|
  {
    hide LoansForward, Serve, Further, LoansOk;
    if day == [] {
      CommittedIsOk(b);
      StillFurther(b.committed);
    } else {
      var b' := Serve(b, day[0].call, day[0].fault).0;
      ServeMovesForward(b, day[0].call, day[0].fault);
      DayMovesForward(b', day[1..]);
      FurtherTrans(b.committed, b'.committed, ServeAll(b', day[1..]).committed);
    }
  }

  lemma CommittedIsOk(b: Books)
    requires LoansForward(b)
    ensures LoansOk(b.committed)
  {
  }

  /** From one day to the next, whatever exceptions strike: every loan stays in order --
      what is paid and what remains make up the principal, and it is closed exactly when
      nothing remains -- its terms never change and its status only moves forward. */
  lemma LoansOnlyMoveForwardOnEveryDay(first: seq<Request>, second: seq<Request>)
    ensures var b := ServeAll(Books(EMPTY, []), first);
            Further(b.committed, ServeAll(b, second).committed)
  {
    ViewOfNothing(EMPTY);
    StillFurther(EMPTY);
    DayMovesForward(Books(EMPTY, []), first);
    DayMovesForward(ServeAll(Books(EMPTY, []), first), second);
  }
}
