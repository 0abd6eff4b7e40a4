/** The loan table against the log on every day a worker can have: they agree exactly as
    long as no approval or payment that an exception cut in two has been published. */
module SessionBook {
  import opened Domain
  import opened Ledger
  import opened BankSpec
  import opened Conservation
  import opened LoanBook
  import opened Session
  import opened SessionRuns
  import opened SessionMoney
  import Emi

  // ---- changes that are not about loans ------------------------------------------

  predicate AboutLoans(c: Change) {
    match c
    case PutLoan(_, _) => true
    case AddLoan(_, _) => true
    case AddRow(row) => LoanKind(row.kind)
    case _ => false
  }

  lemma OtherChange(t: Store, c: Change)
    requires !AboutLoans(c)
    ensures Make(t, c).loans == t.loans && SameLoanRows(t.ledger.log, Make(t, c).ledger.log)
  {
    hide SameLoanRows;
    if c.AddRow? {
      OtherRow(t.ledger.log, c.row);
    } else {
      SameRefl(t.ledger.log);
    }
  }

  lemma {:induction false} OtherChanges(t: Store, cs: seq<Change>)
    requires forall i :: 0 <= i < |cs| ==> !AboutLoans(cs[i])
    ensures MakeAll(t, cs).loans == t.loans && SameLoanRows(t.ledger.log, MakeAll(t, cs).ledger.log)
    decreases |cs|
  {
    hide SameLoanRows, Make, AboutLoans;
    if cs == [] {
      SameRefl(t.ledger.log);
    } else {
      var front := cs[..|cs| - 1];
      OtherChanges(t, front);
      OtherChange(MakeAll(t, front), cs[|cs| - 1]);
      SameTrans(t.ledger.log, MakeAll(t, front).ledger.log, MakeAll(t, cs).ledger.log);
    }
  }

  predicate LoanCall(c: Call) {
    c.ApplyLoan? || c.ApproveLoan? || c.RejectLoan? || c.PayEmi?
  }

  lemma OtherPlan(v: Store, c: Call)
    requires Commits(v, c) && !LoanCall(c)
    ensures forall i :: 0 <= i < |Changes(v, c)| ==> !AboutLoans(Changes(v, c)[i])
  {
    hide Emi.RoundPaise, Guard;
  }

  // ---- gaps -----------------------------------------------------------------------

  /** A loan counts as disbursed, and the log does not show its whole principal. */
  predicate Undisbursed(t: Store, id: LoanId) {
    && id in t.loans && t.loans[id].Disbursed()
    && LoanTotal(t.ledger.log, LOAN_DISBURSEMENT, id) < t.loans[id].principal
  }

  /** A loan counts more as paid than the log shows. */
  predicate Overpaid(t: Store, id: LoanId) {
    id in t.loans && LoanTotal(t.ledger.log, LOAN_REPAYMENT, id) < t.loans[id].paid
  }

  predicate Gap(t: Store, id: LoanId) {
    Undisbursed(t, id) || Overpaid(t, id)
  }

  ghost predicate Broken(t: Store) {
    exists id :: Gap(t, id)
  }

  lemma BookHasNoGap(t: Store)
    requires BookOk(t)
    ensures !Broken(t)
  {
    forall id: LoanId
      ensures !Gap(t, id)
    {
      if id in t.loans {
        assert LoanLogged(t.ledger.log, id, t.loans[id]);
      }
    }
  }

  /** Which calls, cut off after n writes, set the loan table and the log at odds. */
  predicate Torn(c: Call, n: nat) {
    (c.ApproveLoan? && (n == 1 || n == 2)) || (c.PayEmi? && n == 2)
  }

  // ---- the plans of the loan calls ---------------------------------------------------

  lemma ApprovePlan(v: Store, t: Store, c: Call)
    requires Commits(v, c) && c.ApproveLoan? && ShowsAccounts(v, t)
    ensures var plan := Changes(v, c);
            && |plan| == 3 && c.loan in t.loans && t.loans[c.loan].status.PENDING?
            && plan[0] == PutLoan(c.loan, ApproveStep(t, c.loan, c.now).0.loans[c.loan])
            && plan[1].PutAccount?
            && ApproveStep(t, c.loan, c.now).0 == Make(Make(Make(t, plan[0]), plan[1]), plan[2])
            && plan[2].AddRow? && Concerns(plan[2].row, LOAN_DISBURSEMENT, c.loan)
            && plan[0].terms.Disbursed() && plan[0].terms.principal == t.loans[c.loan].principal
            && plan[0].terms.paid == t.loans[c.loan].paid
  {
  }

  lemma PayPlan(v: Store, t: Store, c: Call)
    requires Commits(v, c) && c.PayEmi? && ShowsAccounts(v, t)
    ensures var plan := Changes(v, c);
            && |plan| == 3 && c.loan in t.loans && t.loans[c.loan].Payable() && c.loan in v.loans
            && plan[0].PutAccount?
            && plan[1] == PutLoan(c.loan, PayEmiStep(t, c.acc, c.loan, c.instalment, c.now).0.loans[c.loan])
            && PayEmiStep(t, c.acc, c.loan, c.instalment, c.now).0 == Make(Make(Make(t, plan[0]), plan[1]), plan[2])
            && plan[2].AddRow? && Concerns(plan[2].row, LOAN_REPAYMENT, c.loan)
            && plan[2].row.amount == EmiPayment(v, c.loan, c.instalment)
            && plan[1].terms.Disbursed() && plan[1].terms.principal == t.loans[c.loan].principal
            && plan[1].terms.paid == t.loans[c.loan].paid + EmiPayment(v, c.loan, c.instalment)
  {
    AcceptedPayer(v, c.acc, c.loan, c.instalment);
  }

  lemma PaymentIsPositive(v: Store, t: Store, c: Call)
    requires Commits(v, c) && c.PayEmi? && ShowsAccounts(v, t) && BookOk(t)
    ensures EmiPayment(v, c.loan, c.instalment) > 0
  {
    PayPlan(v, t, c);
    assert LoanOk(t.loans[c.loan]);
    Asked(v, c);
  }

  lemma Asked(v: Store, c: Call)
    requires Commits(v, c) && c.PayEmi?
    ensures c.loan in v.loans && (if c.instalment.Some? then c.instalment.value else v.loans[c.loan].emi) > 0
  {
  }

  // ---- one call, any prefix, from a book that agrees -----------------------------------

  /** A store as far as loans and log go, with the accounts that queries show. */
  function WithAccounts(t: Store, v: Store): Store {
    t.(ledger := t.ledger.(accounts := v.ledger.accounts))
  }

  predicate SameLoansAndLog(a: Store, b: Store) {
    a.loans == b.loans && a.ledger.log == b.ledger.log
  }

  lemma ChangeIgnoresAccounts(a: Store, b: Store, c: Change)
    requires SameLoansAndLog(a, b)
    ensures SameLoansAndLog(Make(a, c), Make(b, c))
  {
  }

  lemma {:induction false} AccountsDoNotMatter(a: Store, b: Store, cs: seq<Change>)
    requires SameLoansAndLog(a, b)
    ensures SameLoansAndLog(MakeAll(a, cs), MakeAll(b, cs))
    decreases |cs|
  {
    hide Make, SameLoansAndLog;
    if cs != [] {
      var front := cs[..|cs| - 1];
      AccountsDoNotMatter(a, b, front);
      ChangeIgnoresAccounts(MakeAll(a, front), MakeAll(b, front), cs[|cs| - 1]);
    }
  }

  /** The accounts are exactly those shown. */
  predicate ShowsAccounts(v: Store, t: Store) {
    v.ledger.accounts == t.ledger.accounts && (forall id :: id in v.loans ==> id in t.loans && t.loans[id] == v.loans[id])
  }

  /** The first n writes of a call keep the book in agreement exactly when they do not
      tear an approval or a payment. */
  lemma PrefixKeepsBook(v: Store, t: Store, c: Call, n: nat)
    requires Commits(v, c) && (c.ApplyLoan? ==> !Clashes(t, c)) && ShowsAccounts(v, t) && BookOk(t) && n <= |Changes(v, c)|
    ensures !Torn(c, n) ==> BookOk(MakeAll(t, Changes(v, c)[..n]))
    ensures Torn(c, n) ==> Broken(MakeAll(t, Changes(v, c)[..n]))
  {
    hide MakeAll, BookOk, Broken, ShowsAccounts, Changes, Commits, Clashes, Make, AboutLoans;
    var plan := Changes(v, c);
    PlanIsSomething(v, c);
    MakePlan(t, plan[..n]);
    if !LoanCall(c) {
      OtherPlan(v, c);
      OtherChanges(t, plan[..n]);
      OtherCallsKeepBook(t, MakeAll(t, plan[..n]));
    } else if n > 0 {
      match c
      case ApplyLoan(id, acc, product, principal, rate, tenure) => AppliedBook(v, t, c);
      case ApproveLoan(id, now) =>
        ApprovePlan(v, t, c);
        ApprovedBook(v, t, c, n);
      case RejectLoan(id) => RejectedBook(v, t, c);
      case PayEmi(acc, id, instalment, now) =>
        PayPlan(v, t, c);
        PaidBook(v, t, c, n);
    }
  }

  lemma AppliedBook(v: Store, t: Store, c: Call)
    requires Commits(v, c) && !Clashes(t, c) && c.ApplyLoan? && ShowsAccounts(v, t) && BookOk(t)
    ensures |Changes(v, c)| == 1 && BookOk(Make(t, Changes(v, c)[0]))
  {
    hide Emi.CalculateEmi, BookOk;
    assert Screening(t, c.acc, c.product, c.principal, c.rate, c.tenure).None?;
    ApplyKeepsBook(t, c.loan, c.acc, c.product, c.principal, c.rate, c.tenure);
  }

  lemma RejectedBook(v: Store, t: Store, c: Call)
    requires Commits(v, c) && c.RejectLoan? && ShowsAccounts(v, t) && BookOk(t)
    ensures |Changes(v, c)| == 1 && BookOk(Make(t, Changes(v, c)[0]))
  {
    hide BookOk;
    RejectKeepsBook(t, c.loan);
    assert Make(t, Changes(v, c)[0]) == RejectStep(t, c.loan).0;
  }

  lemma ApprovedBook(v: Store, t: Store, c: Call, n: nat)
    requires Commits(v, c) && c.ApproveLoan? && ShowsAccounts(v, t) && BookOk(t) && 1 <= n <= 3
    ensures var plan := Changes(v, c);
            && |plan| == 3
            && (n == 1 ==> Broken(Make(t, plan[0])))
            && (n == 2 ==> Broken(Make(Make(t, plan[0]), plan[1])))
            && (n == 3 ==> BookOk(Make(Make(Make(t, plan[0]), plan[1]), plan[2])))
  {
    ApprovePlan(v, t, c);
    ApproveKeepsBook(t, c.loan, c.now);
    var plan := Changes(v, c);
    assert LoanOk(t.loans[c.loan]) && LoanLogged(t.ledger.log, c.loan, t.loans[c.loan]);
    hide BookOk, Changes, Commits, ShowsAccounts;
    assert Gap(Make(t, plan[0]), c.loan);
    assert Gap(Make(Make(t, plan[0]), plan[1]), c.loan);
  }

  lemma PaidBook(v: Store, t: Store, c: Call, n: nat)
    requires Commits(v, c) && c.PayEmi? && ShowsAccounts(v, t) && BookOk(t) && 1 <= n <= 3
    ensures var plan := Changes(v, c);
            && |plan| == 3
            && (n == 1 ==> BookOk(Make(t, plan[0])))
            && (n == 2 ==> Broken(Make(Make(t, plan[0]), plan[1])))
            && (n == 3 ==> BookOk(Make(Make(Make(t, plan[0]), plan[1]), plan[2])))
  {
    PayPlan(v, t, c);
    PaymentIsPositive(v, t, c);
    PayKeepsBook(t, c.acc, c.loan, c.instalment, c.now);
    var plan := Changes(v, c);
    assert LoanOk(t.loans[c.loan]) && LoanLogged(t.ledger.log, c.loan, t.loans[c.loan]);
    SameRefl(t.ledger.log);
    OtherCallsKeepBook(t, Make(t, plan[0]));
    hide BookOk, Changes, Commits, ShowsAccounts;
    assert Gap(Make(Make(t, plan[0]), plan[1]), c.loan);
  }

  // ---- a gap never closes ------------------------------------------------------------

  lemma SameGap(t: Store, t': Store, id: LoanId)
    requires Gap(t, id) && id in t'.loans && t'.loans[id] == t.loans[id]
    requires LoanTotal(t'.ledger.log, LOAN_DISBURSEMENT, id) == LoanTotal(t.ledger.log, LOAN_DISBURSEMENT, id)
    requires LoanTotal(t'.ledger.log, LOAN_REPAYMENT, id) == LoanTotal(t.ledger.log, LOAN_REPAYMENT, id)
    ensures Gap(t', id)
  {
  }

  /** How far a loan's payments exceed the log's, at least. */
  predicate OverBy(t: Store, id: LoanId, m: int) {
    id in t.loans && LoanTotal(t.ledger.log, LOAN_REPAYMENT, id) + m < t.loans[id].paid
  }

  lemma UndisbursedKept(t: Store, c: Change, id: LoanId)
    requires Undisbursed(t, id)
    requires c.PutLoan? && c.loan == id ==> c.terms.Disbursed() && c.terms.principal == t.loans[id].principal
    requires c.AddLoan? ==> c.loan != id
    requires c.AddRow? ==> !Concerns(c.row, LOAN_DISBURSEMENT, id)
    ensures Undisbursed(Make(t, c), id)
  {
    if c.AddRow? {
      AppendLoanRow(t.ledger.log, c.row, LOAN_DISBURSEMENT, id);
    }
    hide LoanTotal;
  }

  function Repays(c: Change, id: LoanId): int {
    if c.AddRow? && Concerns(c.row, LOAN_REPAYMENT, id) then c.row.amount else 0
  }

  lemma OverByKept(t: Store, c: Change, id: LoanId, m: int, m': int)
    requires OverBy(t, id, m)
    requires c.AddLoan? ==> c.loan != id
    requires m' + Repays(c, id) <= m + (if c.PutLoan? && c.loan == id then c.terms.paid - t.loans[id].paid else 0)
    ensures OverBy(Make(t, c), id, m')
  {
    if c.AddRow? {
      AppendLoanRow(t.ledger.log, c.row, LOAN_REPAYMENT, id);
    }
    hide LoanTotal;
  }

  lemma ApprovalKeepsGap(v: Store, t: Store, c: Call, n: nat, id: LoanId)
    requires Commits(v, c) && c.ApproveLoan? && ShowsAccounts(v, t) && Gap(t, id) && 1 <= n <= 3
    ensures Gap(MakeAll(t, Changes(v, c)[..n]), id)
  {
    ApprovePlan(v, t, c);
    hide MakeAll, Make, Changes, Commits, LoanTotal, ApproveStep, ShowsAccounts;
    var plan := Changes(v, c);
    MakePlan(t, plan[..n]);
    var t1, t2 := Make(t, plan[0]), Make(Make(t, plan[0]), plan[1]);
    if Undisbursed(t, id) {
      UndisbursedKept(t, plan[0], id);
      UndisbursedKept(t1, plan[1], id);
      UndisbursedKept(t2, plan[2], id);
    } else {
      OverByKept(t, plan[0], id, 0, 0);
      OverByKept(t1, plan[1], id, 0, 0);
      OverByKept(t2, plan[2], id, 0, 0);
    }
  }

  lemma PaymentKeepsGap(v: Store, t: Store, c: Call, n: nat, id: LoanId)
    requires Commits(v, c) && c.PayEmi? && ShowsAccounts(v, t) && Gap(t, id) && 1 <= n <= 3
    requires c.loan in v.loans && EmiPayment(v, c.loan, c.instalment) >= 0
    ensures Gap(MakeAll(t, Changes(v, c)[..n]), id)
  {
    PayPlan(v, t, c);
    hide MakeAll, Changes, Commits, LoanTotal, PayEmiStep, EmiPayment, ShowsAccounts;
    var plan := Changes(v, c);
    MakePlan(t, plan[..n]);
    var t1, t2 := Make(t, plan[0]), Make(Make(t, plan[0]), plan[1]);
    assert t1.loans == t.loans;
    hide Make;
    if Undisbursed(t, id) {
      UndisbursedKept(t, plan[0], id);
      UndisbursedKept(t1, plan[1], id);
      UndisbursedKept(t2, plan[2], id);
    } else {
      var p := if c.loan == id then EmiPayment(v, c.loan, c.instalment) else 0;
      OverByKept(t, plan[0], id, 0, 0);
      OverByKept(t1, plan[1], id, 0, p);
      OverByKept(t2, plan[2], id, p, 0);
    }
  }

  lemma PaymentIsNotNegative(v: Store, c: Call)
    requires Commits(v, c) && c.PayEmi? && Solvent(v)
    ensures c.loan in v.loans && EmiPayment(v, c.loan, c.instalment) >= 0
  {
    Asked(v, c);
  }

  lemma OtherLoanCallsKeepGap(v: Store, t: Store, c: Call, id: LoanId)
    requires Commits(v, c) && (c.ApplyLoan? ==> !Clashes(t, c)) && (c.ApplyLoan? || c.RejectLoan?)
    requires ShowsAccounts(v, t) && Gap(t, id)
    ensures |Changes(v, c)| == 1 && Gap(Make(t, Changes(v, c)[0]), id)
  {
    hide Emi.CalculateEmi, Screening, LoanTotal;
  }

  lemma PrefixKeepsGap(v: Store, t: Store, c: Call, n: nat, id: LoanId)
    requires Commits(v, c) && (c.ApplyLoan? ==> !Clashes(t, c)) && ShowsAccounts(v, t) && Solvent(v) && Gap(t, id) && n <= |Changes(v, c)|
    ensures Gap(MakeAll(t, Changes(v, c)[..n]), id)
  {
    hide MakeAll, ShowsAccounts, Changes, Commits, Clashes, Make, Solvent, Gap, AboutLoans, EmiPayment;
    var plan := Changes(v, c);
    PlanIsSomething(v, c);
    MakePlan(t, plan[..n]);
    if n == 0 {
    } else if c.ApproveLoan? {
      ApprovePlan(v, t, c);
      ApprovalKeepsGap(v, t, c, n, id);
    } else if c.PayEmi? {
      PayPlan(v, t, c);
      PaymentIsNotNegative(v, c);
      PaymentKeepsGap(v, t, c, n, id);
    } else if LoanCall(c) {
      OtherLoanCallsKeepGap(v, t, c, id);
    } else {
      OtherPlan(v, c);
      OtherChanges(t, plan[..n]);
      assert LoanKind(LOAN_DISBURSEMENT) && LoanKind(LOAN_REPAYMENT);
      GapIsAbout(t, id);
      SameGap(t, MakeAll(t, plan[..n]), id);
    }
  }

  lemma GapIsAbout(t: Store, id: LoanId)
    requires Gap(t, id)
    ensures id in t.loans
  {
  }

  // ---- whole days ----------------------------------------------------------------------

  /** Whether a torn approval or payment has been published, and whether one is held. */
  datatype Tears = Tears(published: bool, held: bool)

  function TearsNext(b: Books, c: Call, f: Fault, t: Tears): Tears {
    match OutcomeOf(b, c, f)
    case Answers(_) => t
    case Raises(staged) => t.(held := t.held || Torn(c, |staged|))
    case RollsBack => t.(held := false)
    case Publishes(_, _) => Tears(t.published || t.held, false)
  }

  function TearsAfter(b: Books, day: seq<Request>, t: Tears): Tears
    decreases |day|
  {
    if day == [] then t
    else TearsAfter(Serve(b, day[0].call, day[0].fault).0, day[1..], TearsNext(b, day[0].call, day[0].fault, t))
  }

  ghost predicate BookAsTorn(t: Store, torn: bool) {
    if torn then Broken(t) else BookOk(t)
  }

  /** Book and tears agree, for the committed store and for what would be published -- if
      the database would take it. */
  ghost predicate TearsTell(b: Books, t: Tears) {
    && BookAsTorn(b.committed, t.published)
    && (!Collides(b.committed, b.pending) ==> BookAsTorn(MakeAll(b.committed, b.pending), t.published || t.held))
  }

  /** Neither recording an answer nor dropping goals is about loans. */
  lemma SameBook(s: Store, s': Store, torn: bool)
    requires s'.loans == s.loans && s'.ledger.log == s.ledger.log && BookAsTorn(s, torn)
    ensures BookAsTorn(s', torn)
  {
    if torn {
      var id :| Gap(s, id);
      assert Gap(s', id);
    }
  }

  lemma SeenShowsAccounts(v: Store, t: Store, c: Call)
    requires Shows(v, t)
    ensures var seen := WithAccounts(t, v);
            && ShowsAccounts(v, seen) && SameLoansAndLog(t, seen) && seen.loans == t.loans && seen.ledger.log == t.ledger.log
            && (c.ApplyLoan? && !Clashes(t, c) ==> !Clashes(seen, c))
  {
  }

  lemma PrefixTells(b: Books, c: Call, n: nat, torn: bool)
    requires var v := View(b.committed, b.pending); Commits(v, c) && 1 <= n <= |Changes(v, c)|
    requires !Collides(b.committed, b.pending + Changes(View(b.committed, b.pending), c)[..n])
    requires Solvent(MakeAll(b.committed, b.pending)) && BookAsTorn(MakeAll(b.committed, b.pending), torn)
    ensures BookAsTorn(MakeAll(b.committed, b.pending + Changes(View(b.committed, b.pending), c)[..n]), torn || Torn(c, n))
  {
    var v, t := View(b.committed, b.pending), MakeAll(b.committed, b.pending);
    ViewShows(b.committed, b.pending);
    ViewIsSolvent(b.committed, b.pending);
    hide View, MakeAll, Changes, Commits, Clashes, BookOk, Solvent, Gap, Shows, ShowsAccounts, Collides, WithAccounts;
    var plan := Changes(v, c);
    CollidesConcat(b.committed, b.pending, plan[..n]);
    PlanCollides(v, t, c, n);
    MakeConcat(b.committed, b.pending, plan[..n]);
    var seen := WithAccounts(t, v);
    SeenShowsAccounts(v, t, c);
    SameBook(t, seen, torn);
    if torn {
      var id :| Gap(seen, id);
      PrefixKeepsGap(v, seen, c, n, id);
    } else {
      PrefixKeepsBook(v, seen, c, n);
    }
    AccountsDoNotMatter(seen, t, plan[..n]);
    SameBook(MakeAll(seen, plan[..n]), MakeAll(t, plan[..n]), torn || Torn(c, n));
  }

  lemma WholePlanIsNotTorn(v: Store, c: Call)
    requires Commits(v, c)
    ensures !Torn(c, |Changes(v, c)|)
  {
    hide Emi.CalculateEmi, Emi.RoundPaise, Guard, EmiRefusal, Screening, Exec;
  }

  lemma PublishedTells(b: Books, c: Call, answer: Response, torn: bool)
    requires Commits(View(b.committed, b.pending), c)
    requires !Collides(b.committed, b.pending + Changes(View(b.committed, b.pending), c))
    requires Solvent(MakeAll(b.committed, b.pending)) && BookAsTorn(MakeAll(b.committed, b.pending), torn)
    ensures var after := Recorded(Flush(b.committed, b.pending + Changes(View(b.committed, b.pending), c)), c, answer);
            BookAsTorn(after, torn) && BookAsTorn(MakeAll(after, []), torn)
  {
    var v := View(b.committed, b.pending);
    var plan := Changes(v, c);
    var made, after := MakeAll(b.committed, b.pending + plan), Recorded(Flush(b.committed, b.pending + plan), c, answer);
    assert plan[..|plan|] == plan;
    assert after.loans == made.loans && after.ledger == made.ledger;
    hide OutcomeOf, BookAsTorn, Collides, MakeAll, View, Changes, Commits, Torn, Flush;
    PlanIsSomething(v, c);
    WholePlanIsNotTorn(v, c);
    PrefixTells(b, c, |plan|, torn);
    SameBook(made, after, torn);
    ViewOfNothing(after);
  }

  lemma ServeTells(b: Books, c: Call, f: Fault, t: Tears)
    requires TearsTell(b, t) && Solvent(MakeAll(b.committed, b.pending))
    ensures TearsTell(Serve(b, c, f).0, TearsNext(b, c, f, t))
  {
    hide OutcomeOf, BookAsTorn, Collides, MakeAll, View, Changes, Commits, Flush, Solvent, Recorded;
    var o := OutcomeOf(b, c, f);
    match o {
      case Answers(_) =>
      case RollsBack => ViewOfNothing(b.committed);
      case Publishes(plan, answer) =>
        PublishedPlan(b, c, f);
        CollidesConcat(b.committed, b.pending, plan);
        PublishedTells(b, c, answer, t.published || t.held);
      case Raises(staged) =>
        if staged == [] {
          assert b.pending + staged == b.pending;
        } else {
          RaisedPlan(b, c, f);
          CollidesConcat(b.committed, b.pending, staged);
          if !Collides(b.committed, b.pending + staged) {
            PrefixTells(b, c, |staged|, t.published || t.held);
          }
        }
    }
  }

  lemma {:induction false} DayTells(b: Books, day: seq<Request>, t: Tears)
    requires TearsTell(b, t) && Solvent(b.committed) && Solvent(MakeAll(b.committed, b.pending))
    ensures TearsTell(ServeAll(b, day), TearsAfter(b, day, t))
    decreases |day|
  {
    hide TearsTell, Serve, TearsNext, Solvent, MakeAll;
    if day != [] {
      var c, f := day[0].call, day[0].fault;
      ServeTells(b, c, f, t);
      ServeKeepsSolvent(b, c, f);
      DayTells(Serve(b, c, f).0, day[1..], TearsNext(b, c, f, t));
    }
  }

  /** On every day from an empty bank, loan table and log agree -- loan by loan and in
      total -- exactly when no approval or payment cut in two has been published. */
  lemma BookAgreesExactlyWhenNothingTornIsPublished(day: seq<Request>)
    ensures BookOk(ServeAll(Books(EMPTY, []), day).committed)
            <==> !TearsAfter(Books(EMPTY, []), day, Tears(false, false)).published
  {
    ViewOfNothing(EMPTY);
    DayTells(Books(EMPTY, []), day, Tears(false, false));
    var s := ServeAll(Books(EMPTY, []), day).committed;
    if BookOk(s) {
      BookHasNoGap(s);
    }
  }

  /** A tear held in the session comes out with the next registration. */
  lemma HeldTearSurfaces(b: Books, other: AccNo)
    requires TearsTell(b, Tears(false, true)) && Solvent(MakeAll(b.committed, b.pending))
    requires other !in MakeAll(b.committed, b.pending).ledger.accounts && !Collides(b.committed, b.pending)
    ensures BookOk(b.committed) && !BookOk(Serve(b, Register(other), NoFault).0.committed)
  {
    hide OutcomeOf, Collides, MakeAll, View, Flush, Changes, Commits, Broken, BookOk, Solvent;
    RegisterPublishes(b, other);
    ServeTells(b, Register(other), NoFault, Tears(false, true));
    var s := Serve(b, Register(other), NoFault).0.committed;
    if BookOk(s) {
      BookHasNoGap(s);
    }
  }

  lemma ApprovalRaises(s: Store, id: LoanId, now: Time, n: nat)
    requires 1 <= n <= 2
    requires id in s.loans && s.loans[id].status.PENDING? && Usable(s.ledger, s.loans[id].acc)
    ensures var o := OutcomeOf(Books(s, []), ApproveLoan(id, now), Before(n));
            o.Raises? && |o.staged| == n && forall i :: 0 <= i < n ==> o.staged[i].PutLoan? || (o.staged[i].PutAccount? && o.staged[i].acc in s.ledger.accounts)
  {
    ViewOfNothing(s);
    hide View, MakeAll, Collides;
  }

  lemma {:induction false} PutsAddNothing(s: Store, cs: seq<Change>)
    requires forall i :: 0 <= i < |cs| ==> cs[i].PutLoan? || (cs[i].PutAccount? && cs[i].acc in s.ledger.accounts)
    ensures !Collides(s, cs) && MakeAll(s, cs).ledger.accounts.Keys == s.ledger.accounts.Keys
    decreases |cs|
  {
    if cs != [] {
      PutsAddNothing(s, cs[..|cs| - 1]);
    }
  }

  lemma ApprovalLeavesTear(s: Store, id: LoanId, now: Time, n: nat)
    requires BookOk(s) && Solvent(s) && 1 <= n <= 2
    requires id in s.loans && s.loans[id].status.PENDING? && Usable(s.ledger, s.loans[id].acc)
    ensures var b := Serve(Books(s, []), ApproveLoan(id, now), Before(n)).0;
            && b.committed == s && TearsTell(b, Tears(false, true)) && Solvent(MakeAll(s, b.pending))
            && !Collides(s, b.pending) && MakeAll(s, b.pending).ledger.accounts.Keys == s.ledger.accounts.Keys
  {
    hide OutcomeOf, Collides, MakeAll, View, Flush, Changes, Commits, Broken, BookOk, Solvent, Step;
    ApprovalRaises(s, id, now, n);
    ViewOfNothing(s);
    var c, b0 := ApproveLoan(id, now), Books(s, []);
    var staged := OutcomeOf(b0, c, Before(n)).staged;
    assert [] + staged == staged;
    PutsAddNothing(s, staged);
    ServeTells(b0, c, Before(n), Tears(false, false));
    ServeKeepsSolvent(b0, c, Before(n));
  }

  /** And tears are real. From any store whose book is in order: an approval that raises
      after its first or second write, and any registration on the same worker afterwards,
      leave a loan that counts as disbursed and that the log does not know. */
  lemma RaisedApprovalBreaksTheBook(s: Store, id: LoanId, now: Time, n: nat, other: AccNo)
    requires BookOk(s) && Solvent(s) && 1 <= n <= 2 && other !in s.ledger.accounts
    requires id in s.loans && s.loans[id].status.PENDING? && Usable(s.ledger, s.loans[id].acc)
    ensures var b1 := Serve(Books(s, []), ApproveLoan(id, now), Before(n)).0;
            var b2 := Serve(b1, Register(other), NoFault).0;
            BookOk(b1.committed) && !BookOk(b2.committed)
  {
    hide Serve, TearsTell, Collides, MakeAll, BookOk, Solvent, Usable;
    ApprovalLeavesTear(s, id, now, n);
    HeldTearSurfaces(Serve(Books(s, []), ApproveLoan(id, now), Before(n)).0, other);
  }
}
