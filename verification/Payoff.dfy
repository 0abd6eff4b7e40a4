/** A loan repaid by its own instalments closes on schedule, within its tenure. */
module Payoff {
  import opened Domain
  import opened Ledger
  import opened BankSpec
  import opened LoanBook
  import Emi

  /** The least number of instalments that covers an amount. */
  function Instalments(amount: int, emi: int): int
    requires emi > 0
  {
    (amount + emi - 1) / emi
  }

  lemma ProductMono(a: int, b: int, c: int)
    requires a <= b && c >= 0
    ensures a * c <= b * c
  {
  }

  lemma QuotientUnique(a: int, b: int, q: int)
    requires b > 0 && q * b <= a < (q + 1) * b
    ensures a / b == q
  {
    assert a == (a / b) * b + a % b;
    if a / b > q {
      ProductMono(q + 1, a / b, b);
    } else if a / b < q {
      ProductMono(a / b + 1, q, b);
    }
  }

  lemma InstalmentsBounds(amount: int, emi: int)
    requires amount >= 0 && emi > 0
    ensures var m := Instalments(amount, emi); m >= 0 && (m - 1) * emi < amount <= m * emi
  {
    var a := amount + emi - 1;
    var m := a / emi;
    assert a == m * emi + a % emi;
    assert (m - 1) * emi == m * emi - emi;
    assert (m + 1) * emi == m * emi + emi;
    if m < 0 {
      Emi.NonPositiveProduct(m + 1, emi);
    }
  }

  lemma InstalmentsUnique(amount: int, emi: int, m: int)
    requires amount >= 0 && emi > 0 && (m - 1) * emi < amount <= m * emi
    ensures Instalments(amount, emi) == m
  {
    assert (m - 1) * emi == m * emi - emi && (m + 1) * emi == m * emi + emi;
    QuotientUnique(amount + emi - 1, emi, m);
  }

  /** The property the loan entity computes is that number. */
  lemma RemainingEmisCounts(loan: Loan)
    requires loan.emi > 0 && loan.remaining >= 0
    ensures loan.RemainingEmis() == Instalments(loan.remaining, loan.emi)
  {
    var q, rest := loan.remaining / loan.emi, loan.remaining % loan.emi;
    assert loan.remaining == q * loan.emi + rest;
    assert (q + 1) * loan.emi == q * loan.emi + loan.emi && (q - 1) * loan.emi == q * loan.emi - loan.emi;
    InstalmentsUnique(loan.remaining, loan.emi, if rest > 0 then q + 1 else q);
  }

  /** Without an instalment nothing is counted; an overpaid loan counts the whole
      instalments it is ahead, below zero. */
  lemma RemainingEmisOtherwise(loan: Loan)
    ensures loan.emi <= 0 ==> loan.RemainingEmis() == 0
    ensures loan.emi > 0 && loan.remaining < 0 ==>
              var ahead := -loan.RemainingEmis();
              ahead >= 0 && ahead * loan.emi <= -loan.remaining < (ahead + 1) * loan.emi
  {
    if loan.emi > 0 && loan.remaining < 0 {
      var k, q := -loan.remaining, (-loan.remaining) / loan.emi;
      assert k == q * loan.emi + k % loan.emi && (q + 1) * loan.emi == q * loan.emi + loan.emi;
    }
  }

  lemma WithinTenure(loan: Loan)
    requires LoanOk(loan)
    ensures 1 <= Instalments(loan.principal, loan.emi) <= loan.tenure
  {
    var m := Instalments(loan.principal, loan.emi);
    InstalmentsBounds(loan.principal, loan.emi);
    if m > loan.tenure {
      ProductMono(loan.tenure, m - 1, loan.emi);
    } else if m < 1 {
      Emi.NonPositiveProduct(m, loan.emi);
    }
  }

  /** One default payment takes exactly one off `remaining_emis`. */
  lemma OneLess(loan: Loan, now: Time)
    requires LoanOk(loan) && loan.status.ACTIVE?
    ensures Repaid(loan, Min(loan.emi, loan.remaining), now).RemainingEmis() == loan.RemainingEmis() - 1
  {
    var after := Repaid(loan, Min(loan.emi, loan.remaining), now);
    RemainingEmisCounts(loan);
    RemainingEmisCounts(after);
    var m := Instalments(loan.remaining, loan.emi);
    InstalmentsBounds(loan.remaining, loan.emi);
    assert (m - 1) * loan.emi == m * loan.emi - loan.emi;
    assert (m - 2) * loan.emi == m * loan.emi - 2 * loan.emi;
    if loan.remaining <= loan.emi {
      InstalmentsUnique(loan.remaining, loan.emi, 1);
      InstalmentsUnique(0, loan.emi, 0);
    } else {
      InstalmentsUnique(loan.remaining - loan.emi, loan.emi, m - 1);
    }
  }

  /** When a default payment is accepted: exactly when the loan is running, the payer
      owns it and can transact, and holds one whole instalment -- even if less is owed. */
  lemma DefaultPaymentAccepted(s: Store, acc: AccNo, id: LoanId)
    requires BookOk(s)
    ensures EmiRefusal(s, acc, id, None).None? <==>
              (&& id in s.loans && s.loans[id].status.ACTIVE? && s.loans[id].acc == acc
               && Live(s.ledger.accounts, acc).Some? && s.ledger.accounts[acc].CanTransact()
               && s.ledger.accounts[acc].balance >= s.loans[id].emi)
  {
  }

  /** Every payment of this loan is a default one. */
  predicate OnlyDefault(calls: seq<Call>, id: LoanId) {
    forall i :: 0 <= i < |calls| && calls[i].PayEmi? && calls[i].loan == id ==> calls[i].instalment.None?
  }

  function PaymentsMade(s: Store, id: LoanId): nat {
    LoanCount(s.ledger.log, LOAN_REPAYMENT, id)
  }

  /** Payments made plus instalments left is the number needed for the whole principal. */
  predicate OnSchedule(s: Store, id: LoanId)
    requires id in s.loans
  {
    && s.loans[id].emi > 0
    && PaymentsMade(s, id) + s.loans[id].RemainingEmis() == Instalments(s.loans[id].principal, s.loans[id].emi)
  }

  lemma StepKeepsSchedule(s: Store, c: Call, id: LoanId)
    requires BookOk(s) && (id in s.loans ==> OnSchedule(s, id)) && OnlyDefault([c], id)
    ensures id in Step(s, c).0.loans ==> OnSchedule(Step(s, c).0, id)
  {
    hide Emi.CalculateEmi, Emi.RoundPaise, Exec, TotalsAgree, LoanCount, LoanTotal, Screening, EmiRefusal, Instalments, LoanOk, Loan.RemainingEmis;
    hide RegisterStep, MoneyStep, InterestStep, CreateGoalStep, ContributeStep, DeleteGoalStep, CloseStep, FreezeStep, UnfreezeStep, DeleteStep;
    var s' := Step(s, c).0;
    var log, log' := s.ledger.log, s'.ledger.log;
    match c {
      case ApplyLoan(added, acc, product, principal, rate, tenure) =>
        if added == id && id !in s.loans && id in s'.loans {
          StepKeepsBook(s, c);
          assert LoanOk(s'.loans[id]) && Unlogged(log, id);
          NewLoanRemaining(s'.loans[id]);
        }
      case ApproveLoan(approved, now) =>
        if s' != s {
          AppendLoanRow(log, log'[|log|], LOAN_REPAYMENT, id);
          assert log' == log + [log'[|log|]];
          if approved == id { SameRemaining(s.loans[id], s'.loans[id]); }
        }
      case RejectLoan(rejected) =>
        if rejected == id && id in s.loans { SameRemaining(s.loans[id], s'.loans[id]); }
      case PayEmi(acc, paid, instalment, now) =>
        if EmiRefusal(s, acc, paid, instalment).None? {
          AppendLoanRow(log, log'[|log|], LOAN_REPAYMENT, id);
          assert log' == log + [log'[|log|]];
          if paid == id {
            assert [c][0] == c;
            AcceptedIsActive(s, acc, id, instalment);
            OneLess(s.loans[id], now);
          }
        }
      case _ =>
        OtherCalls(s, c);
        assert LoanKind(LOAN_REPAYMENT);
    }
  }

  lemma AcceptedIsActive(s: Store, acc: AccNo, id: LoanId, instalment: Option<int>)
    requires BookOk(s) && EmiRefusal(s, acc, id, instalment).None?
    ensures id in s.loans && s.loans[id].status.ACTIVE? && LoanOk(s.loans[id])
  {
  }

  lemma SameRemaining(a: Loan, b: Loan)
    requires a.emi == b.emi && a.remaining == b.remaining
    ensures a.RemainingEmis() == b.RemainingEmis()
  {
  }

  lemma NewLoanRemaining(loan: Loan)
    requires LoanOk(loan) && loan.remaining == loan.principal
    ensures loan.emi > 0
    ensures loan.RemainingEmis() == Instalments(loan.principal, loan.emi)
  {
    RemainingEmisCounts(loan);
  }

  lemma {:induction false} RunKeepsSchedule(s: Store, calls: seq<Call>, id: LoanId)
    requires BookOk(s) && (id in s.loans ==> OnSchedule(s, id)) && OnlyDefault(calls, id)
    ensures id in Run(s, calls).loans ==> OnSchedule(Run(s, calls), id)
    decreases |calls|
  {
    hide BookOk, Step, OnSchedule;
    if calls != [] {
      assert OnlyDefault([calls[0]], id) && OnlyDefault(calls[1..], id);
      StepKeepsSchedule(s, calls[0], id);
      StepKeepsBook(s, calls[0]);
      RunKeepsSchedule(Step(s, calls[0]).0, calls[1..], id);
    }
  }

  /** Over any history in which a loan is only paid by default instalments, it never
      takes more payments than its tenure has months, and a disbursed loan is closed
      exactly when it has had ceil(principal / EMI) of them. */
  lemma PaidOffWithinTenure(calls: seq<Call>, id: LoanId)
    requires OnlyDefault(calls, id) && id in Run(EMPTY, calls).loans
    ensures var s := Run(EMPTY, calls);
            var loan := s.loans[id];
            && loan.emi > 0
            && PaymentsMade(s, id) <= Instalments(loan.principal, loan.emi) <= loan.tenure
            && loan.RemainingEmis() == Instalments(loan.principal, loan.emi) - PaymentsMade(s, id)
            && (loan.Disbursed() ==> (loan.status.CLOSED? <==> PaymentsMade(s, id) == Instalments(loan.principal, loan.emi)))
  {
    RunKeepsBook(EMPTY, calls);
    RunKeepsSchedule(EMPTY, calls, id);
    var s := Run(EMPTY, calls);
    var loan := s.loans[id];
    assert LoanOk(loan);
    WithinTenure(loan);
    RemainingEmisCounts(loan);
    InstalmentsBounds(loan.remaining, loan.emi);
    if loan.remaining == 0 {
      InstalmentsUnique(0, loan.emi, 0);
    }
  }

  /** Put one instalment into the account, then pay it; `rounds` times over. */
  function FundedRounds(acc: AccNo, id: LoanId, emi: int, now: Time, rounds: nat): seq<Call> {
    if rounds == 0 then []
    else [Money(Op.Deposit(acc, emi), None, true), PayEmi(acc, id, None, now)] + FundedRounds(acc, id, emi, now, rounds - 1)
  }

  predicate Payer(s: Store, acc: AccNo, id: LoanId) {
    && id in s.loans && s.loans[id].acc == acc && acc in s.ledger.accounts
    && !s.ledger.accounts[acc].deleted && s.ledger.accounts[acc].CanTransact() && s.ledger.accounts[acc].balance >= 0
  }

  lemma DepositRound(s: Store, acc: AccNo, id: LoanId, amount: int)
    requires Payer(s, acc, id) && amount > 0
    ensures var s' := Step(s, Money(Op.Deposit(acc, amount), None, true)).0;
            s'.loans == s.loans && Payer(s', acc, id) && s'.ledger.accounts[acc].balance >= amount
  {
  }

  lemma PayRound(s: Store, acc: AccNo, id: LoanId, now: Time)
    requires Payer(s, acc, id) && EmiRefusal(s, acc, id, None).None?
    requires s.loans[id].remaining >= 0 && s.loans[id].emi > 0
    ensures var s' := Step(s, PayEmi(acc, id, None, now)).0;
            && Payer(s', acc, id)
            && s'.loans[id] == Repaid(s.loans[id], Min(s.loans[id].emi, s.loans[id].remaining), now)
  {
  }

  lemma OneRound(s: Store, acc: AccNo, id: LoanId, now: Time)
    requires BookOk(s) && Payer(s, acc, id) && s.loans[id].status.ACTIVE?
    ensures var s' := Run(s, FundedRounds(acc, id, s.loans[id].emi, now, 1));
            && BookOk(s') && Payer(s', acc, id)
            && s'.loans[id] == Repaid(s.loans[id], Min(s.loans[id].emi, s.loans[id].remaining), now)
  {
    var loan := s.loans[id];
    var deposit, pay := Money(Op.Deposit(acc, loan.emi), None, true), PayEmi(acc, id, None, now);
    var s1 := Step(s, deposit).0;
    assert LoanOk(loan);
    assert FundedRounds(acc, id, loan.emi, now, 1) == [deposit, pay];
    hide Step, BookOk, Repaid, EmiRefusal, Run, FundedRounds;
    DepositRound(s, acc, id, loan.emi);
    StepKeepsBook(s, deposit);
    DefaultPaymentAccepted(s1, acc, id);
    PayRound(s1, acc, id, now);
    StepKeepsBook(s1, pay);
    RunOfTwo(s, deposit, pay);
  }

  lemma RunOfNone(s: Store)
    ensures Run(s, []) == s
  {
  }

  lemma ActiveNeedsOne(loan: Loan)
    requires loan.emi > 0 && loan.remaining > 0
    ensures loan.RemainingEmis() > 0
  {
    RemainingEmisCounts(loan);
    InstalmentsBounds(loan.remaining, loan.emi);
    if loan.RemainingEmis() <= 0 {
      Emi.NonPositiveProduct(loan.RemainingEmis(), loan.emi);
    }
  }

  lemma ClosedNeedsNone(loan: Loan)
    requires loan.emi > 0 && loan.remaining == 0
    ensures loan.RemainingEmis() == 0
  {
  }

  /** What one funded round changes. */
  lemma RoundMeaning(s: Store, acc: AccNo, id: LoanId, now: Time)
    requires BookOk(s) && Payer(s, acc, id) && s.loans[id].status.ACTIVE?
    ensures var loan, s1 := s.loans[id], Run(s, FundedRounds(acc, id, s.loans[id].emi, now, 1));
            && loan.emi > 0 && BookOk(s1) && Payer(s1, acc, id)
            && s1.loans[id].emi == loan.emi
            && s1.loans[id].RemainingEmis() == loan.RemainingEmis() - 1
            && s1.loans[id].status == (if loan.RemainingEmis() == 1 then CLOSED else ACTIVE)
  {
    var loan := s.loans[id];
    assert LoanOk(loan);
    OneRound(s, acc, id, now);
    OneLess(loan, now);
    hide Run, FundedRounds, BookOk, Loan.RemainingEmis;
    var after := Repaid(loan, Min(loan.emi, loan.remaining), now);
    if after.remaining > 0 {
      ActiveNeedsOne(after);
    } else {
      ClosedNeedsNone(after);
    }
  }

  lemma NoRounds(s: Store, acc: AccNo, id: LoanId, now: Time)
    requires BookOk(s) && id in s.loans && s.loans[id].status.ACTIVE?
    ensures Run(s, FundedRounds(acc, id, s.loans[id].emi, now, 0)) == s && s.loans[id].RemainingEmis() > 0
  {
    assert LoanOk(s.loans[id]);
    ActiveNeedsOne(s.loans[id]);
  }

  lemma FirstRound(s: Store, acc: AccNo, id: LoanId, emi: int, now: Time, rounds: nat)
    requires rounds > 0
    ensures Run(s, FundedRounds(acc, id, emi, now, rounds))
         == Run(Run(s, FundedRounds(acc, id, emi, now, 1)), FundedRounds(acc, id, emi, now, rounds - 1))
  {
    hide Run;
    var first, rest := FundedRounds(acc, id, emi, now, 1), FundedRounds(acc, id, emi, now, rounds - 1);
    NoFunds(acc, id, emi, now);
    assert first == [Money(Op.Deposit(acc, emi), None, true), PayEmi(acc, id, None, now)];
    assert first + rest == FundedRounds(acc, id, emi, now, rounds);
    RunConcat(s, first, rest);
  }

  /** With funds for one instalment each time, exactly `remaining_emis` payments close
      the loan, and no fewer do. */
  lemma {:induction false} FundedPaymentsCloseTheLoan(s: Store, acc: AccNo, id: LoanId, now: Time, rounds: nat)
    requires BookOk(s) && Payer(s, acc, id) && s.loans[id].status.ACTIVE?
    requires rounds <= s.loans[id].RemainingEmis()
    ensures var s' := Run(s, FundedRounds(acc, id, s.loans[id].emi, now, rounds));
            && id in s'.loans
            && s'.loans[id].status == (if rounds == s.loans[id].RemainingEmis() then CLOSED else ACTIVE)
    decreases rounds
  {
    hide BookOk, Run, Loan.RemainingEmis, FundedRounds;
    if rounds == 0 {
      NoRounds(s, acc, id, now);
    } else {
      var emi := s.loans[id].emi;
      var s1 := Run(s, FundedRounds(acc, id, emi, now, 1));
      RoundMeaning(s, acc, id, now);
      FirstRound(s, acc, id, emi, now, rounds);
      if s1.loans[id].status.ACTIVE? {
        FundedPaymentsCloseTheLoan(s1, acc, id, now, rounds - 1);
      } else {
        assert FundedRounds(acc, id, emi, now, 0) == [] by { NoFunds(acc, id, emi, now); }
        RunOfNone(s1);
      }
    }
  }

  lemma NoFunds(acc: AccNo, id: LoanId, emi: int, now: Time)
    ensures FundedRounds(acc, id, emi, now, 0) == []
  {
  }
}
