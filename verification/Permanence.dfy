/** An account that can no longer transact never can again, and from then on no
    deposit, withdrawal, transfer, interest or loan touches its balance. */
module Permanence {
  import opened Domain
  import opened Ledger
  import opened BankSpec
  import opened LedgerReplay
  import Emi

  /** Frozen or deleted accounts are inactive. */
  ghost predicate FlagsOk(s: Store) {
    forall a :: a in s.ledger.accounts ==>
      (s.ledger.accounts[a].frozen || s.ledger.accounts[a].deleted ==> !s.ledger.accounts[a].active)
  }

  predicate Barred(s: Store, acc: AccNo) {
    acc in s.ledger.accounts && !s.ledger.accounts[acc].CanTransact()
  }

  /** Contributions to and refunds from savings goals check no status. */
  predicate SavingsOnly(e: Entry) {
    e.Refunded? || (e.row.kind == TRANSFER_OUT && e.row.memo.ForGoal?)
  }

  predicate AllSavings(es: seq<Entry>, acc: AccNo) {
    forall i :: 0 <= i < |es| && (if es[i].Booked? then es[i].row.acc else es[i].acc) == acc ==> SavingsOnly(es[i])
  }

  lemma StepKeepsFlags(s: Store, c: Call)
    requires FlagsOk(s)
    ensures FlagsOk(Step(s, c).0)
  {
    hide Emi.CalculateEmi, Emi.RoundPaise;
  }

  lemma StepKeepsBarred(s: Store, c: Call, acc: AccNo)
    requires FlagsOk(s) && Barred(s, acc)
    ensures Barred(Step(s, c).0, acc) && AllSavings(Entries(s, c), acc)
  {
    hide Emi.CalculateEmi, Emi.RoundPaise;
  }

  /** `can_transact` is only ever lost to a close, a freeze or a delete of that account. */
  lemma OnlyTheseBar(s: Store, c: Call, acc: AccNo)
    requires acc in s.ledger.accounts && s.ledger.accounts[acc].CanTransact()
    ensures Barred(Step(s, c).0, acc) <==>
              (Live(s.ledger.accounts, acc).Some?
               && ((c.Close? && c.acc == acc && c.passwordOk) || (c.Freeze? && c.acc == acc) || (c.Delete? && c.acc == acc)))
  {
    hide Emi.CalculateEmi, Emi.RoundPaise;
  }

  lemma {:induction false} RunKeepsFlags(s: Store, calls: seq<Call>)
    requires FlagsOk(s)
    ensures FlagsOk(Run(s, calls))
    decreases |calls|
  {
    hide Step, FlagsOk;
    if calls != [] {
      StepKeepsFlags(s, calls[0]);
      RunKeepsFlags(Step(s, calls[0]).0, calls[1..]);
    }
  }

  /** Whatever is called afterwards -- unfreezing included -- the account stays barred,
      and its balance moves only by savings-goal entries. */
  lemma {:induction false} BarredForGood(s: Store, calls: seq<Call>, acc: AccNo)
    requires FlagsOk(s) && Barred(s, acc)
    ensures Barred(Run(s, calls), acc)
    ensures AllSavings(Trace(s, calls), acc)
    ensures BalanceAt(Run(s, calls).ledger, acc) == BalanceAt(s.ledger, acc) + Net(Trace(s, calls), acc)
    decreases |calls|
  {
    LogReplaysBalances(s, calls);
    hide Step, FlagsOk, Entries, Barred, Net, BalanceAt;
    if calls != [] {
      StepKeepsFlags(s, calls[0]);
      StepKeepsBarred(s, calls[0], acc);
      BarredForGood(Step(s, calls[0]).0, calls[1..], acc);
    }
  }

  /** When a call moves a barred account's balance: exactly when it is a contribution the
      account can pay for, or the deletion of a goal with something in it, by that account
      while it is not deleted. */
  predicate MovesSavings(s: Store, c: Call, acc: AccNo)
    requires acc in s.ledger.accounts
  {
    && !s.ledger.accounts[acc].deleted
    && ((c.Contribute? && c.acc == acc && 0 < c.amount <= s.ledger.accounts[acc].balance && c.goal in s.goals)
        || (c.DeleteGoal? && c.acc == acc && c.goal in s.goals && s.goals[c.goal].current > 0))
  }

  lemma BarredBalanceMovesExactlyWhen(s: Store, c: Call, acc: AccNo)
    requires FlagsOk(s) && Barred(s, acc)
    ensures BalanceAt(Step(s, c).0.ledger, acc) != BalanceAt(s.ledger, acc) <==> MovesSavings(s, c, acc)
  {
    hide Emi.CalculateEmi, Emi.RoundPaise;
  }

  predicate NoSavingsCalls(calls: seq<Call>, acc: AccNo) {
    forall i :: 0 <= i < |calls| ==> !((calls[i].Contribute? || calls[i].DeleteGoal?) && calls[i].acc == acc)
  }

  /** So without savings calls by the account itself its balance is fixed for ever. */
  lemma {:induction false} BarredBalanceIsFixed(s: Store, calls: seq<Call>, acc: AccNo)
    requires FlagsOk(s) && Barred(s, acc) && NoSavingsCalls(calls, acc)
    ensures BalanceAt(Run(s, calls).ledger, acc) == BalanceAt(s.ledger, acc)
    decreases |calls|
  {
    hide Step, FlagsOk, Entries, Barred, BalanceAt;
    if calls != [] {
      assert !((calls[0].Contribute? || calls[0].DeleteGoal?) && calls[0].acc == acc);
      BarredIsStored(s, acc);
      BarredBalanceMovesExactlyWhen(s, calls[0], acc);
      StepKeepsFlags(s, calls[0]);
      StepKeepsBarred(s, calls[0], acc);
      BarredBalanceIsFixed(Step(s, calls[0]).0, calls[1..], acc);
    }
  }

  lemma BarredIsStored(s: Store, acc: AccNo)
    requires Barred(s, acc)
    ensures acc in s.ledger.accounts
  {
  }

  /** A deleted account's row never changes again. */
  lemma StepKeepsDeleted(s: Store, c: Call, acc: AccNo)
    requires acc in s.ledger.accounts && s.ledger.accounts[acc].deleted
    ensures acc in Step(s, c).0.ledger.accounts && Step(s, c).0.ledger.accounts[acc] == s.ledger.accounts[acc]
  {
    hide Emi.CalculateEmi, Emi.RoundPaise;
  }

  lemma {:induction false} DeletedForGood(s: Store, calls: seq<Call>, acc: AccNo)
    requires acc in s.ledger.accounts && s.ledger.accounts[acc].deleted
    ensures acc in Run(s, calls).ledger.accounts && Run(s, calls).ledger.accounts[acc] == s.ledger.accounts[acc]
    decreases |calls|
  {
    hide Step;
    if calls != [] {
      StepKeepsDeleted(s, calls[0], acc);
      DeletedForGood(Step(s, calls[0]).0, calls[1..], acc);
    }
  }
}
