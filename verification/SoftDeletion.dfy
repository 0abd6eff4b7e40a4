/** A soft deletion that is still pending in a session: queries choose rows by the stored
    flag, so the session's own worker still finds the account. */
module SoftDeletion {
  import opened Domain
  import opened Ledger
  import opened BankSpec
  import opened Session
  import opened ServicePlans

  function Deletion(s: Store, acc: AccNo): Change
    requires acc in s.ledger.accounts
  {
    PutAccount(acc, s.ledger.accounts[acc].(deleted := true, active := false))
  }

  lemma DeletionStruck(s: Store, acc: AccNo)
    requires Live(s.ledger.accounts, acc).Some?
    ensures Serve(Books(s, []), Delete(acc), Before(1)).0 == Books(s, [Deletion(s, acc)])
  {
    ViewOfNothing(s);
    StatusPlans(s, acc, true);
    var plan := [Deletion(s, acc)];
    assert plan[..1] == plan && [] + plan == plan;
    hide View, Changes, Commits, Step, Collides, Flush, MakeAll;
    ServedByPlan(Books(s, []), Delete(acc), Before(1), plan, Ok);
  }

  /** What the session shows then: the account is still found, and inactive. */
  lemma DeletionPends(s: Store, acc: AccNo)
    requires Live(s.ledger.accounts, acc).Some?
    ensures var v := View(s, [Deletion(s, acc)]);
            Live(v.ledger.accounts, acc) == Some(s.ledger.accounts[acc].(active := false)) && v.goals == s.goals
  {
    MakePlan(s, [Deletion(s, acc)]);
    hide MakeAll;
  }

  /** What the account becomes when the deletion and one more change of it are committed. */
  lemma Deleted(s: Store, acc: AccNo, between: seq<Change>, a: Account)
    requires acc in s.ledger.accounts && (between == [] || (|between| == 1 && between[0].DropGoal?))
    ensures var cs := [Deletion(s, acc)] + between + [PutAccount(acc, a)];
            !Collides(s, cs) && Flush(s, cs).ledger.accounts == s.ledger.accounts[acc := a.(deleted := true)]
  {
    var put, last := Deletion(s, acc), PutAccount(acc, a);
    var cs := [put] + between + [last];
    NothingAddedNothingTaken(s, cs);
    MakePlan(s, cs);
    assert between == [] ==> cs == [put, last];
    assert between != [] ==> cs == [put, between[0], last];
    hide MakeAll, Collides, Dropped;
  }

  lemma DeletionRepeated(s: Store, acc: AccNo)
    requires Live(s.ledger.accounts, acc).Some?
    ensures var (b, answer) := Serve(Books(s, [Deletion(s, acc)]), Delete(acc), NoFault);
            answer == Ok && acc in b.committed.ledger.accounts && b.committed.ledger.accounts[acc].deleted
  {
    var put := Deletion(s, acc);
    DeletionPends(s, acc);
    StatusPlans(View(s, [put]), acc, true);
    Deleted(s, acc, [], put.account);
    assert [put] + [] + [put] == [put] + [put];
    hide MakeAll, Collides, View, Serve, Plans, Refuses, Flush;
    ServedWhole(Books(s, [put]), Delete(acc), [put], Ok);
  }

  lemma RefundPlan(v: Store, acc: AccNo, id: GoalId, a: Account)
    requires Live(v.ledger.accounts, acc) == Some(a) && id in v.goals && v.goals[id].current > 0
    ensures Rejected(DeleteGoal(acc, id)).None?
    ensures Plans(v, DeleteGoal(acc, id), [DropGoal(id), PutAccount(acc, a.(balance := a.balance + v.goals[id].current))], Ok)
  {
    DeleteGoalPlan(v, acc, id);
    hide Plans, Refuses;
  }

  lemma RefundedWhileDeletionPends(s: Store, acc: AccNo, id: GoalId)
    requires Live(s.ledger.accounts, acc).Some? && id in s.goals && s.goals[id].current > 0
    ensures var (b, answer) := Serve(Books(s, [Deletion(s, acc)]), DeleteGoal(acc, id), NoFault);
            && answer == Ok && acc in b.committed.ledger.accounts
            && b.committed.ledger.accounts[acc].balance == s.ledger.accounts[acc].balance + s.goals[id].current
            && b.committed.ledger.accounts[acc].deleted
  {
    hide MakeAll, Collides, View, Serve, Plans, Flush, Rejected;
    var put, drop := Deletion(s, acc), DropGoal(id);
    var a := s.ledger.accounts[acc].(active := false);
    var refunded := a.(balance := a.balance + s.goals[id].current);
    DeletionPends(s, acc);
    RefundPlan(View(s, [put]), acc, id, a);
    Deleted(s, acc, [drop], refunded);
    assert [put] + [drop] + [PutAccount(acc, refunded)] == [put] + [drop, PutAccount(acc, refunded)];
    ServedWhole(Books(s, [put]), DeleteGoal(acc, id), [drop, PutAccount(acc, refunded)], Ok);
  }

  /** A deletion that raises before its commit hides nothing from its own worker: repeated
      there it goes through, and a goal deleted there is still refunded to the account. */
  lemma PendingDeletionIsNotSeen(s: Store, acc: AccNo, id: GoalId)
    requires Live(s.ledger.accounts, acc).Some?
    ensures var b := Serve(Books(s, []), Delete(acc), Before(1)).0;
            var (deleted, again) := Serve(b, Delete(acc), NoFault);
            && b.committed == s && again == Ok
            && acc in deleted.committed.ledger.accounts && deleted.committed.ledger.accounts[acc].deleted
            && (id in s.goals && s.goals[id].current > 0 ==>
                  var (refunded, answer) := Serve(b, DeleteGoal(acc, id), NoFault);
                  && answer == Ok && acc in refunded.committed.ledger.accounts
                  && refunded.committed.ledger.accounts[acc].balance == s.ledger.accounts[acc].balance + s.goals[id].current)
  {
    hide Serve, View;
    DeletionStruck(s, acc);
    DeletionRepeated(s, acc);
    if id in s.goals && s.goals[id].current > 0 {
      RefundedWhileDeletionPends(s, acc, id);
    }
  }
}
