/** The database session of one worker, which outlives the requests it serves: what a
    service call writes, statement by statement, what becomes of those writes when an
    exception strikes, and what the next commit publishes.

    The session does not flush on its own. A query chooses among the rows as they are
    stored and shows them as the session has changed them: it shows neither rows the
    session has added nor deletions it has asked for, and it still finds an account whose
    soft deletion is pending. All of that happens when the session commits. */
module Session {
  import opened Domain
  import opened Ledger
  import opened BankSpec
  import Emi

  datatype Change =
    | PutAccount(acc: AccNo, account: Account)
    | AddAccount(acc: AccNo, account: Account)
    | AddRow(row: Row)
    | PutLoan(loan: LoanId, terms: Loan)
    | AddLoan(loan: LoanId, terms: Loan)
    | PutGoal(goal: GoalId, savings: Goal)
    | AddGoal(goal: GoalId, savings: Goal)
    | DropGoal(goal: GoalId)

  /** The committed store, and the changes its session has not written yet. */
  datatype Books = Books(committed: Store, pending: seq<Change>)

  /** Where an exception strikes: in the lookup of the idempotency key, before the n-th
      write of the call (before the commit, when there are n), or in the commit itself. */
  datatype Fault = NoFault | InLookup | Before(n: nat) | InCommit

  /** One change. Writing an account never lifts a soft deletion, because the entity that
      is written carries it along; adding a row that exists already is for the commit to
      refuse. */
  function Make(s: Store, c: Change): Store {
    match c
    case PutAccount(acc, a) =>
      SetAccount(s, acc, if acc in s.ledger.accounts && s.ledger.accounts[acc].deleted then a.(deleted := true) else a)
    case AddAccount(acc, a) => if acc in s.ledger.accounts then s else SetAccount(s, acc, a)
    case AddRow(row) => s.(ledger := s.ledger.(log := s.ledger.log + [row]))
    case PutLoan(id, loan) => s.(loans := s.loans[id := loan])
    case AddLoan(id, loan) => if id in s.loans then s else s.(loans := s.loans[id := loan])
    case PutGoal(id, goal) => s.(goals := s.goals[id := goal])
    case AddGoal(id, goal) => if id in s.goals then s else s.(goals := s.goals[id := goal])
    case DropGoal(_) => s
  }

  function MakeAll(s: Store, cs: seq<Change>): Store {
    if cs == [] then s else Make(MakeAll(s, cs[..|cs| - 1]), cs[|cs| - 1])
  }

  function Dropped(cs: seq<Change>): set<GoalId> {
    set c | c in cs && c.DropGoal? :: c.goal
  }

  /** What a commit makes of the store: additions and changes first, deletions last. */
  function Flush(s: Store, cs: seq<Change>): Store {
    var t := MakeAll(s, cs);
    t.(goals := t.goals - Dropped(cs))
  }

  function Among<K, V>(m: map<K, V>, keys: set<K>): map<K, V> {
    map k | k in m && k in keys :: m[k]
  }

  /** The stored accounts as changed, found or not found by their stored deletion flag. */
  function Found(stored: map<AccNo, Account>, changed: map<AccNo, Account>): map<AccNo, Account> {
    map a | a in changed && a in stored :: changed[a].(deleted := stored[a].deleted)
  }

  /** What queries show: the stored rows, as the session has changed them. (No service
      reads the log, so its rows need no restriction.) */
  function View(s: Store, cs: seq<Change>): Store {
    var t := MakeAll(s, cs);
    Store(Ledger(Found(s.ledger.accounts, t.ledger.accounts), t.ledger.log),
          Among(t.loans, s.loans.Keys), Among(t.goals, s.goals.Keys), t.records)
  }

  /** What a call refuses before it touches the database. */
  function Rejected(c: Call): Option<Reason> {
    match c
    case Money(op, _, _) => Screen(op)
    case CreateGoal(_, _, nameLength, target) =>
      if nameLength < 2 then Some(BadName) else if target <= 0 then Some(NotPositive) else None
    case Contribute(_, _, amount) => if amount <= 0 then Some(NotPositive) else None
    case _ => None
  }

  /** Whether a call, seeing v, gets as far as its commit. */
  predicate Commits(v: Store, c: Call) {
    Rejected(c).None?
    && match c
       case Money(op, key, _) => !(key.Some? && key.value in v.records) && !Exec(v.ledger, op).1.Refused?
       case Register(_) => true
       case CreateGoal(_, _, _, _) => true
       case ApplyLoan(_, acc, product, principal, rate, tenure) => Screening(v, acc, product, principal, rate, tenure).None?
       case _ => !Step(v, c).1.Refused?
  }

  /** The writes of a call that sees v, in program order. */
  function Changes(v: Store, c: Call): seq<Change>
    requires Commits(v, c)
  {
    var s', n := Step(v, c).0, |v.ledger.log|;
    match c
    case Register(acc) => [AddAccount(acc, Account(0, true, false, false))]
    case Money(op, _, _) =>
      (match op
       case Deposit(a, _) => [PutAccount(a, s'.ledger.accounts[a]), AddRow(s'.ledger.log[n])]
       case Withdraw(a, _) => [PutAccount(a, s'.ledger.accounts[a]), AddRow(s'.ledger.log[n])]
       case Transfer(a, b, _) =>
         [PutAccount(a, s'.ledger.accounts[a]), PutAccount(b, s'.ledger.accounts[b]),
          AddRow(s'.ledger.log[n]), AddRow(s'.ledger.log[n + 1])])
    case Interest(acc) => [PutAccount(acc, s'.ledger.accounts[acc]), AddRow(s'.ledger.log[n])]
    case ApplyLoan(id, acc, _, principal, rate, tenure) =>
      [AddLoan(id, Loan(acc, principal, rate, tenure, Emi.CalculateEmi(principal, rate, tenure), 0, principal, PENDING, None, None))]
    case ApproveLoan(id, _) =>
      var acc := v.loans[id].acc;
      [PutLoan(id, s'.loans[id]), PutAccount(acc, s'.ledger.accounts[acc]), AddRow(s'.ledger.log[n])]
    case RejectLoan(id) => [PutLoan(id, s'.loans[id])]
    case PayEmi(acc, id, _, _) =>
      [PutAccount(acc, s'.ledger.accounts[acc]), PutLoan(id, s'.loans[id]), AddRow(s'.ledger.log[n])]
    case CreateGoal(id, acc, _, target) => [AddGoal(id, Goal(acc, target, 0, false))]
    case Contribute(acc, id, _) =>
      [PutAccount(acc, s'.ledger.accounts[acc]), AddRow(s'.ledger.log[n]), PutGoal(id, s'.goals[id])]
    case DeleteGoal(acc, id) =>
      if v.goals[id].current > 0 && Live(v.ledger.accounts, acc).Some?
      then [DropGoal(id), PutAccount(acc, s'.ledger.accounts[acc])]
      else [DropGoal(id)]
    case Close(acc, _) => [PutAccount(acc, s'.ledger.accounts[acc])]
    case Freeze(acc) =>
      [PutAccount(acc, v.ledger.accounts[acc].(frozen := true)), PutAccount(acc, s'.ledger.accounts[acc])]
    case Unfreeze(acc) => [PutAccount(acc, s'.ledger.accounts[acc])]
    case Delete(acc) => [PutAccount(acc, s'.ledger.accounts[acc])]
  }

  /** A new row whose key is already taken, or a goal for an account that does not exist. */
  predicate Taken(t: Store, c: Change) {
    match c
    case AddAccount(acc, _) => acc in t.ledger.accounts
    case AddLoan(id, _) => id in t.loans
    case AddGoal(id, goal) => id in t.goals || goal.acc !in t.ledger.accounts
    case _ => false
  }

  /** The database would refuse to write these changes. */
  predicate Collides(s: Store, cs: seq<Change>) {
    cs != [] && (Collides(s, cs[..|cs| - 1]) || Taken(MakeAll(s, cs[..|cs| - 1]), cs[|cs| - 1]))
  }

  /** The call would add such a row. */
  predicate Clashes(t: Store, c: Call) {
    match c
    case Register(acc) => acc in t.ledger.accounts
    case ApplyLoan(id, _, _, _, _, _) => id in t.loans
    case CreateGoal(id, acc, _, _) => id in t.goals || acc !in t.ledger.accounts
    case _ => false
  }

  predicate IsTransfer(c: Call) {
    c.Money? && c.op.Transfer?
  }

  /** How a call ends: without writing; raised, with some of its writes left in the
      session; with the session rolled back; or with everything committed. */
  datatype Outcome =
    | Answers(response: Response)
    | Raises(staged: seq<Change>)
    | RollsBack
    | Publishes(plan: seq<Change>, answer: Response)

  function Failed(c: Call, staged: seq<Change>): Outcome {
    if IsTransfer(c) then RollsBack else Raises(staged)
  }

  function OutcomeOf(b: Books, c: Call, f: Fault): Outcome {
    var v := View(b.committed, b.pending);
    if Rejected(c).Some? then Answers(Refused(Rejected(c).value))
    else if c.Money? && c.key.Some? && f.InLookup? then Raises([])
    else if c.Money? && c.key.Some? && c.key.value in b.committed.records
    then Answers(Cached(c.op, b.committed.records[c.key.value]))
    else if f == Before(0) then Failed(c, [])
    else if !Commits(v, c) then Answers(Step(v, c).1)
    else
      var plan := Changes(v, c);
      if f.Before? && f.n <= |plan| then Failed(c, plan[..f.n])
      else if f.InCommit? || Collides(b.committed, b.pending + plan) then RollsBack
      else Publishes(plan, if c.CreateGoal? then Ok else Step(v, c).1)
  }

  function Recorded(s: Store, c: Call, answer: Response): Store {
    if c.Money? && c.key.Some? && c.persisted then s.(records := s.records[c.key.value := answer]) else s
  }

  /** One call on a worker's session, whatever earlier calls have left in it. */
  function Serve(b: Books, c: Call, f: Fault): (Books, Response) {
    match OutcomeOf(b, c, f)
    case Answers(r) => (b, r)
    case Raises(staged) => (Books(b.committed, b.pending + staged), Raised)
    case RollsBack => (Books(b.committed, []), if IsTransfer(c) then Refused(DatabaseError) else Raised)
    case Publishes(plan, answer) => (Books(Recorded(Flush(b.committed, b.pending + plan), c, answer), []), answer)
  }

  // ---- the plain meaning, when nothing is left over ----------------------------

  lemma {:induction false} MakeConcat(s: Store, first: seq<Change>, second: seq<Change>)
    ensures MakeAll(s, first + second) == MakeAll(MakeAll(s, first), second)
    decreases |second|
  {
    if second == [] {
      assert first + second == first;
    } else {
      assert (first + second)[..|first + second| - 1] == first + second[..|second| - 1];
      MakeConcat(s, first, second[..|second| - 1]);
    }
  }

  lemma MakeShort(s: Store, a: Change, b: Change, c: Change, d: Change)
    ensures MakeAll(s, []) == s
    ensures MakeAll(s, [a]) == Make(s, a)
    ensures MakeAll(s, [a, b]) == Make(Make(s, a), b)
    ensures MakeAll(s, [a, b, c]) == Make(Make(Make(s, a), b), c)
    ensures MakeAll(s, [a, b, c, d]) == Make(Make(Make(Make(s, a), b), c), d)
  {
    hide Make;
    assert [a][..0] == [] && [a, b][..1] == [a] && [a, b, c][..2] == [a, b] && [a, b, c, d][..3] == [a, b, c];
    assert MakeAll(s, [a]) == Make(MakeAll(s, []), a);
    assert MakeAll(s, [a, b]) == Make(MakeAll(s, [a]), b);
    assert MakeAll(s, [a, b, c]) == Make(MakeAll(s, [a, b]), c);
  }

  lemma ViewOfNothing(s: Store)
    ensures View(s, []) == s && MakeAll(s, []) == s && Flush(s, []) == s
  {
  }

  /** The element of a plan, or any change beyond its end. */
  function At(cs: seq<Change>, i: nat): Change {
    if i < |cs| then cs[i] else DropGoal(0)
  }

  lemma MakePlan(s: Store, cs: seq<Change>)
    requires |cs| <= 4
    ensures MakeAll(s, cs) ==
              if |cs| == 0 then s
              else if |cs| == 1 then Make(s, cs[0])
              else if |cs| == 2 then Make(Make(s, cs[0]), cs[1])
              else if |cs| == 3 then Make(Make(Make(s, cs[0]), cs[1]), cs[2])
              else Make(Make(Make(Make(s, cs[0]), cs[1]), cs[2]), cs[3])
  {
    hide Make;
    MakeShort(s, At(cs, 0), At(cs, 1), At(cs, 2), At(cs, 3));
    if |cs| == 0 {
      assert cs == [];
    } else if |cs| == 1 {
      assert cs == [cs[0]];
    } else if |cs| == 2 {
      assert cs == [cs[0], cs[1]];
    } else if |cs| == 3 {
      assert cs == [cs[0], cs[1], cs[2]];
    } else {
      assert cs == [cs[0], cs[1], cs[2], cs[3]];
    }
  }

  predicate PlanFits(s: Store, c: Call)
    requires Commits(s, c)
  {
    var plan := Changes(s, c);
    && |plan| <= 4
    && Recorded(Flush(s, plan), c, Step(s, c).1) == Step(s, c).0
    && !Step(s, c).1.Refused? && (c.CreateGoal? ==> Step(s, c).1 == Ok)
  }

  lemma TransferChanges(s: Store, c: Call)
    requires Commits(s, c) && IsTransfer(c)
    ensures PlanFits(s, c)
  {
    var plan, n := Changes(s, c), |s.ledger.log|;
    hide MakeAll, Guard, Screen;
    MakePlan(s, plan);
    assert Dropped(plan) == {};
    var l' := Step(s, c).0.ledger;
    assert l'.log == s.ledger.log + [l'.log[n]] + [l'.log[n + 1]];
    assert l'.accounts == s.ledger.accounts[c.op.sender := l'.accounts[c.op.sender]][c.op.receiver := l'.accounts[c.op.receiver]];
  }

  lemma OwnMoneyChanges(s: Store, c: Call)
    requires Commits(s, c) && c.Money? && !IsTransfer(c)
    ensures PlanFits(s, c)
  {
    hide MakeAll, Guard, Screen;
    MakePlan(s, Changes(s, c));
    assert Dropped(Changes(s, c)) == {};
  }

  lemma LoanChanges(s: Store, c: Call)
    requires Commits(s, c) && !Clashes(s, c) && (c.Interest? || c.ApplyLoan? || c.ApproveLoan? || c.RejectLoan? || c.PayEmi?)
    ensures PlanFits(s, c)
  {
    hide Emi.CalculateEmi, Emi.RoundPaise, MakeAll, Screening, EmiRefusal;
    if c.PayEmi? {
      AcceptedPayer(s, c.acc, c.loan, c.instalment);
    }
    MakePlan(s, Changes(s, c));
    assert Dropped(Changes(s, c)) == {};
  }

  lemma GoalChanges(s: Store, c: Call)
    requires Commits(s, c) && !Clashes(s, c) && (c.CreateGoal? || c.Contribute? || c.DeleteGoal?)
    ensures PlanFits(s, c)
  {
    hide MakeAll;
    var plan := Changes(s, c);
    MakePlan(s, plan);
    if c.DeleteGoal? {
      assert DropGoal(c.goal) == plan[0];
      assert Dropped(plan) == {c.goal};
    } else {
      assert Dropped(plan) == {};
    }
  }

  lemma AccountChanges(s: Store, c: Call)
    requires Commits(s, c) && !Clashes(s, c) && (c.Register? || c.Close? || c.Freeze? || c.Unfreeze? || c.Delete?)
    ensures PlanFits(s, c)
  {
    hide MakeAll;
    MakePlan(s, Changes(s, c));
    assert Dropped(Changes(s, c)) == {};
  }

  /** A call's writes, made one after another, are the call's whole effect. */
  lemma ChangesAreStep(s: Store, c: Call)
    requires Commits(s, c) && !Clashes(s, c)
    ensures PlanFits(s, c)
  {
    hide PlanFits, Changes, Commits, Clashes;
    if IsTransfer(c) {
      TransferChanges(s, c);
    } else if c.Money? {
      OwnMoneyChanges(s, c);
    } else if c.CreateGoal? || c.Contribute? || c.DeleteGoal? {
      GoalChanges(s, c);
    } else if c.Register? || c.Close? || c.Freeze? || c.Unfreeze? || c.Delete? {
      AccountChanges(s, c);
    } else {
      LoanChanges(s, c);
    }
  }

  /** What a call that gets nowhere, or clashes, means on its own. */
  lemma NoCommitNoStep(s: Store, c: Call)
    ensures Rejected(c).Some? ==> Step(s, c) == (s, Refused(Rejected(c).value))
    ensures Rejected(c).None? && c.Money? && c.key.Some? && c.key.value in s.records ==>
              Step(s, c) == (s, Cached(c.op, s.records[c.key.value]))
    ensures !Commits(s, c) ==> Step(s, c).0 == s
    ensures Commits(s, c) && Clashes(s, c) ==> Step(s, c) == (s, Raised)
  {
    hide Emi.CalculateEmi, Emi.RoundPaise, Guard, EmiRefusal, Screening;
    if c.Money? && Screen(c.op).None? {
      hide Post;
    }
  }

  lemma {:induction false} CollidesConcat(s: Store, first: seq<Change>, second: seq<Change>)
    ensures Collides(s, first + second) <==> Collides(s, first) || Collides(MakeAll(s, first), second)
    decreases |second|
  {
    if second == [] {
      assert first + second == first;
    } else {
      var front := second[..|second| - 1];
      assert (first + second)[..|first + second| - 1] == first + front;
      CollidesConcat(s, first, front);
      MakeConcat(s, first, front);
    }
  }

  predicate AddsRow(c: Change) {
    c.AddAccount? || c.AddLoan? || c.AddGoal?
  }

  lemma {:induction false} NothingAddedNothingTaken(t: Store, cs: seq<Change>)
    requires forall i :: 0 <= i < |cs| ==> !AddsRow(cs[i])
    ensures !Collides(t, cs)
    decreases |cs|
  {
    if cs != [] {
      NothingAddedNothingTaken(t, cs[..|cs| - 1]);
    }
  }

  /** A call's writes are refused exactly when it adds a row that clashes, once it has added it. */
  lemma PlanCollides(v: Store, t: Store, c: Call, n: nat)
    requires Commits(v, c) && 1 <= n <= |Changes(v, c)|
    ensures Collides(t, Changes(v, c)[..n]) <==> Clashes(t, c)
  {
    var plan := Changes(v, c);
    if c.Register? || c.ApplyLoan? || c.CreateGoal? {
      assert plan[..n] == plan && plan[..0] == [];
      assert MakeAll(t, plan[..0]) == t && !Collides(t, plan[..0]);
    } else {
      PlanAddsNothing(v, c);
      NothingAddedNothingTaken(t, plan[..n]);
    }
  }

  lemma PlanAddsNothing(v: Store, c: Call)
    requires Commits(v, c) && !c.Register? && !c.ApplyLoan? && !c.CreateGoal?
    ensures forall i :: 0 <= i < |Changes(v, c)| ==> !AddsRow(Changes(v, c)[i])
  {
    hide Emi.CalculateEmi, Emi.RoundPaise, Guard, EmiRefusal, Screening;
  }

  lemma PlanIsSomething(v: Store, c: Call)
    requires Commits(v, c)
    ensures 1 <= |Changes(v, c)| <= 4
  {
    hide Emi.CalculateEmi, Emi.RoundPaise, Guard, EmiRefusal, Screening, Exec;
  }

  /** Without a fault and with nothing left over, a call on a session is the plain call. */
  lemma FaultFree(s: Store, c: Call)
    ensures Serve(Books(s, []), c, NoFault) == (Books(Step(s, c).0, []), Step(s, c).1)
  {
    hide Step, Changes, Commits, View, Flush, MakeAll, Rejected, Collides;
    ViewOfNothing(s);
    NoCommitNoStep(s, c);
    if Commits(s, c) {
      PlanIsSomething(s, c);
      var plan := Changes(s, c);
      assert plan[..|plan|] == plan && [] + plan == plan;
      PlanCollides(s, s, c, |plan|);
      if !Clashes(s, c) {
        ChangesAreStep(s, c);
      }
    }
  }

  // ---- for the services ---------------------------------------------------------

  lemma {:induction false} ViewKeepsRecords(s: Store, cs: seq<Change>)
    ensures MakeAll(s, cs).records == s.records && View(s, cs).records == s.records
    decreases |cs|
  {
    if cs != [] {
      ViewKeepsRecords(s, cs[..|cs| - 1]);
    }
  }

  /** A deletion is not seen before the commit; a changed account is. */
  lemma ViewAfter(s: Store, cs: seq<Change>, c: Change)
    ensures c.DropGoal? ==> View(s, cs + [c]) == View(s, cs)
    ensures c.PutAccount? && c.acc in View(s, cs).ledger.accounts
            && c.account.deleted == View(s, cs).ledger.accounts[c.acc].deleted ==>
              View(s, cs + [c]) == SetAccount(View(s, cs), c.acc, c.account)
  {
    assert (cs + [c])[..|cs|] == cs;
    if c.PutAccount? && c.acc in View(s, cs).ledger.accounts && c.account.deleted == View(s, cs).ledger.accounts[c.acc].deleted {
      assert View(s, cs + [c]).ledger.accounts == View(s, cs).ledger.accounts[c.acc := c.account];
    }
  }

  /** A call's plan, cut off and put behind what is pending. */
  lemma Behind(pending: seq<Change>, a: Change, b: Change, c: Change, d: Change)
    ensures pending + [] == pending
    ensures pending + [a][..1] == pending + [a] && [a][..0] == []
    ensures pending + [a, b][..1] == pending + [a] && [a, b][..0] == []
    ensures pending + [a, b][..2] == pending + [a] + [b] == pending + [a, b]
    ensures pending + [a, b, c][..1] == pending + [a] && [a, b, c][..0] == []
    ensures pending + [a, b, c][..2] == pending + [a] + [b]
    ensures pending + [a, b, c][..3] == pending + [a] + [b] + [c] == pending + [a, b, c]
    ensures pending + [a] + [b] + [c] + [d] == pending + [a, b, c, d]
  {
    assert [a, b, c][..2] == [a, b] && [a, b, c][..3] == [a, b, c] && [a, b][..2] == [a, b];
    assert [a, b][..1] == [a] && [a, b, c][..1] == [a] && [a][..1] == [a];
  }
}
