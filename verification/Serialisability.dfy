/** Every run of the step machine is equivalent to running its operations one at
    a time, in the order in which they took effect. */
module Serialisability {
  import opened Domain
  import opened Ledger
  import opened Concurrent

  /** The operations of a history, run one after another. */
  function Replay(l: Ledger, h: seq<Event>): Ledger
    decreases |h|
  {
    if h == [] then l else Exec(Replay(l, h[..|h| - 1]), h[|h| - 1].op).0
  }

  /** Each recorded answer is the one the operation gives when run alone at its place. */
  predicate Agrees(l: Ledger, h: seq<Event>)
    decreases |h|
  {
    h == [] ||
    (var before := h[..|h| - 1];
     && Agrees(l, before)
     && Exec(Replay(l, before), h[|h| - 1].op).1 == h[|h| - 1].response)
  }

  predicate Unrecorded(s: State, t: nat) {
    forall i :: 0 <= i < |s.history| ==> s.history[i].tid != t
  }

  predicate Recorded(s: State, t: nat, r: Response)
    requires t < |s.threads|
  {
    exists i :: 0 <= i < |s.history| && s.history[i] == Event(t, s.threads[t].op, r)
  }

  /** An answer given to the caller: failures took no effect, everything else did exactly once. */
  predicate Noted(s: State, t: nat, r: Response)
    requires t < |s.threads|
  {
    if IsFailure(r) then Unrecorded(s, t) else Recorded(s, t, r)
  }

  /** The shape of a thread, whatever its session shows. */
  predicate ThreadOk(s: State, t: nat)
    requires t < |s.threads|
  {
    var th := s.threads[t];
    match th.phase
    case Start => th.read == [] && th.pending == [] && Unrecorded(s, t)
    case Acquire(next) =>
      && Screen(th.op).None? && next < |Locks(th.op)|
      && th.read == [] && th.pending == [] && Unrecorded(s, t)
    case Read => Screen(th.op).None? && |th.read| < |Parties(th.op)| && th.pending == [] && Unrecorded(s, t)
    case Decide => Screen(th.op).None? && |th.read| == |Parties(th.op)| && th.pending == [] && Unrecorded(s, t)
    case Stage =>
      && Screen(th.op).None? && |th.read| == |Parties(th.op)| && Guard(th.op, th.read).None?
      && |th.pending| <= |WriteSet(th.op, th.read)| && th.pending == WriteSet(th.op, th.read)[..|th.pending|]
      && Unrecorded(s, t)
    case Release(freed, answer) => Screen(th.op).None? && freed < |Locks(th.op)| && Noted(s, t, answer)
    case Rollback(outcome) => Noted(s, t, outcome)
    case Finished(result) => Noted(s, t, result)
    case Killed => true
  }

  /** A lock is taken exactly when the thread it names holds it. */
  predicate LocksOk(s: State) {
    && (forall a :: a in s.locks ==> s.locks[a] < |s.threads| && a in Held(s.threads[s.locks[a]]))
    && (forall t, a :: 0 <= t < |s.threads| && a in Held(s.threads[t]) ==> a in s.locks && s.locks[a] == t)
  }

  predicate HistoryOk(s: State) {
    && (forall i :: 0 <= i < |s.history| ==>
          s.history[i].tid < |s.threads| && s.history[i].op == s.threads[s.history[i].tid].op
          && !IsFailure(s.history[i].response))
    && (forall i, j :: 0 <= i < j < |s.history| ==> s.history[i].tid != s.history[j].tid)
  }

  predicate ThreadsOk(s: State) {
    forall t :: 0 <= t < |s.threads| ==> ThreadOk(s, t)
  }

  /** While a thread is unfinished, the later threads of its worker have not started. */
  predicate InOrder(s: State) {
    forall u, t :: 0 <= u < t < |s.threads| && s.threads[u].worker == s.threads[t].worker && s.threads[u].Unfinished()
      ==> s.threads[t].phase.Start?
  }

  /** What holds in every run, whatever goes wrong in it. */
  predicate Shape(s: State) {
    LocksOk(s) && HistoryOk(s) && ThreadsOk(s) && InOrder(s)
  }

  predicate InCriticalSection(th: Thread) {
    th.phase.Read? || th.phase.Decide? || th.phase.Stage?
  }

  /** What a thread has read is still what its session shows. */
  predicate Fresh(s: State, t: nat)
    requires t < |s.threads|
  {
    var th := s.threads[t];
    InCriticalSection(th) ==>
      && |th.read| <= |Parties(th.op)|
      && th.read == Lookup(View(s, th.worker), th.op)[..|th.read|]
  }

  predicate AllFresh(s: State) {
    forall t :: 0 <= t < |s.threads| ==> Fresh(s, t)
  }

  /** The store and the answers are those of the history run one operation at a time. */
  predicate Serial(l: Ledger, s: State) {
    Agrees(l, s.history) && s.ledger == Replay(l, s.history)
  }

  predicate Inv(l: Ledger, s: State) {
    Shape(s) && AllFresh(s) && Serial(l, s)
  }

  lemma LocksCoverParties(op: Op, a: AccNo)
    ensures a in Locks(op) <==> a in Parties(op)
  {
  }

  lemma LocksAscend(op: Op)
    requires Screen(op).None?
    ensures forall i, j :: 0 <= i < j < |Locks(op)| ==> Locks(op)[i] < Locks(op)[j]
  {
  }

  lemma PartiesAndLookup(l: Ledger, op: Op)
    ensures 0 < |Parties(op)| == |Lookup(l, op)|
    ensures Lookup(l, op)[..0] == []
    ensures forall i :: 0 <= i < |Parties(op)| ==> Lookup(l, op)[i] == Live(l.accounts, Parties(op)[i])
    ensures forall n :: 0 <= n < |Parties(op)| ==> Lookup(l, op)[..n + 1] == Lookup(l, op)[..n] + [Lookup(l, op)[n]]
    ensures Lookup(l, op)[..|Parties(op)|] == Lookup(l, op)
  {
  }

  /** Two threads in their critical sections never share an account. */
  lemma Exclusive(s: State, t: nat, u: nat)
    requires LocksOk(s) && t < |s.threads| && u < |s.threads| && t != u
    requires Held(s.threads[t]) == Locks(s.threads[t].op) && Held(s.threads[u]) == Locks(s.threads[u].op)
    ensures forall a :: a in Parties(s.threads[t].op) ==> a !in Parties(s.threads[u].op)
  {
    hide Held, Locks, Parties;
    forall a | a in Parties(s.threads[t].op)
      ensures a !in Parties(s.threads[u].op)
    {
      LocksCoverParties(s.threads[t].op, a);
      LocksCoverParties(s.threads[u].op, a);
      assert a in Held(s.threads[t]) && s.locks[a] == t;
      assert a !in Held(s.threads[u]);
    }
  }

  /** Committing the staged writes does to the store what the operation does when run alone. */
  lemma CommitIsExec(l: Ledger, op: Op)
    requires Screen(op).None? && Guard(op, Lookup(l, op)).None?
    ensures (ApplyAll(l, WriteSet(op, Lookup(l, op))), Success(op, Lookup(l, op))) == Exec(l, op)
  {
    var ws := WriteSet(op, Lookup(l, op));
    var l1 := Apply(l, ws[0]);
    var l2 := Apply(l1, ws[1]);
    assert ApplyAll(l, ws) == ApplyAll(l1, ws[1..]);
    assert ws[1..][0] == ws[1] && ws[1..][1..] == ws[2..];
    assert ApplyAll(l1, ws[1..]) == ApplyAll(l2, ws[2..]);
    match op {
      case Deposit(_, _) | Withdraw(_, _) =>
        assert ws[2..] == [];
      case Transfer(s, r, amount) =>
        var l3 := Apply(l2, ws[2]);
        assert ws[2..][0] == ws[2] && ws[2..][1..] == ws[3..];
        assert ws[3..] == [ws[3]];
        assert ApplyAll(l2, ws[2..]) == ApplyAll(l3, [ws[3]]) == Apply(l3, ws[3]);
        var p := Post(l, s, TRANSFER_OUT, amount, Some(r), Plain);
        assert Post(p, r, TRANSFER_IN, amount, Some(s), Plain).log == l.log + [ws[2].row] + [ws[3].row];
    }
  }

  /** Two stores agree on one account. */
  predicate SameAt(l: Ledger, l': Ledger, a: AccNo) {
    (a in l.accounts <==> a in l'.accounts) && (a in l.accounts ==> l.accounts[a] == l'.accounts[a])
  }

  /** What an operation cannot change. */
  lemma ExecFrame(l: Ledger, op: Op, a: AccNo)
    requires a !in Parties(op)
    ensures SameAt(l, Exec(l, op).0, a)
  {
    hide Exec, Guard, Admissible;
    RefusalChangesNothing(l, op);
    ExecMeaning(l, op);
    match op
    case Deposit(b, _) => assert b in Parties(op);
    case Withdraw(b, _) => assert b in Parties(op);
    case Transfer(b, c, _) => assert b in Parties(op) && c in Parties(op);
  }

  /** What a session shows of an account depends on that account alone. */
  lemma {:induction false} ViewFrame(l: Ledger, l': Ledger, ws: seq<Write>, a: AccNo)
    requires SameAt(l, l', a)
    ensures SameAt(ApplyAll(l, ws), ApplyAll(l', ws), a)
    decreases |ws|
  {
    if ws != [] {
      ViewFrame(Apply(l, ws[0]), Apply(l', ws[0]), ws[1..], a);
    }
  }

  /** Unwritten changes alter balances, never which accounts there are or their status. */
  lemma {:induction false} ViewStatus(l: Ledger, ws: seq<Write>)
    ensures ApplyAll(l, ws).accounts.Keys == l.accounts.Keys
    ensures forall a :: a in l.accounts ==>
              ApplyAll(l, ws).accounts[a] == l.accounts[a].(balance := ApplyAll(l, ws).accounts[a].balance)
    decreases |ws|
  {
    if ws != [] {
      var l1 := Apply(l, ws[0]);
      assert l1.accounts.Keys == l.accounts.Keys;
      ViewStatus(l1, ws[1..]);
    }
  }

  lemma LookupFrame(l: Ledger, l': Ledger, op: Op)
    requires forall a :: a in Parties(op) ==> SameAt(l, l', a)
    ensures Lookup(l, op) == Lookup(l', op)
  {
    match op
    case Deposit(b, _) => assert b in Parties(op);
    case Withdraw(b, _) => assert b in Parties(op);
    case Transfer(b, c, _) => assert b in Parties(op) && c in Parties(op);
  }

  /** An operation that goes through can be undone in thought: equal results and equal
      answers come only from equal stores. */
  lemma ExecInjective(l: Ledger, l': Ledger, op: Op)
    requires Exec(l, op) == Exec(l', op) && !Exec(l, op).1.Refused?
    ensures l == l'
  {
    ExecMeaning(l, op);
    ExecMeaning(l', op);
    LogGrows(l, op);
    LogGrows(l', op);
    hide Exec;
    var after := Exec(l, op).0;
    assert l.accounts.Keys == l'.accounts.Keys;
    forall a | a in l.accounts
      ensures l.accounts[a] == l'.accounts[a]
    {
      assert after.accounts[a].balance == l.accounts[a].balance + Share(op, a) == l'.accounts[a].balance + Share(op, a);
    }
    assert l.log == l'.log;
  }

  lemma LogGrows(l: Ledger, op: Op)
    requires !Exec(l, op).1.Refused?
    ensures |Exec(l, op).0.log| == |l.log| + (if op.Transfer? then 2 else 1) && Exec(l, op).0.log[..|l.log|] == l.log
  {
  }

  lemma ScreenedAlone(l: Ledger, op: Op)
    requires Screen(op).Some?
    ensures Exec(l, op) == (l, Refused(Screen(op).value)) && !IsFailure(Exec(l, op).1)
  {
  }

  lemma InitInv(l: Ledger, jobs: seq<Job>)
    ensures Inv(l, Init(l, jobs))
  {
  }

  // ---- the shape, kept by every move ---------------------------------------

  predicate OnlyThread(s: State, s': State, t: nat) {
    && t < |s.threads| == |s'.threads|
    && (forall u :: 0 <= u < |s.threads| && u != t ==> s'.threads[u] == s.threads[u])
    && s'.threads[t].op == s.threads[t].op && s'.threads[t].worker == s.threads[t].worker
  }

  lemma LocksKept(s: State, s': State, t: nat)
    requires LocksOk(s) && OnlyThread(s, s', t)
    requires s'.locks == s.locks && Held(s'.threads[t]) == Held(s.threads[t])
    ensures LocksOk(s')
  {
    hide Held;
    forall u | 0 <= u < |s.threads|
      ensures Held(s'.threads[u]) == Held(s.threads[u])
    {
    }
  }

  lemma LockTaken(s: State, s': State, t: nat, a: AccNo)
    requires LocksOk(s) && OnlyThread(s, s', t)
    requires a !in s.locks && s'.locks == s.locks[a := t] && Held(s'.threads[t]) == Held(s.threads[t]) + [a]
    ensures LocksOk(s')
  {
    hide Held;
    forall u | 0 <= u < |s.threads| && u != t
      ensures Held(s'.threads[u]) == Held(s.threads[u])
    {
    }
  }

  lemma LockGiven(s: State, s': State, t: nat, a: AccNo)
    requires LocksOk(s) && OnlyThread(s, s', t)
    requires s'.locks == s.locks - {a} && Held(s.threads[t]) == [a] + Held(s'.threads[t]) && a !in Held(s'.threads[t])
    ensures LocksOk(s')
  {
    hide Held;
    assert a in Held(s.threads[t]) && s.locks[a] == t;
    forall u | 0 <= u < |s.threads| && u != t
      ensures Held(s'.threads[u]) == Held(s.threads[u])
    {
    }
  }

  lemma LocksLost(s: State, s': State, t: nat, taken: set<AccNo>)
    requires LocksOk(s) && OnlyThread(s, s', t)
    requires s'.locks == s.locks - taken && Held(s'.threads[t]) == []
    requires forall a :: a in taken <==> a in Held(s.threads[t])
    ensures LocksOk(s')
  {
    hide Held;
    forall u, a | 0 <= u < |s'.threads| && a in Held(s'.threads[u])
      ensures a in s'.locks && s'.locks[a] == u
    {
      assert u != t && a in Held(s.threads[u]);
      assert a in s.locks && s.locks[a] == u;
      assert a !in taken;
    }
    forall a | a in s'.locks
      ensures s'.locks[a] < |s'.threads| && a in Held(s'.threads[s'.locks[a]])
    {
      assert s.locks[a] != t;
    }
  }

  lemma OrderKept(s: State, s': State, t: nat)
    requires InOrder(s) && OnlyThread(s, s', t)
    requires s'.threads[t].Unfinished() ==> s.threads[t].Unfinished()
    requires s.threads[t].phase.Start? ==> Turn(s, t)
    ensures InOrder(s')
  {
    forall u, v | 0 <= u < v < |s'.threads| && s'.threads[u].worker == s'.threads[v].worker && s'.threads[u].Unfinished()
      ensures s'.threads[v].phase.Start?
    {
      assert s.threads[u].worker == s.threads[v].worker && s.threads[u].Unfinished();
    }
  }

  /** A move of thread t leaves the shape of every other thread alone. */
  lemma OthersOk(s: State, s': State, t: nat)
    requires ThreadsOk(s) && OnlyThread(s, s', t)
    requires s'.history == s.history || exists r :: s'.history == s.history + [Event(t, s.threads[t].op, r)]
    ensures forall u :: 0 <= u < |s.threads| && u != t ==> ThreadOk(s', u)
  {
    hide Screen, Guard, Locks, Parties, WriteSet;
    forall u | 0 <= u < |s.threads| && u != t
      ensures ThreadOk(s', u)
    {
      assert ThreadOk(s, u);
      assert Unrecorded(s, u) ==> Unrecorded(s', u);
      forall r | Recorded(s, u, r)
        ensures Recorded(s', u, r)
      {
        var i :| 0 <= i < |s.history| && s.history[i] == Event(u, s.threads[u].op, r);
        assert s'.history[i] == Event(u, s'.threads[u].op, r);
      }
    }
  }

  lemma SameNoted(s: State, s': State, t: nat, r: Response)
    requires OnlyThread(s, s', t) && s'.history == s.history && Noted(s, t, r)
    ensures Noted(s', t, r)
  {
    if !IsFailure(r) {
      var i :| 0 <= i < |s.history| && s.history[i] == Event(t, s.threads[t].op, r);
      assert s'.history[i] == Event(t, s'.threads[t].op, r);
    }
  }

  /** Recording one more event keeps the history well formed and answers for t. */
  lemma NoteOk(s: State, t: nat, r: Response, s': State)
    requires HistoryOk(s) && OnlyThread(s, s', t) && Unrecorded(s, t) && !IsFailure(r)
    requires s'.history == Note(s, t, r).history
    ensures HistoryOk(s') && Recorded(s', t, r)
  {
    assert s'.history[|s.history|] == Event(t, s.threads[t].op, r);
  }

  lemma HistoryKept(s: State, s': State, t: nat)
    requires HistoryOk(s) && OnlyThread(s, s', t) && s'.history == s.history
    ensures HistoryOk(s')
  {
  }

  lemma RefusalIsNoFailure(op: Op, read: seq<Option<Account>>)
    requires |read| == |Parties(op)|
    ensures Screen(op).Some? ==> !IsFailure(Refused(Screen(op).value))
    ensures Guard(op, read).Some? ==> !IsFailure(Refused(Guard(op, read).value))
    ensures !IsFailure(Success(op, read))
  {
  }

  lemma AdvanceKeepsShape(s: State, t: nat)
    requires Shape(s) && CanAdvance(s, t)
    ensures Shape(AdvanceThread(s, t)) && OnlyThread(s, AdvanceThread(s, t), t)
  {
    hide AdvanceThread, Shape;
    match s.threads[t].phase
    case Start => StartKeepsShape(s, t);
    case Acquire(_) => AcquireKeepsShape(s, t);
    case Read => ReadKeepsShape(s, t);
    case Decide => DecideKeepsShape(s, t);
    case Stage => StageKeepsShape(s, t);
    case Release(_, _) => ReleaseKeepsShape(s, t);
    case Rollback(_) => RollbackKeepsShape(s, t);
  }

  lemma StartKeepsShape(s: State, t: nat)
    requires Shape(s) && CanAdvance(s, t) && s.threads[t].phase.Start?
    ensures Shape(AdvanceThread(s, t)) && OnlyThread(s, AdvanceThread(s, t), t)
  {
    hide LocksOk, HistoryOk, InOrder, Guard, WriteSet, Success, Parties, Screen;
    var s', op := AdvanceThread(s, t), s.threads[t].op;
    assert ThreadOk(s, t);
    OthersOk(s, s', t);
    LocksKept(s, s', t);
    OrderKept(s, s', t);
    if Screen(op).Some? {
      ScreenedAlone(s.ledger, op);
      NoteOk(s, t, Refused(Screen(op).value), s');
    } else {
      HistoryKept(s, s', t);
    }
    assert ThreadOk(s', t);
  }

  lemma AcquireKeepsShape(s: State, t: nat)
    requires Shape(s) && CanAdvance(s, t) && s.threads[t].phase.Acquire?
    ensures Shape(AdvanceThread(s, t)) && OnlyThread(s, AdvanceThread(s, t), t)
  {
    hide LocksOk, HistoryOk, InOrder, Guard, WriteSet, Success, Screen, Locks;
    var s', th := AdvanceThread(s, t), s.threads[t];
    assert ThreadOk(s, t);
    var ls, next := Locks(th.op), th.phase.next;
    assert ls[..next + 1] == ls[..next] + [ls[next]];
    assert ls[..|ls|] == ls;
    LockTaken(s, s', t, ls[next]);
    OthersOk(s, s', t);
    OrderKept(s, s', t);
    HistoryKept(s, s', t);
    assert ThreadOk(s', t);
  }

  lemma ReadKeepsShape(s: State, t: nat)
    requires Shape(s) && CanAdvance(s, t) && s.threads[t].phase.Read?
    ensures Shape(AdvanceThread(s, t)) && OnlyThread(s, AdvanceThread(s, t), t)
  {
    hide LocksOk, HistoryOk, InOrder, Guard, WriteSet, Success, Screen, Locks, Parties, Live, View;
    var s' := AdvanceThread(s, t);
    assert ThreadOk(s, t);
    OthersOk(s, s', t);
    LocksKept(s, s', t);
    OrderKept(s, s', t);
    HistoryKept(s, s', t);
    assert ThreadOk(s', t);
  }

  lemma DecideKeepsShape(s: State, t: nat)
    requires Shape(s) && CanAdvance(s, t) && s.threads[t].phase.Decide?
    ensures Shape(AdvanceThread(s, t)) && OnlyThread(s, AdvanceThread(s, t), t)
  {
    hide LocksOk, HistoryOk, InOrder, Guard, Success, Parties, Screen, WriteSet;
    var s', th := AdvanceThread(s, t), s.threads[t];
    assert ThreadOk(s, t);
    OthersOk(s, s', t);
    LocksKept(s, s', t) by {
      assert 0 < |Locks(th.op)| && Locks(th.op)[0..] == Locks(th.op);
    }
    OrderKept(s, s', t);
    if Guard(th.op, th.read).Some? {
      RefusalIsNoFailure(th.op, th.read);
      NoteOk(s, t, Refused(Guard(th.op, th.read).value), s');
    } else {
      HistoryKept(s, s', t);
    }
    assert ThreadOk(s', t);
  }

  lemma StageKeepsShape(s: State, t: nat)
    requires Shape(s) && CanAdvance(s, t) && s.threads[t].phase.Stage?
    ensures Shape(AdvanceThread(s, t)) && OnlyThread(s, AdvanceThread(s, t), t)
  {
    hide LocksOk, HistoryOk, InOrder, Guard, Success, Parties, Screen, WriteSet, ApplyAll, View;
    var s', th := AdvanceThread(s, t), s.threads[t];
    assert ThreadOk(s, t);
    LocksKept(s, s', t) by {
      assert 0 < |Locks(th.op)| && Locks(th.op)[0..] == Locks(th.op);
    }
    OrderKept(s, s', t);
    OthersOk(s, s', t);
    var ws := WriteSet(th.op, th.read);
    if |th.pending| < |ws| {
      assert ws[..|th.pending| + 1] == th.pending + [ws[|th.pending|]];
      HistoryKept(s, s', t);
    } else {
      RefusalIsNoFailure(th.op, th.read);
      NoteOk(s, t, Success(th.op, th.read), s');
    }
    assert ThreadOk(s', t);
  }

  lemma ReleaseKeepsShape(s: State, t: nat)
    requires Shape(s) && CanAdvance(s, t) && s.threads[t].phase.Release?
    ensures Shape(AdvanceThread(s, t)) && OnlyThread(s, AdvanceThread(s, t), t)
  {
    hide LocksOk, HistoryOk, InOrder, Guard, Success, Parties, Screen, WriteSet, Locks;
    var s', th := AdvanceThread(s, t), s.threads[t];
    assert ThreadOk(s, t);
    SameNoted(s, s', t, th.phase.answer);
    hide Unrecorded, Noted;
    OthersOk(s, s', t);
    OrderKept(s, s', t);
    LocksAscend(th.op);
    var ls, freed := Locks(th.op), th.phase.freed;
    assert ls[freed..] == [ls[freed]] + ls[freed + 1..];
    assert ls[|ls|..] == [];
    LockGiven(s, s', t, ls[freed]);
    HistoryKept(s, s', t);
    assert ThreadOk(s', t);
  }

  lemma RollbackKeepsShape(s: State, t: nat)
    requires Shape(s) && CanAdvance(s, t) && s.threads[t].phase.Rollback?
    ensures Shape(AdvanceThread(s, t)) && OnlyThread(s, AdvanceThread(s, t), t)
  {
    hide LocksOk, HistoryOk, InOrder, Guard, Success, Parties, Screen, WriteSet, Locks;
    var s' := AdvanceThread(s, t);
    assert ThreadOk(s, t);
    SameNoted(s, s', t, s.threads[t].phase.outcome);
    hide Unrecorded, Noted;
    OthersOk(s, s', t);
    OrderKept(s, s', t);
    LocksKept(s, s', t);
    HistoryKept(s, s', t);
    assert ThreadOk(s', t);
  }

  lemma InterruptKeepsShape(s: State, t: nat)
    requires Shape(s) && CanInterrupt(s, t)
    ensures Shape(InterruptThread(s, t)) && OnlyThread(s, InterruptThread(s, t), t)
  {
    hide Guard, Success, Parties, Screen, WriteSet, Locks;
    var s', th := InterruptThread(s, t), s.threads[t];
    assert ThreadOk(s, t);
    OthersOk(s, s', t);
    OrderKept(s, s', t);
    LocksLost(s, s', t, set a | a in Locks(th.op)[..th.phase.next]);
    assert ThreadOk(s', t);
  }

  lemma FailKeepsShape(s: State, t: nat)
    requires Shape(s) && CanFail(s, t)
    ensures Shape(FailThread(s, t)) && OnlyThread(s, FailThread(s, t), t)
  {
    hide Guard, Success, Parties, Screen, WriteSet;
    var s', th := FailThread(s, t), s.threads[t];
    assert ThreadOk(s, t);
    OthersOk(s, s', t);
    OrderKept(s, s', t);
    LocksKept(s, s', t) by {
      assert 0 < |Locks(th.op)| && Locks(th.op)[0..] == Locks(th.op);
    }
    HistoryKept(s, s', t);
    assert ThreadOk(s', t);
  }

  lemma FailCommitKeepsShape(s: State, t: nat)
    requires Shape(s) && AtCommit(s, t)
    ensures Shape(FailCommitThread(s, t)) && OnlyThread(s, FailCommitThread(s, t), t)
  {
    hide Guard, Success, Parties, Screen, WriteSet;
    var s', th := FailCommitThread(s, t), s.threads[t];
    assert ThreadOk(s, t);
    OthersOk(s, s', t);
    OrderKept(s, s', t);
    LocksKept(s, s', t) by {
      assert 0 < |Locks(th.op)| && Locks(th.op)[0..] == Locks(th.op);
    }
    HistoryKept(s, s', t);
    assert ThreadOk(s', t);
  }

  lemma KillKeepsShape(s: State)
    requires Shape(s) && Enabled(s, Kill)
    ensures Shape(Next(s, Kill))
  {
    hide Guard, Success, Parties, Screen, WriteSet, Locks;
    var s' := Next(s, Kill);
    forall t | 0 <= t < |s.threads|
      ensures ThreadOk(s', t) && Held(s'.threads[t]) == [] && !s'.threads[t].Unfinished()
    {
      assert ThreadOk(s, t);
      if s.threads[t].phase.Finished? && !IsFailure(s.threads[t].phase.result) {
        var r := s.threads[t].phase.result;
        var i :| 0 <= i < |s.history| && s.history[i] == Event(t, s.threads[t].op, r);
        assert s'.history[i] == Event(t, s'.threads[t].op, r);
      }
    }
  }

  lemma NextKeepsShape(s: State, m: Move)
    requires Shape(s) && Enabled(s, m)
    ensures Shape(Next(s, m))
  {
    hide Shape, AdvanceThread, InterruptThread, FailThread, FailCommitThread;
    match m
    case Advance(t) => AdvanceKeepsShape(s, t);
    case Interrupt(t) => InterruptKeepsShape(s, t);
    case Fail(t) => FailKeepsShape(s, t);
    case FailCommit(t) => FailCommitKeepsShape(s, t);
    case Kill => KillKeepsShape(s);
  }

  lemma {:induction false} RunKeepsShape(s: State, moves: seq<Move>)
    requires Shape(s) && IsRun(s, moves)
    ensures Shape(After(s, moves))
    decreases |moves|
  {
    hide Shape, Next, Enabled;
    if moves != [] {
      NextKeepsShape(s, moves[0]);
      RunKeepsShape(Next(s, moves[0]), moves[1..]);
    }
  }

  // ---- what sessions show ----------------------------------------------------

  lemma OtherWorkers(s: State, t: nat, u: nat)
    requires InOrder(s) && t < |s.threads| && u < |s.threads| && t != u
    requires s.threads[t].Unfinished() && !s.threads[t].phase.Start?
    requires s.threads[u].Unfinished() && !s.threads[u].phase.Start?
    ensures s.threads[t].worker != s.threads[u].worker
  {
  }

  predicate SameShown(s: State, s': State, u: nat)
    requires u < |s.threads|
  {
    Lookup(View(s', s.threads[u].worker), s.threads[u].op) == Lookup(View(s, s.threads[u].worker), s.threads[u].op)
  }

  lemma OthersFresh(s: State, s': State, t: nat)
    requires AllFresh(s) && OnlyThread(s, s', t) && Fresh(s', t)
    requires forall u :: 0 <= u < |s.threads| && u != t && InCriticalSection(s.threads[u]) ==> SameShown(s, s', u)
    ensures AllFresh(s')
  {
    hide View, Lookup, Parties;
    forall u | 0 <= u < |s'.threads|
      ensures Fresh(s', u)
    {
      assert Fresh(s, u);
      if u != t && InCriticalSection(s.threads[u]) {
        assert SameShown(s, s', u);
      }
    }
  }

  /** A move that leaves the store and the other workers' sessions alone. */
  lemma QuietMove(s: State, s': State, t: nat)
    requires Shape(s) && AllFresh(s) && OnlyThread(s, s', t) && Fresh(s', t) && s'.ledger == s.ledger
    requires s'.leftovers == s.leftovers
             || (s.threads[t].Unfinished() && !s.threads[t].phase.Start?
                 && forall w :: w != s.threads[t].worker ==> Leftover(s', w) == Leftover(s, w))
    ensures AllFresh(s')
  {
    hide ThreadOk, LocksOk, HistoryOk, AllFresh, Fresh, Lookup;
    forall u | 0 <= u < |s.threads| && u != t && InCriticalSection(s.threads[u])
      ensures SameShown(s, s', u)
    {
      if s'.leftovers != s.leftovers {
        OtherWorkers(s, t, u);
      }
    }
    OthersFresh(s, s', t);
  }

  /** A commit that does what its operation does alone changes nothing that any other
      thread in its critical section has read. */
  lemma CommitFrame(s: State, s': State, t: nat)
    requires Shape(s) && AllFresh(s) && OnlyThread(s, s', t) && Fresh(s', t)
    requires InCriticalSection(s.threads[t]) && s'.ledger == Exec(s.ledger, s.threads[t].op).0
    requires forall w :: w != s.threads[t].worker ==> Leftover(s', w) == Leftover(s, w)
    ensures AllFresh(s')
  {
    hide ThreadOk, HistoryOk, AllFresh, Fresh, Lookup, Exec;
    var op := s.threads[t].op;
    forall u | 0 <= u < |s.threads| && u != t && InCriticalSection(s.threads[u])
      ensures SameShown(s, s', u)
    {
      var other := s.threads[u];
      Exclusive(s, t, u);
      OtherWorkers(s, t, u);
      forall a | a in Parties(other.op)
        ensures SameAt(View(s, other.worker), View(s', other.worker), a)
      {
        ExecFrame(s.ledger, op, a);
        ViewFrame(s.ledger, s'.ledger, Leftover(s, other.worker), a);
      }
      LookupFrame(View(s, other.worker), View(s', other.worker), other.op);
    }
    OthersFresh(s, s', t);
  }

  // ---- harm ------------------------------------------------------------------

  /** The account an operation takes money from, if it takes any. */
  function Payer(op: Op): AccNo {
    Parties(op)[0]
  }

  /** The session shows a payer too poor, at a balance that is not the committed one. */
  predicate Misread(s: State, t: nat)
    requires t < |s.threads|
  {
    var th := s.threads[t];
    && th.phase.Decide? && |th.read| == |Parties(th.op)|
    && var refusal := Guard(th.op, th.read);
       && refusal.Some? && refusal.value.Insufficient?
       && Payer(th.op) in s.ledger.accounts && refusal.value.available != s.ledger.accounts[Payer(th.op)].balance
  }

  /** What a caller can see before a step: a commit that would publish leftovers which
      change the store, or a refusal that rests on one, does harm. Nothing else does. */
  predicate Harmless(s: State, m: Move) {
    m.Advance? && m.tid < |s.threads| ==>
      && !Misread(s, m.tid)
      && (AtCommit(s, m.tid) ==> View(s, s.threads[m.tid].worker) == s.ledger)
  }

  predicate HarmlessRun(s: State, moves: seq<Move>)
    requires IsRun(s, moves)
    decreases |moves|
  {
    moves == [] || (Harmless(s, moves[0]) && HarmlessRun(Next(s, moves[0]), moves[1..]))
  }

  /** A refusal drawn from the session is the one drawn from the store, unless misread. */
  lemma RefusalIsSerial(l: Ledger, view: Ledger, op: Op)
    requires Screen(op).None? && Guard(op, Lookup(view, op)).Some?
    requires view.accounts.Keys == l.accounts.Keys
    requires forall a :: a in l.accounts ==> view.accounts[a] == l.accounts[a].(balance := view.accounts[a].balance)
    ensures var reason := Guard(op, Lookup(view, op)).value;
            Exec(l, op) == (l, Refused(reason)) <==>
              !(reason.Insufficient? && Payer(op) in l.accounts && reason.available != l.accounts[Payer(op)].balance)
    ensures var reason := Guard(op, Lookup(view, op)).value;
            Exec(l, op) != (l, Refused(reason)) ==> Exec(l, op).1 != Refused(reason)
  {
    RefusalChangesNothing(l, op);
  }

  lemma ReplayNext(l: Ledger, h: seq<Event>, e: Event)
    requires Agrees(l, h)
    ensures Replay(l, h + [e]) == Exec(Replay(l, h), e.op).0
    ensures Agrees(l, h + [e]) <==> Exec(Replay(l, h), e.op).1 == e.response
  {
    assert (h + [e])[..|h|] == h;
  }

  /** What a commit does when everything read is fresh: the operation, run on the
      session rather than on the store. */
  lemma CommitMeaning(s: State, t: nat)
    requires Shape(s) && AllFresh(s) && CanAdvance(s, t) && AtCommit(s, t)
    ensures var th := s.threads[t];
            && (AdvanceThread(s, t).ledger, Success(th.op, th.read)) == Exec(View(s, th.worker), th.op)
            && !Exec(View(s, th.worker), th.op).1.Refused?
            && AdvanceThread(s, t).history == s.history + [Event(t, th.op, Success(th.op, th.read))]
            && AdvanceThread(s, t).threads[t].phase == Release(0, Success(th.op, th.read))
  {
    hide Exec, Guard, Success, ApplyAll, Lookup, WriteSet, Screen, View;
    var th := s.threads[t];
    assert ThreadOk(s, t) && Fresh(s, t);
    assert th.pending == WriteSet(th.op, th.read);
    assert th.read == Lookup(View(s, th.worker), th.op);
    CommitIsExec(View(s, th.worker), th.op);
    SuccessIsNoRefusal(th.op, th.read);
  }

  lemma SuccessIsNoRefusal(op: Op, read: seq<Option<Account>>)
    requires |read| == |Parties(op)|
    ensures !Success(op, read).Refused?
  {
  }

  /** A step of a thread keeps the run serial exactly when it does no harm. */
  lemma CommitSerialWhenHarmless(l: Ledger, s: State, t: nat)
    requires Inv(l, s) && CanAdvance(s, t) && AtCommit(s, t)
    ensures Serial(l, AdvanceThread(s, t)) <==> View(s, s.threads[t].worker) == s.ledger
  {
    CommitMeaning(s, t);
    hide Shape, AllFresh, AdvanceThread, Exec, View, Replay, Agrees;
    var th := s.threads[t];
    ReplayNext(l, s.history, Event(t, th.op, Success(th.op, th.read)));
    if Exec(View(s, th.worker), th.op) == Exec(s.ledger, th.op) {
      ExecInjective(View(s, th.worker), s.ledger, th.op);
    }
  }

  lemma DecideSerialWhenHarmless(l: Ledger, s: State, t: nat)
    requires Inv(l, s) && CanAdvance(s, t) && s.threads[t].phase.Decide?
    ensures Serial(l, AdvanceThread(s, t)) <==> !Misread(s, t)
  {
    var th := s.threads[t];
    assert ThreadOk(s, t) && Fresh(s, t);
    hide Shape, AllFresh, Exec, Replay, Agrees, Guard, Lookup, ApplyAll, Screen;
    if Guard(th.op, th.read).Some? {
      ViewStatus(s.ledger, Leftover(s, th.worker));
      assert th.read == Lookup(View(s, th.worker), th.op);
      RefusalIsSerial(s.ledger, View(s, th.worker), th.op);
      ReplayNext(l, s.history, Event(t, th.op, Refused(Guard(th.op, th.read).value)));
    }
  }

  lemma StartIsSerial(l: Ledger, s: State, t: nat)
    requires Inv(l, s) && CanAdvance(s, t) && s.threads[t].phase.Start?
    ensures Serial(l, AdvanceThread(s, t))
  {
    var op := s.threads[t].op;
    hide Shape, AllFresh, Exec, Replay, Agrees, Screen;
    if Screen(op).Some? {
      ScreenedAlone(s.ledger, op);
      ReplayNext(l, s.history, Event(t, op, Refused(Screen(op).value)));
    }
  }

  /** From a serial state, the next state is serial exactly when the move does no harm. */
  lemma SerialExactlyWhenHarmless(l: Ledger, s: State, m: Move)
    requires Inv(l, s) && Enabled(s, m)
    ensures Serial(l, Next(s, m)) <==> Harmless(s, m)
  {
    hide Inv, View, Replay, Agrees, Guard, WriteSet, Parties;
    if m.Advance? {
      var phase := s.threads[m.tid].phase;
      if phase.Stage? && AtCommit(s, m.tid) {
        CommitSerialWhenHarmless(l, s, m.tid);
      } else if phase.Decide? {
        DecideSerialWhenHarmless(l, s, m.tid);
      } else if phase.Start? {
        StartIsSerial(l, s, m.tid);
      } else {
        SerialKept(l, s, Next(s, m));
      }
    } else {
      SerialKept(l, s, Next(s, m));
    }
  }

  lemma SerialKept(l: Ledger, s: State, s': State)
    requires Inv(l, s) && s'.ledger == s.ledger && s'.history == s.history
    ensures Serial(l, s')
  {
  }

  lemma AdvanceKeepsFresh(l: Ledger, s: State, t: nat)
    requires Inv(l, s) && CanAdvance(s, t) && Harmless(s, Advance(t))
    ensures AllFresh(AdvanceThread(s, t))
  {
    AdvanceKeepsShape(s, t);
    assert Fresh(s, t) && ThreadOk(s, t);
    if AtCommit(s, t) {
      CommitMeaning(s, t);
      hide ThreadOk, Fresh, AllFresh, LocksOk, HistoryOk, InOrder, ThreadsOk, AtCommit, Exec, ApplyAll, WriteSet, Success, Parties;
      CommitFrame(s, AdvanceThread(s, t), t);
    } else {
      AdvancedIsFresh(s, t);
      hide ThreadOk, Fresh, AllFresh, LocksOk, HistoryOk, InOrder, ThreadsOk, AtCommit, ApplyAll, WriteSet, Success, Parties, Lookup;
      AdvanceIsQuiet(s, t);
      QuietMove(s, AdvanceThread(s, t), t);
    }
  }

  lemma AdvanceIsQuiet(s: State, t: nat)
    requires CanAdvance(s, t) && !AtCommit(s, t)
    ensures var s' := AdvanceThread(s, t);
            && s'.ledger == s.ledger
            && (s'.leftovers == s.leftovers
                || (s.threads[t].phase.Rollback? && forall w :: w != s.threads[t].worker ==> Leftover(s', w) == Leftover(s, w)))
  {
    hide Guard, Screen, WriteSet, ApplyAll, Success, Locks, Live;
  }

  lemma AdvancedIsFresh(s: State, t: nat)
    requires CanAdvance(s, t) && ThreadOk(s, t) && Fresh(s, t) && !AtCommit(s, t)
    ensures Fresh(AdvanceThread(s, t), t)
  {
    hide Exec, Lookup, Guard, Screen, WriteSet, ApplyAll, Success, Locks, Parties, Live;
    var th := s.threads[t];
    PartiesAndLookup(View(s, th.worker), th.op);
  }

  /** An exception changes no store, and no session but its own worker's. */
  lemma FailureIsFresh(s: State, m: Move)
    requires Shape(s) && AllFresh(s) && Enabled(s, m) && (m.Interrupt? || m.Fail? || m.FailCommit?)
    ensures AllFresh(Next(s, m))
  {
    hide Shape, AllFresh, Guard, WriteSet, Parties, ApplyAll, Lookup, Locks;
    match m {
      case Interrupt(t) => InterruptKeepsShape(s, t);
      case Fail(t) => FailKeepsShape(s, t);
      case FailCommit(t) => FailCommitKeepsShape(s, t);
    }
    QuietMove(s, Next(s, m), m.tid);
  }

  lemma NextKeepsInv(l: Ledger, s: State, m: Move)
    requires Inv(l, s) && Enabled(s, m) && Harmless(s, m)
    ensures Inv(l, Next(s, m))
  {
    hide Shape, Serial, AllFresh, Harmless, Next, Enabled;
    NextKeepsShape(s, m);
    SerialExactlyWhenHarmless(l, s, m);
    NextIsFresh(l, s, m);
  }

  lemma NextIsFresh(l: Ledger, s: State, m: Move)
    requires Inv(l, s) && Enabled(s, m) && Harmless(s, m)
    ensures AllFresh(Next(s, m))
  {
    hide Shape, Serial, AllFresh, Harmless, AdvanceThread;
    match m
    case Advance(t) => AdvanceKeepsFresh(l, s, t);
    case Kill => KilledIsFresh(s);
    case _ => FailureIsFresh(s, m);
  }

  lemma KilledIsFresh(s: State)
    requires Enabled(s, Kill)
    ensures AllFresh(Next(s, Kill))
  {
  }

  // ---- whole runs ------------------------------------------------------------

  /** The store and the answers are serial at every moment of a run. */
  predicate AlwaysSerial(l: Ledger, s: State, moves: seq<Move>)
    requires IsRun(s, moves)
    decreases |moves|
  {
    Serial(l, s) && (moves == [] || AlwaysSerial(l, Next(s, moves[0]), moves[1..]))
  }

  lemma {:induction false} SerialRuns(l: Ledger, s: State, moves: seq<Move>)
    requires Inv(l, s) && IsRun(s, moves)
    ensures AlwaysSerial(l, s, moves) <==> HarmlessRun(s, moves)
    ensures HarmlessRun(s, moves) ==> Inv(l, After(s, moves))
    decreases |moves|
  {
    hide Shape, AllFresh, Serial, Harmless, Enabled, Next;
    if moves != [] {
      SerialExactlyWhenHarmless(l, s, moves[0]);
      if Harmless(s, moves[0]) {
        NextKeepsInv(l, s, moves[0]);
        SerialRuns(l, Next(s, moves[0]), moves[1..]);
      } else {
        NotSerialNow(l, Next(s, moves[0]), moves[1..]);
      }
    }
  }

  lemma NotSerialNow(l: Ledger, s: State, moves: seq<Move>)
    requires IsRun(s, moves) && !Serial(l, s)
    ensures !AlwaysSerial(l, s, moves)
  {
  }

  /** A run is serial throughout exactly when none of its steps does harm: no commit
      publishes a change that an earlier, raised operation left in its worker's session,
      and no refusal rests on one. The store is then the one the recorded operations
      produce one at a time in commit order, every recorded answer is the one that
      serial run gives, no thread takes effect twice, an answered thread took effect
      with that very answer, and a failed one took no effect. */
  lemma EveryRunIsSerial(l: Ledger, jobs: seq<Job>, moves: seq<Move>)
    requires IsRun(Init(l, jobs), moves)
    ensures AlwaysSerial(l, Init(l, jobs), moves) <==> HarmlessRun(Init(l, jobs), moves)
    ensures HarmlessRun(Init(l, jobs), moves) ==>
              var s := After(Init(l, jobs), moves);
              && |s.threads| == |jobs|
              && s.ledger == Replay(l, s.history)
              && Agrees(l, s.history)
              && (forall i :: 0 <= i < |s.history| ==>
                    s.history[i].tid < |jobs| && s.history[i].op == jobs[s.history[i].tid].op)
              && (forall i, j :: 0 <= i < j < |s.history| ==> s.history[i].tid != s.history[j].tid)
              && (forall t :: 0 <= t < |jobs| && s.threads[t].phase.Finished? ==> Noted(s, t, s.threads[t].phase.result))
  {
    InitInv(l, jobs);
    SerialRuns(l, Init(l, jobs), moves);
    OpsNeverChange(Init(l, jobs), moves);
    RunKeepsShape(Init(l, jobs), moves);
    var s := After(Init(l, jobs), moves);
    forall t | 0 <= t < |s.threads| && s.threads[t].phase.Finished?
      ensures Noted(s, t, s.threads[t].phase.result)
    {
      assert ThreadOk(s, t);
    }
  }

  /** A deposit or withdrawal raises with something staged. */
  predicate LeavesWrites(s: State, m: Move) {
    m.Fail? && m.tid < |s.threads| && !s.threads[m.tid].op.Transfer? && s.threads[m.tid].pending != []
  }

  predicate LeavesNothing(s: State, moves: seq<Move>)
    requires IsRun(s, moves)
    decreases |moves|
  {
    moves == [] || (!LeavesWrites(s, moves[0]) && LeavesNothing(Next(s, moves[0]), moves[1..]))
  }

  predicate SessionsEmpty(s: State) {
    forall w :: w in s.leftovers ==> s.leftovers[w] == []
  }

  lemma EmptySessionsAreHarmless(l: Ledger, s: State, m: Move)
    requires Inv(l, s) && Enabled(s, m) && SessionsEmpty(s)
    ensures Harmless(s, m)
    ensures !LeavesWrites(s, m) ==> SessionsEmpty(Next(s, m))
  {
    hide Exec, Replay, Agrees, WriteSet, Success, LocksOk, HistoryOk, InOrder, Serial, ThreadOk;
    if m.Advance? {
      var th := s.threads[m.tid];
      assert Fresh(s, m.tid) && Leftover(s, th.worker) == [];
      assert View(s, th.worker) == s.ledger;
    }
  }

  /** Nothing but a deposit or withdrawal that raises with writes staged can ever do harm;
      a transfer cannot, because it rolls its session back. */
  lemma {:induction false} OnlyRaisedWritesHarm(l: Ledger, s: State, moves: seq<Move>)
    requires Inv(l, s) && SessionsEmpty(s) && IsRun(s, moves) && LeavesNothing(s, moves)
    ensures HarmlessRun(s, moves)
    decreases |moves|
  {
    hide Inv, SessionsEmpty, Harmless, Enabled, Next, LeavesWrites;
    if moves != [] {
      EmptySessionsAreHarmless(l, s, moves[0]);
      NextKeepsInv(l, s, moves[0]);
      OnlyRaisedWritesHarm(l, Next(s, moves[0]), moves[1..]);
    }
  }

  lemma {:induction false} OpsNeverChange(s: State, moves: seq<Move>)
    requires IsRun(s, moves)
    ensures |After(s, moves).threads| == |s.threads|
    ensures forall t :: 0 <= t < |s.threads| ==> After(s, moves).threads[t].op == s.threads[t].op
    decreases |moves|
  {
    if moves != [] {
      hide Next, Enabled;
      NextKeepsOps(s, moves[0]);
      OpsNeverChange(Next(s, moves[0]), moves[1..]);
    }
  }

  lemma NextKeepsOps(s: State, m: Move)
    requires Enabled(s, m)
    ensures s.history <= Next(s, m).history
    ensures |Next(s, m).threads| == |s.threads|
    ensures forall t :: 0 <= t < |s.threads| ==> Next(s, m).threads[t].op == s.threads[t].op
  {
    hide Guard, Success, ApplyAll, Screen, WriteSet, Locks, Parties, Turn;
  }

  lemma {:induction false} HistoryGrows(s: State, moves: seq<Move>)
    requires IsRun(s, moves)
    ensures s.history <= After(s, moves).history
    decreases |moves|
  {
    if moves != [] {
      hide Next, Enabled;
      NextKeepsOps(s, moves[0]);
      HistoryGrows(Next(s, moves[0]), moves[1..]);
    }
  }

  /** The order of effects respects real time, in every run: an operation answered before
      another one starts comes before it in the history. */
  lemma RealTimeOrder(l: Ledger, jobs: seq<Job>, first: seq<Move>, second: seq<Move>, t: nat, u: nat, i: nat, j: nat)
    requires IsRun(Init(l, jobs), first) && IsRun(After(Init(l, jobs), first), second)
    requires var s := After(Init(l, jobs), first);
             && t < |s.threads| && u < |s.threads|
             && s.threads[t].phase.Finished? && !IsFailure(s.threads[t].phase.result) && s.threads[u].phase.Start?
    requires var h := After(After(Init(l, jobs), first), second).history;
             i < |h| && j < |h| && h[i].tid == t && h[j].tid == u
    ensures i < j
  {
    hide IsRun, After, LocksOk, InOrder;
    var s := After(Init(l, jobs), first);
    var s' := After(s, second);
    InitInv(l, jobs);
    RunKeepsShape(Init(l, jobs), first);
    RunKeepsShape(s, second);
    HistoryGrows(s, second);
    assert ThreadOk(s, t) && ThreadOk(s, u);
    var k :| 0 <= k < |s.history| && s.history[k] == Event(t, s.threads[t].op, s.threads[t].phase.result);
    assert s'.history[k] == s.history[k];
    assert i == k;
  }

  /** A transfer that went through, said without reference to the code that does it. */
  predicate Moved(before: Ledger, after: Ledger, sender: AccNo, receiver: AccNo, amount: int) {
    && amount > 0 && sender != receiver
    && sender in before.accounts && receiver in before.accounts
    && before.accounts[sender].balance >= amount
    && after.accounts.Keys == before.accounts.Keys
    && (forall a :: a in before.accounts ==>
          after.accounts[a] == before.accounts[a].(balance := before.accounts[a].balance
            + (if a == receiver then amount else 0) - (if a == sender then amount else 0)))
    && after.log == before.log
         + [Row(sender, TRANSFER_OUT, amount, before.accounts[sender].balance - amount, Some(receiver), Plain),
            Row(receiver, TRANSFER_IN, amount, before.accounts[receiver].balance + amount, Some(sender), Plain)]
  }

  /** In every run, harmless or not, the store changes only at a commit, and then by the
      session's leftovers and the operation's whole set of writes at once. */
  lemma OnlyCommitsWrite(s: State, m: Move)
    requires Shape(s) && Enabled(s, m) && Next(s, m).ledger != s.ledger
    ensures m.Advance? && AtCommit(s, m.tid)
    ensures var th := s.threads[m.tid]; Next(s, m).ledger == ApplyAll(View(s, th.worker), WriteSet(th.op, th.read))
  {
    hide Guard, Success, ApplyAll, Screen, WriteSet, Locks, Parties, Turn, LocksOk, HistoryOk, InOrder;
    if m.Advance? {
      var th := s.threads[m.tid];
      assert ThreadOk(s, m.tid) && AtCommit(s, m.tid);
      assert th.pending == WriteSet(th.op, th.read);
    }
  }

  /** All or nothing: wherever an exception or a kill strikes, a transfer either leaves
      the committed store alone or completes on what its session showed, which is the
      committed store itself unless an earlier operation left something behind. */
  lemma TransferIsAtomic(l: Ledger, s: State, m: Move)
    requires Inv(l, s) && Enabled(s, m)
    requires m.Advance? ==> s.threads[m.tid].op.Transfer?
    ensures var s' := Next(s, m);
            || s'.ledger == s.ledger
            || (m.Advance?
                && var th := s.threads[m.tid];
                   && s'.threads[m.tid].phase == Release(0, Success(th.op, th.read))
                   && Moved(View(s, th.worker), s'.ledger, th.op.sender, th.op.receiver, th.op.amount)
                   && (Leftover(s, th.worker) == [] ==> View(s, th.worker) == s.ledger))
  {
    hide Exec, Shape, AllFresh, Serial, Moved, Guard, WriteSet, Success, Parties;
    if m.Advance? && AtCommit(s, m.tid) {
      var th := s.threads[m.tid];
      CommitMeaning(s, m.tid);
      TransferMeaning(View(s, th.worker), th.op);
    }
  }

  lemma TransferMeaning(l: Ledger, op: Op)
    requires op.Transfer? && !Exec(l, op).1.Refused?
    ensures Moved(l, Exec(l, op).0, op.sender, op.receiver, op.amount)
  {
    var p := Post(l, op.sender, TRANSFER_OUT, op.amount, Some(op.receiver), Plain);
    assert p.accounts.Keys == l.accounts.Keys;
  }
}
