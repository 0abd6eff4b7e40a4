/** What a raised deposit leaves in its worker's session, and what that does: concrete
    runs in which a later commit of the same worker publishes it. */
module Leftovers {
  import opened Domain
  import opened Ledger
  import opened Concurrent
  import opened Serialisability
  import opened Conservation

  lemma {:induction false} RunConcat(s: State, first: seq<Move>, second: seq<Move>)
    requires IsRun(s, first) && IsRun(After(s, first), second)
    ensures IsRun(s, first + second) && After(s, first + second) == After(After(s, first), second)
    decreases |first|
  {
    hide Next, Enabled;
    if first == [] {
      assert first + second == second;
    } else {
      var m, rest := first[0], first[1..];
      RunConcat(Next(s, m), rest, second);
      assert (first + second)[0] == m && (first + second)[1..] == rest + second;
      assert IsRun(s, first + second) <==> Enabled(s, m) && IsRun(Next(s, m), rest + second);
    }
  }

  lemma OneMove(s: State, m: Move)
    requires Enabled(s, m)
    ensures IsRun(s, [m]) && After(s, [m]) == Next(s, m)
  {
    hide Next, Enabled;
    assert [m][1..] == [];
    assert IsRun(Next(s, m), []);
  }

  /** What a move does to what every worker's session holds unwritten. A raised deposit
      or withdrawal adds what it staged; a commit or a rollback leaves the session empty,
      so that nothing is published twice; a raised transfer leaves it as it was. */
  lemma SessionMeaning(s: State, m: Move, worker: nat)
    requires Enabled(s, m)
    ensures var after := Leftover(Next(s, m), worker);
            match m
            case Kill => after == []
            case Fail(t) =>
              after == if s.threads[t].worker == worker && !s.threads[t].op.Transfer?
                       then Leftover(s, worker) + s.threads[t].pending else Leftover(s, worker)
            case FailCommit(t) => after == if s.threads[t].worker == worker then [] else Leftover(s, worker)
            case Interrupt(t) => after == Leftover(s, worker)
            case Advance(t) =>
              after == if s.threads[t].worker == worker && (AtCommit(s, t) || s.threads[t].phase.Rollback?)
                       then [] else Leftover(s, worker)
    ensures !m.Kill? && (m.Fail? || m.FailCommit? || AtCommit(s, m.tid) || s.threads[m.tid].phase.Rollback?) ==>
              Next(s, m).threads[m.tid].pending == []
  {
  }

  /** `n` ordinary steps of one thread. */
  function Steps(t: nat, n: nat): seq<Move> {
    seq(n, i => Advance(t))
  }

  lemma OneMoreStep(s: State, t: nat, n: nat)
    requires IsRun(s, Steps(t, n)) && CanAdvance(After(s, Steps(t, n)), t)
    ensures IsRun(s, Steps(t, n + 1)) && After(s, Steps(t, n + 1)) == AdvanceThread(After(s, Steps(t, n)), t)
  {
    hide AdvanceThread, CanAdvance;
    OneMove(After(s, Steps(t, n)), Advance(t));
    RunConcat(s, Steps(t, n), [Advance(t)]);
    assert Steps(t, n) + [Advance(t)] == Steps(t, n + 1);
  }

  /** A thread that is about to run a deposit which will be accepted. */
  predicate Ready(s: State, t: nat) {
    && t < |s.threads| && Turn(s, t)
    && var th := s.threads[t];
       && th.op.Deposit? && th.op.amount > 0 && th == Thread(th.op, th.worker, Start, [], [])
       && th.op.acc !in s.locks && th.op.acc !in s.leaked && Usable(View(s, th.worker), th.op.acc)
  }

  /** The state in which a ready deposit has staged its first `n` writes. */
  function Staged(s: State, t: nat, n: nat): State
    requires Ready(s, t) && n <= 2
  {
    var th := s.threads[t];
    var read := Lookup(View(s, th.worker), th.op);
    s.(locks := s.locks[th.op.acc := t],
       threads := s.threads[t := th.(phase := Stage, read := read, pending := WriteSet(th.op, read)[..n])])
  }

  lemma DepositStages(s: State, t: nat, n: nat)
    requires Ready(s, t) && n <= 2
    ensures IsRun(s, Steps(t, 4 + n)) && After(s, Steps(t, 4 + n)) == Staged(s, t, n)
  {
    hide ApplyAll, IsRun, After;
    if n == 0 {
      DepositReads(s, t);
    } else {
      DepositStages(s, t, n - 1);
      var read := Lookup(View(s, s.threads[t].worker), s.threads[t].op);
      var ws := WriteSet(s.threads[t].op, read);
      assert ws[..n] == ws[..n - 1] + [ws[n - 1]];
      OneMoreStep(s, t, 3 + n);
    }
  }

  lemma DepositReads(s: State, t: nat)
    requires Ready(s, t)
    ensures IsRun(s, Steps(t, 4)) && After(s, Steps(t, 4)) == Staged(s, t, 0)
  {
    hide ApplyAll;
    var th := s.threads[t];
    assert Steps(t, 0) == [];
    assert IsRun(s, Steps(t, 0)) && After(s, Steps(t, 0)) == s;
    hide IsRun, After;
    OneMoreStep(s, t, 0);
    var s1 := After(s, Steps(t, 1));
    assert s1 == s.(threads := s.threads[t := th.(phase := Acquire(0))]);
    OneMoreStep(s, t, 1);
    var s2 := After(s, Steps(t, 2));
    assert s2 == s.(locks := s.locks[th.op.acc := t], threads := s.threads[t := th.(phase := Read)]);
    OneMoreStep(s, t, 2);
    var s3 := After(s, Steps(t, 3));
    var read := Lookup(View(s, th.worker), th.op);
    assert View(s2, th.worker) == View(s, th.worker);
    assert [] + [Live(View(s, th.worker).accounts, th.op.acc)] == read;
    assert s3 == s2.(threads := s.threads[t := th.(phase := Decide, read := read)]);
    OneMoreStep(s, t, 3);
    assert WriteSet(th.op, read)[..0] == [];
  }

  /** The moves of a deposit that raises once it has staged `n` writes. */
  function Raising(t: nat, n: nat): seq<Move> {
    Steps(t, 4 + n) + [Fail(t), Advance(t)]
  }

  /** The deposit is answered with an exception; its writes stay in the session. */
  lemma DepositRaises(s: State, t: nat, n: nat)
    requires Ready(s, t) && n <= 2
    ensures IsRun(s, Raising(t, n))
    ensures var th := s.threads[t];
            var read := Lookup(View(s, th.worker), th.op);
            After(s, Raising(t, n)) ==
              s.(leftovers := s.leftovers[th.worker := Leftover(s, th.worker) + WriteSet(th.op, read)[..n]],
                 threads := s.threads[t := th.(phase := Finished(Raised), read := read)])
  {
    DepositStages(s, t, n);
    FailAndRelease(s, t, n);
    hide IsRun, After, ApplyAll, WriteSet, Ready, Staged, Steps;
    RunConcat(s, Steps(t, 4 + n), [Fail(t), Advance(t)]);
  }

  lemma FailAndRelease(s: State, t: nat, n: nat)
    requires Ready(s, t) && n <= 2
    ensures IsRun(Staged(s, t, n), [Fail(t), Advance(t)])
    ensures var th := s.threads[t];
            var read := Lookup(View(s, th.worker), th.op);
            After(Staged(s, t, n), [Fail(t), Advance(t)]) ==
              s.(leftovers := s.leftovers[th.worker := Leftover(s, th.worker) + WriteSet(th.op, read)[..n]],
                 threads := s.threads[t := th.(phase := Finished(Raised), read := read)])
  {
    hide IsRun, After, ApplyAll, WriteSet, View, Turn, Usable;
    var s1 := Staged(s, t, n);
    var s2 := FailThread(s1, t);
    OneMove(s1, Fail(t));
    OneMove(s2, Advance(t));
    RunConcat(s1, [Fail(t)], [Advance(t)]);
    assert [Fail(t)] + [Advance(t)] == [Fail(t), Advance(t)];
    assert s.locks[s.threads[t].op.acc := t] - {s.threads[t].op.acc} == s.locks;
  }

  /** The next deposit of that worker commits, and with it everything left behind. */
  lemma DepositCommits(s: State, t: nat)
    requires Ready(s, t)
    ensures IsRun(s, Steps(t, 7))
    ensures var th := s.threads[t];
            && (After(s, Steps(t, 7)).ledger, Success(th.op, Lookup(View(s, th.worker), th.op))) == Exec(View(s, th.worker), th.op)
            && After(s, Steps(t, 7)).history ==
                 s.history + [Event(t, th.op, Success(th.op, Lookup(View(s, th.worker), th.op)))]
            && |After(s, Steps(t, 7)).threads| == |s.threads|
            && forall u :: 0 <= u < |s.threads| && u != t ==> After(s, Steps(t, 7)).threads[u] == s.threads[u]
  {
    DepositStages(s, t, 2);
    OneMoreStep(s, t, 6);
    hide IsRun, After, ApplyAll, Steps;
    var th := s.threads[t];
    var read := Lookup(View(s, th.worker), th.op);
    assert WriteSet(th.op, read)[..2] == WriteSet(th.op, read);
    CommitIsExec(View(s, th.worker), th.op);
  }

  /** Two deposits on one worker, the first raised after `n` staged writes. */
  function TwoDeposits(a: AccNo, x: int, b: AccNo, y: int): seq<Job> {
    [Job(0, Deposit(a, x)), Job(0, Deposit(b, y))]
  }

  function RaiseThenDeposit(n: nat): seq<Move> {
    Raising(0, n) + Steps(1, 7)
  }

  lemma ViewOfWrites(l: Ledger, a: AccNo, x: int, n: nat)
    requires Usable(l, a) && x > 0 && 1 <= n <= 2
    ensures var v := ApplyAll(l, WriteSet(Deposit(a, x), Lookup(l, Deposit(a, x)))[..n]);
            && v.accounts == Credit(l.accounts, a, x)
            && (n == 1 ==> v.log == l.log)
            && (n == 2 ==> v == Exec(l, Deposit(a, x)).0)
  {
    var ws := WriteSet(Deposit(a, x), Lookup(l, Deposit(a, x)));
    assert ws[..2] == ws && ws[..n][0] == ws[0];
    assert n == 1 ==> ws[..n][1..] == [];
    assert n == 2 ==> ws[..n][1..] == [ws[1]] && [ws[1]][1..] == [];
    CommitIsExec(l, Deposit(a, x));
  }

  /** What the run does, for every pair of usable accounts and every pair of amounts. */
  lemma RaisedDepositSurfaces(l: Ledger, a: AccNo, x: int, b: AccNo, y: int, n: nat)
    requires Usable(l, a) && Usable(l, b) && x > 0 && y > 0 && 1 <= n <= 2
    ensures var s0, moves := Init(l, TwoDeposits(a, x, b, y)), RaiseThenDeposit(n);
            && IsRun(s0, moves)
            && var s := After(s0, moves);
               && |s.threads| == 2 && s.threads[0].phase == Finished(Raised)
               && s.ledger == Exec(ApplyAll(l, WriteSet(Deposit(a, x), Lookup(l, Deposit(a, x)))[..n]), Deposit(b, y)).0
               && s.ledger != Replay(l, s.history)
               && !HarmlessRun(s0, moves)
  {
    var s0, moves := Init(l, TwoDeposits(a, x, b, y)), RaiseThenDeposit(n);
    var ws := WriteSet(Deposit(a, x), Lookup(l, Deposit(a, x)))[..n];
    assert ApplyAll(l, []) == l;
    DepositRaises(s0, 0, n);
    var s1 := After(s0, Raising(0, n));
    ViewOfWrites(l, a, x, n);
    assert Leftover(s1, 0) == [] + ws == ws;
    DepositCommits(s1, 1);
    var s := After(s1, Steps(1, 7));
    hide IsRun, After, ApplyAll, WriteSet, Steps, Raising;
    RunConcat(s0, Raising(0, n), Steps(1, 7));
    NotReplayed(l, ApplyAll(l, ws), s, b, y, a, x);
    if HarmlessRun(s0, moves) {
      EveryRunIsSerial(l, TwoDeposits(a, x, b, y), moves);
    }
  }

  lemma NotReplayed(l: Ledger, view: Ledger, s: State, b: AccNo, y: int, a: AccNo, x: int)
    requires Usable(l, a) && Usable(l, b) && x > 0 && y > 0 && view.accounts == Credit(l.accounts, a, x)
    requires |s.history| == 1 && s.history[0].op == Deposit(b, y)
    requires s.ledger == Exec(view, Deposit(b, y)).0
    ensures s.ledger != Replay(l, s.history)
  {
    assert s.history[..0] == [] && Replay(l, []) == l;
    assert Replay(l, s.history) == Exec(l, Deposit(b, y)).0;
    ExecMeaning(l, Deposit(b, y));
    ExecMeaning(view, Deposit(b, y));
  }

  /** Raised between the balance and the row, the deposit is credited without a row: the
      accounts hold more than the log explains. */
  lemma RaisedDepositMakesMoney(l: Ledger, a: AccNo, x: int, b: AccNo, y: int)
    requires Usable(l, a) && Usable(l, b) && x > 0 && y > 0
    ensures var s0, moves := Init(l, TwoDeposits(a, x, b, y)), RaiseThenDeposit(1);
            IsRun(s0, moves) && Unexplained(After(s0, moves).ledger) == Unexplained(l) + x
  {
    RaisedDepositSurfaces(l, a, x, b, y, 1);
    ViewOfWrites(l, a, x, 1);
    var view := ApplyAll(l, WriteSet(Deposit(a, x), Lookup(l, Deposit(a, x)))[..1]);
    hide ApplyAll, WriteSet, IsRun, After;
    ExecConserves(view, Deposit(b, y));
    CreditMoves(l.accounts, a, x);
  }
}
