/** No deadlock, and no run goes on for ever. Everything here holds in all runs, harmful
    ones included. */
module Progress {
  import opened Domain
  import opened Ledger
  import opened Concurrent
  import opened Serialisability
  import opened Sums

  function LocksAbove(s: State, a: AccNo): set<AccNo> {
    set b | b in s.locks && b > a
  }

  predicate Waiting(s: State, t: nat) {
    && t < |s.threads|
    && s.threads[t].phase.Acquire?
    && s.threads[t].phase.next < |Locks(s.threads[t].op)|
    && Wanted(s, t) in s.locks
  }

  function Wanted(s: State, t: nat): AccNo
    requires t < |s.threads| && s.threads[t].phase.Acquire?
    requires s.threads[t].phase.next < |Locks(s.threads[t].op)|
  {
    Locks(s.threads[t].op)[s.threads[t].phase.next]
  }

  /** The thread wants a lock that an interrupted acquisition left taken. */
  predicate Jammed(s: State, t: nat) {
    && t < |s.threads|
    && s.threads[t].phase.Acquire?
    && s.threads[t].phase.next < |Locks(s.threads[t].op)|
    && Wanted(s, t) in s.leaked
  }

  predicate Idle(s: State, t: nat) {
    t < |s.threads| && s.threads[t].phase.Start? && !Turn(s, t)
  }

  /** An unfinished thread is only ever stopped by its turn or by a taken lock. */
  lemma OnlyLocksBlock(s: State, t: nat)
    requires Shape(s) && t < |s.threads| && s.threads[t].Unfinished()
    ensures CanAdvance(s, t) || Idle(s, t) || Waiting(s, t) || Jammed(s, t)
  {
    hide Guard, Success, ApplyAll, Screen, WriteSet, Turn;
    assert ThreadOk(s, t);
  }

  /** Whoever holds the lock that t wants is under way, and wants nothing but higher locks. */
  lemma HolderIsAhead(s: State, t: nat) returns (h: nat)
    requires Shape(s) && Waiting(s, t)
    ensures h < |s.threads| && s.threads[h].Unfinished() && !s.threads[h].phase.Start?
    ensures Waiting(s, h) ==> Wanted(s, h) > Wanted(s, t)
  {
    hide Guard, Success, ApplyAll, Screen, WriteSet, Locks;
    var a := Wanted(s, t);
    h := s.locks[a];
    assert a in Held(s.threads[h]);
    assert ThreadOk(s, h);
    if Waiting(s, h) {
      LocksAscend(s.threads[h].op);
    }
  }

  /** Waiting in ascending order never goes round: from any unfinished thread, the
      chain of earlier threads and lock holders ends in a thread that can take its next
      step, or in one that wants a lock nobody will ever give back. */
  lemma {:induction false} SomeoneCanAdvance(s: State, t: nat) returns (u: nat)
    requires Shape(s) && t < |s.threads| && s.threads[t].Unfinished()
    ensures CanAdvance(s, u) || Jammed(s, u)
    decreases if s.threads[t].phase.Start? then t + 1 else 0,
              if Waiting(s, t) then |LocksAbove(s, Wanted(s, t))| + 1 else |s.locks| + 2
  {
    hide Shape, CanAdvance;
    OnlyLocksBlock(s, t);
    u := t;
    if Idle(s, t) {
      var earlier :| 0 <= earlier < t && s.threads[earlier].worker == s.threads[t].worker && s.threads[earlier].Unfinished();
      u := SomeoneCanAdvance(s, earlier);
    } else if Waiting(s, t) {
      var h := HolderIsAhead(s, t);
      OnlyLocksBlock(s, h);
      if Waiting(s, h) {
        FewerAbove(s, Wanted(s, t), Wanted(s, h));
        u := SomeoneCanAdvance(s, h);
      } else {
        u := h;
      }
    }
  }

  lemma FewerAbove(s: State, a: AccNo, b: AccNo)
    requires a < b && b in s.locks
    ensures |LocksAbove(s, b)| < |LocksAbove(s, a)|
  {
    assert b in LocksAbove(s, a) && b !in LocksAbove(s, b);
    assert LocksAbove(s, b) <= LocksAbove(s, a) - {b};
    SubsetSize(LocksAbove(s, b), LocksAbove(s, a) - {b});
  }

  /** Deadlock freedom: after any run, if any thread is unfinished then some thread can
      step, or some thread wants a lock that was lost between two acquisitions. */
  lemma NeverStuck(l: Ledger, jobs: seq<Job>, moves: seq<Move>)
    requires IsRun(Init(l, jobs), moves)
    ensures var s := After(Init(l, jobs), moves);
            (exists t :: 0 <= t < |s.threads| && s.threads[t].Unfinished())
            ==> (exists u :: CanAdvance(s, u)) || (exists u :: Jammed(s, u))
  {
    InitInv(l, jobs);
    RunKeepsShape(Init(l, jobs), moves);
    var s := After(Init(l, jobs), moves);
    if t :| 0 <= t < |s.threads| && s.threads[t].Unfinished() {
      var u := SomeoneCanAdvance(s, t);
    }
  }

  /** Exactly then: when no thread can step, the run is over unless a lost lock is wanted. */
  lemma StuckExactlyWhenJammed(l: Ledger, jobs: seq<Job>, moves: seq<Move>)
    requires IsRun(Init(l, jobs), moves)
    requires forall u :: !CanAdvance(After(Init(l, jobs), moves), u)
    ensures var s := After(Init(l, jobs), moves);
            (exists t :: 0 <= t < |s.threads| && s.threads[t].Unfinished()) <==> exists u :: Jammed(s, u)
  {
    NeverStuck(l, jobs, moves);
    var s := After(Init(l, jobs), moves);
    if u: nat :| Jammed(s, u) {
      assert s.threads[u].Unfinished();
    }
  }

  predicate Uninterrupted(moves: seq<Move>) {
    forall i :: 0 <= i < |moves| ==> !moves[i].Interrupt?
  }

  lemma {:induction false} NoLockIsLost(s: State, moves: seq<Move>)
    requires IsRun(s, moves) && Uninterrupted(moves) && s.leaked == {}
    ensures After(s, moves).leaked == {}
    decreases |moves|
  {
    if moves != [] {
      hide Guard, Success, ApplyAll, Screen, WriteSet, Locks, Parties, Turn;
      assert !moves[0].Interrupt?;
      NoLockIsLost(Next(s, moves[0]), moves[1..]);
    }
  }

  /** So a run without an exception between two acquisitions never gets stuck. */
  lemma NeverStuckUninterrupted(l: Ledger, jobs: seq<Job>, moves: seq<Move>)
    requires IsRun(Init(l, jobs), moves) && Uninterrupted(moves)
    ensures var s := After(Init(l, jobs), moves);
            (exists t :: 0 <= t < |s.threads| && s.threads[t].Unfinished()) ==> exists u :: CanAdvance(s, u)
  {
    NeverStuck(l, jobs, moves);
    NoLockIsLost(Init(l, jobs), moves);
  }

  /** A lost lock stays lost, and whoever wants it stays where it is, until it is itself
      interrupted or the process ends. */
  lemma JammedForGood(s: State, t: nat, m: Move)
    requires Jammed(s, t) && Enabled(s, m) && !m.Kill? && m != Interrupt(t)
    ensures Jammed(Next(s, m), t) && Next(s, m).threads[t] == s.threads[t]
  {
    hide Guard, Success, ApplyAll, Screen, WriteSet, Locks, Parties, Turn, View;
  }

  /** It does happen: a transfer interrupted between its two locks leaves a deposit to the
      lower account waiting for a lock that no thread holds, and nothing can step. */
  lemma InterruptedTransferJams(l: Ledger, a: AccNo, b: AccNo, x: int, y: int)
    requires a < b && x > 0 && y > 0
    ensures var s0 := Init(l, [Job(0, Transfer(a, b, x)), Job(1, Deposit(a, y))]);
            var moves := [Advance(0), Advance(0), Interrupt(0), Advance(1), Advance(0)];
            && IsRun(s0, moves)
            && var s := After(s0, moves);
               Jammed(s, 1) && s.locks == map[] && forall u :: !CanAdvance(s, u)
  {
    hide Guard, WriteSet, Success, ApplyAll;
    var s0 := Init(l, [Job(0, Transfer(a, b, x)), Job(1, Deposit(a, y))]);
    var s1 := Next(s0, Advance(0));
    var s2 := Next(s1, Advance(0));
    assert s2.locks == map[a := 0] && s2.threads[0].phase == Acquire(1);
    var s3 := Next(s2, Interrupt(0));
    assert Locks(Transfer(a, b, x))[..1] == [a];
    assert s3.leaked == {a} && s3.locks == map[];
    var s4 := Next(s3, Advance(1));
    var s5 := Next(s4, Advance(0));
    assert s5.threads[0].phase.Finished? && s5.threads[1].phase == Acquire(0) && |s5.threads| == 2;
    hide Next, Enabled;
    RunOfFive(s0, Advance(0), Advance(0), Interrupt(0), Advance(1), Advance(0));
  }

  lemma RunOfFive(s: State, a: Move, b: Move, c: Move, d: Move, e: Move)
    requires Enabled(s, a) && Enabled(Next(s, a), b) && Enabled(Next(Next(s, a), b), c)
    requires Enabled(Next(Next(Next(s, a), b), c), d) && Enabled(Next(Next(Next(Next(s, a), b), c), d), e)
    ensures IsRun(s, [a, b, c, d, e])
    ensures After(s, [a, b, c, d, e]) == Next(Next(Next(Next(Next(s, a), b), c), d), e)
  {
    hide Next, Enabled;
    var s1 := Next(s, a);
    var s2 := Next(s1, b);
    var s3 := Next(s2, c);
    var s4 := Next(s3, d);
    var s5 := Next(s4, e);
    assert [e][1..] == [] && [d, e][1..] == [e] && [c, d, e][1..] == [d, e];
    assert [b, c, d, e][1..] == [c, d, e] && [a, b, c, d, e][1..] == [b, c, d, e];
    assert IsRun(s5, []) && After(s5, []) == s5;
    assert IsRun(s4, [e]) && After(s4, [e]) == s5;
    assert IsRun(s3, [d, e]) && After(s3, [d, e]) == s5;
    assert IsRun(s2, [c, d, e]) && After(s2, [c, d, e]) == s5;
    assert IsRun(s1, [b, c, d, e]) && After(s1, [b, c, d, e]) == s5;
  }

  /** Sending to oneself would want the same lock twice: the thread waits for itself
      for ever. Nothing but the check before the locks rules this out. */
  lemma SelfTransferWouldDeadlock(s: State, t: nat, a: AccNo, amount: int)
    requires t < |s.threads| && amount > 0
    requires s.threads[t].op == Transfer(a, a, amount) && s.threads[t].phase == Acquire(1)
    requires a in s.locks && s.locks[a] == t
    ensures Waiting(s, t) && s.locks[Wanted(s, t)] == t && !CanAdvance(s, t)
    ensures Screen(s.threads[t].op) == Some(SelfTransfer)
  {
  }

  /** An upper bound on the steps a thread still has to take. */
  function Remaining(th: Thread): nat {
    match th.phase
    case Start => 14
    case Acquire(next) => 13 - (if next < 2 then next else 2)
    case Read => 11 - (if |th.read| < 2 then |th.read| else 2)
    case Decide => 9
    case Stage => 8 - (if |th.pending| < 4 then |th.pending| else 4)
    case Release(freed, _) => 3 - (if freed < 2 then freed else 2)
    case Rollback(_) => 1
    case Finished(_) => 0
    case Killed => 0
  }

  function Measure(threads: seq<Thread>): nat {
    if threads == [] then 0 else Remaining(threads[0]) + Measure(threads[1..])
  }

  lemma {:induction false} MeasureUpdate(threads: seq<Thread>, t: nat, th: Thread)
    requires t < |threads|
    ensures Measure(threads[t := th]) == Measure(threads) - Remaining(threads[t]) + Remaining(th)
  {
    if t > 0 {
      assert threads[t := th][1..] == threads[1..][t - 1 := th];
      MeasureUpdate(threads[1..], t - 1, th);
    } else {
      assert threads[t := th][1..] == threads[1..];
    }
  }

  lemma {:induction false} MeasureAtLeast(threads: seq<Thread>, t: nat)
    requires t < |threads|
    ensures Measure(threads) >= Remaining(threads[t])
  {
    if t > 0 {
      MeasureAtLeast(threads[1..], t - 1);
    }
  }

  lemma {:induction false} MeasureKilled(threads: seq<Thread>)
    ensures Measure(KillAll(threads)) == 0
  {
    if threads != [] {
      assert KillAll(threads)[1..] == KillAll(threads[1..]);
      MeasureKilled(threads[1..]);
    }
  }

  /** What one move of one thread does to the thread list. */
  predicate Shrunk(s: State, s': State, t: nat) {
    && t < |s.threads| == |s'.threads|
    && s'.threads == s.threads[t := s'.threads[t]]
    && Remaining(s'.threads[t]) < Remaining(s.threads[t])
  }

  lemma AdvanceShrinks(s: State, t: nat)
    requires Shape(s) && CanAdvance(s, t)
    ensures Shrunk(s, AdvanceThread(s, t), t)
  {
    hide Guard, Success, ApplyAll, Screen, LocksOk, HistoryOk, InOrder, Turn, View;
    assert ThreadOk(s, t);
  }

  lemma FailureShrinks(s: State, m: Move)
    requires Enabled(s, m) && (m.Interrupt? || m.Fail? || m.FailCommit?)
    ensures Shrunk(s, Next(s, m), m.tid)
  {
    hide Guard, Success, ApplyAll, Screen, WriteSet, Locks, Parties, View;
  }

  lemma MoveShrinks(s: State, m: Move)
    requires Shape(s) && Enabled(s, m)
    ensures Measure(Next(s, m).threads) < Measure(s.threads)
  {
    hide AdvanceThread, InterruptThread, FailThread, FailCommitThread, Shape, CanAdvance, AtCommit;
    if m.Kill? {
      var t :| 0 <= t < |s.threads| && s.threads[t].Unfinished();
      MeasureAtLeast(s.threads, t);
      MeasureKilled(s.threads);
    } else {
      if m.Advance? {
        AdvanceShrinks(s, m.tid);
      } else {
        FailureShrinks(s, m);
      }
      MeasureUpdate(s.threads, m.tid, Next(s, m).threads[m.tid]);
    }
  }

  /** Every run is finite: it has at most 14 steps for each operation. */
  lemma {:induction false} RunsEnd(s: State, moves: seq<Move>)
    requires Shape(s) && IsRun(s, moves)
    ensures |moves| + Measure(After(s, moves).threads) <= Measure(s.threads)
    decreases |moves|
  {
    if moves != [] {
      hide Shape, Next, Enabled;
      NextKeepsShape(s, moves[0]);
      MoveShrinks(s, moves[0]);
      RunsEnd(Next(s, moves[0]), moves[1..]);
    }
  }

  lemma {:induction false} MeasureAtStart(jobs: seq<Job>)
    ensures Measure(Spawn(jobs)) == 14 * |jobs|
  {
    if jobs != [] {
      assert Spawn(jobs)[1..] == Spawn(jobs[1..]);
      MeasureAtStart(jobs[1..]);
    }
  }

  lemma RunsAreShort(l: Ledger, jobs: seq<Job>, moves: seq<Move>)
    requires IsRun(Init(l, jobs), moves)
    ensures |moves| <= 14 * |jobs|
  {
    InitInv(l, jobs);
    RunsEnd(Init(l, jobs), moves);
    MeasureAtStart(jobs);
  }
}
