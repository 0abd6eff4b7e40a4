/** Deposits, withdrawals and transfers as threads that interleave step by step.
    Threads run on workers; a worker keeps one database session for all the threads
    it runs, one after the other. A thread takes its account locks one at a time in
    sorted order, reads its accounts, decides, stages its writes in its worker's
    session, commits them atomically and releases its locks one at a time. An
    exception may strike between two acquisitions, at any point of the critical
    section before the commit, or in the commit itself, and the process may be
    killed at any point at all. Only a transfer rolls its session back: what a raised
    deposit or withdrawal has staged stays behind for the worker's next commit. */
module Concurrent {
  import opened Domain
  import opened Ledger

  /** One operation and the worker it is given to. */
  datatype Job = Job(worker: nat, op: Op)

  /** A pending change in a session. */
  datatype Write = SetBalance(acc: AccNo, balance: int) | AddRow(row: Row)

  datatype Phase =
    | Start
    | Acquire(next: nat)                        // Locks(op)[..next] are held
    | Read
    | Decide
    | Stage
    | Release(freed: nat, answer: Response)     // Locks(op)[..freed] are given back
    | Rollback(outcome: Response)
    | Finished(result: Response)
    | Killed

  /** `pending` is what this thread has staged itself. */
  datatype Thread = Thread(op: Op, worker: nat, phase: Phase, read: seq<Option<Account>>, pending: seq<Write>) {
    predicate Unfinished() {
      !phase.Finished? && !phase.Killed?
    }
  }

  /** One entry per operation, written when it takes effect or is refused. */
  datatype Event = Event(tid: nat, op: Op, response: Response)

  /** `leaked` are the locks that an interrupted acquisition left taken for ever;
      `leftovers` is what earlier threads left behind in each worker's session.
      `history` only observes: no step depends on it. */
  datatype State = State(
    ledger: Ledger,
    locks: map<AccNo, nat>,
    leaked: set<AccNo>,
    leftovers: map<nat, seq<Write>>,
    threads: seq<Thread>,
    history: seq<Event>)

  /** An ordinary step; an exception between two acquisitions, in the critical section
      before the commit, or in the commit; the end of the process. */
  datatype Move = Advance(tid: nat) | Interrupt(tid: nat) | Fail(tid: nat) | FailCommit(tid: nat) | Kill

  /** The accounts whose locks an operation takes, in ascending order. */
  function Locks(op: Op): seq<AccNo> {
    match op
    case Deposit(a, _) => [a]
    case Withdraw(a, _) => [a]
    case Transfer(s, r, _) => if r < s then [r, s] else [s, r]
  }

  /** The locks a thread holds. */
  function Held(th: Thread): seq<AccNo> {
    match th.phase
    case Acquire(next) => if next <= |Locks(th.op)| then Locks(th.op)[..next] else []
    case Read | Decide | Stage => Locks(th.op)
    case Release(freed, _) => if freed <= |Locks(th.op)| then Locks(th.op)[freed..] else []
    case _ => []
  }

  function NewBalance(account: Option<Account>, change: int): int {
    match account
    case Some(a) => a.balance + change
    case None => change
  }

  /** The writes an operation stages, in program order, from what it has read. */
  function WriteSet(op: Op, read: seq<Option<Account>>): seq<Write>
    requires |read| == |Parties(op)|
  {
    match op
    case Deposit(a, amount) =>
      var b := NewBalance(read[0], amount);
      [SetBalance(a, b), AddRow(Row(a, DEPOSIT, amount, b, None, Plain))]
    case Withdraw(a, amount) =>
      var b := NewBalance(read[0], -amount);
      [SetBalance(a, b), AddRow(Row(a, WITHDRAW, amount, b, None, Plain))]
    case Transfer(s, r, amount) =>
      var bs, br := NewBalance(read[0], -amount), NewBalance(read[1], amount);
      [SetBalance(s, bs), SetBalance(r, br),
       AddRow(Row(s, TRANSFER_OUT, amount, bs, Some(r), Plain)),
       AddRow(Row(r, TRANSFER_IN, amount, br, Some(s), Plain))]
  }

  /** The answer computed from the domain objects, not from the store. */
  function Success(op: Op, read: seq<Option<Account>>): Response
    requires |read| == |Parties(op)|
  {
    match op
    case Deposit(_, amount) => Deposited(NewBalance(read[0], amount))
    case Withdraw(_, amount) => Withdrawn(NewBalance(read[0], -amount))
    case Transfer(_, _, amount) => Transferred(NewBalance(read[0], -amount), NewBalance(read[1], amount))
  }

  function Apply(l: Ledger, w: Write): Ledger {
    match w
    case SetBalance(a, b) =>
      if a in l.accounts then l.(accounts := l.accounts[a := l.accounts[a].(balance := b)]) else l
    case AddRow(row) => l.(log := l.log + [row])
  }

  /** Commit: every staged write, in order, in one indivisible change. */
  function ApplyAll(l: Ledger, ws: seq<Write>): Ledger
    decreases |ws|
  {
    if ws == [] then l else ApplyAll(Apply(l, ws[0]), ws[1..])
  }

  /** Only transfer catches exceptions; deposit and withdraw let them through. */
  function Failure(op: Op): Response {
    if op.Transfer? then Refused(DatabaseError) else Raised
  }

  predicate IsFailure(r: Response) {
    r == Refused(DatabaseError) || r == Raised
  }

  function Spawn(jobs: seq<Job>): seq<Thread> {
    seq(|jobs|, i requires 0 <= i < |jobs| => Thread(jobs[i].op, jobs[i].worker, Start, [], []))
  }

  function Init(l: Ledger, jobs: seq<Job>): State {
    State(l, map[], {}, map[], Spawn(jobs), [])
  }

  function Leftover(s: State, worker: nat): seq<Write> {
    if worker in s.leftovers then s.leftovers[worker] else []
  }

  /** What a worker's session shows: the committed store under its own unwritten changes. */
  function View(s: State, worker: nat): Ledger {
    ApplyAll(s.ledger, Leftover(s, worker))
  }

  /** A worker runs its threads one after the other. */
  predicate Turn(s: State, t: nat)
    requires t < |s.threads|
  {
    forall u :: 0 <= u < t && s.threads[u].worker == s.threads[t].worker ==> !s.threads[u].Unfinished()
  }

  function Put(s: State, t: nat, th: Thread): State
    requires t < |s.threads|
  {
    s.(threads := s.threads[t := th])
  }

  function Note(s: State, t: nat, r: Response): State
    requires t < |s.threads|
  {
    s.(history := s.history + [Event(t, s.threads[t].op, r)])
  }

  /** Whether a thread can take its next step: only its turn or a taken lock can stop it. */
  predicate CanAdvance(s: State, t: nat) {
    && t < |s.threads|
    && var th := s.threads[t];
       match th.phase
       case Start => Turn(s, t)
       case Acquire(next) => next < |Locks(th.op)| && Locks(th.op)[next] !in s.locks && Locks(th.op)[next] !in s.leaked
       case Read => |th.read| < |Parties(th.op)|
       case Decide => |th.read| == |Parties(th.op)|
       case Stage => |th.read| == |Parties(th.op)|
       case Release(freed, _) => freed < |Locks(th.op)|
       case Rollback(_) => true
       case Finished(_) => false
       case Killed => false
  }

  /** Between two acquisitions nothing gives the first lock back. */
  predicate CanInterrupt(s: State, t: nat) {
    && t < |s.threads| && s.threads[t].phase.Acquire?
    && 1 <= s.threads[t].phase.next <= |Locks(s.threads[t].op)|
  }

  /** An exception can strike between taking the last lock and the commit. */
  predicate CanFail(s: State, t: nat) {
    t < |s.threads| && (s.threads[t].phase.Read? || s.threads[t].phase.Decide? || s.threads[t].phase.Stage?)
  }

  /** Everything is staged and the commit is next. */
  predicate AtCommit(s: State, t: nat) {
    && t < |s.threads| && s.threads[t].phase.Stage?
    && |s.threads[t].read| == |Parties(s.threads[t].op)|
    && |s.threads[t].pending| >= |WriteSet(s.threads[t].op, s.threads[t].read)|
  }

  predicate Enabled(s: State, m: Move) {
    match m
    case Advance(t) => CanAdvance(s, t)
    case Interrupt(t) => CanInterrupt(s, t)
    case Fail(t) => CanFail(s, t)
    case FailCommit(t) => AtCommit(s, t)
    case Kill => exists t :: 0 <= t < |s.threads| && s.threads[t].Unfinished()
  }

  function AdvanceThread(s: State, t: nat): State
    requires CanAdvance(s, t)
  {
    var th := s.threads[t];
    match th.phase
    case Start =>
      (match Screen(th.op)
       case Some(reason) => Put(Note(s, t, Refused(reason)), t, th.(phase := Finished(Refused(reason))))
       case None => Put(s, t, th.(phase := Acquire(0))))
    case Acquire(next) =>
      var s' := s.(locks := s.locks[Locks(th.op)[next] := t]);
      Put(s', t, th.(phase := if next + 1 < |Locks(th.op)| then Acquire(next + 1) else Read))
    case Read =>
      var read := th.read + [Live(View(s, th.worker).accounts, Parties(th.op)[|th.read|])];
      Put(s, t, th.(read := read, phase := if |read| < |Parties(th.op)| then Read else Decide))
    case Decide =>
      (match Guard(th.op, th.read)
       case Some(reason) => Put(Note(s, t, Refused(reason)), t, th.(phase := Release(0, Refused(reason))))
       case None => Put(s, t, th.(phase := Stage)))
    case Stage =>
      var ws := WriteSet(th.op, th.read);
      if |th.pending| < |ws| then
        Put(s, t, th.(pending := th.pending + [ws[|th.pending|]]))
      else
        var answer := Success(th.op, th.read);
        var s' := s.(ledger := ApplyAll(View(s, th.worker), th.pending), leftovers := s.leftovers - {th.worker});
        Put(Note(s', t, answer), t, th.(pending := [], phase := Release(0, answer)))
    case Release(freed, answer) =>
      var s' := s.(locks := s.locks - {Locks(th.op)[freed]});
      Put(s', t, th.(phase :=
        if freed + 1 < |Locks(th.op)| then Release(freed + 1, answer)
        else if answer == Refused(DatabaseError) then Rollback(answer)
        else Finished(answer)))
    case Rollback(outcome) =>
      Put(s.(leftovers := s.leftovers - {th.worker}), t, th.(pending := [], phase := Finished(outcome)))
  }

  /** The `finally` that frees locks does not cover their acquisition. */
  function InterruptThread(s: State, t: nat): State
    requires CanInterrupt(s, t)
  {
    var th := s.threads[t];
    var taken := set a | a in Locks(th.op)[..th.phase.next];
    Put(s.(locks := s.locks - taken, leaked := s.leaked + taken), t, th.(phase := Rollback(Failure(th.op))))
  }

  /** A transfer's savepoint drops its writes; other operations leave theirs in the session. */
  function FailThread(s: State, t: nat): State
    requires CanFail(s, t)
  {
    var th := s.threads[t];
    var s' := if th.op.Transfer? then s
              else s.(leftovers := s.leftovers[th.worker := Leftover(s, th.worker) + th.pending]);
    Put(s', t, th.(pending := [], phase := Release(0, Failure(th.op))))
  }

  /** A commit that fails has undone the whole transaction. */
  function FailCommitThread(s: State, t: nat): State
    requires AtCommit(s, t)
  {
    var th := s.threads[t];
    Put(s.(leftovers := s.leftovers - {th.worker}), t, th.(pending := [], phase := Release(0, Failure(th.op))))
  }

  function KillThread(th: Thread): Thread {
    if th.Unfinished() then th.(phase := Killed, pending := []) else th
  }

  function KillAll(threads: seq<Thread>): seq<Thread> {
    seq(|threads|, i requires 0 <= i < |threads| => KillThread(threads[i]))
  }

  function Next(s: State, m: Move): State
    requires Enabled(s, m)
  {
    match m
    case Advance(t) => AdvanceThread(s, t)
    case Interrupt(t) => InterruptThread(s, t)
    case Fail(t) => FailThread(s, t)
    case FailCommit(t) => FailCommitThread(s, t)
    case Kill => State(s.ledger, map[], {}, map[], KillAll(s.threads), s.history)
  }

  /** A schedule is any sequence of moves, each enabled where it is taken. */
  predicate IsRun(s: State, moves: seq<Move>)
    decreases |moves|
  {
    moves == [] || (Enabled(s, moves[0]) && IsRun(Next(s, moves[0]), moves[1..]))
  }

  function After(s: State, moves: seq<Move>): State
    requires IsRun(s, moves)
    decreases |moves|
  {
    if moves == [] then s else After(Next(s, moves[0]), moves[1..])
  }
}
