/** What serial equivalence buys: every interleaving of deposits, withdrawals and
    transfers keeps the ledger's own promises. */
module ConcurrentLedger {
  import opened Domain
  import opened Ledger
  import opened Concurrent
  import opened Serialisability
  import opened Conservation
  import opened LedgerReplay

  predicate NoOverdraft(l: Ledger) {
    forall a :: a in l.accounts ==> l.accounts[a].balance >= 0
  }

  function BookAll(rows: seq<Row>): seq<Entry> {
    seq(|rows|, i requires 0 <= i < |rows| => Booked(rows[i]))
  }

  /** The log has only grown, and its new rows explain every balance row by row. */
  ghost predicate Accounted(l: Ledger, l': Ledger) {
    l.log <= l'.log && Explains(l, BookAll(l'.log[|l.log|..]), l')
  }

  lemma ExecAccounted(l: Ledger, op: Op)
    ensures Accounted(l, Exec(l, op).0)
  {
    hide Explains;
    var l', n := Exec(l, op).0, |l.log|;
    ExecGrows(l, op);
    ExecExplained(l, op);
    if l' == l {
      assert BookAll(l'.log[n..]) == [];
    } else if |l'.log| == n + 1 {
      assert BookAll(l'.log[n..]) == [Booked(l'.log[n])];
    } else {
      assert BookAll(l'.log[n..]) == [Booked(l'.log[n]), Booked(l'.log[n + 1])];
    }
  }

  lemma ExecGrows(l: Ledger, op: Op)
    ensures l.log <= Exec(l, op).0.log
    ensures NoOverdraft(l) ==> NoOverdraft(Exec(l, op).0)
  {
  }

  lemma AccountedTrans(a: Ledger, b: Ledger, c: Ledger)
    requires Accounted(a, b) && Accounted(b, c)
    ensures Accounted(a, c)
  {
    hide Explains;
    var first, second := b.log[|a.log|..], c.log[|b.log|..];
    ExplainsTrans(a, BookAll(first), b, BookAll(second), c);
    assert c.log[|a.log|..] == first + second;
    assert BookAll(first + second) == BookAll(first) + BookAll(second);
  }

  lemma {:induction false} ReplayKeepsPromises(l: Ledger, h: seq<Event>)
    ensures Accounted(l, Replay(l, h))
    ensures Unexplained(Replay(l, h)) == Unexplained(l)
    ensures NoOverdraft(l) ==> NoOverdraft(Replay(l, h))
    decreases |h|
  {
    hide Exec, Unexplained, Explains;
    if h == [] {
      ExplainsNothing(l, l);
      assert BookAll(l.log[|l.log|..]) == [];
    } else {
      var before, op := h[..|h| - 1], h[|h| - 1].op;
      ReplayKeepsPromises(l, before);
      ExecAccounted(Replay(l, before), op);
      ExecConserves(Replay(l, before), op);
      ExecGrows(Replay(l, before), op);
      AccountedTrans(l, Replay(l, before), Replay(l, h));
    }
  }

  /** However the threads interleave, fail or are killed, as long as no step does harm:
      no money appears or vanishes, nobody is overdrawn, and every row of the log states
      its account's balance at that point of the log. */
  lemma EveryRunKeepsPromises(l: Ledger, jobs: seq<Job>, moves: seq<Move>)
    requires IsRun(Init(l, jobs), moves) && HarmlessRun(Init(l, jobs), moves)
    ensures var l' := After(Init(l, jobs), moves).ledger;
            Accounted(l, l') && Unexplained(l') == Unexplained(l) && (NoOverdraft(l) ==> NoOverdraft(l'))
  {
    EveryRunIsSerial(l, jobs, moves);
    ReplayKeepsPromises(l, After(Init(l, jobs), moves).history);
  }

  // ---- what survives even harm -----------------------------------------------

  predicate PositiveWrites(ws: seq<Write>) {
    forall i :: 0 <= i < |ws| && ws[i].SetBalance? ==> ws[i].balance >= 0
  }

  predicate PositiveReads(read: seq<Option<Account>>) {
    forall i :: 0 <= i < |read| && read[i].Some? ==> read[i].value.balance >= 0
  }

  /** No balance anywhere -- committed, left behind, read or staged -- is negative. */
  predicate Covered(s: State) {
    && NoOverdraft(s.ledger)
    && (forall w :: w in s.leftovers ==> PositiveWrites(s.leftovers[w]))
    && (forall t :: 0 <= t < |s.threads| ==> PositiveReads(s.threads[t].read) && PositiveWrites(s.threads[t].pending))
  }

  lemma {:induction false} WritesKeepCover(l: Ledger, ws: seq<Write>)
    requires NoOverdraft(l) && PositiveWrites(ws)
    ensures NoOverdraft(ApplyAll(l, ws))
    decreases |ws|
  {
    if ws != [] {
      WritesKeepCover(Apply(l, ws[0]), ws[1..]);
    }
  }

  lemma StagedArePositive(op: Op, read: seq<Option<Account>>)
    requires Screen(op).None? && |read| == |Parties(op)| && Guard(op, read).None? && PositiveReads(read)
    ensures PositiveWrites(WriteSet(op, read))
  {
  }

  lemma CoverKept(s: State, s': State, t: nat)
    requires Covered(s) && OnlyThread(s, s', t) && NoOverdraft(s'.ledger)
    requires s'.leftovers.Keys <= s.leftovers.Keys && forall w :: w in s'.leftovers ==> s'.leftovers[w] == s.leftovers[w]
    requires PositiveReads(s'.threads[t].read) && PositiveWrites(s'.threads[t].pending)
    ensures Covered(s')
  {
    hide PositiveReads, PositiveWrites, NoOverdraft;
  }

  /** What a step reads and stages. */
  lemma AdvancedThreadIsCovered(s: State, t: nat)
    requires Shape(s) && Covered(s) && CanAdvance(s, t)
    ensures var th := AdvanceThread(s, t).threads[t]; PositiveReads(th.read) && PositiveWrites(th.pending)
  {
    var th := s.threads[t];
    assert ThreadOk(s, t) && PositiveReads(th.read) && PositiveWrites(th.pending);
    WritesKeepCover(s.ledger, Leftover(s, th.worker));
    hide LocksOk, HistoryOk, InOrder, ThreadsOk, Screen, Guard, WriteSet, ApplyAll, Success, Locks, Turn, Covered;
    if th.phase.Stage? {
      StagedArePositive(th.op, th.read);
    }
  }

  /** What a step makes of the store and of the sessions. */
  lemma AdvancedStoreIsCovered(s: State, t: nat)
    requires Covered(s) && CanAdvance(s, t)
    ensures var s' := AdvanceThread(s, t);
            && NoOverdraft(s'.ledger) && s'.leftovers.Keys <= s.leftovers.Keys
            && forall w :: w in s'.leftovers ==> s'.leftovers[w] == s.leftovers[w]
  {
    var th := s.threads[t];
    assert PositiveWrites(th.pending);
    WritesKeepCover(s.ledger, Leftover(s, th.worker));
    WritesKeepCover(View(s, th.worker), th.pending);
    hide Screen, Guard, WriteSet, ApplyAll, Success, Locks, Turn, Covered, NoOverdraft, PositiveWrites, PositiveReads, Live;
  }

  lemma AdvanceKeepsCover(s: State, t: nat)
    requires Shape(s) && Covered(s) && CanAdvance(s, t)
    ensures Covered(AdvanceThread(s, t))
  {
    hide Shape, Covered, AdvanceThread, CanAdvance;
    AdvanceKeepsShape(s, t);
    AdvancedThreadIsCovered(s, t);
    AdvancedStoreIsCovered(s, t);
    CoverKept(s, AdvanceThread(s, t), t);
  }

  lemma NextKeepsCover(s: State, m: Move)
    requires Shape(s) && Covered(s) && Enabled(s, m)
    ensures Covered(Next(s, m))
  {
    if m.Advance? {
      AdvanceKeepsCover(s, m.tid);
    } else {
      hide Shape, Screen, Guard, WriteSet, ApplyAll, Success, Locks, Parties;
    }
  }

  lemma {:induction false} RunKeepsCover(s: State, moves: seq<Move>)
    requires Shape(s) && Covered(s) && IsRun(s, moves)
    ensures Covered(After(s, moves))
    decreases |moves|
  {
    hide Shape, Covered, Next, Enabled;
    if moves != [] {
      NextKeepsCover(s, moves[0]);
      NextKeepsShape(s, moves[0]);
      RunKeepsCover(Next(s, moves[0]), moves[1..]);
    }
  }

  /** In every run at all, harmful or not, nobody is overdrawn. */
  lemma NobodyIsOverdrawn(l: Ledger, jobs: seq<Job>, moves: seq<Move>)
    requires NoOverdraft(l) && IsRun(Init(l, jobs), moves)
    ensures NoOverdraft(After(Init(l, jobs), moves).ledger)
  {
    InitInv(l, jobs);
    RunKeepsCover(Init(l, jobs), moves);
  }
}
