/** Idempotency keys: a retry of a recorded request is invisible. */
module Retries {
  import opened Domain
  import opened Ledger
  import opened BankSpec
  import Emi

  /** Only results of successful movements are recorded. */
  predicate IsSuccess(r: Response) {
    r.Deposited? || r.Withdrawn? || r.Transferred?
  }

  ghost predicate RecordsOk(s: Store) {
    forall k :: k in s.records ==> IsSuccess(s.records[k])
  }

  /** What one call can do to the records: a request that carries a new key and
      succeeds may add its own result, and nothing else changes them. */
  lemma RecordsGrow(s: Store, c: Call)
    ensures var s', r := Step(s, c).0, Step(s, c).1;
            || s'.records == s.records
            || (c.Money? && c.key.Some? && c.key.value !in s.records && IsSuccess(r)
                && s'.records == s.records[c.key.value := r])
  {
    hide Emi.CalculateEmi, Emi.RoundPaise, Post, EmiRefusal, Screening;
  }

  lemma {:induction false} RecordsLast(s: Store, calls: seq<Call>, key: Key)
    requires key in s.records
    ensures key in Run(s, calls).records && Run(s, calls).records[key] == s.records[key]
    decreases |calls|
  {
    hide Step;
    if calls != [] {
      RecordsGrow(s, calls[0]);
      RecordsLast(Step(s, calls[0]).0, calls[1..], key);
    }
  }

  /** A failed request is never recorded, whatever has happened before. */
  lemma {:induction false} FailuresAreNeverRecorded(s: Store, calls: seq<Call>)
    requires RecordsOk(s)
    ensures RecordsOk(Run(s, calls))
    decreases |calls|
  {
    hide Step;
    if calls != [] {
      RecordsGrow(s, calls[0]);
      FailuresAreNeverRecorded(Step(s, calls[0]).0, calls[1..]);
    }
  }

  /** A request whose key is on record changes nothing at all. */
  lemma RecordedRequestIsAnswered(s: Store, op: Op, key: Key, persisted: bool)
    requires Screen(op).None? && key in s.records
    ensures Step(s, Money(op, Some(key), persisted)) == (s, Cached(op, s.records[key]))
  {
  }

  /** A successful request is answered with a result of its own shape, which is what
      the cache gives back. */
  lemma OwnResultIsCached(s: Store, op: Op, key: Key, persisted: bool)
    requires var (s', r) := Step(s, Money(op, Some(key), persisted)); key in s'.records && key !in s.records
    ensures var (s', r) := Step(s, Money(op, Some(key), persisted));
            Screen(op).None? && s'.records[key] == r && Cached(op, r) == r
  {
  }

  /** What a movement request does. One that can never be right is refused even under a
      recorded key; a recorded key is answered from its record; everything else is carried
      out, and recorded exactly when it succeeds under a key whose record is stored. */
  lemma MovementMeaning(s: Store, op: Op, key: Option<Key>, persisted: bool)
    ensures var (s', answer) := Step(s, Money(op, key, persisted));
            var hopeless := op.amount <= 0 || (op.Transfer? && op.sender == op.receiver);
            var recorded := key.Some? && key.value in s.records;
            && (hopeless ==> s' == s && answer == Refused(if op.amount <= 0 then NotPositive else SelfTransfer))
            && (!hopeless && recorded ==> s' == s && answer == Cached(op, s.records[key.value]))
            && (!hopeless && !recorded ==>
                  && (s'.ledger, answer) == Exec(s.ledger, op)
                  && (answer.Refused? <==> !Admissible(s.ledger, op))
                  && s'.loans == s.loans && s'.goals == s.goals
                  && s'.records == if IsSuccess(answer) && key.Some? && persisted then s.records[key.value := answer]
                                   else s.records)
  {
    ExecMeaning(s.ledger, op);
  }

  /** Inserting a retry anywhere after the request it repeats changes no later store
      and no other answer, and the retry gets the answer the request got. */
  lemma RetryIsInvisible(s: Store, op: Op, key: Key, persisted: bool, retryPersisted: bool, between: seq<Call>, later: seq<Call>)
    requires key !in s.records
    requires key in Step(s, Money(op, Some(key), persisted)).0.records
    ensures var request, retry := Money(op, Some(key), persisted), Money(op, Some(key), retryPersisted);
            var once := [request] + between;
            && Run(s, once + [retry] + later) == Run(s, once + later)
            && Answers(s, once + [retry] + later)
               == Answers(s, once) + [Step(s, request).1] + Answers(Run(s, once), later)
            && Answers(s, once + later) == Answers(s, once) + Answers(Run(s, once), later)
  {
    hide Step;
    var request, retry := Money(op, Some(key), persisted), Money(op, Some(key), retryPersisted);
    var once := [request] + between;
    var s1 := Step(s, request).0;
    var s2 := Run(s, once);
    assert once[1..] == between;
    OwnResultIsCached(s, op, key, persisted);
    RecordsLast(s1, between, key);
    RecordedRequestIsAnswered(s2, op, key, retryPersisted);
    RunConcat(s, once, [retry] + later);
    RunConcat(s, once, later);
    assert once + [retry] + later == once + ([retry] + later);
    assert ([retry] + later)[1..] == later;
  }
}
