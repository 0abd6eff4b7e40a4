/** Login attempts: five wrong passwords lock a key for fifteen minutes. */
module LoginLockout {
  import opened Domain

  const MAX_LOGIN_ATTEMPTS := 5
  const LOCKOUT: Time := 15 * 60

  /** An account number, or "admin_" and a user name; the two never coincide. */
  datatype LockKey = Customer(acc: AccNo) | Admin(user: nat)

  datatype Attempt = Attempt(count: int, firstFailed: Time, lockoutUntil: Option<Time>)

  datatype Standing = Missing | Frozen | Closed | Open

  datatype Outcome =
    | Locked(minutes: int)
    | Unavailable(standing: Standing)
    | Wrong(remaining: int)
    | Welcome
    | CommitFailed

  function Max(a: int, b: int): int {
    if a >= b then a else b
  }

  function Get(m: map<LockKey, Attempt>, k: LockKey): Option<Attempt> {
    if k in m then Some(m[k]) else None
  }

  function Put(m: map<LockKey, Attempt>, k: LockKey, a: Option<Attempt>): map<LockKey, Attempt> {
    if a.Some? then m[k := a.value] else m - {k}
  }

  // ---- one key on its own --------------------------------------------------

  predicate LockedAt(a: Option<Attempt>, now: Time) {
    && a.Some? && a.value.count >= MAX_LOGIN_ATTEMPTS
    && a.value.lockoutUntil.Some? && now < a.value.lockoutUntil.value
  }

  /** What the lock check leaves of a record: a spent lock is deleted. */
  function Checked(a: Option<Attempt>, now: Time): Option<Attempt> {
    if a.Some? && a.value.count >= MAX_LOGIN_ATTEMPTS && !LockedAt(a, now) then None else a
  }

  function Failed(a: Option<Attempt>, now: Time): Attempt {
    match a
    case None => Attempt(1, now, None)
    case Some(previous) =>
      var next :=
        if previous.lockoutUntil.Some? && now >= previous.lockoutUntil.value then Attempt(1, now, None)
        else previous.(count := previous.count + 1);
      if next.count >= MAX_LOGIN_ATTEMPTS then next.(lockoutUntil := Some(now + LOCKOUT)) else next
  }

  /** One try: how the account stands, whether the password is right, and the two
      clock readings, one for the lock check and one for recording a failure. */
  datatype Try = Try(standing: Standing, correct: bool, checkedAt: Time, failedAt: Time)

  /** The record after a try, as the session shows it, and the answer. The deletion of a
      spent lock stays pending when the account turns out not to be open. */
  function Login(a: Option<Attempt>, t: Try): (Option<Attempt>, Outcome) {
    if LockedAt(a, t.checkedAt) then
      (a, Locked(Max(1, (a.value.lockoutUntil.value - t.checkedAt) / 60)))
    else if t.standing != Open then (Checked(a, t.checkedAt), Unavailable(t.standing))
    else if t.correct then (None, Welcome)
    else
      var next := Failed(Checked(a, t.checkedAt), t.failedAt);
      (Some(next), Wrong(Max(0, MAX_LOGIN_ATTEMPTS - next.count)))
  }

  /** What a try is answered: a login succeeds exactly when the key is not locked, the
      account is open and the password is right; a wrong password is counted exactly when
      the key is not locked and the account is open. */
  lemma LoginMeaning(a: Option<Attempt>, t: Try)
    ensures var (after, outcome) := Login(a, t);
            && (outcome.Welcome? <==> !LockedAt(a, t.checkedAt) && t.standing.Open? && t.correct)
            && (outcome.Wrong? <==> !LockedAt(a, t.checkedAt) && t.standing.Open? && !t.correct)
            && (outcome.Locked? <==> LockedAt(a, t.checkedAt))
            && (forall s :: outcome == Unavailable(s) <==> !LockedAt(a, t.checkedAt) && t.standing == s && !s.Open?)
            && (outcome.Welcome? ==> after == None)
            && (outcome.Locked? ==> after == a)
            && (outcome.Unavailable? ==> after == a || (after == None && a.Some? && a.value.count >= 5))
            && (outcome.Wrong? ==> after.Some? && outcome.remaining == Max(0, 5 - after.value.count))
  {
  }

  /** The minutes a locked key is told: whole minutes, rounded down, and at least one. */
  lemma LockedMinutes(a: Option<Attempt>, t: Try)
    requires Login(a, t).1.Locked?
    ensures var wait, minutes := a.value.lockoutUntil.value - t.checkedAt, Login(a, t).1.minutes;
            minutes >= 1 && wait < 60 * (minutes + 1) && (60 * minutes <= wait || minutes == 1)
  {
  }

  /** What a try commits. */
  predicate Settles(outcome: Outcome) {
    outcome.Wrong? || outcome.Welcome?
  }

  // ---- the services --------------------------------------------------------

  /** The one session of the asynchronous services outlives every request: a try answers
      from what earlier tries have left in it, and only a commit makes it last. */
  class AsyncAuthService {
    var committed: map<LockKey, Attempt>
    var session: map<LockKey, Attempt>

    constructor ()
      ensures session == committed == map[]
    {
      committed, session := map[], map[];
    }

    method IsLocked(key: LockKey, now: Time) returns (locked: bool, minutes: int)
      modifies this`session
      ensures locked == LockedAt(Get(old(session), key), now)
      ensures session == if locked then old(session) else Put(old(session), key, Checked(Get(old(session), key), now))
      ensures locked ==> minutes == Max(1, (old(session)[key].lockoutUntil.value - now) / 60)
    {
      if key !in session || session[key].count < MAX_LOGIN_ATTEMPTS {
        return false, 0;
      }
      var lockoutUntil := session[key].lockoutUntil;
      if lockoutUntil.Some? && now < lockoutUntil.value {
        return true, Max(1, (lockoutUntil.value - now) / 60);
      }
      session := session - {key};
      return false, 0;
    }

    method RecordFailure(key: LockKey, now: Time) returns (remaining: int)
      modifies this`session
      ensures var next := Failed(Get(old(session), key), now);
              session == old(session)[key := next] && remaining == Max(0, MAX_LOGIN_ATTEMPTS - next.count)
    {
      var model: Attempt;
      if key !in session {
        model := Attempt(1, now, None);
      } else {
        model := session[key];
        if model.lockoutUntil.Some? && now >= model.lockoutUntil.value {
          model := model.(count := 1);
          model := model.(firstFailed := now);
          model := model.(lockoutUntil := None);
        } else {
          model := model.(count := model.count + 1);
        }
        if model.count >= MAX_LOGIN_ATTEMPTS {
          model := model.(lockoutUntil := Some(now + LOCKOUT));
        }
      }
      session := session[key := model];
      remaining := Max(0, MAX_LOGIN_ATTEMPTS - model.count);
    }

    method Reset(key: LockKey)
      modifies this`session
      ensures session == old(session) - {key}
    {
      session := session - {key};
    }

    method Commit()
      modifies this`committed
      ensures committed == session
    {
      committed := session;
    }

    /** The transaction is undone, or the process starts again: what was not committed is gone. */
    method Restart()
      modifies this`session
      ensures session == committed
    {
      session := committed;
    }

    /** A commit that fails has undone the whole transaction and leaves as an exception. */
    method CustomerLogin(acc: AccNo, t: Try, commitFails: bool) returns (outcome: Outcome)
      modifies this
      ensures var (record, answer) := Login(Get(old(session), Customer(acc)), t);
              if Settles(answer) && commitFails
              then outcome == CommitFailed && session == committed == old(committed)
              else
                && outcome == answer && session == Put(old(session), Customer(acc), record)
                && committed == if Settles(answer) then session else old(committed)
    {
      var key := Customer(acc);
      var locked, minutes := IsLocked(key, t.checkedAt);
      if locked {
        return Locked(minutes);
      }
      if t.standing.Missing? || t.standing.Frozen? || t.standing.Closed? {
        return Unavailable(t.standing);
      }
      if !t.correct {
        var remaining := RecordFailure(key, t.failedAt);
        if commitFails { Restart(); return CommitFailed; }
        Commit();
        return Wrong(remaining);
      }
      Reset(key);
      if commitFails { Restart(); return CommitFailed; }
      Commit();
      return Welcome;
    }

    /** An unknown administrator is treated like a wrong password. */
    method AdminLogin(user: nat, known: bool, correct: bool, checkedAt: Time, failedAt: Time, commitFails: bool)
      returns (outcome: Outcome)
      modifies this
      ensures var (record, answer) := Login(Get(old(session), Admin(user)), Try(Open, known && correct, checkedAt, failedAt));
              if Settles(answer) && commitFails
              then outcome == CommitFailed && session == committed == old(committed)
              else
                && outcome == answer && session == Put(old(session), Admin(user), record)
                && committed == if Settles(answer) then session else old(committed)
    {
      var key := Admin(user);
      var locked, minutes := IsLocked(key, checkedAt);
      if locked {
        return Locked(minutes);
      }
      if known && correct {
        Reset(key);
        if commitFails { Restart(); return CommitFailed; }
        Commit();
        return Welcome;
      }
      var remaining := RecordFailure(key, failedAt);
      if commitFails { Restart(); return CommitFailed; }
      Commit();
      return Wrong(remaining);
    }
  }

  // ---- whole runs ----------------------------------------------------------

  /** A key's record as the session shows it and as it is committed, the times of the
      wrong passwords counted since the last login that succeeded, the wrong passwords that
      were checked but whose commit failed, and the latest clock reading. */
  datatype Watch = Watch(record: Option<Attempt>, stored: Option<Attempt>, failures: seq<Time>, missed: nat, clock: Time)

  /** What can happen to a key: a try; a try whose commit fails; a commit by some other
      request of the session; a restart of the process. */
  datatype Visit = Attempting(try: Try) | Losing(try: Try) | OtherCommit | Restarted

  function Next(w: Watch, v: Visit): Watch {
    match v
    case OtherCommit => w.(stored := w.record)
    case Restarted => w.(record := w.stored)
    case Attempting(t) =>
      var (a, outcome) := Login(w.record, t);
      Watch(a, if Settles(outcome) then a else w.stored,
            if outcome.Welcome? then [] else if outcome.Wrong? then w.failures + [t.failedAt] else w.failures,
            w.missed, t.failedAt)
    case Losing(t) =>
      var (a, outcome) := Login(w.record, t);
      if Settles(outcome)
      then w.(record := w.stored, missed := w.missed + (if outcome.Wrong? then 1 else 0), clock := t.failedAt)
      else w.(record := a, clock := t.failedAt)
  }

  function Watched(w: Watch, visits: seq<Visit>): Watch
    decreases |visits|
  {
    if visits == [] then w else Watched(Next(w, visits[0]), visits[1..])
  }

  /** Clock readings never go back. */
  predicate Timely(clock: Time, visits: seq<Visit>)
    decreases |visits|
  {
    visits == []
    || (match visits[0]
        case Attempting(t) => clock <= t.checkedAt <= t.failedAt && Timely(t.failedAt, visits[1..])
        case Losing(t) => clock <= t.checkedAt <= t.failedAt && Timely(t.failedAt, visits[1..])
        case _ => Timely(clock, visits[1..]))
  }

  ghost predicate Ordered(f: seq<Time>, clock: Time) {
    && (forall i, j :: 0 <= i < j < |f| ==> f[i] <= f[j])
    && (forall i :: 0 <= i < |f| ==> f[i] <= clock)
  }

  /** After every fifth failure the next one is at least a lockout later. */
  ghost predicate Paused(f: seq<Time>) {
    forall i, j :: 0 <= i < j < |f| && j == i + 1 && j % MAX_LOGIN_ATTEMPTS == 0 ==> f[j] >= f[i] + LOCKOUT
  }

  /** A record and the failures it stands for. */
  predicate RecordOk(record: Option<Attempt>, f: seq<Time>, clock: Time) {
    var n := |f|;
    match record
    case None => n % MAX_LOGIN_ATTEMPTS == 0 && (n > 0 ==> clock >= f[n - 1] + LOCKOUT)
    case Some(a) =>
      && 1 <= a.count <= n && a.count <= MAX_LOGIN_ATTEMPTS && (n - a.count) % MAX_LOGIN_ATTEMPTS == 0
      && a.firstFailed == f[n - a.count]
      && a.lockoutUntil == (if a.count == MAX_LOGIN_ATTEMPTS then Some(f[n - 1] + LOCKOUT) else None)
  }

  ghost predicate WatchOk(w: Watch) {
    && Ordered(w.failures, w.clock) && Paused(w.failures)
    && RecordOk(w.record, w.failures, w.clock) && RecordOk(w.stored, w.failures, w.clock)
  }

  lemma OrderedLater(f: seq<Time>, clock: Time, later: Time)
    requires Ordered(f, clock) && clock <= later
    ensures Ordered(f, later)
  {
  }

  lemma AppendFailure(f: seq<Time>, clock: Time, time: Time)
    requires Ordered(f, clock) && Paused(f) && clock <= time
    requires |f| > 0 && |f| % MAX_LOGIN_ATTEMPTS == 0 ==> time >= f[|f| - 1] + LOCKOUT
    ensures Ordered(f + [time], time) && Paused(f + [time])
  {
    var f' := f + [time];
    assert forall i :: 0 <= i < |f'| ==> f'[i] == if i < |f| then f[i] else time;
  }

  lemma NextKeepsWatch(w: Watch, v: Visit)
    requires WatchOk(w) && Timely(w.clock, [v])
    ensures WatchOk(Next(w, v))
  {
    if v.Attempting? || v.Losing? {
      TryKeepsWatch(w, v.try);
      OrderedLater(w.failures, w.clock, v.try.failedAt);
    }
  }

  lemma TryKeepsWatch(w: Watch, t: Try)
    requires WatchOk(w) && w.clock <= t.checkedAt <= t.failedAt
    ensures WatchOk(Next(w, Attempting(t)))
  {
    if Login(w.record, t).1.Wrong? {
      WrongKeepsWatch(w, t);
    } else {
      hide Ordered, Paused;
      OrderedLater(w.failures, w.clock, t.failedAt);
      NoFailures(t.failedAt);
    }
  }

  lemma WrongKeepsWatch(w: Watch, t: Try)
    requires WatchOk(w) && w.clock <= t.checkedAt <= t.failedAt && Login(w.record, t).1.Wrong?
    ensures WatchOk(Next(w, Attempting(t)))
  {
    WrongKeepsPhase(w, t);
    hide Ordered, Paused, Failed, Checked;
    var f, n := w.failures + [t.failedAt], |w.failures|;
    AppendFailure(w.failures, w.clock, t.failedAt);
    assert f[n] == t.failedAt;
    assert Next(w, Attempting(t)).failures == f;
  }

  lemma NoFailures(clock: Time)
    ensures Ordered([], clock) && Paused([])
  {
  }

  /** Where a wrong password leaves the count, and when it can have come. */
  lemma WrongKeepsPhase(w: Watch, t: Try)
    requires WatchOk(w) && w.clock <= t.checkedAt <= t.failedAt && Login(w.record, t).1.Wrong?
    ensures var n := |w.failures|;
            var next := Failed(Checked(w.record, t.checkedAt), t.failedAt);
            && (n > 0 && n % MAX_LOGIN_ATTEMPTS == 0 ==> t.failedAt >= w.failures[n - 1] + LOCKOUT)
            && 1 <= next.count <= n + 1 && next.count <= MAX_LOGIN_ATTEMPTS && (n + 1 - next.count) % MAX_LOGIN_ATTEMPTS == 0
            && next.firstFailed == (w.failures + [t.failedAt])[n + 1 - next.count]
            && next.lockoutUntil == (if next.count == MAX_LOGIN_ATTEMPTS then Some(t.failedAt + LOCKOUT) else None)
  {
    hide Ordered, Paused;
    if w.record.Some? {
      var c, n := w.record.value.count, |w.failures|;
      assert (n - c) % MAX_LOGIN_ATTEMPTS == 0;
      assert c == MAX_LOGIN_ATTEMPTS ==> n % MAX_LOGIN_ATTEMPTS == 0;
      assert c < MAX_LOGIN_ATTEMPTS ==> n % MAX_LOGIN_ATTEMPTS != 0;
    }
  }

  lemma {:induction false} RunKeepsWatch(w: Watch, visits: seq<Visit>)
    requires WatchOk(w) && Timely(w.clock, visits)
    ensures WatchOk(Watched(w, visits))
    decreases |visits|
  {
    hide Next, WatchOk;
    if visits != [] {
      assert Timely(w.clock, [visits[0]]) by { FirstIsTimely(w.clock, visits); }
      NextKeepsWatch(w, visits[0]);
      NextClock(w, visits[0]);
      RunKeepsWatch(Next(w, visits[0]), visits[1..]);
    }
  }

  lemma FirstIsTimely(clock: Time, visits: seq<Visit>)
    requires visits != [] && Timely(clock, visits)
    ensures Timely(clock, [visits[0]])
  {
    var v := [visits[0]];
    assert v[1..] == [];
  }

  lemma NextClock(w: Watch, v: Visit)
    ensures Next(w, v).clock == if v.Attempting? || v.Losing? then v.try.failedAt else w.clock
  {
  }

  /** Five failures on, a whole lockout has passed. */
  lemma FiveApart(w: Watch, i: nat)
    requires WatchOk(w) && i + MAX_LOGIN_ATTEMPTS < |w.failures|
    ensures w.failures[i + MAX_LOGIN_ATTEMPTS] >= w.failures[i] + LOCKOUT
  {
    var b := i + (MAX_LOGIN_ATTEMPTS - i % MAX_LOGIN_ATTEMPTS);
    assert b % MAX_LOGIN_ATTEMPTS == 0 && i < b <= i + MAX_LOGIN_ATTEMPTS;
    assert w.failures[b] >= w.failures[b - 1] + LOCKOUT;
  }

  lemma {:induction false} FiveTimesApart(w: Watch, i: nat, k: nat)
    requires WatchOk(w) && i + MAX_LOGIN_ATTEMPTS * k < |w.failures|
    ensures w.failures[i + MAX_LOGIN_ATTEMPTS * k] >= w.failures[i] + k * LOCKOUT
  {
    if k > 0 {
      FiveTimesApart(w, i, k - 1);
      FiveApart(w, i + MAX_LOGIN_ATTEMPTS * (k - 1));
    }
  }

  lemma SpanHoldsFivePerLockout(w: Watch, i: nat, j: nat, span: nat)
    requires WatchOk(w) && i < j <= |w.failures| && w.failures[j - 1] - w.failures[i] <= span
    ensures j - i <= MAX_LOGIN_ATTEMPTS * (span / LOCKOUT + 1)
  {
    var k := span / LOCKOUT + 1;
    assert span < k * LOCKOUT;
    if j - i > MAX_LOGIN_ATTEMPTS * k {
      FiveTimesApart(w, i, k);
    }
  }

  /** Whatever is tried and whenever, other requests' commits, failed commits and restarts
      of the process in between: until a login succeeds no span of time sees more than five
      counted wrong passwords per lockout begun. */
  lemma GuessBound(start: Time, visits: seq<Visit>, i: nat, j: nat, span: nat)
    requires Timely(start, visits)
    requires var f := Watched(Watch(None, None, [], 0, start), visits).failures;
             i < j <= |f| && f[j - 1] - f[i] <= span
    ensures j - i <= 5 * (span / 900 + 1)
  {
    RunKeepsWatch(Watch(None, None, [], 0, start), visits);
    hide Watched, Timely, WatchOk;
    SpanHoldsFivePerLockout(Watched(Watch(None, None, [], 0, start), visits), i, j, span);
  }

  /** A locked key refuses every try, right password or not, and is left exactly as it
      was; after the fifth failure it is locked for exactly the lockout. */
  lemma LockedUntilExpiry(start: Time, visits: seq<Visit>, t: Try)
    requires Timely(start, visits)
    ensures var w := Watched(Watch(None, None, [], 0, start), visits);
            && (Login(w.record, t).1.Locked? ==> Login(w.record, t).0 == w.record)
            && (w.clock <= t.checkedAt ==>
                  (Login(w.record, t).1.Locked? <==>
                     |w.failures| > 0 && |w.failures| % 5 == 0
                     && t.checkedAt < w.failures[|w.failures| - 1] + 15 * 60))
  {
    RunKeepsWatch(Watch(None, None, [], 0, start), visits);
    hide Watched, Timely, WatchOk;
    LockedExactly(Watched(Watch(None, None, [], 0, start), visits), t);
  }

  lemma LockedExactly(w: Watch, t: Try)
    requires WatchOk(w)
    ensures Login(w.record, t).1.Locked? ==> Login(w.record, t).0 == w.record
    ensures w.clock <= t.checkedAt ==>
              (Login(w.record, t).1.Locked? <==>
                 |w.failures| > 0 && |w.failures| % 5 == 0
                 && t.checkedAt < w.failures[|w.failures| - 1] + 15 * 60)
  {
    hide Ordered, Paused;
  }

  predicate IsLosing(v: Visit) {
    v.Losing?
  }

  function CountLosing(visits: seq<Visit>): nat {
    if visits == [] then 0 else (if IsLosing(visits[0]) then 1 else 0) + CountLosing(visits[1..])
  }

  /** Wrong passwords escape the count only through commits that fail, one each. */
  lemma {:induction false} MissedBound(w: Watch, visits: seq<Visit>)
    ensures w.missed <= Watched(w, visits).missed <= w.missed + CountLosing(visits)
    decreases |visits|
  {
    if visits != [] {
      hide Login;
      MissedBound(Next(w, visits[0]), visits[1..]);
    }
  }

  lemma CountOfFive(n: nat, c: int)
    requires (n + 1 - c) % 5 == 0 && 1 <= c <= 5
    ensures c == n % 5 + 1
  {
  }

  lemma WrongTellsTriesLeft(w: Watch, t: Try)
    requires WatchOk(w) && w.clock <= t.checkedAt <= t.failedAt && Login(w.record, t).1.Wrong?
    ensures Login(w.record, t).1.remaining == 4 - |w.failures| % 5
  {
    WrongKeepsPhase(w, t);
    hide WatchOk, Failed, Checked;
    CountOfFive(|w.failures|, Failed(Checked(w.record, t.checkedAt), t.failedAt).count);
  }

  /** In every run a wrong password is told how many tries are left of the current five. */
  lemma TriesLeft(start: Time, visits: seq<Visit>, t: Try)
    requires Timely(start, visits)
    requires var w := Watched(Watch(None, None, [], 0, start), visits);
             w.clock <= t.checkedAt <= t.failedAt && Login(w.record, t).1.Wrong?
    ensures var w := Watched(Watch(None, None, [], 0, start), visits);
            Login(w.record, t).1.remaining == 4 - |w.failures| % 5
  {
    RunKeepsWatch(Watch(None, None, [], 0, start), visits);
    hide Watched, Timely, WatchOk, Login;
    WrongTellsTriesLeft(Watched(Watch(None, None, [], 0, start), visits), t);
  }

  /** A visit to an account that is not open adds no failure, commits nothing, and leaves
      the record as it was but for a spent lock. */
  lemma NotOpenLeavesTheRecord(w: Watch, t: Try)
    requires !t.standing.Open?
    ensures var after := Next(w, Attempting(t));
            && after.failures == w.failures && after.stored == w.stored && after.missed == w.missed
            && (after.record == w.record
                || (after.record == None && w.record.Some? && w.record.value.count >= 5 && !LockedAt(w.record, t.checkedAt)))
  {
  }
}
