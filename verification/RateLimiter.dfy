/** The per-account sliding window of utils/account_rate_limit.py. The limiter keeps
    a pruned list of stamps; it behaves as if it kept every stamp it ever admitted. */
module RateLimiter {
  import opened Domain

  type Stamps = seq<real>

  /** [ts for ts in h if ts > cutoff] */
  function Since(h: Stamps, cutoff: real): Stamps {
    if h == [] then [] else (if h[0] > cutoff then [h[0]] else []) + Since(h[1..], cutoff)
  }

  ghost predicate Sorted(h: Stamps) {
    forall i, j :: 0 <= i < j < |h| ==> h[i] <= h[j]
  }

  ghost predicate NoneAfter(h: Stamps, time: real) {
    forall i :: 0 <= i < |h| ==> h[i] <= time
  }

  /** No window of the given length holds more than max stamps: each stamp comes a
      whole window after the max-th stamp before it. */
  ghost predicate Spaced(h: Stamps, max: int, window: real) {
    forall i, j :: 0 <= i < j < |h| && j == i + max ==> h[j] >= h[i] + window
  }

  /** int(x): truncation towards zero. */
  function Truncate(x: real): int {
    if x >= 0.0 then x.Floor else -((-x).Floor)
  }

  /** Dropping old stamps first and older ones later is dropping the later cutoff at once. */
  lemma {:induction false} SinceTwice(h: Stamps, early: real, late: real)
    requires early <= late
    ensures Since(Since(h, early), late) == Since(h, late)
  {
    if h != [] {
      SinceTwice(h[1..], early, late);
      if h[0] > early {
        assert Since(h, early)[1..] == Since(h[1..], early);
      } else {
        assert Since(h, early) == Since(h[1..], early);
      }
    }
  }

  lemma {:induction false} SinceAll(h: Stamps, cutoff: real)
    requires forall i :: 0 <= i < |h| ==> h[i] > cutoff
    ensures Since(h, cutoff) == h
  {
    if h != [] {
      SinceAll(h[1..], cutoff);
    }
  }

  /** In a sorted history the live stamps are its tail. */
  lemma {:induction false} SinceIsTail(h: Stamps, cutoff: real) returns (n: nat)
    requires Sorted(h)
    ensures n <= |h| && Since(h, cutoff) == h[n..]
    ensures forall i :: 0 <= i < |h| ==> (h[i] > cutoff <==> n <= i)
  {
    n := 0;
    if h == [] {
    } else if h[0] > cutoff {
      SinceAll(h, cutoff);
    } else {
      var rest := h[1..];
      assert forall i :: 0 <= i < |rest| ==> rest[i] == h[i + 1];
      var m := SinceIsTail(rest, cutoff);
      n := m + 1;
      assert rest[m..] == h[n..];
      forall i | 0 <= i < |h|
        ensures h[i] > cutoff <==> n <= i
      {
        if i > 0 { assert h[i] == rest[i - 1]; }
      }
    }
  }

  lemma {:induction false} SinceAppend(h: Stamps, x: real, cutoff: real)
    requires x > cutoff
    ensures Since(h + [x], cutoff) == Since(h, cutoff) + [x]
  {
    if h == [] {
      assert h + [x] == [x] && [x][1..] == [];
    } else {
      assert (h + [x])[1..] == h[1..] + [x];
      SinceAppend(h[1..], x, cutoff);
      var head, rest := if h[0] > cutoff then [h[0]] else [], Since(h[1..], cutoff);
      assert Since(h + [x], cutoff) == head + (rest + [x]) == (head + rest) + [x];
    }
  }

  /** Admitting a stamp only while fewer than max are live keeps stamps spaced, even
      though the clock is read once for pruning and again for recording. */
  lemma AdmitKeepsSpaced(h: Stamps, max: int, window: real, pruned: real, recorded: real)
    requires Sorted(h) && Spaced(h, max, window) && NoneAfter(h, pruned)
    requires pruned <= recorded && |Since(h, pruned - window)| < max
    ensures Sorted(h + [recorded]) && Spaced(h + [recorded], max, window) && NoneAfter(h + [recorded], recorded)
  {
    var n := SinceIsTail(h, pruned - window);
    var h' := h + [recorded];
    assert forall i :: 0 <= i < |h'| ==> h'[i] == if i < |h| then h[i] else recorded;
    forall i, j | 0 <= i < j < |h'| && j == i + max
      ensures h'[j] >= h'[i] + window
    {
      if j == |h| {
        assert i < n;
        assert !(h[i] > pruned - window);
      }
    }
  }

  /** The stamps at or after `from` and before `to`. */
  function Within(h: Stamps, from: real, to: real): nat {
    if h == [] then 0 else (if from <= h[0] < to then 1 else 0) + Within(h[1..], from, to)
  }

  lemma {:induction false} NoneWithin(h: Stamps, from: real, to: real)
    requires forall i :: 0 <= i < |h| ==> h[i] >= to
    ensures Within(h, from, to) == 0
  {
    if h != [] {
      NoneWithin(h[1..], from, to);
    }
  }

  lemma {:induction false} WithinAtMostLength(h: Stamps, from: real, to: real)
    ensures Within(h, from, to) <= |h|
  {
    if h != [] {
      WithinAtMostLength(h[1..], from, to);
    }
  }

  lemma {:induction false} WithinConcat(a: Stamps, b: Stamps, from: real, to: real)
    ensures Within(a + b, from, to) == Within(a, from, to) + Within(b, from, to)
  {
    if a == [] {
      assert a + b == b;
    } else {
      assert (a + b)[1..] == a[1..] + b;
      WithinConcat(a[1..], b, from, to);
    }
  }

  /** Any half-open window of the configured length holds at most max admitted stamps. */
  lemma {:induction false} WindowBound(h: Stamps, max: int, window: real, from: real)
    requires Sorted(h) && Spaced(h, max, window) && max >= 1 && window > 0.0
    ensures Within(h, from, from + window) <= max
  {
    if h == [] {
    } else if h[0] >= from {
      if |h| > max {
        assert h[max] >= h[0] + window;
        NoneWithin(h[max..], from, from + window);
        WithinConcat(h[..max], h[max..], from, from + window);
        assert h[..max] + h[max..] == h;
        WithinAtMostLength(h[..max], from, from + window);
      } else {
        WithinAtMostLength(h, from, from + window);
      }
    } else {
      var rest := h[1..];
      assert forall i :: 0 <= i < |rest| ==> rest[i] == h[i + 1];
      WindowBound(rest, max, window, from);
    }
  }

  /** The answer of check_and_record. With a limit of zero or less the limiter looks
      for the oldest stamp of an empty list and raises. */
  datatype Verdict = Admitted | Limited(current: nat, retryAfter: int) | IndexError

  function Hint(window: int, oldest: real, now: real): int {
    var wait := Truncate(window as real - (now - oldest));
    if wait >= 1 then wait else 1
  }

  /** What the limiter would answer if it had kept everything. */
  function FullAnswer(h: Stamps, max: int, window: int, pruned: real, recorded: real): Verdict {
    var live := Since(h, pruned - window as real);
    if |live| < max then Admitted
    else if live == [] then IndexError
    else Limited(|live|, Hint(window, live[0], recorded))
  }

  function Stored(m: map<AccNo, Stamps>, acc: AccNo): Stamps {
    if acc in m then m[acc] else []
  }

  /** The kept list against the full history h: pruned at some cutoff already past. */
  ghost predicate Kept(h: Stamps, list: Stamps, cutoff: Option<real>, max: int, window: int, clock: real) {
    && Sorted(h) && Spaced(h, max, window as real) && NoneAfter(h, clock) && (max <= 0 ==> h == [])
    && match cutoff
       case Some(c) => c <= clock - window as real && list == Since(h, c)
       case None => h == [] && list == []
  }

  lemma KeptLater(h: Stamps, list: Stamps, cutoff: Option<real>, max: int, window: int, clock: real, later: real)
    requires Kept(h, list, cutoff, max, window, clock) && clock <= later
    ensures Kept(h, list, cutoff, max, window, later)
  {
  }

  /** Pruning a kept list at a later cutoff keeps what is live of everything. */
  lemma KeptPruned(h: Stamps, list: Stamps, cutoff: Option<real>, max: int, window: int, clock: real, now: real)
    requires Kept(h, list, cutoff, max, window, clock) && clock <= now
    ensures Since(list, now - window as real) == Since(h, now - window as real)
    ensures Kept(h, Since(h, now - window as real), Some(now - window as real), max, window, now)
  {
    if cutoff.Some? {
      SinceTwice(h, cutoff.value, now - window as real);
    }
  }

  ghost function Cutoff(pruned: map<AccNo, real>, acc: AccNo): Option<real> {
    if acc in pruned then Some(pruned[acc]) else None
  }

  class AccountRateLimiter {
    var operations: map<AccNo, Stamps>
    const maxOps: int
    const window: int
    ghost var admitted: map<AccNo, Stamps>    // every stamp ever recorded
    ghost var pruned: map<AccNo, real>        // the last cutoff applied to each account
    ghost var clock: real                     // the latest clock reading

    /** What is kept is what is still live of everything admitted. */
    ghost predicate Valid()
      reads this
    {
      && window > 0
      && forall acc: AccNo ::
           Kept(Stored(admitted, acc), Stored(operations, acc), Cutoff(pruned, acc), maxOps, window, clock)
    }

    constructor (max: int, period: int)
      requires period > 0
      ensures Valid() && maxOps == max && window == period && admitted == map[]
    {
      operations, maxOps, window := map[], max, period;
      admitted, pruned := map[], map[];
    }

    method CleanupWindow(acc: AccNo, now: real)
      requires Valid() && clock <= now
      modifies this
      ensures Valid() && clock == now && admitted == old(admitted)
      ensures acc in operations
      ensures operations[acc] == Since(Stored(admitted, acc), now - window as real)
      ensures Cutoff(pruned, acc) == Some(now - window as real)
    {
      var cutoff := now - window as real;
      KeptPruned(Stored(admitted, acc), Stored(operations, acc), Cutoff(pruned, acc), maxOps, window, clock, now);
      hide Kept, Since;
      var live := Prune(if acc in operations then operations[acc] else [], cutoff);
      operations := operations[acc := live];
      pruned := pruned[acc := cutoff];
      clock := now;
      forall other: AccNo
        ensures Kept(Stored(admitted, other), Stored(operations, other), Cutoff(pruned, other), maxOps, window, clock)
      {
        if other != acc {
          KeptLater(Stored(admitted, other), Stored(operations, other), Cutoff(pruned, other), maxOps, window, old(clock), clock);
        }
      }
    }

    /** The list comprehension of _cleanup_window. */
    method Prune(stamps: Stamps, cutoff: real) returns (live: Stamps)
      ensures live == Since(stamps, cutoff)
    {
      live := [];
      assert stamps[0..] == stamps;
      for i := 0 to |stamps|
        invariant live + Since(stamps[i..], cutoff) == Since(stamps, cutoff)
      {
        ghost var rest := Since(stamps[i + 1..], cutoff);
        assert stamps[i..][0] == stamps[i] && stamps[i..][1..] == stamps[i + 1..];
        if stamps[i] > cutoff {
          assert live + ([stamps[i]] + rest) == (live + [stamps[i]]) + rest;
          live := live + [stamps[i]];
        } else {
          assert [] + rest == rest;
        }
      }
    }

    /** The limiter answers from its pruned list exactly what the full history says,
        and records a stamp only when it admits. */
    method CheckAndRecord(acc: AccNo, now: real, later: real) returns (verdict: Verdict)
      requires Valid() && clock <= now <= later
      modifies this
      ensures Valid() && clock == later
      ensures verdict == FullAnswer(Stored(old(admitted), acc), maxOps, window, now, later)
      ensures verdict.IndexError? <==> maxOps <= 0
      ensures admitted == if verdict.Admitted?
                          then old(admitted)[acc := Stored(old(admitted), acc) + [later]]
                          else old(admitted)
    {
      CleanupWindow(acc, now);
      var count := |operations[acc]|;
      if count >= maxOps {
        LaterClock(later);
        if count == 0 {
          return IndexError;
        }
        var oldest := operations[acc][0];
        return Limited(count, Hint(window, oldest, later));
      }
      Record(acc, now, later);
      verdict := Admitted;
    }

    ghost method LaterClock(later: real)
      requires Valid() && clock <= later
      modifies this`clock
      ensures Valid() && clock == later
    {
      clock := later;
      forall other: AccNo
        ensures Kept(Stored(admitted, other), Stored(operations, other), Cutoff(pruned, other), maxOps, window, clock)
      {
        KeptLater(Stored(admitted, other), Stored(operations, other), Cutoff(pruned, other), maxOps, window, old(clock), clock);
      }
    }

    method Record(acc: AccNo, ghost now: real, later: real)
      requires Valid() && clock == now <= later && acc in operations && |operations[acc]| < maxOps
      requires Cutoff(pruned, acc) == Some(now - window as real)
      modifies this
      ensures Valid() && clock == later
      ensures admitted == old(admitted)[acc := Stored(old(admitted), acc) + [later]]
    {
      ghost var h := Stored(admitted, acc);
      assert Kept(h, operations[acc], Cutoff(pruned, acc), maxOps, window, clock);
      AdmitKeepsSpaced(h, maxOps, window as real, now, later);
      SinceAppend(h, later, now - window as real);
      operations := operations[acc := operations[acc] + [later]];
      admitted := admitted[acc := h + [later]];
      clock := later;
      forall other: AccNo
        ensures Kept(Stored(admitted, other), Stored(operations, other), Cutoff(pruned, other), maxOps, window, clock)
      {
        if other != acc {
          KeptLater(Stored(admitted, other), Stored(operations, other), Cutoff(pruned, other), maxOps, window, old(clock), clock);
        }
      }
    }

    /** However it has been called, the limiter has admitted at most its limit in any
        window of its length. */
    lemma EveryWindowIsBounded(acc: AccNo, from: real)
      requires Valid() && maxOps >= 1
      ensures Within(Stored(admitted, acc), from, from + window as real) <= maxOps
    {
      assert Kept(Stored(admitted, acc), Stored(operations, acc), Cutoff(pruned, acc), maxOps, window, clock);
      WindowBound(Stored(admitted, acc), maxOps, window as real, from);
    }

    method GetRemaining(acc: AccNo, now: real) returns (remaining: int)
      requires Valid() && clock <= now
      modifies this
      ensures Valid() && clock == now && admitted == old(admitted)
      ensures var used := |Since(Stored(admitted, acc), now - window as real)|;
              remaining == if maxOps > used then maxOps - used else 0
    {
      CleanupWindow(acc, now);
      var used := |operations[acc]|;
      remaining := if maxOps - used > 0 then maxOps - used else 0;
    }
  }

  /** After a refusal the next answer is decided by one moment: when the oldest live
      stamp leaves the window. Until then every attempt is refused; from then on it
      is admitted. */
  lemma RefusedUntilOldestExpires(h: Stamps, max: int, window: int, now: real, later: real, retry: real, recorded: real)
    requires max >= 1 && window > 0 && Sorted(h) && Spaced(h, max, window as real) && NoneAfter(h, now)
    requires FullAnswer(h, max, window, now, later).Limited?
    requires now <= later <= retry <= recorded
    ensures Since(h, now - window as real) != []
    ensures FullAnswer(h, max, window, retry, recorded).Admitted?
            <==> retry >= Since(h, now - window as real)[0] + window as real
  {
    var n := OldestLive(h, max, window as real, now);
    var m := SinceIsTail(h, retry - window as real);
    hide Since, Spaced, Sorted, NoneAfter;
    assert h[n] > retry - window as real <==> m <= n;
    assert m == |h| || h[m] > retry - window as real;
  }

  /** When the window is full, its oldest stamp is the one max places before the end. */
  lemma OldestLive(h: Stamps, max: int, window: real, now: real) returns (n: nat)
    requires max >= 1 && Sorted(h) && Spaced(h, max, window) && NoneAfter(h, now)
    requires |Since(h, now - window)| >= max
    ensures n < |h| && |h| - n == max && Since(h, now - window)[0] == h[n]
  {
    n := SinceIsTail(h, now - window);
    AtMostMaxLive(h, max, window, now, n);
  }

  lemma AtMostMaxLive(h: Stamps, max: int, window: real, now: real, n: nat)
    requires max >= 1 && Spaced(h, max, window) && NoneAfter(h, now) && n <= |h|
    requires forall i :: 0 <= i < |h| ==> (h[i] > now - window <==> n <= i)
    ensures |h| - n <= max
  {
    if |h| > max {
      var j := |h| - 1;
      assert h[j] >= h[j - max] + window;
    }
  }

  /** Waiting the advertised number of seconds and one more is always enough. Waiting
      just the advertised number is enough exactly when nothing was truncated away. */
  lemma HintPlusOneIsEnough(h: Stamps, max: int, window: int, now: real, later: real, retry: real, recorded: real)
    requires max >= 1 && window > 0 && Sorted(h) && Spaced(h, max, window as real) && NoneAfter(h, now)
    requires FullAnswer(h, max, window, now, later).Limited?
    requires now <= later <= retry <= recorded
    ensures var hint := FullAnswer(h, max, window, now, later).retryAfter as real;
            && Since(h, now - window as real) != []
            && (retry >= later + hint + 1.0 ==> FullAnswer(h, max, window, retry, recorded).Admitted?)
            && (retry == later + hint ==>
                  (FullAnswer(h, max, window, retry, recorded).Admitted?
                   <==> window as real - (later - Since(h, now - window as real)[0]) <= hint))
  {
    RefusedUntilOldestExpires(h, max, window, now, later, retry, recorded);
  }

  /** A refusal reports a full window, and a wait of at least a second that falls short of
      the true one by less than a second and exceeds it only to make up that one second. */
  lemma HintIsClose(h: Stamps, max: int, window: int, now: real, later: real)
    requires max >= 1 && window > 0 && Sorted(h) && Spaced(h, max, window as real) && NoneAfter(h, now)
    requires FullAnswer(h, max, window, now, later).Limited?
    ensures FullAnswer(h, max, window, now, later).current == max
    ensures Since(h, now - window as real) != []
    ensures var hint := FullAnswer(h, max, window, now, later).retryAfter;
            var wait := Since(h, now - window as real)[0] + window as real - later;
            && hint >= 1
            && hint as real > wait - 1.0
            && (hint as real <= wait || hint == 1)
  {
    var n := SinceIsTail(h, now - window as real);
    AtMostMaxLive(h, max, window as real, now, n);
  }

  /** The advertised wait alone can be too short: one stamp at zero, a limit of one a
      minute, refused after half a second with "59 seconds", and refused again then. */
  lemma HintCanBeShort()
    ensures FullAnswer([0.0], 1, 60, 0.5, 0.5) == Limited(1, 59)
    ensures FullAnswer([0.0], 1, 60, 59.5, 59.5).Limited?
  {
    assert Since([0.0], 0.5 - 60.0) == [0.0] && Since([0.0], 59.5 - 60.0) == [0.0];
  }
}
