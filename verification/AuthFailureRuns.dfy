/** What the failure limiter guarantees over whole runs: it counts as if it never
    forgot anything, and concurrent logins overshoot its limit by a bounded
    amount (cmd/shellin-control-plane/auth_rate_limiter.go, auth_handlers.go). */
module AuthFailureRuns {
  import opened AuthRateLimiter

  // --- pruning against the full history ---

  datatype Op = Allow(key: string, now: int) | RecordFailure(key: string, now: int) | Reset(key: string)

  /** The records after one method of the limiter. */
  function Apply(records: Records, window: int, op: Op): Records {
    match op
    case Allow(key, now) => Pruned(records, now - window)
    case RecordFailure(key, now) => Recorded(records, window, key, now)
    case Reset(key) => records - {key}
  }

  function Exec(window: int, ops: seq<Op>): Records {
    if ops == [] then map[] else Apply(Exec(window, ops[..|ops| - 1]), window, ops[|ops| - 1])
  }

  /** The failures recorded for an address since its last reset, none forgotten. */
  function FailuresSinceReset(ops: seq<Op>, key: string): seq<int> {
    if ops == [] then []
    else
      var before := FailuresSinceReset(ops[..|ops| - 1], key);
      match ops[|ops| - 1]
      case Allow(_, _) => before
      case RecordFailure(k, now) => if k == key then before + [now] else before
      case Reset(k) => if k == key then [] else before
  }

  /** No clock read so far is ahead of `now`. */
  predicate ClocksUpTo(ops: seq<Op>, now: int) {
    forall i :: 0 <= i < |ops| ==> ops[i].Reset? || ops[i].now <= now
  }

  lemma {:induction false} SamePrefixSameUnexpired(a: seq<int>, b: seq<int>, cutoff: int, n: nat)
    requires n <= |a| && n <= |b| && forall i :: 0 <= i < n ==> a[i] == b[i]
    ensures UnexpiredUpTo(a, cutoff, n) == UnexpiredUpTo(b, cutoff, n)
  {
    if n > 0 {
      SamePrefixSameUnexpired(a, b, cutoff, n - 1);
    }
  }

  lemma UnexpiredAppend(attempts: seq<int>, last: int, cutoff: int)
    ensures Unexpired(attempts + [last], cutoff) ==
            if last > cutoff then Unexpired(attempts, cutoff) + [last] else Unexpired(attempts, cutoff)
  {
    SamePrefixSameUnexpired(attempts + [last], attempts, cutoff, |attempts|);
  }

  /** Filtering twice is filtering with the later of the two cutoffs. */
  lemma {:induction false} UnexpiredTwice(attempts: seq<int>, first: int, second: int, n: nat)
    requires n <= |attempts|
    ensures Unexpired(UnexpiredUpTo(attempts, first, n), second) == UnexpiredUpTo(attempts, if first <= second then second else first, n)
  {
    if n > 0 {
      UnexpiredTwice(attempts, first, second, n - 1);
      if attempts[n - 1] > first {
        UnexpiredAppend(UnexpiredUpTo(attempts, first, n - 1), attempts[n - 1], second);
      }
    }
  }

  lemma UnexpiredEitherWay(attempts: seq<int>, a: int, b: int)
    ensures Unexpired(Unexpired(attempts, a), b) == Unexpired(Unexpired(attempts, b), a)
  {
    UnexpiredTwice(attempts, a, b, |attempts|);
    UnexpiredTwice(attempts, b, a, |attempts|);
  }

  /** Filtering keeps the number exactly when it keeps everything. */
  lemma {:induction false} UnexpiredIsAll(attempts: seq<int>, cutoff: int, n: nat)
    requires n <= |attempts|
    ensures |UnexpiredUpTo(attempts, cutoff, n)| == n <==> forall i :: 0 <= i < n ==> attempts[i] > cutoff
    ensures |UnexpiredUpTo(attempts, cutoff, n)| == n ==> UnexpiredUpTo(attempts, cutoff, n) == attempts[..n]
  {
    if n > 0 {
      UnexpiredIsAll(attempts, cutoff, n - 1);
    }
  }

  lemma {:induction false} UnexpiredMembers(attempts: seq<int>, cutoff: int, n: nat, x: int)
    requires n <= |attempts|
    ensures x in UnexpiredUpTo(attempts, cutoff, n) <==> x in attempts[..n] && x > cutoff
  {
    if n > 0 {
      UnexpiredMembers(attempts, cutoff, n - 1, x);
      assert attempts[..n] == attempts[..n - 1] + [attempts[n - 1]];
    }
  }

  /** What one method does to the attempts of one address. */
  function AttemptsAfter(attempts: seq<int>, window: int, op: Op, key: string): seq<int> {
    if op.Reset? then if op.key == key then [] else attempts
    else if op.RecordFailure? && op.key == key then Unexpired(attempts, op.now - window) + [op.now]
    else Unexpired(attempts, op.now - window)
  }

  lemma GetAfter(records: Records, window: int, op: Op, key: string)
    ensures Get(Apply(records, window, op), key) == AttemptsAfter(Get(records, key), window, op, key)
  {
    if !op.Reset? {
      PrunedGet(records, op.now - window, key);
    }
  }

  // --- when a failure is forgotten too early ---

  /** Entry `i` is a failure of the address that no reset has followed. */
  predicate Stands(ops: seq<Op>, key: string, i: nat) {
    && i < |ops| && ops[i].RecordFailure? && ops[i].key == key
    && forall k :: i < k < |ops| ==> ops[k] != Reset(key)
  }

  /** Failure `i` is inside the window at `now`, but was outside the window of the later call `j`. */
  predicate Overtaken(ops: seq<Op>, window: int, key: string, now: int, i: nat, j: nat) {
    && Stands(ops, key, i) && ops[i].now > now - window
    && i < j < |ops| && !ops[j].Reset? && ops[i].now <= ops[j].now - window
  }

  ghost predicate AnyOvertaken(ops: seq<Op>, window: int, key: string, now: int) {
    exists i: nat, j: nat :: Overtaken(ops, window, key, now, i, j)
  }

  /** The last call finds this failure outside its window. */
  predicate OvertakesValue(op: Op, window: int, now: int, failure: int) {
    !op.Reset? && failure > now - window && failure <= op.now - window
  }

  lemma {:induction false} HistoryStands(ops: seq<Op>, key: string, failure: int)
    ensures failure in FailuresSinceReset(ops, key) <==> exists i: nat :: Stands(ops, key, i) && ops[i].now == failure
  {
    if ops != [] {
      var n := |ops| - 1;
      HistoryStands(ops[..n], key, failure);
      if ops[n] != Reset(key) {
        forall i: nat | i < n
          ensures Stands(ops[..n], key, i) <==> Stands(ops, key, i)
        {
        }
        if ops[n].RecordFailure? && ops[n].key == key {
          assert Stands(ops, key, n);
        }
      }
    }
  }

  lemma OvertakenByLast(ops: seq<Op>, window: int, key: string, now: int)
    requires ops != []
    ensures var n := |ops| - 1;
            AnyOvertaken(ops, window, key, now) <==>
              && ops[n] != Reset(key)
              && (AnyOvertaken(ops[..n], window, key, now)
                  || exists f :: f in FailuresSinceReset(ops[..n], key) && OvertakesValue(ops[n], window, now, f))
  {
    var n := |ops| - 1;
    var before := ops[..n];
    if ops[n] != Reset(key) {
      forall i: nat | i < n
        ensures Stands(before, key, i) <==> Stands(ops, key, i)
      {
      }
      forall i: nat, j: nat | j < n
        ensures Overtaken(before, window, key, now, i, j) <==> Overtaken(ops, window, key, now, i, j)
      {
      }
      if i: nat :| Overtaken(ops, window, key, now, i, n) {
        HistoryStands(before, key, ops[i].now);
        assert Stands(before, key, i);
      }
      if f :| f in FailuresSinceReset(before, key) && OvertakesValue(ops[n], window, now, f) {
        HistoryStands(before, key, f);
        var i: nat :| Stands(before, key, i) && before[i].now == f;
        assert Overtaken(ops, window, key, now, i, n);
      }
    }
  }

  /** `kept` lacks nothing of `history`, or is shorter. */
  predicate Matches(kept: seq<int>, history: seq<int>, complete: bool) {
    if complete then kept == history else |kept| < |history|
  }

  lemma PruningMatches(kept: seq<int>, history: seq<int>, complete: bool, cutoff: int)
    requires Matches(kept, history, complete)
    ensures Matches(Unexpired(kept, cutoff), history, complete && forall f :: f in history ==> f > cutoff)
  {
    UnexpiredIsAll(kept, cutoff, |kept|);
    assert kept[..|kept|] == kept;
    if forall f :: f in history ==> f > cutoff {
      assert complete ==> forall i :: 0 <= i < |kept| ==> kept[i] in history;
    } else {
      var f :| f in history && f <= cutoff;
      assert complete ==> f in kept;
    }
  }

  lemma PruneMatches(attempts: seq<int>, failures: seq<int>, complete: bool, early: int, late: int)
    requires Matches(Unexpired(attempts, late), Unexpired(failures, late), complete)
    ensures Matches(Unexpired(Unexpired(attempts, early), late), Unexpired(failures, late),
                    complete && forall f :: f in failures && f > late ==> f > early)
  {
    UnexpiredEitherWay(attempts, early, late);
    PruningMatches(Unexpired(attempts, late), Unexpired(failures, late), complete, early);
    forall f
      ensures f in Unexpired(failures, late) <==> f in failures && f > late
    {
      UnexpiredMembers(failures, late, |failures|, f);
      assert failures[..|failures|] == failures;
    }
  }

  lemma AppendMatches(attempts: seq<int>, failures: seq<int>, complete: bool, cutoff: int, last: int)
    requires Matches(Unexpired(attempts, cutoff), Unexpired(failures, cutoff), complete)
    ensures Matches(Unexpired(attempts + [last], cutoff), Unexpired(failures + [last], cutoff), complete)
  {
    UnexpiredAppend(attempts, last, cutoff);
    UnexpiredAppend(failures, last, cutoff);
  }

  /** What one method makes of a match. */
  lemma StepMatches(attempts: seq<int>, failures: seq<int>, complete: bool, window: int, op: Op, key: string, now: int)
    requires !op.Reset? && Matches(Unexpired(attempts, now - window), Unexpired(failures, now - window), complete)
    ensures var still := complete && forall f :: f in failures ==> !OvertakesValue(op, window, now, f);
            var after := if op.RecordFailure? && op.key == key then failures + [op.now] else failures;
            Matches(Unexpired(AttemptsAfter(attempts, window, op, key), now - window), Unexpired(after, now - window), still)
  {
    var still := complete && forall f :: f in failures && f > now - window ==> f > op.now - window;
    var pruned, after := Unexpired(attempts, op.now - window), AttemptsAfter(attempts, window, op, key);
    PruneMatches(attempts, failures, complete, op.now - window, now - window);
    assert still <==> complete && forall f :: f in failures ==> !OvertakesValue(op, window, now, f);
    if op.RecordFailure? && op.key == key {
      assert after == pruned + [op.now];
      AppendMatches(pruned, failures, still, now - window, op.now);
    } else {
      assert after == pruned;
    }
  }

  lemma {:induction false} PruningMatchesHistory(window: int, ops: seq<Op>, key: string, now: int)
    ensures Matches(Unexpired(Get(Exec(window, ops), key), now - window), Unexpired(FailuresSinceReset(ops, key), now - window),
                    !AnyOvertaken(ops, window, key, now))
  {
    if ops != [] {
      var n := |ops| - 1;
      PruningMatchesHistory(window, ops[..n], key, now);
      OvertakenByLast(ops, window, key, now);
      GetAfter(Exec(window, ops[..n]), window, ops[n], key);
      if !ops[n].Reset? {
        StepMatches(Get(Exec(window, ops[..n]), key), FailuresSinceReset(ops[..n], key), !AnyOvertaken(ops[..n], window, key, now),
                    window, ops[n], key, now);
      }
    }
  }

  predicate Allows(attempts: seq<int>, limit: int) {
    |attempts| < limit
  }

  /** The exact condition.  The failures the limiter counts for an address at
      `now` are those of the full history inside the window, as a list or only in
      number, if and only if no failure of the history inside the window was outside
      the window of some later call, of whatever address; only then do both decide
      alike for every limit. */
  lemma CountsHistoryIffNoneOvertaken(window: int, ops: seq<Op>, key: string, now: int)
    ensures var kept, history := Unexpired(Get(Exec(window, ops), key), now - window), Unexpired(FailuresSinceReset(ops, key), now - window);
            && (kept == history <==> !AnyOvertaken(ops, window, key, now))
            && (|kept| == |history| <==> !AnyOvertaken(ops, window, key, now))
            && |kept| <= |history|
            && ((forall limit: int :: Allows(kept, limit) == Allows(history, limit)) <==> !AnyOvertaken(ops, window, key, now))
  {
    PruningMatchesHistory(window, ops, key, now);
    var kept, history := Unexpired(Get(Exec(window, ops), key), now - window), Unexpired(FailuresSinceReset(ops, key), now - window);
    if |kept| < |history| {
      var limit := |history|;
      assert Allows(kept, limit) && !Allows(history, limit);
    }
  }

  /** If no earlier clock was ahead of this one, no failure inside the window is missing. */
  lemma PruningIsInvisible(window: int, ops: seq<Op>, key: string, now: int)
    requires ClocksUpTo(ops, now)
    ensures Unexpired(Get(Exec(window, ops), key), now - window) == Unexpired(FailuresSinceReset(ops, key), now - window)
  {
    CountsHistoryIffNoneOvertaken(window, ops, key, now);
    assert forall i: nat, j: nat :: !Overtaken(ops, window, key, now, i, j);
  }

  /** An address is then allowed exactly when the failures since its last reset
      that lie inside the window are fewer than the limit. */
  lemma AllowCountsHistory(limit: int, window: int, ops: seq<Op>, key: string, now: int)
    requires ClocksUpTo(ops, now)
    ensures Allows(Unexpired(Get(Exec(window, ops), key), now - window), limit)
         == Allows(Unexpired(FailuresSinceReset(ops, key), now - window), limit)
  {
    PruningIsInvisible(window, ops, key, now);
  }

  /** An early failure and a later call for another address. */
  function FailureThenAhead(key: string, other: string): seq<Op> {
    [RecordFailure(key, 10), Allow(other, 100)]
  }

  lemma FailureIsForgotten(key: string, other: string)
    ensures Get(Exec(50, FailureThenAhead(key, other)), key) == []
  {
    var failure, later := RecordFailure(key, 10), Allow(other, 100);
    ExecOne(50, [], failure, key);
    ExecOne(50, [failure], later, key);
    assert [] + [failure] == [failure] && [failure] + [later] == FailureThenAhead(key, other);
    assert Get(Exec(50, [failure]), key) == [] + [10];
    PrunedGet(Exec(50, [failure]), 50, key);
    UnexpiredAppend([], 10, 50);
  }

  lemma FailureIsInHistory(key: string, other: string)
    ensures FailuresSinceReset(FailureThenAhead(key, other), key) == [] + [10]
  {
    var failure, later := RecordFailure(key, 10), Allow(other, 100);
    ExecOne(50, [], failure, key);
    ExecOne(50, [failure], later, key);
    assert [] + [failure] == [failure] && [failure] + [later] == FailureThenAhead(key, other);
  }

  /** The clock is read before the lock is taken, so an earlier clock can be
      ahead; the limiter may then have forgotten a failure that still counts. */
  lemma ClockAheadForgets(key: string, other: string)
    requires key != other
    ensures var ops := FailureThenAhead(key, other);
            && |Unexpired(Get(Exec(50, ops), key), 20 - 50)| == 0
            && |Unexpired(FailuresSinceReset(ops, key), 20 - 50)| == 1
  {
    FailureIsForgotten(key, other);
    FailureIsInHistory(key, other);
    UnexpiredAppend([], 10, -30);
  }

  lemma ExecOne(window: int, ops: seq<Op>, op: Op, key: string)
    ensures Exec(window, ops + [op]) == Apply(Exec(window, ops), window, op)
    ensures op.Allow? ==> FailuresSinceReset(ops + [op], key) == FailuresSinceReset(ops, key)
    ensures op.RecordFailure? && op.key == key ==> FailuresSinceReset(ops + [op], key) == FailuresSinceReset(ops, key) + [op.now]
  {
    assert (ops + [op])[..|ops|] == ops;
  }

  // --- concurrent logins ---

  /** A login request asks Allow; if it may go on, it later records a failure
      or resets the address. */
  datatype Event = Begin(key: string, now: int) | Fail(key: string, now: int) | Succeed(key: string)

  /** `inFlight` counts the requests of an address between the two. */
  datatype State = State(records: Records, inFlight: map<string, nat>)

  /** `limit` and `window` of the limiter; at most `n` requests of one address are in flight. */
  datatype Setting = Setting(limit: int, window: int, n: nat)

  const START := State(map[], map[])

  function InFlight(s: State, key: string): nat {
    if key in s.inFlight then s.inFlight[key] else 0
  }

  predicate Enabled(c: Setting, s: State, e: Event) {
    if e.Begin? then InFlight(s, e.key) < c.n else InFlight(s, e.key) > 0
  }

  function Next(c: Setting, s: State, e: Event): State
    requires Enabled(c, s, e)
  {
    match e
    case Begin(key, now) =>
      var allowed := |Unexpired(Get(s.records, key), now - c.window)| < c.limit;
      State(Apply(s.records, c.window, Allow(key, now)), if allowed then s.inFlight[key := InFlight(s, key) + 1] else s.inFlight)
    case Fail(key, now) =>
      State(Apply(s.records, c.window, RecordFailure(key, now)), s.inFlight[key := InFlight(s, key) - 1])
    case Succeed(key) =>
      State(Apply(s.records, c.window, Reset(key)), s.inFlight[key := InFlight(s, key) - 1])
  }

  /** The last state of a run, if every event was enabled when it came. */
  function Run(c: Setting, events: seq<Event>): State {
    if events == [] then START
    else
      var s := Run(c, events[..|events| - 1]);
      if Enabled(c, s, events[|events| - 1]) then Next(c, s, events[|events| - 1]) else s
  }

  /** A handler that runs without another in between is one Begin, with a Fail or Succeed if it was let in. */
  lemma AttemptIsRun(c: Setting, s: State, key: string, allowedAt: int, failedAt: int, accepted: bool)
    requires InFlight(s, key) == 0 && c.n >= 1
    ensures var begun := Next(c, s, Begin(key, allowedAt));
            var done := if InFlight(begun, key) == 0 then begun
                        else if accepted then Next(c, begun, Succeed(key)) else Next(c, begun, Fail(key, failedAt));
            done.records == AfterAttempt(s.records, c.limit, c.window, key, allowedAt, failedAt, accepted) && InFlight(done, key) == 0
  {
  }

  /** What an attempt leaves of the failures of its address: refused, those inside
      the window; let in, none; failed, one more, which is the last. */
  lemma AttemptCounts(records: Records, limit: int, window: int, key: string, allowedAt: int, failedAt: int, accepted: bool, f: int)
    ensures var before, after := Get(records, key), Get(AfterAttempt(records, limit, window, key, allowedAt, failedAt, accepted), key);
            if |Unexpired(before, allowedAt - window)| >= limit then f in after <==> f in before && f > allowedAt - window
            else if accepted then after == []
            else
              && after != [] && after[|after| - 1] == failedAt
              && (f in after <==> f == failedAt || (f in before && f > allowedAt - window && f > failedAt - window))
  {
    PrunedGet(records, allowedAt - window, key);
    MembersInWindow(Get(records, key), allowedAt - window, f);
    MembersInWindow(Unexpired(Get(records, key), allowedAt - window), failedAt - window, f);
  }

  /** Of any other address only failures outside the window are forgotten. */
  lemma AttemptLeavesOthers(records: Records, limit: int, window: int, key: string, allowedAt: int, failedAt: int, accepted: bool, other: string, f: int)
    requires other != key && f > allowedAt - window && f > failedAt - window
    ensures f in Get(records, other) <==> f in Get(AfterAttempt(records, limit, window, key, allowedAt, failedAt, accepted), other)
  {
    var pruned := Pruned(records, allowedAt - window);
    PrunedGet(records, allowedAt - window, other);
    PrunedGet(pruned, failedAt - window, other);
    MembersInWindow(Get(records, other), allowedAt - window, f);
    MembersInWindow(Get(pruned, other), failedAt - window, f);
  }

  lemma MembersInWindow(attempts: seq<int>, cutoff: int, f: int)
    ensures f in Unexpired(attempts, cutoff) <==> f in attempts && f > cutoff
  {
    UnexpiredMembers(attempts, cutoff, |attempts|, f);
    assert attempts[..|attempts|] == attempts;
  }

  /** Recorded failures and requests that may still add one. */
  function Load(s: State, key: string): nat {
    |Get(s.records, key)| + InFlight(s, key)
  }

  lemma NextKeepsLoad(c: Setting, s: State, e: Event, key: string)
    requires c.limit >= 1 && Enabled(c, s, e) && Load(s, key) <= c.limit + c.n - 1
    ensures Load(Next(c, s, e), key) <= c.limit + c.n - 1
  {
    if !e.Succeed? {
      PrunedGet(s.records, e.now - c.window, key);
    }
  }

  /** With at most `n` requests of an address in flight, never more than
      limit + n - 1 failures of it are recorded, whatever the clocks read. */
  lemma {:induction false} FailuresStayBounded(c: Setting, events: seq<Event>, key: string)
    requires c.limit >= 1
    ensures Load(Run(c, events), key) <= c.limit + c.n - 1
    ensures |Get(Run(c, events).records, key)| <= c.limit + c.n - 1
  {
    if events != [] {
      var s := Run(c, events[..|events| - 1]);
      FailuresStayBounded(c, events[..|events| - 1], key);
      if Enabled(c, s, events[|events| - 1]) {
        NextKeepsLoad(c, s, events[|events| - 1], key);
      }
    }
  }

  // --- the bound is reached ---

  /** Every attempt of the address was recorded at time 0. */
  predicate AllAtZero(attempts: seq<int>) {
    forall i :: 0 <= i < |attempts| ==> attempts[i] == 0
  }

  ghost predicate Reaches(c: Setting, events: seq<Event>, key: string, recorded: nat, inFlight: nat) {
    var s := Run(c, events);
    AllAtZero(Get(s.records, key)) && |Get(s.records, key)| == recorded && InFlight(s, key) == inFlight
  }

  lemma {:induction false} NothingExpiresUpTo(attempts: seq<int>, cutoff: int, n: nat)
    requires AllAtZero(attempts) && cutoff < 0 && n <= |attempts|
    ensures UnexpiredUpTo(attempts, cutoff, n) == attempts[..n]
  {
    if n > 0 {
      NothingExpiresUpTo(attempts, cutoff, n - 1);
    }
  }

  lemma NothingExpires(attempts: seq<int>, cutoff: int)
    requires AllAtZero(attempts) && cutoff < 0
    ensures Unexpired(attempts, cutoff) == attempts
  {
    NothingExpiresUpTo(attempts, cutoff, |attempts|);
  }

  lemma RunOne(c: Setting, events: seq<Event>, e: Event)
    requires Enabled(c, Run(c, events), e)
    ensures Run(c, events + [e]) == Next(c, Run(c, events), e)
  {
    assert (events + [e])[..|events|] == events;
  }

  lemma BegunAtZero(c: Setting, s: State, key: string)
    requires c.window > 0 && AllAtZero(Get(s.records, key)) && |Get(s.records, key)| < c.limit && InFlight(s, key) < c.n
    ensures var t := Next(c, s, Begin(key, 0)); Get(t.records, key) == Get(s.records, key) && InFlight(t, key) == InFlight(s, key) + 1
  {
    GetAfter(s.records, c.window, Allow(key, 0), key);
    NothingExpires(Get(s.records, key), 0 - c.window);
  }

  lemma FailedAtZero(c: Setting, s: State, key: string)
    requires c.window > 0 && AllAtZero(Get(s.records, key)) && InFlight(s, key) > 0
    ensures var t := Next(c, s, Fail(key, 0)); Get(t.records, key) == Get(s.records, key) + [0] && InFlight(t, key) == InFlight(s, key) - 1
  {
    GetAfter(s.records, c.window, RecordFailure(key, 0), key);
    NothingExpires(Get(s.records, key), 0 - c.window);
  }

  lemma OneBegins(c: Setting, events: seq<Event>, key: string, recorded: nat, inFlight: nat)
    requires c.window > 0 && Reaches(c, events, key, recorded, inFlight) && recorded < c.limit && inFlight < c.n
    ensures Reaches(c, events + [Begin(key, 0)], key, recorded, inFlight + 1)
  {
    RunOne(c, events, Begin(key, 0));
    BegunAtZero(c, Run(c, events), key);
  }

  lemma OneFails(c: Setting, events: seq<Event>, key: string, recorded: nat, inFlight: nat)
    requires c.window > 0 && Reaches(c, events, key, recorded, inFlight) && inFlight > 0
    ensures Reaches(c, events + [Fail(key, 0)], key, recorded + 1, inFlight - 1)
  {
    RunOne(c, events, Fail(key, 0));
    FailedAtZero(c, Run(c, events), key);
  }

  lemma {:induction false} ReachOneByOne(c: Setting, key: string, recorded: nat) returns (events: seq<Event>)
    requires c.window > 0 && c.n >= 1 && recorded < c.limit
    ensures Reaches(c, events, key, recorded, 0)
  {
    if recorded == 0 {
      events := [];
    } else {
      events := ReachOneByOne(c, key, recorded - 1);
      OneBegins(c, events, key, recorded - 1, 0);
      OneFails(c, events + [Begin(key, 0)], key, recorded - 1, 1);
      events := events + [Begin(key, 0)] + [Fail(key, 0)];
    }
  }

  lemma {:induction false} ReachTogether(c: Setting, key: string, inFlight: nat) returns (events: seq<Event>)
    requires c.window > 0 && c.limit >= 1 && 1 <= c.n && inFlight <= c.n
    ensures Reaches(c, events, key, c.limit - 1, inFlight)
  {
    if inFlight == 0 {
      events := ReachOneByOne(c, key, c.limit - 1);
    } else {
      events := ReachTogether(c, key, inFlight - 1);
      OneBegins(c, events, key, c.limit - 1, inFlight - 1);
      events := events + [Begin(key, 0)];
    }
  }

  lemma {:induction false} ReachFailing(c: Setting, key: string, failed: nat) returns (events: seq<Event>)
    requires c.window > 0 && c.limit >= 1 && 1 <= c.n && failed <= c.n
    ensures Reaches(c, events, key, c.limit - 1 + failed, c.n - failed)
  {
    if failed == 0 {
      events := ReachTogether(c, key, c.n);
    } else {
      events := ReachFailing(c, key, failed - 1);
      OneFails(c, events, key, c.limit - 1 + failed - 1, c.n - failed + 1);
      events := events + [Fail(key, 0)];
    }
  }

  /** Some run records limit + n - 1 failures that all still count. */
  lemma BoundIsReached(c: Setting, key: string)
    requires c.window > 0 && c.limit >= 1 && c.n >= 1
    ensures exists events: seq<Event> :: |Unexpired(Get(Run(c, events).records, key), 0 - c.window)| == c.limit + c.n - 1
  {
    var events := ReachFailing(c, key, c.n);
    NothingExpires(Get(Run(c, events).records, key), 0 - c.window);
  }
}
