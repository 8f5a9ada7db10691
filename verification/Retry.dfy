/** The bounded reconnect loop around every pool call. */
module Retry {
  import opened Prelude

  type Time = int          // microseconds

  const MAX_ATTEMPTS: nat := 3
  const BASE_BACKOFF: Time := 100_000
  const TOTAL_BUDGET: Time := 10_000_000

  // What errors.As, errors.Is and pgconn.SafeToRetry find in an error's chain.
  datatype CallError = CallError(pgCode: Option<string>, deadline: bool, cancelled: bool, connect: bool, preSend: bool)

  const RETRYABLE_SQLSTATES: set<string> :=
    {"08000", "08001", "08003", "08004", "08006", "57P01", "57P02", "57P03", "53300"}

  predicate IsTransient(e: CallError) {
    if e.pgCode.Some? then e.pgCode.value in RETRYABLE_SQLSTATES
    else if e.deadline || e.cancelled then false
    else e.connect || e.preSend
  }

  // A connection exception, a server shutting down or starting up, too many connections.
  predicate ConnectOrWake(code: string) {
    || code == "08000" || code == "08001" || code == "08003" || code == "08004" || code == "08006"
    || code == "57P01" || code == "57P02" || code == "57P03" || code == "53300"
  }

  /** Which errors are transient: a server error of one of nine codes; and without a server error
      neither a deadline nor a cancellation, but a failed connect or one safe to retry. */
  lemma TransientIff(e: CallError)
    ensures e.pgCode.Some? ==> (IsTransient(e) <==> ConnectOrWake(e.pgCode.value))
    ensures e.pgCode.None? && (e.deadline || e.cancelled) ==> !IsTransient(e)
    ensures e.pgCode.None? && !e.deadline && !e.cancelled ==> (IsTransient(e) <==> e.connect || e.preSend)
  {
  }

  // One call of fn: the database it leaves, its error, and when it returned.
  datatype CallResult<S> = CallResult(db: S, err: Option<CallError>, at: Time)

  // fn(attempt, database, start time).
  type Fn<!S> = (nat, S, Time) -> CallResult<S>

  // How a sleep ended: the timer fired, or the context was done first.
  datatype Wake = Wake(fired: bool, at: Time)

  // timer(attempt, now, duration).
  type Timer = (nat, Time, Time) -> Wake

  ghost predicate TimePasses<S(!new)>(fn: Fn<S>, timer: Timer) {
    && (forall k, s, t :: fn(k, s, t).at >= t)
    && (forall k, t, d :: timer(k, t, d).fired ==> timer(k, t, d).at >= t + d)
  }

  // One attempt as it happened.
  datatype Attempt<S> = Attempt(before: S, start: Time, result: CallResult<S>)

  function Min(a: Time, b: Time): Time {
    if a < b then a else b
  }

  function Pow2(n: nat): nat {
    if n == 0 then 1 else 2 * Pow2(n - 1)
  }

  // The attempts are successive calls of fn, each on the database the one before left.
  ghost predicate IsTrace<S>(fn: Fn<S>, db0: S, tr: seq<Attempt<S>>) {
    && (forall k :: 0 <= k < |tr| ==> tr[k].result == fn(k + 1, tr[k].before, tr[k].start))
    && (|tr| > 0 ==> tr[0].before == db0)
    && (forall k :: 0 < k < |tr| ==> tr[k].before == tr[k - 1].result.db)
  }

  ghost predicate AllRetriable<S>(tr: seq<Attempt<S>>) {
    forall k :: 0 <= k < |tr| ==> Retriable(tr[k].result)
  }

  // The sleep after attempt n that returned at `now`: the doubling backoff, cut at the deadline.
  function Nap(n: nat, now: Time, deadline: Time): Time
    requires n >= 1
  {
    Min(BASE_BACKOFF * Pow2(n - 1), deadline - now)
  }

  // After attempt n returned at `now` there is time for another one.
  predicate TimeLeft(timer: Timer, n: nat, now: Time, deadline: Time)
    requires n >= 1
  {
    && now < deadline
    && timer(n, now, Nap(n, now, deadline)).fired
    && timer(n, now, Nap(n, now, deadline)).at < deadline
  }

  // Every attempt after the first started when the sleep before it ended, in time.
  ghost predicate Paced<S>(timer: Timer, tr: seq<Attempt<S>>, deadline: Time) {
    forall k :: 1 <= k < |tr| ==>
      && TimeLeft(timer, k, tr[k - 1].result.at, deadline)
      && tr[k].start == timer(k, tr[k - 1].result.at, Nap(k, tr[k - 1].result.at, deadline)).at
  }

  lemma TraceGrows<S>(fn: Fn<S>, timer: Timer, db0: S, tr: seq<Attempt<S>>, a: Attempt<S>, deadline: Time)
    requires IsTrace(fn, db0, tr) && Paced(timer, tr, deadline)
    requires a.result == fn(|tr| + 1, a.before, a.start)
    requires a.before == if tr == [] then db0 else tr[|tr| - 1].result.db
    requires tr != [] ==>
      && TimeLeft(timer, |tr|, tr[|tr| - 1].result.at, deadline)
      && a.start == timer(|tr|, tr[|tr| - 1].result.at, Nap(|tr|, tr[|tr| - 1].result.at, deadline)).at
    ensures IsTrace(fn, db0, tr + [a]) && Paced(timer, tr + [a], deadline)
  {
  }

  predicate Retriable<S>(r: CallResult<S>) {
    r.err.Some? && IsTransient(r.err.value)
  }

  /** Sleep for d but not past the deadline; true exactly if the timer fired and time remains. */
  method SleepWithBudget(timer: Timer, attempt: nat, now: Time, d: Time, deadline: Time)
    returns (again: bool, at: Time, slept: Time)
    requires d >= 0
    ensures slept == if now < deadline then Min(d, deadline - now) else 0
    ensures now < deadline ==> at == timer(attempt, now, slept).at
    ensures again <==> now < deadline && timer(attempt, now, slept).fired && at < deadline
  {
    var remaining := deadline - now;
    if remaining <= 0 { return false, now, 0; }
    slept := if d > remaining then remaining else d;
    var wake := timer(attempt, now, slept);
    at := wake.at;
    again := wake.fired && at < deadline;
  }

  // The state of the backoff before attempt number n.
  predicate Backoffs(n: nat, backoff: Time, slept: Time)
    requires n >= 1
  {
    backoff == BASE_BACKOFF * Pow2(n - 1) && 0 <= slept <= BASE_BACKOFF * (Pow2(n - 1) - 1)
  }

  lemma BackoffDoubles(n: nat, backoff: Time, slept: Time, nap: Time)
    requires n >= 1 && Backoffs(n, backoff, slept) && 0 <= nap <= backoff
    ensures Backoffs(n + 1, 2 * backoff, slept + nap) && backoff > 0
  {
  }

  lemma {:induction false} BackoffsMonotone(m: nat, n: nat)
    requires m <= n
    ensures Pow2(m) <= Pow2(n)
  {
    if m == n {
    } else {
      BackoffsMonotone(m, n - 1);
    }
  }

  // Why the loop ended: success, an error that is not retried, the attempt cap, or no time left.
  ghost predicate Ended<S>(timer: Timer, tr: seq<Attempt<S>>, deadline: Time)
    requires |tr| >= 1
  {
    var last := tr[|tr| - 1].result;
    !Retriable(last) || |tr| == MAX_ATTEMPTS || !TimeLeft(timer, |tr|, last.at, deadline)
  }

  // The deadline of the derived context: the budget or the caller's, whichever is earlier.
  function Deadline(start: Time, caller: Option<Time>): Time {
    if caller.Some? then Min(start + TOTAL_BUDGET, caller.value) else start + TOTAL_BUDGET
  }

  // Between attempts: `tr` was made so far, every one of them to be retried, and the next starts on
  // `db` at `now`.
  ghost predicate Ready<S>(
    fn: Fn<S>, timer: Timer, db0: S, start: Time, deadline: Time, tr: seq<Attempt<S>>, db: S, now: Time)
  {
    && IsTrace(fn, db0, tr) && AllRetriable(tr) && Paced(timer, tr, deadline)
    && (tr == [] ==> db == db0 && now == start)
    && (tr != [] ==> db == tr[|tr| - 1].result.db && tr[0].start == start
                     && Resumes(timer, |tr|, tr[|tr| - 1].result.at, deadline, now))
  }

  // The sleep after attempt n, returned at `at`, ended in time, at `now`.
  predicate Resumes(timer: Timer, n: nat, at: Time, deadline: Time, now: Time)
    requires n >= 1
  {
    TimeLeft(timer, n, at, deadline) && now == timer(n, at, Nap(n, at, deadline)).at
  }

  // The attempts `tr`, all but the last to be retried.
  ghost predicate Made<S>(fn: Fn<S>, timer: Timer, db0: S, start: Time, deadline: Time, tr: seq<Attempt<S>>) {
    && |tr| >= 1 && IsTrace(fn, db0, tr) && tr[0].start == start
    && AllRetriable(tr[..|tr| - 1]) && Paced(timer, tr, deadline)
  }

  lemma ReadyCall<S>(
    fn: Fn<S>, timer: Timer, db0: S, start: Time, deadline: Time, tr: seq<Attempt<S>>, db: S, now: Time)
    requires Ready(fn, timer, db0, start, deadline, tr, db, now)
    ensures Made(fn, timer, db0, start, deadline, tr + [Attempt(db, now, fn(|tr| + 1, db, now))])
  {
    var a := Attempt(db, now, fn(|tr| + 1, db, now));
    TraceGrows(fn, timer, db0, tr, a, deadline);
    assert (tr + [a])[..|tr|] == tr;
  }

  lemma ReadyAgain<S>(
    fn: Fn<S>, timer: Timer, db0: S, start: Time, deadline: Time, tr: seq<Attempt<S>>, now: Time)
    requires Made(fn, timer, db0, start, deadline, tr) && Retriable(tr[|tr| - 1].result)
    requires Resumes(timer, |tr|, tr[|tr| - 1].result.at, deadline, now)
    ensures Ready(fn, timer, db0, start, deadline, tr, tr[|tr| - 1].result.db, now)
  {
    forall k | 0 <= k < |tr| ensures Retriable(tr[k].result) {
      if k < |tr| - 1 { assert tr[..|tr| - 1][k] == tr[k]; }
    }
  }

  // The loop of retry under a fixed deadline.
  method RunUntil<S(!new)>(fn: Fn<S>, timer: Timer, db0: S, start: Time, deadline: Time)
    returns (tr: seq<Attempt<S>>, slept: Time)
    requires TimePasses(fn, timer)
    ensures |tr| <= MAX_ATTEMPTS && Made(fn, timer, db0, start, deadline, tr) && Ended(timer, tr, deadline)
    ensures slept == 0 || 0 < slept <= deadline - start
    ensures slept <= BASE_BACKOFF * (Pow2(MAX_ATTEMPTS - 1) - 1)
  {
    var backoff := BASE_BACKOFF;
    var db, now, attempt := db0, start, 1;
    tr, slept := [], 0;
    while true
      invariant 1 <= attempt <= MAX_ATTEMPTS && |tr| == attempt - 1
      invariant Ready(fn, timer, db0, start, deadline, tr, db, now)
      invariant start <= now && (slept == 0 || 0 < slept <= now - start) && Backoffs(attempt, backoff, slept)
      decreases MAX_ATTEMPTS - attempt
    {
      BackoffsMonotone(attempt - 1, MAX_ATTEMPTS - 1);
      ReadyCall(fn, timer, db0, start, deadline, tr, db, now);
      var result := fn(attempt, db, now);
      tr := tr + [Attempt(db, now, result)];
      if result.err.None? || !IsTransient(result.err.value) { return; }
      if attempt == MAX_ATTEMPTS { return; }
      BackoffDoubles(attempt, backoff, slept, 0);
      var again, at, nap := SleepWithBudget(timer, attempt, result.at, backoff, deadline);
      BackoffDoubles(attempt, backoff, slept, nap);
      BackoffsMonotone(attempt, MAX_ATTEMPTS - 1);
      slept := slept + nap;
      if !again { return; }
      ReadyAgain(fn, timer, db0, start, deadline, tr, at);
      db, now, attempt, backoff := result.db, at, attempt + 1, 2 * backoff;
    }
  }

  // After attempt n returned at `now`, the doubling backoff from 100 ms, cut at the earlier of ten
  // seconds after the start and the caller's deadline, does not end in time.
  predicate OutOfTime(timer: Timer, n: nat, now: Time, start: Time, callerDeadline: Option<Time>) {
    var deadline :=
      if callerDeadline.Some? && callerDeadline.value <= start + 10_000_000 then callerDeadline.value
      else start + 10_000_000;
    var backoff := if n == 1 then 100_000 else 200_000;
    var nap := if backoff < deadline - now then backoff else deadline - now;
    now >= deadline || !timer(n, now, nap).fired || timer(n, now, nap).at >= deadline
  }

  lemma Doubling()
    ensures Pow2(0) == 1 && Pow2(1) == 2 && Pow2(2) == 4
  {
  }

  // A retry comes no sooner than the whole backoff after the attempt before it, and in time.
  lemma RetryPace<S(!new)>(fn: Fn<S>, timer: Timer, tr: seq<Attempt<S>>, deadline: Time, k: nat)
    requires TimePasses(fn, timer) && Paced(timer, tr, deadline) && |tr| <= 3 && 1 <= k < |tr|
    ensures tr[k].start < deadline
    ensures tr[k].start >= tr[k - 1].result.at + (if k == 1 then 100_000 else 200_000)
  {
    Doubling();
    assert TimeLeft(timer, k, tr[k - 1].result.at, deadline);
  }

  /** Between 1 and MAX_ATTEMPTS calls, each further one only after a transient error, at the end of
      a sleep of the doubling backoff that left time before the deadline; it stops only on success,
      on an error that is not retried, at the cap or out of time; it returns the last call's
      database and error; the sleeps requested add up to at most the budget and the backoffs; and if
      transient errors are harmless the whole of it is ONE call of fn on the original database. */
  method Run<S(!new)>(fn: Fn<S>, timer: Timer, db0: S, start: Time, callerDeadline: Option<Time>)
    returns (db: S, err: Option<CallError>, tr: seq<Attempt<S>>, slept: Time)
    requires TimePasses(fn, timer)
    ensures 1 <= |tr| <= MAX_ATTEMPTS && IsTrace(fn, db0, tr) && tr[0].start == start
    ensures db == tr[|tr| - 1].result.db && err == tr[|tr| - 1].result.err
    ensures AllRetriable(tr[..|tr| - 1])
    ensures Paced(timer, tr, Deadline(start, callerDeadline)) && Ended(timer, tr, Deadline(start, callerDeadline))
    ensures 0 <= slept <= 300_000 && |tr| <= 3
    ensures callerDeadline.Some? ==> slept == 0 || slept <= callerDeadline.value - start
    ensures forall k :: 0 <= k < |tr| - 1 ==> tr[k].result.err.Some? && IsTransient(tr[k].result.err.value)
    ensures forall k :: 1 <= k < |tr| ==>
      && tr[k].start < start + 10_000_000 && (callerDeadline.Some? ==> tr[k].start < callerDeadline.value)
      && (tr[k].start >= tr[k - 1].result.at + (if k == 1 then 100_000 else 200_000))
    ensures |tr| == 3 || err.None? || !IsTransient(err.value)
      || OutOfTime(timer, |tr|, tr[|tr| - 1].result.at, start, callerDeadline)
    ensures TransientIsHarmless(fn) ==> tr[|tr| - 1].result == fn(|tr|, db0, tr[|tr| - 1].start)
  {
    var deadline := start + TOTAL_BUDGET;
    if callerDeadline.Some? { deadline := Min(deadline, callerDeadline.value); }
    tr, slept := RunUntil(fn, timer, db0, start, deadline);
    db, err := tr[|tr| - 1].result.db, tr[|tr| - 1].result.err;
    Doubling();
    forall k | 1 <= k < |tr|
      ensures tr[k].start < deadline
      ensures tr[k].start >= tr[k - 1].result.at + (if k == 1 then 100_000 else 200_000)
    {
      RetryPace(fn, timer, tr, deadline, k);
    }
    forall k | 0 <= k < |tr| - 1 ensures tr[k].result.err.Some? && IsTransient(tr[k].result.err.value) {
      assert tr[..|tr| - 1][k] == tr[k] && Retriable(tr[..|tr| - 1][k].result);
    }
    if TransientIsHarmless(fn) { RetryIsOneCall(fn, db0, tr); }
  }

  // Every error classified transient left the database as it was.
  ghost predicate TransientIsHarmless<S(!new)>(fn: Fn<S>) {
    forall k, s, t :: Retriable(fn(k, s, t)) ==> fn(k, s, t).db == s
  }

  lemma {:induction false} Untouched<S(!new)>(fn: Fn<S>, db0: S, tr: seq<Attempt<S>>, k: nat)
    requires TransientIsHarmless(fn) && IsTrace(fn, db0, tr) && k < |tr|
    requires forall j :: 0 <= j < k ==> Retriable(tr[j].result)
    ensures tr[k].before == db0
  {
    if k == 0 {
    } else {
      Untouched(fn, db0, tr, k - 1);
      assert tr[k - 1].result == fn(k, tr[k - 1].before, tr[k - 1].start);
      assert Retriable(fn(k, tr[k - 1].before, tr[k - 1].start));
    }
  }

  /** Retry refines a single call: if transient errors leave the database unchanged, the whole loop
      ends in the database and with the error of ONE call of fn on the database it started from. */
  lemma RetryIsOneCall<S(!new)>(fn: Fn<S>, db0: S, tr: seq<Attempt<S>>)
    requires TransientIsHarmless(fn) && IsTrace(fn, db0, tr) && |tr| > 0
    requires AllRetriable(tr[..|tr| - 1])
    ensures tr[|tr| - 1].result == fn(|tr|, db0, tr[|tr| - 1].start)
  {
    forall j | 0 <= j < |tr| - 1 ensures Retriable(tr[j].result) {
      assert tr[..|tr| - 1][j] == tr[j];
    }
    Untouched(fn, db0, tr, |tr| - 1);
  }
}
