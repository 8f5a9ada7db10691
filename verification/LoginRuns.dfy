/** Any number of two-step logins (look up, then write) on one account, interleaved with each
    other and with operator unlocks. */
module LoginRuns {
  import opened Prelude
  import opened Lockout
  import opened LockoutRuns
  import opened Login

  datatype Proc = Looked(found: Found, password: string) | Finished

  datatype State = State(
    account: Account,            // committed columns
    history: seq<Statement>,     // statements committed on them so far
    events: nat,                 // account_locked lines
    procs: seq<Proc>)

  datatype Event =
    | LookUp(dbNow: Time, status: string, passwordHash: string, password: string)
    | Write(i: nat, now: Time)
    | Unlock                     // an operator clears the columns

  const START := State(CLEAR, [], 0, [])

  ghost predicate Enabled(s: State, e: Event) {
    e.Write? ==> e.i < |s.procs| && s.procs[e.i].Looked?
  }

  // RecordLoginFailure, SetUserLock and TouchUserTiming as they run on the committed columns.
  function Commit(p: Policy, s: State, st: Statement): State {
    s.(account := Exec(p, s.account, st),
       history := s.history + [st],
       events := s.events + (if st.Fail? && JustLocked(p, s.account, st.now) then 1 else 0))
  }

  ghost function Step(verify: Verifier, p: Policy, s: State, e: Event): State
    requires Enabled(s, e)
  {
    match e
    case LookUp(dbNow, status, hash, password) =>
      s.(procs := s.procs + [Looked(Found(s.account, dbNow, status, hash), password)])
    case Write(i, now) =>
      var st := Sent(verify, Some(s.procs[i].found), s.procs[i].password, now);
      var s' := s.(procs := s.procs[i := Finished]);
      if st.None? then s' else Commit(p, s', st.value)
    case Unlock => Commit(p, s, Reset)
  }

  ghost predicate Run(verify: Verifier, p: Policy, s: State, es: seq<Event>, s': State)
    decreases |es|
  {
    if es == [] then s' == s
    else Enabled(s, es[0]) && Run(verify, p, Step(verify, p, s, es[0]), es[1..], s')
  }

  ghost predicate Faithful(p: Policy, s: State) {
    s.account == Row(p, s.history) && s.events == LocksFrom(p, s.history, 0)
  }

  lemma CommitFaithful(p: Policy, s: State, st: Statement)
    requires Faithful(p, s)
    ensures Faithful(p, Commit(p, s, st))
  {
    assert (s.history + [st])[..|s.history|] == s.history;
  }

  lemma {:induction false} RunFaithful(verify: Verifier, p: Policy, s: State, es: seq<Event>, s': State)
    requires Faithful(p, s) && Run(verify, p, s, es, s')
    ensures Faithful(p, s') && s.history <= s'.history
    decreases |es|
  {
    if es == [] {
    } else {
      var e := es[0];
      match e {
        case LookUp(_, _, _, _) =>
        case Unlock => CommitFaithful(p, s, Reset);
        case Write(i, now) =>
          var st := Sent(verify, Some(s.procs[i].found), s.procs[i].password, now);
          if st.Some? { CommitFaithful(p, s.(procs := s.procs[i := Finished]), st.value); }
      }
      RunFaithful(verify, p, Step(verify, p, s, e), es[1..], s');
    }
  }

  /** No interleaving of look-ups and writes loses or doubles a count: in every reachable state the
      columns satisfy the counter invariant, the count is the counted failures since the last
      restart, and the account_locked lines are exactly the lock transitions of the history, whose
      episodes OneEventPerEpisode separates. */
  lemma EveryInterleaving(verify: Verifier, p: Policy, es: seq<Event>, s: State) returns (r: nat)
    requires Sane(p) && Run(verify, p, START, es, s)
    ensures s.events == LocksFrom(p, s.history, 0)
    ensures if s.account.lockedUntil.None? then 0 <= s.account.failedAttempts < p.threshold
            else s.account.failedAttempts == p.threshold
    ensures CountBegins(p, s.history, r) && s.account.failedAttempts == CountFrom(p, s.history, r)
  {
    RunFaithful(verify, p, START, es, s);
    r := CounterInvariant(p, s.history);
  }

  lemma {:induction false} ProcsStay(verify: Verifier, p: Policy, s: State, es: seq<Event>, x: State, i: nat)
    requires Run(verify, p, s, es, x) && i < |s.procs|
    ensures i < |x.procs| && x.procs[i] in {s.procs[i], Finished}
    decreases |es|
  {
    if es == [] {
    } else {
      ProcsStay(verify, p, Step(verify, p, s, es[0]), es[1..], x, i);
    }
  }

  /** A login that looked up a lock in force never counts and never clears: whenever in any run its
      write comes, and whatever has become of the account by then, it only touches the row. */
  lemma GateHolds(verify: Verifier, p: Policy, s: State, es: seq<Event>, x: State, i: nat, now: Time)
    requires i < |s.procs| && s.procs[i].Looked?
    requires s.procs[i].found.account.lockedUntil.Some?
             && s.procs[i].found.account.lockedUntil.value > s.procs[i].found.dbNow
    requires Run(verify, p, s, es, x) && Enabled(x, Write(i, now))
    ensures Step(verify, p, x, Write(i, now)) == x.(procs := x.procs[i := Finished], history := x.history + [Touch])
  {
    ProcsStay(verify, p, s, es, x, i);
  }

  /** A login that saw no lock, or one that had run out, has its full effect whenever in any run its
      write comes: the right password of an active user clears the row. */
  lemma RightPasswordClears(
    verify: Verifier, p: Policy, s: State, es: seq<Event>, x: State, i: nat, now: Time)
    requires i < |s.procs| && s.procs[i].Looked? && Run(verify, p, s, es, x) && Enabled(x, Write(i, now))
    requires var f := s.procs[i].found;
      && (f.account.lockedUntil.None? || f.account.lockedUntil.value <= f.dbNow)
      && f.status == "active" && verify(s.procs[i].password, f.passwordHash) == Ok(true)
    ensures Step(verify, p, x, Write(i, now)).account == Account(0, None)
    ensures Step(verify, p, x, Write(i, now)).events == x.events
  {
    ProcsStay(verify, p, s, es, x, i);
  }

  /** A wrong one counts against the row as it is by then: not at all while a lock is in force, as the
      first of a new count after one, and else as one more, locking and logging at the N-th. */
  lemma WrongPasswordCounts(
    verify: Verifier, p: Policy, s: State, es: seq<Event>, x: State, i: nat, now: Time)
    requires Sane(p)
    requires i < |s.procs| && s.procs[i].Looked? && Run(verify, p, s, es, x) && Enabled(x, Write(i, now))
    requires var f := s.procs[i].found;
      && (f.account.lockedUntil.None? || f.account.lockedUntil.value <= f.dbNow)
      && f.status == "active" && verify(s.procs[i].password, f.passwordHash) == Ok(false)
    ensures var a, b := x.account, Step(verify, p, x, Write(i, now)).account;
      && (a.lockedUntil.Some? && a.lockedUntil.value > now ==> b == a)
      && (a.lockedUntil.Some? && a.lockedUntil.value <= now ==>
            b == Account(1, if p.threshold == 1 then Some(now + p.window) else None))
      && (a.lockedUntil.None? ==>
            b.failedAttempts == a.failedAttempts + 1
            && b.lockedUntil == if b.failedAttempts >= p.threshold then Some(now + p.window) else None)
      && (Step(verify, p, x, Write(i, now)).events == x.events +
            if b.lockedUntil.Some? && (a.lockedUntil.None? || a.lockedUntil.value <= now) then 1 else 0)
  {
    ProcsStay(verify, p, s, es, x, i);
  }

  /** A disabled user's attempt neither counts nor locks nor clears, whatever the password and whenever
      in any run its write comes. */
  lemma DisabledOnlyTouches(
    verify: Verifier, p: Policy, s: State, es: seq<Event>, x: State, i: nat, now: Time)
    requires i < |s.procs| && s.procs[i].Looked? && s.procs[i].found.status != "active"
    requires Run(verify, p, s, es, x) && Enabled(x, Write(i, now))
    ensures Step(verify, p, x, Write(i, now)).account == x.account
    ensures Step(verify, p, x, Write(i, now)).events == x.events
  {
    ProcsStay(verify, p, s, es, x, i);
  }

  // What one late write does to a lock in force: it survives unless the write is the reset of a
  // login whose look-up did not see a lock in force and that had the right password.
  lemma LockSurvivesIff(verify: Verifier, p: Policy, s: State, i: nat, now: Time)
    requires Enabled(s, Write(i, now)) && LockedAt(s.account, now)
    ensures var found := s.procs[i].found;
      Step(verify, p, s, Write(i, now)).account == s.account <==>
        !( && !GateClosed(found)
           && found.status == ACTIVE
           && verify(s.procs[i].password, found.passwordHash) == Ok(true))
  {
  }

  // ---- how long a lock stands ----

  // The run stays inside the lock: no unlock, and every now() of it before `until`.
  ghost predicate Within(es: seq<Event>, until: Time) {
    forall m :: 0 <= m < |es| ==>
      match es[m]
      case LookUp(dbNow, _, _, _) => dbNow < until
      case Write(_, now) => now < until
      case Unlock => false
  }

  // The write of a login that was open in s, had looked up no lock in force, an active user and a
  // hash its password matches.
  predicate StaleReset(verify: Verifier, s: State, e: Event) {
    && e.Write? && e.i < |s.procs| && s.procs[e.i].Looked?
    && Sent(verify, Some(s.procs[e.i].found), s.procs[e.i].password, e.now) == Some(Reset)
  }

  // The columns and the event count are those of `a` and `events` in every state of the run.
  ghost predicate Stands(verify: Verifier, p: Policy, s: State, es: seq<Event>, a: Account, events: nat)
    decreases |es|
  {
    && s.account == a && s.events == events
    && (es != [] ==> Enabled(s, es[0]) && Stands(verify, p, Step(verify, p, s, es[0]), es[1..], a, events))
  }

  // State s comes later than s0 in a run within the lock: logins open in s0 are as they were or
  // finished, and every later one has seen the lock.
  ghost predicate Later(s0: State, s: State) {
    && |s0.procs| <= |s.procs|
    && (forall i :: 0 <= i < |s0.procs| ==> s.procs[i] in {s0.procs[i], Finished})
    && (forall i :: |s0.procs| <= i < |s.procs| && s.procs[i].Looked? ==> GateClosed(s.procs[i].found))
  }

  lemma LaterStep(verify: Verifier, p: Policy, s0: State, s: State, e: Event, until: Time)
    requires Later(s0, s) && Enabled(s, e) && Within([e], until) && s.account.lockedUntil == Some(until)
    ensures !StaleReset(verify, s0, e) ==>
      var s' := Step(verify, p, s, e);
      Later(s0, s') && s'.account == s.account && s'.events == s.events
    ensures StaleReset(verify, s0, e) ==> Step(verify, p, s, e).account == CLEAR
  {
    assert [e][0] == e;
    if e.Write? { LockSurvivesIff(verify, p, s, e.i, e.now); }
  }

  lemma {:induction false} StandsFrom(
    verify: Verifier, p: Policy, s0: State, s: State, es: seq<Event>, s': State, until: Time)
    requires Later(s0, s) && Run(verify, p, s, es, s') && Within(es, until) && s.account.lockedUntil == Some(until)
    ensures Stands(verify, p, s, es, s.account, s.events) <==>
      forall m :: 0 <= m < |es| ==> !StaleReset(verify, s0, es[m])
    decreases |es|
  {
    if es == [] {
    } else {
      var s1 := Step(verify, p, s, es[0]);
      assert Within([es[0]], until) && Within(es[1..], until);
      LaterStep(verify, p, s0, s, es[0], until);
      if StaleReset(verify, s0, es[0]) {
        assert s1.account != s.account;
      } else {
        StandsFrom(verify, p, s0, s1, es[1..], s', until);
        assert forall m :: 0 < m < |es| ==> es[m] == es[1..][m - 1];
        assert forall m :: 0 <= m < |es| - 1 ==> es[1..][m] == es[m + 1];
      }
    }
  }

  /** How long a lock stands, over every run from every state in which it is in place: as long as
      nobody unlocks and now() stays before locked_until, both columns and the number of
      account_locked lines are constant in all states of the run exactly when no write in it is a
      stale reset, the success of a login that was already open and had seen no lock in force. */
  lemma LockStandsIff(verify: Verifier, p: Policy, s: State, es: seq<Event>, s': State, until: Time)
    requires Run(verify, p, s, es, s') && s.account.lockedUntil == Some(until) && Within(es, until)
    ensures Stands(verify, p, s, es, s.account, s.events) <==>
      forall m :: 0 <= m < |es| ==> !StaleReset(verify, s, es[m])
  {
    StandsFrom(verify, p, s, s, es, s', until);
  }

  // ---- the race ----

  lemma {:induction false} RunOn(
    verify: Verifier, p: Policy, s: State, es: seq<Event>, x: State, fs: seq<Event>, s': State)
    requires Run(verify, p, s, es, x) && Run(verify, p, x, fs, s')
    ensures Run(verify, p, s, es + fs, s')
    decreases |es|
  {
    if es == [] {
      assert es + fs == fs;
    } else {
      assert (es + fs)[1..] == es[1..] + fs;
      RunOn(verify, p, Step(verify, p, s, es[0]), es[1..], x, fs, s');
    }
  }

  // One login with the right password has looked up; after it, n with a wrong one looked up and
  // wrote.
  lemma {:induction false} Guesses(verify: Verifier, p: Policy, hash: string, right: string, wrong: string, n: nat)
    returns (es: seq<Event>, s: State)
    requires Sane(p) && n <= p.threshold && verify(wrong, hash) == Ok(false)
    ensures Run(verify, p, START, es, s) && |s.procs| == n + 1
    ensures s.procs[0] == Looked(Found(CLEAR, 0, ACTIVE, hash), right)
    ensures s.account == Account(n, if n < p.threshold then None else Some(1 + p.window))
  {
    if n == 0 {
      es := [LookUp(0, ACTIVE, hash, right)];
      s := Step(verify, p, START, es[0]);
      assert es[1..] == [] && Run(verify, p, s, [], s);
    } else {
      var fs, x := Guesses(verify, p, hash, right, wrong, n - 1);
      var e0, e1 := LookUp(0, ACTIVE, hash, wrong), Write(n, 1);
      var y := Step(verify, p, x, e0);
      assert y.procs[n] == Looked(Found(x.account, 0, ACTIVE, hash), wrong);
      s := Step(verify, p, y, e1);
      assert [e0, e1][1..] == [e1] && [e1][1..] == [];
      assert Run(verify, p, s, [], s) && Run(verify, p, y, [e1], s) && Run(verify, p, x, [e0, e1], s);
      RunOn(verify, p, START, fs, x, [e0, e1], s);
      es := fs + [e0, e1];
    }
  }

  /** The race is real under the service's own policy of 5 failures and 15 minutes: a login with the
      right password looks up, five with a wrong one look up and write and lock the account, and the
      first one's reset then clears a lock that has its full window to go. */
  lemma StaleSuccessClearsLock(verify: Verifier, hash: string, right: string, wrong: string)
    returns (es: seq<Event>, locked: State, end: State)
    requires verify(right, hash) == Ok(true) && verify(wrong, hash) == Ok(false)
    ensures Run(verify, POLICY, START, es, locked)
    ensures locked.account == Account(5, Some(1 + 900_000_000))
    ensures StaleReset(verify, locked, Write(0, 2)) && Enabled(locked, Write(0, 2))
    ensures end == Step(verify, POLICY, locked, Write(0, 2)) && end.account == CLEAR
  {
    es, locked := Guesses(verify, POLICY, hash, right, wrong, LOCKOUT_THRESHOLD);
    end := Step(verify, POLICY, locked, Write(0, 2));
  }
}
