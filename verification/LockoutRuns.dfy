/** What every sequence of committed statements on one account keeps. Failures, success resets,
    timing touches and operator unlocks come from any number of logins that looked the row up
    earlier; what those look-ups saw does not matter, which is the point of the single-statement
    counter. */
module LockoutRuns {
  import opened Prelude
  import opened Lockout

  lemma RowStep(p: Policy, ss: seq<Statement>, k: nat)
    requires k < |ss|
    ensures Row(p, ss[..k + 1]) == Exec(p, Row(p, ss[..k]), ss[k])
  {
    assert ss[..k + 1][..k] == ss[..k];
  }

  lemma CountStep(p: Policy, ss: seq<Statement>, lo: nat, k: nat)
    requires lo <= k < |ss|
    ensures CountFrom(p, ss[..k + 1], lo) == CountFrom(p, ss[..k], lo) + (if Counted(p, ss, k) then 1 else 0)
    ensures LocksFrom(p, ss[..k + 1], lo) == LocksFrom(p, ss[..k], lo) + (if Locks(p, ss, k) then 1 else 0)
  {
    assert ss[..k + 1][..k] == ss[..k];
  }

  // ---- the counter invariant ----

  // Where the current count began: statement r - 1 was a reset, or statement r met an expired
  // lock, or nothing restarted since the account was created.
  ghost predicate CountBegins(p: Policy, ss: seq<Statement>, r: nat) {
    && r <= |ss|
    && (r == 0 || ss[r - 1].Reset? || (r < |ss| && ss[r].Fail? && Restarts(p, ss, r)))
    && (forall k :: r <= k < |ss| ==> !ss[k].Reset?)
    && (forall k :: r < k < |ss| ==> !Restarts(p, ss, k))
  }

  /** No lost updates: with a null lock 0 <= failed_attempts < N, with a lock failed_attempts = N,
      and the count is exactly the number of counted failures since the last reset or
      expired-lock restart. */
  lemma {:induction false} CounterInvariant(p: Policy, ss: seq<Statement>) returns (r: nat)
    requires Sane(p)
    ensures var a := Row(p, ss);
      if a.lockedUntil.None? then 0 <= a.failedAttempts < p.threshold else a.failedAttempts == p.threshold
    ensures CountBegins(p, ss, r) && Row(p, ss).failedAttempts == CountFrom(p, ss, r)
  {
    if ss == [] {
      r := 0;
    } else {
      var n := |ss| - 1;
      var pre := ss[..n];
      var r0 := CounterInvariant(p, pre);
      forall k | 0 <= k < n ensures Restarts(p, ss, k) <==> Restarts(p, pre, k) {
        assert pre[..k] == ss[..k];
      }
      if ss[n].Reset? {
        r := n + 1;
      } else if Restarts(p, ss, n) {
        r := n;
        assert CountFrom(p, pre, n) == 0;
      } else {
        r := r0;
      }
    }
  }

  /** A reset forgets: whatever came before it, the row goes on as that of a new account would. */
  lemma {:induction false} ResetForgets(p: Policy, before: seq<Statement>, after: seq<Statement>)
    ensures Row(p, before + [Reset] + after) == Row(p, after)
  {
    var ss := before + [Reset] + after;
    if after == [] {
      assert ss[|ss| - 1] == Reset;
    } else {
      var n := |after| - 1;
      ResetForgets(p, before, after[..n]);
      assert ss[..|ss| - 1] == before + [Reset] + after[..n] && ss[|ss| - 1] == after[n];
    }
  }

  // ---- lock episodes ----

  /** From the statement that logs account_locked, nothing changes either lock column and nothing
      logs again until a reset or a failure whose now() has reached locked_until. */
  lemma {:induction false} EpisodeIsQuiet(p: Policy, ss: seq<Statement>, i: nat, j: nat)
    requires Sane(p) && i < j <= |ss| && Locks(p, ss, i)
    requires forall k :: i < k < j ==> !ss[k].Reset? && (ss[k].Fail? ==> ss[k].now < ss[i].now + p.window)
    ensures Row(p, ss[..j]) == Account(p.threshold, Some(ss[i].now + p.window))
    ensures forall k :: i < k < j ==> !Locks(p, ss, k) && !Counted(p, ss, k)
    decreases j
  {
    if j == i + 1 {
      RowStep(p, ss, i);
      var r := CounterInvariant(p, ss[..i + 1]);
    } else {
      EpisodeIsQuiet(p, ss, i, j - 1);
      RowStep(p, ss, j - 1);
    }
  }

  /** Every lock ends: whatever led to a lock until u, a failure at u or later counts as the first of a
      new count and, unless one failure is enough to lock, leaves the account open; one before u
      changes nothing. It logs exactly if it locks again. */
  lemma LockEnds(p: Policy, ss: seq<Statement>, u: Time, now: Time)
    requires Sane(p) && Row(p, ss).lockedUntil == Some(u)
    ensures now >= u ==> Row(p, ss + [Fail(now)]) == Account(1, if p.threshold == 1 then Some(now + p.window) else None)
    ensures now < u ==> Row(p, ss + [Fail(now)]) == Row(p, ss)
    ensures Locks(p, ss + [Fail(now)], |ss|) <==> now >= u && p.threshold == 1
  {
    var more := ss + [Fail(now)];
    assert more[..|ss|] == ss && more[|ss|] == Fail(now);
  }

  /** And an open account counts on: the failure after it is one more, and locks, with an event, exactly
      when it is the N-th. */
  lemma OpenCounts(p: Policy, ss: seq<Statement>, now: Time)
    requires Sane(p) && Row(p, ss).lockedUntil.None?
    ensures Row(p, ss + [Fail(now)]).failedAttempts == Row(p, ss).failedAttempts + 1
    ensures Row(p, ss + [Fail(now)]).lockedUntil
      == if Row(p, ss).failedAttempts == p.threshold - 1 then Some(now + p.window) else None
    ensures Locks(p, ss + [Fail(now)], |ss|) <==> Row(p, ss).failedAttempts == p.threshold - 1
  {
    var more := ss + [Fail(now)];
    assert more[..|ss|] == ss && more[|ss|] == Fail(now);
    var r := CounterInvariant(p, ss);
  }

  // A reset between i and j, or a failure that came once the lock set at i had run out.
  ghost predicate EpisodeEnds(p: Policy, ss: seq<Statement>, i: nat, k: nat)
    requires i < |ss| && k < |ss| && ss[i].Fail?
  {
    i < k && (ss[k].Reset? || (ss[k].Fail? && ss[k].now >= ss[i].now + p.window))
  }

  // A null lock after k means every later lock needs the missing failures, counted one by one.
  lemma {:induction false} LockNeedsFailures(p: Policy, ss: seq<Statement>, k: nat, j: nat)
    requires Sane(p) && k <= j < |ss| && Locks(p, ss, j)
    requires forall m :: k <= m < j ==> !Restarts(p, ss, m) && !Locks(p, ss, m)
    requires Row(p, ss[..k]).lockedUntil.None?
    ensures CountFrom(p, ss[..j + 1], k) + Row(p, ss[..k]).failedAttempts == p.threshold
  {
    OpenCount(p, ss, k, j);
    CountStep(p, ss, k, j);
    var r := CounterInvariant(p, ss[..j + 1]);
    RowStep(p, ss, j);
  }

  // While nothing locks or restarts, the column counts every failure.
  lemma {:induction false} OpenCount(p: Policy, ss: seq<Statement>, k: nat, j: nat)
    requires k <= j <= |ss| && Row(p, ss[..k]).lockedUntil.None?
    requires forall m :: k <= m < j ==> !Restarts(p, ss, m) && !Locks(p, ss, m)
    ensures Row(p, ss[..j]).lockedUntil.None?
    ensures Row(p, ss[..j]).failedAttempts == Row(p, ss[..k]).failedAttempts + CountFrom(p, ss[..j], k)
    decreases j
  {
    if k == j {
    } else {
      OpenCount(p, ss, k, j - 1);
      RowStep(p, ss, j - 1);
      CountStep(p, ss, k, j - 1);
    }
  }

  /** Exactly one account_locked per episode: between two of them lies a statement that ends the
      first episode, and N counted failures. */
  lemma OneEventPerEpisode(p: Policy, ss: seq<Statement>, i: nat, j: nat)
    requires Sane(p) && i < j < |ss| && Locks(p, ss, i) && Locks(p, ss, j)
    ensures exists k :: i < k <= j && EpisodeEnds(p, ss, i, k)
    ensures CountFrom(p, ss[..j + 1], i + 1) >= p.threshold
  {
    if forall k :: i < k <= j ==> !EpisodeEnds(p, ss, i, k) {
      forall k | i < k < j ensures !ss[k].Reset? && (ss[k].Fail? ==> ss[k].now < ss[i].now + p.window) {
        assert !EpisodeEnds(p, ss, i, k);
      }
      assert ss[j].Fail? && (EpisodeEnds(p, ss, i, j) || ss[j].now < ss[i].now + p.window);
      EpisodeIsQuiet(p, ss, i, j);
    }
    FailuresBetweenLocks(p, ss, i, j);
  }

  // Failures still missing for the next lock, when the count may go on from the row as it is.
  function Credit(a: Account): int {
    if a.lockedUntil.None? then a.failedAttempts else 0
  }

  // What resets between lo and the end of ss threw away.
  function Discarded(p: Policy, ss: seq<Statement>, lo: nat): int {
    if |ss| <= lo then 0
    else
      var n := |ss| - 1;
      Discarded(p, ss[..n], lo) + (if ss[n].Reset? then Credit(Row(p, ss[..n])) else 0)
  }

  /** Conservation of failures, for every stretch of every history: the counted failures pay for
      N each of the locks in it, the credit left in the row and what resets threw away. */
  lemma {:induction false} FailureLedger(p: Policy, ss: seq<Statement>, lo: nat)
    requires Sane(p) && lo <= |ss|
    ensures Credit(Row(p, ss[..lo])) + CountFrom(p, ss, lo)
         == p.threshold * LocksFrom(p, ss, lo) + Credit(Row(p, ss)) + Discarded(p, ss, lo)
    decreases |ss|
  {
    if |ss| == lo {
      assert ss[..lo] == ss;
    } else {
      var n := |ss| - 1;
      assert ss[..n][..lo] == ss[..lo];
      FailureLedger(p, ss[..n], lo);
      var r := CounterInvariant(p, ss[..n]);
      OneMoreLock(p.threshold, LocksFrom(p, ss[..n], lo));
    }
  }

  lemma OneMoreLock(n: nat, l: int)
    ensures n * (l + 1) == n * l + n
  {
  }

  lemma {:induction false} DiscardedIsNatural(p: Policy, ss: seq<Statement>, lo: nat)
    requires Sane(p)
    ensures Discarded(p, ss, lo) >= 0
  {
    if |ss| <= lo {
    } else {
      var n := |ss| - 1;
      DiscardedIsNatural(p, ss[..n], lo);
      var r := CounterInvariant(p, ss[..n]);
    }
  }

  lemma FailuresBetweenLocks(p: Policy, ss: seq<Statement>, i: nat, j: nat)
    requires Sane(p) && i < j < |ss| && Locks(p, ss, i) && Locks(p, ss, j)
    ensures CountFrom(p, ss[..j + 1], i + 1) >= p.threshold
  {
    var t := ss[..j + 1];
    assert t[..i + 1] == ss[..i + 1] && t[..j] == ss[..j];
    RowStep(p, ss, i);
    FailureLedger(p, t, i + 1);
    DiscardedIsNatural(p, t, i + 1);
    RowStep(p, ss, j);
    var n := LocksFrom(p, t, i + 1);
    assert n >= 1;
    assert p.threshold * n >= p.threshold by { OneMoreLock(p.threshold, n - 1); }
  }

  // ---- the rate bound ----

  // now() does not decrease in commit order, and nobody resets, from lo on.
  ghost predicate SteadyFrom(ss: seq<Statement>, lo: nat) {
    && (forall k :: lo <= k < |ss| ==> !ss[k].Reset?)
    && (forall j, k :: lo <= j < k < |ss| && ss[j].Fail? && ss[k].Fail? ==> ss[j].now <= ss[k].now)
  }

  /** Lock events are at least a window apart. */
  lemma LocksAreSpaced(p: Policy, ss: seq<Statement>, lo: nat, i: nat, j: nat)
    requires Sane(p) && SteadyFrom(ss, lo) && lo <= i < j < |ss| && Locks(p, ss, i) && Locks(p, ss, j)
    ensures ss[j].now >= ss[i].now + p.window
  {
    OneEventPerEpisode(p, ss, i, j);
    var k :| i < k <= j && EpisodeEnds(p, ss, i, k);
  }

  lemma OneMoreWindow(w: Time, l: int)
    ensures (l - 1) * w + w == l * w
  {
  }

  // `last` is the latest lock among statements lo .. |ss|, and the locks up to it are spaced.
  lemma {:induction false} LocksNeedTime(p: Policy, ss: seq<Statement>, lo: nat, t0: Time) returns (last: nat)
    requires Sane(p) && SteadyFrom(ss, lo) && lo <= |ss|
    requires forall k :: lo <= k < |ss| && ss[k].Fail? ==> t0 <= ss[k].now
    ensures LocksFrom(p, ss, lo) > 0 ==>
      lo <= last < |ss| && Locks(p, ss, last) && t0 + (LocksFrom(p, ss, lo) - 1) * p.window <= ss[last].now
    decreases |ss|
  {
    last := 0;
    if |ss| <= lo {
    } else {
      var n := |ss| - 1;
      var pre := ss[..n];
      last := LocksNeedTime(p, pre, lo, t0);
      if LocksFrom(p, pre, lo) > 0 {
        assert pre[..last] == ss[..last];
        if Locks(p, ss, n) {
          LocksAreSpaced(p, ss, lo, last, n);
          var l := LocksFrom(p, pre, lo);
          assert LocksFrom(p, ss, lo) == l + 1;
          OneMoreWindow(p.window, l);
          last := n;
        }
      } else if Locks(p, ss, n) {
        last := n;
      }
    }
  }

  lemma FitsInSpan(l: nat, w: Time, span: Time)
    requires w > 0 && span >= 0 && l > 0 && (l - 1) * w <= span
    ensures l <= span / w + 1
  {
    var q, m := span / w, span % w;
    assert span == q * w + m && 0 <= m < w;
    assert (q + 1) * w == q * w + w;
    if l - 1 > q { Ordered(q + 1, l - 1, w); }
  }

  lemma Ordered(a: int, b: int, w: int)
    requires a <= b && w >= 0
    ensures a * w <= b * w
  {
    assert b * w - a * w == (b - a) * w;
  }

  /** Rate bound. Over any stretch of statements without a reset whose now() stay within
      [t0, t0 + T], the failures that change the count number at most N (T/W + 2) - 1, whatever
      the row looked like at the start. */
  lemma FailureRateBound(p: Policy, ss: seq<Statement>, lo: nat, t0: Time, span: Time)
    requires Sane(p) && SteadyFrom(ss, lo) && lo <= |ss| && span >= 0
    requires forall k :: lo <= k < |ss| && ss[k].Fail? ==> t0 <= ss[k].now <= t0 + span
    ensures LocksFrom(p, ss, lo) <= span / p.window + 1
    ensures CountFrom(p, ss, lo) <= p.threshold * (span / p.window + 2) - 1
  {
    var l := LocksFrom(p, ss, lo);
    var last := LocksNeedTime(p, ss, lo, t0);
    if l > 0 { FitsInSpan(l, p.window, span); } else { QuotientNatural(span, p.window); }
    FailureLedger(p, ss, lo);
    NothingDiscarded(p, ss, lo);
    var r0 := CounterInvariant(p, ss[..lo]);
    var r1 := CounterInvariant(p, ss);
    PayForLocks(p.threshold, l, span / p.window, CountFrom(p, ss, lo));
  }

  lemma PayForLocks(n: nat, l: int, q: int, count: int)
    requires l <= q + 1 && count <= n * l + n - 1
    ensures count <= n * (q + 2) - 1
  {
    Ordered(l, q + 1, n);
    OneMoreLock(n, q + 1);
  }

  lemma QuotientNatural(a: int, w: int)
    requires a >= 0 && w > 0
    ensures a / w >= 0
  {
  }

  lemma {:induction false} NothingDiscarded(p: Policy, ss: seq<Statement>, lo: nat)
    requires forall k :: lo <= k < |ss| ==> !ss[k].Reset?
    ensures Discarded(p, ss, lo) == 0
  {
    if |ss| <= lo {
    } else {
      NothingDiscarded(p, ss[..|ss| - 1], lo);
    }
  }
}
