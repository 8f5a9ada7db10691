/** The account-lockout columns of one users row and the statements that touch them. */
module Lockout {
  import opened Prelude

  type Time = int

  const LOCKOUT_THRESHOLD: nat := 5
  const LOCKOUT_WINDOW: Time := 15 * 60 * 1_000_000

  datatype Account = Account(failedAttempts: int, lockedUntil: Option<Time>)

  const CLEAR := Account(0, None)

  // threshold N and lockout_window W of RecordLoginFailure.
  datatype Policy = Policy(threshold: nat, window: Time)

  const POLICY := Policy(LOCKOUT_THRESHOLD, LOCKOUT_WINDOW)

  ghost predicate Sane(p: Policy) {
    p.threshold >= 1 && p.window > 0
  }

  predicate LockedAt(a: Account, now: Time) {
    a.lockedUntil.Some? && a.lockedUntil.value > now
  }

  // The row after RecordLoginFailure run at `now`: the two CASE expressions.
  function AfterFailure(p: Policy, a: Account, now: Time): Account {
    if LockedAt(a, now) then a
    else
      var n := if a.lockedUntil.Some? then 1 else a.failedAttempts + 1;
      Account(n, if n >= p.threshold then Some(now + p.window) else None)
  }

  function JustLocked(p: Policy, a: Account, now: Time): bool {
    !LockedAt(a, now) && AfterFailure(p, a, now).lockedUntil.Some?
  }

  // One committed statement on the row. Touch only writes updated_at.
  datatype Statement = Fail(now: Time) | Reset | Touch

  function Exec(p: Policy, a: Account, st: Statement): Account {
    match st
    case Fail(now) => AfterFailure(p, a, now)
    case Reset => CLEAR
    case Touch => a
  }

  // The row after the committed statements `ss`, in commit order, on a new account.
  function Row(p: Policy, ss: seq<Statement>): Account {
    if ss == [] then CLEAR else Exec(p, Row(p, ss[..|ss| - 1]), ss[|ss| - 1])
  }

  // Statement k is a failure that found the account open (or its lock expired), so it counts.
  predicate Counted(p: Policy, ss: seq<Statement>, k: nat)
    requires k < |ss|
  {
    ss[k].Fail? && !LockedAt(Row(p, ss[..k]), ss[k].now)
  }

  // Statement k logs account_locked.
  predicate Locks(p: Policy, ss: seq<Statement>, k: nat)
    requires k < |ss|
  {
    ss[k].Fail? && JustLocked(p, Row(p, ss[..k]), ss[k].now)
  }

  // Statement k makes the count start over: a reset, or a failure finding an expired lock.
  predicate Restarts(p: Policy, ss: seq<Statement>, k: nat)
    requires k < |ss|
  {
    ss[k].Reset? || (Counted(p, ss, k) && Row(p, ss[..k]).lockedUntil.Some?)
  }

  // Counted failures among statements lo .. |ss|.
  function CountFrom(p: Policy, ss: seq<Statement>, lo: nat): nat {
    if |ss| <= lo then 0
    else CountFrom(p, ss[..|ss| - 1], lo) + (if Counted(p, ss, |ss| - 1) then 1 else 0)
  }

  // account_locked events among statements lo .. |ss|.
  function LocksFrom(p: Policy, ss: seq<Statement>, lo: nat): nat {
    if |ss| <= lo then 0
    else LocksFrom(p, ss[..|ss| - 1], lo) + (if Locks(p, ss, |ss| - 1) then 1 else 0)
  }

  /** The users row as the single-statement updates change it in place. */
  class UserRow {
    var failedAttempts: int
    var lockedUntil: Option<Time>

    function View(): Account
      reads this
    {
      Account(failedAttempts, lockedUntil)
    }

    constructor ()
      ensures View() == CLEAR
    {
      failedAttempts, lockedUntil := 0, None;
    }

    method RecordLoginFailure(p: Policy, now: Time) returns (justLocked: bool)
      modifies this
      ensures View() == AfterFailure(p, old(View()), now)
      ensures justLocked == JustLocked(p, old(View()), now)
      ensures old(lockedUntil).Some? && old(lockedUntil).value > now ==> View() == old(View())
      ensures old(lockedUntil).Some? && old(lockedUntil).value <= now ==>
        failedAttempts == 1 && lockedUntil == if p.threshold <= 1 then Some(now + p.window) else None
      ensures old(lockedUntil).None? ==>
        && failedAttempts == old(failedAttempts) + 1
        && lockedUntil == if failedAttempts >= p.threshold then Some(now + p.window) else None
      ensures justLocked <==>
        (old(lockedUntil).None? || old(lockedUntil).value <= now) && lockedUntil.Some?
    {
      var wasLocked := lockedUntil.Some? && lockedUntil.value > now;
      var expired := lockedUntil.Some? && lockedUntil.value <= now;
      if !wasLocked {
        failedAttempts := if expired then 1 else failedAttempts + 1;
        lockedUntil := if failedAttempts >= p.threshold then Some(now + p.window) else None;
      }
      justLocked := !wasLocked && lockedUntil.Some?;
    }

    method SetUserLock(attempts: int, until: Option<Time>)
      modifies this
      ensures View() == Account(attempts, until)
    {
      failedAttempts, lockedUntil := attempts, until;
    }
  }
}
