/** Reachable states in which what the source's comments promise does not hold. */
module ProtocolInstances {
  import opened Prelude
  import opened Rotation
  import opened RotationRuns
  import opened Protocol
  import opened ProtocolInvariant
  import opened ProtocolHistory
  import opened ProtocolTheorems
  import opened ProtocolProgress
  import opened ProtocolSessions

  lemma Next(h: Family -> LockKey, s: State, e: Event) returns (s': State)
    requires Reachable(h, s) && Enabled(h, s, e)
    ensures s' == Step(h, s, e) && Reachable(h, s')
  {
    ReachableStep(h, s, e);
    s' := Step(h, s, e);
  }

  // ---- building a run ----

  // The tables after one login.
  function LoggedIn(u: UserId, f: Family, m: Mint): Tables {
    Tables(map[m.selector := Issue(u, f, m, 0)], map[m.accessHash := AccessRow(u, ACCESS_TOKEN_TTL)])
  }

  lemma LoginReady(h: Family -> LockKey, u: UserId, f: Family, m: Mint) returns (s: State)
    ensures Reachable(h, s) && s.txs == [Tx(LoginJob(u, f, m, 0), 0, LoginBothInserted)]
    ensures s.tables == EMPTY && s.users == map[u := ACTIVE] && s.ops == []
  {
    s := Init(map[u := ACTIVE]);
    assert Run(h, s, [], s);
    s := Next(h, s, BeginLogin(u, f, m, 0));
    s := Next(h, s, LoginInsertAccess(0));
    s := Next(h, s, LoginInsertRefresh(0));
  }

  // One login of a user, run to its end.
  lemma OneLogin(h: Family -> LockKey, u: UserId, f: Family, m: Mint) returns (s: State)
    ensures Reachable(h, s) && |s.txs| == 1 && s.txs[0].phase.Done? && s.users == map[u := ACTIVE]
    ensures s.tables == LoggedIn(u, f, m) && s.ops == [Login(u, f, m, 0, NoFault)]
  {
    s := LoginReady(h, u, f, m);
    s := Next(h, s, CommitLogin(0, false));
  }

  // ---- a chain that outlives its login's lifetime ----

  /** A login at 0 and a refresh of its token judged at 1 leave a token good for longer than the
      lifetime granted at the login, in a reachable state. */
  lemma ReachableOverlongChain(h: Family -> LockKey) returns (s: State)
    ensures Reachable(h, s) && LoggedInAt(s.ops, 0) && s.ops[0].appNow == 0
    ensures Outlives(s.tables, s.ops[0].family, 2_592_000_000_000)
  {
    var m := Mint("a", [], [0]);
    var s0 := OneLogin(h, 0, 0, m);
    assert IsTip(s0.tables, "a", 0);
    var es, s', n := LatestTokenRotates(h, s0, "a", Some([]), 0, 1);
    s := s';
    var all := [BeginRefresh("a", Some([]), 0)] + es;
    ReachableRun(h, s0, all, s);
    SecondEntryLater(h, s0, all, s, m);
    LifetimeSlides(h, s, 0);
  }

  lemma SecondEntryLater(h: Family -> LockKey, s: State, es: seq<Event>, s': State, m: Mint)
    requires Reachable(h, s) && Reachable(h, s') && Run(h, s, es, s') && |s.txs| == 1
    requires s.tables == LoggedIn(0, 0, m) && s.ops == [Login(0, 0, m, 0, NoFault)]
    requires |s'.ops| == 2 && Served(s, s', m.selector, 1)
    requires forall k :: 0 <= k < |es| && es[k].Judge? ==> es[k].appNow == 1
    ensures LoggedInAt(s'.ops, 0) && s'.ops[0] == s.ops[0] && RotatedAfter(s'.ops, 0, 0)
  {
    ReachableInv(h, s);
    RunKeeps(h, s, es, s');
    InputsAreTrue(h, s, es, s', 1);
    assert s'.ops[0] == s.ops[0];
    assert s'.ops[..0] == [] && s'.ops[..1] == s.ops;
    SessionsExactly(h, s', 1);
    RotatesExactly(s'.ops, 1);
    ReachableInv(h, s');
    assert RotatedIn(s'.ops, 1, 0);
  }

  // ---- a deadlock ----

  // Then a refresh of its token, up to the advisory lock,
  lemma FamilyHeld(h: Family -> LockKey, u: UserId, f: Family, m: Mint) returns (s: State)
    ensures Reachable(h, s) && |s.txs| == 2 && s.txs[0].phase.Done? && s.users == map[u := ACTIVE]
    ensures s.txs[1] == Tx(RefreshJob(m.selector, Some(m.verifierHash)), 0, FamilyLocked(f))
    ensures s.tables == LoggedIn(u, f, m)
  {
    s := OneLogin(h, u, f, m);
    s := Next(h, s, BeginRefresh(m.selector, Some(m.verifierHash), 0));
    s := Next(h, s, PreRead(1));
    s := HoldFamily(h, s, f);
  }

  lemma HoldFamily(h: Family -> LockKey, s: State, f: Family) returns (s': State)
    requires Reachable(h, s) && |s.txs| == 2 && s.txs[0].phase.Done? && s.txs[1].phase == FamilyKnown(f)
    ensures Reachable(h, s') && s'.tables == s.tables && s'.users == s.users
    ensures s'.txs == [s.txs[0], s.txs[1].(phase := FamilyLocked(f))]
  {
    assert KeyFree(h, s, h(f));
    s' := Next(h, s, LockFamily(1));
  }

  // the locked read of its row,
  lemma RowRead(h: Family -> LockKey, u: UserId, f: Family, m: Mint) returns (s: State)
    ensures Reachable(h, s) && |s.txs| == 2 && s.txs[0].phase.Done? && s.users == map[u := ACTIVE]
    ensures s.txs[1] == Tx(RefreshJob(m.selector, Some(m.verifierHash)), 0, RowLocked(Issue(u, f, m, 0)))
    ensures s.tables == LoggedIn(u, f, m)
  {
    s := FamilyHeld(h, u, f, m);
    s := Next(h, s, ReadRow(1));
  }

  // its checks and its look at the user,
  lemma RowApproved(h: Family -> LockKey, u: UserId, f: Family, m: Mint) returns (s: State)
    ensures Reachable(h, s) && |s.txs| == 2 && s.txs[0].phase.Done?
    ensures s.txs[1] == Tx(RefreshJob(m.selector, Some(m.verifierHash)), 0, Approved(Issue(u, f, m, 0), 0))
    ensures s.tables == LoggedIn(u, f, m)
  {
    s := RowRead(h, u, f, m);
    s := Next(h, s, Judge(1, 0));
    s := Next(h, s, ReadUser(1));
  }

  // and up to and including the insert of its refresh row.
  lemma HalfARefresh(h: Family -> LockKey, u: UserId, f: Family, m: Mint, n: Mint) returns (s: State)
    requires Apart(m, n)
    ensures Reachable(h, s) && |s.txs| == 2 && s.txs[0].phase.Done? && HalfRotation(s.txs[1])
    ensures s.txs[1].job.RefreshJob? && s.txs[1].phase.mint == n
    ensures s.tables == LoggedIn(u, f, m)
  {
    s := RowApproved(h, u, f, m);
    s := Next(h, s, MarkOldUsed(1));
    s := Next(h, s, Draw(1, n));
    s := Next(h, s, InsertRefresh(1));
  }

  /** A cycle of key waits is reachable: one login, a refresh of its token and a second login that happen
      to draw the same credentials come to wait for each other, whatever the advisory hash. */
  lemma ReachableDeadlock(h: Family -> LockKey) returns (s: State)
    ensures Reachable(h, s) && |s.txs| == 3 && WaitsFor(h, s, 1, 2) && WaitsFor(h, s, 2, 1)
  {
    var m, n := Mint("a", [], [0]), Mint("b", [], [1]);
    s := HalfARefresh(h, 0, 0, m, n);
    SecondFamilyFree(h, s, 0, 1);
    s := Next(h, s, BeginLogin(0, 1, n, 0));
    EqualDrawsDeadlock(h, s, 1, 2);
    s := Next(h, s, LoginInsertAccess(2));
  }

  lemma SecondFamilyFree(h: Family -> LockKey, s: State, f: Family, g: Family)
    requires f != g && (forall x :: x in s.tables.refresh ==> s.tables.refresh[x].family == f)
    requires forall i :: 0 <= i < |s.txs| ==> NewFamily(s.txs[i]) == None
    ensures FamilyFree(s, g)
  {
  }
}
