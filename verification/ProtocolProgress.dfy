/** Deadlock freedom and termination of the interleaved protocol. */
module ProtocolProgress {
  import opened Prelude
  import opened Rotation
  import opened Protocol
  import opened ProtocolInvariant
  import opened ProtocolHistory

  // Transaction i cannot take its next step because of an advisory or row lock j holds.
  ghost predicate WaitsForLock(h: Family -> LockKey, s: State, i: nat, j: nat)
    requires i < |s.txs| && j < |s.txs|
  {
    var p := s.txs[i].phase;
    && i != j
    && ( || (p.FamilyKnown? && LockKeyOf(h, s.txs[j]) == Some(h(p.family)))
         || (p.FamilyLocked? && s.txs[i].job.RefreshJob? && HoldsRow(s.txs[j], s.txs[i].job.selector))
         || (p.Revoking? && exists v :: v in p.todo && HoldsRow(s.txs[j], v)))
  }

  // The key of the row a transaction inserts next.
  function NextSelector(tx: Tx): Option<Selector> {
    if tx.phase.Drew? then Some(tx.phase.mint.selector)
    else if tx.phase.LoginAccessInserted? && tx.job.LoginJob? then Some(tx.job.mint.selector)
    else None
  }

  function NextAccess(tx: Tx): Option<Digest> {
    if tx.phase.RefreshInserted? then Some(tx.phase.mint.accessHash)
    else if tx.phase.Begun? && tx.job.LoginJob? then Some(tx.job.mint.accessHash)
    else None
  }

  // Transaction i cannot insert its next row because j has inserted one under the same key and has
  // not ended: the unique index makes it wait.
  predicate WaitsForKey(s: State, i: nat, j: nat)
    requires i < |s.txs| && j < |s.txs|
  {
    && i != j
    && ( || (NextSelector(s.txs[i]).Some? && NewSelector(s.txs[j]) == NextSelector(s.txs[i]))
         || (NextAccess(s.txs[i]).Some? && NewAccess(s.txs[j]) == NextAccess(s.txs[i])))
  }

  ghost predicate WaitsFor(h: Family -> LockKey, s: State, i: nat, j: nat)
    requires i < |s.txs| && j < |s.txs|
  {
    WaitsForLock(h, s, i, j) || WaitsForKey(s, i, j)
  }

  // A row lock is only ever held together with the advisory key of the row's family.
  lemma RowHolderHasKey(h: Family -> LockKey, s: State, j: nat, v: Selector)
    requires AllOk(s) && j < |s.txs| && HoldsRow(s.txs[j], v)
    ensures v in s.tables.refresh && LockKeyOf(h, s.txs[j]) == Some(h(s.tables.refresh[v].family))
  {
    var tx := s.txs[j];
    assert TxOk(s.tables, tx);
    if v != tx.job.selector {
      assert v in LiveOf(s.tables, tx.phase.row.family);
    }
  }

  /** Whoever holds an advisory key waits for no advisory or row lock, whichever families hash to
      it. */
  lemma HolderNeverWaits(h: Family -> LockKey, s: State, i: nat, j: nat)
    requires Inv(h, s) && i < |s.txs| && j < |s.txs| && LockKeyOf(h, s.txs[i]).Some?
    ensures !WaitsForLock(h, s, i, j)
  {
    if WaitsForLock(h, s, i, j) {
      var p := s.txs[i].phase;
      assert TxOk(s.tables, s.txs[i]);
      if p.FamilyLocked? {
        RowHolderHasKey(h, s, j, s.txs[i].job.selector);
      } else {
        var v :| v in p.todo && HoldsRow(s.txs[j], v);
        assert v in LiveOf(s.tables, p.row.family);
        RowHolderHasKey(h, s, j, v);
      }
      assert false;
    }
  }

  // ---- what the world may do ----

  /** Nothing is assumed of the world: requests come, users change status and any open transaction fails
      at any time, and app clocks and random draws are arbitrary. */
  lemma TheWorldIsFree(
    h: Family -> LockKey, s: State, i: nat, sel: Selector, d: Option<Digest>, u: UserId, status: string,
    m: Mint, t: Time)
    ensures Enabled(h, s, BeginRefresh(sel, d, t)) && Enabled(h, s, SetStatus(u, status))
    ensures i < |s.txs| && !s.txs[i].phase.Done? ==> Enabled(h, s, Fail(i))
    ensures Enabled(h, s, Judge(i, 0)) ==> Enabled(h, s, Judge(i, t))
    ensures Enabled(h, s, Draw(i, NO_MINT)) ==> Enabled(h, s, Draw(i, m))
  {
  }

  /** Any commit may lose its acknowledgement. */
  lemma AnyCommitMayBeLost(h: Family -> LockKey, s: State, i: nat)
    ensures Enabled(h, s, CommitRotate(i, false)) ==> Enabled(h, s, CommitRotate(i, true))
    ensures Enabled(h, s, CommitRevoke(i, false)) ==> Enabled(h, s, CommitRevoke(i, true))
    ensures Enabled(h, s, CommitLogin(i, false)) ==> Enabled(h, s, CommitLogin(i, true))
  {
  }

  // ---- locks are taken, exclusive and kept ----

  /** A lock is taken by the statement that asks for it, and only when nobody else has it. */
  lemma LocksAreTaken(h: Family -> LockKey, s: State, e: Event)
    requires Inv(h, s) && Enabled(h, s, e) && Actor(e).Some?
    ensures |Step(h, s, e).txs| == |s.txs|
    ensures e.LockFamily? ==>
      var k := h(s.txs[e.i].phase.family);
      && LockKeyOf(h, Step(h, s, e).txs[e.i]) == Some(k)
      && forall j :: 0 <= j < |s.txs| ==> LockKeyOf(h, s.txs[j]) != Some(k)
    ensures e.ReadRow? ==> TakesRow(s, Step(h, s, e), e.i, s.txs[e.i].job.selector)
    ensures e.LockVictim? ==> TakesRow(s, Step(h, s, e), e.i, e.victim)
  {
    StepShape(h, s, e);
    assert TxOk(s.tables, s.txs[e.i]);
  }

  // Transaction i holds row v in s', and nobody else did in s.
  ghost predicate TakesRow(s: State, s': State, i: nat, v: Selector)
    requires i < |s'.txs|
  {
    HoldsRow(s'.txs[i], v) && forall j :: 0 <= j < |s.txs| && j != i ==> !HoldsRow(s.txs[j], v)
  }

  /** It is kept until the transaction ends. */
  lemma LocksAreKept(h: Family -> LockKey, s: State, e: Event, j: nat)
    requires Inv(h, s) && Enabled(h, s, e) && j < |s.txs|
    requires j < |Step(h, s, e).txs| ==> !Step(h, s, e).txs[j].phase.Done?
    ensures j < |Step(h, s, e).txs|
    ensures LockKeyOf(h, s.txs[j]).Some? ==> LockKeyOf(h, Step(h, s, e).txs[j]) == LockKeyOf(h, s.txs[j])
    ensures forall v :: HoldsRow(s.txs[j], v) ==> HoldsRow(Step(h, s, e).txs[j], v)
  {
    if Actor(e).Some? {
      StepShape(h, s, e);
      if e.i == j { OwnLocksKept(h, s, e); }
    }
  }

  lemma OwnLocksKept(h: Family -> LockKey, s: State, e: Event)
    requires Inv(h, s) && Enabled(h, s, e) && Actor(e).Some?
    requires |Step(h, s, e).txs| == |s.txs| ==> !Step(h, s, e).txs[e.i].phase.Done?
    ensures |Step(h, s, e).txs| == |s.txs|
    ensures var tx, tx' := s.txs[e.i], Step(h, s, e).txs[e.i];
      && (LockKeyOf(h, tx).Some? ==> LockKeyOf(h, tx') == LockKeyOf(h, tx))
      && forall v :: HoldsRow(tx, v) ==> HoldsRow(tx', v)
  {
    assert TxOk(s.tables, s.txs[e.i]);
  }

  /** No two transactions hold the same advisory key or the same row. */
  lemma LocksAreExclusive(h: Family -> LockKey, s: State, i: nat, j: nat, v: Selector)
    requires Reachable(h, s) && i < |s.txs| && j < |s.txs| && i != j
    ensures !(HoldsRow(s.txs[i], v) && HoldsRow(s.txs[j], v))
    ensures LockKeyOf(h, s.txs[i]).Some? ==> LockKeyOf(h, s.txs[i]) != LockKeyOf(h, s.txs[j])
  {
    ReachableInv(h, s);
    if HoldsRow(s.txs[i], v) { RowHolderHasKey(h, s, i, v); }
    if HoldsRow(s.txs[j], v) { RowHolderHasKey(h, s, j, v); }
  }

  /** A committed row is only ever changed by the transaction that holds it. */
  lemma WritesAreLocked(h: Family -> LockKey, s: State, e: Event, v: Selector)
    requires Inv(h, s) && Enabled(h, s, e) && v in s.tables.refresh
    ensures var t := Step(h, s, e).tables;
      v in t.refresh && (t.refresh[v] != s.tables.refresh[v] ==>
        Actor(e).Some? && s.txs[e.i].job.RefreshJob? && HoldsRow(s.txs[e.i], v))
  {
    if e.CommitRotate? { RotationLocked(h, s, e, v); }
    else if e.CommitLogin? { LoginLocked(h, s, e, v); }
    else if e.CommitRevoke? { assert TxOk(s.tables, s.txs[e.i]); }
    else { OnlyCommitsWrite(h, s, e); }
  }

  lemma OnlyCommitsWrite(h: Family -> LockKey, s: State, e: Event)
    requires Enabled(h, s, e) && !e.CommitRevoke? && !e.CommitRotate? && !e.CommitLogin?
    ensures Step(h, s, e).tables == s.tables
  {
  }

  lemma RotationLocked(h: Family -> LockKey, s: State, e: Event, v: Selector)
    requires Inv(h, s) && Enabled(h, s, e) && e.CommitRotate? && v in s.tables.refresh
    ensures var t := Step(h, s, e).tables;
      v in t.refresh && (t.refresh[v] != s.tables.refresh[v] ==> HoldsRow(s.txs[e.i], v))
  {
    assert NewSelector(s.txs[e.i]) == Some(s.txs[e.i].phase.mint.selector);
  }

  lemma LoginLocked(h: Family -> LockKey, s: State, e: Event, v: Selector)
    requires Inv(h, s) && Enabled(h, s, e) && e.CommitLogin? && v in s.tables.refresh
    ensures var t := Step(h, s, e).tables; v in t.refresh && t.refresh[v] == s.tables.refresh[v]
  {
    assert NewSelector(s.txs[e.i]) == Some(s.txs[e.i].job.mint.selector);
  }

  // p is a walk along the wait-for graph.
  ghost predicate WaitPath(h: Family -> LockKey, s: State, p: seq<nat>) {
    && (forall n :: 0 <= n < |p| ==> p[n] < |s.txs|)
    && (forall n :: 0 <= n < |p| - 1 ==> WaitsFor(h, s, p[n], p[n + 1]))
  }

  // Whoever is waited for waits, if at all, only to insert a row.
  lemma WaitedForWaitsForKey(h: Family -> LockKey, s: State, w: nat, x: nat, y: nat)
    requires Inv(h, s) && w < |s.txs| && x < |s.txs| && y < |s.txs|
    requires WaitsFor(h, s, w, x) && WaitsFor(h, s, x, y)
    ensures WaitsForKey(s, x, y)
  {
    if WaitsForLock(h, s, w, x) {
      if s.txs[w].phase.FamilyKnown? {
        assert LockKeyOf(h, s.txs[x]).Some?;
      } else if s.txs[w].phase.FamilyLocked? {
        RowHolderHasKey(h, s, x, s.txs[w].job.selector);
      } else {
        var v :| v in s.txs[w].phase.todo && HoldsRow(s.txs[x], v);
        RowHolderHasKey(h, s, x, v);
      }
      HolderNeverWaits(h, s, x, y);
    }
  }

  // The credentials an unfinished transaction has drawn.
  function Drawn(tx: Tx): Option<Mint> {
    if tx.phase.Drew? || tx.phase.RefreshInserted? || tx.phase.BothInserted? then Some(tx.phase.mint)
    else if tx.job.LoginJob? && !tx.phase.Done? then Some(tx.job.mint)
    else None
  }

  predicate Apart(m: Mint, n: Mint) {
    m.selector != n.selector && m.accessHash != n.accessHash
  }

  // No two open transactions have drawn the same selector or the same access token.
  ghost predicate DrawsApart(s: State) {
    forall i, j {:trigger Drawn(s.txs[i]), Drawn(s.txs[j])} ::
      0 <= i < |s.txs| && 0 <= j < |s.txs| && i != j && Drawn(s.txs[i]).Some? && Drawn(s.txs[j]).Some? ==>
        Apart(Drawn(s.txs[i]).value, Drawn(s.txs[j]).value)
  }

  lemma KeyWaitIsEqualDraw(s: State, i: nat, j: nat)
    requires i < |s.txs| && j < |s.txs| && WaitsForKey(s, i, j)
    ensures Drawn(s.txs[i]).Some? && Drawn(s.txs[j]).Some?
    ensures !Apart(Drawn(s.txs[i]).value, Drawn(s.txs[j]).value)
  {
  }

  /** As long as no two open transactions drew an equal key, the wait-for graph of a reachable
      state has no walk of two edges, and so no cycle. */
  lemma NoDeadlock(h: Family -> LockKey, s: State, p: seq<nat>)
    requires Reachable(h, s) && DrawsApart(s) && WaitPath(h, s, p) && |p| >= 2
    ensures |p| == 2 && p[0] != p[1]
  {
    ReachableInv(h, s);
    assert WaitsFor(h, s, p[0], p[0 + 1]);
    if |p| > 2 {
      assert WaitsFor(h, s, p[1], p[1 + 1]);
      WaitedForWaitsForKey(h, s, p[0], p[1], p[2]);
      KeyWaitIsEqualDraw(s, p[1], p[2]);
      assert false;
    }
  }

  // Between its two inserts: a rotation that has its refresh row, a login that has its access row.
  predicate HalfRotation(tx: Tx) {
    tx.phase.RefreshInserted?
  }

  predicate HalfLogin(tx: Tx) {
    tx.job.LoginJob? && tx.phase.LoginAccessInserted?
  }

  // The transaction before place n of a cycle.
  function Before(p: seq<nat>, n: nat): nat
    requires n < |p| - 1
  {
    if n == 0 then p[|p| - 2] else p[n - 1]
  }

  lemma OnCycleIsHalfDone(h: Family -> LockKey, s: State, v: nat, w: nat, x: nat, y: nat)
    requires Inv(h, s) && v < |s.txs| && w < |s.txs| && x < |s.txs| && y < |s.txs|
    requires WaitsFor(h, s, v, w) && WaitsFor(h, s, w, x) && WaitsFor(h, s, x, y)
    ensures HalfRotation(s.txs[x]) || HalfLogin(s.txs[x])
  {
    WaitedForWaitsForKey(h, s, v, w, x);
    WaitedForWaitsForKey(h, s, w, x, y);
    assert TxOk(s.tables, s.txs[x]);
  }

  // A rotation and a login, each half way through its inserts, the first waiting for the key the
  // second has inserted.
  predicate HalfWaitsForHalf(s: State, i: nat, j: nat)
    requires i < |s.txs| && j < |s.txs|
  {
    || (HalfRotation(s.txs[i]) && HalfLogin(s.txs[j]) && NewAccess(s.txs[j]) == NextAccess(s.txs[i]))
    || (HalfLogin(s.txs[i]) && HalfRotation(s.txs[j]) && NewSelector(s.txs[j]) == NextSelector(s.txs[i]))
  }

  lemma CycleEdge(h: Family -> LockKey, s: State, p: seq<nat>, n: nat)
    requires Inv(h, s) && WaitPath(h, s, p) && |p| >= 2 && p[0] == p[|p| - 1] && n < |p| - 1
    ensures HalfWaitsForHalf(s, p[n], p[n + 1])
  {
    EdgeInto(h, s, p, n);
    var x, y := p[n], p[n + 1];
    var m := if n == |p| - 2 then 0 else n + 1;
    assert p[m] == y;
    EdgeInto(h, s, p, m);
    var w := Before(p, n);
    var k := if n == 0 then |p| - 2 else n - 1;
    assert p[k] == w;
    EdgeInto(h, s, p, k);
    OnCycleIsHalfDone(h, s, Before(p, k), w, x, y);
    OnCycleIsHalfDone(h, s, w, x, y, p[m + 1]);
    WaitedForWaitsForKey(h, s, w, x, y);
    assert TxOk(s.tables, s.txs[x]) && TxOk(s.tables, s.txs[y]);
  }

  /** Exactly which cycles there are when draws may be equal: a closed sequence of transactions of a
      reachable state is a cycle of the wait-for graph if and only if rotations and logins alternate
      in it, each half way through its inserts and waiting for the key the next one has inserted. */
  lemma DeadlockIsKeyWaits(h: Family -> LockKey, s: State, p: seq<nat>)
    requires Reachable(h, s) && |p| >= 2 && p[0] == p[|p| - 1] && forall n :: 0 <= n < |p| ==> p[n] < |s.txs|
    ensures WaitPath(h, s, p) <==> forall n :: 0 <= n < |p| - 1 ==> HalfWaitsForHalf(s, p[n], p[n + 1])
  {
    ReachableInv(h, s);
    if WaitPath(h, s, p) {
      forall n | 0 <= n < |p| - 1 ensures HalfWaitsForHalf(s, p[n], p[n + 1]) { CycleEdge(h, s, p, n); }
    } else if forall n :: 0 <= n < |p| - 1 ==> HalfWaitsForHalf(s, p[n], p[n + 1]) {
      forall n | 0 <= n < |p| - 1 ensures WaitsFor(h, s, p[n], p[n + 1]) { HalfWaits(h, s, p[n], p[n + 1]); }
      assert false;
    }
  }

  lemma HalfWaits(h: Family -> LockKey, s: State, i: nat, j: nat)
    requires i < |s.txs| && j < |s.txs| && HalfWaitsForHalf(s, i, j)
    ensures WaitsFor(h, s, i, j)
  {
    assert i != j;
  }

  lemma EdgeInto(h: Family -> LockKey, s: State, p: seq<nat>, n: nat)
    requires WaitPath(h, s, p) && |p| >= 2 && p[0] == p[|p| - 1] && n < |p| - 1
    ensures p[n] < |s.txs| && p[n + 1] < |s.txs| && Before(p, n) < |s.txs|
    ensures WaitsFor(h, s, Before(p, n), p[n]) && WaitsFor(h, s, p[n], p[n + 1])
  {
    var k := if n == 0 then |p| - 2 else n - 1;
    assert WaitsFor(h, s, p[k], p[k + 1]);
    assert WaitsFor(h, s, p[n], p[n + 1]);
  }

  lemma EqualDrawsDeadlock(h: Family -> LockKey, s: State, i: nat, j: nat)
    requires i < |s.txs| && s.txs[i].phase.RefreshInserted?
    requires Enabled(h, s, LoginInsertAccess(j)) && s.txs[j].job.mint == s.txs[i].phase.mint
    ensures var s' := Step(h, s, LoginInsertAccess(j));
      |s'.txs| == |s.txs| && WaitsFor(h, s', i, j) && WaitsFor(h, s', j, i)
  {
    var s' := Step(h, s, LoginInsertAccess(j));
    assert WaitsForKey(s', i, j) && WaitsForKey(s', j, i);
  }

  // ---- progress ----

  // The next insert of transaction i is of a key some row or some other transaction already has.
  ghost predicate Collides(s: State, i: nat)
    requires i < |s.txs|
  {
    || (NextSelector(s.txs[i]).Some? && !SelectorFree(s, NextSelector(s.txs[i]).value))
    || (NextAccess(s.txs[i]).Some? && !AccessFree(s, NextAccess(s.txs[i]).value))
  }

  // Credentials nobody has: not committed, not drawn by an open transaction.
  ghost predicate Unused(s: State, m: Mint) {
    && m.selector !in s.tables.refresh && m.accessHash !in s.tables.access
    && forall j :: 0 <= j < |s.txs| && Drawn(s.txs[j]).Some? ==> Apart(m, Drawn(s.txs[j]).value)
  }

  // What transaction i has drawn, if anything, nobody else has.
  ghost predicate Unclashed(s: State, i: nat)
    requires i < |s.txs|
  {
    Drawn(s.txs[i]).Some? ==>
      var m := Drawn(s.txs[i]).value;
      && m.selector !in s.tables.refresh && m.accessHash !in s.tables.access
      && forall j :: 0 <= j < |s.txs| && j != i && Drawn(s.txs[j]).Some? ==> Apart(m, Drawn(s.txs[j]).value)
  }

  ghost function Clashing(s: State): set<nat> {
    set i | 0 <= i < |s.txs| && !Unclashed(s, i)
  }

  lemma UnclashedNeverCollides(s: State, i: nat)
    requires i < |s.txs| && Unclashed(s, i)
    ensures !Collides(s, i)
  {
    forall j | 0 <= j < |s.txs|
      ensures NextSelector(s.txs[i]).Some? ==> NewSelector(s.txs[j]) != NextSelector(s.txs[i])
      ensures NextAccess(s.txs[i]).Some? ==> NewAccess(s.txs[j]) != NextAccess(s.txs[i])
    {
      if j != i && WaitsForKey(s, i, j) { KeyWaitIsEqualDraw(s, i, j); }
    }
  }

  lemma {:induction false} LongerThanAll<T>(ss: set<seq<T>>, fill: T) returns (x: seq<T>)
    ensures forall y :: y in ss ==> |y| < |x|
  {
    if ss == {} {
      x := [];
    } else {
      var y :| y in ss;
      var z := LongerThanAll(ss - {y}, fill);
      x := if |y| < |z| then z else seq(|y| + 1, _ => fill);
      assert forall w :: w in ss ==> w == y || w in ss - {y};
    }
  }

  lemma SomethingUnused(s: State) returns (m: Mint)
    ensures Unused(s, m)
  {
    var selectors := set j | 0 <= j < |s.txs| && Drawn(s.txs[j]).Some? :: Drawn(s.txs[j]).value.selector;
    var hashes := set j | 0 <= j < |s.txs| && Drawn(s.txs[j]).Some? :: Drawn(s.txs[j]).value.accessHash;
    var x := LongerThanAll(s.tables.refresh.Keys + selectors, 'A');
    var d := LongerThanAll(s.tables.access.Keys + hashes, 0);
    m := Mint(x, [], d);
    forall j | 0 <= j < |s.txs| && Drawn(s.txs[j]).Some? ensures Apart(m, Drawn(s.txs[j]).value) {
      assert Drawn(s.txs[j]).value.selector in selectors && Drawn(s.txs[j]).value.accessHash in hashes;
    }
  }

  ghost predicate WaitsForNoLock(h: Family -> LockKey, s: State, i: nat)
    requires i < |s.txs|
  {
    forall j :: 0 <= j < |s.txs| ==> !WaitsForLock(h, s, i, j)
  }

  // A statement run in good weather: no error but a taken key, no lost acknowledgement, the app
  // clock at `now`, and random credentials nobody has.
  ghost predicate FairWeather(s: State, e: Event, now: Time) {
    && Actor(e).Some? && e.i < |s.txs|
    && (e.Fail? ==> Collides(s, e.i))
    && (e.Judge? ==> e.appNow == now)
    && (e.Draw? ==> Unused(s, e.mint))
    && !Loses(e)
  }

  lemma CanStepLogin(h: Family -> LockKey, s: State, i: nat, now: Time) returns (e: Event)
    requires i < |s.txs| && !s.txs[i].phase.Done? && s.txs[i].job.LoginJob? && TxOk(s.tables, s.txs[i])
    ensures Enabled(h, s, e) && Actor(e) == Some(i) && FairWeather(s, e, now)
  {
    match s.txs[i].phase
    case Begun => e := if Collides(s, i) then Fail(i) else LoginInsertAccess(i);
    case LoginAccessInserted => e := if Collides(s, i) then Fail(i) else LoginInsertRefresh(i);
    case LoginBothInserted => e := CommitLogin(i, false);
  }

  // Before the writes: reading, locking, judging, revoking.
  lemma CanStepEarly(h: Family -> LockKey, s: State, i: nat, now: Time) returns (e: Event)
    requires i < |s.txs| && s.txs[i].job.RefreshJob? && TxOk(s.tables, s.txs[i]) && WaitsForNoLock(h, s, i)
    requires Stage(s.txs[i].phase) > 5 || s.txs[i].phase.Revoking?
    ensures Enabled(h, s, e) && Actor(e) == Some(i) && FairWeather(s, e, now)
  {
    match s.txs[i].phase
    case Begun => e := PreRead(i);
    case FamilyKnown(f) =>
      forall j | 0 <= j < |s.txs| ensures LockKeyOf(h, s.txs[j]) != Some(h(f)) {
        assert !WaitsForLock(h, s, i, j);
        assert LockKeyOf(h, s.txs[i]) == None;
      }
      e := LockFamily(i);
    case FamilyLocked(_) =>
      forall j | 0 <= j < |s.txs| && j != i ensures !HoldsRow(s.txs[j], s.txs[i].job.selector) {
        assert !WaitsForLock(h, s, i, j);
      }
      e := ReadRow(i);
    case RowLocked(_) => e := Judge(i, now);
    case Replaying(_) => e := StartRevoke(i);
    case Revoking(_, todo, _) =>
      if v :| v in todo {
        forall j | 0 <= j < |s.txs| && j != i ensures !HoldsRow(s.txs[j], v) {
          assert !WaitsForLock(h, s, i, j);
        }
        e := LockVictim(i, v);
      } else {
        e := CommitRevoke(i, false);
      }
    case Checked(_, _) => e := ReadUser(i);
  }

  lemma CanStepWrite(h: Family -> LockKey, s: State, i: nat, now: Time) returns (e: Event)
    requires i < |s.txs| && s.txs[i].job.RefreshJob? && TxOk(s.tables, s.txs[i])
    requires 0 < Stage(s.txs[i].phase) <= 5 && !s.txs[i].phase.Revoking?
    ensures Enabled(h, s, e) && Actor(e) == Some(i) && FairWeather(s, e, now)
  {
    match s.txs[i].phase
    case Approved(_, _) => e := MarkOldUsed(i);
    case Marked(_, _) => var m := SomethingUnused(s); e := Draw(i, m);
    case Drew(_, _, _) => e := if Collides(s, i) then Fail(i) else InsertRefresh(i);
    case RefreshInserted(_, _, _) => e := if Collides(s, i) then Fail(i) else InsertAccess(i);
    case BothInserted(_, _, _) => e := CommitRotate(i, false);
  }

  // A transaction waiting for no lock can run its next statement; only an insert that drew a
  // taken key has to fail instead.
  lemma CanStep(h: Family -> LockKey, s: State, i: nat, now: Time) returns (e: Event)
    requires i < |s.txs| && !s.txs[i].phase.Done? && TxOk(s.tables, s.txs[i]) && WaitsForNoLock(h, s, i)
    ensures Enabled(h, s, e) && Actor(e) == Some(i) && FairWeather(s, e, now)
  {
    if s.txs[i].job.LoginJob? {
      e := CanStepLogin(h, s, i, now);
    } else if Stage(s.txs[i].phase) > 5 || s.txs[i].phase.Revoking? {
      e := CanStepEarly(h, s, i, now);
    } else {
      e := CanStepWrite(h, s, i, now);
    }
  }

  /** Some unfinished transaction can always step: i itself or the holder whose lock it waits for;
      and it need not fail unless the key it is about to insert is taken. */
  lemma Progress(h: Family -> LockKey, s: State, i: nat, now: Time) returns (e: Event)
    requires Inv(h, s) && i < |s.txs| && !s.txs[i].phase.Done?
    ensures Enabled(h, s, e) && Actor(e).Some? && FairWeather(s, e, now)
    ensures e.i == i || WaitsForLock(h, s, i, e.i)
  {
    if j :| 0 <= j < |s.txs| && WaitsForLock(h, s, i, j) {
      if LockKeyOf(h, s.txs[i]).Some? { HolderNeverWaits(h, s, i, j); }
      assert LockKeyOf(h, s.txs[j]).Some?;
      forall k | 0 <= k < |s.txs| ensures !WaitsForLock(h, s, j, k) {
        HolderNeverWaits(h, s, j, k);
      }
      assert WaitsForNoLock(h, s, j);
      e := CanStep(h, s, j, now);
    } else {
      assert WaitsForNoLock(h, s, i);
      e := CanStep(h, s, i, now);
    }
  }

  // ---- termination ----

  // Statements left; a revoke of up to c rows counts as one for the outer measure.
  function Stage(p: Phase): nat {
    match p
    case Begun => 10
    case FamilyKnown(_) => 9
    case FamilyLocked(_) => 8
    case RowLocked(_) => 7
    case Replaying(_) => 6
    case Revoking(_, _, _) => 5
    case Checked(_, _) => 6
    case Approved(_, _) => 5
    case Marked(_, _) => 4
    case Drew(_, _, _) => 3
    case RefreshInserted(_, _, _) => 2
    case BothInserted(_, _, _) => 1
    case LoginAccessInserted => 2
    case LoginBothInserted => 1
    case Done => 0
  }

  function Weight(tx: Tx, c: nat): nat {
    Stages(Stage(tx.phase), c) + TodoSize(tx.phase)
  }

  function Total(txs: seq<Tx>, c: nat): nat {
    if txs == [] then 0 else Weight(txs[0], c) + Total(txs[1..], c)
  }

  function Unfinished(txs: seq<Tx>): nat {
    if txs == [] then 0 else (if txs[0].phase.Done? then 0 else 1) + Unfinished(txs[1..])
  }

  lemma {:induction false} Replaced(txs: seq<Tx>, i: nat, tx: Tx, c: nat)
    requires i < |txs|
    ensures Total(txs[i := tx], c) == Total(txs, c) - Weight(txs[i], c) + Weight(tx, c)
    ensures Unfinished(txs[i := tx]) ==
      Unfinished(txs) - (if txs[i].phase.Done? then 0 else 1) + (if tx.phase.Done? then 0 else 1)
    decreases |txs|
  {
    var u := txs[i := tx];
    if i == 0 {
      assert u[1..] == txs[1..];
    } else {
      assert u[1..] == txs[1..][i - 1 := tx];
      Replaced(txs[1..], i - 1, tx, c);
    }
  }

  lemma {:induction false} SomeUnfinished(txs: seq<Tx>, i: nat)
    requires i < |txs| && !txs[i].phase.Done?
    ensures Unfinished(txs) >= 1
  {
    if i == 0 {
    } else {
      SomeUnfinished(txs[1..], i - 1);
    }
  }

  // c bounds the refresh rows there can ever be if no further transaction begins.
  ghost predicate Capped(s: State, c: nat) {
    |s.tables.refresh| + Unfinished(s.txs) <= c
  }

  lemma RevokeRowsSize(t: Tables, rows: set<Selector>, at: Time)
    ensures |RevokeRows(t, rows, at).refresh| == |t.refresh|
  {
    assert RevokeRows(t, rows, at).refresh.Keys == t.refresh.Keys;
  }

  lemma LiveOfSize(t: Tables, f: Family)
    ensures |LiveOf(t, f)| <= |t.refresh|
  {
    assert LiveOf(t, f) <= t.refresh.Keys;
    SubsetSize(LiveOf(t, f), t.refresh.Keys);
  }

  function TodoSize(p: Phase): nat {
    if p.Revoking? then |p.todo| else 0
  }

  lemma StageDrops(h: Family -> LockKey, s: State, e: Event)
    requires Enabled(h, s, e) && Actor(e).Some? && !e.LockVictim?
    ensures |Step(h, s, e).txs| == |s.txs|
    ensures Stage(Step(h, s, e).txs[e.i].phase) < Stage(s.txs[e.i].phase)
  {
  }

  lemma TodoFits(h: Family -> LockKey, s: State, e: Event)
    requires Enabled(h, s, e) && Actor(e).Some? && !e.LockVictim?
    ensures |Step(h, s, e).txs| == |s.txs|
    ensures TodoSize(Step(h, s, e).txs[e.i].phase) <= |s.tables.refresh|
  {
    if e.StartRevoke? { LiveOfSize(s.tables, s.txs[e.i].phase.row.family); }
  }

  // n stages of at most c + 1 statements each.
  function Stages(n: nat, c: nat): nat {
    if n == 0 then 0 else c + 1 + Stages(n - 1, c)
  }

  lemma {:induction false} StagesGrow(a: nat, b: nat, c: nat)
    requires a < b
    ensures Stages(a, c) + c + 1 <= Stages(b, c)
  {
    if a == b - 1 {
    } else {
      StagesGrow(a, b - 1, c);
    }
  }

  lemma WeightDrops(h: Family -> LockKey, s: State, e: Event, c: nat)
    requires Enabled(h, s, e) && Actor(e).Some? && |s.tables.refresh| <= c
    ensures |Step(h, s, e).txs| == |s.txs|
    ensures Weight(Step(h, s, e).txs[e.i], c) < Weight(s.txs[e.i], c)
  {
    if !e.LockVictim? {
      StageDrops(h, s, e);
      TodoFits(h, s, e);
      StagesGrow(Stage(Step(h, s, e).txs[e.i].phase), Stage(s.txs[e.i].phase), c);
    }
  }

  // Only a step that ends a transaction adds a row, and it adds at most one.
  lemma RowsGrowByEnds(h: Family -> LockKey, s: State, e: Event)
    requires Enabled(h, s, e) && Actor(e).Some?
    ensures |Step(h, s, e).txs| == |s.txs|
    ensures |Step(h, s, e).tables.refresh| <= |s.tables.refresh| + (if Step(h, s, e).txs[e.i].phase.Done? then 1 else 0)
  {
    if e.CommitRevoke? { RevokeRowsSize(s.tables, s.txs[e.i].phase.held, s.txs[e.i].begin); }
  }

  // Every step of a transaction shortens what is left to do.
  lemma StepShortens(h: Family -> LockKey, s: State, e: Event, c: nat)
    requires Enabled(h, s, e) && Actor(e).Some? && Capped(s, c)
    ensures Total(Step(h, s, e).txs, c) < Total(s.txs, c)
    ensures Capped(Step(h, s, e), c)
  {
    var s' := Step(h, s, e);
    WeightDrops(h, s, e, c);
    RowsGrowByEnds(h, s, e);
    StepShape(h, s, e);
    Replaced(s.txs, e.i, s'.txs[e.i], c);
  }

  predicate Opens(e: Event) {
    e.BeginRefresh? || e.BeginLogin?
  }

  // Statements run by transactions, not counting changes of user status.
  function Moves(es: seq<Event>): nat {
    if es == [] then 0 else (if Actor(es[0]).Some? then 1 else 0) + Moves(es[1..])
  }

  lemma {:induction false} MovesBounded(h: Family -> LockKey, s: State, es: seq<Event>, s': State, c: nat)
    requires Inv(h, s) && Run(h, s, es, s') && Capped(s, c)
    requires forall n :: 0 <= n < |es| ==> !Opens(es[n])
    ensures Moves(es) + Total(s'.txs, c) <= Total(s.txs, c)
    decreases |es|
  {
    if es == [] {
    } else {
      var e := es[0];
      StepKeeps(h, s, e);
      if Actor(e).Some? { StepShortens(h, s, e, c); }
      MovesBounded(h, Step(h, s, e), es[1..], s', c);
    }
  }

  lemma WeightAtMost(t: Tables, tx: Tx, c: nat)
    requires TxOk(t, tx) && |t.refresh| <= c
    ensures Weight(tx, c) <= 10 * (c + 1)
  {
    var n := Stage(tx.phase);
    if tx.phase.Revoking? {
      assert tx.phase.todo <= LiveOf(t, tx.phase.row.family);
      SubsetSize(tx.phase.todo, LiveOf(t, tx.phase.row.family));
      LiveOfSize(t, tx.phase.row.family);
    }
    if n < 10 { StagesGrow(n, 10, c); }
    StagesAre(10, c);
  }

  lemma {:induction false} StagesAre(n: nat, c: nat)
    ensures Stages(n, c) == n * (c + 1)
  {
    if n == 0 {
    } else {
      StagesAre(n - 1, c);
      Distribute(n, c + 1);
    }
  }

  lemma Distribute(n: nat, w: nat)
    requires n > 0
    ensures n * w == (n - 1) * w + w
  {
    assert (n - 1) * w == n * w - 1 * w;
  }

  lemma {:induction false} TotalAtMost(s: State, txs: seq<Tx>, c: nat, w: nat)
    requires forall i :: 0 <= i < |txs| ==> TxOk(s.tables, txs[i])
    requires |s.tables.refresh| <= c && w == 10 * (c + 1)
    ensures Total(txs, c) <= |txs| * w
    decreases |txs|
  {
    if txs == [] {
    } else {
      TotalAtMost(s, txs[1..], c, w);
      WeightAtMost(s.tables, txs[0], c);
      Distribute(|txs|, w);
    }
  }

  lemma {:induction false} UnfinishedAtMost(txs: seq<Tx>)
    ensures Unfinished(txs) <= |txs|
  {
    if txs == [] {
    } else {
      UnfinishedAtMost(txs[1..]);
    }
  }

  lemma ScheduleBound(h: Family -> LockKey, s: State, es: seq<Event>, s': State, c: nat, w: nat)
    requires Inv(h, s) && Run(h, s, es, s') && c == |s.tables.refresh| + |s.txs| && w == 10 * (c + 1)
    requires forall n :: 0 <= n < |es| ==> !Opens(es[n])
    ensures Moves(es) <= |s.txs| * w
  {
    UnfinishedAtMost(s.txs);
    MovesBounded(h, s, es, s', c);
    TotalAtMost(s, s.txs, c, w);
  }

  /** However the scheduler interleaves the n transactions of a reachable state, they run at
      most 10 n (rows + n + 1) statements in all before nothing is left to run. */
  lemma EveryScheduleIsFinite(h: Family -> LockKey, s: State, es: seq<Event>, s': State)
    requires Reachable(h, s) && Run(h, s, es, s')
    requires forall n :: 0 <= n < |es| ==> !Opens(es[n])
    ensures Moves(es) <= |s.txs| * (10 * (|s.tables.refresh| + |s.txs| + 1))
  {
    ReachableInv(h, s);
    var c := |s.tables.refresh| + |s.txs|;
    ScheduleBound(h, s, es, s', c, 10 * (c + 1));
  }

  ghost predicate AllDone(s: State) {
    forall i :: 0 <= i < |s.txs| ==> s.txs[i].phase.Done?
  }

  // A run of open transactions in fair weather in which only transactions of `bad` fail.
  ghost predicate Clean(h: Family -> LockKey, s: State, es: seq<Event>, bad: set<nat>, now: Time)
    decreases |es|
  {
    es != [] ==>
      && Enabled(h, s, es[0]) && FairWeather(s, es[0], now)
      && (es[0].Fail? ==> es[0].i in bad)
      && Clean(h, Step(h, s, es[0]), es[1..], bad, now)
  }

  ghost predicate SameKeys(t: Tables, t': Tables) {
    t'.refresh.Keys == t.refresh.Keys && t'.access.Keys == t.access.Keys
  }

  ghost predicate AddsKeys(t: Tables, t': Tables, m: Mint) {
    t'.refresh.Keys == t.refresh.Keys + {m.selector} && t'.access.Keys == t.access.Keys + {m.accessHash}
  }

  // What a step of transaction e.i does to the credentials it has drawn.
  lemma DrawnStep(h: Family -> LockKey, s: State, e: Event)
    requires Enabled(h, s, e) && Actor(e).Some?
    ensures var s' := Step(h, s, e);
      |s'.txs| == |s.txs|
      && (Drawn(s'.txs[e.i]) in {None, Drawn(s.txs[e.i])} || (e.Draw? && Drawn(s'.txs[e.i]) == Some(e.mint)))
  {
  }

  // And to the committed keys: nothing, or it ends and adds the two it had drawn.
  lemma KeysStep(h: Family -> LockKey, s: State, e: Event)
    requires Enabled(h, s, e) && Actor(e).Some?
    ensures var s' := Step(h, s, e);
      |s'.txs| == |s.txs|
      && ( || SameKeys(s.tables, s'.tables)
           || (&& Drawn(s'.txs[e.i]).None? && Drawn(s.txs[e.i]).Some?
               && AddsKeys(s.tables, s'.tables, Drawn(s.txs[e.i]).value)))
  {
  }

  lemma UnclashedKept(h: Family -> LockKey, s: State, e: Event, i: nat)
    requires Enabled(h, s, e) && Actor(e).Some? && i < |s.txs| && Unclashed(s, i)
    requires e.Draw? ==> Unused(s, e.mint)
    ensures |Step(h, s, e).txs| == |s.txs| && Unclashed(Step(h, s, e), i)
  {
    var s' := Step(h, s, e);
    DrawnStep(h, s, e);
    KeysStep(h, s, e);
    StepShape(h, s, e);
    if Drawn(s'.txs[i]).Some? {
      forall j | 0 <= j < |s'.txs| && j != i && Drawn(s'.txs[j]).Some?
        ensures Apart(Drawn(s'.txs[i]).value, Drawn(s'.txs[j]).value)
      {
        assert j != e.i ==> Drawn(s'.txs[j]) == Drawn(s.txs[j]);
      }
    }
  }

  lemma {:induction false} Drain(h: Family -> LockKey, s: State, c: nat, bad: set<nat>, now: Time)
    returns (es: seq<Event>, s': State)
    requires Inv(h, s) && Capped(s, c) && Clashing(s) <= bad
    ensures Run(h, s, es, s') && Clean(h, s, es, bad, now) && AllDone(s')
    decreases Total(s.txs, c)
  {
    if i :| 0 <= i < |s.txs| && !s.txs[i].phase.Done? {
      var e := Progress(h, s, i, now);
      if e.Fail? && e.i !in bad {
        assert Unclashed(s, e.i);
        UnclashedNeverCollides(s, e.i);
      }
      StepKeeps(h, s, e);
      StepShortens(h, s, e, c);
      ClashingShrinks(h, s, e);
      var rest;
      rest, s' := Drain(h, Step(h, s, e), c, bad, now);
      es := [e] + rest;
      assert es[1..] == rest;
    } else {
      es, s' := [], s;
    }
  }

  lemma ClashingShrinks(h: Family -> LockKey, s: State, e: Event)
    requires Enabled(h, s, e) && Actor(e).Some? && (e.Draw? ==> Unused(s, e.mint))
    ensures Clashing(Step(h, s, e)) <= Clashing(s)
  {
    DrawnStep(h, s, e);
    forall i | 0 <= i < |s.txs| && Unclashed(s, i) ensures Unclashed(Step(h, s, e), i) {
      UnclashedKept(h, s, e, i);
    }
  }

  // A failure by clash: transaction i had drawn its credentials in s, and they were not its alone.
  ghost predicate Clashed(s: State, i: nat) {
    i < |s.txs| && Drawn(s.txs[i]).Some? && !Unclashed(s, i)
  }

  lemma {:induction false} CleanFailures(h: Family -> LockKey, s: State, es: seq<Event>, bad: set<nat>, now: Time)
    requires Clean(h, s, es, bad, now)
    ensures forall n :: 0 <= n < |es| ==>
      Actor(es[n]).Some? && !Loses(es[n])
      && (es[n].Fail? ==> es[n].i in bad) && (es[n].Judge? ==> es[n].appNow == now)
    decreases |es|
  {
    if es == [] {
    } else {
      CleanFailures(h, Step(h, s, es[0]), es[1..], bad, now);
      forall n | 0 <= n < |es|
        ensures Actor(es[n]).Some? && !Loses(es[n])
          && (es[n].Fail? ==> es[n].i in bad) && (es[n].Judge? ==> es[n].appNow == now)
      {
        assert n > 0 ==> es[n] == es[1..][n - 1];
      }
    }
  }

  /** From every reachable state all open transactions can run to their end, double replays
      included, with no acknowledgement lost, and none of them fails but those that already had
      drawn credentials equal to a committed key or to another open draw. In particular nobody is
      failed by a lock, and no refresh that had not drawn yet fails at all. */
  lemma EveryoneFinishes(h: Family -> LockKey, s: State, now: Time) returns (es: seq<Event>, s': State)
    requires Reachable(h, s)
    ensures Run(h, s, es, s') && AllDone(s')
    ensures forall n :: 0 <= n < |es| ==>
      Actor(es[n]).Some? && !Loses(es[n])
      && (es[n].Fail? ==> Clashed(s, es[n].i)) && (es[n].Judge? ==> es[n].appNow == now)
  {
    ReachableInv(h, s);
    es, s' := Drain(h, s, |s.tables.refresh| + Unfinished(s.txs), Clashing(s), now);
    CleanFailures(h, s, es, Clashing(s), now);
  }
}
