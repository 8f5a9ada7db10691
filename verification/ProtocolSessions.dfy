/** Who is served: in every interleaving exactly the good refreshes get a session, and a good
    refresh can always get it. */
module ProtocolSessions {
  import opened Prelude
  import opened Rotation
  import opened RotationRuns
  import opened Protocol
  import opened ProtocolInvariant
  import opened ProtocolHistory
  import opened ProtocolTheorems
  import opened ProtocolProgress

  // ---- exactly which refreshes get a session ----

  /** Exactly which finished requests got a session, in any interleaving, and which session. A user
      status that was never looked at counts as active here, so whoever is refused is refused for
      what was seen. */
  lemma SessionsExactly(h: Family -> LockKey, s: State, k: nat)
    requires Reachable(h, s) && k < |s.ops| && s.ops[k].Refresh?
    ensures |s.outs| == |s.ops|
    ensures var t, q := After(s.ops[..k]), s.ops[k].q;
      s.outs[k].Session? <==>
        && q.fault.NoFault?
        && RightVerifier(t, q) && !Revoked(t, t.refresh[q.selector].family)
        && !Consumed(s.ops, k, q.selector)
        && q.appNow < t.refresh[q.selector].expiresAt
        && q.status == Some("active")
    ensures var t, q := After(s.ops[..k]), s.ops[k].q;
      s.outs[k].Session? ==>
        && Unique(t, q.mint)
        && s.outs[k] == Session(t.refresh[q.selector].userId, q.mint, (q.appNow + 900_000_000) / 1000)
  {
    EntryIsSerial(h, s, k);
    RotatesExactly(s.ops, k);
    var t, q := After(s.ops[..k]), s.ops[k].q;
    if RightVerifier(t, q) && !Revoked(t, t.refresh[q.selector].family) && !Consumed(s.ops, k, q.selector)
       && q.appNow < t.refresh[q.selector].expiresAt && q.status == Some("active") {
      GrantedOrBroken(s.ops, k);
    }
  }

  lemma EntryIsSerial(h: Family -> LockKey, s: State, k: nat)
    requires Reachable(h, s) && k < |s.ops| && s.ops[k].Refresh?
    ensures |s.outs| == |s.ops| && FreshFamilies(s.ops) && s.outs[k] == OutcomeAt(s.ops, k)
    ensures s.ops[k].q.fault.NoFault? ==> !s.outs[k].ServerError?
  {
    ReachableInv(h, s);
    var users, es :| Run(h, Init(users), es, s);
    InitInv(h, users);
    var m, x := EntryMade(h, Init(users), es, s, k);
    EntryOutcome(h, x, es[m], s.ops[k], s.outs[k]);
  }

  /** What a login answers, in any interleaving: a session of its own user, with the credentials it drew
      and the access expiry in milliseconds, if it did not fail and its acknowledgement was not lost; a
      server error otherwise. */
  lemma LoginsExactly(h: Family -> LockKey, s: State, k: nat)
    requires Reachable(h, s) && k < |s.ops| && s.ops[k].Login?
    ensures |s.outs| == |s.ops|
    ensures s.outs[k] ==
      if s.ops[k].fault.NoFault?
      then Session(s.ops[k].userId, s.ops[k].mint, (s.ops[k].appNow + 900_000_000) / 1000) else ServerError
    ensures !s.ops[k].fault.Abort? ==> LoggedInAt(s.ops, k)
  {
    ReachableInv(h, s);
    var users, es :| Run(h, Init(users), es, s);
    InitInv(h, users);
    var m, x := EntryMade(h, Init(users), es, s, k);
    LoginEntry(h, x, es[m], s.ops[k], s.outs[k]);
    LoginAnswers(s.ops, k);
    assert s.outs[k] == OutcomeAt(s.ops, k);
  }

  // A login that did not fail drew free keys.
  lemma LoginEntry(h: Family -> LockKey, x: State, e: Event, op: Op, out: Outcome)
    requires Inv(h, x) && Enabled(h, x, e) && Actor(e).Some? && EndsWith(h, x, e, op, out) && op.Login?
    ensures !op.fault.Abort? ==> op.mint.selector !in x.tables.refresh && op.mint.accessHash !in x.tables.access
  {
    var tx := x.txs[e.i];
    assert TxOk(x.tables, tx);
    if e.CommitLogin? {
      assert NewSelector(tx) == Some(tx.job.mint.selector) && NewAccess(tx) == Some(tx.job.mint.accessHash);
    }
  }

  // A serial refresh that passes every check ends in a session or in a server error.
  lemma GrantedOrBroken(ops: seq<Op>, k: nat)
    requires k < |ops| && ops[k].Refresh? && FreshFamilies(ops)
    requires var t, q := After(ops[..k]), ops[k].q;
      && RightVerifier(t, q) && !Revoked(t, t.refresh[q.selector].family) && !Consumed(ops, k, q.selector)
      && q.appNow < t.refresh[q.selector].expiresAt && q.status == Some("active")
    ensures !OutcomeAt(ops, k).Unauthorized?
  {
    ConsumedIsUsed(ops, k, ops[k].q.selector);
    RevokedRowIff(ops, k, ops[k].q.selector);
  }

  // ---- disabled users ----

  // Entry n of the history gave user u a session by a refresh.
  ghost predicate RefreshedFor(s: State, n: nat, u: UserId)
    requires n < |s.ops| && |s.outs| == |s.ops|
  {
    s.ops[n].Refresh? && s.outs[n].Session? && s.outs[n].userId == u
  }

  ghost predicate NoNewSessions(s: State, s': State, u: UserId)
    requires |s'.ends| == |s'.ops| == |s'.outs|
  {
    forall n :: |s.ops| <= n < |s'.ops| && RefreshedFor(s', n, u) ==>
      s'.ends[n].tx < |s.txs| && PastGate(s.txs[s'.ends[n].tx], u)
  }

  lemma {:induction false} StaysInactive(h: Family -> LockKey, s: State, es: seq<Event>, s': State, u: UserId)
    requires Run(h, s, es, s') && !Active(s.users, u)
    requires forall n :: 0 <= n < |es| ==> es[n] != SetStatus(u, "active")
    ensures !Active(s'.users, u)
    decreases |es|
  {
    if es == [] {
    } else {
      StatusStep(h, s, es[0]);
      StaysInactive(h, Step(h, s, es[0]), es[1..], s', u);
    }
  }

  /** A disabled (or unknown) user refreshes no more: while nobody sets the status back to active,
      the only refreshes that still hand out a session are those already past their look at the
      status when it was disabled. */
  lemma DisabledUserGetsNothing(h: Family -> LockKey, s: State, es: seq<Event>, s': State, u: UserId)
    requires Reachable(h, s) && Run(h, s, es, s') && !Active(s.users, u)
    requires forall n :: 0 <= n < |es| ==> es[n] != SetStatus(u, "active")
    ensures |s'.ends| == |s'.ops| == |s'.outs|
    ensures NoNewSessions(s, s', u)
  {
    ReachableInv(h, s);
    RunKeeps(h, s, es, s');
    forall n | |s.ops| <= n < |s'.ops| && RefreshedFor(s', n, u)
      ensures s'.ends[n].tx < |s.txs| && PastGate(s.txs[s'.ends[n].tx], u)
    {
      WhoWasServed(h, s, es, s', n, u);
    }
  }

  lemma WhoWasServed(h: Family -> LockKey, s: State, es: seq<Event>, s': State, n: nat, u: UserId)
    requires Inv(h, s) && Run(h, s, es, s') && !Active(s.users, u)
    requires forall m :: 0 <= m < |es| ==> es[m] != SetStatus(u, "active")
    requires |s.ops| <= n < |s'.ops| && |s'.outs| == |s'.ops| == |s'.ends| && RefreshedFor(s', n, u)
    ensures s'.ends[n].tx < |s.txs| && PastGate(s.txs[s'.ends[n].tx], u)
  {
    var m, x := EntryMade(h, s, es, s', n);
    var i := s'.ends[n].tx;
    EntryStatus(h, x, es[m], s'.ops[n], s'.outs[n]);
    var k, z := PastGateLooked(h, s, es[..m], x, i, u);
    if LookedActive(h, s, es[..m], i, u, k, z) {
      StaysInactive(h, s, es[..m][..k], z, u);
      assert false;
    }
  }

  // ---- a good refresh is served ----

  // What the request presents is good in tables t: right verifier, unrevoked, never used.
  ghost predicate GoodToken(t: Tables, job: Job) {
    && job.RefreshJob? && job.selector in t.refresh
    && job.presented == Some(t.refresh[job.selector].verifierHash)
    && t.refresh[job.selector].revokedAt.None? && t.refresh[job.selector].usedAt.None?
  }

  // A transaction that ends while its token is good, its owner active and the app clock before the
  // expiry, and does not fail, ends by rotating.
  lemma GoodEndRotates(h: Family -> LockKey, x: State, e: Event)
    requires Inv(h, x) && Enabled(h, x, e) && Actor(e).Some? && Step(h, x, e).txs[e.i].phase.Done?
    requires GoodToken(x.tables, x.txs[e.i].job) && !e.Fail?
    requires Active(x.users, x.tables.refresh[x.txs[e.i].job.selector].userId)
    requires e.Judge? ==> e.appNow < x.tables.refresh[x.txs[e.i].job.selector].expiresAt
    ensures e.CommitRotate?
  {
    assert TxOk(x.tables, x.txs[e.i]);
  }

  ghost predicate NobodyDisables(es: seq<Event>, u: UserId) {
    forall m :: 0 <= m < |es| && es[m].SetStatus? && es[m].userId == u ==> es[m].status == "active"
  }

  lemma {:induction false} StaysActive(h: Family -> LockKey, s: State, es: seq<Event>, s': State, u: UserId)
    requires Run(h, s, es, s') && Active(s.users, u) && NobodyDisables(es, u)
    ensures Active(s'.users, u)
    decreases |es|
  {
    if es == [] {
    } else {
      StatusStep(h, s, es[0]);
      assert NobodyDisables(es[1..], u);
      StaysActive(h, Step(h, s, es[0]), es[1..], s', u);
    }
  }

  // No event of transaction i breaks it, and the app clock it judges by is before `expiry`.
  ghost predicate Untroubled(es: seq<Event>, i: nat, expiry: Time) {
    forall m :: 0 <= m < |es| && Actor(es[m]) == Some(i) ==>
      !es[m].Fail? && !Loses(es[m]) && (es[m].Judge? ==> es[m].appNow < expiry)
  }

  /** A good refresh is served, however it is interleaved: a request that finishes in a run in which
      its owner is active throughout, that meets no error and no lost acknowledgement and judges
      before the expiry, and whose token is good when it finishes (right verifier, family not
      revoked, never consumed), ends in a session of the owner, and its new token is the family's
      newest. */
  lemma GoodRefreshGetsSession(h: Family -> LockKey, s: State, es: seq<Event>, s': State, n: nat)
    requires Reachable(h, s) && Run(h, s, es, s')
    requires |s.ops| <= n < |s'.ops| && n < |s'.ends| && s'.ops[n].Refresh?
    requires var t, q := After(s'.ops[..n]), s'.ops[n].q;
      && RightVerifier(t, q) && !Revoked(t, t.refresh[q.selector].family) && !Consumed(s'.ops, n, q.selector)
      && var row := t.refresh[q.selector];
         && Active(s.users, row.userId) && NobodyDisables(es, row.userId)
         && Untroubled(es, s'.ends[n].tx, row.expiresAt)
    ensures var t, q := After(s'.ops[..n]), s'.ops[n].q;
      && n < |s'.outs|
      && s'.outs[n] == Session(t.refresh[q.selector].userId, q.mint, (q.appNow + 900_000_000) / 1000)
      && IsTip(After(s'.ops[..n + 1]), q.mint.selector, t.refresh[q.selector].family)
  {
    ReachableInv(h, s);
    RunKeeps(h, s, es, s');
    var m, x := GoodEntryRotates(h, s, es, s', n);
    RotatedEntry(h, x, es[m], s'.ops[n], s'.outs[n]);
    RotatedTip(s'.ops, n);
  }

  lemma RotatedTip(ops: seq<Op>, n: nat)
    requires n < |ops| && Rotates(After(ops[..n]), ops[n])
    ensures IsTip(After(ops[..n + 1]), ops[n].q.mint.selector, After(ops[..n]).refresh[ops[n].q.selector].family)
  {
    assert RotatedAt(ops, n);
    RotationEffect(ops, n);
  }

  lemma GoodEntryRotates(h: Family -> LockKey, s: State, es: seq<Event>, s': State, n: nat) returns (m: nat, x: State)
    requires Inv(h, s) && Inv(h, s') && Run(h, s, es, s')
    requires |s.ops| <= n < |s'.ops| && n < |s'.ends| && s'.ops[n].Refresh?
    requires var t, q := After(s'.ops[..n]), s'.ops[n].q;
      && RightVerifier(t, q) && !Revoked(t, t.refresh[q.selector].family) && !Consumed(s'.ops, n, q.selector)
      && var row := t.refresh[q.selector];
         && Active(s.users, row.userId) && NobodyDisables(es, row.userId)
         && Untroubled(es, s'.ends[n].tx, row.expiresAt)
    ensures Makes(h, s, es, s', n, m, x) && es[m].CommitRotate? && !es[m].lost
  {
    m, x := EntryMade(h, s, es, s', n);
    var q := s'.ops[n].q;
    var row := x.tables.refresh[q.selector];
    assert NobodyDisables(es[..m], row.userId);
    StaysActive(h, s, es[..m], x, row.userId);
    StepShape(h, x, es[m]);
    ConsumedIsUsed(s'.ops, n, q.selector);
    NotRevoked(x.tables, q.selector);
    GoodEndRotates(h, x, es[m]);
  }

  lemma NotRevoked(t: Tables, sel: Selector)
    requires sel in t.refresh && !Revoked(t, t.refresh[sel].family)
    ensures t.refresh[sel].revokedAt.None?
  {
  }

  lemma RotatedEntry(h: Family -> LockKey, x: State, e: Event, op: Op, out: Outcome)
    requires Inv(h, x) && Enabled(h, x, e) && e.CommitRotate? && !e.lost && EndsWith(h, x, e, op, out)
    ensures out.Session? && op.Refresh? && op.q.fault.NoFault?
    ensures Rotates(x.tables, op)
    ensures out == Session(x.tables.refresh[op.q.selector].userId, op.q.mint, (op.q.appNow + 900_000_000) / 1000)
  {
    assert TxOk(x.tables, x.txs[e.i]);
    assert NewSelector(x.txs[e.i]) == Some(x.txs[e.i].phase.mint.selector);
    assert NewAccess(x.txs[e.i]) == Some(x.txs[e.i].phase.mint.accessHash);
  }

  // ---- and it can finish ----

  // Running only open transactions opens none and changes nobody's job.
  lemma {:induction false} JobsStay(h: Family -> LockKey, s: State, es: seq<Event>, s': State)
    requires Run(h, s, es, s') && forall n :: 0 <= n < |es| ==> Actor(es[n]).Some?
    ensures |s'.txs| == |s.txs| && forall i :: 0 <= i < |s.txs| ==> s'.txs[i].job == s.txs[i].job
    decreases |es|
  {
    if es == [] {
    } else {
      StepShape(h, s, es[0]);
      JobsStay(h, Step(h, s, es[0]), es[1..], s');
    }
  }

  lemma NewEndIsNew(s: State, s': State, m: nat)
    requires Attributed(s) && Attributed(s') && s.ends <= s'.ends && AllDone(s) && |s.ends| <= m < |s'.ends|
    ensures s'.ends[m].tx >= |s.txs|
  {
    forall k | 0 <= k < |s.ends| ensures s.ends[k].tx != s'.ends[m].tx {
      assert s'.ends[k] == s.ends[k];
    }
    assert !HasEnded(s, s'.ends[m].tx);
  }

  // All transactions but the last one, i, had ended in s; now i has too, and it is the one new entry.
  lemma OneMoreEnd(s: State, s': State, i: nat)
    requires Attributed(s) && Attributed(s') && s.ends <= s'.ends
    requires i == |s.txs| && |s'.txs| == i + 1 && AllDone(s) && AllDone(s')
    ensures |s'.ends| == |s.ends| + 1 && s'.ends[|s.ends|].tx == i
  {
    assert HasEnded(s', i);
    var k := |s.ends|;
    assert forall n :: 0 <= n < k ==> s'.ends[n] == s.ends[n];
    NewEndIsNew(s, s', k);
    if |s'.ends| > k + 1 { NewEndIsNew(s, s', k + 1); }
  }

  // The newest token of an unrevoked family, with its verifier, before its expiry, of an active user.
  ghost predicate LiveTip(s: State, sel: Selector, presented: Option<Digest>, now: Time) {
    && sel in s.tables.refresh
    && var row := s.tables.refresh[sel];
       && IsTip(s.tables, sel, row.family) && !Revoked(s.tables, row.family)
       && presented == Some(row.verifierHash) && now < row.expiresAt && Active(s.users, row.userId)
  }

  // No open refresh but i holds a token of family f.
  ghost predicate NoRival(s: State, f: Family, i: nat) {
    forall j :: 0 <= j < |s.txs| && j != i && !s.txs[j].phase.Done? && s.txs[j].job.RefreshJob? ==>
      s.txs[j].job.selector !in Members(s.tables, f)
  }

  // Tables that differ by changes to rows of other families, and new ones.
  lemma OtherFamilyRows(t: Tables, t': Tables, f: Family, g: Family)
    requires OnlyFamily(t, t', g) && f != g
    ensures SameRows(t, t', f)
  {
    forall x | x in t'.refresh && t'.refresh[x].family == f ensures x in Members(t, f) {
      assert x in t.refresh;
    }
  }

  lemma LoginLeaves(h: Family -> LockKey, s: State, e: Event, f: Family)
    requires Inv(h, s) && Enabled(h, s, e) && e.CommitLogin? && HasFamily(s.tables, f)
    ensures SameRows(s.tables, Step(h, s, e).tables, f)
  {
    var tx := s.txs[e.i];
    assert NewFamily(tx) == Some(tx.job.family) && NewSelector(tx) == Some(tx.job.mint.selector);
    OtherFamilyRows(s.tables, Step(h, s, e).tables, f, tx.job.family);
  }

  lemma RotationLeaves(h: Family -> LockKey, s: State, e: Event, f: Family)
    requires Inv(h, s) && Enabled(h, s, e) && e.CommitRotate? && s.txs[e.i].job.selector !in Members(s.tables, f)
    ensures SameRows(s.tables, Step(h, s, e).tables, f)
  {
    var tx := s.txs[e.i];
    assert TxOk(s.tables, tx) && NewSelector(tx) == Some(tx.phase.mint.selector);
    OtherFamilyRows(s.tables, Step(h, s, e).tables, f, tx.phase.row.family);
  }

  lemma RevocationLeaves(h: Family -> LockKey, s: State, e: Event, f: Family)
    requires Inv(h, s) && Enabled(h, s, e) && e.CommitRevoke? && s.txs[e.i].job.selector !in Members(s.tables, f)
    ensures SameRows(s.tables, Step(h, s, e).tables, f)
  {
    var tx := s.txs[e.i];
    assert TxOk(s.tables, tx);
    OtherFamilyRows(s.tables, Step(h, s, e).tables, f, tx.phase.row.family);
  }

  lemma CommitsEnd(h: Family -> LockKey, s: State, e: Event)
    requires Enabled(h, s, e) && (e.CommitRevoke? || e.CommitRotate? || e.CommitLogin?)
    ensures |Step(h, s, e).txs| == |s.txs| && Step(h, s, e).txs[e.i].phase.Done?
  {
  }

  // A step that does not end transaction i leaves the rows of its family alone.
  lemma OthersLeave(h: Family -> LockKey, s: State, e: Event, f: Family, i: nat)
    requires Inv(h, s) && Enabled(h, s, e) && Actor(e).Some? && i < |s.txs|
    requires HasFamily(s.tables, f) && NoRival(s, f, i)
    requires |Step(h, s, e).txs| == |s.txs| ==> !Step(h, s, e).txs[i].phase.Done?
    ensures SameRows(s.tables, Step(h, s, e).tables, f) && HasFamily(Step(h, s, e).tables, f)
    ensures NoRival(Step(h, s, e), f, i)
  {
    var s' := Step(h, s, e);
    StepShape(h, s, e);
    if e.CommitRevoke? || e.CommitRotate? || e.CommitLogin? {
      CommitsEnd(h, s, e);
      if e.CommitRevoke? { RevocationLeaves(h, s, e, f); }
      else if e.CommitRotate? { RotationLeaves(h, s, e, f); }
      else { LoginLeaves(h, s, e, f); }
    } else {
      OnlyCommitsWrite(h, s, e);
    }
    var x :| x in s.tables.refresh && s.tables.refresh[x].family == f;
    assert x in Members(s.tables, f) && x in Members(s'.tables, f);
  }

  lemma DoneStays(h: Family -> LockKey, s: State, e: Event, i: nat)
    requires Enabled(h, s, e) && Actor(e).Some? && i < |s.txs| && s.txs[i].phase.Done?
    ensures |Step(h, s, e).txs| == |s.txs| && Step(h, s, e).txs[i].phase.Done?
  {
    StepShape(h, s, e);
  }

  lemma {:induction false} DoneForever(h: Family -> LockKey, s: State, es: seq<Event>, x: State, i: nat)
    requires Run(h, s, es, x) && (forall n :: 0 <= n < |es| ==> Actor(es[n]).Some?)
    requires i < |s.txs| && s.txs[i].phase.Done?
    ensures i < |x.txs| && x.txs[i].phase.Done?
    decreases |es|
  {
    if es == [] {
    } else {
      DoneStays(h, s, es[0], i);
      DoneForever(h, Step(h, s, es[0]), es[1..], x, i);
    }
  }

  // As long as transaction i is open, the rows of its family are as they were.
  lemma {:induction false} WhileOpen(h: Family -> LockKey, s: State, es: seq<Event>, x: State, f: Family, i: nat)
    requires Inv(h, s) && Run(h, s, es, x) && (forall n :: 0 <= n < |es| ==> Actor(es[n]).Some?)
    requires i < |s.txs| == |x.txs| && !x.txs[i].phase.Done? && HasFamily(s.tables, f) && NoRival(s, f, i)
    ensures SameRows(s.tables, x.tables, f)
    decreases |es|
  {
    if es == [] {
    } else {
      var s1 := Step(h, s, es[0]);
      StepKeeps(h, s, es[0]);
      StepShape(h, s, es[0]);
      if s1.txs[i].phase.Done? {
        DoneForever(h, s1, es[1..], x, i);
        assert false;
      }
      OthersLeave(h, s, es[0], f, i);
      WhileOpen(h, s1, es[1..], x, f, i);
    }
  }

  // Transaction i, open in s and done in s', ended as some entry n, with its family's rows as they
  // were in s.
  lemma EndedUndisturbed(h: Family -> LockKey, s: State, es: seq<Event>, s': State, f: Family, i: nat) returns (n: nat)
    requires Reachable(h, s) && Run(h, s, es, s') && AllDone(s')
    requires forall n :: 0 <= n < |es| ==> Actor(es[n]).Some?
    requires i < |s.txs| && !s.txs[i].phase.Done? && HasFamily(s.tables, f) && NoRival(s, f, i)
    ensures |s.ops| <= n < |s'.ops| == |s'.ends| && s'.ends[n].tx == i
    ensures i < |s'.txs| && IsRequestOf(s'.ops[n], s'.txs[i]) && s'.txs[i].job == s.txs[i].job
    ensures SameRows(s.tables, After(s'.ops[..n]), f)
  {
    ReachableInv(h, s);
    RunKeeps(h, s, es, s');
    JobsStay(h, s, es, s');
    n := EndOf(h, s, es, s', i);
    var m, x := EntryMade(h, s, es, s', n);
    JobsStay(h, s, es[..m], x);
    StepShape(h, x, es[m]);
    WhileOpen(h, s, es[..m], x, f, i);
  }

  lemma EndOf(h: Family -> LockKey, s: State, es: seq<Event>, s': State, i: nat) returns (n: nat)
    requires Reachable(h, s) && Run(h, s, es, s')
    requires i < |s.txs| && !s.txs[i].phase.Done? && i < |s'.txs| && s'.txs[i].phase.Done?
    ensures |s.ops| <= n < |s'.ops| == |s'.ends| && s'.ends[n].tx == i && IsRequestOf(s'.ops[n], s'.txs[i])
  {
    ReachableInv(h, s);
    RunKeeps(h, s, es, s');
    ReachableRun(h, s, es, s');
    Linearizable(h, s);
    Linearizable(h, s');
    assert HasEnded(s', i);
    assert forall m :: 0 <= m < |s.ends| ==> s'.ends[m] == s.ends[m];
    n :| 0 <= n < |s'.ends| && s'.ends[n].tx == i;
  }

  // No open refresh holds a token of the family of `sel`.
  ghost predicate Uncontested(s: State, sel: Selector) {
    sel in s.tables.refresh && NoRival(s, s.tables.refresh[sel].family, |s.txs|)
  }

  // Entry n is the request for `sel` begun in state s, served, and its new token is its family's
  // newest.
  ghost predicate Served(s: State, s': State, sel: Selector, n: nat)
    requires sel in s.tables.refresh
  {
    && |s.ops| <= n < |s'.ops| == |s'.outs| == |s'.ends|
    && s'.ends[n].tx == |s.txs|
    && s'.ops[n].Refresh? && s'.outs[n].Session? && s'.outs[n].userId == s.tables.refresh[sel].userId
    && s'.outs[n].mint == s'.ops[n].q.mint
    && IsTip(After(s'.ops[..n + 1]), s'.ops[n].q.mint.selector, s.tables.refresh[sel].family)
  }

  /** The newest token of an unrevoked, unexpired family of an active user rotates: from any
      reachable state in which no open refresh holds a token of that family, whatever else is open
      and whichever families share its advisory key, a request that presents it can run to its end
      along with all others, and ends in a session whose token is the family's newest. If nothing
      else was open it is the only new entry. */
  lemma LatestTokenRotates(
    h: Family -> LockKey, s: State, sel: Selector, presented: Option<Digest>, at: Time, now: Time)
    returns (es: seq<Event>, s': State, n: nat)
    requires Reachable(h, s) && LiveTip(s, sel, presented, now) && Uncontested(s, sel)
    ensures Run(h, s, [BeginRefresh(sel, presented, at)] + es, s') && AllDone(s') && Served(s, s', sel, n)
    ensures forall m :: 0 <= m < |es| && es[m].Judge? ==> es[m].appNow == now
    ensures AllDone(s) ==> n == |s.ops| && |s'.ops| == n + 1
  {
    var e := BeginRefresh(sel, presented, at);
    var s1 := Step(h, s, e);
    ReachableStep(h, s, e);
    es, s' := EveryoneFinishes(h, s1, now);
    var all, i, row := [e] + es, |s.txs|, s.tables.refresh[sel];
    assert all[1..] == es;
    assert HasFamily(s1.tables, row.family);
    n := EndedUndisturbed(h, s1, es, s', row.family, i);
    assert Drawn(s1.txs[i]).None?;
    assert NobodyDisables(all, row.userId) && Untroubled(all, i, row.expiresAt) by {
      assert forall m :: 0 < m < |all| ==> all[m] == es[m - 1];
    }
    ServedThere(h, s, all, s', sel, presented, now, n);
    if AllDone(s) {
      JobsStay(h, s1, es, s');
      ReachableRun(h, s, all, s');
      OnlyEntry(h, s, all, s');
    }
  }

  lemma OnlyEntry(h: Family -> LockKey, s: State, es: seq<Event>, s': State)
    requires Reachable(h, s) && Reachable(h, s') && Run(h, s, es, s')
    requires AllDone(s) && AllDone(s') && |s'.txs| == |s.txs| + 1
    ensures |s'.outs| == |s'.ops| == |s'.ends| == |s.ops| + 1 && s'.ops[..|s.ops|] == s.ops
    ensures s'.ends[|s.ops|].tx == |s.txs| && IsRequestOf(s'.ops[|s.ops|], s'.txs[|s.txs|])
  {
    ReachableInv(h, s);
    RunKeeps(h, s, es, s');
    Linearizable(h, s);
    Linearizable(h, s');
    OneMoreEnd(s, s', |s.txs|);
  }

  lemma ServedThere(
    h: Family -> LockKey, s: State, es: seq<Event>, s': State,
    sel: Selector, presented: Option<Digest>, now: Time, n: nat)
    requires Reachable(h, s) && Run(h, s, es, s') && LiveTip(s, sel, presented, now)
    requires |s.ops| <= n < |s'.ops| == |s'.ends| && s'.ends[n].tx == |s.txs|
    requires s'.ops[n].Refresh? && s'.ops[n].q.selector == sel && s'.ops[n].q.presented == presented
    requires SameRows(s.tables, After(s'.ops[..n]), s.tables.refresh[sel].family)
    requires var row := s.tables.refresh[sel];
      NobodyDisables(es, row.userId) && Untroubled(es, s'.ends[n].tx, row.expiresAt)
    ensures Served(s, s', sel, n)
  {
    var t, f := After(s'.ops[..n]), s.tables.refresh[sel].family;
    ReachableInv(h, s);
    RunKeeps(h, s, es, s');
    assert sel in Members(s.tables, f) && sel in Members(t, f);
    SameRowsUnrevoked(s.tables, t, f);
    ConsumedIsUsed(s'.ops, n, sel);
    GoodRefreshGetsSession(h, s, es, s', n);
  }

  lemma SameRowsUnrevoked(t: Tables, t': Tables, f: Family)
    requires SameRows(t, t', f) && !Revoked(t, f)
    ensures !Revoked(t', f)
  {
    forall x | x in t'.refresh && t'.refresh[x].family == f ensures t'.refresh[x].revokedAt.None? {
      assert x in Members(t', f);
    }
  }
}
