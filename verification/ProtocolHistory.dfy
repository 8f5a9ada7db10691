/** The history a run leaves is a true record: who ended when, and what each transaction really
    read, judged by and drew. */
module ProtocolHistory {
  import opened Prelude
  import opened Rotation
  import opened RotationRuns
  import opened Protocol
  import opened ProtocolInvariant

  // ---- runs ----

  lemma {:induction false} RunOn(h: Family -> LockKey, s: State, es: seq<Event>, x: State, fs: seq<Event>, s': State)
    requires Run(h, s, es, x) && Run(h, x, fs, s')
    ensures Run(h, s, es + fs, s')
    decreases |es|
  {
    if es == [] {
      assert es + fs == fs;
    } else {
      assert (es + fs)[1..] == es[1..] + fs;
      RunOn(h, Step(h, s, es[0]), es[1..], x, fs, s');
    }
  }

  lemma ReachableStep(h: Family -> LockKey, s: State, e: Event)
    requires Reachable(h, s) && Enabled(h, s, e)
    ensures Reachable(h, Step(h, s, e))
  {
    var users, es :| Run(h, Init(users), es, s);
    var s' := Step(h, s, e);
    assert [e][1..] == [] && Run(h, s', [], s');
    assert Run(h, s, [e], s');
    RunOn(h, Init(users), es, s, [e], s');
  }

  lemma ReachableRun(h: Family -> LockKey, s: State, es: seq<Event>, s': State)
    requires Reachable(h, s) && Run(h, s, es, s')
    ensures Reachable(h, s')
  {
    var users, fs :| Run(h, Init(users), fs, s);
    RunOn(h, Init(users), fs, s, es, s');
  }

  // ---- the step that ended a transaction ----

  // In state x, reached by the first m events of the run, event m made entry n of the history of s'.
  ghost predicate Makes(h: Family -> LockKey, s: State, es: seq<Event>, s': State, n: nat, m: nat, x: State) {
    && n < |s'.ops| && |s'.outs| == |s'.ops| == |s'.ends| && m < |es|
    && Run(h, s, es[..m], x) && Inv(h, x) && x.tables == After(s'.ops[..n])
    && Enabled(h, x, es[m]) && Actor(es[m]) == Some(s'.ends[n].tx)
    && EndsWith(h, x, es[m], s'.ops[n], s'.outs[n])
  }

  ghost predicate EndsWith(h: Family -> LockKey, x: State, e: Event, op: Op, out: Outcome)
    requires Enabled(h, x, e) && Actor(e).Some?
  {
    var y := Step(h, x, e);
    |y.ops| == |x.ops| + 1 && y.ops[|x.ops|] == op && |y.outs| == |x.outs| + 1 && y.outs[|x.outs|] == out
  }

  // An event that lengthens the history is a transaction's last step.
  lemma EntryStep(h: Family -> LockKey, s: State, e: Event)
    requires |s.ops| == |s.outs| == |s.ends| && Enabled(h, s, e)
    ensures var s' := Step(h, s, e);
      |s'.ops| == |s.ops| ||
        (&& Actor(e).Some? && |s'.ops| == |s.ops| + 1 == |s'.outs| == |s'.ends|
         && s'.ends[|s.ops|].tx == e.i && EndsWith(h, s, e, s'.ops[|s.ops|], s'.outs[|s.ops|]))
  {
    if Actor(e).Some? { StepShape(h, s, e); }
  }

  // Entry n is the one the first event of the run makes.
  lemma EntryNow(h: Family -> LockKey, s: State, es: seq<Event>, s': State, n: nat)
    requires Inv(h, s) && |s'.ops| == |s'.outs| == |s'.ends| && es != [] && Enabled(h, s, es[0])
    requires var s1 := Step(h, s, es[0]);
      |s.ops| <= n < |s1.ops| && s1.ops <= s'.ops && s1.outs <= s'.outs && s1.ends <= s'.ends
    ensures Makes(h, s, es, s', n, 0, s)
  {
    var s1 := Step(h, s, es[0]);
    EntryStep(h, s, es[0]);
    StepGrows(h, s, es[0]);
    assert s'.ops[..n] == s.ops;
    assert s'.ops[n] == s1.ops[n] && s'.outs[n] == s1.outs[n] && s'.ends[n] == s1.ends[n];
    assert Run(h, s, es[..0], s);
  }

  lemma EntryLater(h: Family -> LockKey, s: State, es: seq<Event>, s': State, n: nat, m: nat, x: State)
    requires es != [] && Enabled(h, s, es[0]) && Makes(h, Step(h, s, es[0]), es[1..], s', n, m, x)
    ensures Makes(h, s, es, s', n, m + 1, x)
  {
    assert es[..m + 1][1..] == es[1..][..m] && es[m + 1] == es[1..][m];
  }

  // The first event of the run makes entry n, or the rest of the run does.
  lemma EntryFirst(h: Family -> LockKey, s: State, es: seq<Event>, s': State, n: nat)
    requires Inv(h, s) && Run(h, s, es, s') && |s.ops| <= n < |s'.ops|
    ensures es != [] && Enabled(h, s, es[0])
    ensures var s1 := Step(h, s, es[0]); Inv(h, s1) && Run(h, s1, es[1..], s')
    ensures |Step(h, s, es[0]).ops| <= n || Makes(h, s, es, s', n, 0, s)
  {
    var s1 := Step(h, s, es[0]);
    StepKeeps(h, s, es[0]);
    RunKeeps(h, s1, es[1..], s');
    if |s1.ops| > n { EntryNow(h, s, es, s', n); }
  }

  lemma {:induction false} EntryMade(h: Family -> LockKey, s: State, es: seq<Event>, s': State, n: nat)
    returns (m: nat, x: State)
    requires Inv(h, s) && Run(h, s, es, s') && |s.ops| <= n < |s'.ops|
    ensures Makes(h, s, es, s', n, m, x)
    decreases |es|
  {
    EntryFirst(h, s, es, s', n);
    if Makes(h, s, es, s', n, 0, s) {
      m, x := 0, s;
    } else {
      m, x := EntryMade(h, Step(h, s, es[0]), es[1..], s', n);
      EntryLater(h, s, es, s', n, m, x);
      m := m + 1;
    }
  }

  // What one last step says about its entry.
  lemma EntryOutcome(h: Family -> LockKey, x: State, e: Event, op: Op, out: Outcome)
    requires Enabled(h, x, e) && Actor(e).Some? && EndsWith(h, x, e, op, out) && op.Refresh?
    ensures op.q.fault.NoFault? <==> !e.Fail? && !Loses(e)
    ensures op.q.fault.NoFault? ==> !out.ServerError?
    ensures out.Session? ==> e.CommitRotate?
    ensures op.q.status != Some("active") ==>
      e.ReadUser? && op.q.status == StatusOf(x.users, x.txs[e.i].phase.row.userId)
  {
  }

  // ---- the look at the user's status ----

  predicate Active(users: map<UserId, string>, u: UserId) {
    u in users && users[u] == "active"
  }

  // A rotation for user u whose look at users.status is behind it.
  predicate PastGate(tx: Tx, u: UserId) {
    (tx.phase.Approved? || tx.phase.Marked? || tx.phase.Drew? || tx.phase.RefreshInserted? || tx.phase.BothInserted?)
    && tx.phase.row.userId == u
  }

  // How the transaction that steps passes the gate.
  lemma GateOwn(h: Family -> LockKey, s: State, e: Event, u: UserId)
    requires Enabled(h, s, e) && Actor(e).Some?
    ensures |Step(h, s, e).txs| == |s.txs|
    ensures PastGate(Step(h, s, e).txs[e.i], u) ==>
      PastGate(s.txs[e.i], u) || (e.ReadUser? && s.txs[e.i].phase.row.userId == u && Active(s.users, u))
  {
  }

  lemma GateOpens(h: Family -> LockKey, s: State, e: Event, i: nat, u: UserId)
    requires Enabled(h, s, e) && i < |Step(h, s, e).txs| && PastGate(Step(h, s, e).txs[i], u)
    ensures (i < |s.txs| && PastGate(s.txs[i], u))
      || (e == ReadUser(i) && s.txs[i].phase.row.userId == u && Active(s.users, u))
  {
    if Actor(e).Some? {
      StepShape(h, s, e);
      GateOwn(h, s, e, u);
    }
  }

  lemma StatusStep(h: Family -> LockKey, s: State, e: Event)
    requires Enabled(h, s, e)
    ensures Step(h, s, e).users == if e.SetStatus? then s.users[e.userId := e.status] else s.users
  {
  }

  // In state z, reached by the first m events, transaction i looked and found user u active.
  ghost predicate LookedActive(h: Family -> LockKey, s: State, es: seq<Event>, i: nat, u: UserId, m: nat, z: State) {
    && m < |es| && Run(h, s, es[..m], z) && es[m] == ReadUser(i) && Enabled(h, z, es[m])
    && z.txs[i].phase.row.userId == u && Active(z.users, u)
  }

  lemma {:induction false} PastGateLooked(h: Family -> LockKey, s: State, es: seq<Event>, x: State, i: nat, u: UserId)
    returns (m: nat, z: State)
    requires Run(h, s, es, x) && i < |x.txs| && PastGate(x.txs[i], u)
    ensures (i < |s.txs| && PastGate(s.txs[i], u)) || LookedActive(h, s, es, i, u, m, z)
    decreases |es|
  {
    m, z := 0, s;
    if es == [] {
    } else {
      var s1 := Step(h, s, es[0]);
      m, z := PastGateLooked(h, s1, es[1..], x, i, u);
      if i < |s1.txs| && PastGate(s1.txs[i], u) {
        GateOpens(h, s, es[0], i, u);
        m, z := 0, s;
      } else {
        assert es[..m + 1][1..] == es[1..][..m] && es[m + 1] == es[1..][m];
        m := m + 1;
      }
    }
  }

  // The last step of a refresh that got a session, or was entered with another status than active.
  lemma EntryStatus(h: Family -> LockKey, x: State, e: Event, op: Op, out: Outcome)
    requires Inv(h, x) && Enabled(h, x, e) && Actor(e).Some? && EndsWith(h, x, e, op, out) && op.Refresh?
    requires out.Session? || op.q.status != Some("active")
    ensures x.txs[e.i].phase.Checked? || x.txs[e.i].phase.BothInserted?
    ensures var u := x.txs[e.i].phase.row.userId;
      && op.q.selector in x.tables.refresh && x.tables.refresh[op.q.selector].userId == u
      && if out.Session? then op.q.status == Some("active") && PastGate(x.txs[e.i], u) && out.userId == u
         else e.ReadUser? && op.q.status == StatusOf(x.users, u)
  {
    assert TxOk(x.tables, x.txs[e.i]);
  }

  /** The status in the history is true: for every refresh that got a session, and every one
      entered with another status than active, it is the committed status of the token's owner in
      the state in which that very transaction ran its look-up. */
  lemma StatusIsTrue(h: Family -> LockKey, users: map<UserId, string>, es: seq<Event>, s: State, k: nat)
    returns (m: nat, x: State)
    requires Run(h, Init(users), es, s) && k < |s.ops| && s.ops[k].Refresh? && k < |s.outs| && k < |s.ends|
    requires s.outs[k].Session? || s.ops[k].q.status != Some("active")
    ensures m < |es| && Run(h, Init(users), es[..m], x) && es[m] == ReadUser(s.ends[k].tx) && Enabled(h, x, es[m])
    ensures var t, q := After(s.ops[..k]), s.ops[k].q;
      q.selector in t.refresh && q.status == StatusOf(x.users, t.refresh[q.selector].userId)
  {
    InitInv(h, users);
    m, x := EntryMade(h, Init(users), es, s, k);
    EntryStatus(h, x, es[m], s.ops[k], s.outs[k]);
    if s.outs[k].Session? {
      m, x := LookedBefore(h, Init(users), es, m, x, s.ends[k].tx, x.txs[s.ends[k].tx].phase.row.userId);
    }
  }

  lemma LookedBefore(h: Family -> LockKey, s: State, es: seq<Event>, k: nat, x: State, i: nat, u: UserId)
    returns (m: nat, z: State)
    requires s.txs == [] && k <= |es| && Run(h, s, es[..k], x) && i < |x.txs| && PastGate(x.txs[i], u)
    ensures LookedActive(h, s, es, i, u, m, z)
  {
    m, z := PastGateLooked(h, s, es[..k], x, i, u);
    assert es[..k][..m] == es[..m] && es[..k][m] == es[m];
  }

  // ---- the app clock and the drawn credentials ----

  // A rotation past its judgement carries the app clock it was judged by.
  predicate PastJudge(tx: Tx, appNow: Time) {
    (tx.phase.Checked? || tx.phase.Approved? || tx.phase.Marked? || tx.phase.Drew? || tx.phase.RefreshInserted?
     || tx.phase.BothInserted?) && tx.phase.appNow == appNow
  }

  predicate PastDraw(tx: Tx, m: Mint) {
    (tx.phase.Drew? || tx.phase.RefreshInserted? || tx.phase.BothInserted?) && tx.phase.mint == m
  }

  lemma CarryOwn(h: Family -> LockKey, s: State, e: Event, appNow: Time, m: Mint)
    requires Enabled(h, s, e) && Actor(e).Some?
    ensures |Step(h, s, e).txs| == |s.txs|
    ensures PastJudge(Step(h, s, e).txs[e.i], appNow) ==> PastJudge(s.txs[e.i], appNow) || e == Judge(e.i, appNow)
    ensures PastDraw(Step(h, s, e).txs[e.i], m) ==> PastDraw(s.txs[e.i], m) || e == Draw(e.i, m)
  {
  }

  lemma CarryStep(h: Family -> LockKey, s: State, e: Event, i: nat, appNow: Time, m: Mint)
    requires Enabled(h, s, e) && i < |Step(h, s, e).txs|
    ensures PastJudge(Step(h, s, e).txs[i], appNow) ==>
      (i < |s.txs| && PastJudge(s.txs[i], appNow)) || e == Judge(i, appNow)
    ensures PastDraw(Step(h, s, e).txs[i], m) ==> (i < |s.txs| && PastDraw(s.txs[i], m)) || e == Draw(i, m)
  {
    if Actor(e).Some? {
      StepShape(h, s, e);
      CarryOwn(h, s, e, appNow, m);
    }
  }

  // What a transaction carries it has judged by, or drawn, in the run or had before it.
  lemma {:induction false} Carried(
    h: Family -> LockKey, s: State, es: seq<Event>, x: State, i: nat, appNow: Time, m: Mint)
    requires Run(h, s, es, x) && i < |x.txs|
    ensures PastJudge(x.txs[i], appNow) ==> (i < |s.txs| && PastJudge(s.txs[i], appNow)) || Judge(i, appNow) in es
    ensures PastDraw(x.txs[i], m) ==> (i < |s.txs| && PastDraw(s.txs[i], m)) || Draw(i, m) in es
    decreases |es|
  {
    if es == [] {
    } else {
      var s1 := Step(h, s, es[0]);
      assert es[0] in es && forall e :: e in es[1..] ==> e in es;
      Carried(h, s1, es[1..], x, i, appNow, m);
      if i < |s1.txs| { CarryStep(h, s, es[0], i, appNow, m); }
    }
  }

  // The token presented is good in tables t: right verifier, unrevoked, never used.
  ghost predicate Unspent(t: Tables, q: Request) {
    && RightVerifier(t, q)
    && t.refresh[q.selector].revokedAt.None? && t.refresh[q.selector].usedAt.None?
  }

  // The last step of a refresh that got a session, or had a good token and did not fail.
  lemma EntryInputs(h: Family -> LockKey, x: State, e: Event, op: Op, out: Outcome)
    requires Inv(h, x) && Enabled(h, x, e) && Actor(e).Some? && EndsWith(h, x, e, op, out) && op.Refresh?
    requires out.Session? || (!op.q.fault.Abort? && Unspent(x.tables, op.q))
    ensures e == Judge(e.i, op.q.appNow) || PastJudge(x.txs[e.i], op.q.appNow)
    ensures out.Session? ==> PastDraw(x.txs[e.i], op.q.mint)
  {
    assert TxOk(x.tables, x.txs[e.i]);
  }

  /** The app clock in the history is the one the transaction itself judged by, for every refresh begun
      in the run that got a session and every one whose token was good and that did not fail; and the
      credentials of a session are those the transaction itself drew. */
  lemma InputsAreTrue(h: Family -> LockKey, s: State, es: seq<Event>, s': State, k: nat)
    requires Inv(h, s) && Run(h, s, es, s') && |s.ops| <= k < |s'.ops| && k < |s'.outs| && k < |s'.ends|
    requires s'.ends[k].tx >= |s.txs| && s'.ops[k].Refresh?
    requires s'.outs[k].Session? || (!s'.ops[k].q.fault.Abort? && Unspent(After(s'.ops[..k]), s'.ops[k].q))
    ensures Judge(s'.ends[k].tx, s'.ops[k].q.appNow) in es
    ensures s'.outs[k].Session? ==> Draw(s'.ends[k].tx, s'.ops[k].q.mint) in es
  {
    var m, x := EntryMade(h, s, es, s', k);
    var q := s'.ops[k].q;
    EntryInputs(h, x, es[m], s'.ops[k], s'.outs[k]);
    StepShape(h, x, es[m]);
    Carried(h, s, es[..m], x, s'.ends[k].tx, q.appNow, q.mint);
    assert es[m] in es && forall e :: e in es[..m] ==> e in es;
  }

  // In some state of the run, just before event e, user u's committed status was `status`.
  ghost predicate StatusSeen(
    h: Family -> LockKey, users: map<UserId, string>, es: seq<Event>, e: Event, u: UserId, status: Option<string>)
  {
    exists m, x :: 0 <= m < |es| && Run(h, Init(users), es[..m], x) && es[m] == e && status == StatusOf(x.users, u)
  }

  // Entry k of the history records what its transaction did: the clock it judged by, the
  // credentials it drew, the status it read.
  ghost predicate TrueEntry(h: Family -> LockKey, users: map<UserId, string>, es: seq<Event>, s: State, k: nat)
    requires k < |s.ops| == |s.outs| == |s.ends|
  {
    s.ops[k].Refresh? ==>
      var t, q, i, served := After(s.ops[..k]), s.ops[k].q, s.ends[k].tx, s.outs[k].Session?;
      && (served ==> Draw(i, q.mint) in es && Judge(i, q.appNow) in es)
      && (!q.fault.Abort? && Unspent(t, q) ==> Judge(i, q.appNow) in es)
      && (served || q.status != Some("active") ==>
            q.selector in t.refresh && StatusSeen(h, users, es, ReadUser(i), t.refresh[q.selector].userId, q.status))
  }

  lemma EntryIsTrue(h: Family -> LockKey, users: map<UserId, string>, es: seq<Event>, s: State, k: nat)
    requires Run(h, Init(users), es, s) && k < |s.ops| == |s.outs| == |s.ends|
    ensures TrueEntry(h, users, es, s, k)
  {
    if s.ops[k].Refresh? {
      var t, q := After(s.ops[..k]), s.ops[k].q;
      if s.outs[k].Session? || (!q.fault.Abort? && Unspent(t, q)) {
        InitInv(h, users);
        InputsAreTrue(h, Init(users), es, s, k);
      }
      if s.outs[k].Session? || q.status != Some("active") {
        var m, x := StatusIsTrue(h, users, es, s, k);
      }
    }
  }
}
