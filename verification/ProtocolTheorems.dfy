/** What holds in every interleaving of rotateRefresh and login transactions. */
module ProtocolTheorems {
  import opened Prelude
  import opened Rotation
  import opened RotationRuns
  import opened Protocol
  import opened ProtocolInvariant
  import opened ProtocolHistory

  // ---- who finished with what ----

  // Every finished transaction is exactly one entry of the history, under its own request.
  ghost predicate Attributed(s: State) {
    && |s.ends| == |s.ops|
    && (forall n :: 0 <= n < |s.ends| ==>
          && s.ends[n].tx < |s.txs| && s.txs[s.ends[n].tx].phase.Done?
          && IsRequestOf(s.ops[n], s.txs[s.ends[n].tx]))
    && (forall m, n :: 0 <= m < n < |s.ends| ==> s.ends[m].tx != s.ends[n].tx)
    && (forall i :: 0 <= i < |s.txs| && s.txs[i].phase.Done? ==> HasEnded(s, i))
  }

  ghost predicate HasEnded(s: State, i: nat) {
    exists n :: 0 <= n < |s.ends| && s.ends[n].tx == i
  }

  lemma EndedStill(s: State, s': State, i: nat)
    requires HasEnded(s, i) && s.ends <= s'.ends
    ensures HasEnded(s', i)
  {
    var n :| 0 <= n < |s.ends| && s.ends[n].tx == i;
    assert s'.ends[n].tx == i;
  }

  lemma MoveAttributed(s: State, i: nat, p: Phase, grants: seq<Ticket>)
    requires Attributed(s) && i < |s.txs| && !p.Done? && !s.txs[i].phase.Done?
    ensures Attributed(Move(s, i, p).(grants := grants))
  {
    var s' := Move(s, i, p).(grants := grants);
    forall j | 0 <= j < |s'.txs| && s'.txs[j].phase.Done? ensures HasEnded(s', j) {
      EndedStill(s, s', j);
    }
  }

  lemma EndAttributed(h: Family -> LockKey, s: State, i: nat, t: Tables, op: Op, out: Outcome)
    requires Attributed(s) && i < |s.txs| && !s.txs[i].phase.Done? && IsRequestOf(op, s.txs[i])
    ensures Attributed(End(h, s, i, t, op, out))
  {
    var s' := End(h, s, i, t, op, out);
    assert s'.ends[|s.ends|].tx == i;
    forall j | 0 <= j < |s'.txs| && s'.txs[j].phase.Done? ensures HasEnded(s', j) {
      if j != i { EndedStill(s, s', j); }
    }
  }

  lemma BeginAttributed(s: State, tx: Tx)
    requires Attributed(s) && tx.phase.Begun?
    ensures Attributed(s.(txs := s.txs + [tx]))
  {
    var s' := s.(txs := s.txs + [tx]);
    forall j | 0 <= j < |s'.txs| && s'.txs[j].phase.Done? ensures HasEnded(s', j) {
      EndedStill(s, s', j);
    }
  }

  lemma ActorAttributed(h: Family -> LockKey, s: State, e: Event)
    requires Attributed(s) && Enabled(h, s, e) && Actor(e).Some?
    ensures Attributed(Step(h, s, e))
  {
    var s' := Step(h, s, e);
    StepShape(h, s, e);
    if s'.txs[e.i].phase.Done? {
      EndAttributed(h, s, e.i, s'.tables, s'.ops[|s.ops|], s'.outs[|s.outs|]);
    } else {
      MoveAttributed(s, e.i, s'.txs[e.i].phase, s'.grants);
    }
  }

  lemma StatusAttributed(s: State, users: map<UserId, string>)
    requires Attributed(s)
    ensures Attributed(s.(users := users))
  {
    var s' := s.(users := users);
    forall i | 0 <= i < |s.txs| && s.txs[i].phase.Done? ensures HasEnded(s', i) { EndedStill(s, s', i); }
  }

  lemma StepAttributed(h: Family -> LockKey, s: State, e: Event)
    requires Attributed(s) && Enabled(h, s, e)
    ensures Attributed(Step(h, s, e))
  {
    match e
    case BeginRefresh(sel, presented, at) => BeginAttributed(s, Tx(RefreshJob(sel, presented), at, Begun));
    case BeginLogin(u, f, m, now) => BeginAttributed(s, Tx(LoginJob(u, f, m, now), 0, Begun));
    case SetStatus(u, status) => StatusAttributed(s, s.users[u := status]);
    case _ => ActorAttributed(h, s, e);
  }

  lemma {:induction false} RunAttributed(h: Family -> LockKey, s: State, es: seq<Event>, s': State)
    requires Inv(h, s) && Attributed(s) && Run(h, s, es, s')
    ensures Attributed(s')
    decreases |es|
  {
    if es == [] {
    } else {
      StepKeeps(h, s, es[0]);
      StepAttributed(h, s, es[0]);
      RunAttributed(h, Step(h, s, es[0]), es[1..], s');
    }
  }

  // ---- linearizability ----

  /** Every interleaving is serial: the committed tables and every returned outcome are those of
      running the finished requests one at a time in `ops` order; each finished transaction is
      one entry of it, under its own request, app clock, drawn credentials and look at the user's
      status, as they happened in any run that leads here; and for each advisory key that order is
      the order of the lock grants, with at most the present holder still outstanding. */
  lemma Linearizable(h: Family -> LockKey, s: State)
    requires Reachable(h, s)
    ensures s.tables == After(s.ops) && |s.outs| == |s.ops|
    ensures forall n :: 0 <= n < |s.ops| ==> s.outs[n] == OutcomeAt(s.ops, n)
    ensures Attributed(s)
    ensures forall users, es, n: nat :: Run(h, Init(users), es, s) && n < |s.ops| ==> TrueEntry(h, users, es, s, n)
    ensures forall k :: On(s.ends, k) <= On(s.grants, k) <= On(s.ends, k) + Holders(h, s, k)
  {
    ReachableInv(h, s);
    var users, es :| Run(h, Init(users), es, s);
    InitInv(h, users);
    RunAttributed(h, Init(users), es, s);
    forall users, es, n: nat | Run(h, Init(users), es, s) && n < |s.ops| ensures TrueEntry(h, users, es, s, n) {
      EntryIsTrue(h, users, es, s, n);
    }
    forall k ensures On(s.ends, k) <= On(s.grants, k) <= On(s.ends, k) + Holders(h, s, k) {
      if i :| 0 <= i < |s.txs| && LockKeyOf(h, s.txs[i]) == Some(k) {
        HoldersAre(h, s, k, i);
      } else {
        assert KeyFree(h, s, k);
      }
    }
  }

  // The present holder of key k, if any.
  ghost function Holders(h: Family -> LockKey, s: State, k: LockKey): seq<nat> {
    if i :| 0 <= i < |s.txs| && LockKeyOf(h, s.txs[i]) == Some(k) then [i] else []
  }

  lemma HoldersAre(h: Family -> LockKey, s: State, k: LockKey, i: nat)
    requires Mutex(h, s) && i < |s.txs| && LockKeyOf(h, s.txs[i]) == Some(k)
    ensures Holders(h, s, k) == [i]
  {
  }

  // ---- revocation ----

  /** In every reachable state a family is revoked as a whole or not at all. Once it is revoked,
      then in every state any run reaches, including the rest of transactions already in flight,
      it has gained no row, its rows are unchanged, and no request for one of its tokens that
      finishes later gets a session. */
  lemma NoEscapeFromRevocation(h: Family -> LockKey, s: State, es: seq<Event>, s': State, f: Family)
    requires Reachable(h, s) && Run(h, s, es, s') && Revoked(s.tables, f)
    ensures AllRevoked(s.tables, f)
    ensures SameRows(s.tables, s'.tables, f)
    ensures |s'.outs| == |s'.ops|
    ensures forall n :: |s.ops| <= n < |s'.ops| ==>
      s'.ops[n].Refresh? && s'.ops[n].q.selector in Members(s.tables, f) ==> !s'.outs[n].Session?
  {
    ReachableInv(h, s);
    RunKeeps(h, s, es, s');
    var k := |s.ops|;
    assert s'.ops[..k] == s.ops;
    HistorySound(s.ops);
    forall x | x in Members(s.tables, f) ensures s.tables.refresh[x].revokedAt.Some? {
      FamilyMembersRevoked(s.tables, f, x);
    }
    RevokedIsFinal(s'.ops, k, f);
    forall n | k <= n < |s'.ops| && s'.ops[n].Refresh? && s'.ops[n].q.selector in Members(s.tables, f)
      ensures !s'.outs[n].Session?
    {
      assert NoSessionFrom(s'.ops, n, Members(s.tables, f));
      assert s'.outs[n] == OutcomeAt(s'.ops, n);
    }
  }

  /** Exactly which finished requests revoked, in any interleaving: right verifier, family not
      yet revoked, and begun more than 30 seconds after the begin of the consumer. */
  lemma ReplaysRevoke(h: Family -> LockKey, s: State, k: nat)
    requires Reachable(h, s) && k < |s.ops| && s.ops[k].Refresh?
    ensures RevokedAt(s.ops, k) <==>
      && !s.ops[k].q.fault.Abort?
      && RightVerifier(After(s.ops[..k]), s.ops[k].q)
      && !Revoked(After(s.ops[..k]), After(s.ops[..k]).refresh[s.ops[k].q.selector].family)
      && ConsumedLongBefore(s.ops, k, s.ops[k].q)
    ensures RevokedAt(s.ops, k) ==>
      && AllRevoked(After(s.ops[..k + 1]), After(s.ops[..k]).refresh[s.ops[k].q.selector].family)
      && After(s.ops[..k + 1]).access == After(s.ops[..k]).access
  {
    ReachableInv(h, s);
    RevokesExactlyReplays(s.ops, k);
  }

  /** Honest racers keep the family: a refresh of a consumed token that began at most 30 seconds
      after its consumer began (or before it) never revokes, wherever it lands in the history,
      whatever it waited for and whatever the app clock said. */
  lemma HonestRacerNeverRevokes(h: Family -> LockKey, s: State, j: nat, k: nat)
    requires Reachable(h, s) && RotatedAt(s.ops, j) && k < |s.ops| && s.ops[k].Refresh?
    requires s.ops[k].q.selector == s.ops[j].q.selector
    requires s.ops[k].q.begin <= s.ops[j].q.begin + 30_000_000
    ensures !RevokedAt(s.ops, k)
    ensures After(s.ops[..k + 1]) == After(s.ops[..k]) || RotatedAt(s.ops, k)
  {
    ReachableInv(h, s);
    AfterPrefix(s.ops, k);
    RevokesExactlyReplays(s.ops, k);
    if RevokedAt(s.ops, k) {
      var c: nat :| c < k && RotatedAt(s.ops, c) && s.ops[c].q.selector == s.ops[k].q.selector
                    && s.ops[c].q.begin + 30_000_000 < s.ops[k].q.begin;
      if c < j { RotatedOnce(s.ops, c, j); } else if j < c { RotatedOnce(s.ops, j, c); }
      assert false;
    }
  }

  // ---- conservation ----

  /** In every reachable state, failed and half-done transactions included: each family has
      exactly one row with used_at null, its rows number one more than its committed rotations,
      every user has as many access rows as refresh rows, and no token was rotated twice. */
  lemma Conservation(h: Family -> LockKey, s: State)
    requires Reachable(h, s)
    ensures forall f :: HasFamily(s.tables, f) ==> HasTip(s.tables, f)
    ensures forall f, a, b :: IsTip(s.tables, a, f) && IsTip(s.tables, b, f) ==> a == b
    ensures forall f :: HasFamily(s.tables, f) ==> |Members(s.tables, f)| == 1 + Rotations(s.ops, f)
    ensures forall u :: |RefreshOf(s.tables, u)| == |AccessOf(s.tables, u)|
    ensures forall i: nat, j: nat :: i < j ==>
      RotatedAt(s.ops, i) && RotatedAt(s.ops, j) ==> s.ops[i].q.selector != s.ops[j].q.selector
  {
    ReachableInv(h, s);
    HistorySound(s.ops);
    forall f | HasFamily(s.tables, f) ensures |Members(s.tables, f)| == 1 + Rotations(s.ops, f) {
      RowsAreRotationsPlusOne(s.ops, f);
    }
    forall i: nat, j: nat | i < j && RotatedAt(s.ops, i) && RotatedAt(s.ops, j)
      ensures s.ops[i].q.selector != s.ops[j].q.selector
    {
      RotatedOnce(s.ops, i, j);
    }
  }

  /** In every reachable state: a chain outlives the lifetime granted at its login exactly when one
      of its rotations was judged later than the login by the application clock. */
  lemma LifetimeSlides(h: Family -> LockKey, s: State, i: nat)
    requires Reachable(h, s) && LoggedInAt(s.ops, i)
    ensures Outlives(s.tables, s.ops[i].family, s.ops[i].appNow + 2_592_000_000_000)
       <==> RotatedAfter(s.ops, s.ops[i].family, s.ops[i].appNow)
  {
    ReachableInv(h, s);
    CeilingBrokenIff(s.ops, i);
  }
}
