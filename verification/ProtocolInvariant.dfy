/** The inductive invariant of the interleaved protocol. */
module ProtocolInvariant {
  import opened Prelude
  import opened Rotation
  import opened Protocol

  // ---- one transaction against the committed tables ----

  ghost predicate RowCurrent(t: Tables, tx: Tx, row: RefreshRow) {
    tx.job.RefreshJob? && tx.job.selector in t.refresh && t.refresh[tx.job.selector] == row
  }

  predicate JudgedReplay(tx: Tx, row: RefreshRow) {
    && tx.job.RefreshJob? && tx.job.presented == Some(row.verifierHash)
    && row.revokedAt.None? && row.usedAt.Some?
    && tx.begin - row.usedAt.value > REFRESH_REUSE_LEEWAY
  }

  predicate JudgedGood(tx: Tx, row: RefreshRow, appNow: Time) {
    && tx.job.RefreshJob? && tx.job.presented == Some(row.verifierHash)
    && row.revokedAt.None? && row.usedAt.None? && appNow < row.expiresAt
  }

  // What a transaction believes is still true of the committed rows.
  ghost predicate TxOk(t: Tables, tx: Tx) {
    match tx.phase
    case FamilyKnown(f) => tx.job.RefreshJob? && tx.job.selector in t.refresh && t.refresh[tx.job.selector].family == f
    case FamilyLocked(f) => tx.job.RefreshJob? && tx.job.selector in t.refresh && t.refresh[tx.job.selector].family == f
    case RowLocked(row) => RowCurrent(t, tx, row)
    case Replaying(row) => RowCurrent(t, tx, row) && JudgedReplay(tx, row)
    case Revoking(row, todo, held) =>
      RowCurrent(t, tx, row) && JudgedReplay(tx, row) && todo + held == LiveOf(t, row.family)
    case Checked(row, now) => RowCurrent(t, tx, row) && JudgedGood(tx, row, now)
    case Approved(row, now) => RowCurrent(t, tx, row) && JudgedGood(tx, row, now)
    case Marked(row, now) => RowCurrent(t, tx, row) && JudgedGood(tx, row, now)
    case Drew(row, now, _) => RowCurrent(t, tx, row) && JudgedGood(tx, row, now)
    case RefreshInserted(row, now, _) => RowCurrent(t, tx, row) && JudgedGood(tx, row, now)
    case BothInserted(row, now, _) => RowCurrent(t, tx, row) && JudgedGood(tx, row, now)
    case LoginAccessInserted => tx.job.LoginJob?
    case LoginBothInserted => tx.job.LoginJob?
    case Begun => true
    case Done => true
  }

  ghost predicate AllOk(s: State) {
    forall i :: 0 <= i < |s.txs| ==> TxOk(s.tables, s.txs[i])
  }

  // At most one transaction holds each advisory key.
  ghost predicate Mutex(h: Family -> LockKey, s: State) {
    forall i, j {:trigger LockKeyOf(h, s.txs[i]), LockKeyOf(h, s.txs[j])} ::
      0 <= i < |s.txs| && 0 <= j < |s.txs| && i != j ==>
        LockKeyOf(h, s.txs[i]).Some? ==> LockKeyOf(h, s.txs[i]) != LockKeyOf(h, s.txs[j])
  }

  // Uncommitted inserts collide neither with committed rows nor with each other.
  ghost predicate SelectorsFresh(s: State) {
    && (forall i :: 0 <= i < |s.txs| && NewSelector(s.txs[i]).Some? ==>
          NewSelector(s.txs[i]).value !in s.tables.refresh)
    && (forall i, j {:trigger NewSelector(s.txs[i]), NewSelector(s.txs[j])} ::
          0 <= i < |s.txs| && 0 <= j < |s.txs| && i != j ==>
        NewSelector(s.txs[i]).Some? ==> NewSelector(s.txs[i]) != NewSelector(s.txs[j]))
  }

  ghost predicate AccessesFresh(s: State) {
    && (forall i :: 0 <= i < |s.txs| && NewAccess(s.txs[i]).Some? ==> NewAccess(s.txs[i]).value !in s.tables.access)
    && (forall i, j {:trigger NewAccess(s.txs[i]), NewAccess(s.txs[j])} ::
          0 <= i < |s.txs| && 0 <= j < |s.txs| && i != j ==>
        NewAccess(s.txs[i]).Some? ==> NewAccess(s.txs[i]) != NewAccess(s.txs[j]))
  }

  ghost predicate FamiliesFresh(s: State) {
    && (forall i :: 0 <= i < |s.txs| && NewFamily(s.txs[i]).Some? ==> !HasFamily(s.tables, NewFamily(s.txs[i]).value))
    && (forall i, j {:trigger NewFamily(s.txs[i]), NewFamily(s.txs[j])} ::
          0 <= i < |s.txs| && 0 <= j < |s.txs| && i != j ==>
        NewFamily(s.txs[i]).Some? ==> NewFamily(s.txs[i]) != NewFamily(s.txs[j]))
  }

  // The committed tables and every returned outcome are those of the serial history `ops`.
  ghost predicate Serial(ops: seq<Op>, outs: seq<Outcome>, t: Tables) {
    && |outs| == |ops|
    && t == After(ops)
    && FreshFamilies(ops)
    && (forall k :: 0 <= k < |ops| ==> outs[k] == OutcomeAt(ops, k))
  }

  // Transactions end in the order in which they were granted their advisory key.
  ghost predicate InLockOrder(h: Family -> LockKey, s: State) {
    && |s.ends| == |s.ops|
    && (forall i, k :: 0 <= i < |s.txs| && LockKeyOf(h, s.txs[i]) == Some(k) ==> On(s.grants, k) == On(s.ends, k) + [i])
    && (forall k :: KeyFree(h, s, k) ==> On(s.grants, k) == On(s.ends, k))
  }

  ghost predicate Locks(h: Family -> LockKey, s: State) {
    Mutex(h, s) && InLockOrder(h, s)
  }

  ghost predicate Reserved(s: State) {
    SelectorsFresh(s) && AccessesFresh(s) && FamiliesFresh(s)
  }

  ghost predicate Inv(h: Family -> LockKey, s: State) {
    AllOk(s) && Locks(h, s) && Reserved(s) && Serial(s.ops, s.outs, s.tables)
  }

  // ---- moves that leave the committed tables alone ----

  // Advisory keys nobody held stay the same when transaction i moves on without a new one.
  lemma MoveLocks(h: Family -> LockKey, s: State, i: nat, p: Phase)
    requires Locks(h, s) && i < |s.txs| && LockKeyOf(h, s.txs[i].(phase := p)) == LockKeyOf(h, s.txs[i])
    ensures Locks(h, Move(s, i, p))
  {
    var s' := Move(s, i, p);
    forall k | KeyFree(h, s', k) ensures KeyFree(h, s, k) {
      forall j | 0 <= j < |s.txs| ensures LockKeyOf(h, s.txs[j]) != Some(k) {
        assert LockKeyOf(h, s'.txs[j]) != Some(k);
      }
    }
  }

  // It takes no reservation another transaction or a committed row has.
  ghost predicate TakesFreeKeys(s: State, was: Tx, tx: Tx) {
    && (NewSelector(tx).Some? && NewSelector(tx) != NewSelector(was) ==> SelectorFree(s, NewSelector(tx).value))
    && (NewAccess(tx).Some? && NewAccess(tx) != NewAccess(was) ==> AccessFree(s, NewAccess(tx).value))
    && NewFamily(tx) == NewFamily(was)
  }

  lemma MoveReserved(s: State, i: nat, p: Phase)
    requires Reserved(s) && i < |s.txs| && TakesFreeKeys(s, s.txs[i], s.txs[i].(phase := p))
    ensures Reserved(Move(s, i, p))
  {
  }

  // A step inside transaction i that keeps the lock it has and reserves at most free keys.
  lemma MoveKeeps(h: Family -> LockKey, s: State, i: nat, p: Phase)
    requires Inv(h, s) && i < |s.txs|
    requires TxOk(s.tables, s.txs[i].(phase := p)) && TakesFreeKeys(s, s.txs[i], s.txs[i].(phase := p))
    requires LockKeyOf(h, s.txs[i].(phase := p)) == LockKeyOf(h, s.txs[i])
    ensures Inv(h, Move(s, i, p))
  {
    MoveLocks(h, s, i, p);
    MoveReserved(s, i, p);
  }

  lemma OnAppend(ts: seq<Ticket>, x: Ticket, k: LockKey)
    ensures On(ts + [x], k) == On(ts, k) + (if x.key == Some(k) then [x.tx] else [])
  {
    assert (ts + [x])[..|ts|] == ts;
  }

  lemma GrantLocks(h: Family -> LockKey, s: State, i: nat, f: Family)
    requires Locks(h, s) && i < |s.txs| && s.txs[i].phase.FamilyKnown? && KeyFree(h, s, h(f))
    ensures Locks(h, Move(s, i, FamilyLocked(f)).(grants := s.grants + [Ticket(i, Some(h(f)))]))
  {
    var s' := Move(s, i, FamilyLocked(f)).(grants := s.grants + [Ticket(i, Some(h(f)))]);
    forall k ensures On(s'.grants, k) == On(s.grants, k) + (if k == h(f) then [i] else []) {
      OnAppend(s.grants, Ticket(i, Some(h(f))), k);
    }
    forall k | KeyFree(h, s', k) ensures KeyFree(h, s, k) {
      assert LockKeyOf(h, s'.txs[i]) != Some(k);
      forall j | 0 <= j < |s.txs| ensures LockKeyOf(h, s.txs[j]) != Some(k) {
        assert LockKeyOf(h, s'.txs[j]) != Some(k);
      }
    }
  }

  lemma LockFamilyKeeps(h: Family -> LockKey, s: State, e: Event)
    requires Inv(h, s) && Enabled(h, s, e) && e.LockFamily?
    ensures Inv(h, Step(h, s, e))
  {
    var i := e.i;
    var f := s.txs[i].phase.family;
    assert TxOk(s.tables, s.txs[i]);
    GrantLocks(h, s, i, f);
    MoveReserved(s, i, FamilyLocked(f));
  }

  lemma BeginLocks(h: Family -> LockKey, s: State, tx: Tx)
    requires Locks(h, s) && tx.phase.Begun?
    ensures Locks(h, s.(txs := s.txs + [tx]))
  {
    var s' := s.(txs := s.txs + [tx]);
    assert LockKeyOf(h, tx) == None;
    forall k | KeyFree(h, s', k) ensures KeyFree(h, s, k) {
      forall j | 0 <= j < |s.txs| ensures LockKeyOf(h, s.txs[j]) != Some(k) {
        assert LockKeyOf(h, s'.txs[j]) != Some(k);
      }
    }
  }

  lemma BeginFresh(s: State, tx: Tx)
    requires Reserved(s) && tx.phase.Begun?
    requires tx.job.LoginJob? ==> FamilyFree(s, tx.job.family)
    ensures Reserved(s.(txs := s.txs + [tx]))
  {
    assert NewSelector(tx) == None && NewAccess(tx) == None;
  }

  lemma BeginKeeps(h: Family -> LockKey, s: State, tx: Tx)
    requires Inv(h, s) && tx.phase.Begun?
    requires tx.job.LoginJob? ==> FamilyFree(s, tx.job.family)
    ensures Inv(h, s.(txs := s.txs + [tx]))
  {
    BeginLocks(h, s, tx);
    BeginFresh(s, tx);
  }

  // ---- ends ----

  lemma SerialAppend(ops: seq<Op>, outs: seq<Outcome>, t: Tables, op: Op, t': Tables, out: Outcome)
    requires Serial(ops, outs, t) && Apply(t, op) == (t', out)
    requires op.Login? ==> !HasFamily(t, op.family)
    ensures Serial(ops + [op], outs + [out], t')
  {
    var ops' := ops + [op];
    assert ops'[..|ops|] == ops;
    forall k | 0 <= k < |ops'| && ops'[k].Login? ensures !HasFamily(After(ops'[..k]), ops'[k].family) {
      if k < |ops| { assert ops'[..k] == ops[..k]; }
    }
    forall k | 0 <= k < |ops'| ensures (outs + [out])[k] == OutcomeAt(ops', k) {
      if k < |ops| { assert ops'[..k] == ops[..k]; }
    }
  }

  lemma EndLockOrder(h: Family -> LockKey, s: State, i: nat, t: Tables, op: Op, out: Outcome)
    requires Locks(h, s) && i < |s.txs|
    ensures Locks(h, End(h, s, i, t, op, out))
  {
    var s' := End(h, s, i, t, op, out);
    var key := LockKeyOf(h, s.txs[i]);
    forall k ensures On(s'.ends, k) == On(s.ends, k) + (if key == Some(k) then [i] else []) {
      OnAppend(s.ends, Ticket(i, key), k);
    }
    forall k | KeyFree(h, s', k) ensures On(s'.grants, k) == On(s'.ends, k) {
      if key != Some(k) {
        assert KeyFree(h, s, k) by {
          forall j | 0 <= j < |s.txs| ensures LockKeyOf(h, s.txs[j]) != Some(k) {
            if j != i { assert LockKeyOf(h, s'.txs[j]) != Some(k); }
          }
        }
      }
    }
  }

  lemma QuietReserved(h: Family -> LockKey, s: State, i: nat, op: Op, out: Outcome)
    requires Reserved(s) && i < |s.txs|
    ensures Reserved(End(h, s, i, s.tables, op, out))
  {
    var tx := End(h, s, i, s.tables, op, out).txs[i];
    assert NewSelector(tx) == None && NewAccess(tx) == None && NewFamily(tx) == None;
  }

  // Ending without a change: rejection or rollback.
  lemma QuietEndKeeps(h: Family -> LockKey, s: State, i: nat, op: Op, out: Outcome)
    requires Inv(h, s) && i < |s.txs| && Apply(s.tables, op) == (s.tables, out)
    requires op.Login? ==> !HasFamily(s.tables, op.family)
    ensures Inv(h, End(h, s, i, s.tables, op, out))
  {
    EndLockOrder(h, s, i, s.tables, op, out);
    QuietReserved(h, s, i, op, out);
    SerialAppend(s.ops, s.outs, s.tables, op, s.tables, out);
  }

  // t' differs from t only in rows of family f.
  ghost predicate OnlyFamily(t: Tables, t': Tables, f: Family) {
    && t.refresh.Keys <= t'.refresh.Keys
    && (forall x :: x in t.refresh ==> t'.refresh[x].family == t.refresh[x].family)
    && (forall x :: x in t.refresh && t.refresh[x].family != f ==> t'.refresh[x] == t.refresh[x])
    && (forall x :: x in t'.refresh && x !in t.refresh ==> t'.refresh[x].family == f)
  }

  // Whoever does not hold f's key is not disturbed by a change to f.
  lemma OthersOk(h: Family -> LockKey, t: Tables, t': Tables, f: Family, tx: Tx)
    requires OnlyFamily(t, t', f) && TxOk(t, tx)
    requires LockKeyOf(h, tx) != Some(h(f))
    ensures TxOk(t', tx)
  {
    if tx.phase.Revoking? {
      var g := tx.phase.row.family;
      assert g != f;
      assert LiveOf(t', g) == LiveOf(t, g);
    }
  }

  lemma OthersOkNewFamily(t: Tables, t': Tables, f: Family, tx: Tx)
    requires OnlyFamily(t, t', f) && TxOk(t, tx) && !HasFamily(t, f)
    ensures TxOk(t', tx)
  {
    if tx.phase.Revoking? {
      var g := tx.phase.row.family;
      assert g != f by { assert t.refresh[tx.job.selector].family == g; }
      assert LiveOf(t', g) == LiveOf(t, g);
    }
  }

  // Other transactions' drawn families stay uncommitted when family f gets new rows.
  lemma FamiliesStayFresh(h: Family -> LockKey, s: State, i: nat, t': Tables, op: Op, out: Outcome, f: Family)
    requires FamiliesFresh(s) && i < |s.txs| && OnlyFamily(s.tables, t', f)
    requires HasFamily(s.tables, f) || NewFamily(s.txs[i]) == Some(f)
    ensures FamiliesFresh(End(h, s, i, t', op, out))
  {
    var s' := End(h, s, i, t', op, out);
    forall j | 0 <= j < |s'.txs| && NewFamily(s'.txs[j]).Some? ensures !HasFamily(t', NewFamily(s'.txs[j]).value) {
      var g := NewFamily(s'.txs[j]).value;
      assert j != i && NewFamily(s.txs[j]) == Some(g) && !HasFamily(s.tables, g);
      assert g != f by {
        if NewFamily(s.txs[i]).Some? { assert NewFamily(s.txs[i]) != NewFamily(s.txs[j]); }
      }
      forall x | x in t'.refresh ensures t'.refresh[x].family != g {
        if x in s.tables.refresh { assert s.tables.refresh[x].family != g; }
      }
    }
    assert NewFamily(s'.txs[i]) == None;
  }

  lemma SelectorsStayFresh(h: Family -> LockKey, s: State, i: nat, t': Tables, op: Op, out: Outcome)
    requires SelectorsFresh(s) && AccessesFresh(s) && i < |s.txs|
    requires forall x :: x in t'.refresh && x !in s.tables.refresh ==> NewSelector(s.txs[i]) == Some(x)
    requires forall x :: x in t'.access && x !in s.tables.access ==> NewAccess(s.txs[i]) == Some(x)
    ensures SelectorsFresh(End(h, s, i, t', op, out))
    ensures AccessesFresh(End(h, s, i, t', op, out))
  {
    var s' := End(h, s, i, t', op, out);
    assert NewSelector(s'.txs[i]) == None && NewAccess(s'.txs[i]) == None;
    forall j | 0 <= j < |s'.txs| && NewSelector(s'.txs[j]).Some? ensures NewSelector(s'.txs[j]).value !in t'.refresh {
      assert NewSelector(s.txs[j]).Some? && NewSelector(s.txs[j]) != NewSelector(s.txs[i]);
    }
    forall j | 0 <= j < |s'.txs| && NewAccess(s'.txs[j]).Some? ensures NewAccess(s'.txs[j]).value !in t'.access {
      assert NewAccess(s.txs[j]).Some? && NewAccess(s.txs[j]) != NewAccess(s.txs[i]);
    }
  }

  // A commit by transaction i that changes family f's rows and adds at most what i reserved.
  lemma CommitKeeps(h: Family -> LockKey, s: State, i: nat, t': Tables, op: Op, out: Outcome, f: Family)
    requires Inv(h, s) && i < |s.txs| && Apply(s.tables, op) == (t', out)
    requires OnlyFamily(s.tables, t', f)
    requires op.Login? ==> op.family == f && NewFamily(s.txs[i]) == Some(f)
    requires op.Refresh? ==> HasFamily(s.tables, f) && LockKeyOf(h, s.txs[i]) == Some(h(f))
    requires forall x :: x in t'.refresh && x !in s.tables.refresh ==> NewSelector(s.txs[i]) == Some(x)
    requires forall x :: x in t'.access && x !in s.tables.access ==> NewAccess(s.txs[i]) == Some(x)
    ensures Inv(h, End(h, s, i, t', op, out))
  {
    var s' := End(h, s, i, t', op, out);
    EndLockOrder(h, s, i, t', op, out);
    SerialAppend(s.ops, s.outs, s.tables, op, t', out);
    FamiliesStayFresh(h, s, i, t', op, out, f);
    SelectorsStayFresh(h, s, i, t', op, out);
    forall j | 0 <= j < |s'.txs| ensures TxOk(t', s'.txs[j]) {
      if j != i {
        if op.Login? {
          OthersOkNewFamily(s.tables, t', f, s.txs[j]);
        } else {
          assert LockKeyOf(h, s.txs[i]) != LockKeyOf(h, s.txs[j]);
          OthersOk(h, s.tables, t', f, s.txs[j]);
        }
      }
    }
  }

  // ---- every event ----

  lemma ReadsKeep(h: Family -> LockKey, s: State, e: Event)
    requires Inv(h, s) && Enabled(h, s, e) && (e.PreRead? || e.ReadRow? || e.ReadUser?)
    ensures Inv(h, Step(h, s, e))
  {
    var i := e.i;
    var tx := s.txs[i];
    var sel := tx.job.selector;
    assert TxOk(s.tables, tx);
    if e.PreRead? {
      if sel in s.tables.refresh { MoveKeeps(h, s, i, FamilyKnown(s.tables.refresh[sel].family)); }
      else { QuietEndKeeps(h, s, i, Observed(tx, 0, Some(ACTIVE), NO_MINT, NoFault), Unauthorized); }
    } else if e.ReadRow? {
      MoveKeeps(h, s, i, RowLocked(s.tables.refresh[sel]));
    } else {
      var p := tx.phase;
      var status := StatusOf(s.users, p.row.userId);
      if status == Some(ACTIVE) { MoveKeeps(h, s, i, Approved(p.row, p.appNow)); }
      else { QuietEndKeeps(h, s, i, Observed(tx, p.appNow, status, NO_MINT, NoFault), Unauthorized); }
    }
  }

  lemma JudgeKeeps(h: Family -> LockKey, s: State, e: Event)
    requires Inv(h, s) && Enabled(h, s, e) && e.Judge?
    ensures Inv(h, Step(h, s, e))
  {
    var i, appNow := e.i, e.appNow;
    var tx := s.txs[i];
    var row := tx.phase.row;
    assert TxOk(s.tables, tx);
    if JudgedReplay(tx, row) { MoveKeeps(h, s, i, Replaying(row)); }
    else if JudgedGood(tx, row, appNow) { MoveKeeps(h, s, i, Checked(row, appNow)); }
    else { QuietEndKeeps(h, s, i, Observed(tx, appNow, Some(ACTIVE), NO_MINT, NoFault), Unauthorized); }
  }

  lemma RevokeMovesKeep(h: Family -> LockKey, s: State, e: Event)
    requires Inv(h, s) && Enabled(h, s, e) && (e.StartRevoke? || e.LockVictim?)
    ensures Inv(h, Step(h, s, e))
  {
    var i := e.i;
    var p := s.txs[i].phase;
    assert TxOk(s.tables, s.txs[i]);
    if e.StartRevoke? {
      MoveKeeps(h, s, i, Revoking(p.row, LiveOf(s.tables, p.row.family), {}));
    } else {
      assert (p.todo - {e.victim}) + (p.held + {e.victim}) == p.todo + p.held;
      MoveKeeps(h, s, i, Revoking(p.row, p.todo - {e.victim}, p.held + {e.victim}));
    }
  }

  lemma WriteMovesKeep(h: Family -> LockKey, s: State, e: Event)
    requires Inv(h, s) && Enabled(h, s, e)
    requires e.MarkOldUsed? || e.Draw? || e.InsertRefresh? || e.InsertAccess?
    ensures Inv(h, Step(h, s, e))
  {
    var i := e.i;
    var p := s.txs[i].phase;
    assert TxOk(s.tables, s.txs[i]);
    match e
    case MarkOldUsed(_) => MoveKeeps(h, s, i, Marked(p.row, p.appNow));
    case Draw(_, m) => MoveKeeps(h, s, i, Drew(p.row, p.appNow, m));
    case InsertRefresh(_) => MoveKeeps(h, s, i, RefreshInserted(p.row, p.appNow, p.mint));
    case InsertAccess(_) => MoveKeeps(h, s, i, BothInserted(p.row, p.appNow, p.mint));
  }

  lemma LoginMovesKeep(h: Family -> LockKey, s: State, e: Event)
    requires Inv(h, s) && Enabled(h, s, e) && (e.LoginInsertAccess? || e.LoginInsertRefresh?)
    ensures Inv(h, Step(h, s, e))
  {
    if e.LoginInsertAccess? { MoveKeeps(h, s, e.i, LoginAccessInserted); }
    else { MoveKeeps(h, s, e.i, LoginBothInserted); }
  }

  lemma CommitRevokeKeeps(h: Family -> LockKey, s: State, e: Event)
    requires Inv(h, s) && Enabled(h, s, e) && e.CommitRevoke?
    ensures Inv(h, Step(h, s, e))
  {
    var i, lost := e.i, e.lost;
    var tx := s.txs[i];
    var row := tx.phase.row;
    assert TxOk(s.tables, tx);
    assert tx.phase.held == LiveOf(s.tables, row.family);
    var t' := RevokeRows(s.tables, tx.phase.held, tx.begin);
    assert t' == RevokeFamily(s.tables, row.family, tx.begin);
    CommitKeeps(h, s, i, t', Observed(tx, 0, Some(ACTIVE), NO_MINT, CommitFault(lost)),
                Acknowledge(CommitFault(lost), Unauthorized), row.family);
  }

  lemma CommitRotateKeeps(h: Family -> LockKey, s: State, e: Event)
    requires Inv(h, s) && Enabled(h, s, e) && e.CommitRotate?
    ensures Inv(h, Step(h, s, e))
  {
    var i, lost := e.i, e.lost;
    var tx := s.txs[i];
    var p := tx.phase;
    assert TxOk(s.tables, tx);
    assert NewSelector(tx) == Some(p.mint.selector) && NewAccess(tx) == Some(p.mint.accessHash);
    var t' := InsertPair(MarkUsed(s.tables, tx.job.selector, tx.begin), p.row.userId, p.row.family, p.mint, p.appNow);
    CommitKeeps(h, s, i, t', Observed(tx, p.appNow, Some(ACTIVE), p.mint, CommitFault(lost)),
                Acknowledge(CommitFault(lost), SessionFor(p.row.userId, p.mint, p.appNow)), p.row.family);
  }

  lemma CommitLoginKeeps(h: Family -> LockKey, s: State, e: Event)
    requires Inv(h, s) && Enabled(h, s, e) && e.CommitLogin?
    ensures Inv(h, Step(h, s, e))
  {
    var i, lost := e.i, e.lost;
    var tx := s.txs[i];
    var j := tx.job;
    assert NewSelector(tx) == Some(j.mint.selector) && NewAccess(tx) == Some(j.mint.accessHash);
    assert NewFamily(tx) == Some(j.family);
    var t' := InsertPair(s.tables, j.userId, j.family, j.mint, j.appNow);
    CommitKeeps(h, s, i, t', Login(j.userId, j.family, j.mint, j.appNow, CommitFault(lost)),
                Acknowledge(CommitFault(lost), SessionFor(j.userId, j.mint, j.appNow)), j.family);
  }

  lemma FailKeeps(h: Family -> LockKey, s: State, e: Event)
    requires Inv(h, s) && Enabled(h, s, e) && e.Fail?
    ensures Inv(h, Step(h, s, e))
  {
    var i := e.i;
    assert NewFamily(s.txs[i]).Some? ==> !HasFamily(s.tables, NewFamily(s.txs[i]).value);
    QuietEndKeeps(h, s, i, Failed(s.txs[i]), ServerError);
  }

  lemma StatusKeeps(h: Family -> LockKey, s: State, users: map<UserId, string>)
    requires Inv(h, s)
    ensures Inv(h, s.(users := users))
  {
    var s' := s.(users := users);
    assert forall k :: KeyFree(h, s', k) ==> KeyFree(h, s, k);
  }

  // Events that are no transaction's statement.
  lemma OutsideKeeps(h: Family -> LockKey, s: State, e: Event)
    requires Inv(h, s) && Enabled(h, s, e) && Actor(e).None?
    ensures Inv(h, Step(h, s, e))
  {
    match e
    case BeginRefresh(sel, presented, at) => BeginKeeps(h, s, Tx(RefreshJob(sel, presented), at, Begun));
    case BeginLogin(u, f, m, now) => BeginKeeps(h, s, Tx(LoginJob(u, f, m, now), 0, Begun));
    case SetStatus(u, status) => StatusKeeps(h, s, s.users[u := status]);
  }

  /** Every event keeps the invariant. */
  lemma StepKeeps(h: Family -> LockKey, s: State, e: Event)
    requires Inv(h, s) && Enabled(h, s, e)
    ensures Inv(h, Step(h, s, e))
  {
    if Actor(e).None? { OutsideKeeps(h, s, e); }
    else if e.PreRead? || e.ReadRow? || e.ReadUser? { ReadsKeep(h, s, e); }
    else if e.LockFamily? { LockFamilyKeeps(h, s, e); }
    else if e.Judge? { JudgeKeeps(h, s, e); }
    else if e.StartRevoke? || e.LockVictim? { RevokeMovesKeep(h, s, e); }
    else if e.MarkOldUsed? || e.Draw? || e.InsertRefresh? || e.InsertAccess? { WriteMovesKeep(h, s, e); }
    else if e.LoginInsertAccess? || e.LoginInsertRefresh? { LoginMovesKeep(h, s, e); }
    else if e.CommitRevoke? { CommitRevokeKeeps(h, s, e); }
    else if e.CommitRotate? { CommitRotateKeeps(h, s, e); }
    else if e.CommitLogin? { CommitLoginKeeps(h, s, e); }
    else { FailKeeps(h, s, e); }
  }

  // The serial operation is transaction tx's own request.
  ghost predicate IsRequestOf(op: Op, tx: Tx) {
    match tx.job
    case RefreshJob(sel, presented) =>
      op.Refresh? && op.q.selector == sel && op.q.presented == presented && op.q.begin == tx.begin
    case LoginJob(u, f, m, now) =>
      op.Login? && op.userId == u && op.family == f && op.mint == m && op.appNow == now
  }

  // A transaction's step either moves it on, or ends it and logs its own request.
  lemma StepShape(h: Family -> LockKey, s: State, e: Event)
    requires Enabled(h, s, e) && Actor(e).Some?
    ensures var s' := Step(h, s, e);
      var n := |s.ops|;
      && !s.txs[e.i].phase.Done?
      && |s'.txs| == |s.txs| && s'.txs == s.txs[e.i := s'.txs[e.i]]
      && if s'.txs[e.i].phase.Done? then
           |s'.ops| == n + 1 && |s'.outs| == |s.outs| + 1 && IsRequestOf(s'.ops[n], s.txs[e.i])
           && s' == End(h, s, e.i, s'.tables, s'.ops[n], s'.outs[|s.outs|])
         else s' == Move(s, e.i, s'.txs[e.i].phase).(grants := s'.grants)
  {
  }

  lemma InitInv(h: Family -> LockKey, users: map<UserId, string>)
    ensures Inv(h, Init(users))
  {
  }

  lemma StepGrows(h: Family -> LockKey, s: State, e: Event)
    requires Enabled(h, s, e)
    ensures var s' := Step(h, s, e); s.ops <= s'.ops && s.outs <= s'.outs && s.ends <= s'.ends
  {
  }

  /** The invariant, and that the serial history only grows, over every run. */
  lemma {:induction false} RunKeeps(h: Family -> LockKey, s: State, es: seq<Event>, s': State)
    requires Inv(h, s) && Run(h, s, es, s')
    ensures Inv(h, s')
    ensures s.ops <= s'.ops && s.outs <= s'.outs && s.ends <= s'.ends
    decreases |es|
  {
    if es == [] {
    } else {
      StepKeeps(h, s, es[0]);
      StepGrows(h, s, es[0]);
      RunKeeps(h, Step(h, s, es[0]), es[1..], s');
    }
  }

  lemma ReachableInv(h: Family -> LockKey, s: State)
    requires Reachable(h, s)
    ensures Inv(h, s)
  {
    var users, es :| Run(h, Init(users), es, s);
    InitInv(h, users);
    RunKeeps(h, Init(users), es, s);
  }
}
