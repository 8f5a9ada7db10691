/** What every serial history of logins and refreshes keeps. Protocol.dfy lifts these to
    interleaved runs. */
module RotationRuns {
  import opened Prelude
  import opened Rotation

  // ---- table invariants ----

  ghost predicate SameFamily(t: Tables, a: Selector, b: Selector) {
    a in t.refresh && b in t.refresh && t.refresh[a].family == t.refresh[b].family
  }

  // A family's rows are all revoked or all unrevoked.
  ghost predicate Uniform(t: Tables) {
    forall a, b {:trigger SameFamily(t, a, b)} :: SameFamily(t, a, b)
      ==> (t.refresh[a].revokedAt.Some? <==> t.refresh[b].revokedAt.Some?)
  }

  ghost predicate IsTip(t: Tables, s: Selector, f: Family) {
    s in t.refresh && t.refresh[s].family == f && t.refresh[s].usedAt.None?
  }

  ghost predicate HasTip(t: Tables, f: Family) {
    exists s :: IsTip(t, s, f)
  }

  // Every family has exactly one row that was never used.
  ghost predicate OneTip(t: Tables) {
    && (forall f :: HasFamily(t, f) ==> HasTip(t, f))
    && (forall f, a, b :: IsTip(t, a, f) && IsTip(t, b, f) ==> a == b)
  }

  function RefreshOf(t: Tables, u: UserId): set<Selector> {
    set s | s in t.refresh && t.refresh[s].userId == u
  }

  function AccessOf(t: Tables, u: UserId): set<Digest> {
    set d | d in t.access && t.access[d].userId == u
  }

  // Every refresh row was committed together with one access row of the same user.
  ghost predicate Balanced(t: Tables) {
    forall u :: |RefreshOf(t, u)| == |AccessOf(t, u)|
  }

  function Members(t: Tables, f: Family): set<Selector> {
    set s | s in t.refresh && t.refresh[s].family == f
  }

  ghost predicate Revoked(t: Tables, f: Family) {
    exists s :: s in t.refresh && t.refresh[s].family == f && t.refresh[s].revokedAt.Some?
  }

  ghost predicate Sound(t: Tables) {
    Uniform(t) && OneTip(t) && Balanced(t)
  }

  // ---- one operation ----

  lemma InsertPairRows(t: Tables, userId: UserId, family: Family, m: Mint, now: Time, u: UserId)
    ensures RefreshOf(InsertPair(t, userId, family, m, now), u) - {m.selector} == RefreshOf(t, u) - {m.selector}
    ensures m.selector in RefreshOf(InsertPair(t, userId, family, m, now), u) <==> u == userId
  {
  }

  lemma InsertPairAccess(t: Tables, userId: UserId, family: Family, m: Mint, now: Time, u: UserId)
    ensures AccessOf(InsertPair(t, userId, family, m, now), u) - {m.accessHash} == AccessOf(t, u) - {m.accessHash}
    ensures m.accessHash in AccessOf(InsertPair(t, userId, family, m, now), u) <==> u == userId
  {
  }

  lemma GrowsByOne<T>(before: set<T>, after: set<T>, x: T, joins: bool)
    requires after - {x} == before - {x} && x !in before && (x in after <==> joins)
    ensures |after| == |before| + (if joins then 1 else 0)
  {
    assert before - {x} == before;
    assert after == if joins then before + {x} else before;
  }

  lemma InsertPairBalanced(t: Tables, userId: UserId, family: Family, m: Mint, now: Time)
    requires Balanced(t) && Unique(t, m)
    ensures Balanced(InsertPair(t, userId, family, m, now))
  {
    var t' := InsertPair(t, userId, family, m, now);
    forall u ensures |RefreshOf(t', u)| == |AccessOf(t', u)| {
      InsertPairRows(t, userId, family, m, now, u);
      InsertPairAccess(t, userId, family, m, now, u);
      GrowsByOne(RefreshOf(t, u), RefreshOf(t', u), m.selector, u == userId);
      GrowsByOne(AccessOf(t, u), AccessOf(t', u), m.accessHash, u == userId);
    }
  }

  lemma SameOwnersBalanced(t: Tables, t': Tables)
    requires Balanced(t) && t'.access == t.access && t'.refresh.Keys == t.refresh.Keys
    requires forall s :: s in t.refresh ==> t'.refresh[s].userId == t.refresh[s].userId
    ensures Balanced(t')
  {
    forall u ensures |RefreshOf(t', u)| == |AccessOf(t', u)| {
      assert RefreshOf(t', u) == RefreshOf(t, u);
      assert AccessOf(t', u) == AccessOf(t, u);
      assert |RefreshOf(t, u)| == |AccessOf(t, u)|;
    }
  }

  lemma RevokeSound(t: Tables, f: Family, at: Time)
    requires Sound(t)
    ensures Sound(RevokeFamily(t, f, at))
  {
    var t' := RevokeFamily(t, f, at);
    SameOwnersBalanced(t, t');
    assert Uniform(t') by {
      forall a, b | SameFamily(t', a, b) ensures t'.refresh[a].revokedAt.Some? <==> t'.refresh[b].revokedAt.Some? {
        assert SameFamily(t, a, b);
      }
    }
    forall g | HasFamily(t', g) ensures HasTip(t', g) {
      assert HasFamily(t, g);
      var b :| IsTip(t, b, g);
      assert IsTip(t', b, g);
    }
    forall g, a, b | IsTip(t', a, g) && IsTip(t', b, g) ensures a == b {
      assert IsTip(t, a, g) && IsTip(t, b, g);
    }
  }

  // A new unused, unrevoked row for family f in a table where f has no tip.
  lemma NewTip(t: Tables, m: Mint, u: UserId, f: Family, now: Time)
    requires m.selector !in t.refresh
    requires forall g :: g != f && HasFamily(t, g) ==> HasTip(t, g)
    requires forall g, a, b :: IsTip(t, a, g) && IsTip(t, b, g) ==> a == b
    requires !HasTip(t, f)
    ensures OneTip(InsertPair(t, u, f, m, now))
  {
    var t' := InsertPair(t, u, f, m, now);
    assert IsTip(t', m.selector, f);
    forall g | HasFamily(t', g) ensures HasTip(t', g) {
      if g != f {
        assert HasFamily(t, g);
        var b :| IsTip(t, b, g);
        assert IsTip(t', b, g);
      }
    }
    forall g, a, b | IsTip(t', a, g) && IsTip(t', b, g) ensures a == b {
      assert a != m.selector ==> IsTip(t, a, g);
      assert b != m.selector ==> IsTip(t, b, g);
    }
  }

  lemma NewUniform(t: Tables, m: Mint, u: UserId, f: Family, now: Time)
    requires m.selector !in t.refresh && Uniform(t) && !Revoked(t, f)
    ensures Uniform(InsertPair(t, u, f, m, now))
  {
    var t' := InsertPair(t, u, f, m, now);
    forall a, b | SameFamily(t', a, b) ensures t'.refresh[a].revokedAt.Some? <==> t'.refresh[b].revokedAt.Some? {
      if a != m.selector && b != m.selector { assert SameFamily(t, a, b); }
    }
  }

  // Marking the tip used leaves its family, and only it, without a tip.
  lemma MarkedTip(t: Tables, s: Selector, at: Time)
    requires OneTip(t) && s in t.refresh && t.refresh[s].usedAt.None?
    ensures forall g :: g != t.refresh[s].family && HasFamily(t, g) ==> HasTip(MarkUsed(t, s, at), g)
    ensures forall g, a, b :: IsTip(MarkUsed(t, s, at), a, g) && IsTip(MarkUsed(t, s, at), b, g) ==> a == b
    ensures !HasTip(MarkUsed(t, s, at), t.refresh[s].family)
  {
    var t' := MarkUsed(t, s, at);
    assert IsTip(t, s, t.refresh[s].family);
    forall g, a | IsTip(t', a, g) ensures IsTip(t, a, g) && a != s {}
    forall g | g != t.refresh[s].family && HasFamily(t, g) ensures HasTip(t', g) {
      var b :| IsTip(t, b, g);
      assert IsTip(t', b, g);
    }
  }

  lemma RotateSound(t: Tables, op: Op)
    requires Sound(t) && Rotates(t, op)
    ensures Sound(Apply(t, op).0)
  {
    var q := op.q;
    var row := t.refresh[q.selector];
    var t1 := MarkUsed(t, q.selector, q.begin);
    SameOwnersBalanced(t, t1);
    InsertPairBalanced(t1, row.userId, row.family, q.mint, q.appNow);
    assert Uniform(t1) by {
      forall a, b | SameFamily(t1, a, b) ensures t1.refresh[a].revokedAt.Some? <==> t1.refresh[b].revokedAt.Some? {
        assert SameFamily(t, a, b);
      }
    }
    if Revoked(t1, row.family) {
      var s :| s in t1.refresh && t1.refresh[s].family == row.family && t1.refresh[s].revokedAt.Some?;
      assert SameFamily(t, s, q.selector);
      assert false;
    }
    NewUniform(t1, q.mint, row.userId, row.family, q.appNow);
    MarkedTip(t, q.selector, q.begin);
    forall g | g != row.family && HasFamily(t1, g) ensures HasTip(t1, g) {
      assert HasFamily(t, g);
    }
    NewTip(t1, q.mint, row.userId, row.family, q.appNow);
  }

  lemma LoginSound(t: Tables, op: Op)
    requires Sound(t) && op.Login? && !HasFamily(t, op.family) && Unique(t, op.mint)
    ensures Sound(InsertPair(t, op.userId, op.family, op.mint, op.appNow))
  {
    InsertPairBalanced(t, op.userId, op.family, op.mint, op.appNow);
    assert !HasTip(t, op.family) by {
      forall s ensures !IsTip(t, s, op.family) {}
    }
    NewUniform(t, op.mint, op.userId, op.family, op.appNow);
    NewTip(t, op.mint, op.userId, op.family, op.appNow);
  }

  lemma ApplySound(t: Tables, op: Op)
    requires Sound(t) && (op.Login? ==> !HasFamily(t, op.family))
    ensures Sound(Apply(t, op).0)
  {
    if op.Login? {
      if !op.fault.Abort? && Unique(t, op.mint) { LoginSound(t, op); }
    } else if Rotates(t, op) {
      RotateSound(t, op);
    } else if Revokes(t, op) {
      RevokeSound(t, t.refresh[op.q.selector].family, op.q.begin);
    }
  }

  // ---- histories ----

  lemma AfterPrefix(ops: seq<Op>, k: nat)
    requires k < |ops|
    ensures After(ops[..k + 1]) == Apply(After(ops[..k]), ops[k]).0
  {
    assert ops[..k + 1][..k] == ops[..k];
  }

  lemma FreshPrefix(ops: seq<Op>, k: nat)
    requires k <= |ops| && FreshFamilies(ops)
    ensures FreshFamilies(ops[..k])
  {
    forall j | 0 <= j < k && ops[..k][j].Login? ensures !HasFamily(After(ops[..k][..j]), ops[..k][j].family) {
      assert ops[..k][..j] == ops[..j];
    }
  }

  /** Every serial history: families uniformly revoked, one live tip each, and as many
      access rows as refresh rows for every user. */
  lemma {:induction false} HistorySound(ops: seq<Op>)
    requires FreshFamilies(ops)
    ensures Sound(After(ops))
  {
    if ops == [] {
      forall u ensures |RefreshOf(EMPTY, u)| == |AccessOf(EMPTY, u)| {
        assert RefreshOf(EMPTY, u) == {} && AccessOf(EMPTY, u) == {};
      }
    } else {
      var n := |ops| - 1;
      FreshPrefix(ops, n);
      HistorySound(ops[..n]);
      ApplySound(After(ops[..n]), ops[n]);
    }
  }

  // ---- rows never disappear and never change what the protocol relies on ----

  // t' extends t: same family, owner, secret and expiry for every old row; marks are never cleared or moved.
  ghost predicate Extends(t: Tables, t': Tables) {
    forall s :: s in t.refresh ==>
      && s in t'.refresh
      && t'.refresh[s].family == t.refresh[s].family
      && t'.refresh[s].userId == t.refresh[s].userId
      && t'.refresh[s].verifierHash == t.refresh[s].verifierHash
      && t'.refresh[s].expiresAt == t.refresh[s].expiresAt
      && (t.refresh[s].revokedAt.Some? ==> t'.refresh[s] == t.refresh[s])
      && (t.refresh[s].usedAt.Some? ==> t'.refresh[s].usedAt == t.refresh[s].usedAt)
  }

  lemma ApplyExtends(t: Tables, op: Op)
    ensures Extends(t, Apply(t, op).0)
  {
  }

  lemma {:induction false} HistoryExtends(ops: seq<Op>, k: nat)
    requires k <= |ops|
    ensures Extends(After(ops[..k]), After(ops))
    decreases |ops|
  {
    if k == |ops| {
      assert ops[..k] == ops;
    } else {
      var n := |ops| - 1;
      assert ops[..n][..k] == ops[..k];
      HistoryExtends(ops[..n], k);
      ApplyExtends(After(ops[..n]), ops[n]);
    }
  }

  // ---- no escape from revocation ----

  lemma FamilyMembersRevoked(t: Tables, f: Family, s: Selector)
    requires Uniform(t) && Revoked(t, f) && s in t.refresh && t.refresh[s].family == f
    ensures t.refresh[s].revokedAt.Some?
  {
    var r :| r in t.refresh && t.refresh[r].family == f && t.refresh[r].revokedAt.Some?;
    assert SameFamily(t, r, s);
  }

  // The rows of f are the same in both tables.
  ghost predicate SameRows(t: Tables, t': Tables, f: Family) {
    && Members(t', f) == Members(t, f)
    && forall s :: s in Members(t, f) ==> t'.refresh[s] == t.refresh[s]
  }

  lemma ApplyFrozen(t: Tables, op: Op, f: Family)
    requires Uniform(t) && Revoked(t, f) && (op.Login? ==> op.family != f)
    ensures SameRows(t, Apply(t, op).0, f)
    ensures op.Refresh? && op.q.selector in Members(t, f) ==> !Rotates(t, op) && !Apply(t, op).1.Session?
  {
    forall s | s in Members(t, f) ensures t.refresh[s].revokedAt.Some? {
      FamilyMembersRevoked(t, f, s);
    }
  }

  lemma SameRowsRevoked(t: Tables, t': Tables, f: Family)
    requires SameRows(t, t', f) && Revoked(t, f)
    ensures Revoked(t', f)
  {
    var s :| s in t.refresh && t.refresh[s].family == f && t.refresh[s].revokedAt.Some?;
    assert s in Members(t, f);
  }

  // Operation j, if it presents one of the tokens `dead`, neither rotates nor answers with a session.
  ghost predicate NoSessionFrom(ops: seq<Op>, j: nat, dead: set<Selector>)
    requires j < |ops|
  {
    ops[j].Refresh? && ops[j].q.selector in dead ==> !RotatedAt(ops, j) && !OutcomeAt(ops, j).Session?
  }

  /** Once a family is revoked its set of rows is final, every row in it stays as it is,
      and no later refresh of one of them issues a session. */
  lemma {:induction false} RevokedIsFinal(ops: seq<Op>, k: nat, f: Family)
    requires k <= |ops| && FreshFamilies(ops) && Revoked(After(ops[..k]), f)
    ensures SameRows(After(ops[..k]), After(ops), f)
    ensures forall j :: k <= j < |ops| ==> NoSessionFrom(ops, j, Members(After(ops[..k]), f))
    decreases |ops|
  {
    if k == |ops| {
      assert ops[..k] == ops;
    } else {
      var n := |ops| - 1;
      var pre := ops[..n];
      assert pre[..k] == ops[..k];
      FreshPrefix(ops, n);
      RevokedIsFinal(pre, k, f);
      SameRowsRevoked(After(ops[..k]), After(pre), f);
      LastIsFrozen(ops, f);
      SameRowsChain(After(ops[..k]), After(pre), After(ops), f);
      forall j | k <= j < |ops| ensures NoSessionFrom(ops, j, Members(After(ops[..k]), f)) {
        if j < n { NoSessionStill(ops, n, j, Members(After(ops[..k]), f)); }
      }
    }
  }

  lemma SameRowsChain(t: Tables, t': Tables, t'': Tables, f: Family)
    requires SameRows(t, t', f) && SameRows(t', t'', f)
    ensures SameRows(t, t'', f)
  {
  }

  // The last operation, on a family already revoked.
  lemma LastIsFrozen(ops: seq<Op>, f: Family)
    requires ops != [] && FreshFamilies(ops) && Revoked(After(ops[..|ops| - 1]), f)
    ensures SameRows(After(ops[..|ops| - 1]), After(ops), f)
    ensures NoSessionFrom(ops, |ops| - 1, Members(After(ops[..|ops| - 1]), f))
  {
    var n := |ops| - 1;
    FreshPrefix(ops, n);
    HistorySound(ops[..n]);
    NotItsLogin(ops, n, f);
    ApplyFrozen(After(ops[..n]), ops[n], f);
  }

  lemma NotItsLogin(ops: seq<Op>, n: nat, f: Family)
    requires n < |ops| && FreshFamilies(ops) && Revoked(After(ops[..n]), f)
    ensures ops[n].Login? ==> ops[n].family != f
  {
    assert HasFamily(After(ops[..n]), f);
  }

  lemma NoSessionStill(ops: seq<Op>, n: nat, j: nat, dead: set<Selector>)
    requires j < n <= |ops| && NoSessionFrom(ops[..n], j, dead)
    ensures NoSessionFrom(ops, j, dead)
  {
    assert ops[..n][j] == ops[j] && ops[..n][..j] == ops[..j];
  }

  lemma HistorySoundAt(ops: seq<Op>, k: nat)
    requires k <= |ops| && FreshFamilies(ops)
    ensures Sound(After(ops[..k]))
  {
    FreshPrefix(ops, k);
    HistorySound(ops[..k]);
  }

  // ---- conservation and no double spend ----

  // Committed rotations of tokens of family f.
  ghost function Rotations(ops: seq<Op>, f: Family): nat {
    if ops == [] then 0
    else
      var n := |ops| - 1;
      var t := After(ops[..n]);
      Rotations(ops[..n], f)
      + (if Rotates(t, ops[n]) && t.refresh[ops[n].q.selector].family == f then 1 else 0)
  }

  lemma MembersStep(t: Tables, op: Op, f: Family)
    ensures Members(Apply(t, op).0, f) ==
      if Rotates(t, op) && t.refresh[op.q.selector].family == f then Members(t, f) + {op.q.mint.selector}
      else if op.Login? && !op.fault.Abort? && Unique(t, op.mint) && op.family == f
      then Members(t, f) + {op.mint.selector}
      else Members(t, f)
  {
  }

  /** Rows of a family = 1 + its committed rotations, in every history. */
  lemma {:induction false} RowsAreRotationsPlusOne(ops: seq<Op>, f: Family)
    requires FreshFamilies(ops)
    ensures |Members(After(ops), f)| == Rotations(ops, f) + (if HasFamily(After(ops), f) then 1 else 0)
  {
    if ops == [] {
      assert Members(EMPTY, f) == {};
    } else {
      var n := |ops| - 1;
      var t, op := After(ops[..n]), ops[n];
      FreshPrefix(ops, n);
      RowsAreRotationsPlusOne(ops[..n], f);
      MembersStep(t, op, f);
      ApplyExtends(t, op);
      var t' := After(ops);
      if HasFamily(t, f) {
        var s :| s in t.refresh && t.refresh[s].family == f;
        assert s in t'.refresh && t'.refresh[s].family == f;
      } else {
        assert Members(t, f) == {} by {
          forall s | s in Members(t, f) ensures false { assert HasFamily(t, f); }
        }
        assert !(Rotates(t, op) && t.refresh[op.q.selector].family == f);
        if op.Login? && !op.fault.Abort? && Unique(t, op.mint) && op.family == f {
          assert op.mint.selector in t'.refresh && t'.refresh[op.mint.selector].family == f;
        }
        if HasFamily(t', f) {
          var s :| s in t'.refresh && t'.refresh[s].family == f;
          assert s in Members(t', f);
        }
      }
    }
  }

  /** A row's used_at is exactly the begin time of the one transaction that rotated it, and
      null when there is none. */
  lemma {:induction false} UsedAtIsTheConsumer(ops: seq<Op>, s: Selector)
    requires s in After(ops).refresh
    ensures forall k: nat :: RotatedAt(ops, k) && ops[k].q.selector == s ==>
      After(ops).refresh[s].usedAt == Some(ops[k].q.begin)
    ensures After(ops).refresh[s].usedAt.Some? ==> exists k: nat :: RotatedAt(ops, k) && ops[k].q.selector == s
  {
    var n := |ops| - 1;
    var pre := ops[..n];
    var t, op := After(pre), ops[n];
    forall k: nat | k < n ensures RotatedAt(ops, k) <==> RotatedAt(pre, k) {
      assert pre[..k] == ops[..k];
    }
    assert ops[..n] == pre;
    if s in t.refresh {
      UsedAtIsTheConsumer(pre, s);
      ApplyExtends(t, op);
      forall k: nat | RotatedAt(ops, k) && ops[k].q.selector == s
        ensures After(ops).refresh[s].usedAt == Some(ops[k].q.begin)
      {
        if k < n { assert RotatedAt(pre, k) && pre[k] == ops[k]; }
      }
      if After(ops).refresh[s].usedAt.Some? {
        if t.refresh[s].usedAt.Some? {
          var k: nat :| RotatedAt(pre, k) && pre[k].q.selector == s;
          assert RotatedAt(ops, k) && ops[k].q.selector == s;
        } else {
          assert RotatedAt(ops, n) && ops[n].q.selector == s;
        }
      }
    } else {
      forall k: nat | RotatedAt(ops, k) && ops[k].q.selector == s ensures false {
        assert s in After(ops[..k]).refresh;
        if k < n {
          assert pre[..k] == ops[..k];
          HistoryExtends(pre, k);
        }
      }
    }
  }

  /** No double spend: two different positions of a history never rotate the same token. */
  lemma RotatedOnce(ops: seq<Op>, i: nat, j: nat)
    requires i < j && RotatedAt(ops, i) && RotatedAt(ops, j)
    ensures ops[i].q.selector != ops[j].q.selector
  {
    if ops[i].q.selector == ops[j].q.selector {
      var pre := ops[..j];
      assert pre[..i] == ops[..i];
      assert RotatedAt(pre, i);
      UsedAtIsTheConsumer(pre, ops[j].q.selector);
      assert false;
    }
  }

  // The revoked family of operation k, and what "the right verifier" is.
  ghost predicate RightVerifier(t: Tables, q: Request) {
    q.selector in t.refresh && q.presented == Some(t.refresh[q.selector].verifierHash)
  }

  // The token was consumed by an earlier rotation that began more than 30 seconds before q.
  ghost predicate ConsumedLongBefore(ops: seq<Op>, k: nat, q: Request) {
    exists j :: 0 <= j < k && RotatedAt(ops, j) && ops[j].q.selector == q.selector
                && ops[j].q.begin + 30_000_000 < q.begin
  }

  lemma ConsumedIsUsedLongBefore(ops: seq<Op>, k: nat, q: Request)
    requires k <= |ops| && q.selector in After(ops[..k]).refresh
    ensures var used := After(ops[..k]).refresh[q.selector].usedAt;
      ConsumedLongBefore(ops, k, q) <==> used.Some? && used.value + 30_000_000 < q.begin
  {
    var pre := ops[..k];
    UsedAtIsTheConsumer(pre, q.selector);
    forall j: nat | j < k ensures RotatedAt(ops, j) <==> RotatedAt(pre, j) {
      assert pre[..j] == ops[..j];
    }
    if After(pre).refresh[q.selector].usedAt.Some? {
      var j: nat :| RotatedAt(pre, j) && pre[j].q.selector == q.selector;
      assert RotatedAt(ops, j);
    }
  }

  ghost predicate AllRevoked(t: Tables, f: Family) {
    forall s :: s in Members(t, f) ==> t.refresh[s].revokedAt.Some?
  }

  /** Exactly which refreshes revoke: those with the right verifier, on an unrevoked family,
      that began more than 30 seconds after the transaction that consumed the token began.
      Neither expiry nor the app clock takes part. The effect is on every row of the family, and
      on no access token. */
  lemma RevokesExactlyReplays(ops: seq<Op>, k: nat)
    requires k < |ops| && ops[k].Refresh? && FreshFamilies(ops)
    ensures RevokedAt(ops, k) <==>
      && !ops[k].q.fault.Abort?
      && RightVerifier(After(ops[..k]), ops[k].q)
      && !Revoked(After(ops[..k]), After(ops[..k]).refresh[ops[k].q.selector].family)
      && ConsumedLongBefore(ops, k, ops[k].q)
    ensures RevokedAt(ops, k) ==>
      && AllRevoked(After(ops[..k + 1]), After(ops[..k]).refresh[ops[k].q.selector].family)
      && After(ops[..k + 1]).access == After(ops[..k]).access
  {
    var q, t := ops[k].q, After(ops[..k]);
    AfterPrefix(ops, k);
    if q.selector in t.refresh {
      ConsumedIsUsedLongBefore(ops, k, q);
      RevokedRowIff(ops, k, q.selector);
    }
  }

  ghost predicate Consumed(ops: seq<Op>, k: nat, s: Selector) {
    exists j :: 0 <= j < k && RotatedAt(ops, j) && ops[j].q.selector == s
  }

  lemma ConsumedIsUsed(ops: seq<Op>, k: nat, s: Selector)
    requires k <= |ops| && s in After(ops[..k]).refresh
    ensures Consumed(ops, k, s) <==> After(ops[..k]).refresh[s].usedAt.Some?
  {
    var pre := ops[..k];
    UsedAtIsTheConsumer(pre, s);
    forall j: nat | j < k ensures RotatedAt(ops, j) <==> RotatedAt(pre, j) {
      assert pre[..j] == ops[..j];
    }
    if After(pre).refresh[s].usedAt.Some? {
      var j: nat :| RotatedAt(pre, j) && pre[j].q.selector == s;
      assert RotatedAt(ops, j);
    }
  }

  /** Exactly which refreshes rotate, and which of them answer with a session: right verifier on an
      unrevoked family, token never consumed, unexpired by the app clock, user seen active, drawn
      keys unused. */
  lemma RotatesExactly(ops: seq<Op>, k: nat)
    requires k < |ops| && ops[k].Refresh? && FreshFamilies(ops)
    ensures var t, q := After(ops[..k]), ops[k].q;
      RotatedAt(ops, k) <==>
        && !q.fault.Abort?
        && RightVerifier(t, q) && !Revoked(t, t.refresh[q.selector].family)
        && !Consumed(ops, k, q.selector)
        && q.appNow < t.refresh[q.selector].expiresAt
        && q.status == Some("active")
        && q.mint.selector !in t.refresh && q.mint.accessHash !in t.access
    ensures OutcomeAt(ops, k).Session? <==> RotatedAt(ops, k) && ops[k].q.fault.NoFault?
  {
    if ops[k].q.selector in After(ops[..k]).refresh {
      ConsumedIsUsed(ops, k, ops[k].q.selector);
      RevokedRowIff(ops, k, ops[k].q.selector);
    }
  }

  /** What a rotation changes: the old row gets used_at, the chain gets one new unused row of the
      same user with a full new lifetime, the user gets one access row, and nothing else moves. */
  lemma RotationEffect(ops: seq<Op>, k: nat)
    requires RotatedAt(ops, k)
    ensures var t, t', q := After(ops[..k]), After(ops[..k + 1]), ops[k].q;
      && t'.refresh.Keys == t.refresh.Keys + {q.mint.selector} && q.mint.selector !in t.refresh
      && (forall s :: s in t.refresh && s != q.selector ==> t'.refresh[s] == t.refresh[s])
      && t'.refresh[q.selector] == t.refresh[q.selector].(usedAt := Some(q.begin))
      && var before, made := t.refresh[q.selector], t'.refresh[q.mint.selector];
         && made.userId == before.userId && made.family == before.family && made.verifierHash == q.mint.verifierHash
         && made.usedAt.None? && made.revokedAt.None? && made.expiresAt == q.appNow + 2_592_000_000_000
         && t'.access.Keys == t.access.Keys + {q.mint.accessHash} && q.mint.accessHash !in t.access
         && t'.access[q.mint.accessHash] == AccessRow(before.userId, q.appNow + 900_000_000)
         && forall d :: d in t.access ==> t'.access[d] == t.access[d]
  {
    AfterPrefix(ops, k);
  }

  /** How every refresh answers: with a session when it rotated and nothing went wrong, with a server
      error when it was aborted, lost the acknowledgement of a commit, or drew a taken key, and with
      the one credential refusal otherwise; and the tables change only when it rotated or revoked. */
  lemma RefreshAnswers(ops: seq<Op>, k: nat)
    requires k < |ops| && ops[k].Refresh? && FreshFamilies(ops)
    ensures OutcomeAt(ops, k).Session? <==> RotatedAt(ops, k) && ops[k].q.fault.NoFault?
    ensures OutcomeAt(ops, k).ServerError? <==>
      || ops[k].q.fault.Abort?
      || (ops[k].q.fault.LostAck? && (RotatedAt(ops, k) || RevokedAt(ops, k)))
      || GoodButTaken(ops, k)
    ensures !RotatedAt(ops, k) && !RevokedAt(ops, k) ==> After(ops[..k + 1]) == After(ops[..k])
  {
    AfterPrefix(ops, k);
    if ops[k].q.selector in After(ops[..k]).refresh {
      ConsumedIsUsed(ops, k, ops[k].q.selector);
      RevokedRowIff(ops, k, ops[k].q.selector);
    }
  }

  // A refresh that passes every check but drew a selector or an access hash that is taken.
  ghost predicate GoodButTaken(ops: seq<Op>, k: nat)
    requires k < |ops| && ops[k].Refresh?
  {
    var t, q := After(ops[..k]), ops[k].q;
    && RightVerifier(t, q) && !Revoked(t, t.refresh[q.selector].family)
    && !Consumed(ops, k, q.selector)
    && q.appNow < t.refresh[q.selector].expiresAt
    && q.status == Some("active")
    && (q.mint.selector in t.refresh || q.mint.accessHash in t.access)
  }

  /** What a login changes, on any tables and at any app clock: one unused, unrevoked refresh row and
      one access row of the user, under the drawn family, verifier hash and keys, good for 30 days and
      15 minutes; nothing else. */
  lemma LoginEffect(ops: seq<Op>, k: nat)
    requires LoggedInAt(ops, k)
    ensures var t, t', op := After(ops[..k]), After(ops[..k + 1]), ops[k];
      && t'.refresh.Keys == t.refresh.Keys + {op.mint.selector} && op.mint.selector !in t.refresh
      && (forall s :: s in t.refresh ==> t'.refresh[s] == t.refresh[s])
      && t'.refresh[op.mint.selector]
         == RefreshRow(op.userId, op.mint.verifierHash, op.family, op.appNow + 2_592_000_000_000, None, None)
      && t'.access.Keys == t.access.Keys + {op.mint.accessHash} && op.mint.accessHash !in t.access
      && t'.access[op.mint.accessHash] == AccessRow(op.userId, op.appNow + 900_000_000)
      && forall d :: d in t.access ==> t'.access[d] == t.access[d]
  {
    AfterPrefix(ops, k);
  }

  /** How every login answers: with the session of its own user when it committed and nothing went
      wrong, with a server error otherwise; and it commits unless it was aborted or drew a taken key. */
  lemma LoginAnswers(ops: seq<Op>, k: nat)
    requires k < |ops| && ops[k].Login?
    ensures var t, op := After(ops[..k]), ops[k];
      LoggedInAt(ops, k) <==> !op.fault.Abort? && op.mint.selector !in t.refresh && op.mint.accessHash !in t.access
    ensures OutcomeAt(ops, k) ==
      if LoggedInAt(ops, k) && ops[k].fault.NoFault?
      then Session(ops[k].userId, ops[k].mint, (ops[k].appNow + 900_000_000) / 1000) else ServerError
    ensures !LoggedInAt(ops, k) ==> After(ops[..k + 1]) == After(ops[..k])
  {
    AfterPrefix(ops, k);
  }

  /** What a revocation changes: every row of the family, none of which was revoked before, gets the
      transaction's begin time as revoked_at and keeps all else; no other row and no access token
      changes. */
  lemma RevokeEffect(ops: seq<Op>, k: nat)
    requires RevokedAt(ops, k) && FreshFamilies(ops)
    ensures var t, t', q := After(ops[..k]), After(ops[..k + 1]), ops[k].q;
      && t'.access == t.access && t'.refresh.Keys == t.refresh.Keys
      && forall s :: s in t.refresh ==>
        if t.refresh[s].family == t.refresh[q.selector].family
        then t.refresh[s].revokedAt.None? && t'.refresh[s] == t.refresh[s].(revokedAt := Some(q.begin))
        else t'.refresh[s] == t.refresh[s]
  {
    AfterPrefix(ops, k);
    var t, q := After(ops[..k]), ops[k].q;
    RevokedRowIff(ops, k, q.selector);
    forall s | s in t.refresh && t.refresh[s].family == t.refresh[q.selector].family
      ensures t.refresh[s].revokedAt.None?
    {
      RevokedRowIff(ops, k, s);
    }
  }

  lemma RevokedRowIff(ops: seq<Op>, k: nat, s: Selector)
    requires k <= |ops| && FreshFamilies(ops) && s in After(ops[..k]).refresh
    ensures Revoked(After(ops[..k]), After(ops[..k]).refresh[s].family) <==> After(ops[..k]).refresh[s].revokedAt.Some?
  {
    var t := After(ops[..k]);
    HistorySoundAt(ops, k);
    if Revoked(t, t.refresh[s].family) {
      FamilyMembersRevoked(t, t.refresh[s].family, s);
    }
  }

  // ---- the lifetime of a chain ----

  // Operation k committed a login.
  ghost predicate LoggedInAt(ops: seq<Op>, k: nat) {
    k < |ops| && ops[k].Login? && !ops[k].fault.Abort? && Unique(After(ops[..k]), ops[k].mint)
  }

  // Operation k rotated a token of family f.
  ghost predicate RotatedIn(ops: seq<Op>, k: nat, f: Family) {
    RotatedAt(ops, k) && After(ops[..k]).refresh[ops[k].q.selector].family == f
  }

  // Row s was made by operation k, at application time `at`, with a full lifetime.
  ghost predicate MadeBy(ops: seq<Op>, s: Selector, k: nat, at: Time)
    requires s in After(ops).refresh
  {
    var row := After(ops).refresh[s];
    && ( || (LoggedInAt(ops, k) && ops[k].family == row.family && at == ops[k].appNow)
         || (RotatedIn(ops, k, row.family) && at == ops[k].q.appNow))
    && row.expiresAt == at + 2_592_000_000_000
  }

  lemma SamePast(ops: seq<Op>, n: nat, k: nat, f: Family)
    requires k < n <= |ops|
    ensures LoggedInAt(ops[..n], k) <==> LoggedInAt(ops, k)
    ensures RotatedIn(ops[..n], k, f) <==> RotatedIn(ops, k, f)
  {
    assert ops[..n][..k] == ops[..k];
  }

  lemma {:induction false} RowMade(ops: seq<Op>, s: Selector) returns (k: nat, at: Time)
    requires s in After(ops).refresh
    ensures k < |ops| && MadeBy(ops, s, k, at)
  {
    var n := |ops| - 1;
    var pre := ops[..n];
    if s in After(pre).refresh {
      k, at := RowMade(pre, s);
      ApplyExtends(After(pre), ops[n]);
      SamePast(ops, n, k, After(ops).refresh[s].family);
    } else {
      k := n;
      at := if ops[n].Login? then ops[n].appNow else ops[n].q.appNow;
      assert ops[..n] == pre;
    }
  }

  lemma LoginMakes(ops: seq<Op>, i: nat)
    requires LoggedInAt(ops, i)
    ensures var t := After(ops);
      ops[i].mint.selector in t.refresh && t.refresh[ops[i].mint.selector].family == ops[i].family
  {
    AfterPrefix(ops, i);
    HistoryExtends(ops, i + 1);
  }

  lemma LaterLoginDiffers(ops: seq<Op>, i: nat, k: nat)
    requires FreshFamilies(ops) && i < k < |ops| && LoggedInAt(ops, i) && ops[k].Login?
    ensures ops[i].family != ops[k].family
  {
    SamePast(ops, k, i, ops[i].family);
    LoginMakes(ops[..k], i);
    assert HasFamily(After(ops[..k]), ops[i].family);
  }

  // A family is begun by one login.
  lemma OneLoginPerFamily(ops: seq<Op>, i: nat, k: nat)
    requires FreshFamilies(ops) && LoggedInAt(ops, i) && LoggedInAt(ops, k) && ops[i].family == ops[k].family
    ensures i == k
  {
    if i < k {
      LaterLoginDiffers(ops, i, k);
    } else if k < i {
      LaterLoginDiffers(ops, k, i);
    }
  }

  // Some row of family f is good for longer than `limit`.
  ghost predicate Outlives(t: Tables, f: Family, limit: Time) {
    exists s :: s in Members(t, f) && t.refresh[s].expiresAt > limit
  }

  ghost predicate RotatedAfter(ops: seq<Op>, f: Family, at: Time) {
    exists k: nat :: RotatedIn(ops, k, f) && ops[k].q.appNow > at
  }

  /** When the refresh lifetime is the ceiling of the whole chain: some token of the chain is good for
      longer than the lifetime granted at its login if and only if some rotation of the chain was
      judged later than the login by the application clock. */
  lemma CeilingBrokenIff(ops: seq<Op>, i: nat)
    requires FreshFamilies(ops) && LoggedInAt(ops, i)
    ensures Outlives(After(ops), ops[i].family, ops[i].appNow + 2_592_000_000_000)
       <==> RotatedAfter(ops, ops[i].family, ops[i].appNow)
  {
    var f := ops[i].family;
    if Outlives(After(ops), f, ops[i].appNow + 2_592_000_000_000) { LongRowIsRotated(ops, i); }
    if RotatedAfter(ops, f, ops[i].appNow) {
      var k: nat :| RotatedIn(ops, k, f) && ops[k].q.appNow > ops[i].appNow;
      RotationMakes(ops, k, f);
      assert After(ops).refresh[ops[k].q.mint.selector].expiresAt > ops[i].appNow + 2_592_000_000_000;
    }
  }

  lemma LongRowIsRotated(ops: seq<Op>, i: nat)
    requires FreshFamilies(ops) && LoggedInAt(ops, i)
    requires Outlives(After(ops), ops[i].family, ops[i].appNow + 2_592_000_000_000)
    ensures RotatedAfter(ops, ops[i].family, ops[i].appNow)
  {
    var f := ops[i].family;
    var s :| s in Members(After(ops), f) && After(ops).refresh[s].expiresAt > ops[i].appNow + 2_592_000_000_000;
    var k, at := RowMade(ops, s);
    if LoggedInAt(ops, k) && ops[k].family == f { OneLoginPerFamily(ops, i, k); }
    assert RotatedIn(ops, k, f);
  }

  // The row a rotation makes stays, with the lifetime it was given.
  lemma RotationMakes(ops: seq<Op>, k: nat, f: Family)
    requires RotatedIn(ops, k, f)
    ensures ops[k].q.mint.selector in Members(After(ops), f)
    ensures After(ops).refresh[ops[k].q.mint.selector].expiresAt == ops[k].q.appNow + 2_592_000_000_000
  {
    RotationEffect(ops, k);
    HistoryExtends(ops, k + 1);
  }

  /** An instance: a login, and one rotation a microsecond later. */
  lemma ChainOutlivesLogin() returns (ops: seq<Op>)
    ensures FreshFamilies(ops) && LoggedInAt(ops, 0) && RotatedIn(ops, 1, ops[0].family)
    ensures Outlives(After(ops), ops[0].family, ops[0].appNow + 2_592_000_000_000)
  {
    var m, n := Mint("a", [], [0]), Mint("b", [], [1]);
    var login := Login(0, 0, m, 0, NoFault);
    var refresh := Refresh(Request("a", Some([]), 0, 1, Some(ACTIVE), n, NoFault));
    ops := [login, refresh];
    assert ops[..0] == [] && ops[..1] == [login] && [login][..0] == [];
    assert After([login]) == InsertPair(EMPTY, 0, 0, m, 0);
    assert LoggedInAt(ops, 0) && RotatedIn(ops, 1, 0);
    CeilingBrokenIff(ops, 0);
  }

  /** The newest token of an unrevoked, unexpired chain of an active user always rotates. */
  lemma TipRotates(t: Tables, q: Request, f: Family)
    requires IsTip(t, q.selector, f) && !Revoked(t, f) && RightVerifier(t, q)
    requires q.appNow < t.refresh[q.selector].expiresAt && q.status == Some("active")
    requires q.fault.NoFault? && Unique(t, q.mint)
    ensures Rotate(t, q).1 == Session(t.refresh[q.selector].userId, q.mint, (q.appNow + 900_000_000) / 1000)
    ensures IsTip(Rotate(t, q).0, q.mint.selector, f)
  {
    assert t.refresh[q.selector].revokedAt.None?;
  }
}
