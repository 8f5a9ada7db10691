/** The refresh-token tables and what ONE transaction does to them when nothing runs beside it.
    This is the sequential reference; Protocol.dfy interleaves the real statements. */
module Rotation {
  import opened Prelude

  // Microseconds, the resolution of timestamptz.
  type Time = int
  type UserId = nat
  type Family = nat
  type Selector = string
  type Digest = seq<byte>

  const SECOND: Time := 1_000_000
  const REFRESH_REUSE_LEEWAY: Time := 30 * SECOND
  const ACCESS_TOKEN_TTL: Time := 15 * 60 * SECOND
  const REFRESH_TOKEN_TTL: Time := 30 * 24 * 60 * 60 * SECOND
  const ACTIVE := "active"

  datatype RefreshRow = RefreshRow(
    userId: UserId, verifierHash: Digest, family: Family,
    expiresAt: Time, revokedAt: Option<Time>, usedAt: Option<Time>)

  datatype AccessRow = AccessRow(userId: UserId, expiresAt: Time)

  // Keyed by the two unique indexes: refresh_tokens(selector), access_tokens(token_hash).
  datatype Tables = Tables(refresh: map<Selector, RefreshRow>, access: map<Digest, AccessRow>)

  const EMPTY := Tables(map[], map[])

  // The random credentials one login or rotation draws.
  datatype Mint = Mint(selector: Selector, verifierHash: Digest, accessHash: Digest)

  // How the transaction ends: normally, rolled back by a server error before its
  // commit, or committed with the acknowledgement lost (Commit returns an error).
  datatype Fault = NoFault | Abort | LostAck

  // Everything one rotateRefresh call observes besides the token tables. `presented` is
  // the SHA-256 of the decoded verifier, None when the verifier does not decode; `begin`
  // is the transaction's now(); `status` is what GetUserByID returned.
  datatype Request = Request(
    selector: Selector, presented: Option<Digest>, begin: Time,
    appNow: Time, status: Option<string>, mint: Mint, fault: Fault)

  datatype Op =
    | Refresh(q: Request)
    | Login(userId: UserId, family: Family, mint: Mint, appNow: Time, fault: Fault)

  datatype Outcome = Session(userId: UserId, mint: Mint, expiresAtMs: int) | Unauthorized | ServerError

  // ---- the SQL statements, as functions on the committed tables ----

  function Issue(userId: UserId, family: Family, mint: Mint, appNow: Time): RefreshRow {
    RefreshRow(userId, mint.verifierHash, family, appNow + REFRESH_TOKEN_TTL, None, None)
  }

  predicate Unique(t: Tables, mint: Mint) {
    mint.selector !in t.refresh && mint.accessHash !in t.access
  }

  function InsertPair(t: Tables, userId: UserId, family: Family, mint: Mint, appNow: Time): Tables {
    Tables(t.refresh[mint.selector := Issue(userId, family, mint, appNow)],
           t.access[mint.accessHash := AccessRow(userId, appNow + ACCESS_TOKEN_TTL)])
  }

  function MarkUsed(t: Tables, s: Selector, at: Time): Tables
    requires s in t.refresh
  {
    t.(refresh := t.refresh[s := t.refresh[s].(usedAt := Some(at))])
  }

  function Revoke(row: RefreshRow, at: Time): RefreshRow {
    if row.revokedAt.None? then row.(revokedAt := Some(at)) else row
  }

  function RevokeFamily(t: Tables, f: Family, at: Time): Tables {
    t.(refresh := map s | s in t.refresh ::
      if t.refresh[s].family == f then Revoke(t.refresh[s], at) else t.refresh[s])
  }

  // ---- the decision of rotateRefresh, steps (1) and (3)-(8) ----

  datatype Verdict = Deny | Replay | Grant

  function Decide(t: Tables, q: Request): (v: Verdict)
    ensures v != Deny ==> q.selector in t.refresh && t.refresh[q.selector].revokedAt.None?
  {
    if q.selector !in t.refresh then Deny
    else
      var row := t.refresh[q.selector];
      if q.presented != Some(row.verifierHash) then Deny
      else if row.revokedAt.Some? then Deny
      else if row.usedAt.Some? then
        if q.begin - row.usedAt.value <= REFRESH_REUSE_LEEWAY then Deny else Replay
      else if row.expiresAt <= q.appNow then Deny
      else if q.status != Some(ACTIVE) then Deny
      else Grant
  }

  // The response carries the access expiry as Unix milliseconds.
  function SessionFor(userId: UserId, mint: Mint, appNow: Time): Outcome {
    Session(userId, mint, (appNow + ACCESS_TOKEN_TTL) / 1000)
  }

  function Acknowledge(fault: Fault, o: Outcome): Outcome {
    if fault.LostAck? then ServerError else o
  }

  function Rotate(t: Tables, q: Request): (Tables, Outcome) {
    if q.fault.Abort? then (t, ServerError)
    else match Decide(t, q)
      case Deny => (t, Unauthorized)
      case Replay =>
        (RevokeFamily(t, t.refresh[q.selector].family, q.begin), Acknowledge(q.fault, Unauthorized))
      case Grant =>
        if !Unique(t, q.mint) then (t, ServerError)
        else
          var row := t.refresh[q.selector];
          (InsertPair(MarkUsed(t, q.selector, q.begin), row.userId, row.family, q.mint, q.appNow),
           Acknowledge(q.fault, SessionFor(row.userId, q.mint, q.appNow)))
  }

  // persistSession: both rows or neither.
  function Persist(t: Tables, userId: UserId, family: Family, mint: Mint, appNow: Time, fault: Fault): (Tables, Outcome)
  {
    if fault.Abort? || !Unique(t, mint) then (t, ServerError)
    else (InsertPair(t, userId, family, mint, appNow), Acknowledge(fault, SessionFor(userId, mint, appNow)))
  }

  function Apply(t: Tables, op: Op): (Tables, Outcome) {
    match op
    case Refresh(q) => Rotate(t, q)
    case Login(u, f, m, now, fault) => Persist(t, u, f, m, now, fault)
  }

  // ---- serial histories ----

  function After(ops: seq<Op>): Tables {
    if ops == [] then EMPTY else Apply(After(ops[..|ops| - 1]), ops[|ops| - 1]).0
  }

  function OutcomeAt(ops: seq<Op>, k: nat): Outcome
    requires k < |ops|
  {
    Apply(After(ops[..k]), ops[k]).1
  }

  ghost predicate HasFamily(t: Tables, f: Family) {
    exists s :: s in t.refresh && t.refresh[s].family == f
  }

  // A login draws a family no row carries yet (122 random bits; no index enforces it).
  ghost predicate FreshFamilies(ops: seq<Op>) {
    forall k :: 0 <= k < |ops| && ops[k].Login? ==> !HasFamily(After(ops[..k]), ops[k].family)
  }

  // Operation k committed a rotation / a family revocation.
  ghost predicate Rotates(t: Tables, op: Op) {
    op.Refresh? && !op.q.fault.Abort? && Decide(t, op.q) == Grant && Unique(t, op.q.mint)
  }

  ghost predicate Revokes(t: Tables, op: Op) {
    op.Refresh? && !op.q.fault.Abort? && Decide(t, op.q) == Replay
  }

  ghost predicate RotatedAt(ops: seq<Op>, k: nat) {
    k < |ops| && Rotates(After(ops[..k]), ops[k])
  }

  ghost predicate RevokedAt(ops: seq<Op>, k: nat) {
    k < |ops| && Revokes(After(ops[..k]), ops[k])
  }
}
