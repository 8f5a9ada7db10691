/** Any number of rotateRefresh and login transactions, interleaved statement by statement
    under READ COMMITTED: a statement sees the rows committed when it runs, FOR UPDATE and
    UPDATE wait for row locks and then re-read, the advisory lock and all row locks are held
    to the end of the transaction, and uncommitted writes are invisible to everyone else.

    Both kinds of lock are released only when a transaction ends, so who holds what is a
    function of the statements a transaction has run, that is, of its phase. */
module Protocol {
  import opened Prelude
  import opened Rotation

  // pg_advisory_xact_lock key: hashtextextended of the family. `h` below is any such hash;
  // two families may collide.
  type LockKey = int

  datatype Job =
    | RefreshJob(selector: Selector, presented: Option<Digest>)
    | LoginJob(userId: UserId, family: Family, mint: Mint, appNow: Time)

  // What a transaction has done so far, with the values it carries in local variables.
  datatype Phase =
    | Begun
    | FamilyKnown(family: Family)                     // after the non-locking pre-read
    | FamilyLocked(family: Family)                    // advisory lock granted
    | RowLocked(row: RefreshRow)                      // after SELECT .. FOR UPDATE
    | Replaying(row: RefreshRow)                      // judged a replay, about to revoke
    | Revoking(row: RefreshRow, todo: set<Selector>, held: set<Selector>)
    | Checked(row: RefreshRow, appNow: Time)          // verifier, revoked, used, expired passed
    | Approved(row: RefreshRow, appNow: Time)         // user is active
    | Marked(row: RefreshRow, appNow: Time)
    | Drew(row: RefreshRow, appNow: Time, mint: Mint)   // new credentials drawn, nothing inserted
    | RefreshInserted(row: RefreshRow, appNow: Time, mint: Mint)
    | BothInserted(row: RefreshRow, appNow: Time, mint: Mint)
    | LoginAccessInserted
    | LoginBothInserted
    | Done

  datatype Tx = Tx(job: Job, begin: Time, phase: Phase)

  datatype Ticket = Ticket(tx: nat, key: Option<LockKey>)

  datatype State = State(
    tables: Tables,                // committed rows
    users: map<UserId, string>,    // committed users.status
    txs: seq<Tx>,
    grants: seq<Ticket>,           // advisory locks in the order they were granted
    ops: seq<Op>,                  // finished transactions: what each one observed,
    outs: seq<Outcome>,            //   what it returned,
    ends: seq<Ticket>)             //   and which key it held when it ended

  datatype Event =
    | BeginRefresh(selector: Selector, presented: Option<Digest>, at: Time)
    | BeginLogin(userId: UserId, family: Family, mint: Mint, appNow: Time)
    | SetStatus(userId: UserId, status: string)
    | PreRead(i: nat)
    | LockFamily(i: nat)
    | ReadRow(i: nat)
    | Judge(i: nat, appNow: Time)
    | StartRevoke(i: nat)
    | LockVictim(i: nat, victim: Selector)
    | CommitRevoke(i: nat, lost: bool)
    | ReadUser(i: nat)
    | MarkOldUsed(i: nat)
    | Draw(i: nat, mint: Mint)
    | InsertRefresh(i: nat)
    | InsertAccess(i: nat)
    | CommitRotate(i: nat, lost: bool)
    | LoginInsertAccess(i: nat)
    | LoginInsertRefresh(i: nat)
    | CommitLogin(i: nat, lost: bool)
    | Fail(i: nat)                 // any error before the commit: rollback

  const NO_MINT := Mint("", [], [])

  function Init(users: map<UserId, string>): State {
    State(EMPTY, users, [], [], [], [], [])
  }

  // ---- locks and reservations ----

  function RowOf(p: Phase): Option<RefreshRow> {
    if p.RowLocked? || p.Replaying? || p.Revoking? || p.Checked? || p.Approved? || p.Marked?
       || p.Drew? || p.RefreshInserted? || p.BothInserted? then Some(p.row)
    else None
  }

  function LockKeyOf(h: Family -> LockKey, tx: Tx): Option<LockKey> {
    if tx.phase.FamilyLocked? then Some(h(tx.phase.family))
    else if RowOf(tx.phase).Some? then Some(h(RowOf(tx.phase).value.family))
    else None
  }

  predicate HoldsRow(tx: Tx, s: Selector) {
    && tx.job.RefreshJob?
    && RowOf(tx.phase).Some?
    && (s == tx.job.selector || (tx.phase.Revoking? && s in tx.phase.held))
  }

  // Unique-index entries of uncommitted inserts: nobody else can insert the same key.
  function NewSelector(tx: Tx): Option<Selector> {
    if tx.phase.RefreshInserted? || tx.phase.BothInserted? then Some(tx.phase.mint.selector)
    else if tx.phase.LoginBothInserted? && tx.job.LoginJob? then Some(tx.job.mint.selector)
    else None
  }

  function NewAccess(tx: Tx): Option<Digest> {
    if tx.phase.BothInserted? then Some(tx.phase.mint.accessHash)
    else if (tx.phase.LoginAccessInserted? || tx.phase.LoginBothInserted?) && tx.job.LoginJob?
    then Some(tx.job.mint.accessHash)
    else None
  }

  // The family an unfinished login has drawn.
  function NewFamily(tx: Tx): Option<Family> {
    if tx.job.LoginJob? && !tx.phase.Done? then Some(tx.job.family) else None
  }

  ghost predicate KeyFree(h: Family -> LockKey, s: State, k: LockKey) {
    forall j :: 0 <= j < |s.txs| ==> LockKeyOf(h, s.txs[j]) != Some(k)
  }

  ghost predicate RowFree(s: State, i: nat, sel: Selector) {
    forall j :: 0 <= j < |s.txs| && j != i ==> !HoldsRow(s.txs[j], sel)
  }

  ghost predicate SelectorFree(s: State, sel: Selector) {
    sel !in s.tables.refresh && forall j :: 0 <= j < |s.txs| ==> NewSelector(s.txs[j]) != Some(sel)
  }

  ghost predicate AccessFree(s: State, d: Digest) {
    d !in s.tables.access && forall j :: 0 <= j < |s.txs| ==> NewAccess(s.txs[j]) != Some(d)
  }

  ghost predicate FamilyFree(s: State, f: Family) {
    !HasFamily(s.tables, f) && forall j :: 0 <= j < |s.txs| ==> NewFamily(s.txs[j]) != Some(f)
  }

  // Unrevoked rows of a family: what RevokeTokenFamily's snapshot selects.
  function LiveOf(t: Tables, f: Family): set<Selector> {
    set s | s in t.refresh && t.refresh[s].family == f && t.refresh[s].revokedAt.None?
  }

  function RevokeRows(t: Tables, rows: set<Selector>, at: Time): Tables {
    t.(refresh := map s | s in t.refresh :: if s in rows then Revoke(t.refresh[s], at) else t.refresh[s])
  }

  // ---- steps ----

  function CommitFault(lost: bool): Fault {
    if lost then LostAck else NoFault
  }

  // The finished transaction as a serial operation: what it observed on its way. A user status it
  // never looked at is entered as the one that favours a grant, so that a rejection has to be
  // justified by what was seen.
  function Observed(tx: Tx, appNow: Time, status: Option<string>, mint: Mint, fault: Fault): Op
    requires tx.job.RefreshJob?
  {
    Refresh(Request(tx.job.selector, tx.job.presented, tx.begin, appNow, status, mint, fault))
  }

  function Failed(tx: Tx): Op {
    match tx.job
    case RefreshJob(_, _) => Observed(tx, 0, Some(ACTIVE), NO_MINT, Abort)
    case LoginJob(u, f, m, now) => Login(u, f, m, now, Abort)
  }

  function Move(s: State, i: nat, p: Phase): State
    requires i < |s.txs|
  {
    s.(txs := s.txs[i := s.txs[i].(phase := p)])
  }

  function End(h: Family -> LockKey, s: State, i: nat, t: Tables, op: Op, out: Outcome): State
    requires i < |s.txs|
  {
    State(t, s.users, s.txs[i := s.txs[i].(phase := Done)], s.grants,
          s.ops + [op], s.outs + [out], s.ends + [Ticket(i, LockKeyOf(h, s.txs[i]))])
  }

  function Actor(e: Event): Option<nat> {
    if e.BeginRefresh? || e.BeginLogin? || e.SetStatus? then None else Some(e.i)
  }

  // A commit that takes effect but whose acknowledgement is lost.
  predicate Loses(e: Event) {
    (e.CommitRevoke? || e.CommitRotate? || e.CommitLogin?) && e.lost
  }

  ghost predicate Enabled(h: Family -> LockKey, s: State, e: Event) {
    && (Actor(e).Some? ==> e.i < |s.txs|)
    && match e
       case BeginRefresh(_, _, _) => true
       case BeginLogin(_, f, _, _) => FamilyFree(s, f)
       case SetStatus(_, _) => true
       case PreRead(i) => s.txs[i].phase.Begun? && s.txs[i].job.RefreshJob?
       case LockFamily(i) => s.txs[i].phase.FamilyKnown? && KeyFree(h, s, h(s.txs[i].phase.family))
       case ReadRow(i) =>
         && s.txs[i].phase.FamilyLocked? && s.txs[i].job.RefreshJob?
         && RowFree(s, i, s.txs[i].job.selector)
       case Judge(i, _) => s.txs[i].phase.RowLocked? && s.txs[i].job.RefreshJob?
       case StartRevoke(i) => s.txs[i].phase.Replaying?
       case LockVictim(i, v) => s.txs[i].phase.Revoking? && v in s.txs[i].phase.todo && RowFree(s, i, v)
       case CommitRevoke(i, _) => s.txs[i].phase.Revoking? && s.txs[i].phase.todo == {} && s.txs[i].job.RefreshJob?
       case ReadUser(i) => s.txs[i].phase.Checked? && s.txs[i].job.RefreshJob?
       case MarkOldUsed(i) => s.txs[i].phase.Approved?
       case Draw(i, _) => s.txs[i].phase.Marked?
       case InsertRefresh(i) => s.txs[i].phase.Drew? && SelectorFree(s, s.txs[i].phase.mint.selector)
       case InsertAccess(i) => s.txs[i].phase.RefreshInserted? && AccessFree(s, s.txs[i].phase.mint.accessHash)
       case CommitRotate(i, _) =>
         && s.txs[i].phase.BothInserted? && s.txs[i].job.RefreshJob?
         && s.txs[i].job.selector in s.tables.refresh
       case LoginInsertAccess(i) =>
         s.txs[i].phase.Begun? && s.txs[i].job.LoginJob? && AccessFree(s, s.txs[i].job.mint.accessHash)
       case LoginInsertRefresh(i) =>
         s.txs[i].phase.LoginAccessInserted? && s.txs[i].job.LoginJob? && SelectorFree(s, s.txs[i].job.mint.selector)
       case CommitLogin(i, _) => s.txs[i].phase.LoginBothInserted? && s.txs[i].job.LoginJob?
       case Fail(i) => !s.txs[i].phase.Done?
  }

  // What GetUserByID finds.
  function StatusOf(users: map<UserId, string>, u: UserId): Option<string> {
    if u in users then Some(users[u]) else None
  }

  // Steps (4)-(7) of rotateRefresh on the locked row, local to the transaction.
  function JudgeStep(h: Family -> LockKey, s: State, i: nat, appNow: Time): State
    requires i < |s.txs| && s.txs[i].phase.RowLocked? && s.txs[i].job.RefreshJob?
  {
    var tx := s.txs[i];
    var row := tx.phase.row;
    var reject := End(h, s, i, s.tables, Observed(tx, appNow, Some(ACTIVE), NO_MINT, NoFault), Unauthorized);
    if tx.job.presented != Some(row.verifierHash) then reject
    else if row.revokedAt.Some? then reject
    else if row.usedAt.Some? then
      if tx.begin - row.usedAt.value <= REFRESH_REUSE_LEEWAY then reject
      else Move(s, i, Replaying(row))
    else if row.expiresAt <= appNow then reject
    else Move(s, i, Checked(row, appNow))
  }

  ghost function Step(h: Family -> LockKey, s: State, e: Event): State
    requires Enabled(h, s, e)
  {
    match e
    case BeginRefresh(sel, presented, at) => s.(txs := s.txs + [Tx(RefreshJob(sel, presented), at, Begun)])
    case BeginLogin(u, f, m, now) => s.(txs := s.txs + [Tx(LoginJob(u, f, m, now), 0, Begun)])
    case SetStatus(u, status) => s.(users := s.users[u := status])
    case PreRead(i) =>
      var sel := s.txs[i].job.selector;
      if sel in s.tables.refresh then Move(s, i, FamilyKnown(s.tables.refresh[sel].family))
      else End(h, s, i, s.tables, Observed(s.txs[i], 0, Some(ACTIVE), NO_MINT, NoFault), Unauthorized)
    case LockFamily(i) =>
      var f := s.txs[i].phase.family;
      Move(s, i, FamilyLocked(f)).(grants := s.grants + [Ticket(i, Some(h(f)))])
    case ReadRow(i) =>
      var sel := s.txs[i].job.selector;
      if sel in s.tables.refresh then Move(s, i, RowLocked(s.tables.refresh[sel]))
      else End(h, s, i, s.tables, Observed(s.txs[i], 0, Some(ACTIVE), NO_MINT, NoFault), Unauthorized)
    case Judge(i, appNow) => JudgeStep(h, s, i, appNow)
    case StartRevoke(i) =>
      var row := s.txs[i].phase.row;
      Move(s, i, Revoking(row, LiveOf(s.tables, row.family), {}))
    case LockVictim(i, v) =>
      var p := s.txs[i].phase;
      Move(s, i, Revoking(p.row, p.todo - {v}, p.held + {v}))
    case CommitRevoke(i, lost) =>
      var tx := s.txs[i];
      End(h, s, i, RevokeRows(s.tables, tx.phase.held, tx.begin),
          Observed(tx, 0, Some(ACTIVE), NO_MINT, CommitFault(lost)), Acknowledge(CommitFault(lost), Unauthorized))
    case ReadUser(i) =>
      var p := s.txs[i].phase;
      var status := StatusOf(s.users, p.row.userId);
      if status == Some(ACTIVE) then Move(s, i, Approved(p.row, p.appNow))
      else End(h, s, i, s.tables, Observed(s.txs[i], p.appNow, status, NO_MINT, NoFault), Unauthorized)
    case MarkOldUsed(i) => Move(s, i, Marked(s.txs[i].phase.row, s.txs[i].phase.appNow))
    case Draw(i, m) => Move(s, i, Drew(s.txs[i].phase.row, s.txs[i].phase.appNow, m))
    case InsertRefresh(i) =>
      var p := s.txs[i].phase;
      Move(s, i, RefreshInserted(p.row, p.appNow, p.mint))
    case InsertAccess(i) =>
      var p := s.txs[i].phase;
      Move(s, i, BothInserted(p.row, p.appNow, p.mint))
    case CommitRotate(i, lost) =>
      var tx := s.txs[i];
      var p := tx.phase;
      End(h, s, i,
          InsertPair(MarkUsed(s.tables, tx.job.selector, tx.begin), p.row.userId, p.row.family, p.mint, p.appNow),
          Observed(tx, p.appNow, Some(ACTIVE), p.mint, CommitFault(lost)),
          Acknowledge(CommitFault(lost), SessionFor(p.row.userId, p.mint, p.appNow)))
    case LoginInsertAccess(i) => Move(s, i, LoginAccessInserted)
    case LoginInsertRefresh(i) => Move(s, i, LoginBothInserted)
    case CommitLogin(i, lost) =>
      var j := s.txs[i].job;
      End(h, s, i, InsertPair(s.tables, j.userId, j.family, j.mint, j.appNow),
          Login(j.userId, j.family, j.mint, j.appNow, CommitFault(lost)),
          Acknowledge(CommitFault(lost), SessionFor(j.userId, j.mint, j.appNow)))
    case Fail(i) => End(h, s, i, s.tables, Failed(s.txs[i]), ServerError)
  }

  // ---- runs ----

  ghost predicate Run(h: Family -> LockKey, s: State, es: seq<Event>, s': State)
    decreases |es|
  {
    if es == [] then s' == s
    else Enabled(h, s, es[0]) && Run(h, Step(h, s, es[0]), es[1..], s')
  }

  ghost predicate Reachable(h: Family -> LockKey, s: State) {
    exists users, es :: Run(h, Init(users), es, s)
  }

  // The transactions among `ts` that hold key k, in order.
  function On(ts: seq<Ticket>, k: LockKey): seq<nat> {
    if ts == [] then []
    else On(ts[..|ts| - 1], k) + (if ts[|ts| - 1].key == Some(k) then [ts[|ts| - 1].tx] else [])
  }
}
