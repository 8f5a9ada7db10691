/** rotateRefresh and persistSession as the handler runs them: statements on an open transaction,
    a committed flag, and a rollback on every path that did not commit. Proved to be exactly the
    serial operations of Rotation.dfy, which Protocol.dfy shows every interleaving amounts to. */
module TokenStore {
  import opened Prelude
  import opened Rotation

  // The calls of rotateRefresh and persistSession that can return an error.
  datatype Call =
    | BeginTx | PreReadRow | LockAdvisory | ReadRow | RevokeChain | ReadUser
    | MarkRow | Draw | AddRefresh | AddAccess | CommitTx

  // What goes wrong around one request: the calls that fail, and whether a failing
  // commit took effect all the same.
  datatype Weather = Weather(broken: set<Call>, durable: bool)

  // The right verifier for an unrevoked token that was consumed more than 30 seconds before `begin`.
  predicate LateReplay(t: Tables, selector: Selector, presented: Option<Digest>, begin: Time) {
    && selector in t.refresh && presented == Some(t.refresh[selector].verifierHash)
    && t.refresh[selector].revokedAt.None? && t.refresh[selector].usedAt.Some?
    && t.refresh[selector].usedAt.value + 30_000_000 < begin
  }

  class Store {
    var committed: Tables
    var work: Tables          // what the open transaction sees
    var users: map<UserId, string>

    constructor (users: map<UserId, string>)
      ensures committed == EMPTY && this.users == users
    {
      committed, work := EMPTY, EMPTY;
      this.users := users;
    }

    method Begin()
      modifies this`work
      ensures work == committed
    {
      work := committed;
    }

    method Rollback()
      modifies this`work
      ensures work == committed
    {
      work := committed;
    }

    // Returns whether Commit reported success.
    method Commit(w: Weather) returns (ok: bool)
      modifies this`committed
      ensures ok == (CommitTx !in w.broken)
      ensures committed == if ok || w.durable then work else old(committed)
    {
      ok := CommitTx !in w.broken;
      if ok || w.durable { committed := work; }
    }

    method MarkRefreshTokenUsed(s: Selector, at: Time)
      requires s in work.refresh
      modifies this`work
      ensures work.refresh.Keys == old(work).refresh.Keys && work.access == old(work).access
      ensures forall x :: x in work.refresh && x != s ==> work.refresh[x] == old(work).refresh[x]
      ensures work.refresh[s].usedAt == Some(at)
      ensures work.refresh[s].(usedAt := None) == old(work).refresh[s].(usedAt := None)
      ensures work == MarkUsed(old(work), s, at)
    {
      work := work.(refresh := work.refresh[s := work.refresh[s].(usedAt := Some(at))]);
    }

    method RevokeTokenFamily(f: Family, at: Time)
      modifies this`work
      ensures work.refresh.Keys == old(work).refresh.Keys && work.access == old(work).access
      ensures forall x :: x in work.refresh && work.refresh[x].family == f ==> work.refresh[x].revokedAt.Some?
      ensures forall x :: x in work.refresh && old(work).refresh[x].family != f ==>
        work.refresh[x] == old(work).refresh[x]
      ensures forall x :: x in work.refresh && old(work).refresh[x].revokedAt.Some? ==>
        work.refresh[x] == old(work).refresh[x]
      ensures work == RevokeFamily(old(work), f, at)
    {
      work := work.(refresh := map s | s in work.refresh ::
        if work.refresh[s].family == f && work.refresh[s].revokedAt.None?
        then work.refresh[s].(revokedAt := Some(at)) else work.refresh[s]);
    }

    // Fails on the selector index when the row exists already.
    method InsertRefreshToken(s: Selector, row: RefreshRow) returns (ok: bool)
      modifies this`work
      ensures ok == (s !in old(work).refresh)
      ensures work == if ok then old(work).(refresh := old(work).refresh[s := row]) else old(work)
    {
      ok := s !in work.refresh;
      if ok { work := work.(refresh := work.refresh[s := row]); }
    }

    method InsertAccessToken(d: Digest, row: AccessRow) returns (ok: bool)
      modifies this`work
      ensures ok == (d !in old(work).access)
      ensures work == if ok then old(work).(access := old(work).access[d := row]) else old(work)
    {
      ok := d !in work.access;
      if ok { work := work.(access := work.access[d := row]); }
    }

    // The status GetUserByID would return for the owner of a token.
    function OwnerStatus(s: Selector): Option<string>
      reads this
    {
      if s in committed.refresh && committed.refresh[s].userId in users
      then Some(users[committed.refresh[s].userId]) else None
    }

    // Steps (1)-(9) inside the open transaction.
    method RotateInTx(
      selector: Selector, presented: Option<Digest>, begin: Time, appNow: Time, mint: Mint, w: Weather)
      returns (out: Outcome, done: bool, ghost fault: Fault)
      requires work == committed
      modifies this`work, this`committed
      ensures (committed, out) == Rotate(old(committed),
        Request(selector, presented, begin, appNow, old(OwnerStatus(selector)), mint, fault))
      ensures !out.ServerError? || w.broken == {} ==> fault == NoFault
      ensures fault == LostAck ==> w.durable
    {
      done, fault := false, Abort;
      if PreReadRow in w.broken { return ServerError, done, fault; }
      if selector !in work.refresh { return Unauthorized, done, NoFault; }
      var family := work.refresh[selector].family;

      if LockAdvisory in w.broken || ReadRow in w.broken { return ServerError, done, fault; }
      var row := work.refresh[selector];

      if presented != Some(row.verifierHash) { return Unauthorized, done, NoFault; }
      if row.revokedAt.Some? { return Unauthorized, done, NoFault; }
      if row.usedAt.Some? {
        if begin - row.usedAt.value <= REFRESH_REUSE_LEEWAY { return Unauthorized, done, NoFault; }
        if RevokeChain in w.broken { return ServerError, done, fault; }
        RevokeTokenFamily(row.family, begin);
        assert work == RevokeFamily(old(committed), row.family, begin);
        done := Commit(w);
        if done { return Unauthorized, done, NoFault; }
        fault := if w.durable then LostAck else Abort;
        return ServerError, done, fault;
      }
      if row.expiresAt <= appNow { return Unauthorized, done, NoFault; }

      if ReadUser in w.broken { return ServerError, done, fault; }
      if row.userId !in users || users[row.userId] != ACTIVE { return Unauthorized, done, NoFault; }

      if MarkRow in w.broken { return ServerError, done, fault; }
      MarkRefreshTokenUsed(selector, begin);
      if Draw in w.broken || AddRefresh in w.broken { return ServerError, done, fault; }
      var ok := InsertRefreshToken(mint.selector, Issue(row.userId, family, mint, appNow));
      if !ok { return ServerError, done, NoFault; }
      if AddAccess in w.broken { return ServerError, done, fault; }
      ok := InsertAccessToken(mint.accessHash, AccessRow(row.userId, appNow + ACCESS_TOKEN_TTL));
      if !ok { return ServerError, done, NoFault; }
      done := Commit(w);
      if done { return SessionFor(row.userId, mint, appNow), done, NoFault; }
      fault := if w.durable then LostAck else Abort;
      return ServerError, done, fault;
    }

    /** One rotateRefresh call, alone: exactly the serial Rotate on the committed rows, with the
        fault it suffered; a fault only if some call broke, and then a 500 with nothing changed
        unless the commit itself was durable. No uncommitted write survives the call. */
    method RotateRefresh(
      selector: Selector, presented: Option<Digest>, begin: Time, appNow: Time, mint: Mint, w: Weather)
      returns (out: Outcome, ghost fault: Fault)
      modifies this`work, this`committed
      ensures (committed, out) == Rotate(old(committed),
        Request(selector, presented, begin, appNow, old(OwnerStatus(selector)), mint, fault))
      ensures !out.ServerError? || w.broken == {} ==> fault == NoFault
      ensures out.ServerError? && !w.durable ==> committed == old(committed)
      ensures work == committed
      ensures out.Session? ==>
        && selector in old(committed).refresh && old(OwnerStatus(selector)) == Some("active")
        && out == Session(old(committed).refresh[selector].userId, mint, (appNow + 900_000_000) / 1000)
      ensures selector in old(committed).refresh && old(committed).refresh[selector].usedAt.Some?
              && begin <= old(committed).refresh[selector].usedAt.value + 30_000_000 ==>
        committed == old(committed) && !out.Session?
      ensures w.broken == {} && LateReplay(old(committed), selector, presented, begin) ==>
        && out.Unauthorized?
        && forall x :: x in committed.refresh
                       && committed.refresh[x].family == old(committed).refresh[selector].family ==>
                         committed.refresh[x].revokedAt.Some?
    {
      if BeginTx in w.broken {
        Rollback();
        return ServerError, Abort;
      }
      Begin();
      var done;
      out, done, fault := RotateInTx(selector, presented, begin, appNow, mint, w);
      Rollback();
    }

    /** persistSession: both rows or neither, and the serial Persist either way. */
    method PersistSession(userId: UserId, family: Family, mint: Mint, appNow: Time, w: Weather)
      returns (out: Outcome, ghost fault: Fault)
      modifies this`work, this`committed
      ensures (committed, out) == Persist(old(committed), userId, family, mint, appNow, fault)
      ensures out.Session? || w.broken == {} ==> fault == NoFault
      ensures work == committed
      ensures out.ServerError? || out == Session(userId, mint, (appNow + 900_000_000) / 1000)
      ensures w.broken == {} ==>
        (out.Session? <==> mint.selector !in old(committed).refresh && mint.accessHash !in old(committed).access)
      ensures out.Session? ==>
        && committed.refresh == old(committed).refresh[mint.selector :=
             RefreshRow(userId, mint.verifierHash, family, appNow + 2_592_000_000_000, None, None)]
        && committed.access == old(committed).access[mint.accessHash := AccessRow(userId, appNow + 900_000_000)]
      ensures out.ServerError? && !w.durable ==> committed == old(committed)
    {
      fault := Abort;
      if BeginTx in w.broken {
        Rollback();
        return ServerError, fault;
      }
      Begin();
      if AddAccess in w.broken {
        Rollback();
        return ServerError, fault;
      }
      var ok := InsertAccessToken(mint.accessHash, AccessRow(userId, appNow + ACCESS_TOKEN_TTL));
      if ok && AddRefresh !in w.broken {
        ok := InsertRefreshToken(mint.selector, Issue(userId, family, mint, appNow));
        if ok {
          ok := Commit(w);
          if ok {
            out, fault := SessionFor(userId, mint, appNow), NoFault;
          } else {
            out, fault := ServerError, if w.durable then LostAck else Abort;
          }
          Rollback();
          return;
        }
      }
      Rollback();
      out, fault := ServerError, if Unique(committed, mint) then Abort else NoFault;
    }
  }
}
