/** verifyCredentials: look the user up, spend one argon2, then one write on the users row, which
    may have changed since the look-up. */
module Login {
  import opened Prelude
  import opened Lockout
  import Phc

  const ACTIVE := "active"

  // The row GetUserByUsername returned, with the database's now() of that statement.
  datatype Found = Found(account: Account, dbNow: Time, status: string, passwordHash: string)

  datatype LoginResult = Authenticated | Rejected | ServerError

  // What Verify(password, phc) returns, and decodeHash(phc).
  type Verifier = (string, string) -> Result<bool, Phc.HashError>
  type Decoder = string -> Result<Phc.Decoded, Phc.HashError>

  // Decode, derive, compare. With Phc.DecodeHash it is Phc.Verify.
  function VerifyBy(decode: Decoder, kdf: Phc.Kdf): Verifier {
    (password, phc) =>
      match decode(phc)
      case Err(e) => Err(e)
      case Ok(d) => Ok(Phc.Derive(kdf, password, d.salt, d.params) == d.key)
  }

  function VerifyOf(kdf: Phc.Kdf): Verifier {
    VerifyBy(Phc.DecodeHash, kdf)
  }

  // The lock gate, on what the look-up saw.
  predicate GateClosed(found: Found) {
    LockedAt(found.account, found.dbNow)
  }

  // A stored hash that does not parse, on a path that reaches it.
  predicate BrokenHash(verify: Verifier, found: Option<Found>, password: string) {
    found.Some? && !GateClosed(found.value) && verify(password, found.value.passwordHash).Err?
  }

  // The statement this login sends to its account's row, if any. A touch of the zero UUID for
  // an unknown user matches no row.
  function Sent(verify: Verifier, found: Option<Found>, password: string, now: Time): Option<Statement> {
    if found.None? || BrokenHash(verify, found, password) then None
    else if GateClosed(found.value) || found.value.status != ACTIVE then Some(Touch)
    else if verify(password, found.value.passwordHash) == Ok(true) then Some(Reset)
    else Some(Fail(now))
  }

  function Sends(p: Policy, a: Account, st: Option<Statement>): Account {
    if st.None? then a else Exec(p, a, st.value)
  }

  // The gate as the look-up saw it: no lock, or one that had run out.
  predicate Open(found: Found) {
    found.account.lockedUntil.None? || found.account.lockedUntil.value <= found.dbNow
  }

  // The row after a wrong password at `now`, under 5 failures and 15 minutes.
  function AfterWrong(a: Account, now: Time): Account {
    if a.lockedUntil.Some? then if a.lockedUntil.value > now then a else Account(1, None)
    else Account(a.failedAttempts + 1, if a.failedAttempts + 1 >= 5 then Some(now + 900_000_000) else None)
  }

  /** VerifyOf is Verify, and a broken hash is one that does not parse, whatever the password. */
  lemma BrokenIsUnparseable(kdf: Phc.Kdf, password: string, phc: string)
    ensures VerifyOf(kdf)(password, phc) == Phc.Verify(kdf, password, phc)
    ensures VerifyOf(kdf)(password, phc).Err? <==> Phc.DecodeHash(phc).Err?
  {
  }

  // mustBuildDummyHash with the 32 random password bytes and the 16 random salt bytes drawn.
  method MustBuildDummyHash(kdf: Phc.Kdf, pw: string, salt: seq<byte>) returns (phc: string)
    requires Phc.IsKdf(kdf) && |salt| == Phc.CURRENT.saltLength
    ensures phc == Phc.Hash(kdf, pw, salt) && Phc.DecodeHash(phc).Ok?
  {
    phc := Phc.Hash(kdf, pw, salt);
    Phc.VerifyHash(kdf, pw, pw, salt);
  }

  class Handler {
    const decode: Decoder
    const kdf: Phc.Kdf
    const dummyHash: string
    var argon2Runs: nat      // argon2 computations
    var userUpdates: nat     // UPDATE statements against users
    var lockedEvents: nat    // account_locked lines

    // The start-up dummy hash parses, so a dummy verification costs one argon2.
    ghost predicate Valid() {
      decode(dummyHash).Ok?
    }

    function Verifies(): Verifier {
      VerifyBy(decode, kdf)
    }

    // argon2 of the password, the stored salt and the stored costs is the stored key.
    predicate Matches(password: string, phc: string) {
      && decode(phc).Ok?
      && var d := decode(phc).value;
         kdf(password, d.salt, d.params.iterations, d.params.memory, d.params.parallelism, d.params.keyLength) == d.key
    }

    // The stored hash of an account whose gate is open does not parse.
    predicate Broken(found: Option<Found>) {
      found.Some? && Open(found.value) && decode(found.value.passwordHash).Err?
    }

    // The right, or a wrong, password for an active account whose gate is open.
    predicate Right(found: Option<Found>, password: string) {
      found.Some? && Open(found.value) && found.value.status == "active" && Matches(password, found.value.passwordHash)
    }

    predicate Wrong(found: Option<Found>, password: string) {
      && found.Some? && Open(found.value) && found.value.status == "active"
      && decode(found.value.passwordHash).Ok? && !Matches(password, found.value.passwordHash)
    }

    // The auth module at start-up.
    constructor (kdf: Phc.Kdf, pw: string, salt: seq<byte>)
      requires Phc.IsKdf(kdf) && |salt| == Phc.CURRENT.saltLength
      ensures Valid() && argon2Runs == userUpdates == lockedEvents == 0
      ensures decode == Phc.DecodeHash && this.kdf == kdf && dummyHash == Phc.Hash(kdf, pw, salt)
    {
      var phc := MustBuildDummyHash(kdf, pw, salt);
      decode, this.kdf, dummyHash := Phc.DecodeHash, kdf, phc;
      argon2Runs, userUpdates, lockedEvents := 0, 0, 0;
    }

    // argon2.IDKey
    method IdKey(password: string, d: Phc.Decoded) returns (key: seq<byte>)
      modifies this`argon2Runs
      ensures key == Phc.Derive(kdf, password, d.salt, d.params) && argon2Runs == old(argon2Runs) + 1
    {
      argon2Runs := argon2Runs + 1;
      key := Phc.Derive(kdf, password, d.salt, d.params);
    }

    /** Verify: one argon2 exactly when the stored hash parses, and then whether the derived key is
        the stored one. */
    method Verify(password: string, phc: string) returns (r: Result<bool, Phc.HashError>)
      modifies this`argon2Runs
      ensures r == VerifyBy(decode, kdf)(password, phc)
      ensures argon2Runs == old(argon2Runs) + (if decode(phc).Ok? then 1 else 0)
      ensures r.Ok? <==> decode(phc).Ok?
      ensures r == Ok(true) <==> Matches(password, phc)
    {
      var decoded := decode(phc);
      if decoded.Err? { return Err(decoded.error); }
      var got := IdKey(password, decoded.value);
      r := Ok(got == decoded.value.key);
    }

    method DummyVerify(password: string)
      requires Valid()
      modifies this`argon2Runs
      ensures argon2Runs == old(argon2Runs) + 1
    {
      var _ := Verify(password, dummyHash);
    }

    method TouchUserTiming(writeFails: bool) returns (ok: bool)
      modifies this`userUpdates
      ensures ok == !writeFails && userUpdates == old(userUpdates) + 1
    {
      userUpdates := userUpdates + 1;
      ok := !writeFails;
    }

    /** One login against the row as it is at write time. Exactly one argon2 on every path past the
        look-up; exactly one UPDATE unless the stored hash is broken; the row receives exactly the
        statement the look-up decides on; account_locked is logged iff that statement locked it;
        success iff the password matched an active account whose gate was open and the reset went
        through. */
    method VerifyCredentials(
      found: Option<Found>, lookupFails: bool, password: string, row: UserRow, now: Time, writeFails: bool)
      returns (r: LoginResult)
      requires Valid()
      modifies this, row
      ensures lookupFails ==> r.ServerError? && argon2Runs == old(argon2Runs) && userUpdates == old(userUpdates)
      ensures !lookupFails ==> argon2Runs == old(argon2Runs) + 1
      ensures !lookupFails ==>
        userUpdates == old(userUpdates) + (if BrokenHash(Verifies(), found, password) then 0 else 1)
      ensures row.View() ==
        if lookupFails || writeFails then old(row.View())
        else Sends(POLICY, old(row.View()), Sent(Verifies(), found, password, now))
      ensures lockedEvents == old(lockedEvents) +
        (if !lookupFails && !writeFails && Sent(Verifies(), found, password, now) == Some(Fail(now))
            && JustLocked(POLICY, old(row.View()), now) then 1 else 0)
      ensures r.Authenticated? <==> !lookupFails && !writeFails && Sent(Verifies(), found, password, now) == Some(Reset)
      ensures r.ServerError? <==> lookupFails || (writeFails && !Broken(found))
      ensures !lookupFails ==> userUpdates == old(userUpdates) + (if Broken(found) then 0 else 1)
      ensures r.Authenticated? <==> !lookupFails && !writeFails && Right(found, password)
      ensures row.View() ==
        if lookupFails || writeFails then old(row.View())
        else if Right(found, password) then Account(0, None)
        else if Wrong(found, password) then AfterWrong(old(row.View()), now)
        else old(row.View())
      ensures lockedEvents == old(lockedEvents) +
        (if !lookupFails && !writeFails && Wrong(found, password) && row.lockedUntil == Some(now + 900_000_000)
            && (old(row.lockedUntil).None? || old(row.lockedUntil).value <= now) then 1 else 0)
    {
      if lookupFails { return ServerError; }
      if found.None? {
        DummyVerify(password);
        var ok := TouchUserTiming(writeFails);
        return if ok then Rejected else ServerError;
      }
      var user := found.value;
      if user.account.lockedUntil.Some? && user.account.lockedUntil.value > user.dbNow {
        DummyVerify(password);
        var ok := TouchUserTiming(writeFails);
        return if ok then Rejected else ServerError;
      }
      var verified := Verify(password, user.passwordHash);
      if verified.Err? {
        DummyVerify(password);
        return Rejected;
      }
      if user.status != ACTIVE {
        var ok := TouchUserTiming(writeFails);
        return if ok then Rejected else ServerError;
      }
      userUpdates := userUpdates + 1;
      if writeFails { return ServerError; }
      if !verified.value {
        var justLocked := row.RecordLoginFailure(POLICY, now);
        if justLocked { lockedEvents := lockedEvents + 1; }
        return Rejected;
      }
      row.SetUserLock(0, None);
      r := Authenticated;
    }
  }

  /** The one path without an UPDATE, on a concrete stored hash. */
  lemma BrokenHashSendsNothing(kdf: Phc.Kdf, password: string, now: Time)
    ensures BrokenHash(VerifyOf(kdf), Some(Found(CLEAR, 0, ACTIVE, "")), password)
    ensures Sent(VerifyOf(kdf), Some(Found(CLEAR, 0, ACTIVE, "")), password, now) == None
  {
    BrokenIsUnparseable(kdf, password, "");
  }
}
