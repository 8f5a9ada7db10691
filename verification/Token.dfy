/** Split refresh tokens: minting "selector.verifier", splitting it again, and the hash check. */
module Token {
  import opened Prelude
  import opened Text
  import opened Base64
  import opened Rotation
  import opened RotationRuns
  import opened Protocol
  import opened ProtocolInvariant
  import opened ProtocolHistory
  import opened ProtocolTheorems
  import opened ProtocolProgress
  import opened ProtocolSessions

  const SEPARATOR := '.'

  datatype RefreshToken = RefreshToken(plaintext: string, selector: string, verifierHash: Digest)

  // newRefreshToken for the random bytes drawn; `sha` is SHA-256.
  function NewRefreshToken(sha: seq<byte> -> Digest, selRaw: seq<byte>, verRaw: seq<byte>): RefreshToken {
    var selector := Encode(Url, selRaw);
    var verifier := Encode(Url, verRaw);
    RefreshToken(selector + [SEPARATOR] + verifier, selector, sha(verRaw))
  }

  // Step (2) of the refresh handler: None is the generic 401.
  function SplitToken(token: string): Option<(string, string)> {
    match Cut(token, SEPARATOR)
    case None => None
    case Some(p) => if p.0 == "" || p.1 == "" then None else Some(p)
  }

  // Step (4): the digest the presented verifier is compared by.
  function Presented(sha: seq<byte> -> Digest, verifier: string): Option<Digest> {
    match Decode(Url, verifier)
    case None => None
    case Some(raw) => Some(sha(raw))
  }

  /** For all random bytes: splitting a minted token returns its exact selector, and its verifier
      hashes to the stored hash. */
  lemma MintedTokenSplits(sha: seq<byte> -> Digest, selRaw: seq<byte>, verRaw: seq<byte>)
    requires |selRaw| == 16 && |verRaw| == 16
    ensures var token := NewRefreshToken(sha, selRaw, verRaw);
      && token.plaintext == Encode(Url, selRaw) + "." + Encode(Url, verRaw)
      && token.selector == Encode(Url, selRaw) && token.verifierHash == sha(verRaw)
      && SplitToken(token.plaintext) == Some((Encode(Url, selRaw), Encode(Url, verRaw)))
      && Presented(sha, Encode(Url, verRaw)) == Some(sha(verRaw))
  {
    DecodeEncode(Url, selRaw);
    DecodeEncode(Url, verRaw);
    var s := Encode(Url, selRaw);
    forall i | 0 <= i < |s| ensures s[i] != SEPARATOR {
      assert Value(Url, s[i]).Some?;
    }
    CutJoined(s, Encode(Url, verRaw), SEPARATOR);
  }

  /** Two minted tokens have the same selector only if the selector bytes drawn are the same. */
  lemma SelectorsDistinct(sha: seq<byte> -> Digest, a: seq<byte>, b: seq<byte>, v: seq<byte>, w: seq<byte>)
    requires NewRefreshToken(sha, a, v).selector == NewRefreshToken(sha, b, w).selector
    ensures a == b
  {
    DecodeEncode(Url, a);
    DecodeEncode(Url, b);
  }

  /** The strings that split: a non-empty part without '.', a '.', and a non-empty rest. */
  lemma SplitsIff(token: string, selector: string, verifier: string)
    ensures SplitToken(token) == Some((selector, verifier)) <==>
      '.' !in selector && selector != "" && verifier != "" && token == selector + "." + verifier
  {
    CutIff(token, selector, verifier, '.');
  }

  /** What a presented verifier is compared by: the hash of the bytes it decodes to, if it decodes. */
  lemma PresentedHash(sha: seq<byte> -> Digest, verifier: string, d: Digest)
    ensures Presented(sha, verifier) == Some(d) <==>
      Decode(Url, verifier).Some? && d == sha(Decode(Url, verifier).value)
  {
  }

  /** The newest token of an unrevoked, unexpired chain of an active user always rotates, from the
      string the client holds to the new session: one call, with nothing beside it. */
  lemma MintedTokenRotates(
    sha: seq<byte> -> Digest, selRaw: seq<byte>, verRaw: seq<byte>,
    t: Tables, f: Family, begin: Time, appNow: Time, mint: Mint)
    requires |selRaw| == 16 && |verRaw| == 16
    requires var token := NewRefreshToken(sha, selRaw, verRaw);
      IsTip(t, token.selector, f) && t.refresh[token.selector].verifierHash == token.verifierHash
      && appNow < t.refresh[token.selector].expiresAt
    requires !Revoked(t, f) && Unique(t, mint)
    ensures var token := NewRefreshToken(sha, selRaw, verRaw);
      && SplitToken(token.plaintext).Some?
      && var (selector, verifier) := SplitToken(token.plaintext).value;
         var q := Request(selector, Presented(sha, verifier), begin, appNow, Some("active"), mint, NoFault);
         && Rotate(t, q).1 == Session(t.refresh[token.selector].userId, mint, (appNow + 900_000_000) / 1000)
         && IsTip(Rotate(t, q).0, mint.selector, f)
  {
    MintedTokenSplits(sha, selRaw, verRaw);
    var token := NewRefreshToken(sha, selRaw, verRaw);
    var q := Request(token.selector, Presented(sha, Encode(Url, verRaw)), begin, appNow, Some("active"), mint, NoFault);
    TipRotates(t, q, f);
  }

  // The transaction the refresh handler starts for the string a client sends.
  function JobFor(sha: seq<byte> -> Digest, token: string): Option<Job> {
    match SplitToken(token)
    case None => None
    case Some(p) => Some(RefreshJob(p.0, Presented(sha, p.1)))
  }

  // The row of a minted token is in the committed tables.
  ghost predicate Stored(t: Tables, token: RefreshToken) {
    token.selector in t.refresh && t.refresh[token.selector].verifierHash == token.verifierHash
  }

  /** From the client's string to the session among any number of other transactions: the request
      for a minted token that is unrevoked and never consumed when it finishes, of an owner active
      throughout, judged before the expiry and meeting no error, ends in a session of the owner. */
  lemma MintedTokenIsServed(
    sha: seq<byte> -> Digest, selRaw: seq<byte>, verRaw: seq<byte>,
    h: Family -> LockKey, s: State, es: seq<Event>, s': State, n: nat)
    requires |selRaw| == 16 && |verRaw| == 16
    requires Reachable(h, s) && Run(h, s, es, s') && |s.ops| <= n < |s'.ops| && n < |s'.ends|
    requires s'.ends[n].tx < |s'.txs|
    requires JobFor(sha, NewRefreshToken(sha, selRaw, verRaw).plaintext) == Some(s'.txs[s'.ends[n].tx].job)
    requires var t, token := After(s'.ops[..n]), NewRefreshToken(sha, selRaw, verRaw);
      && Stored(t, token)
      && !Revoked(t, t.refresh[token.selector].family) && !Consumed(s'.ops, n, token.selector)
      && var row := t.refresh[token.selector];
         && Active(s.users, row.userId) && NobodyDisables(es, row.userId)
         && Untroubled(es, s'.ends[n].tx, row.expiresAt)
    ensures n < |s'.outs| && s'.outs[n].Session?
    ensures s'.outs[n].userId == After(s'.ops[..n]).refresh[NewRefreshToken(sha, selRaw, verRaw).selector].userId
  {
    MintedTokenSplits(sha, selRaw, verRaw);
    ReachableRun(h, s, es, s');
    Linearizable(h, s');
    assert IsRequestOf(s'.ops[n], s'.txs[s'.ends[n].tx]);
    GoodRefreshGetsSession(h, s, es, s', n);
  }

  /** And as long as no open refresh holds a token of its family, the request for the newest token can
      always run to its end, beside whatever else is open. */
  lemma MintedTokenCanRotate(
    sha: seq<byte> -> Digest, selRaw: seq<byte>, verRaw: seq<byte>, h: Family -> LockKey, s: State, at: Time, now: Time)
    returns (job: Job, es: seq<Event>, s': State, n: nat)
    requires |selRaw| == 16 && |verRaw| == 16 && Reachable(h, s)
    requires var token := NewRefreshToken(sha, selRaw, verRaw);
      && Stored(s.tables, token) && Uncontested(s, token.selector)
      && var row := s.tables.refresh[token.selector];
         && IsTip(s.tables, token.selector, row.family) && !Revoked(s.tables, row.family)
         && now < row.expiresAt && Active(s.users, row.userId)
    ensures job.RefreshJob? && JobFor(sha, NewRefreshToken(sha, selRaw, verRaw).plaintext) == Some(job)
    ensures Run(h, s, [BeginRefresh(job.selector, job.presented, at)] + es, s') && AllDone(s')
    ensures job.selector in s.tables.refresh && Served(s, s', job.selector, n)
  {
    MintedTokenSplits(sha, selRaw, verRaw);
    job := JobFor(sha, NewRefreshToken(sha, selRaw, verRaw).plaintext).value;
    es, s', n := LatestTokenRotates(h, s, job.selector, job.presented, at, now);
  }
}
