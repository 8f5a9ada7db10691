/** The v2 signing payload: six lines joined by LF, injective on everything it accepts. */
module CanonicalPayload {
  import opened Prelude
  import opened Text

  const SIG_V2_TAG := "offline-package-sig-v2"
  const LF := '\n'
  const DIGEST_PREFIX := "sha256:"
  const DIGEST_HEX_LEN: nat := 64

  datatype Fields = Fields(
    version: string, digest: string, minAppVersion: string, fileManifestHash: string, rollbackFloor: string)

  // Why a field is refused, with the offending byte position where there is one.
  datatype Refusal =
    | NonPrintable(field: string, at: nat)
    | NoPrefix
    | WrongLength(n: nat)
    | NonHex(c: char)

  predicate Printable(c: char) {
    0x20 as char <= c <= 0x7e as char
  }

  predicate Hygienic(s: string) {
    forall i :: 0 <= i < |s| ==> Printable(s[i])
  }

  function LowerChar(c: char): char {
    if 'A' <= c <= 'Z' then (c as int + 32) as char else c
  }

  function Lower(s: string): string {
    seq(|s|, i requires 0 <= i < |s| => LowerChar(s[i]))
  }

  predicate HexChar(c: char) {
    '0' <= c <= '9' || 'a' <= c <= 'f' || 'A' <= c <= 'F'
  }

  // "sha256:" and 64 hex digits of either case.
  predicate LegalDigest(d: string) {
    && |d| == 71
    && d[..7] == "sha256:"
    && forall i :: 7 <= i < 71 ==> HexChar(d[i])
  }

  // A legal digest with its hex digits in lower case (its prefix already is).
  function Normal(f: Fields): Fields {
    f.(digest := Lower(f.digest))
  }

  predicate Accepted(f: Fields) {
    && LegalDigest(f.digest)
    && Hygienic(f.version) && Hygienic(f.minAppVersion) && Hygienic(f.fileManifestHash) && Hygienic(f.rollbackFloor)
  }

  // The first of the four guarded fields that carries a byte outside printable ASCII.
  function FirstBadField(f: Fields): Option<string> {
    if !Hygienic(f.version) then Some("version")
    else if !Hygienic(f.minAppVersion) then Some("minAppVersion")
    else if !Hygienic(f.fileManifestHash) then Some("fileManifestHash")
    else if !Hygienic(f.rollbackFloor) then Some("rollbackFloor")
    else None
  }

  function HexValue(c: char): int {
    if '0' <= c <= '9' then c as int - '0' as int
    else if 'a' <= c <= 'f' then c as int - 'a' as int + 10
    else c as int - 'A' as int + 10
  }

  // low is the digest d in lower case: the same prefix, and 64 lower-case hex digits of the same
  // values.
  ghost predicate IsLowered(low: string, d: string) {
    && |low| == |d| == 71 && low[..7] == d[..7] == "sha256:"
    && forall i :: 7 <= i < 71 ==>
      ('0' <= low[i] <= '9' || 'a' <= low[i] <= 'f') && HexValue(low[i]) == HexValue(d[i])
  }

  function Lines(f: Fields): seq<string> {
    [SIG_V2_TAG, f.version, Lower(f.digest), f.minAppVersion, f.fileManifestHash, f.rollbackFloor]
  }

  function Payload(f: Fields): string {
    Join(Lines(f), LF)
  }

  // ---- the code's loops ----

  /** checkFieldHygiene: nil exactly for printable ASCII, otherwise the first offending byte. */
  method CheckFieldHygiene(name: string, value: string) returns (err: Option<Refusal>)
    ensures err.None? <==> forall i :: 0 <= i < |value| ==> 0x20 as char <= value[i] <= 0x7e as char
    ensures err.Some? ==>
      && err.value.NonPrintable? && err.value.field == name && err.value.at < |value|
      && Hygienic(value[..err.value.at]) && !Printable(value[err.value.at])
  {
    for i := 0 to |value|
      invariant forall j :: 0 <= j < i ==> Printable(value[j])
    {
      var c := value[i];
      if c < 0x20 as char || c > 0x7e as char {
        return Some(NonPrintable(name, i));
      }
    }
    err := None;
  }

  lemma DigestParts(d: string)
    requires Hygienic(d)
    ensures LegalDigest(d) <==>
      && DIGEST_PREFIX <= d && |d[|DIGEST_PREFIX|..]| == DIGEST_HEX_LEN
      && forall i :: 0 <= i < |d| - |DIGEST_PREFIX| ==> HexChar(d[|DIGEST_PREFIX|..][i])
    ensures DIGEST_PREFIX <= d ==> DIGEST_PREFIX + Lower(d[|DIGEST_PREFIX|..]) == Lower(d)
  {
    if DIGEST_PREFIX <= d {
      var n := |DIGEST_PREFIX|;
      var tail := d[n..];
      forall i | n <= i < |d| ensures d[i] == tail[i - n] {}
      assert d == DIGEST_PREFIX + tail;
    }
  }

  lemma LegalIsHygienic(d: string)
    requires LegalDigest(d)
    ensures Hygienic(d)
  {
    forall i | 0 <= i < |d| ensures Printable(d[i]) {
      if i < |DIGEST_PREFIX| { assert d[i] == DIGEST_PREFIX[i]; }
    }
  }

  lemma LowerLegal(d: string)
    requires LegalDigest(d)
    ensures IsLowered(Lower(d), d)
  {
    assert forall i :: 0 <= i < 7 ==> d[i] == d[..7][i] == "sha256:"[i];
    assert Lower(d)[..7] == "sha256:";
    forall i | 7 <= i < 71
      ensures ('0' <= Lower(d)[i] <= '9' || 'a' <= Lower(d)[i] <= 'f') && HexValue(Lower(d)[i]) == HexValue(d[i])
    {
      assert HexChar(d[i]);
    }
  }

  /** normalizeDigest: accepts exactly the legal digests and returns them in lower case. */
  method NormalizeDigest(digest: string) returns (r: Result<string, Refusal>)
    ensures r.Ok? <==>
      && |digest| == 71 && digest[..7] == "sha256:"
      && forall i :: 7 <= i < 71 ==>
        '0' <= digest[i] <= '9' || 'a' <= digest[i] <= 'f' || 'A' <= digest[i] <= 'F'
    ensures r.Ok? ==> r.value == Lower(digest) && IsLowered(r.value, digest)
    ensures r.Err? && r.error.NonPrintable? <==> !Hygienic(digest)
    ensures r.Err? && r.error.NoPrefix? <==> Hygienic(digest) && !(DIGEST_PREFIX <= digest)
    ensures r.Err? && r.error.WrongLength? <==>
      Hygienic(digest) && DIGEST_PREFIX <= digest && |digest| != |DIGEST_PREFIX| + DIGEST_HEX_LEN
    ensures r.Err? && r.error.WrongLength? ==> r.error.n == |digest| - |DIGEST_PREFIX|
    ensures r.Err? && r.error.NonHex? ==>
      exists i :: 7 <= i < |digest| && !HexChar(digest[i]) && r.error.c == LowerChar(digest[i])
                  && forall j :: 7 <= j < i ==> HexChar(digest[j])
  {
    var bad := CheckFieldHygiene("digest", digest);
    if bad.Some? {
      if LegalDigest(digest) { LegalIsHygienic(digest); }
      return Err(bad.value);
    }
    DigestParts(digest);
    if !(DIGEST_PREFIX <= digest) { return Err(NoPrefix); }
    var hexPart := digest[|DIGEST_PREFIX|..];
    if |hexPart| != DIGEST_HEX_LEN { return Err(WrongLength(|hexPart|)); }
    var lower := Lower(hexPart);
    for i := 0 to |lower|
      invariant forall j :: 0 <= j < i ==> HexChar(hexPart[j])
    {
      var c := lower[i];
      if !('0' <= c <= '9' || 'a' <= c <= 'f') {
        assert !HexChar(digest[i + 7]) && c == LowerChar(digest[i + 7]);
        assert forall j :: 7 <= j < i + 7 ==> digest[j] == hexPart[j - 7];
        return Err(NonHex(c));
      }
    }
    r := Ok(DIGEST_PREFIX + lower);
    LowerLegal(digest);
  }

  /** BuildCanonicalPayload: bytes exactly for accepted fields, and then exactly the payload. */
  method BuildCanonicalPayload(f: Fields) returns (r: Result<string, Refusal>)
    ensures r.Ok? <==> Accepted(f)
    ensures r.Ok? ==> r.value == Payload(f) && IsText(r.value, f)
    ensures r.Err? && LegalDigest(f.digest) ==>
      r.error.NonPrintable? && FirstBadField(f) == Some(r.error.field)
  {
    var digest := NormalizeDigest(f.digest);
    if digest.Err? { return Err(digest.error); }
    var values := [("version", f.version), ("minAppVersion", f.minAppVersion),
                   ("fileManifestHash", f.fileManifestHash), ("rollbackFloor", f.rollbackFloor)];
    for i := 0 to |values|
      invariant forall j :: 0 <= j < i ==> Hygienic(values[j].1)
    {
      var bad := CheckFieldHygiene(values[i].0, values[i].1);
      if bad.Some? {
        assert i > 0 ==> Hygienic(values[0].1);
        assert i > 1 ==> Hygienic(values[1].1);
        assert i > 2 ==> Hygienic(values[2].1);
        assert !Hygienic(values[i].1) && (i == 0 || i == 1 || i == 2 || i == 3);
        assert FirstBadField(f) == Some(values[i].0);
        return Err(bad.value);
      }
    }
    assert Hygienic(values[0].1) && Hygienic(values[1].1) && Hygienic(values[2].1) && Hygienic(values[3].1);
    r := Ok(Join([SIG_V2_TAG, f.version, digest.value, f.minAppVersion, f.fileManifestHash, f.rollbackFloor], LF));
    PayloadText(f);
  }

  // The bytes, written out: the tag, then version, lower-case digest, minimal app version, file
  // manifest hash and rollback floor, each after one LF.
  ghost predicate IsText(text: string, f: Fields) {
    exists low :: IsLowered(low, f.digest)
      && text == "offline-package-sig-v2" + ("\n" + (f.version + ("\n" + (low + ("\n" + (f.minAppVersion
                 + ("\n" + (f.fileManifestHash + ("\n" + f.rollbackFloor)))))))))
  }

  lemma PayloadText(f: Fields)
    requires Accepted(f)
    ensures IsText(Payload(f), f)
  {
    LowerLegal(f.digest);
    JoinLines(SIG_V2_TAG, f.version, Lower(f.digest), f.minAppVersion, f.fileManifestHash, f.rollbackFloor);
  }

  lemma JoinLines(a: string, b: string, c: string, d: string, e: string, g: string)
    ensures Join([a, b, c, d, e, g], LF)
      == a + ("\n" + (b + ("\n" + (c + ("\n" + (d + ("\n" + (e + ("\n" + g)))))))))
  {
    var p5, p4, p3, p2 := [e, g], [d, e, g], [c, d, e, g], [b, c, d, e, g];
    assert p5[1..] == [g] && p4[1..] == p5 && p3[1..] == p4 && p2[1..] == p3;
    assert [a, b, c, d, e, g][1..] == p2;
    JoinTwo(e, g, p5, [g]);
    JoinTwo(d, Join(p5, LF), p4, p5);
    JoinTwo(c, Join(p4, LF), p3, p4);
    JoinTwo(b, Join(p3, LF), p2, p3);
    JoinTwo(a, Join(p2, LF), [a, b, c, d, e, g], p2);
  }

  lemma JoinTwo(x: string, rest: string, parts: seq<string>, tail: seq<string>)
    requires |parts| >= 2 && parts[0] == x && parts[1..] == tail && Join(tail, LF) == rest
    ensures Join(parts, LF) == x + ("\n" + rest)
  {
  }

  // ---- what the bytes determine ----

  lemma HygienicIsFree(s: string)
    requires Hygienic(s)
    ensures Free(s, LF)
  {
  }

  lemma LinesFree(f: Fields)
    requires Accepted(f)
    ensures forall i :: 0 <= i < 6 ==> Free(Lines(f)[i], LF)
  {
    LegalIsHygienic(f.digest);
    var d := Lower(f.digest);
    forall i | 0 <= i < |d| ensures d[i] != LF {
      assert Printable(f.digest[i]);
    }
    assert Free(d, LF);
    HygienicIsFree(f.version);
    HygienicIsFree(f.minAppVersion);
    HygienicIsFree(f.fileManifestHash);
    HygienicIsFree(f.rollbackFloor);
  }

  /** Splitting an accepted payload at LF recovers its six lines; it holds exactly five LF. */
  lemma PayloadParses(f: Fields)
    requires Accepted(f)
    ensures Split(Payload(f), LF) == Lines(f)
    ensures Count(Payload(f), LF) == 5
    ensures var parts := Split(Payload(f), '\n');
      && |parts| == 6 && parts[0] == "offline-package-sig-v2" && parts[1] == f.version && IsLowered(parts[2], f.digest)
      && parts[3] == f.minAppVersion && parts[4] == f.fileManifestHash && parts[5] == f.rollbackFloor
  {
    LowerLegal(f.digest);
    LinesFree(f);
    SplitJoin(Lines(f), LF);
    JoinSplit(Payload(f), LF);
  }

  /** Injective: two accepted tuples give the same bytes exactly when they are equal once their
      digests are in lower case. */
  lemma PayloadInjective(f: Fields, g: Fields)
    requires Accepted(f) && Accepted(g)
    ensures Payload(f) == Payload(g) <==> Normal(f) == Normal(g)
  {
    PayloadParses(f);
    PayloadParses(g);
    if Payload(f) == Payload(g) {
      var a, b := Lines(f), Lines(g);
      assert a[1] == b[1] && a[2] == b[2] && a[3] == b[3] && a[4] == b[4] && a[5] == b[5];
    }
  }

  lemma OneLineBreak(a: string, b: string)
    requires Free(a, LF) && Free(b, LF)
    ensures Count(a + [LF] + b, LF) == 1
  {
    var parts := [a, b];
    assert parts[1..] == [b];
    assert Join(parts, LF) == a + [LF] + b;
    SplitJoin(parts, LF);
    JoinSplit(a + [LF] + b, LF);
  }

  /** Domain separation: no accepted v2 payload is a v1 payload version LF digest. */
  lemma NeverV1(f: Fields, version: string, digest: string)
    requires Accepted(f) && Free(version, LF) && Free(digest, LF)
    ensures Payload(f) != version + [LF] + digest
  {
    PayloadParses(f);
    OneLineBreak(version, digest);
  }

  /** Normalizing is idempotent and does not change acceptance or the bytes. */
  lemma NormalSamePayload(f: Fields)
    requires Accepted(f)
    ensures Accepted(Normal(f)) && Normal(Normal(f)) == Normal(f) && Payload(Normal(f)) == Payload(f)
  {
    var d := f.digest;
    var n := |DIGEST_PREFIX|;
    assert Lower(d)[..n] == DIGEST_PREFIX by {
      forall i | 0 <= i < n ensures Lower(d)[i] == DIGEST_PREFIX[i] {
        assert d[i] == DIGEST_PREFIX[i];
      }
    }
    forall i | n <= i < |d| ensures HexChar(Lower(d)[i]) {
      assert HexChar(d[i]);
    }
    assert Lower(Lower(d)) == Lower(d);
  }
}
