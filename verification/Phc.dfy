/** The argon2id password-hash string: printing, strict parsing, verification. argon2 itself is
    the parameter `kdf`; only the length of what it returns is assumed. */
module Phc {
  import opened Prelude
  import opened Text
  import opened Base64

  const UINT32: nat := 0x1_0000_0000

  type uint32 = n: nat | n < 0x1_0000_0000
  type uint8 = n: nat | n < 256

  datatype Params = Params(
    memory: uint32, iterations: uint32, parallelism: uint8, saltLength: uint32, keyLength: uint32)

  const CURRENT := Params(19456, 2, 1, 16, 32)
  const PHC_ALGO := "argon2id"
  const ARGON2_VERSION := 19
  const MAX_MEMORY_KIB := 1048576
  const MAX_ITERATIONS := 64
  const MAX_PARALLELISM := 16

  datatype HashError = InvalidFormat | IncompatibleAlgo | IncompatibleVersion

  datatype Decoded = Decoded(params: Params, salt: seq<byte>, key: seq<byte>)

  // argon2.IDKey(password, salt, time, memory, threads, keyLen)
  type Kdf = (string, seq<byte>, uint32, uint32, uint8, uint32) -> seq<byte>

  ghost predicate IsKdf(kdf: Kdf) {
    forall pw, salt, t, m, p, n :: |kdf(pw, salt, t, m, p, n)| == n
  }

  function Derive(kdf: Kdf, password: string, salt: seq<byte>, p: Params): seq<byte> {
    kdf(password, salt, p.iterations, p.memory, p.parallelism, p.keyLength)
  }

  // ---- encode ----

  function VersionSegment(v: int): string {
    "v=" + Signed(v)
  }

  function ParamSegment(m: nat, t: nat, p: nat): string {
    "m=" + (Decimal(m) + (",t=" + (Decimal(t) + (",p=" + Decimal(p)))))
  }

  function Render(p: Params, salt: seq<byte>, key: seq<byte>): string {
    "$" + (PHC_ALGO + "$" + (VersionSegment(ARGON2_VERSION) + "$"
    + (ParamSegment(p.memory, p.iterations, p.parallelism) + "$"
    + (Encode(Std, salt) + "$" + Encode(Std, key)))))
  }

  function EncodeHash(kdf: Kdf, password: string, salt: seq<byte>, p: Params): string {
    Render(p, salt, Derive(kdf, password, salt, p))
  }

  function Hash(kdf: Kdf, password: string, salt: seq<byte>): string {
    EncodeHash(kdf, password, salt, CURRENT)
  }

  // ---- decode ----

  // Sscanf(s, "v=%d"): what follows the number is ignored here.
  function ScanVersion(s: string): Option<int> {
    match Literal(s, "v=")
    case None => None
    case Some(r) => match ScanInt(r)
      case None => None
      case Some(p) => Some(p.0)
  }

  // One "<literal>%d" of a format string: the number and what follows it.
  function ScanField(s: string, lit: string, limit: nat): (r: Option<(nat, string)>)
    ensures r.Some? ==> r.value.0 < limit
  {
    match Literal(s, lit)
    case None => None
    case Some(rest) => ScanNat(rest, limit)
  }

  // Sscanf(s, "m=%d,t=%d,p=%d") into uint32, uint32, uint8.
  function ScanParams(s: string): (r: Option<(nat, nat, nat)>)
    ensures r.Some? ==> r.value.0 < UINT32 && r.value.1 < UINT32 && r.value.2 < 256
  {
    match ScanField(s, "m=", UINT32)
    case None => None
    case Some(m) => match ScanField(m.1, ",t=", UINT32)
      case None => None
      case Some(t) => match ScanField(t.1, ",p=", 256)
        case None => None
        case Some(p) => Some((m.0, t.0, p.0))
  }

  predicate InRange(m: nat, t: nat, p: nat) {
    && 8 * p <= m <= 1_048_576
    && 1 <= t <= 64
    && 1 <= p <= 16
  }

  function DecodeTail(m: uint32, t: uint32, p: uint8, saltText: string, keyText: string): Result<Decoded, HashError> {
    if m < 8 * p || t < 1 || p < 1 then Err(InvalidFormat)
    else if m > MAX_MEMORY_KIB || t > MAX_ITERATIONS || p > MAX_PARALLELISM then Err(InvalidFormat)
    else match Decode(Std, saltText)
      case None => Err(InvalidFormat)
      case Some(salt) =>
        if salt == [] then Err(InvalidFormat)
        else match Decode(Std, keyText)
          case None => Err(InvalidFormat)
          case Some(key) =>
            if key == [] then Err(InvalidFormat)
            else Ok(Decoded(Params(m, t, p, |salt| % UINT32, |key| % UINT32), salt, key))
  }

  function DecodeCosts(costs: string, saltText: string, keyText: string): Result<Decoded, HashError> {
    match ScanParams(costs)
    case None => Err(InvalidFormat)
    case Some(n) =>
      if costs != ParamSegment(n.0, n.1, n.2) then Err(InvalidFormat)
      else DecodeTail(n.0, n.1, n.2, saltText, keyText)
  }

  function DecodeHash(phc: string): Result<Decoded, HashError> {
    var parts := Split(phc, '$');
    if |parts| != 6 || parts[0] != "" then Err(InvalidFormat)
    else if parts[1] != PHC_ALGO then Err(IncompatibleAlgo)
    else match ScanVersion(parts[2])
      case None => Err(InvalidFormat)
      case Some(v) =>
        if parts[2] != VersionSegment(v) then Err(InvalidFormat)
        else if v != ARGON2_VERSION then Err(IncompatibleVersion)
        else DecodeCosts(parts[3], parts[4], parts[5])
  }

  function Verify(kdf: Kdf, password: string, phc: string): Result<bool, HashError> {
    match DecodeHash(phc)
    case Err(e) => Err(e)
    case Ok(d) => Ok(Derive(kdf, password, d.salt, d.params) == d.key)
  }

  // argon2 computations one Verify performs.
  function VerifyWork(phc: string): nat {
    if DecodeHash(phc).Ok? then 1 else 0
  }

  function Weak(r: Result<Decoded, HashError>): bool {
    match r
    case Err(_) => true
    case Ok(d) =>
      || d.params.memory < CURRENT.memory
      || d.params.iterations < CURRENT.iterations
      || d.params.parallelism < CURRENT.parallelism
      || d.params.saltLength < CURRENT.saltLength
      || d.params.keyLength < CURRENT.keyLength
  }

  function NeedsRehash(phc: string): bool {
    Weak(DecodeHash(phc))
  }

  // ---- the accepted language ----

  function Segments(m: nat, t: nat, p: nat, saltText: string, keyText: string): seq<string> {
    ["", "argon2id", "v=19", ParamSegment(m, t, p), saltText, keyText]
  }

  lemma Nineteen()
    ensures VersionSegment(ARGON2_VERSION) == "v=19"
    ensures ScanVersion("v=19") == Some(19)
  {
    assert Decimal(1) == "1";
    assert Decimal(19) == Decimal(1) + "9" == "19";
    ScanPrintedInt(19);
    LiteralOf("v=", "19");
    assert "v=" + "19" == "v=19";
  }

  lemma FieldPrinted(lit: string, n: nat, rest: string, limit: nat)
    requires n < limit && (rest == "" || !IsDigit(rest[0]))
    ensures ScanField(lit + (Decimal(n) + rest), lit, limit) == Some((n, rest))
  {
    LiteralOf(lit, Decimal(n) + rest);
    ScanPrinted(n, rest, limit);
  }

  /** Scanning a printed parameter segment gives its three numbers. */
  lemma ScanPrintedParams(m: nat, t: nat, p: nat)
    requires m < UINT32 && t < UINT32 && p < 256
    ensures ScanParams(ParamSegment(m, t, p)) == Some((m, t, p))
  {
    var s3 := ",p=" + Decimal(p);
    var s2 := ",t=" + (Decimal(t) + s3);
    FieldPrinted("m=", m, s2, UINT32);
    FieldPrinted(",t=", t, s3, UINT32);
    FieldPrinted(",p=", p, "", 256);
    assert Decimal(p) + "" == Decimal(p);
  }

  lemma DigitsFree(n: nat, c: char)
    requires !IsDigit(c)
    ensures Free(Decimal(n), c)
  {
    DecimalDigits(n);
  }

  lemma SegmentsFree(m: nat, t: nat, p: nat, saltText: string, keyText: string)
    requires Free(saltText, '$') && Free(keyText, '$')
    ensures forall i :: 0 <= i < 6 ==> Free(Segments(m, t, p, saltText, keyText)[i], '$')
  {
    DigitsFree(m, '$');
    DigitsFree(t, '$');
    DigitsFree(p, '$');
    var ps := Segments(m, t, p, saltText, keyText);
    assert Free(ps[3], '$');
  }

  // A string that splits into these parts passes the version check.
  lemma DecodeParts(s: string, parts: seq<string>)
    requires Split(s, '$') == parts && |parts| == 6
    requires parts[0] == "" && parts[1] == PHC_ALGO && parts[2] == "v=19"
    ensures DecodeHash(s) == DecodeCosts(parts[3], parts[4], parts[5])
  {
    Nineteen();
  }

  lemma DecodeCostSegment(m: nat, t: nat, p: nat, saltText: string, keyText: string)
    requires m < UINT32 && t < UINT32 && p < 256
    ensures DecodeCosts(ParamSegment(m, t, p), saltText, keyText) == DecodeTail(m, t, p, saltText, keyText)
  {
    ScanPrintedParams(m, t, p);
  }

  /** Assembling six good segments and decoding is decoding the numbers and the two base64 texts. */
  lemma DecodeAssembled(m: nat, t: nat, p: nat, saltText: string, keyText: string)
    requires m < UINT32 && t < UINT32 && p < 256 && Free(saltText, '$') && Free(keyText, '$')
    ensures DecodeHash(Join(Segments(m, t, p, saltText, keyText), '$')) == DecodeTail(m, t, p, saltText, keyText)
  {
    SegmentsFree(m, t, p, saltText, keyText);
    var parts := Segments(m, t, p, saltText, keyText);
    SplitJoin(parts, '$');
    DecodeParts(Join(parts, '$'), parts);
    DecodeCostSegment(m, t, p, saltText, keyText);
  }

  // s is the canonical string for these numbers around some spelling of salt and key.
  ghost predicate Canonical(s: string, d: Decoded) {
    exists saltText, keyText ::
      && Spells(saltText, d.salt) && Spells(keyText, d.key)
      && s == Join(Segments(d.params.memory, d.params.iterations, d.params.parallelism, saltText, keyText), '$')
  }

  ghost predicate WellFormed(d: Decoded) {
    && InRange(d.params.memory, d.params.iterations, d.params.parallelism)
    && d.salt != [] && d.key != []
    && d.params.saltLength == |d.salt| % UINT32 && d.params.keyLength == |d.key| % UINT32
  }

  lemma CostsCanonical(costs: string, saltText: string, keyText: string, d: Decoded)
    requires DecodeCosts(costs, saltText, keyText) == Ok(d)
    ensures costs == ParamSegment(d.params.memory, d.params.iterations, d.params.parallelism)
    ensures DecodeTail(d.params.memory, d.params.iterations, d.params.parallelism, saltText, keyText) == Ok(d)
  {
    var n := ScanParams(costs).value;
    TailNumbers(n.0, n.1, n.2, saltText, keyText, d);
  }

  lemma TailNumbers(m: uint32, t: uint32, p: uint8, saltText: string, keyText: string, d: Decoded)
    requires DecodeTail(m, t, p, saltText, keyText) == Ok(d)
    ensures d.params.memory == m && d.params.iterations == t && d.params.parallelism == p
  {
  }

  lemma HeadCanonical(s: string, d: Decoded)
    requires DecodeHash(s) == Ok(d)
    ensures var parts := Split(s, '$');
      && |parts| == 6 && parts[0] == "" && parts[1] == PHC_ALGO && parts[2] == VersionSegment(ARGON2_VERSION)
      && DecodeCosts(parts[3], parts[4], parts[5]) == Ok(d)
  {
  }

  lemma AcceptedSegments(s: string, d: Decoded)
    requires DecodeHash(s) == Ok(d)
    ensures var parts := Split(s, '$');
      && |parts| == 6
      && parts == Segments(d.params.memory, d.params.iterations, d.params.parallelism, parts[4], parts[5])
      && DecodeTail(d.params.memory, d.params.iterations, d.params.parallelism, parts[4], parts[5]) == Ok(d)
  {
    HeadCanonical(s, d);
    var parts := Split(s, '$');
    CostsCanonical(parts[3], parts[4], parts[5], d);
    PartsCanonical(parts, d);
  }

  lemma PartsCanonical(parts: seq<string>, d: Decoded)
    requires |parts| == 6 && parts[0] == "" && parts[1] == PHC_ALGO && parts[2] == VersionSegment(ARGON2_VERSION)
    requires parts[3] == ParamSegment(d.params.memory, d.params.iterations, d.params.parallelism)
    ensures parts == Segments(d.params.memory, d.params.iterations, d.params.parallelism, parts[4], parts[5])
  {
    Nineteen();
    SixParts(parts);
  }

  lemma SixParts(parts: seq<string>)
    requires |parts| == 6
    ensures parts == [parts[0], parts[1], parts[2], parts[3], parts[4], parts[5]]
  {
  }

  lemma TailAccepts(d: Decoded, saltText: string, keyText: string)
    requires DecodeTail(d.params.memory, d.params.iterations, d.params.parallelism, saltText, keyText) == Ok(d)
    ensures WellFormed(d) && Decode(Std, saltText) == Some(d.salt) && Decode(Std, keyText) == Some(d.key)
  {
  }

  /** Exactly the accepted strings: version 19 and the parameters in the one canonical spelling,
      the numbers in range, and two non-empty base64 texts. */
  lemma AcceptedIff(s: string, d: Decoded)
    ensures DecodeHash(s) == Ok(d) <==> WellFormed(d) && Canonical(s, d)
  {
    if DecodeHash(s) == Ok(d) {
      var parts := Split(s, '$');
      JoinSplit(s, '$');
      AcceptedSegments(s, d);
      TailAccepts(d, parts[4], parts[5]);
      assert Free(parts[4], '$') && Free(parts[5], '$');
      assert Spells(parts[4], d.salt) && Spells(parts[5], d.key);
    }
    if WellFormed(d) && Canonical(s, d) {
      var saltText, keyText :|
        && Spells(saltText, d.salt) && Spells(keyText, d.key)
        && s == Join(Segments(d.params.memory, d.params.iterations, d.params.parallelism, saltText, keyText), '$');
      DecodeAssembled(d.params.memory, d.params.iterations, d.params.parallelism, saltText, keyText);
    }
  }

  // A base64 text of these bytes that can stand between two '$'.
  ghost predicate Spells(text: string, b: seq<byte>) {
    Free(text, '$') && Decode(Std, text) == Some(b)
  }

  lemma EncodingSpells(b: seq<byte>)
    ensures Spells(Encode(Std, b), b)
  {
    DecodeEncode(Std, b);
    var s := Encode(Std, b);
    forall i | 0 <= i < |s| ensures s[i] != '$' {
      assert Value(Std, s[i]).Some?;
    }
  }

  lemma JoinSix(a: string, b: string, c: string, d: string, e: string, f: string)
    ensures Join([a, b, c, d, e, f], '$') == a + "$" + (b + "$" + (c + "$" + (d + "$" + (e + "$" + f))))
  {
    assert [a, b, c, d, e, f][1..] == [b, c, d, e, f];
    assert [b, c, d, e, f][1..] == [c, d, e, f];
    assert [c, d, e, f][1..] == [d, e, f];
    assert [d, e, f][1..] == [e, f];
    assert [e, f][1..] == [f];
    assert Join([e, f], '$') == e + "$" + f;
    assert Join([d, e, f], '$') == d + "$" + Join([e, f], '$');
    assert Join([c, d, e, f], '$') == c + "$" + Join([d, e, f], '$');
    assert Join([b, c, d, e, f], '$') == b + "$" + Join([c, d, e, f], '$');
  }

  lemma RenderIsJoin(p: Params, salt: seq<byte>, key: seq<byte>)
    ensures Render(p, salt, key)
         == Join(Segments(p.memory, p.iterations, p.parallelism, Encode(Std, salt), Encode(Std, key)), '$')
  {
    Nineteen();
    var costs := ParamSegment(p.memory, p.iterations, p.parallelism);
    JoinSix("", PHC_ALGO, "v=19", costs, Encode(Std, salt), Encode(Std, key));
    assert "" + "$" == "$";
  }

  lemma ScanPrintedVersion(v: int)
    requires -INT64_LIMIT <= v < INT64_LIMIT
    ensures ScanVersion(VersionSegment(v)) == Some(v)
  {
    LiteralOf("v=", Signed(v));
    ScanPrintedInt(v);
  }

  lemma ScannedVersionIsInt(s: string)
    requires ScanVersion(s).Some?
    ensures -INT64_LIMIT <= ScanVersion(s).value < INT64_LIMIT
  {
  }

  // The segment is the canonical print of a 64-bit version other than 19.
  ghost predicate OtherVersion(s: string) {
    exists v :: -INT64_LIMIT <= v < INT64_LIMIT && v != 19 && s == VersionSegment(v)
  }

  /** Which error a rejected string gets: another algorithm id, a well-printed other version, and
      invalid format for everything else. */
  lemma ErrorKinds(s: string)
    ensures var parts := Split(s, '$');
      && (DecodeHash(s) == Err(IncompatibleAlgo) <==> |parts| == 6 && parts[0] == "" && parts[1] != "argon2id")
      && (DecodeHash(s) == Err(IncompatibleVersion) <==>
            |parts| == 6 && parts[0] == "" && parts[1] == "argon2id" && OtherVersion(parts[2]))
  {
    var parts := Split(s, '$');
    if |parts| == 6 && parts[0] == "" && parts[1] == PHC_ALGO {
      VersionVerdict(parts[2]);
      CostErrors(parts[3], parts[4], parts[5]);
    }
  }

  lemma VersionVerdict(s: string)
    ensures OtherVersion(s) <==>
      ScanVersion(s).Some? && s == VersionSegment(ScanVersion(s).value) && ScanVersion(s).value != ARGON2_VERSION
  {
    if ScanVersion(s).Some? { ScannedVersionIsInt(s); }
    forall v | -INT64_LIMIT <= v < INT64_LIMIT && s == VersionSegment(v) ensures ScanVersion(s) == Some(v) {
      ScanPrintedVersion(v);
    }
  }

  lemma CostErrors(costs: string, saltText: string, keyText: string)
    ensures DecodeCosts(costs, saltText, keyText).Err? ==> DecodeCosts(costs, saltText, keyText).error == InvalidFormat
  {
  }

  // The fields themselves when the costs are in range and neither part is empty.
  function Faithful(p: Params, salt: seq<byte>, key: seq<byte>): Result<Decoded, HashError> {
    if InRange(p.memory, p.iterations, p.parallelism) && salt != [] && key != []
    then Ok(Decoded(p.(saltLength := |salt| % UINT32, keyLength := |key| % UINT32), salt, key))
    else Err(InvalidFormat)
  }

  /** Round trip on all parameters: a rendered hash decodes to the same costs, salt and key when
      the costs are in range and neither part is empty, and is rejected otherwise. */
  lemma RoundTrip(p: Params, salt: seq<byte>, key: seq<byte>)
    ensures DecodeHash(Render(p, salt, key)) == Faithful(p, salt, key)
  {
    RenderIsJoin(p, salt, key);
    EncodingSpells(salt);
    EncodingSpells(key);
    DecodeAssembled(p.memory, p.iterations, p.parallelism, Encode(Std, salt), Encode(Std, key));
  }

  /** Whatever spelling was accepted, re-encoding what it decoded to decodes to the same. */
  lemma ReencodeStable(s: string)
    requires DecodeHash(s).Ok?
    ensures var d := DecodeHash(s).value; DecodeHash(Render(d.params, d.salt, d.key)) == Ok(d)
  {
    var d := DecodeHash(s).value;
    AcceptedIff(s, d);
    RoundTrip(d.params, d.salt, d.key);
  }

  // ---- Hash, Verify, NeedsRehash ----

  /** The text of a fresh hash, byte by byte but for the two base64 parts. */
  lemma HashText(kdf: Kdf, password: string, salt: seq<byte>)
    ensures Hash(kdf, password, salt)
         == "$argon2id$v=19$m=19456,t=2,p=1$" + (Encode(Std, salt)
            + "$" + Encode(Std, kdf(password, salt, 2, 19456, 1, 32)))
  {
    Nineteen();
    CurrentCosts();
    var tail := Encode(Std, salt) + "$" + Encode(Std, kdf(password, salt, 2, 19456, 1, 32));
    Prefixed(tail);
  }

  lemma CurrentCosts()
    ensures ParamSegment(19456, 2, 1) == "m=19456,t=2,p=1"
  {
    Memory(19456, 1945, 194, 19, 1);
    assert Decimal(1) == "1" && Decimal(2) == "2";
    CostText("19456", "2", "1");
  }

  lemma CostText(m: string, t: string, p: string)
    requires m == "19456" && t == "2" && p == "1"
    ensures "m=" + (m + (",t=" + (t + (",p=" + p)))) == "m=19456,t=2,p=1"
  {
  }

  // The numbers are parameters so that the verifier prints one digit at a time.
  lemma Memory(a: nat, b: nat, c: nat, d: nat, e: nat)
    requires a == 19456 && b == 1945 && c == 194 && d == 19 && e == 1
    ensures Decimal(a) == "19456"
  {
    OneMoreDigit(a, b, '6');
    OneMoreDigit(b, c, '5');
    OneMoreDigit(c, d, '4');
    OneMoreDigit(d, e, '9');
    assert Decimal(e) == "1";
  }

  lemma OneMoreDigit(n: nat, high: nat, low: char)
    requires n >= 10 && n / 10 == high && Digit(n % 10) == low
    ensures Decimal(n) == Decimal(high) + [low]
  {
  }

  lemma Prefixed(tail: string)
    ensures "$" + ("argon2id" + "$" + ("v=19" + "$" + ("m=19456,t=2,p=1" + "$" + tail)))
         == "$argon2id$v=19$m=19456,t=2,p=1$" + tail
  {
  }

  /** What Verify compares, for every stored string that parses: argon2 of the presented password, the
      stored salt and the stored costs, with the stored key. An unparseable string is an error, and
      nothing is computed. */
  lemma VerifyCompares(kdf: Kdf, password: string, phc: string)
    ensures var d := DecodeHash(phc);
      Verify(kdf, password, phc) ==
        if d.Err? then Err(d.error)
        else Ok(kdf(password, d.value.salt, d.value.params.iterations, d.value.params.memory,
                    d.value.params.parallelism, d.value.params.keyLength) == d.value.key)
    ensures VerifyWork(phc) == if DecodeHash(phc).Ok? then 1 else 0
  {
  }

  /** Verifying against a fresh hash accepts exactly the passwords argon2 does not tell apart from
      the hashed one, at 2 iterations, 19456 KiB, one lane and 32 bytes; in particular the password
      itself. */
  lemma VerifyHash(kdf: Kdf, password: string, attempt: string, salt: seq<byte>)
    requires IsKdf(kdf) && |salt| == 16
    ensures Verify(kdf, attempt, Hash(kdf, password, salt))
         == Ok(kdf(attempt, salt, 2, 19456, 1, 32) == kdf(password, salt, 2, 19456, 1, 32))
    ensures Verify(kdf, password, Hash(kdf, password, salt)) == Ok(true)
    ensures VerifyWork(Hash(kdf, password, salt)) == 1
  {
    RoundTrip(CURRENT, salt, Derive(kdf, password, salt, CURRENT));
  }

  predicate BelowCurrent(p: Params) {
    p.memory < 19456 || p.iterations < 2 || p.parallelism < 1 || p.saltLength < 16 || p.keyLength < 32
  }

  lemma WeakIff(p: Params, salt: seq<byte>, key: seq<byte>)
    requires |salt| == p.saltLength && |key| == p.keyLength
    ensures Weak(Faithful(p, salt, key)) <==>
      || !InRange(p.memory, p.iterations, p.parallelism) || p.saltLength == 0 || p.keyLength == 0
      || BelowCurrent(p)
  {
  }

  lemma DeriveLength(kdf: Kdf, password: string, salt: seq<byte>, p: Params)
    requires IsKdf(kdf)
    ensures |Derive(kdf, password, salt, p)| == p.keyLength
  {
  }

  /** A stored hash needs rehashing exactly when it does not parse or some knob is below current. */
  lemma RehashIff(kdf: Kdf, password: string, salt: seq<byte>, p: Params)
    requires IsKdf(kdf) && |salt| == p.saltLength
    ensures NeedsRehash(EncodeHash(kdf, password, salt, p)) <==>
      || !InRange(p.memory, p.iterations, p.parallelism) || p.saltLength == 0 || p.keyLength == 0
      || BelowCurrent(p)
  {
    var key := Derive(kdf, password, salt, p);
    RoundTrip(p, salt, key);
    DeriveLength(kdf, password, salt, p);
    WeakIff(p, salt, key);
  }
}
