/** The pieces of Go's strings and fmt packages the codecs use. A char stands for one byte. */
module Text {
  import opened Prelude

  // ---- strings.Split / strings.Join on a one-byte separator ----

  function Split(s: string, c: char): (parts: seq<string>)
    ensures |parts| >= 1
  {
    if s == "" then [""]
    else
      var rest := Split(s[1..], c);
      if s[0] == c then [""] + rest else [[s[0]] + rest[0]] + rest[1..]
  }

  function Join(parts: seq<string>, c: char): string
    requires |parts| >= 1
  {
    if |parts| == 1 then parts[0] else parts[0] + [c] + Join(parts[1..], c)
  }

  function Count(s: string, c: char): nat {
    if s == "" then 0 else (if s[0] == c then 1 else 0) + Count(s[1..], c)
  }

  ghost predicate Free(s: string, c: char) {
    c !in s
  }

  lemma {:induction false} SplitPrefix(p: string, s: string, c: char)
    requires Free(p, c)
    ensures Split(p + s, c) == [p + Split(s, c)[0]] + Split(s, c)[1..]
  {
    if p == "" {
      assert p + s == s && p + Split(s, c)[0] == Split(s, c)[0];
      assert Split(s, c) == [Split(s, c)[0]] + Split(s, c)[1..];
    } else {
      var rest := Split(p[1..] + s, c);
      assert p[0] in p && (p + s)[0] == p[0] && (p + s)[1..] == p[1..] + s;
      SplitPrefix(p[1..], s, c);
      assert rest[1..] == Split(s, c)[1..];
      assert [p[0]] + (p[1..] + Split(s, c)[0]) == p + Split(s, c)[0];
    }
  }

  /** Splitting a join recovers the parts when none of them contains the separator. */
  lemma {:induction false} SplitJoin(parts: seq<string>, c: char)
    requires |parts| >= 1 && forall i :: 0 <= i < |parts| ==> Free(parts[i], c)
    ensures Split(Join(parts, c), c) == parts
  {
    if |parts| == 1 {
      SplitPrefix(parts[0], "", c);
      assert parts[0] + "" == parts[0];
    } else {
      SplitJoin(parts[1..], c);
      var tail := [c] + Join(parts[1..], c);
      assert tail[1..] == Join(parts[1..], c);
      assert parts[0] + [c] + Join(parts[1..], c) == parts[0] + tail;
      SplitPrefix(parts[0], tail, c);
      assert Split(tail, c) == [""] + parts[1..];
      assert parts[0] + "" == parts[0] && parts == [parts[0]] + parts[1..];
    }
  }

  lemma {:induction false} SplitFree(s: string, c: char)
    ensures forall i :: 0 <= i < |Split(s, c)| ==> Free(Split(s, c)[i], c)
    ensures |Split(s, c)| == Count(s, c) + 1
  {
    if s == "" {
    } else {
      SplitFree(s[1..], c);
    }
  }

  // Putting one more character in front of the first part.
  lemma JoinFront(x: char, parts: seq<string>, c: char)
    requires |parts| >= 1
    ensures Join([[x] + parts[0]] + parts[1..], c) == [x] + Join(parts, c)
  {
    var longer := [[x] + parts[0]] + parts[1..];
    assert longer[1..] == parts[1..];
    if |parts| > 1 {
      var tail := [c] + Join(parts[1..], c);
      assert [x] + parts[0] + tail == [x] + (parts[0] + tail);
    }
  }

  lemma {:induction false} JoinsBack(s: string, c: char)
    ensures Join(Split(s, c), c) == s
  {
    if s == "" {
    } else {
      JoinsBack(s[1..], c);
      var rest := Split(s[1..], c);
      assert s == [s[0]] + s[1..];
      if s[0] == c {
        assert ([""] + rest)[1..] == rest;
      } else {
        JoinFront(s[0], rest, c);
      }
    }
  }

  /** Joining a split gives the string back, its parts are free of the separator, and there is
      one more of them than separators. */
  lemma JoinSplit(s: string, c: char)
    ensures Join(Split(s, c), c) == s
    ensures forall i :: 0 <= i < |Split(s, c)| ==> Free(Split(s, c)[i], c)
    ensures |Split(s, c)| == Count(s, c) + 1
  {
    JoinsBack(s, c);
    SplitFree(s, c);
  }

  // strings.Cut: before and after the first c.
  function Cut(s: string, c: char): Option<(string, string)> {
    if s == "" then None
    else if s[0] == c then Some(("", s[1..]))
    else match Cut(s[1..], c)
      case None => None
      case Some(p) => Some(([s[0]] + p.0, p.1))
  }

  lemma {:induction false} CutJoined(a: string, b: string, c: char)
    requires Free(a, c)
    ensures Cut(a + [c] + b, c) == Some((a, b))
  {
    var s := a + [c] + b;
    if a == "" {
      assert s[1..] == b;
    } else {
      assert a[0] in a && s[0] == a[0] && s[1..] == a[1..] + [c] + b;
      CutJoined(a[1..], b, c);
      assert a == [a[0]] + a[1..];
    }
  }

  lemma {:induction false} CutFinds(s: string, c: char)
    requires Cut(s, c).Some?
    ensures var (a, b) := Cut(s, c).value; Free(a, c) && s == a + [c] + b
  {
    if s[0] == c {
      assert s == "" + [c] + s[1..];
    } else {
      CutFinds(s[1..], c);
      var (a, b) := Cut(s[1..], c).value;
      assert s == [s[0]] + s[1..] == ([s[0]] + a) + [c] + b;
    }
  }

  lemma CutIff(s: string, a: string, b: string, c: char)
    ensures Cut(s, c) == Some((a, b)) <==> Free(a, c) && s == a + [c] + b
  {
    if Cut(s, c).Some? { CutFinds(s, c); }
    if Free(a, c) && s == a + [c] + b { CutJoined(a, b, c); }
  }

  // ---- fmt %d ----

  predicate IsDigit(c: char) {
    '0' <= c <= '9'
  }

  function Digit(d: nat): (c: char)
    requires d < 10
    ensures IsDigit(c) && c as int - '0' as int == d
  {
    '0' + d as char
  }

  function Decimal(n: nat): string {
    if n < 10 then [Digit(n)] else Decimal(n / 10) + [Digit(n % 10)]
  }

  function Signed(n: int): string {
    if n < 0 then "-" + Decimal(-n) else Decimal(n)
  }

  function DigitValue(c: char): nat
    requires IsDigit(c)
  {
    c as int - '0' as int
  }

  function ValueOf(ds: string): nat
    requires forall i :: 0 <= i < |ds| ==> IsDigit(ds[i])
  {
    if ds == "" then 0 else 10 * ValueOf(ds[..|ds| - 1]) + DigitValue(ds[|ds| - 1])
  }

  // Length of the leading run of digits, which is what %d consumes.
  function DigitRun(s: string): (n: nat)
    ensures n <= |s| && forall i :: 0 <= i < n ==> IsDigit(s[i])
    ensures n < |s| ==> !IsDigit(s[n])
  {
    if s == "" || !IsDigit(s[0]) then 0 else 1 + DigitRun(s[1..])
  }

  // Scan an unsigned %d into a variable that holds values below `limit`: value and rest.
  function ScanNat(s: string, limit: nat): Option<(nat, string)> {
    var n := DigitRun(s);
    if n == 0 || ValueOf(s[..n]) >= limit then None else Some((ValueOf(s[..n]), s[n..]))
  }

  // Scan a signed %d into a Go int (64 bits).
  const INT64_LIMIT: int := 0x8000_0000_0000_0000

  function ScanInt(s: string): Option<(int, string)> {
    var neg := s != "" && s[0] == '-';
    var body := if s != "" && (s[0] == '-' || s[0] == '+') then s[1..] else s;
    match ScanNat(body, INT64_LIMIT + (if neg then 1 else 0))
    case None => None
    case Some(p) => var v: int := p.0; Some((if neg then -v else v, p.1))
  }

  // A literal of the format string.
  function Literal(s: string, lit: string): Option<string> {
    if lit <= s then Some(s[|lit|..]) else None
  }

  lemma {:induction false} DecimalDigits(n: nat)
    ensures |Decimal(n)| >= 1
    ensures forall i :: 0 <= i < |Decimal(n)| ==> IsDigit(Decimal(n)[i])
    ensures ValueOf(Decimal(n)) == n
  {
    if n >= 10 {
      DecimalDigits(n / 10);
      assert Decimal(n)[..|Decimal(n)| - 1] == Decimal(n / 10);
    } else {
      assert Decimal(n)[..0] == "";
    }
  }

  lemma {:induction false} DigitRunOf(ds: string, rest: string)
    requires forall i :: 0 <= i < |ds| ==> IsDigit(ds[i])
    requires rest == "" || !IsDigit(rest[0])
    ensures DigitRun(ds + rest) == |ds|
  {
    if ds == "" {
      assert ds + rest == rest;
    } else {
      assert (ds + rest)[1..] == ds[1..] + rest;
      DigitRunOf(ds[1..], rest);
    }
  }

  /** Scanning a printed number returns it and what follows. */
  lemma ScanPrinted(n: nat, rest: string, limit: nat)
    requires n < limit && (rest == "" || !IsDigit(rest[0]))
    ensures ScanNat(Decimal(n) + rest, limit) == Some((n, rest))
  {
    DecimalDigits(n);
    DigitRunOf(Decimal(n), rest);
    var s := Decimal(n) + rest;
    assert s[..|Decimal(n)|] == Decimal(n) && s[|Decimal(n)|..] == rest;
  }

  /** Scanning a printed int of Go's int range gives it back, sign included. */
  lemma ScanPrintedInt(n: int)
    requires -INT64_LIMIT <= n < INT64_LIMIT
    ensures ScanInt(Signed(n)) == Some((n, ""))
  {
    var m: nat := if n < 0 then -n else n;
    DecimalDigits(m);
    ScanPrinted(m, "", INT64_LIMIT + (if n < 0 then 1 else 0));
    assert Decimal(m) + "" == Decimal(m);
    assert IsDigit(Decimal(m)[0]);
    if n < 0 { assert Signed(n)[1..] == Decimal(m); }
  }

  lemma LiteralOf(lit: string, rest: string)
    ensures Literal(lit + rest, lit) == Some(rest)
  {
    assert (lit + rest)[|lit|..] == rest;
  }
}
