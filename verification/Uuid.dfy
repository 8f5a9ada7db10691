/** UUIDs as 16 bytes: the v4 family generator and the 8-4-4-4-12 printer. */
module Uuid {
  import opened Prelude

  type uuid = b: seq<byte> | |b| == 16 witness seq(16, _ => 0)

  function HexDigit(d: int): char
    requires 0 <= d < 16
  {
    if d < 10 then '0' + d as char else 'a' + (d - 10) as char
  }

  function HexByte(b: byte): string {
    [HexDigit(b / 16), HexDigit(b % 16)]
  }

  function Hex(bs: seq<byte>): string {
    if bs == [] then "" else HexByte(bs[0]) + Hex(bs[1..])
  }

  // The canonical form: 8-4-4-4-12 hex digits.
  function Canonical(u: uuid): string {
    Hex(u[..4]) + ("-" + Hex(u[4..6])) + ("-" + Hex(u[6..8])) + ("-" + Hex(u[8..10])) + ("-" + Hex(u[10..]))
  }

  // ---- the printer ----

  predicate DashBefore(i: nat) {
    i == 4 || i == 6 || i == 8 || i == 10
  }

  // What has been written once i bytes are done.
  function Written(u: uuid, i: nat): string
    requires i <= 16
  {
    if i == 0 then ""
    else Written(u, i - 1) + (if DashBefore(i - 1) then "-" else "") + HexByte(u[i - 1])
  }

  // Characters written once i bytes are done.
  function Position(i: nat): nat {
    2 * i + (if i > 4 then 1 else 0) + (if i > 6 then 1 else 0) + (if i > 8 then 1 else 0) + (if i > 10 then 1 else 0)
  }

  lemma TwoPut(before: seq<char>, after: seq<char>, pos: nat, x: char, y: char)
    requires pos + 2 <= |before| == |after| && after == before[pos := x][pos + 1 := y]
    ensures after[..pos + 2] == before[..pos] + [x, y]
  {
  }

  /** uuidToString: the buffer ends up holding exactly the canonical form. */
  method UuidToString(u: uuid) returns (s: string)
    ensures s == Canonical(u) && |s| == 36
  {
    var out := new char[36](_ => '\0');
    var pos := 0;
    for i := 0 to |u|
      invariant pos == Position(i) <= 36
      invariant out[..pos] == Written(u, i)
    {
      if DashBefore(i) {
        out[pos] := '-';
        assert out[..pos + 1] == Written(u, i) + "-";
        pos := pos + 1;
      }
      assert pos + 2 == Position(i + 1) <= 36;
      ghost var before := out[..];
      out[pos], out[pos + 1] := HexDigit(u[i] / 16), HexDigit(u[i] % 16);
      TwoPut(before, out[..], pos, HexDigit(u[i] / 16), HexDigit(u[i] % 16));
      assert out[..pos + 2] == before[..pos] + HexByte(u[i]);
      pos := pos + 2;
    }
    assert out[..36] == out[..];
    s := out[..];
    WrittenIsCanonical(u, pos - 20);
  }

  lemma {:induction false} HexSnoc(bs: seq<byte>, b: byte)
    ensures Hex(bs + [b]) == Hex(bs) + HexByte(b)
  {
    if bs == [] {
      assert bs + [b] == [b];
    } else {
      assert (bs + [b])[1..] == bs[1..] + [b];
      HexSnoc(bs[1..], b);
    }
  }

  // A dash-free stretch of bytes lo .. hi after what was written before it.
  lemma {:induction false} Stretch(u: uuid, lo: nat, hi: nat)
    requires lo < hi <= 16 && forall i :: lo < i < hi ==> !DashBefore(i)
    ensures Written(u, hi) == Written(u, lo) + ((if DashBefore(lo) then "-" else "") + Hex(u[lo..hi]))
    decreases hi
  {
    var w, x := Written(u, lo), if DashBefore(lo) then "-" else "";
    if hi == lo + 1 {
      assert u[lo..hi] == [u[lo]];
      HexOne(u[lo]);
      Regroup(w, x, HexByte(u[lo]), "");
    } else {
      Stretch(u, lo, hi - 1);
      HexSlice(u, lo, hi - 1);
      Regroup(w, x, Hex(u[lo..hi - 1]), HexByte(u[hi - 1]));
      WrittenNext(u, hi - 1);
    }
  }

  lemma Regroup(w: string, x: string, a: string, b: string)
    ensures w + (x + a) + b == w + (x + (a + b)) && w + x + a == w + (x + a) && a + "" == a
  {
  }

  lemma WrittenNext(u: uuid, i: nat)
    requires i < 16 && !DashBefore(i)
    ensures Written(u, i + 1) == Written(u, i) + HexByte(u[i])
  {
    assert Written(u, i) + "" == Written(u, i);
  }

  lemma HexOne(b: byte)
    ensures Hex([b]) == HexByte(b)
  {
    assert HexByte(b) + "" == HexByte(b);
  }

  lemma HexSlice(bs: seq<byte>, lo: nat, n: nat)
    requires lo <= n < |bs|
    ensures Hex(bs[lo..n + 1]) == Hex(bs[lo..n]) + HexByte(bs[n])
  {
    assert bs[lo..n + 1] == bs[lo..n] + [bs[n]];
    HexSnoc(bs[lo..n], bs[n]);
  }

  // The end points are parameters so that the verifier does not unroll sixteen bytes.
  lemma FiveGroups(u: uuid, z: nat, a: nat, b: nat, c: nat, d: nat, e: nat)
    requires z == 0 && a == 4 && b == 6 && c == 8 && d == 10 && e == 16
    ensures Written(u, e)
      == Hex(u[z..a]) + ("-" + Hex(u[a..b])) + ("-" + Hex(u[b..c])) + ("-" + Hex(u[c..d])) + ("-" + Hex(u[d..e]))
  {
    Stretch(u, z, a);
    assert Written(u, z) + ("" + Hex(u[z..a])) == Hex(u[z..a]);
    Stretch(u, a, b);
    Stretch(u, b, c);
    Stretch(u, c, d);
    Stretch(u, d, e);
  }

  lemma WrittenIsCanonical(u: uuid, n: nat)
    requires n == 16
    ensures Written(u, n) == Canonical(u)
  {
    FiveGroups(u, 0, 4, 6, 8, 10, n);
    assert u[0..4] == u[..4] && u[10..n] == u[10..];
  }

  // ---- reading it back ----

  function Undash(s: string): string {
    if s == "" then "" else (if s[0] == '-' then "" else [s[0]]) + Undash(s[1..])
  }

  function HexValue(c: char): int {
    if '0' <= c <= '9' then c as int - '0' as int else c as int - 'a' as int + 10
  }

  function Unhex(s: string): seq<int> {
    if |s| < 2 then [] else [HexValue(s[0]) * 16 + HexValue(s[1])] + Unhex(s[2..])
  }

  lemma {:induction false} UndashAppend(a: string, b: string)
    ensures Undash(a + b) == Undash(a) + Undash(b)
  {
    if a == "" {
      assert a + b == b;
    } else {
      assert (a + b)[1..] == a[1..] + b;
      UndashAppend(a[1..], b);
    }
  }

  lemma {:induction false} UndashPlain(s: string)
    requires '-' !in s
    ensures Undash(s) == s
  {
    if s == "" {
    } else {
      UndashPlain(s[1..]);
      assert s == [s[0]] + s[1..];
    }
  }

  lemma {:induction false} HexIsPlain(bs: seq<byte>)
    ensures '-' !in Hex(bs)
  {
    if bs == [] {
    } else {
      HexIsPlain(bs[1..]);
    }
  }

  lemma UndashHex(bs: seq<byte>)
    ensures Undash(Hex(bs)) == Hex(bs)
  {
    HexIsPlain(bs);
    UndashPlain(Hex(bs));
  }

  lemma {:induction false} HexAppend(a: seq<byte>, b: seq<byte>)
    ensures Hex(a + b) == Hex(a) + Hex(b)
  {
    if a == [] {
      assert a + b == b;
    } else {
      assert (a + b)[1..] == a[1..] + b;
      HexAppend(a[1..], b);
    }
  }

  lemma {:induction false} UnhexHex(bs: seq<byte>)
    ensures Unhex(Hex(bs)) == bs
  {
    if bs == [] {
    } else {
      UnhexHex(bs[1..]);
      assert Hex(bs)[2..] == Hex(bs[1..]);
      assert bs == [bs[0]] + bs[1..];
    }
  }

  lemma UndashDash(h: string)
    ensures Undash("-" + h) == Undash(h)
  {
    assert ("-" + h)[1..] == h;
  }

  lemma UndashGroup(x: string, bs: seq<byte>)
    ensures Undash(x + ("-" + Hex(bs))) == Undash(x) + Hex(bs)
  {
    var h := Hex(bs);
    UndashHex(bs);
    UndashDash(h);
    UndashAppend(x, "-" + h);
  }

  /** The printed form determines the UUID: dropping the dashes and reading the hex gives back
      its 16 bytes. */
  lemma CanonicalReadsBack(u: uuid)
    ensures Unhex(Undash(Canonical(u))) == u
  {
    var a, b, c, d, e := u[..4], u[4..6], u[6..8], u[8..10], u[10..];
    var t1 := Hex(a) + ("-" + Hex(b));
    var t2 := t1 + ("-" + Hex(c));
    var t3 := t2 + ("-" + Hex(d));
    UndashHex(a);
    UndashGroup(Hex(a), b);
    UndashGroup(t1, c);
    UndashGroup(t2, d);
    UndashGroup(t3, e);
    HexAppend(a, b);
    HexAppend(a + b, c);
    HexAppend(a + b + c, d);
    HexAppend(a + b + c + d, e);
    assert u == a + b + c + d + e;
    UnhexHex(u);
  }

  lemma {:induction false} HexLength(bs: seq<byte>)
    ensures |Hex(bs)| == 2 * |bs|
  {
    if bs == [] {
    } else {
      HexLength(bs[1..]);
    }
  }

  /** The shape of the printed form: dashes at 8, 13, 18 and 23, five runs of lower-case hex digits of
      8, 4, 4, 4 and 12 between them. */
  lemma CanonicalShape(u: uuid)
    ensures var s := Canonical(u);
      && |s| == 36 && s[8] == s[13] == s[18] == s[23] == '-'
      && s[..8] == Hex(u[..4]) && s[9..13] == Hex(u[4..6]) && s[14..18] == Hex(u[6..8])
      && s[19..23] == Hex(u[8..10]) && s[24..] == Hex(u[10..])
  {
    HexLength(u[..4]);
    HexLength(u[4..6]);
    HexLength(u[6..8]);
    HexLength(u[8..10]);
    HexLength(u[10..]);
    Groups(Hex(u[..4]), Hex(u[4..6]), Hex(u[6..8]), Hex(u[8..10]), Hex(u[10..]));
  }

  lemma Groups(a: string, b: string, c: string, d: string, e: string)
    requires |a| == 8 && |b| == |c| == |d| == 4 && |e| == 12
    ensures var s := a + ("-" + b) + ("-" + c) + ("-" + d) + ("-" + e);
      && |s| == 36 && s[8] == s[13] == s[18] == s[23] == '-'
      && s[..8] == a && s[9..13] == b && s[14..18] == c && s[19..23] == d && s[24..] == e
  {
  }

  const HEX_DIGITS := "0123456789abcdef"

  /** A byte is printed as its high and its low half. */
  lemma HexByteIs(b: byte)
    ensures HexByte(b) == [HEX_DIGITS[b / 16], HEX_DIGITS[b % 16]]
  {
  }

  // ---- newTokenFamily ----

  // Version 4, variant 10xx (section 4.4 of RFC 4122); every other bit is the one drawn.
  ghost predicate IsV4Of(u: uuid, raw: seq<byte>)
    requires |raw| == 16
  {
    && u[6] / 16 == 4 && u[6] % 16 == raw[6] % 16
    && u[8] / 64 == 2 && u[8] % 64 == raw[8] % 64
    && forall i :: 0 <= i < 16 && i != 6 && i != 8 ==> u[i] == raw[i]
  }

  /** newTokenFamily on the drawn buffer, in place. */
  method NewTokenFamily(b: array<byte>) returns (u: uuid)
    requires b.Length == 16
    modifies b
    ensures IsV4Of(u, old(b[..])) && u == b[..]
  {
    b[6] := b[6] % 16 + 0x40;     // (b[6] & 0x0f) | 0x40
    b[8] := b[8] % 64 + 0x80;     // (b[8] & 0x3f) | 0x80
    u := b[..];
  }

  /** 122 of the drawn bits survive: two draws give the same family only if they agree outside the
      six overwritten bits. */
  lemma FamilyCollision(u: uuid, a: seq<byte>, b: seq<byte>)
    requires |a| == |b| == 16 && IsV4Of(u, a) && IsV4Of(u, b)
    ensures forall i :: 0 <= i < 16 ==>
      if i == 6 then a[i] % 16 == b[i] % 16 else if i == 8 then a[i] % 64 == b[i] % 64 else a[i] == b[i]
  {
    forall i | 0 <= i < 16 && i != 6 && i != 8 ensures a[i] == b[i] {
      assert u[i] == a[i] && u[i] == b[i];
    }
  }
}
