/** Unpadded base64 as Go's encoding/base64 does it: RawStdEncoding (section 4 of RFC 4648) for
    password hashes, RawURLEncoding (section 5) for tokens. Decoding is the non-strict one: it
    skips CR and LF and ignores the unused bits of the last character. */
module Base64 {
  import opened Prelude

  type sextet = v: int | 0 <= v < 64

  datatype Alphabet = Std | Url

  function Symbol(a: Alphabet, v: sextet): char {
    if v < 26 then 'A' + v as char
    else if v < 52 then 'a' + (v - 26) as char
    else if v < 62 then '0' + (v - 52) as char
    else if v == 62 then (if a.Std? then '+' else '-')
    else if a.Std? then '/' else '_'
  }

  function Value(a: Alphabet, c: char): Option<sextet> {
    if 'A' <= c <= 'Z' then Some(c as int - 'A' as int)
    else if 'a' <= c <= 'z' then Some(c as int - 'a' as int + 26)
    else if '0' <= c <= '9' then Some(c as int - '0' as int + 52)
    else if c == (if a.Std? then '+' else '-') then Some(62)
    else if c == (if a.Std? then '/' else '_') then Some(63)
    else None
  }

  function Symbols(a: Alphabet, vs: seq<sextet>): string {
    if vs == [] then "" else [Symbol(a, vs[0])] + Symbols(a, vs[1..])
  }

  function Values(a: Alphabet, s: string): Option<seq<sextet>> {
    if s == "" then Some([])
    else match (Value(a, s[0]), Values(a, s[1..]))
      case (Some(v), Some(vs)) => Some([v] + vs)
      case _ => None
  }

  // Three bytes as four sextets, and back.
  function Spread(b0: byte, b1: byte, b2: byte): (sextet, sextet, sextet, sextet) {
    (b0 / 4, (b0 % 4) * 16 + b1 / 16, (b1 % 16) * 4 + b2 / 64, b2 % 64)
  }

  function Gather(v0: sextet, v1: sextet, v2: sextet, v3: sextet): (byte, byte, byte) {
    var i0: int, i1: int, i2: int, i3: int := v0, v1, v2, v3;
    (i0 * 4 + i1 / 16, (i1 % 16) * 16 + i2 / 4, (i2 % 4) * 64 + i3)
  }

  function Sextets(b: seq<byte>): seq<sextet> {
    if |b| == 0 then []
    else
      var q := Spread(b[0], if |b| > 1 then b[1] else 0, if |b| > 2 then b[2] else 0);
      if |b| == 1 then [q.0, q.1]
      else if |b| == 2 then [q.0, q.1, q.2]
      else [q.0, q.1, q.2, q.3] + Sextets(b[3..])
  }

  function Bytes(vs: seq<sextet>): Option<seq<byte>> {
    if |vs| == 0 then Some([])
    else if |vs| == 1 then None
    else
      var t := Gather(vs[0], vs[1], if |vs| > 2 then vs[2] else 0, if |vs| > 3 then vs[3] else 0);
      if |vs| == 2 then Some([t.0])
      else if |vs| == 3 then Some([t.0, t.1])
      else match Bytes(vs[4..])
        case None => None
        case Some(r) => Some([t.0, t.1, t.2] + r)
  }

  function Strip(s: string): string {
    if s == "" then ""
    else if s[0] == '\r' || s[0] == '\n' then Strip(s[1..])
    else [s[0]] + Strip(s[1..])
  }

  function Encode(a: Alphabet, b: seq<byte>): string {
    Symbols(a, Sextets(b))
  }

  function Decode(a: Alphabet, s: string): Option<seq<byte>> {
    match Values(a, Strip(s))
    case None => None
    case Some(vs) => Bytes(vs)
  }

  // ---- alphabet ----

  /** The alphabets, by ASCII code: A-Z, a-z, 0-9, then '+' and '/' or '-' and '_'. */
  lemma Alphabets(a: Alphabet, v: sextet)
    ensures v < 26 ==> Symbol(a, v) as int == 65 + v
    ensures 26 <= v < 52 ==> Symbol(a, v) as int == 71 + v
    ensures 52 <= v < 62 ==> Symbol(a, v) as int == v - 4
    ensures v == 62 ==> Symbol(a, v) as int == if a.Std? then 43 else 45
    ensures v == 63 ==> Symbol(a, v) as int == if a.Std? then 47 else 95
  {
  }

  /** Three bytes and their four sextets are the same 24-bit number, highest first. */
  lemma SameNumber(b0: byte, b1: byte, b2: byte)
    ensures var q := Spread(b0, b1, b2);
      (q.0 as int) * 262_144 + (q.1 as int) * 4_096 + (q.2 as int) * 64 + q.3 as int
      == (b0 as int) * 65_536 + (b1 as int) * 256 + b2 as int
  {
    SpreadParts(b0, b1, b2);
  }

  lemma SpreadParts(b0: int, b1: int, b2: int)
    requires 0 <= b0 < 256 && 0 <= b1 < 256 && 0 <= b2 < 256
    ensures b0 == 4 * (b0 / 4) + b0 % 4 && b1 == 16 * (b1 / 16) + b1 % 16 && b2 == 64 * (b2 / 64) + b2 % 64
  {
  }

  /** How text is made: four symbols for every three bytes, and two or three for one or two bytes left
      over, which count as if zero bytes followed. */
  lemma EncodeGroups(a: Alphabet, b0: byte, b1: byte, b2: byte, rest: seq<byte>)
    ensures var q := Spread(b0, b1, b2);
      Encode(a, [b0, b1, b2] + rest)
      == [Symbol(a, q.0), Symbol(a, q.1), Symbol(a, q.2), Symbol(a, q.3)] + Encode(a, rest)
    ensures var q := Spread(b0, b1, 0);
      Encode(a, [b0, b1]) == [Symbol(a, q.0), Symbol(a, q.1), Symbol(a, q.2)]
    ensures var q := Spread(b0, 0, 0); Encode(a, [b0]) == [Symbol(a, q.0), Symbol(a, q.1)]
    ensures Encode(a, []) == ""
  {
    assert ([b0, b1, b2] + rest)[3..] == rest;
    FourSymbols(a, Spread(b0, b1, b2), Sextets(rest));
    TwoBytes(b0, b1);
    OneByte(b0);
    FewSymbols(a, Spread(b0, b1, 0).0, Spread(b0, b1, 0).1, Spread(b0, b1, 0).2);
    FewSymbols(a, Spread(b0, 0, 0).0, Spread(b0, 0, 0).1, 0);
  }

  lemma SymbolsCons(a: Alphabet, v: sextet, vs: seq<sextet>)
    ensures Symbols(a, [v] + vs) == [Symbol(a, v)] + Symbols(a, vs)
  {
    assert ([v] + vs)[1..] == vs;
  }

  lemma FourSymbols(a: Alphabet, q: (sextet, sextet, sextet, sextet), rest: seq<sextet>)
    ensures Symbols(a, [q.0, q.1, q.2, q.3] + rest)
      == [Symbol(a, q.0), Symbol(a, q.1), Symbol(a, q.2), Symbol(a, q.3)] + Symbols(a, rest)
  {
    var r3, r2, r1 := [q.3] + rest, [q.2] + ([q.3] + rest), [q.1] + ([q.2] + ([q.3] + rest));
    SymbolsCons(a, q.3, rest);
    SymbolsCons(a, q.2, r3);
    SymbolsCons(a, q.1, r2);
    SymbolsCons(a, q.0, r1);
    assert [q.0, q.1, q.2, q.3] + rest == [q.0] + r1;
  }

  lemma FewSymbols(a: Alphabet, x: sextet, y: sextet, z: sextet)
    ensures Symbols(a, [x, y]) == [Symbol(a, x), Symbol(a, y)]
    ensures Symbols(a, [x, y, z]) == [Symbol(a, x), Symbol(a, y), Symbol(a, z)]
  {
    SymbolsCons(a, z, []);
    SymbolsCons(a, y, []);
    SymbolsCons(a, x, [y]);
    SymbolsCons(a, y, [z]);
    SymbolsCons(a, x, [y, z]);
    assert [x] + [y] == [x, y] && [y] + [z] == [y, z] && [x] + [y, z] == [x, y, z];
    assert [z] + [] == [z] && [y] + [] == [y];
  }

  lemma SymbolValue(a: Alphabet, v: sextet)
    ensures Value(a, Symbol(a, v)) == Some(v)
  {
  }

  lemma ValueSymbol(a: Alphabet, c: char)
    requires Value(a, c).Some?
    ensures Symbol(a, Value(a, c).value) == c
  {
  }

  predicate Clean(s: string) {
    forall i :: 0 <= i < |s| ==> s[i] != '\r' && s[i] != '\n'
  }

  lemma {:induction false} StripClean(s: string)
    ensures Clean(Strip(s)) && |Strip(s)| <= |s|
    ensures Strip(s) == s <==> Clean(s)
  {
    if s == "" {
    } else {
      StripClean(s[1..]);
      assert s == [s[0]] + s[1..];
    }
  }

  lemma {:induction false} SymbolsValues(a: Alphabet, vs: seq<sextet>)
    ensures Values(a, Symbols(a, vs)) == Some(vs) && |Symbols(a, vs)| == |vs|
    ensures forall i :: 0 <= i < |vs| ==> Value(a, Symbols(a, vs)[i]).Some?
  {
    if vs == [] {
    } else {
      SymbolsValues(a, vs[1..]);
      SymbolValue(a, vs[0]);
      assert Symbols(a, vs)[1..] == Symbols(a, vs[1..]);
      assert vs == [vs[0]] + vs[1..];
    }
  }

  lemma {:induction false} ValuesSymbols(a: Alphabet, s: string)
    requires Values(a, s).Some?
    ensures Symbols(a, Values(a, s).value) == s
  {
    if s == "" {
    } else {
      ValuesSymbols(a, s[1..]);
      ValueSymbol(a, s[0]);
      assert Values(a, s).value[1..] == Values(a, s[1..]).value;
    }
  }

  // ---- bits ----

  lemma GatherSpread(b0: byte, b1: byte, b2: byte)
    ensures var q := Spread(b0, b1, b2); Gather(q.0, q.1, q.2, q.3) == (b0, b1, b2)
  {
    var q := Spread(b0, b1, b2);
    var h: int, l: int := b1 / 16, b2 / 64;
    assert q.1 / 16 == b0 % 4 && q.1 % 16 == h by {
      assert ((b0 % 4) as int * 16 + h) / 16 == b0 % 4;
    }
    assert q.2 / 4 == b1 % 16 && q.2 % 4 == l by {
      assert ((b1 % 16) as int * 4 + l) / 4 == b1 % 16;
    }
  }

  lemma SpreadGather(v0: sextet, v1: sextet, v2: sextet, v3: sextet)
    ensures var t := Gather(v0, v1, v2, v3); Spread(t.0, t.1, t.2) == (v0, v1, v2, v3)
  {
    var h, l: int := v1 / 16, v2 / 4;
    var t := Gather(v0, v1, v2, v3);
    assert t.0 / 4 == v0 && t.0 % 4 == h;
    assert t.1 / 16 == v1 % 16 && t.1 % 16 == l;
    assert t.2 / 64 == v2 % 4 && t.2 % 64 == v3;
  }

  lemma {:induction false} SextetsBytes(b: seq<byte>)
    ensures Bytes(Sextets(b)) == Some(b)
  {
    if |b| == 0 {
    } else {
      var b1, b2: byte := if |b| > 1 then b[1] else 0, if |b| > 2 then b[2] else 0;
      var q := Spread(b[0], b1, b2);
      GatherSpread(b[0], b1, b2);
      if |b| == 1 {
        assert q.2 == 0 && q.3 == 0;
        assert Sextets(b) == [q.0, q.1] && b == [b[0]];
      } else if |b| == 2 {
        assert q.3 == 0;
        assert Sextets(b) == [q.0, q.1, q.2] && b == [b[0], b[1]];
      } else {
        SextetsBytes(b[3..]);
        assert Sextets(b)[4..] == Sextets(b[3..]);
        assert b == [b[0], b[1], b[2]] + b[3..];
      }
    }
  }

  // The bits the last character carries beyond the last byte are zero.
  predicate ZeroTail(vs: seq<sextet>) {
    && (|vs| % 4 == 2 ==> vs[|vs| - 1] % 16 == 0)
    && (|vs| % 4 == 3 ==> vs[|vs| - 1] % 4 == 0)
  }

  lemma TwoBack(v0: sextet, v1: sextet)
    ensures var q := Spread(Gather(v0, v1, 0, 0).0, 0, 0); q.0 == v0 && q.1 == (v1 / 16) * 16
  {
    var h: int := v1 / 16;
    assert (v0 as int * 4 + h) / 4 == v0 && (v0 as int * 4 + h) % 4 == h;
  }

  lemma ThreeBack(v0: sextet, v1: sextet, v2: sextet)
    ensures var t := Gather(v0, v1, v2, 0);
      var q := Spread(t.0, t.1, 0); q.0 == v0 && q.1 == v1 && q.2 == (v2 / 4) * 4
  {
    var h: int, l: int := v1 / 16, v2 / 4;
    assert (v0 as int * 4 + h) / 4 == v0 && (v0 as int * 4 + h) % 4 == h;
    assert ((v1 % 16) as int * 16 + l) / 16 == v1 % 16 && ((v1 % 16) as int * 16 + l) % 16 == l;
  }

  lemma LowBits(v: int)
    ensures (v / 16) * 16 == v <==> v % 16 == 0
    ensures (v / 4) * 4 == v <==> v % 4 == 0
  {
  }

  lemma OneByte(b0: byte)
    ensures Sextets([b0]) == [Spread(b0, 0, 0).0, Spread(b0, 0, 0).1]
  {
  }

  lemma TwoBytes(b0: byte, b1: byte)
    ensures Sextets([b0, b1]) == [Spread(b0, b1, 0).0, Spread(b0, b1, 0).1, Spread(b0, b1, 0).2]
  {
  }

  lemma TwoTail(vs: seq<sextet>, r: seq<sextet>)
    requires |vs| == |r| == 2 && r[0] == vs[0] && r[1] == (vs[1] / 16) * 16
    ensures r == vs <==> ZeroTail(vs)
  {
    LowBits(vs[1]);
    if r[1] == vs[1] { assert r == [vs[0], vs[1]] == vs; }
  }

  lemma ThreeTail(vs: seq<sextet>, r: seq<sextet>)
    requires |vs| == |r| == 3 && r[0] == vs[0] && r[1] == vs[1] && r[2] == (vs[2] / 4) * 4
    ensures r == vs <==> ZeroTail(vs)
  {
    LowBits(vs[2]);
    if r[2] == vs[2] { assert r == [vs[0], vs[1], vs[2]] == vs; }
  }

  lemma ShortTail(vs: seq<sextet>)
    requires |vs| == 2 || |vs| == 3
    ensures Sextets(Bytes(vs).value) == vs <==> ZeroTail(vs)
  {
    if |vs| == 2 {
      TwoBack(vs[0], vs[1]);
      OneByte(Gather(vs[0], vs[1], 0, 0).0);
      TwoTail(vs, Sextets(Bytes(vs).value));
    } else {
      ThreeBack(vs[0], vs[1], vs[2]);
      var t := Gather(vs[0], vs[1], vs[2], 0);
      TwoBytes(t.0, t.1);
      ThreeTail(vs, Sextets(Bytes(vs).value));
    }
  }

  lemma {:induction false} BytesSextets(vs: seq<sextet>)
    requires Bytes(vs).Some?
    ensures Sextets(Bytes(vs).value) == vs <==> ZeroTail(vs)
  {
    if |vs| >= 4 {
      var head, tail := vs[..4], vs[4..];
      BytesSextets(tail);
      SpreadGather(vs[0], vs[1], vs[2], vs[3]);
      var b := Bytes(vs).value;
      assert b[3..] == Bytes(tail).value;
      assert Sextets(b) == head + Sextets(b[3..]);
      assert vs == head + tail;
      assert Sextets(b)[4..] == Sextets(b[3..]);
      TailSame(vs);
    } else if |vs| > 0 {
      ShortTail(vs);
    }
  }

  lemma TailSame(vs: seq<sextet>)
    requires |vs| >= 4 && |vs| != 5
    ensures ZeroTail(vs) <==> ZeroTail(vs[4..])
  {
    assert |vs[4..]| % 4 == |vs| % 4;
  }

  // ---- the codec ----

  lemma EncodeClean(a: Alphabet, b: seq<byte>)
    ensures Clean(Encode(a, b))
    ensures forall i :: 0 <= i < |Encode(a, b)| ==> Value(a, Encode(a, b)[i]).Some?
  {
    SymbolsValues(a, Sextets(b));
    var s := Encode(a, b);
    forall i | 0 <= i < |s| ensures s[i] != '\r' && s[i] != '\n' {
      assert Value(a, s[i]).Some?;
    }
  }

  /** Decoding an encoding gives the bytes back, and the encoding uses only its alphabet: no CR,
      LF, '$', '.', ',' or '='. */
  lemma DecodeEncode(a: Alphabet, b: seq<byte>)
    ensures Decode(a, Encode(a, b)) == Some(b)
    ensures forall i :: 0 <= i < |Encode(a, b)| ==> Value(a, Encode(a, b)[i]).Some?
    ensures Encode(a, b) == "" <==> b == []
  {
    SymbolsValues(a, Sextets(b));
    SextetsBytes(b);
    EncodeClean(a, b);
    StripClean(Encode(a, b));
  }

  // Up to CR and LF, a string is the encoding of what it decodes to iff its unused bits are zero.
  lemma StrippedIff(a: Alphabet, s: string)
    requires Decode(a, s).Some?
    ensures Encode(a, Decode(a, s).value) == Strip(s) <==> ZeroTail(Values(a, Strip(s)).value)
  {
    var vs := Values(a, Strip(s)).value;
    var us := Sextets(Bytes(vs).value);
    ValuesSymbols(a, Strip(s));
    BytesSextets(vs);
    SymbolsValues(a, us);
  }

  /** Decoding is not injective: exactly the strings without CR or LF whose unused last bits are
      zero are the encoding of what they decode to. */
  lemma EncodeDecodeIff(a: Alphabet, s: string)
    requires Decode(a, s).Some?
    ensures Encode(a, Decode(a, s).value) == s <==> Clean(s) && ZeroTail(Values(a, Strip(s)).value)
  {
    StripClean(s);
    StrippedIff(a, s);
    EncodeClean(a, Decode(a, s).value);
  }

  lemma Pair(c: char, d: char)
    requires Value(Std, c).Some? && Value(Std, d).Some?
    ensures Values(Std, [c, d]) == Some([Value(Std, c).value, Value(Std, d).value])
  {
    var x, y := Value(Std, c).value, Value(Std, d).value;
    assert [c, d][1..] == [d] && [d][1..] == "";
    assert Values(Std, "") == Some([]);
    assert Values(Std, [d]) == Some([y] + []);
    assert [y] + [] == [y];
    assert Values(Std, [c, d]) == Some([x] + [y]);
    assert [x] + [y] == [x, y];
  }

  /** Three spellings of one byte. */
  lemma ThreeSpellings()
    ensures Decode(Std, "AA") == Some([0]) && Decode(Std, "AB") == Some([0]) && Decode(Std, "A\nA") == Some([0])
  {
    StripClean("AA");
    StripClean("AB");
    var s, t := "A\nA", "\nA";
    assert s[1..] == t && t[1..] == "A" && "A"[1..] == "";
    assert Strip(t) == "A";
    assert Strip(s) == "AA";
    Pair('A', 'A');
    Pair('A', 'B');
  }
}
