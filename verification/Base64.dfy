/**
 * Base64 as sections 4 and 5 of RFC 4648 define it, strict in both directions: a decoder
 * accepts only what an encoder can have produced.
 */
module Base64 {
  import opened Base

  type Sextet = x: int | 0 <= x < 64

  /** The two alphabets differ in their last two characters. */
  datatype Alphabet = Standard | UrlSafe

  function Char(v: Sextet, a: Alphabet): char {
    if v < 26 then ('A' as int + v) as char
    else if v < 52 then ('a' as int + v - 26) as char
    else if v < 62 then ('0' as int + v - 52) as char
    else if v == 62 then (if a.UrlSafe? then '-' else '+')
    else if a.UrlSafe? then '_' else '/'
  }

  function Value(c: char, a: Alphabet): Option<Sextet> {
    if 'A' <= c <= 'Z' then Some(c as int - 'A' as int)
    else if 'a' <= c <= 'z' then Some(c as int - 'a' as int + 26)
    else if '0' <= c <= '9' then Some(c as int - '0' as int + 52)
    else if c == Char(62, a) then Some(62)
    else if c == Char(63, a) then Some(63)
    else None
  }

  // The four sextets of three bytes, and the three bytes of four sextets.
  function S0(a: Byte): Sextet { a / 4 }
  function S1(a: Byte, b: Byte): Sextet { a % 4 * 16 + b / 16 }
  function S2(b: Byte, c: Byte): Sextet { b % 16 * 4 + c / 64 }
  function S3(c: Byte): Sextet { c % 64 }
  function B0(x: Sextet, y: Sextet): Byte { x as int * 4 + y as int / 16 }
  function B1(y: Sextet, z: Sextet): Byte { y as int % 16 * 16 + z as int / 4 }
  function B2(z: Sextet, w: Sextet): Byte { z as int % 4 * 64 + w as int }

  lemma BytesBack(a: Byte, b: Byte, c: Byte)
    ensures B0(S0(a), S1(a, b)) == a && B1(S1(a, b), S2(b, c)) == b && B2(S2(b, c), S3(c)) == c
    ensures S1(a, 0) % 16 == 0 && S2(b, 0) % 4 == 0
  {
  }

  lemma SextetsBack(x: Sextet, y: Sextet, z: Sextet, w: Sextet)
    ensures S0(B0(x, y)) == x && S1(B0(x, y), B1(y, z)) == y && S2(B1(y, z), B2(z, w)) == z && S3(B2(z, w)) == w
    ensures y % 16 == 0 ==> S1(B0(x, y), 0) == y
    ensures z % 4 == 0 ==> S2(B1(y, z), 0) == z
  {
  }

  /** Three bytes are four sextets; a rest of one or two bytes is two or three, with zero bits at the end. */
  function Sextets(b: seq<Byte>): seq<Sextet> {
    if |b| == 0 then []
    else if |b| == 1 then [S0(b[0]), S1(b[0], 0)]
    else if |b| == 2 then [S0(b[0]), S1(b[0], b[1]), S2(b[1], 0)]
    else [S0(b[0]), S1(b[0], b[1]), S2(b[1], b[2]), S3(b[2])] + Sextets(b[3..])
  }

  /** A single sextet, or bits set past the last whole byte, are refused. */
  function Octets(s: seq<Sextet>): Option<seq<Byte>> {
    if |s| == 0 then Some([])
    else if |s| == 1 then None
    else if |s| == 2 then if s[1] % 16 != 0 then None else Some([B0(s[0], s[1])])
    else if |s| == 3 then if s[2] % 4 != 0 then None else Some([B0(s[0], s[1]), B1(s[1], s[2])])
    else match Octets(s[4..])
      case None => None
      case Some(rest) => Some([B0(s[0], s[1]), B1(s[1], s[2]), B2(s[2], s[3])] + rest)
  }

  lemma {:induction false} OctetsOfSextets(b: seq<Byte>)
    ensures Octets(Sextets(b)) == Some(b)
  {
    hide S0, S1, S2, S3, B0, B1, B2;
    if |b| > 0 {
      BytesBack(b[0], if |b| > 1 then b[1] else 0, if |b| > 2 then b[2] else 0);
      if |b| >= 3 {
        OctetsOfSextets(b[3..]);
        assert Sextets(b)[4..] == Sextets(b[3..]);
        assert b == [b[0], b[1], b[2]] + b[3..];
      } else {
        assert b == if |b| == 1 then [b[0]] else [b[0], b[1]];
      }
    }
  }

  lemma {:induction false} SextetsOfOctets(s: seq<Sextet>)
    requires Octets(s).Some?
    ensures Sextets(Octets(s).value) == s
  {
    hide S0, S1, S2, S3, B0, B1, B2;
    if |s| > 1 {
      SextetsBack(s[0], s[1], if |s| > 2 then s[2] else 0, if |s| > 3 then s[3] else 0);
      if |s| >= 4 {
        SextetsOfOctets(s[4..]);
        var b := Octets(s).value;
        assert b[3..] == Octets(s[4..]).value;
        assert s == [s[0], s[1], s[2], s[3]] + s[4..];
      }
    }
  }

  function Chars(s: seq<Sextet>, a: Alphabet): string {
    if s == [] then [] else [Char(s[0], a)] + Chars(s[1..], a)
  }

  function Values(t: string, a: Alphabet): Option<seq<Sextet>> {
    if t == [] then Some([])
    else match Value(t[0], a)
      case None => None
      case Some(v) => match Values(t[1..], a)
        case None => None
        case Some(rest) => Some([v] + rest)
  }

  lemma {:induction false} ValuesOfChars(s: seq<Sextet>, a: Alphabet)
    ensures Values(Chars(s, a), a) == Some(s) && |Chars(s, a)| == |s|
    ensures forall c | c in Chars(s, a) :: c != '=' && 32 < c as int < 127
  {
    if s != [] {
      ValuesOfChars(s[1..], a);
      assert Chars(s, a)[1..] == Chars(s[1..], a);
      assert s == [s[0]] + s[1..];
    }
  }

  lemma {:induction false} CharsOfValues(t: string, a: Alphabet)
    requires Values(t, a).Some?
    ensures Chars(Values(t, a).value, a) == t
  {
    if t != [] {
      CharsOfValues(t[1..], a);
      assert Values(t, a).value[1..] == Values(t[1..], a).value;
      assert t == [t[0]] + t[1..];
    }
  }

  // ---- Without padding ----

  function Encode(b: seq<Byte>, a: Alphabet): string {
    Chars(Sextets(b), a)
  }

  function Decode(t: string, a: Alphabet): Option<seq<Byte>> {
    match Values(t, a)
    case None => None
    case Some(s) => Octets(s)
  }

  /** Decoding inverts encoding, and whatever decodes is the encoding of what it decodes to. */
  lemma RoundTrip(b: seq<Byte>, t: string, a: Alphabet)
    ensures Decode(Encode(b, a), a) == Some(b)
    ensures Decode(t, a) == Some(b) <==> t == Encode(b, a)
  {
    ValuesOfChars(Sextets(b), a);
    OctetsOfSextets(b);
    if Decode(t, a) == Some(b) {
      CharsOfValues(t, a);
      SextetsOfOctets(Values(t, a).value);
    }
  }

  // The alphabets as tables 1 and 2 of RFC 4648 print them.
  const UPPER := "ABCDEFGHIJKLMNOPQRSTUVWXYZ"
  const LOWER := "abcdefghijklmnopqrstuvwxyz"
  const DIGITS := "0123456789"

  lemma PrintedParts(a: Alphabet)
    ensures |UPPER| == |LOWER| == 26 && |DIGITS| == 10
    ensures forall v: Sextet | v < 26 :: Char(v, a) == UPPER[v]
    ensures forall v: Sextet | 26 <= v < 52 :: Char(v, a) == LOWER[v - 26]
    ensures forall v: Sextet | 52 <= v < 62 :: Char(v, a) == DIGITS[v - 52]
  {
    assert seq(26, i requires 0 <= i < 26 => Char(i, a)) == UPPER;
    assert seq(26, i requires 0 <= i < 26 => Char(i + 26, a)) == LOWER;
    assert seq(10, i requires 0 <= i < 10 => Char(i + 52, a)) == DIGITS;
  }

  function Printed(a: Alphabet): (table: string)
    ensures |table| == 64
  {
    UPPER + LOWER + DIGITS + if a.UrlSafe? then "-_" else "+/"
  }

  lemma CharIsPrinted(v: Sextet, a: Alphabet)
    ensures Char(v, a) == Printed(a)[v]
  {
    PrintedParts(a);
  }

  lemma {:induction false} CharsAt(s: seq<Sextet>, a: Alphabet, k: nat)
    requires k < |s|
    ensures k < |Chars(s, a)| && Chars(s, a)[k] == Char(s[k], a)
  {
    if k > 0 { CharsAt(s[1..], a, k - 1); }
  }

  /** Bits 6k to 6k + 5 of the bytes, most significant first, with zero bits past their end. */
  function Bits(b: seq<Byte>, k: nat): (v: Sextet)
    requires 6 * k / 8 < |b|
  {
    var i := 6 * k / 8;
    var two := b[i] as int * 256 + if i + 1 < |b| then b[i + 1] as int else 0;
    if k % 4 == 0 then two / 1024 else if k % 4 == 1 then two / 16 % 64 else if k % 4 == 2 then two / 64 % 64 else two / 256 % 64
  }

  lemma SextetCountIs(b: seq<Byte>)
    ensures (|Sextets(b)| - 1) * 6 < 8 * |b| <= |Sextets(b)| * 6
  {
  }

  lemma HighBits(a: Byte, b: Byte)
    ensures S0(a) as int == (a as int * 256 + b as int) / 1024
    ensures S3(a) as int == (a as int * 256 + b as int) / 256 % 64
  {
  }

  lemma By64(n: int, x: int, r: int)
    requires n == 64 * x + r && 0 <= r < 64
    ensures n / 64 == x && n % 64 == r
  {
  }

  lemma By16(n: int, x: int, r: int)
    requires n == 16 * x + r && 0 <= r < 16
    ensures n / 16 == x && n % 16 == r
  {
  }

  lemma MiddleBits(a: Byte, b: Byte)
    ensures S1(a, b) as int == (a as int * 256 + b as int) / 16 % 64
  {
    var p, q, x, y := a as int / 4, a as int % 4, b as int / 16, b as int % 16;
    By16(a as int * 256 + b as int, 64 * p + 16 * q + x, y);
    By64(64 * p + 16 * q + x, p, 16 * q + x);
  }

  lemma LowBits(a: Byte, b: Byte)
    ensures S2(a, b) as int == (a as int * 256 + b as int) / 64 % 64
  {
    var p, q, x, y := a as int / 16, a as int % 16, b as int / 64, b as int % 64;
    By64(a as int * 256 + b as int, 64 * p + 4 * q + x, y);
    By64(64 * p + 4 * q + x, p, 4 * q + x);
  }

  lemma FirstSextets(b: seq<Byte>, k: nat)
    requires k < 4 && k < |Sextets(b)|
    ensures 6 * k / 8 < |b| && Sextets(b)[k] == Bits(b, k)
  {
    hide S0, S1, S2, S3;
    if k == 0 {
      HighBits(b[0], if |b| > 1 then b[1] else 0);
    } else if k == 1 {
      MiddleBits(b[0], if |b| > 1 then b[1] else 0);
    } else if k == 2 {
      LowBits(b[1], if |b| > 2 then b[2] else 0);
    } else {
      HighBits(b[2], if |b| > 3 then b[3] else 0);
    }
  }

  lemma {:induction false} SextetsAreBits(b: seq<Byte>, k: nat)
    requires k < |Sextets(b)|
    ensures 6 * k / 8 < |b| && Sextets(b)[k] == Bits(b, k)
  {
    hide S0, S1, S2, S3, Bits;
    if k < 4 {
      FirstSextets(b, k);
    } else {
      SextetsAreBits(b[3..], k - 4);
      assert Sextets(b)[k] == Sextets(b[3..])[k - 4];
      BitsShift(b, k);
    }
  }

  lemma BitsShift(b: seq<Byte>, k: nat)
    requires k >= 4 && 6 * k / 8 < |b|
    ensures 6 * (k - 4) / 8 < |b[3..]| && Bits(b, k) == Bits(b[3..], k - 4)
  {
    assert 6 * k / 8 == 6 * (k - 4) / 8 + 3;
  }

  /** The encoding, read off the bits of the bytes and the printed alphabet. */
  lemma EncodeIsRfc(b: seq<Byte>, a: Alphabet, k: nat)
    requires k < |Encode(b, a)|
    ensures (|Encode(b, a)| - 1) * 6 < 8 * |b| <= |Encode(b, a)| * 6
    ensures 6 * k / 8 < |b| && Encode(b, a)[k] == Printed(a)[Bits(b, k)]
  {
    hide Char, Sextets, Printed, Bits;
    ValuesOfChars(Sextets(b), a);
    CharsAt(Sextets(b), a, k);
    SextetCountIs(b);
    SextetsAreBits(b, k);
    CharIsPrinted(Sextets(b)[k], a);
  }

  // ---- With canonical padding ----

  function Pad(t: string): string {
    if |t| % 4 == 2 then t + "==" else if |t| % 4 == 3 then t + "=" else t
  }

  /** The text without at most two padding characters. */
  function Unpad(t: string): string {
    if |t| >= 1 && t[|t| - 1] == '=' then
      if |t| >= 2 && t[|t| - 2] == '=' then t[..|t| - 2] else t[..|t| - 1]
    else t
  }

  function EncodePadded(b: seq<Byte>): string {
    Pad(Encode(b, Standard))
  }

  function DecodePadded(t: string): Option<seq<Byte>> {
    if |t| % 4 != 0 then None else Decode(Unpad(t), Standard)
  }

  lemma {:induction false} SextetCount(b: seq<Byte>)
    ensures |Sextets(b)| % 4 != 1
  {
    if |b| >= 3 { SextetCount(b[3..]); }
  }

  lemma UnpadOfPad(core: string)
    requires |core| % 4 != 1 && forall c | c in core :: c != '='
    ensures |Pad(core)| % 4 == 0 && Unpad(Pad(core)) == core
  {
    assert core != [] ==> core[|core| - 1] in core;
    assert |core| >= 2 ==> core[|core| - 2] in core;
  }

  lemma PadOfUnpad(t: string)
    requires |t| % 4 == 0 && forall c | c in Unpad(t) :: c != '='
    ensures Pad(Unpad(t)) == t
  {
    var n := |t|;
    if n > 0 && t[n - 1] == '=' {
      if t[n - 2] == '=' {
        assert t == t[..n - 2] + "==";
      } else {
        assert t == t[..n - 1] + "=";
      }
    }
  }

  lemma PaddedRoundTrip(b: seq<Byte>, t: string)
    ensures DecodePadded(EncodePadded(b)) == Some(b)
    ensures DecodePadded(t) == Some(b) <==> t == EncodePadded(b)
  {
    hide Encode, Decode, Pad, Unpad;
    var core := Encode(b, Standard);
    RoundTrip(b, core, Standard);
    EncodedShape(b, Standard);
    UnpadOfPad(core);
    if DecodePadded(t) == Some(b) {
      RoundTrip(b, Unpad(t), Standard);
      PadOfUnpad(t);
    }
  }

  lemma EncodedShape(b: seq<Byte>, a: Alphabet)
    ensures |Encode(b, a)| % 4 != 1
    ensures forall c | c in Encode(b, a) :: c != '=' && 32 < c as int < 127
  {
    ValuesOfChars(Sextets(b), a);
    SextetCount(b);
  }

  /** Padding is at most two signs, and fills the last group of four. */
  lemma PaddingFillsGroup(b: seq<Byte>)
    ensures var core, t := Encode(b, Standard), EncodePadded(b);
      && |t| % 4 == 0 && |core| <= |t| <= |core| + 2 && t[..|core|] == core
      && forall k | |core| <= k < |t| :: t[k] == '='
  {
    hide Encode;
    EncodedShape(b, Standard);
  }
}
