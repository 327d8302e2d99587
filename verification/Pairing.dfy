/**
 * Enrollment codes: an agent's name and public key in one string that survives copy and paste.
 * "R1-" and then, in unpadded URL-safe base64, a version byte, the length of the name, the name,
 * and the 32 bytes of the key. Trimming is Rust's: characters with the Unicode White_Space property.
 */
module Pairing {
  import opened Base
  import opened Base64
  import opened LogKeys

  const PREFIX := "R1-"
  const KEY_BYTES := 32

  datatype Enrollment = Enrollment(agentId: string, publicKey: string)

  predicate IsWhiteSpace(c: char) {
    var u := c as int;
    9 <= u <= 13 || u == 0x20 || u == 0x85 || u == 0xA0 || u == 0x1680 || 0x2000 <= u <= 0x200A
    || u == 0x2028 || u == 0x2029 || u == 0x202F || u == 0x205F || u == 0x3000
  }

  function Trim(s: string): string {
    if s == [] then []
    else if IsWhiteSpace(s[0]) then Trim(s[1..])
    else if IsWhiteSpace(s[|s| - 1]) then Trim(s[..|s| - 1])
    else s
  }

  /** Trimming takes white space off both ends and nothing else, until neither end is any. */
  lemma {:induction false} TrimIsMiddle(s: string) returns (i: nat, j: nat)
    ensures i <= j <= |s| && Trim(s) == s[i..j]
    ensures forall k | 0 <= k < |s| && (k < i || k >= j) :: IsWhiteSpace(s[k])
    ensures i < j ==> !IsWhiteSpace(s[i]) && !IsWhiteSpace(s[j - 1])
  {
    i, j := 0, |s|;
    if s != [] && IsWhiteSpace(s[0]) {
      i, j := TrimIsMiddle(s[1..]);
      assert s[1..][i..j] == s[i + 1..j + 1];
      assert forall k | 1 <= k < |s| :: s[k] == s[1..][k - 1];
      i, j := i + 1, j + 1;
    } else if s != [] && IsWhiteSpace(s[|s| - 1]) {
      i, j := TrimIsMiddle(s[..|s| - 1]);
      assert s[..|s| - 1][i..j] == s[i..j];
    }
  }

  function AsciiByte(c: char): Byte
    requires c as int < 128
  {
    c as int
  }

  /** The bytes of an ASCII name; other names are refused before this is used. */
  function NameBytes(name: string): seq<Byte>
    requires forall c | c in name :: c as int < 128
  {
    seq(|name|, (i: nat) requires i < |name| => assert name[i] in name; AsciiByte(name[i]))
  }

  /** A valid agent name is ASCII, so bytes that are not, UTF-8 or otherwise, are refused. */
  function NameOf(bytes: seq<Byte>): Option<string> {
    if exists b | b in bytes :: b >= 128 then None
    else
      var name := seq(|bytes|, i requires 0 <= i < |bytes| => bytes[i] as char);
      if ValidAgentId(name) then Some(name) else None
  }

  lemma ValidIsAscii(name: string)
    requires ValidAgentId(name)
    ensures forall c | c in name :: c as int < 128
    ensures |NameBytes(name)| == |name| && NameOf(NameBytes(name)) == Some(name)
  {
    var bytes := NameBytes(name);
    assert seq(|bytes|, i requires 0 <= i < |bytes| => bytes[i] as char) == name;
  }

  lemma NameBack(bytes: seq<Byte>)
    requires NameOf(bytes).Some?
    ensures ValidAgentId(NameOf(bytes).value) && (forall c | c in NameOf(bytes).value :: c as int < 128)
    ensures NameBytes(NameOf(bytes).value) == bytes
  {
    assert forall i | 0 <= i < |bytes| :: bytes[i] in bytes;
  }

  /** The bytes of the code of a valid name and a key. */
  ghost function Payload(name: string, key: seq<Byte>): seq<Byte>
    requires ValidAgentId(name)
  {
    ValidIsAscii(name);
    [1, |name|] + NameBytes(name) + key
  }

  /** The text is a 32-byte key in padded base64. */
  predicate IsKey(t: string) {
    var key := DecodePadded(t);
    key.Some? && |key.value| == KEY_BYTES
  }

  /** The code of an enrollment, if it has one. */
  ghost function CodeOf(agentId: string, publicKey: string): Option<string> {
    if ValidAgentId(agentId) && IsKey(Trim(publicKey))
      then Some(PREFIX + Encode(Payload(agentId, DecodePadded(Trim(publicKey)).value), UrlSafe))
      else None
  }

  method EncodeEnrollment(agentId: string, publicKey: string) returns (code: Option<string>)
    ensures code == CodeOf(agentId, publicKey)
  {
    if !ValidAgentId(agentId) { return None; }
    var key := DecodePadded(Trim(publicKey));
    if key.None? || |key.value| != KEY_BYTES { return None; }
    ValidIsAscii(agentId);
    var bytes: seq<Byte> := [];
    bytes := bytes + [1];
    bytes := bytes + [|agentId|];
    bytes := bytes + NameBytes(agentId);
    bytes := bytes + key.value;
    assert bytes == Payload(agentId, key.value);
    code := Some(PREFIX + Encode(bytes, UrlSafe));
  }

  function DecodeEnrollment(value: string): Option<Enrollment> {
    var code := Trim(value);
    if !(PREFIX <= code) then None
    else match Decode(code[|PREFIX|..], UrlSafe)
      case None => None
      case Some(bytes) =>
        if |bytes| < 34 || bytes[0] != 1 || |bytes| != 34 + bytes[1] as int then None
        else match NameOf(bytes[2..2 + bytes[1] as int])
          case None => None
          case Some(name) => Some(Enrollment(name, EncodePadded(bytes[2 + bytes[1] as int..])))
  }

  /** Nothing an encoder writes is trimmed away. */
  lemma EncodedIsTrimmed(b: seq<Byte>, a: Alphabet)
    ensures Trim(Encode(b, a)) == Encode(b, a) && Trim(PREFIX + Encode(b, a)) == PREFIX + Encode(b, a)
    ensures Trim(Pad(Encode(b, a))) == Pad(Encode(b, a))
  {
    EncodedShape(b, a);
    var t := Encode(b, a);
    assert t != [] ==> t[0] in t && t[|t| - 1] in t;
  }

  /** What an enrollment code decodes to is what was encoded, with the key's surrounding space gone. */
  lemma DecodeInvertsEncode(agentId: string, publicKey: string)
    requires CodeOf(agentId, publicKey).Some?
    ensures DecodeEnrollment(CodeOf(agentId, publicKey).value) == Some(Enrollment(agentId, Trim(publicKey)))
  {
    hide Encode, Decode, DecodePadded, EncodePadded, NameOf, NameBytes, Trim;
    var key := DecodePadded(Trim(publicKey)).value;
    var bytes := Payload(agentId, key);
    ValidIsAscii(agentId);
    assert bytes[2..2 + |agentId|] == NameBytes(agentId) && bytes[2 + |agentId|..] == key;
    RoundTrip(bytes, "", UrlSafe);
    EncodedIsTrimmed(bytes, UrlSafe);
    PaddedRoundTrip(key, Trim(publicKey));
  }

  /** Every code that decodes is, trimmed, the code of what it decodes to. */
  lemma EncodeInvertsDecode(value: string)
    requires DecodeEnrollment(value).Some?
    ensures var e := DecodeEnrollment(value).value; CodeOf(e.agentId, e.publicKey) == Some(Trim(value))
  {
    hide Encode, Decode, DecodePadded, EncodePadded, NameOf, NameBytes, Trim;
    var code := Trim(value);
    var text := code[|PREFIX|..];
    var bytes := Decode(text, UrlSafe).value;
    RoundTrip(bytes, text, UrlSafe);
    var n: nat := bytes[1];
    NameBack(bytes[2..2 + n]);
    var e := DecodeEnrollment(value).value;
    var key := bytes[2 + n..];
    PaddedRoundTrip(key, "");
    PaddedIsTrimmed(key);
    assert |NameBytes(e.agentId)| == |e.agentId| by { ValidIsAscii(e.agentId); }
    assert bytes == [1, n] + bytes[2..2 + n] + key;
    assert Payload(e.agentId, key) == bytes;
    assert code == PREFIX + text;
  }

  lemma PaddedIsTrimmed(key: seq<Byte>)
    ensures Trim(EncodePadded(key)) == EncodePadded(key)
  {
    EncodedIsTrimmed(key, Standard);
  }

  /** Two enrollments with the same code are the same enrollment. */
  lemma CodesAreUnique(agentId: string, publicKey: string, agentId': string, publicKey': string)
    requires CodeOf(agentId, publicKey).Some? && CodeOf(agentId, publicKey) == CodeOf(agentId', publicKey')
    ensures agentId == agentId' && Trim(publicKey) == Trim(publicKey')
  {
    DecodeInvertsEncode(agentId, publicKey);
    DecodeInvertsEncode(agentId', publicKey');
  }
}
