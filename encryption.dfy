/**
 * The server-held credential cipher: the process-wide Fernet key derived from
 * the configured secret, and the encrypt/decrypt wrappers that turn every
 * failure of the cipher into a RuntimeError.
 *
 * The key is `b64encode(secret.encode()[:32].ljust(32, b'='))`: the UTF-8 bytes
 * of the secret, cut or padded with '=' to exactly 32 bytes, then encoded in
 * the base64 alphabet of section 4 of RFC 4648.
 */
module Encryption {
  import opened Wrappers
  import opened Entities

  type byte = x: int | 0 <= x < 256

  // ---------------------------------------------------------------- UTF-8

  /** The UTF-8 encoding of one Unicode scalar value. */
  function Utf8Char(c: char): (b: seq<byte>)
    ensures 1 <= |b| <= 4
    ensures |b| == 1 <==> c as int < 0x80
    ensures |b| == 1 ==> b[0] == c as int
    ensures forall i :: 1 <= i < |b| ==> 0x80 <= b[i] < 0xC0
  {
    var cp := c as int;
    if cp < 0x80 then [cp]
    else if cp < 0x800 then [0xC0 + cp / 64, 0x80 + cp % 64]
    else if cp < 0x10000 then [0xE0 + cp / 4096, 0x80 + (cp / 64) % 64, 0x80 + cp % 64]
    else [0xF0 + cp / 262144, 0x80 + (cp / 4096) % 64, 0x80 + (cp / 64) % 64, 0x80 + cp % 64]
  }

  /** `str.encode()`: the UTF-8 bytes of a string. */
  function Utf8Encode(s: string): (b: seq<byte>)
    ensures |s| <= |b| <= 4 * |s|
  {
    if s == [] then [] else Utf8Char(s[0]) + Utf8Encode(s[1..])
  }

  predicate IsAscii(s: string) {
    forall i :: 0 <= i < |s| ==> s[i] as int < 0x80
  }

  /** An ASCII string (such as the default `secrets.token_urlsafe` secret) encodes to its own character codes. */
  lemma {:induction false} AsciiEncodesToCodes(s: string)
    requires IsAscii(s)
    ensures |Utf8Encode(s)| == |s|
    ensures forall i :: 0 <= i < |s| ==> Utf8Encode(s)[i] == s[i] as int
  {
    if s != [] {
      assert IsAscii(s[1..]) by {
        forall i | 0 <= i < |s[1..]| ensures s[1..][i] as int < 0x80 {
          assert s[1..][i] == s[i + 1];
        }
      }
      AsciiEncodesToCodes(s[1..]);
    }
  }

  // ---------------------------------------------------------------- raw key

  const KeyLength: nat := 32
  /** The byte `'='` that `ljust` pads with. */
  const PadByte: byte := 0x3D

  /** `secret[:32].ljust(32, b'=')`. */
  function RawKey(secret: seq<byte>): (k: seq<byte>)
    ensures |k| == KeyLength
    ensures forall i :: 0 <= i < |secret| && i < KeyLength ==> k[i] == secret[i]
    ensures forall i :: |secret| <= i < KeyLength ==> k[i] == PadByte
  {
    if |secret| >= KeyLength then secret[..KeyLength]
    else secret + seq(KeyLength - |secret|, _ => PadByte)
  }

  // ---------------------------------------------------------------- base64

  /** A 6-bit value. */
  type sextet = x: int | 0 <= x < 64

  /** The character for a 6-bit value in the alphabet of RFC 4648, section 4 (Table 1). */
  function SextetChar(v: sextet): char {
    if v < 26 then ('A' as int + v) as char
    else if v < 52 then ('a' as int + (v - 26)) as char
    else if v < 62 then ('0' as int + (v - 52)) as char
    else if v == 62 then '+'
    else '/'
  }

  /** The 6-bit value of an alphabet character; None for any other character, the pad included. */
  function CharSextet(c: char): (r: Option<sextet>)
    ensures r.Some? ==> SextetChar(r.value) == c
  {
    if 'A' <= c <= 'Z' then Some(c as int - 'A' as int)
    else if 'a' <= c <= 'z' then Some(c as int - 'a' as int + 26)
    else if '0' <= c <= '9' then Some(c as int - '0' as int + 52)
    else if c == '+' then Some(62)
    else if c == '/' then Some(63)
    else None
  }

  lemma SextetRoundTrip(v: sextet)
    ensures CharSextet(SextetChar(v)) == Some(v)
  {
  }

  /** The four characters for three bytes (bits b0 b1 b2 read six at a time). */
  function EncodeTriple(b0: byte, b1: byte, b2: byte): (s: string)
    ensures |s| == 4
  {
    [SextetChar(b0 / 4), SextetChar((b0 % 4) * 16 + b1 / 16),
     SextetChar((b1 % 16) * 4 + b2 / 64), SextetChar(b2 % 64)]
  }

  /** `b64encode`: groups of three bytes become four characters; a final group of one or two bytes is padded with '='. */
  function Base64Encode(b: seq<byte>): (s: string)
    ensures |s| == 4 * ((|b| + 2) / 3)
    decreases |b|
  {
    if |b| == 0 then ""
    else if |b| == 1 then EncodeTriple(b[0], 0, 0)[..2] + "=="
    else if |b| == 2 then EncodeTriple(b[0], b[1], 0)[..3] + "="
    else EncodeTriple(b[0], b[1], b[2]) + Base64Encode(b[3..])
  }

  /** The first, second and third byte that a group of 6-bit values spells. */
  function Byte0(v0: sextet, v1: sextet): byte { (v0 as int) * 4 + (v1 as int) / 16 }
  function Byte1(v1: sextet, v2: sextet): byte { ((v1 as int) % 16) * 16 + (v2 as int) / 4 }
  function Byte2(v2: sextet, v3: sextet): byte { ((v2 as int) % 4) * 64 + (v3 as int) }

  /** The bytes of one four-character group; pad characters are accepted only in the final group. */
  function DecodeQuad(c0: char, c1: char, c2: char, c3: char, last: bool): Option<seq<byte>> {
    match (CharSextet(c0), CharSextet(c1), CharSextet(c2), CharSextet(c3))
    case (Some(v0), Some(v1), Some(v2), Some(v3)) =>
      Some([Byte0(v0, v1), Byte1(v1, v2), Byte2(v2, v3)])
    case (Some(v0), Some(v1), Some(v2), None) =>
      if last && c3 == '=' then Some([Byte0(v0, v1), Byte1(v1, v2)]) else None
    case (Some(v0), Some(v1), None, None) =>
      if last && c2 == '=' && c3 == '=' then Some([Byte0(v0, v1)]) else None
    case _ => None
  }

  /** A strict base64 decoder for the padded alphabet of RFC 4648, section 4. */
  function Base64Decode(s: string): Option<seq<byte>>
    decreases |s|
  {
    if |s| == 0 then Some([])
    else if |s| < 4 then None
    else
      match DecodeQuad(s[0], s[1], s[2], s[3], |s| == 4)
      case None => None
      case Some(bs) =>
        if |s| == 4 then Some(bs)
        else
          match Base64Decode(s[4..])
          case None => None
          case Some(rest) => Some(bs + rest)
  }

  lemma TripleRoundTrip(b0: byte, b1: byte, b2: byte, last: bool)
    ensures var s := EncodeTriple(b0, b1, b2);
      DecodeQuad(s[0], s[1], s[2], s[3], last) == Some([b0, b1, b2])
  {
    var v0: sextet, v1: sextet, v2: sextet, v3: sextet :=
      b0 / 4, (b0 % 4) * 16 + b1 / 16, (b1 % 16) * 4 + b2 / 64, b2 % 64;
    SextetRoundTrip(v0);
    SextetRoundTrip(v1);
    SextetRoundTrip(v2);
    SextetRoundTrip(v3);
    FirstByteOf(b0, b1);
    SecondByteOf(b0, b1, b2);
    ThirdByteOf(b1, b2);
  }

  lemma FirstByteOf(b0: byte, b1: byte)
    ensures Byte0(b0 / 4, (b0 % 4) * 16 + b1 / 16) == b0
  {
    assert ((b0 % 4) * 16 + b1 / 16) / 16 == b0 % 4;
  }

  lemma SecondByteOf(b0: byte, b1: byte, b2: byte)
    ensures Byte1((b0 % 4) * 16 + b1 / 16, (b1 % 16) * 4 + b2 / 64) == b1
  {
    assert ((b0 % 4) * 16 + b1 / 16) % 16 == b1 / 16;
    assert ((b1 % 16) * 4 + b2 / 64) / 4 == b1 % 16;
  }

  lemma ThirdByteOf(b1: byte, b2: byte)
    ensures Byte2((b1 % 16) * 4 + b2 / 64, b2 % 64) == b2
  {
    assert ((b1 % 16) * 4 + b2 / 64) % 4 == b2 / 64;
  }

  lemma OneByteRoundTrip(b0: byte)
    ensures Base64Decode(Base64Encode([b0])) == Some([b0])
  {
    var t := EncodeTriple(b0, 0, 0);
    var s := Base64Encode([b0]);
    SextetRoundTrip(b0 / 4);
    SextetRoundTrip((b0 % 4) * 16);
    assert s == [t[0], t[1], '=', '='];
    assert CharSextet('=') == None;
    assert Byte0(b0 / 4, (b0 % 4) * 16) == b0;
    assert DecodeQuad(s[0], s[1], s[2], s[3], true) == Some([b0]);
  }

  lemma TwoByteRoundTrip(b0: byte, b1: byte)
    ensures Base64Decode(Base64Encode([b0, b1])) == Some([b0, b1])
  {
    var t := EncodeTriple(b0, b1, 0);
    var s := Base64Encode([b0, b1]);
    SextetRoundTrip(b0 / 4);
    SextetRoundTrip((b0 % 4) * 16 + b1 / 16);
    SextetRoundTrip((b1 % 16) * 4);
    assert s == [t[0], t[1], t[2], '='];
    assert CharSextet('=') == None;
    assert Byte0(b0 / 4, (b0 % 4) * 16 + b1 / 16) == b0;
    assert Byte1((b0 % 4) * 16 + b1 / 16, (b1 % 16) * 4) == b1;
    assert DecodeQuad(s[0], s[1], s[2], s[3], true) == Some([b0, b1]);
  }

  lemma DecodeGroupThenRest(t: string, rest: string, bs: seq<byte>, tail: seq<byte>)
    requires |t| == 4 && |rest| > 0
    requires DecodeQuad(t[0], t[1], t[2], t[3], false) == Some(bs)
    requires Base64Decode(rest) == Some(tail)
    ensures Base64Decode(t + rest) == Some(bs + tail)
  {
    var s := t + rest;
    assert s[0] == t[0] && s[1] == t[1] && s[2] == t[2] && s[3] == t[3];
    assert s[4..] == rest;
  }

  lemma ThreeByteRoundTrip(b: seq<byte>)
    requires |b| == 3
    ensures Base64Decode(Base64Encode(b)) == Some(b)
  {
    var t := EncodeTriple(b[0], b[1], b[2]);
    TripleRoundTrip(b[0], b[1], b[2], true);
    assert Base64Encode(b[3..]) == "";
    assert Base64Encode(b) == t;
    assert b == [b[0], b[1], b[2]];
  }

  lemma SplitFirstThree(b: seq<byte>)
    requires |b| >= 3
    ensures b == [b[0], b[1], b[2]] + b[3..]
  {
  }

  /** One inductive step: a full leading group in front of a string that already round-trips. */
  lemma LongRoundTrip(b: seq<byte>)
    requires |b| > 3
    requires Base64Decode(Base64Encode(b[3..])) == Some(b[3..])
    ensures Base64Decode(Base64Encode(b)) == Some(b)
  {
    SplitFirstThree(b);
    var t := EncodeTriple(b[0], b[1], b[2]);
    assert Base64Encode(b) == t + Base64Encode(b[3..]);
    TripleRoundTrip(b[0], b[1], b[2], false);
    DecodeGroupThenRest(t, Base64Encode(b[3..]), [b[0], b[1], b[2]], b[3..]);
  }

  /** Decoding undoes encoding, for every byte string. */
  lemma {:induction false} Base64RoundTrip(b: seq<byte>)
    ensures Base64Decode(Base64Encode(b)) == Some(b)
    decreases |b|
  {
    if |b| == 1 {
      assert b == [b[0]];
      OneByteRoundTrip(b[0]);
    } else if |b| == 2 {
      assert b == [b[0], b[1]];
      TwoByteRoundTrip(b[0], b[1]);
    } else if |b| == 3 {
      ThreeByteRoundTrip(b);
    } else if |b| > 3 {
      Base64RoundTrip(b[3..]);
      LongRoundTrip(b);
    }
  }

  // ---------------------------------------------------------------- the Fernet key

  /** The key passed to `Fernet(...)`, derived once in the service's constructor. */
  function DeriveKey(secret: string): (key: string)
    ensures |key| == 44
  {
    Base64Encode(RawKey(Utf8Encode(secret)))
  }

  /** The derived key decodes back to the 32 raw key bytes. */
  lemma DerivedKeyDecodes(secret: string)
    ensures Base64Decode(DeriveKey(secret)) == Some(RawKey(Utf8Encode(secret)))
  {
    Base64RoundTrip(RawKey(Utf8Encode(secret)));
  }

  /** Fernet accepts a key whose base64 decoding is exactly 32 bytes. */
  predicate FernetKeyValid(key: string) {
    match Base64Decode(key)
    case Some(b) => |b| == KeyLength
    case None => false
  }

  /** Every configured secret, the empty one and one longer than 32 bytes included, yields a key Fernet accepts. */
  lemma DerivedKeyIsValid(secret: string)
    ensures FernetKeyValid(DeriveKey(secret))
  {
    DerivedKeyDecodes(secret);
  }

  /** Two secrets with the same first 32 UTF-8 bytes derive the same key: everything after byte 32 is ignored. */
  lemma {:induction false} KeyIgnoresSecretTail(s1: string, s2: string)
    requires |Utf8Encode(s1)| >= KeyLength && |Utf8Encode(s2)| >= KeyLength
    requires Utf8Encode(s1)[..KeyLength] == Utf8Encode(s2)[..KeyLength]
    ensures DeriveKey(s1) == DeriveKey(s2)
  {
    assert RawKey(Utf8Encode(s1)) == RawKey(Utf8Encode(s2));
  }

  // ---------------------------------------------------------------- the cipher

  /**
   * Fernet, as an abstract pair of functions of the key and the text.
   * `Err` carries the text of the exception the library raised.
   */
  datatype Cipher = Cipher(
    encrypt: (string, string) -> Result<string, string>,
    decrypt: (string, string) -> Result<string, string>)

  /** The round-trip property Fernet guarantees: what was encrypted under a key decrypts under it. */
  ghost predicate RoundTrips(c: Cipher) {
    forall key, p :: c.encrypt(key, p).Ok? ==> c.decrypt(key, c.encrypt(key, p).value) == Ok(p)
  }

  const EncryptionFailed: string := "Password encryption failed: "
  const DecryptionFailed: string := "Password decryption failed: "
  /** The text of the AttributeError raised by `None.encode()`. */
  const NoneEncode: string := "'NoneType' object has no attribute 'encode'"

  /** An EncryptionService: the derived key and the cipher it feeds. */
  datatype EncryptionService = EncryptionService(key: string, cipher: Cipher) {

    /**
     * `encrypt_password`. The argument is `None` when a caller passes an
     * explicit null, which Python lets through to `.encode()`.
     */
    function EncryptPassword(password: Option<string>): (r: Result<string, Error>)
      ensures r.Ok? <==> password.Some? && cipher.encrypt(key, password.value).Ok?
      ensures r.Ok? ==> r.value == cipher.encrypt(key, password.value).value
      ensures r.Err? ==> r.error.Runtime? && EncryptionFailed <= r.error.msg
    {
      match password
      case None => Err(Runtime(EncryptionFailed + NoneEncode))
      case Some(p) =>
        match cipher.encrypt(key, p)
        case Ok(c) => Ok(c)
        case Err(detail) => Err(Runtime(EncryptionFailed + detail))
    }

    /** `decrypt_password`: a failure of the cipher never yields plaintext. */
    function DecryptPassword(encrypted: string): (r: Result<string, Error>)
      ensures r.Ok? <==> cipher.decrypt(key, encrypted).Ok?
      ensures r.Ok? ==> r.value == cipher.decrypt(key, encrypted).value
      ensures r.Err? ==> r.error.Runtime? && DecryptionFailed <= r.error.msg
    {
      match cipher.decrypt(key, encrypted)
      case Ok(p) => Ok(p)
      case Err(detail) => Err(Runtime(DecryptionFailed + detail))
    }
  }

  /** `EncryptionService()`: the key is derived from the configured secret, once. */
  function NewEncryptionService(secret: string, cipher: Cipher): (s: EncryptionService)
    ensures FernetKeyValid(s.key)
    ensures Base64Decode(s.key) == Some(RawKey(Utf8Encode(secret)))
    ensures s.cipher == cipher
  {
    DerivedKeyIsValid(secret);
    DerivedKeyDecodes(secret);
    EncryptionService(DeriveKey(secret), cipher)
  }

  /** Under the cipher's round trip, decrypting what `encrypt_password` produced returns the plaintext. */
  lemma DecryptAfterEncrypt(svc: EncryptionService, p: string)
    requires RoundTrips(svc.cipher)
    ensures svc.EncryptPassword(Some(p)).Ok? ==> svc.DecryptPassword(svc.EncryptPassword(Some(p)).value) == Ok(p)
  {
  }
}
