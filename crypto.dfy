/**
 * The two hash functions the system relies on, kept abstract:
 * SHA-256 for API keys (deterministic, used for indexed lookup) and bcrypt
 * for passwords (salted, and reading only the first 72 bytes of the UTF-8
 * encoded password). Neither algorithm is computed; each is modelled by the
 * property the code relies on.
 */
module Crypto {

  /**
   * A SHA-256 hex digest, represented by the string it was computed from.
   * Equal digests therefore mean equal inputs: collision resistance is
   * taken as injectivity.
   */
  datatype Digest = Sha256Of(preimage: string)

  /** `hashlib.sha256(s.encode('utf-8')).hexdigest()` */
  function Sha256Hex(s: string): Digest {
    Sha256Of(s)
  }

  /** Two strings have the same digest only when they are the same string. */
  lemma Sha256Injective(s: string, t: string)
    ensures Sha256Hex(s) == Sha256Hex(t) <==> s == t
  {
  }

  /** The UTF-8 encoding of one character, as byte values. */
  function CharUtf8(c: char): (b: seq<int>)
    ensures 1 <= |b| <= 4 && |b| == Utf8Width(b[0])
    ensures forall i :: 0 <= i < |b| ==> 0 <= b[i] < 256
  {
    var n := c as int;
    if n < 0x80 then [n]
    else if n < 0x800 then [0xC0 + n / 64, 0x80 + n % 64]
    else if n < 0x1_0000 then [0xE0 + n / 64 / 64, 0x80 + n / 64 % 64, 0x80 + n % 64]
    else [0xF0 + n / 64 / 64 / 64, 0x80 + n / 64 / 64 % 64, 0x80 + n / 64 % 64, 0x80 + n % 64]
  }

  /** How many bytes the character with lead byte `b` takes. */
  function Utf8Width(b: int): nat {
    if b < 0x80 then 1 else if b < 0xE0 then 2 else if b < 0xF0 then 3 else 4
  }

  /** The code point a byte group of one character stands for. */
  function Utf8Value(b: seq<int>): int
    requires 1 <= |b| <= 4
  {
    if |b| == 1 then b[0]
    else if |b| == 2 then (b[0] - 0xC0) * 64 + (b[1] - 0x80)
    else if |b| == 3 then (b[0] - 0xE0) * 4096 + (b[1] - 0x80) * 64 + (b[2] - 0x80)
    else (b[0] - 0xF0) * 262144 + (b[1] - 0x80) * 4096 + (b[2] - 0x80) * 64 + (b[3] - 0x80)
  }

  /** Decoding one character's bytes gives the character back. */
  lemma CharUtf8Decodes(c: char)
    ensures Utf8Value(CharUtf8(c)) == c as int
  {
    var n := c as int;
    var q1, r0 := n / 64, n % 64;
    var q2, r1 := q1 / 64, q1 % 64;
    var q3, r2 := q2 / 64, q2 % 64;
    assert n == 64 * q1 + r0 && q1 == 64 * q2 + r1 && q2 == 64 * q3 + r2;
  }

  /** `s.encode('utf-8')` */
  function Utf8(s: string): (b: seq<int>)
    ensures |s| <= |b| <= 4 * |s|
    ensures forall i :: 0 <= i < |b| ==> 0 <= b[i] <= 255
  {
    if s == [] then [] else CharUtf8(s[0]) + Utf8(s[1..])
  }

  /** Encoding distributes over concatenation. */
  lemma {:induction false} Utf8Append(s: string, t: string)
    ensures Utf8(s + t) == Utf8(s) + Utf8(t)
    decreases |s|
  {
    if s != [] {
      assert (s + t)[0] == s[0] && (s + t)[1..] == s[1..] + t;
      Utf8Append(s[1..], t);
      calc {
        Utf8(s + t);
        CharUtf8(s[0]) + Utf8(s[1..] + t);
        CharUtf8(s[0]) + (Utf8(s[1..]) + Utf8(t));
        (CharUtf8(s[0]) + Utf8(s[1..])) + Utf8(t);
      }
    } else {
      assert s + t == t;
    }
  }

  /** Different strings have different encodings. */
  lemma {:induction false} Utf8Injective(s: string, t: string)
    requires Utf8(s) == Utf8(t)
    ensures s == t
    decreases |s|
  {
    if s != [] && t != [] {
      var a := CharUtf8(s[0]);
      var b := CharUtf8(t[0]);
      var e := Utf8(s);
      assert e[0] == a[0] && e[0] == b[0];
      assert e[..|a|] == a && e[..|b|] == b;
      CharUtf8Decodes(s[0]);
      CharUtf8Decodes(t[0]);
      assert Utf8(s[1..]) == e[|a|..] == Utf8(t[1..]);
      Utf8Injective(s[1..], t[1..]);
      assert s == [s[0]] + s[1..];
      assert t == [t[0]] + t[1..];
    }
  }

  /** bcrypt reads at most this many bytes of a password. */
  const BcryptMaxBytes: nat := 72

  /** The bytes of `raw` that bcrypt uses: the first 72 of its UTF-8 encoding. */
  function BcryptInput(raw: string): (b: seq<int>)
    ensures |b| <= BcryptMaxBytes
    ensures |Utf8(raw)| <= BcryptMaxBytes ==> b == Utf8(raw)
    ensures |Utf8(raw)| > BcryptMaxBytes ==> b == Utf8(raw)[..BcryptMaxBytes]
  {
    var e := Utf8(raw);
    if |e| <= BcryptMaxBytes then e else e[..BcryptMaxBytes]
  }

  /** bcrypt salts are 16 random bytes. */
  const SaltBound: nat := 0x1_0000_0000_0000_0000_0000_0000_0000_0000

  /** A bcrypt hash: the salt it was made with and the password bytes it accepts. */
  datatype PasswordHash = Bcrypt(salt: nat, accepts: seq<int>)

  /** `bcrypt.hashpw(raw.encode('utf-8'), salt)` */
  function HashPassword(raw: string, salt: nat): PasswordHash {
    Bcrypt(salt, BcryptInput(raw))
  }

  /** `bcrypt.checkpw(raw.encode('utf-8'), hash)` */
  predicate CheckPassword(raw: string, h: PasswordHash) {
    BcryptInput(raw) == h.accepts
  }

  /** `bcrypt.gensalt()`: any of the 2^128 salts. */
  method GenSalt() returns (salt: nat)
    ensures salt < SaltBound
  {
    salt :| salt < SaltBound;
  }

  /**
   * A hash accepts the password it was made from, whatever the salt, and a
   * password shorter than 72 bytes is the only one it accepts.
   */
  lemma CheckPasswordExact(raw: string, other: string, salt: nat)
    ensures CheckPassword(raw, HashPassword(raw, salt))
    ensures |Utf8(raw)| < BcryptMaxBytes ==> (CheckPassword(other, HashPassword(raw, salt)) <==> other == raw)
  {
    if |Utf8(raw)| < BcryptMaxBytes && CheckPassword(other, HashPassword(raw, salt)) {
      assert |Utf8(other)| < BcryptMaxBytes;
      Utf8Injective(other, raw);
    }
  }

  /** Past 72 bytes nothing counts: every extension of a long password is accepted too. */
  lemma LongPasswordTruncated(raw: string, extra: string, salt: nat)
    requires |Utf8(raw)| >= BcryptMaxBytes
    ensures CheckPassword(raw + extra, HashPassword(raw, salt))
  {
    Utf8Append(raw, extra);
    assert Utf8(raw + extra)[..BcryptMaxBytes] == Utf8(raw)[..BcryptMaxBytes];
  }
}
