/**
 * The cryptographic primitives the auth handlers call, kept opaque:
 * `bcrypt.hash` is passed to each handler as a function to a `Digest`, and
 * `crypto.randomBytes(32)` as a value of type `Bytes32`. What is modelled
 * exactly is `Buffer.toString("hex")`, which turns the random bytes into the
 * raw reset token.
 */
module Crypto {

  /** The output of bcrypt. Its own type keeps it apart from the plaintext it was computed from. */
  datatype Digest = Digest(encoded: string)

  /** The cost factor both handlers pass to bcrypt. */
  const HashSaltRounds: nat := 10

  /** The 32 bytes that `crypto.randomBytes(32)` returns. */
  type Bytes32 = s: seq<bv8> | |s| == 32 witness seq(32, _ => 0 as bv8)

  const HexDigits: string := "0123456789abcdef"

  predicate IsHexChar(c: char)
  {
    '0' <= c <= '9' || 'a' <= c <= 'f'
  }

  function HexDigit(n: int): (c: char)
    requires 0 <= n < 16
    ensures IsHexChar(c)
  {
    HexDigits[n]
  }

  function HexValue(c: char): (n: int)
    requires IsHexChar(c)
    ensures 0 <= n < 16
  {
    if c <= '9' then c as int - '0' as int else c as int - 'a' as int + 10
  }

  /** The digit and its value agree. */
  lemma HexValueOfDigit(n: int)
    requires 0 <= n < 16
    ensures HexValue(HexDigit(n)) == n
  {
  }

  /** `Buffer.toString("hex")`: two lower-case digits per byte, high nibble first. */
  function ToHex(bytes: seq<bv8>): (s: string)
    ensures |s| == 2 * |bytes|
    ensures forall i :: 0 <= i < |s| ==> IsHexChar(s[i])
  {
    if bytes == [] then ""
    else [HexDigit(bytes[0] as int / 16), HexDigit(bytes[0] as int % 16)] + ToHex(bytes[1..])
  }

  /** The byte that a pair of hexadecimal digits stands for. */
  function ByteOf(hi: char, lo: char): bv8
    requires IsHexChar(hi) && IsHexChar(lo)
  {
    (HexValue(hi) * 16 + HexValue(lo)) as bv8
  }

  /** Reads back a string of hexadecimal digit pairs. */
  function FromHex(s: string): (bytes: seq<bv8>)
    requires |s| % 2 == 0
    requires forall i :: 0 <= i < |s| ==> IsHexChar(s[i])
    ensures |bytes| * 2 == |s|
  {
    if s == "" then []
    else [ByteOf(s[0], s[1])] + FromHex(s[2..])
  }

  /** One byte survives its two hexadecimal digits. */
  lemma ByteRoundTrip(x: bv8)
    ensures ByteOf(HexDigit(x as int / 16), HexDigit(x as int % 16)) == x
  {
    var b := x as int;
    HexValueOfDigit(b / 16);
    HexValueOfDigit(b % 16);
    assert b / 16 * 16 + b % 16 == b;
  }

  /** The hex encoding loses nothing: the bytes can be read back from it. */
  lemma {:induction false} FromHexToHex(bytes: seq<bv8>)
    ensures FromHex(ToHex(bytes)) == bytes
  {
    if bytes != [] {
      var s := ToHex(bytes);
      var hi, lo := HexDigit(bytes[0] as int / 16), HexDigit(bytes[0] as int % 16);
      assert s == [hi, lo] + ToHex(bytes[1..]);
      assert s[0] == hi && s[1] == lo && s[2..] == ToHex(bytes[1..]);
      ByteRoundTrip(bytes[0]);
      FromHexToHex(bytes[1..]);
      assert FromHex(s) == [ByteOf(hi, lo)] + FromHex(s[2..]);
    }
  }

  /** Distinct random byte strings give distinct raw tokens. */
  lemma ToHexInjective(a: seq<bv8>, b: seq<bv8>)
    requires ToHex(a) == ToHex(b)
    ensures a == b
  {
    FromHexToHex(a);
    FromHexToHex(b);
  }

  /** The raw reset token built from 32 random bytes has 64 hexadecimal characters. */
  lemma RawTokenShape(random: Bytes32)
    ensures |ToHex(random)| == 64
    ensures forall i :: 0 <= i < 64 ==> IsHexChar(ToHex(random)[i])
  {
  }
}
