/**
 * Python's `secrets.token_hex` over bytes supplied by the caller (the random
 * source itself is an input of the model), and the archive password derived
 * from it.
 */
module Secrets {

  newtype byte = x: int | 0 <= x < 256

  const HexDigits: string := "0123456789abcdef"

  predicate IsLowerHex(c: char) {
    '0' <= c <= '9' || 'a' <= c <= 'f'
  }

  /** The value of one lowercase hexadecimal digit. */
  function DigitValue(c: char): (v: nat)
    requires IsLowerHex(c)
    ensures v < 16 && HexDigits[v] == c
  {
    if c <= '9' then c as int - '0' as int else c as int - 'a' as int + 10
  }

  /** `bytes.hex()`: two lowercase digits per byte, high nibble first. */
  function TokenHex(bytes: seq<byte>): (r: string)
    ensures |r| == 2 * |bytes|
    ensures forall k :: 0 <= k < |r| ==> IsLowerHex(r[k])
  {
    if bytes == [] then ""
    else [HexDigits[bytes[0] / 16], HexDigits[bytes[0] % 16]] + TokenHex(bytes[1..])
  }

  /** The byte two hexadecimal digits spell, high nibble first. */
  function HexByte(hi: char, lo: char): byte
    requires IsLowerHex(hi) && IsLowerHex(lo)
  {
    (DigitValue(hi) * 16 + DigitValue(lo)) as byte
  }

  /** `bytes.fromhex(s)` for the lowercase digit strings that `TokenHex` produces. */
  function FromHex(s: string): (bytes: seq<byte>)
    requires |s| % 2 == 0
    requires forall k :: 0 <= k < |s| ==> IsLowerHex(s[k])
    ensures |bytes| == |s| / 2
  {
    if s == [] then []
    else [HexByte(s[0], s[1])] + FromHex(s[2..])
  }

  /** The hex text determines the bytes it was made from. */
  lemma {:induction false} FromHexTokenHex(bytes: seq<byte>)
    ensures FromHex(TokenHex(bytes)) == bytes
  {
    if bytes != [] {
      var hi, lo := HexDigits[bytes[0] / 16], HexDigits[bytes[0] % 16];
      var rest := TokenHex(bytes[1..]);
      assert TokenHex(bytes) == [hi, lo] + rest;
      FromHexCons(hi, lo, rest);
      FromHexTokenHex(bytes[1..]);
      ByteDigits(bytes[0]);
    }
  }

  /** `FromHex` reads the first two digits as one byte and goes on with the rest. */
  lemma FromHexCons(hi: char, lo: char, rest: string)
    requires IsLowerHex(hi) && IsLowerHex(lo)
    requires |rest| % 2 == 0 && forall k :: 0 <= k < |rest| ==> IsLowerHex(rest[k])
    ensures FromHex([hi, lo] + rest) == [HexByte(hi, lo)] + FromHex(rest)
  {
    assert ([hi, lo] + rest)[2..] == rest;
  }

  /** The two digits `TokenHex` writes for a byte read back as that byte. */
  lemma ByteDigits(b: byte)
    ensures HexByte(HexDigits[b / 16], HexDigits[b % 16]) == b
  {
    var hi, lo := b as int / 16, b as int % 16;
    assert DigitValue(HexDigits[hi]) == hi by { DigitOf(hi); }
    assert DigitValue(HexDigits[lo]) == lo by { DigitOf(lo); }
  }

  lemma DigitOf(v: nat)
    requires v < 16
    ensures IsLowerHex(HexDigits[v]) && DigitValue(HexDigits[v]) == v
  {
  }

  /**
   * `secrets.token_hex(length // 2)[:length]`, given the `length // 2` random
   * bytes: exactly `2 * (length / 2)` lowercase hex digits, so never more
   * than `length` and one short of it when `length` is odd. The slice never
   * cuts anything off.
   */
  function Password(length: nat, entropy: seq<byte>): (pw: string)
    requires |entropy| == length / 2
    ensures |pw| == 2 * (length / 2) <= length
    ensures pw == TokenHex(entropy)
    ensures forall k :: 0 <= k < |pw| ==> IsLowerHex(pw[k])
  {
    var token := TokenHex(entropy);
    token[..if length < |token| then length else |token|]
  }

  /** Two different draws of random bytes never give the same password. */
  lemma PasswordInjective(length: nat, e1: seq<byte>, e2: seq<byte>)
    requires |e1| == |e2| == length / 2
    requires Password(length, e1) == Password(length, e2)
    ensures e1 == e2
  {
    FromHexTokenHex(e1);
    FromHexTokenHex(e2);
  }
}
