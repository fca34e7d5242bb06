/** Byte strings, hexadecimal text and hash functions.

    SHA-256 and HMAC are not modelled: a hash is any function from byte strings to
    32-byte digests.  No such function is injective, so nothing here assumes one.  What a
    lemma may ask for is that the hash is free of collisions on a named, finite set of
    messages: the ones the code under study really hashes. */
module Hashing {

  newtype byte = x: int | 0 <= x < 256

  type Bytes = seq<byte>

  /** The length of a digest, in bytes. */
  const DIGEST_LENGTH: nat := 32

  function ZeroBytes(n: nat): (bytes: Bytes)
    ensures |bytes| == n
  {
    if n == 0 then [] else [0] + ZeroBytes(n - 1)
  }

  type Digest = bytes: Bytes | |bytes| == DIGEST_LENGTH witness ZeroBytes(32)

  type Hash = Bytes -> Digest

  /** No two different messages of `messages` share a digest. */
  ghost predicate CollisionFree(h: Hash, messages: set<Bytes>) {
    forall m, n | m in messages && n in messages && h(m) == h(n) :: m == n
  }

  predicate IsAscii(text: string) {
    forall i | 0 <= i < |text| :: text[i] < '\U{80}'
  }

  /** UTF-8 of a text whose characters are all ASCII: one byte each (section 3 of RFC 3629). */
  function Utf8(text: string): (bytes: Bytes)
    requires IsAscii(text)
    ensures |bytes| == |text|
  {
    seq(|text|, i requires 0 <= i < |text| => text[i] as int as byte)
  }

  /** The text whose code points are the bytes. */
  function CodePoints(bytes: Bytes): string {
    seq(|bytes|, i requires 0 <= i < |bytes| => bytes[i] as int as char)
  }

  lemma {:induction false} Utf8ReadsBack(text: string)
    requires IsAscii(text)
    ensures CodePoints(Utf8(text)) == text
  {
  }

  lemma {:induction false} Utf8Concat(a: string, b: string)
    requires IsAscii(a) && IsAscii(b)
    ensures IsAscii(a + b) && Utf8(a + b) == Utf8(a) + Utf8(b)
  {
  }

  function HexDigit(n: int): (c: char)
    requires 0 <= n < 16
    ensures '0' <= c <= '9' || 'a' <= c <= 'f'
  {
    if n < 10 then '0' + n as char else 'a' + (n - 10) as char
  }

  /** What a lower-case hexadecimal digit stands for; -1 for any other character. */
  function HexValue(c: char): (n: int)
    ensures -1 <= n < 16
  {
    if '0' <= c <= '9' then c as int - '0' as int
    else if 'a' <= c <= 'f' then c as int - 'a' as int + 10
    else -1
  }

  lemma {:induction false} HexDigitReadsBack(n: int)
    requires 0 <= n < 16
    ensures HexValue(HexDigit(n)) == n
  {
  }

  /** Two lower-case hexadecimal digits a byte, as `bytes.hex` and `hexdigest` print them. */
  function Hex(bytes: Bytes): (text: string)
    ensures |text| == 2 * |bytes|
    ensures IsAscii(text)
  {
    if bytes == [] then "" else
    [HexDigit(bytes[0] as int / 16), HexDigit(bytes[0] as int % 16)] + Hex(bytes[1..])
  }

  /** Each byte is what its pair of digits stands for, the high one first. */
  lemma {:induction false} HexReadsBack(bytes: Bytes, i: nat)
    requires i < |bytes|
    ensures HexValue(Hex(bytes)[2 * i]) >= 0 && HexValue(Hex(bytes)[2 * i + 1]) >= 0
    ensures HexValue(Hex(bytes)[2 * i]) * 16 + HexValue(Hex(bytes)[2 * i + 1]) == bytes[i] as int
  {
    HexDigitReadsBack(bytes[0] as int / 16);
    HexDigitReadsBack(bytes[0] as int % 16);
    if i > 0 {
      HexReadsBack(bytes[1..], i - 1);
      assert Hex(bytes)[2..] == Hex(bytes[1..]);
      assert Hex(bytes)[2 * i] == Hex(bytes)[2..][2 * (i - 1)];
      assert Hex(bytes)[2 * i + 1] == Hex(bytes)[2..][2 * (i - 1) + 1];
    }
  }

  lemma {:induction false} HexInjective(a: Bytes, b: Bytes)
    requires Hex(a) == Hex(b)
    ensures a == b
  {
    assert |a| == |b|;
    forall i | 0 <= i < |a| ensures a[i] == b[i] {
      HexReadsBack(a, i);
      HexReadsBack(b, i);
    }
  }

  /** Nothing but the digit zero. */
  predicate AllZeros(text: string) {
    forall i | 0 <= i < |text| :: text[i] == '0'
  }

  lemma {:induction false} ZerosText(n: nat)
    ensures |Hex(ZeroBytes(n))| == 2 * n && AllZeros(Hex(ZeroBytes(n)))
  {
    if n > 0 {
      ZerosText(n - 1);
      assert ZeroBytes(n)[1..] == ZeroBytes(n - 1);
    }
  }
}
