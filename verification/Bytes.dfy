/** Bytes, and the 32-bit conversions of the wire format: network byte order
    (htonl, ntohl), the reinterpretation as int32_t, and its wrap-around. */
module Bytes {

  newtype byte = x: int | 0 <= x < 256

  type bytes = seq<byte>

  const NUL: byte := 0

  const TWO_TO_31: int := 0x8000_0000
  const TWO_TO_32: int := 0x1_0000_0000

  /** The four bytes of `n` in network byte order. */
  function Big32(n: nat): (r: bytes)
    requires n < TWO_TO_32
    ensures |r| == 4
  {
    [(n / 0x100_0000) as byte, (n / 0x1_0000 % 0x100) as byte, (n / 0x100 % 0x100) as byte, (n % 0x100) as byte]
  }

  /** The unsigned value of the first four bytes in network byte order. */
  function Read32(s: bytes): (n: nat)
    requires |s| >= 4
    ensures n < TWO_TO_32
  {
    s[0] as int * 0x100_0000 + s[1] as int * 0x1_0000 + s[2] as int * 0x100 + s[3] as int
  }

  lemma Read32Front(s: bytes, t: bytes)
    requires |s| >= 4 && |t| >= 4 && s[..4] == t[..4]
    ensures Read32(s) == Read32(t)
  {
    assert forall i | 0 <= i < 4 :: s[i] == s[..4][i] && t[i] == t[..4][i];
  }

  lemma Read32Big32(n: nat, tail: bytes)
    requires n < TWO_TO_32
    ensures Read32(Big32(n) + tail) == n
  {
    Read32Front(Big32(n) + tail, Big32(n));
    Digits(n);
  }

  lemma Digits(n: nat)
    requires n < TWO_TO_32
    ensures Read32(Big32(n)) == n
  {
    var a, b, c := n / 0x100_0000, n / 0x1_0000, n / 0x100;
    assert c == b * 0x100 + c % 0x100;
    assert b == a * 0x100 + b % 0x100;
    assert n == c * 0x100 + n % 0x100;
  }

  /** The first byte counts most, each next one 256 times less. */
  lemma NetworkOrder(a: byte, b: byte, c: byte, d: byte)
    ensures Read32([a, b, c, d]) == ((a as int * 256 + b as int) * 256 + c as int) * 256 + d as int
    ensures Read32([0, 0, 0, d]) == d as int && Read32([0, b, c, d]) < 0x100_0000
  {
  }

  /** Numbers are ordered as their bytes are, the first difference deciding. */
  lemma NumbersCompareAsBytes(s: bytes, t: bytes, k: nat)
    requires |s| >= 4 && |t| >= 4 && k < 4 && s[..k] == t[..k] && s[k] < t[k]
    ensures Read32(s) < Read32(t)
  {
    assert forall i | 0 <= i < k :: s[i] == s[..k][i] && t[i] == t[..k][i];
  }

  /** Bytes that are these characters. */
  predicate IsText(b: bytes, text: string) {
    |b| == |text| && forall k | 0 <= k < |b| :: b[k] as int == text[k] as int
  }

  /** A uint32_t read back as an int32_t. */
  function Signed32(n: nat): (h: int)
    requires n < TWO_TO_32
    ensures -TWO_TO_31 <= h < TWO_TO_31
  {
    if n < TWO_TO_31 then n else n - TWO_TO_32
  }

  /** An int sum that left the int32_t range upwards, wrapped. */
  function WrapUp32(x: int): int {
    if x < TWO_TO_31 then x else x - TWO_TO_32
  }
}
