/** Bytes and the fixed-width integers the wire formats use. */
module Bytes {

  type byte = x: int | 0 <= x < 256

  /** `(n as u16).to_le_bytes()`: keeps the low 16 bits. */
  function LE16(n: nat): (b: seq<byte>)
    ensures |b| == 2
  {
    [n % 256, n / 256 % 256]
  }

  function FromLE16(b: seq<byte>): nat
    requires |b| == 2
  {
    var lo: int, hi: int := b[0], b[1];
    lo + 256 * hi
  }

  /** `(n as u32).to_le_bytes()`: keeps the low 32 bits. */
  function LE32(n: nat): seq<byte> {
    LE16(n % 0x1_0000) + LE16(n / 0x1_0000)
  }

  function FromLE32(b: seq<byte>): nat
    requires |b| == 4
  {
    FromLE16(b[..2]) + 0x1_0000 * FromLE16(b[2..])
  }

  lemma Shifted(k: nat, a: nat)
    ensures (256 * k + a) / 256 == k + a / 256 && (256 * k + a) % 256 == a % 256
  {
  }

  lemma LE16RoundTrip(n: nat)
    ensures FromLE16(LE16(n)) == n % 0x1_0000
  {
    var q, r := n / 0x1_0000, n % 0x1_0000;
    assert n == 256 * (256 * q) + r;
    Shifted(256 * q, r);
    Shifted(q, r / 256);
  }

  lemma LE32RoundTrip(n: nat)
    ensures |LE32(n)| == 4
    ensures FromLE32(LE32(n)) == n % 0x1_0000_0000
  {
    hide LE16, FromLE16;
    var lo, hi := LE16(n % 0x1_0000), LE16(n / 0x1_0000);
    assert (lo + hi)[..2] == lo && (lo + hi)[2..] == hi;
    LE16RoundTrip(n % 0x1_0000);
    LE16RoundTrip(n / 0x1_0000);
    TwoHalves(n);
  }

  lemma TwoHalves(n: nat)
    ensures n % 0x1_0000 % 0x1_0000 + 0x1_0000 * (n / 0x1_0000 % 0x1_0000) == n % 0x1_0000_0000
  {
    var q := n / 0x1_0000_0000;
    var r := n - q * 0x1_0000_0000;
    assert n / 0x1_0000 == q * 0x1_0000 + r / 0x1_0000;
  }

  lemma Regroup(a: seq<byte>, b: seq<byte>, c: seq<byte>)
    ensures (a + b) + c == a + (b + c)
  {
  }
}
