/** UTF-8, as Rust's `String` and `str::from_utf8` use it.  A Dafny `char` is a
Unicode scalar value, so a `string` is exactly the contents of a Rust `String`. */
module Utf8 {
  import opened Bytes
  import opened Wrappers

  /** The bytes `String::push` appends for one character. */
  function EncodeChar(c: char): (b: seq<byte>)
    ensures 1 <= |b| <= 4
    ensures c as int < 0x80 <==> b[0] < 0x80
    ensures |b| == LeadLength(b[0])
  {
    var n := c as int;
    if n < 0x80 then [n]
    else if n < 0x800 then [0xc0 + n / 64, Cont(n)]
    else if n < 0x1_0000 then [0xe0 + n / 4096, Cont(n / 64), Cont(n)]
    else [0xf0 + n / 0x4_0000, Cont(n / 4096), Cont(n / 64), Cont(n)]
  }

  function Cont(n: nat): byte {
    0x80 + n % 64
  }

  /** Length of the sequence a lead byte announces, as the JSON parser reads it. */
  function LeadLength(b: byte): nat {
    if b < 0x80 then 1 else if b >= 0xf0 then 4 else if b >= 0xe0 then 3 else 2
  }

  predicate IsCont(b: byte) {
    0x80 <= b < 0xc0
  }

  predicate IsScalar(n: int) {
    0 <= n < 0xd800 || 0xe000 <= n < 0x11_0000
  }

  /** `str::from_utf8` on a chunk cut to the length its lead byte announces:
      the one character it holds, or `None` for bytes that are not well formed
      (stray continuations, overlong forms, surrogates, values past 0x10ffff). */
  function DecodeChunk(b: seq<byte>): Option<char>
    requires |b| > 0 && b[0] >= 0x80 && |b| == LeadLength(b[0])
  {
    if exists i :: 1 <= i < |b| && !IsCont(b[i]) then None
    else if |b| == 2 then
      var n := Bits(b[0], 0xc0) * 64 + Bits(b[1], 0x80);
      if 0x80 <= n then Some(n as char) else None
    else if |b| == 3 then
      var n := Bits(b[0], 0xe0) * 4096 + Bits(b[1], 0x80) * 64 + Bits(b[2], 0x80);
      if 0x800 <= n && IsScalar(n) then Some(n as char) else None
    else
      var n := Bits(b[0], 0xf0) * 0x4_0000 + Bits(b[1], 0x80) * 4096 + Bits(b[2], 0x80) * 64
               + Bits(b[3], 0x80);
      if 0x1_0000 <= n && IsScalar(n) then Some(n as char) else None
  }

  /** What a byte carries beyond its marker. */
  function Bits(b: byte, marker: int): int {
    b - marker
  }

  lemma DecodeEncode(c: char)
    requires c as int >= 0x80
    ensures DecodeChunk(EncodeChar(c)) == Some(c)
  {
    var n := c as int;
    if 0x1_0000 <= n {
      assert n / 64 / 64 == n / 4096 && n / 4096 / 64 == n / 0x4_0000;
    } else if 0x800 <= n {
      assert n / 64 / 64 == n / 4096;
    }
  }

  lemma Sextet(q: int, r: int)
    requires 0 <= r < 64
    ensures (q * 64 + r) / 64 == q && (q * 64 + r) % 64 == r
  {
  }

  /** ... and only that chunk does. */
  lemma EncodeDecode(b: seq<byte>)
    requires |b| > 0 && b[0] >= 0x80 && |b| == LeadLength(b[0]) && DecodeChunk(b).Some?
    ensures EncodeChar(DecodeChunk(b).value) == b && DecodeChunk(b).value as int >= 0x80
  {
    var n := DecodeChunk(b).value as int;
    assert IsCont(b[1]);
    if |b| == 2 {
      DecodeTwo(b[0], b[1], n);
    } else if |b| == 3 {
      assert IsCont(b[2]);
      DecodeThree(b[0], b[1], b[2], n);
    } else {
      assert IsCont(b[2]) && IsCont(b[3]);
      DecodeFour(b[0], b[1], b[2], b[3], n);
    }
  }

  lemma DecodeTwo(x: byte, y: byte, n: int)
    requires 0x80 <= x < 0xe0 && IsCont(y) && n == (x - 0xc0) * 64 + (y - 0x80) && 0x80 <= n
    ensures n < 0x800 && 0xc0 + n / 64 == x && Cont(n) == y
  {
    Sextet(x - 0xc0, y - 0x80);
  }

  lemma DecodeThree(x: byte, y: byte, z: byte, n: int)
    requires 0xe0 <= x < 0xf0 && IsCont(y) && IsCont(z) && 0x800 <= n
    requires n == (x - 0xe0) * 4096 + (y - 0x80) * 64 + (z - 0x80)
    ensures n < 0x1_0000 && 0xe0 + n / 4096 == x && Cont(n / 64) == y && Cont(n) == z
  {
    var m := (x - 0xe0) * 64 + (y - 0x80);
    assert n == m * 64 + (z - 0x80);
    Sextet(m, z - 0x80);
    Sextet(x - 0xe0, y - 0x80);
    assert n / 4096 == n / 64 / 64;
  }

  lemma DecodeFour(w: byte, x: byte, y: byte, z: byte, n: int)
    requires 0xf0 <= w && IsCont(x) && IsCont(y) && IsCont(z) && 0x1_0000 <= n
    requires n == (w - 0xf0) * 0x4_0000 + (x - 0x80) * 4096 + (y - 0x80) * 64 + (z - 0x80)
    ensures 0xf0 + n / 0x4_0000 == w && Cont(n / 4096) == x && Cont(n / 64) == y && Cont(n) == z
  {
    var k := (w - 0xf0) * 64 + (x - 0x80);
    var m := k * 64 + (y - 0x80);
    assert n == m * 64 + (z - 0x80);
    Sextet(m, z - 0x80);
    Sextet(k, y - 0x80);
    Sextet(w - 0xf0, x - 0x80);
    assert n / 4096 == n / 64 / 64 && n / 0x4_0000 == n / 4096 / 64;
  }

  // -------------------------------------------------------------------------
  // Whole texts
  // -------------------------------------------------------------------------

  /** Bytes `fs::read_to_string` takes. */
  predicate IsText(b: seq<byte>)
    decreases |b|
  {
    if b == [] then true
    else if b[0] < 0x80 then IsText(b[1..])
    else
      var n := LeadLength(b[0]);
      n <= |b| && DecodeChunk(b[..n]).Some? && IsText(b[n..])
  }

  lemma {:induction false} TextConcat(a: seq<byte>, b: seq<byte>)
    requires IsText(a) && IsText(b)
    ensures IsText(a + b)
    decreases |a|
  {
    if a == [] {
      assert a + b == b;
    } else {
      var n := LeadLength(a[0]);
      TextConcat(a[n..], b);
      assert (a + b)[n..] == a[n..] + b;
      assert (a + b)[..n] == a[..n];
    }
  }

  lemma {:induction false} AsciiIsText(b: seq<byte>)
    requires forall i :: 0 <= i < |b| ==> b[i] < 0x80
    ensures IsText(b)
  {
    if b != [] {
      AsciiIsText(b[1..]);
    }
  }

  lemma CharIsText(c: char)
    ensures IsText(EncodeChar(c))
  {
    var b := EncodeChar(c);
    if c as int >= 0x80 {
      DecodeEncode(c);
      assert b[..|b|] == b && b[|b|..] == [];
    } else {
      assert b[1..] == [];
    }
  }
}
