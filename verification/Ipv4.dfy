/** IPv4 addresses and subnets (`src/sys/netlink.rs`, `src/config.rs`,
`src/runtime/ipam.rs`). */
module Ipv4 {
  import opened Bytes
  import opened Wrappers
  import opened Text

  datatype Ip = Ip(a: byte, b: byte, c: byte, d: byte)

  const U32 := 0x1_0000_0000

  /** `u32::from_be_bytes`. */
  function ToU32(ip: Ip): (n: nat)
    ensures n < U32
  {
    var a: int, b: int, c: int, d: int := ip.a, ip.b, ip.c, ip.d;
    ((a * 256 + b) * 256 + c) * 256 + d
  }

  /** `u32::to_be_bytes`. */
  function OfU32(n: nat): Ip
    requires n < U32
  {
    Ip(n / 0x100_0000, n / 0x1_0000 % 256, n / 0x100 % 256, n % 256)
  }

  lemma U32RoundTrip(n: nat)
    requires n < U32
    ensures ToU32(OfU32(n)) == n
  {
    assert n == n / 0x100 * 256 + n % 256;
    assert n / 0x100 == n / 0x1_0000 * 256 + n / 0x100 % 256;
    assert n / 0x1_0000 == n / 0x100_0000 * 256 + n / 0x1_0000 % 256;
  }

  lemma ToU32Injective(x: Ip, y: Ip)
    ensures ToU32(x) == ToU32(y) <==> x == y
  {
    if ToU32(x) == ToU32(y) {
      LastByte((x.a * 256 + x.b) * 256 + x.c, x.d, (y.a * 256 + y.b) * 256 + y.c, y.d);
      LastByte(x.a * 256 + x.b, x.c, y.a * 256 + y.b, y.c);
      LastByte(x.a, x.b, y.a, y.b);
    }
  }

  lemma LastByte(m: nat, b: byte, n: nat, c: byte)
    requires m * 256 + b == n * 256 + c
    ensures m == n && b == c
  {
  }

  // -------------------------------------------------------------------------
  // Text
  // -------------------------------------------------------------------------

  function FormatIpv4(ip: Ip): string {
    Decimal(ip.a) + ['.'] + (Decimal(ip.b) + ['.'] + (Decimal(ip.c) + ['.'] + Decimal(ip.d)))
  }

  function ParseIpv4(s: string): Result<Ip> {
    var parts := Split(Trim(s), '.');
    if |parts| != 4 then Err
    else
      var a := ParseUnsigned(parts[0], 255);
      var b := ParseUnsigned(parts[1], 255);
      var c := ParseUnsigned(parts[2], 255);
      var d := ParseUnsigned(parts[3], 255);
      if a.None? || b.None? || c.None? || d.None? then Err
      else Ok(Ip(a.value, b.value, c.value, d.value))
  }

  function ParseCidr(s: string): Result<(Ip, nat)> {
    var parts := SplitOnce(s, '/');
    if parts.None? then Err
    else
      var prefix := ParseUnsigned(parts.value.1, 255);
      if prefix.None? || prefix.value > 32 then Err
      else
        var ip := ParseIpv4(parts.value.0);
        if ip.Err? then Err else Ok((ip.value, prefix.value))
  }

  lemma Ipv4RoundTrip(ip: Ip)
    ensures ParseIpv4(FormatIpv4(ip)) == Ok(ip)
  {
    hide Split, ParseUnsigned, Trim, Decimal;
    var a, b, c, d := Decimal(ip.a), Decimal(ip.b), Decimal(ip.c), Decimal(ip.d);
    Octet(ip.a);
    Octet(ip.b);
    Octet(ip.c);
    Octet(ip.d);
    var s := FormatIpv4(ip);
    assert s[0] == a[0] && s[|s| - 1] == d[|d| - 1];
    TrimIsIdentity(s);
    SplitAt(a, '.', b + ['.'] + (c + ['.'] + d));
    SplitAt(b, '.', c + ['.'] + d);
    SplitAt(c, '.', d);
    SplitWhole(d, '.');
    assert Split(s, '.') == [a, b, c, d];
  }

  /** `a.b.c.d/n`. */
  function CidrText(ip: Ip, n: nat): string {
    FormatIpv4(ip) + (['/'] + Decimal(n))
  }

  /** A subnet reads as it is written, whatever its address, as long as its prefix
      can be one. */
  lemma CidrRoundTrip(ip: Ip, n: nat)
    ensures ParseCidr(CidrText(ip, n)) == if n <= 32 then Ok((ip, n)) else Err
  {
    hide FormatIpv4, ParseIpv4, SplitOnce, Decimal, Value;
    NoSlash(ip);
    SplitOnceAt(FormatIpv4(ip), '/', Decimal(n));
    Ipv4RoundTrip(ip);
    DecimalRoundTrip(n);
  }

  lemma NoSlash(ip: Ip)
    ensures '/' !in FormatIpv4(ip)
  {
    hide Decimal;
    DecimalRoundTrip(ip.a);
    DecimalRoundTrip(ip.b);
    DecimalRoundTrip(ip.c);
    DecimalRoundTrip(ip.d);
  }

  /** Nothing else is read: an address, the first slash, and a prefix up to 32. */
  lemma CidrIsAddressAndPrefix(s: string, ip: Ip, n: nat)
    ensures ParseCidr(s) == Ok((ip, n)) <==>
      exists a, p ::
        && s == a + (['/'] + p) && '/' !in a
        && ParseIpv4(a) == Ok(ip) && ParseUnsigned(p, 32) == Some(n)
    ensures '/' !in s ==> ParseCidr(s).Err?
  {
    hide ParseIpv4, SplitOnce, Value;
    SplitOnceIs(s, '/');
    if a, p :| s == a + (['/'] + p) && '/' !in a && ParseIpv4(a) == Ok(ip) && ParseUnsigned(p, 32) == Some(n) {
      SplitOnceAt(a, '/', p);
    }
    if ParseCidr(s) == Ok((ip, n)) {
      var (a, p) := SplitOnce(s, '/').value;
      assert s == a + (['/'] + p) && '/' !in a && ParseIpv4(a) == Ok(ip) && ParseUnsigned(p, 32) == Some(n);
    }
  }

  lemma Octet(n: byte)
    ensures Decimal(n) != [] && '.' !in Decimal(n)
    ensures forall i :: 0 <= i < |Decimal(n)| ==> !IsSpace(Decimal(n)[i])
    ensures ParseUnsigned(Decimal(n), 255) == Some(n)
  {
    DecimalRoundTrip(n);
  }

  // -------------------------------------------------------------------------
  // Subnets
  // -------------------------------------------------------------------------

  function Pow2(n: nat): (r: nat)
    ensures r > 0
  {
    if n == 0 then 1 else 2 * Pow2(n - 1)
  }

  /** Number of addresses in a subnet with this prefix. */
  function Size(prefix: nat): (r: nat)
    requires prefix <= 32
    ensures r > 0
  {
    Pow2(32 - prefix)
  }

  /** `addr & (u32::MAX << (32 - prefix))`: clear the low bits. */
  function Masked(addr: nat, prefix: nat): nat
    requires prefix <= 32
  {
    RemainderIsAtMost(addr, Size(prefix));
    addr - addr % Size(prefix)
  }

  lemma RemainderIsAtMost(x: nat, m: nat)
    requires m > 0
    ensures 0 <= x % m <= x
  {
    assert x == m * (x / m) + x % m;
    Monotone(m, 0, x / m);
  }

  /** `in_subnet` */
  predicate InSubnet(addr: nat, net: nat, prefix: nat)
    requires prefix <= 32
  {
    Masked(addr, prefix) == Masked(net, prefix)
  }

  /** The network address with its low bits set: `base | !mask`. */
  function Broadcast(net: nat, prefix: nat): nat
    requires prefix <= 32
  {
    Masked(net, prefix) + (Size(prefix) - 1)
  }

  /** `usable_range`. */
  function UsableRange(net: nat, prefix: nat): Result<(nat, nat)>
    requires prefix <= 32
  {
    if prefix > 30 then Err else Ok((Masked(net, prefix) + 1, Broadcast(net, prefix) - 1))
  }

  /** `gateway_addr` when the configuration names none. */
  function DefaultGateway(net: nat, prefix: nat): nat
    requires prefix <= 32
  {
    Masked(net, prefix) + 1
  }

  lemma {:induction false} PowersDivide(n: nat)
    requires n <= 32
    ensures Pow2(n) * Pow2(32 - n) == U32
    decreases 32 - n
  {
    if n == 32 {
      Pow2Of32();
    } else {
      PowersDivide(n + 1);
      assert Pow2(n + 1) == 2 * Pow2(n);
      assert Pow2(32 - n) == 2 * Pow2(31 - n);
      Exchange(Pow2(n), Pow2(31 - n));
    }
  }

  lemma Exchange(x: nat, y: nat)
    ensures (2 * x) * y == x * (2 * y)
  {
  }

  lemma Pow2Of32()
    ensures Pow2(32) == U32 && Pow2(0) == 1
  {
    assert Pow2(4) == 16;
    assert Pow2(8) == 256;
    assert Pow2(12) == 4096;
    assert Pow2(16) == 0x1_0000;
    assert Pow2(20) == 0x10_0000;
    assert Pow2(24) == 0x100_0000;
    assert Pow2(28) == 0x1000_0000;
  }

  /** A subnet is a block of consecutive addresses inside the 32-bit space. */
  lemma SubnetIsABlock(addr: nat, net: nat, prefix: nat)
    requires prefix <= 32 && addr < U32 && net < U32
    ensures InSubnet(addr, net, prefix)
       <==> Masked(net, prefix) <= addr <= Broadcast(net, prefix)
    ensures Broadcast(net, prefix) < U32
  {
    hide Pow2;
    var m := Size(prefix);
    PowersDivide(prefix);
    BlockOf(addr, net, m);
    BlockFits(net, m, Pow2(prefix));
  }

  lemma BlockOf(addr: nat, net: nat, m: nat)
    requires m > 0
    ensures addr - addr % m == net - net % m <==> net - net % m <= addr < net - net % m + m
  {
    var q, q' := net / m, addr / m;
    assert net - net % m == m * q && addr - addr % m == m * q';
    if m * q <= addr < m * q + m {
      assert m * q' - m < m * q < m * q' + m;
      SameMultiple(m, q, q');
    }
  }

  lemma SameMultiple(m: nat, q: int, q': int)
    requires m > 0 && m * q' - m < m * q < m * q' + m
    ensures q == q'
  {
    assert m * (q - q') == m * q - m * q';
    if q - q' >= 1 {
      AtLeast(m, q - q');
    } else if q' - q >= 1 {
      assert m * (q' - q) == m * q' - m * q;
      AtLeast(m, q' - q);
    }
  }

  lemma AtLeast(m: nat, k: int)
    requires m > 0 && k >= 1
    ensures m * k >= m
  {
    assert m * k == m * (k - 1) + m;
  }

  lemma Monotone(m: nat, x: int, y: int)
    requires x <= y
    ensures m * x <= m * y
  {
    assert m * (y - x) == m * y - m * x;
  }

  lemma BlockFits(net: nat, m: nat, count: nat)
    requires m > 0 && count * m == U32 && net < U32
    ensures net - net % m + m <= U32
  {
    var q := net / m;
    assert net - net % m == m * q;
    if q >= count {
      Monotone(m, count, q);
      assert false;
    }
    assert m * (count - q) == count * m - m * q;
    AtLeast(m, count - q);
  }

  lemma SmallestSize(prefix: nat)
    requires prefix <= 30
    ensures Size(prefix) >= 4
  {
    var n: nat := 32 - prefix;
    assert Pow2(n) == 4 * Pow2(n - 2);
  }

  /** The usable range is exactly the subnet without its network and broadcast
      addresses, it is never empty, and the default gateway is its low end. */
  lemma UsableRangeIsExact(addr: nat, net: nat, prefix: nat)
    requires prefix <= 32 && addr < U32 && net < U32
    ensures UsableRange(net, prefix).Ok? <==> prefix <= 30
    ensures prefix <= 30 ==>
      var (lo, hi) := UsableRange(net, prefix).value;
      && lo < hi < U32 - 1
      && lo == DefaultGateway(net, prefix)
      && (lo <= addr <= hi <==>
          InSubnet(addr, net, prefix)
          && addr != Masked(net, prefix)
          && addr != Broadcast(net, prefix))
  {
    SubnetIsABlock(addr, net, prefix);
    if prefix <= 30 {
      SmallestSize(prefix);
    }
  }
}
