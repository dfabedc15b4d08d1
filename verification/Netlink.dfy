/** Netlink attributes (`src/sys/netlink.rs`): the message builder, which patches
the lengths of nested attributes afterwards, and the attribute parser.

Native byte order is little endian on both supported architectures.
*/
module Netlink {
  import opened Bytes
  import opened Wrappers

  /** One attribute to send: plain data, or a nest holding a fixed header
      (possibly empty) and further attributes. */
  datatype Attr =
    | Leaf(ty: nat, data: seq<byte>)
    | Nest(ty: nat, header: seq<byte>, children: seq<Attr>)

  /** One attribute as received. */
  datatype RawAttr = RawAttr(ty: nat, data: seq<byte>)

  const U16 := 0x1_0000

  /** `nl_align`: round up to a multiple of four. */
  function Align(n: nat): nat {
    (n + 3) / 4 * 4
  }

  function Zeros(n: nat): seq<byte> {
    seq(n, _ => 0)
  }

  /** The padding after `n` bytes. */
  function Pad(n: nat): (p: seq<byte>)
    ensures |p| == Align(n) - n < 4
  {
    Zeros(Align(n) - n)
  }

  // -------------------------------------------------------------------------
  // The wire format
  // -------------------------------------------------------------------------

  function Payload(a: Attr): seq<byte>
    decreases a, 0
  {
    match a
    case Leaf(_, data) => data
    case Nest(_, header, children) => header + Pad(|header|) + EncodeAll(children)
  }

  /** Length field (16 bits), type, payload and padding. */
  function Encode(a: Attr): seq<byte>
    decreases a, 1
  {
    LE16(4 + |Payload(a)|) + LE16(a.ty) + Payload(a) + Pad(|Payload(a)|)
  }

  function EncodeAll(forest: seq<Attr>): seq<byte>
    decreases forest
  {
    if forest == [] then [] else Encode(forest[0]) + EncodeAll(forest[1..])
  }

  /** `parse_attrs`. */
  function ParseAttrs(buf: seq<byte>): seq<RawAttr>
    decreases |buf|
  {
    if |buf| < 4 then []
    else
      var len := FromLE16(buf[0..2]);
      if len < 4 || len > |buf| then []
      else
        [RawAttr(FromLE16(buf[2..4]), buf[4..len])]
        + (if Align(len) >= |buf| then [] else ParseAttrs(buf[Align(len)..]))
  }

  /** Types and lengths fit their 16-bit fields, at every level. */
  predicate Fits(a: Attr) {
    && a.ty < U16
    && 4 + |Payload(a)| < U16
    && (a.Nest? ==> forall i :: 0 <= i < |a.children| ==> Fits(a.children[i]))
  }

  /** Parsing `buf` gives this forest back: as many attributes, in order, with
      their types and payloads, and inside each nest, after its header, the
      children, recursively. */
  ghost predicate Recovers(forest: seq<Attr>, buf: seq<byte>)
    decreases forest
  {
    var got := ParseAttrs(buf);
    && |got| == |forest|
    && forall i :: 0 <= i < |forest| ==> RecoversOne(forest[i], got[i])
  }

  ghost predicate RecoversOne(a: Attr, got: RawAttr)
    decreases a
  {
    && got.ty == a.ty
    && match a {
         case Leaf(_, data) => got.data == data
         case Nest(_, header, children) =>
           && header <= got.data
           && Align(|header|) <= |got.data|
           && Recovers(children, got.data[Align(|header|)..])
       }
  }

  // -------------------------------------------------------------------------
  // Round trip
  // -------------------------------------------------------------------------

  lemma {:induction false} EncodedLength(a: Attr)
    ensures |Encode(a)| == Align(4 + |Payload(a)|)
    ensures |Encode(a)| % 4 == 0
  {
  }

  lemma AlignedSum(a: nat, b: nat)
    requires a % 4 == 0 && b % 4 == 0
    ensures (a + b) % 4 == 0
  {
  }

  lemma {:induction false} EncodeAllAligned(forest: seq<Attr>)
    ensures |EncodeAll(forest)| % 4 == 0
  {
    hide Encode;
    if forest != [] {
      EncodedLength(forest[0]);
      EncodeAllAligned(forest[1..]);
      AlignedSum(|Encode(forest[0])|, |EncodeAll(forest[1..])|);
    }
  }

  /** Where things are in an encoded attribute. */
  lemma EncodedParts(a: Attr, rest: seq<byte>)
    ensures
      var len, buf := 4 + |Payload(a)|, Encode(a) + rest;
      && |buf| == Align(len) + |rest|
      && buf[0..2] == LE16(len) && buf[2..4] == LE16(a.ty) && buf[4..len] == Payload(a) && buf[Align(len)..] == rest
  {
    EncodedLength(a);
    hide Payload, LE16;
  }

  lemma ParseOne(buf: seq<byte>, len: nat, ty: nat)
    requires 4 <= len <= |buf| && FromLE16(buf[0..2]) == len && FromLE16(buf[2..4]) == ty
    ensures ParseAttrs(buf)
            == [RawAttr(ty, buf[4..len])] + (if Align(len) >= |buf| then [] else ParseAttrs(buf[Align(len)..]))
  {
    hide FromLE16;
  }

  /** The first attribute of a buffer is read whole, and parsing goes on at the
      next boundary. */
  lemma ParseFirst(a: Attr, rest: seq<byte>)
    requires a.ty < U16 && 4 + |Payload(a)| < U16
    ensures ParseAttrs(Encode(a) + rest) == [RawAttr(a.ty, Payload(a))] + ParseAttrs(rest)
  {
    var len := 4 + |Payload(a)|;
    assert len <= Align(len);
    hide Payload, Encode, LE16, FromLE16, Align;
    LE16RoundTrip(len);
    LE16RoundTrip(a.ty);
    EncodedParts(a, rest);
    ParseOne(Encode(a) + rest, len, a.ty);
    if rest == [] {
      assert ParseAttrs(rest) == [];
    }
  }

  /** One level: every attribute of the forest comes back with its payload. */
  lemma {:induction false} ParseLevel(forest: seq<Attr>)
    requires forall i :: 0 <= i < |forest| ==> Fits(forest[i])
    ensures var got := ParseAttrs(EncodeAll(forest));
            && |got| == |forest|
            && forall i :: 0 <= i < |forest| ==> got[i] == RawAttr(forest[i].ty, Payload(forest[i]))
  {
    hide Payload, Encode, Fits;
    if forest != [] {
      FitsHere(forest[0]);
      ParseFirst(forest[0], EncodeAll(forest[1..]));
      ParseLevel(forest[1..]);
    }
  }

  lemma FitsHere(a: Attr)
    requires Fits(a)
    ensures a.ty < U16 && 4 + |Payload(a)| < U16
  {
  }

  /** Every forest whose lengths fit comes back from the wire, at every depth. */
  lemma {:induction false} ForestRoundTrip(forest: seq<Attr>)
    requires forall i :: 0 <= i < |forest| ==> Fits(forest[i])
    ensures Recovers(forest, EncodeAll(forest))
    decreases forest
  {
    ParseLevel(forest);
    var got := ParseAttrs(EncodeAll(forest));
    forall i | 0 <= i < |forest|
      ensures RecoversOne(forest[i], got[i])
    {
      AttrRoundTrip(forest[i]);
    }
  }

  lemma {:induction false} AttrRoundTrip(a: Attr)
    requires Fits(a)
    ensures RecoversOne(a, RawAttr(a.ty, Payload(a)))
    decreases a
  {
    if a.Nest? {
      ForestRoundTrip(a.children);
      var p := Payload(a);
      assert p[Align(|a.header|)..] == EncodeAll(a.children);
    }
  }

  /** The limit is exact: a plain attribute survives if and only if its length
      fits the 16-bit field; a longer one is sent with a wrapped length. */
  lemma LeafSurvivesIffItFits(ty: nat, data: seq<byte>)
    requires ty < U16
    ensures ParseAttrs(EncodeAll([Leaf(ty, data)])) == [RawAttr(ty, data)] <==> 4 + |data| < U16
  {
    var a := Leaf(ty, data);
    assert EncodeAll([a]) == Encode(a) + [];
    if 4 + |data| < U16 {
      ParseFirst(a, []);
    } else {
      var buf := Encode(a);
      EncodedLength(a);
      LE16RoundTrip(4 + |data|);
      assert buf[0..2] == LE16(4 + |data|);
      var len := FromLE16(buf[0..2]);
      assert len < 4 + |data|;
      assert EncodeAll([a]) == buf;
      assert ParseAttrs(buf) == [] || |ParseAttrs(buf)[0].data| == len - 4;
    }
  }

  // -------------------------------------------------------------------------
  // The parser and the builder
  // -------------------------------------------------------------------------

  /** The loop of `parse_attrs`: it stays inside the buffer and stops, whatever
      the bytes are. */
  method ParseLoop(input: seq<byte>) returns (out: seq<RawAttr>)
    ensures out == ParseAttrs(input)
  {
    hide FromLE16;
    out := [];
    var buf := input;
    while |buf| >= 4
      invariant out + ParseAttrs(buf) == ParseAttrs(input)
      decreases |buf|
    {
      var len := FromLE16(buf[0..2]);
      var ty := FromLE16(buf[2..4]);
      if len < 4 || len > |buf| {
        return;
      }
      var step := Align(len);
      ghost var more := if step >= |buf| then [] else ParseAttrs(buf[step..]);
      var one := RawAttr(ty, buf[4..len]);
      assert ParseAttrs(buf) == [one] + more;
      MoveOver(out, one, more);
      out := out + [one];
      if step >= |buf| {
        return;
      }
      buf := buf[step..];
    }
  }

  /** From `n` bytes past an aligned start, the next aligned length is `Align(n)`. */
  lemma AlignIsNext(start: nat, n: nat, len: nat)
    requires start % 4 == 0 && start + n <= len
    ensures n <= Align(n) < n + 4
    ensures len <= start + Align(n) && len % 4 == 0 ==> len == start + Align(n)
    ensures len <= start + Align(n) && len % 4 != 0 ==> len < start + Align(n)
  {
  }

  lemma MoveOver(done: seq<RawAttr>, one: RawAttr, more: seq<RawAttr>)
    ensures done + ([one] + more) == (done + [one]) + more
  {
  }

  class MsgBuilder {
    var buf: seq<byte>

    constructor (ty: nat, flags: nat)
      ensures buf == Zeros(4) + LE16(ty) + LE16(flags) + Zeros(8)
      ensures |buf| == 16
    {
      buf := Zeros(4) + LE16(ty) + LE16(flags) + Zeros(8);
    }

    method PadOut(ghost start: nat)
      requires start <= |buf| && start % 4 == 0
      modifies this
      ensures buf == old(buf) + Pad(|old(buf)| - start)
      ensures |buf| % 4 == 0
    {
      hide Align;
      ghost var n := |buf| - start;
      AlignIsNext(start, n, |buf|);
      while |buf| % 4 != 0
        invariant |old(buf)| <= |buf| <= start + Align(n)
        invariant buf == old(buf) + Zeros(|buf| - |old(buf)|)
        decreases start + Align(n) - |buf|
      {
        AlignIsNext(start, n, |buf|);
        assert Zeros(|buf| - |old(buf)|) + [0] == Zeros(|buf| + 1 - |old(buf)|);
        buf := buf + [0];
      }
      AlignIsNext(start, n, |buf|);
    }

    /** The family header of a message or of a nested peer. */
    method AppendHeader(bytes: seq<byte>)
      requires |buf| % 4 == 0
      modifies this
      ensures buf == old(buf) + bytes + Pad(|bytes|)
      ensures |buf| % 4 == 0
    {
      buf := buf + bytes;
      PadOut(|old(buf)|);
    }

    method AppendAttr(ty: nat, data: seq<byte>)
      requires |buf| % 4 == 0
      modifies this
      ensures buf == old(buf) + Encode(Leaf(ty, data))
      ensures |buf| % 4 == 0
    {
      var len := 4 + |data|;
      buf := buf + LE16(len);
      buf := buf + LE16(ty);
      buf := buf + data;
      ghost var plain := buf;
      PadOut(|old(buf)| + 4);
      assert buf == old(buf) + (LE16(len) + LE16(ty) + data + Pad(|data|));
    }

    method BeginNested(ty: nat) returns (off: nat)
      modifies this
      ensures off == |old(buf)|
      ensures buf == old(buf) + LE16(0) + LE16(ty)
    {
      off := |buf|;
      buf := buf + LE16(0);
      buf := buf + LE16(ty);
    }

    /** Patches the length field at `off` to reach the end of the buffer. */
    method EndNested(off: nat)
      requires off + 4 <= |buf|
      modifies this
      ensures buf == old(buf)[..off] + LE16(|old(buf)| - off) + old(buf)[off + 2..]
    {
      var len := |buf| - off;
      buf := buf[..off] + LE16(len) + buf[off + 2..];
    }

    /** Builds a whole forest with the four calls above; each patched length is
        the extent of what was built in between. */
    method Build(forest: seq<Attr>)
      requires |buf| % 4 == 0
      modifies this
      ensures buf == old(buf) + EncodeAll(forest)
      ensures |buf| % 4 == 0
      decreases forest
    {
      hide Encode;
      for i := 0 to |forest|
        invariant buf + EncodeAll(forest[i..]) == old(buf) + EncodeAll(forest)
        invariant |buf| % 4 == 0
      {
        assert forest[i..][0] == forest[i] && forest[i..][1..] == forest[i + 1..];
        ghost var before := buf;
        BuildOne(forest[i]);
        Regroup(before, Encode(forest[i]), EncodeAll(forest[i + 1..]));
      }
      assert forest[|forest|..] == [];
    }

    method BuildOne(a: Attr)
      requires |buf| % 4 == 0
      modifies this
      ensures buf == old(buf) + Encode(a)
      ensures |buf| % 4 == 0
      decreases a
    {
      match a
      case Leaf(ty, data) => AppendAttr(ty, data);
      case Nest(ty, header, children) =>
        var off := BeginNested(ty);
        AppendHeader(header);
        Build(children);
        NestIsPatched(old(buf), a, buf);
        EndNested(off);
    }

    /** `finish`: the total length and the sequence number. */
    method Finish(sequence: nat) returns (msg: seq<byte>)
      requires |buf| >= 16
      ensures |msg| == |buf|
      ensures msg[..4] == LE32(|buf|) && msg[8..12] == LE32(sequence)
      ensures msg[4..8] == buf[4..8] && msg[12..] == buf[12..]
    {
      LE32RoundTrip(|buf|);
      LE32RoundTrip(sequence);
      msg := LE32(|buf|) + buf[4..8] + LE32(sequence) + buf[12..];
    }
  }

  lemma NestIsPatched(before: seq<byte>, a: Attr, buf: seq<byte>)
    requires a.Nest? && |before| % 4 == 0
    requires buf == before + LE16(0) + LE16(a.ty) + a.header + Pad(|a.header|) + EncodeAll(a.children)
    ensures |before| + 4 <= |buf| && |buf| % 4 == 0
    ensures buf[..|before|] + LE16(|buf| - |before|) + buf[|before| + 2..] == before + Encode(a)
  {
    hide LE16, EncodeAll, Pad, Align;
    EncodeAllAligned(a.children);
    PayloadIsAligned(a);
    Patched(before, LE16(0), LE16(a.ty), Payload(a), LE16(4 + |Payload(a)|), buf);
    Regroup(LE16(4 + |Payload(a)|), LE16(a.ty), Payload(a));
    AlignedSum(|before|, 4 + |Payload(a)|);
  }

  lemma PayloadIsAligned(a: Attr)
    requires a.Nest?
    ensures Payload(a) == a.header + Pad(|a.header|) + EncodeAll(a.children)
    ensures |Payload(a)| % 4 == 0 && Pad(|Payload(a)|) == [] && (4 + |Payload(a)|) % 4 == 0
  {
    EncodeAllAligned(a.children);
    hide EncodeAll;
  }

  /** Overwriting a length field in place. */
  lemma Patched(
    before: seq<byte>, zero: seq<byte>, ty: seq<byte>, payload: seq<byte>, length: seq<byte>, buf: seq<byte>)
    requires |zero| == 2 && |ty| == 2 && |length| == 2
    requires buf == before + zero + ty + payload
    ensures |buf| == |before| + 4 + |payload|
    ensures buf[..|before|] + length + buf[|before| + 2..] == before + (length + ty + payload)
  {
    assert buf[|before| + 2..] == ty + payload;
    assert buf[..|before|] == before;
  }

  // -------------------------------------------------------------------------
  // A real request
  // -------------------------------------------------------------------------

  const RTM_NEWLINK := 16
  const NLM_CREATE_FLAGS := 0x605
  const IFLA_IFNAME := 3
  const IFLA_LINKINFO := 18
  const IFLA_INFO_KIND := 1
  const IFLA_INFO_DATA := 2
  const VETH_INFO_PEER := 1
  const VETH_KIND: seq<byte> := [0x76, 0x65, 0x74, 0x68, 0]
  const IFINFO_SIZE := 16

  /** What a veth creation request says. */
  function VethForest(name: seq<byte>, peer: seq<byte>): seq<Attr> {
    [Leaf(IFLA_IFNAME, name + [0]),
     Nest(IFLA_LINKINFO, [], [Leaf(IFLA_INFO_KIND, VETH_KIND),
                              Nest(IFLA_INFO_DATA, [],
                                   [Nest(VETH_INFO_PEER, Zeros(IFINFO_SIZE), [Leaf(IFLA_IFNAME, peer + [0])])])])]
  }

  /** `create_veth`, call by call: three nests open at once, closed inside out.
      A receiver that parses the message finds both interface names where the
      kernel looks for them. */
  method CreateVeth(name: seq<byte>, peer: seq<byte>, sequence: nat) returns (msg: seq<byte>)
    ensures |msg| >= 32 && msg[..4] == LE32(|msg|)
    ensures msg[4..8] == LE16(RTM_NEWLINK) + LE16(NLM_CREATE_FLAGS)
    ensures msg[32..] == EncodeAll(VethForest(name, peer))
    ensures |name| < 256 && |peer| < 256 ==> FromLE32(msg[..4]) == |msg| && Recovers(VethForest(name, peer), msg[32..])
  {
    hide EncodeAll, Recovers, LE16, LE32, FromLE32, VethForest, Pad;
    var m := new MsgBuilder(RTM_NEWLINK, NLM_CREATE_FLAGS);
    m.AppendHeader(Zeros(IFINFO_SIZE));
    AlignedHeader();
    ghost var head := m.buf;
    assert |head| == 32;
    VethRequest(m, name, peer);
    ghost var body := EncodeAll(VethForest(name, peer));
    assert m.buf == head + body;
    msg := m.Finish(sequence);
    assert msg[32..] == msg[12..][20..];
    assert m.buf[12..][20..] == m.buf[32..] == body;
    assert m.buf[4..8] == head[4..8];
    if |name| < 256 && |peer| < 256 {
      VethRoundTrip(name, peer);
      LE32RoundTrip(|m.buf|);
    }
  }

  lemma AlignedHeader()
    ensures Pad(IFINFO_SIZE) == [] && |Zeros(IFINFO_SIZE)| == IFINFO_SIZE
  {
  }

  lemma VethRoundTrip(name: seq<byte>, peer: seq<byte>)
    requires |name| < 256 && |peer| < 256
    ensures var body := EncodeAll(VethForest(name, peer));
            Recovers(VethForest(name, peer), body) && |body| < 2000
  {
    hide EncodeAll, Recovers, Fits;
    VethForestFits(name, peer);
    ForestRoundTrip(VethForest(name, peer));
    VethSize(name, peer);
  }

  /** The attribute calls of `create_veth`. */
  method VethRequest(m: MsgBuilder, name: seq<byte>, peer: seq<byte>)
    requires |m.buf| % 4 == 0
    modifies m
    ensures m.buf == old(m.buf) + EncodeAll(VethForest(name, peer))
  {
    hide Encode, Payload, LE16, Pad;
    var forest := VethForest(name, peer);
    m.AppendAttr(IFLA_IFNAME, name + [0]);
    ghost var b0 := m.buf;
    var li := m.BeginNested(IFLA_LINKINFO);
    m.AppendAttr(IFLA_INFO_KIND, VETH_KIND);
    ghost var b1 := m.buf;
    var data := m.BeginNested(IFLA_INFO_DATA);
    ghost var b2 := m.buf;
    var pe := m.BeginNested(VETH_INFO_PEER);
    m.AppendHeader(Zeros(IFINFO_SIZE));
    m.AppendAttr(IFLA_IFNAME, peer + [0]);

    ghost var leaf := Leaf(IFLA_IFNAME, peer + [0]);
    ghost var inner := Nest(VETH_INFO_PEER, Zeros(IFINFO_SIZE), [leaf]);
    ghost var middle := Nest(IFLA_INFO_DATA, [], [inner]);
    ghost var kind := Leaf(IFLA_INFO_KIND, VETH_KIND);
    ghost var outer := Nest(IFLA_LINKINFO, [], [kind, middle]);
    SingleTree(leaf);
    NestIsPatched(b2, inner, m.buf);
    m.EndNested(pe);
    SingleTree(inner);
    EmptyHeader(b1, middle, b2, Encode(inner), m.buf);
    NestIsPatched(b1, middle, m.buf);
    m.EndNested(data);
    TwoTrees(kind, middle);
    EmptyHeader(b0, outer, b0 + LE16(0) + LE16(IFLA_LINKINFO), Encode(kind) + Encode(middle), m.buf);
    NestIsPatched(b0, outer, m.buf);
    m.EndNested(li);
    TwoTrees(forest[0], outer);
    Regroup(old(m.buf), Encode(forest[0]), Encode(outer));
  }

  lemma SingleTree(a: Attr)
    ensures EncodeAll([a]) == Encode(a)
  {
  }

  lemma TwoTrees(a: Attr, b: Attr)
    ensures EncodeAll([a, b]) == Encode(a) + Encode(b)
  {
    assert [a, b][1..] == [b];
    SingleTree(b);
  }

  lemma EmptyHeader(before: seq<byte>, a: Attr, start: seq<byte>, children: seq<byte>, buf: seq<byte>)
    requires a.Nest? && a.header == []
    requires start == before + LE16(0) + LE16(a.ty)
    requires EncodeAll(a.children) == children && buf == start + children
    ensures buf == before + LE16(0) + LE16(a.ty) + a.header + Pad(|a.header|) + EncodeAll(a.children)
  {
  }

  lemma VethSize(name: seq<byte>, peer: seq<byte>)
    requires |name| < 256 && |peer| < 256
    ensures |EncodeAll(VethForest(name, peer))| < 2000
  {
    var leaf := Leaf(IFLA_IFNAME, peer + [0]);
    var inner := Nest(VETH_INFO_PEER, Zeros(IFINFO_SIZE), [leaf]);
    var middle := Nest(IFLA_INFO_DATA, [], [inner]);
    var kind := Leaf(IFLA_INFO_KIND, VETH_KIND);
    var outer := Nest(IFLA_LINKINFO, [], [kind, middle]);
    SingleTree(leaf);
    SingleTree(inner);
    TwoTrees(kind, middle);
    TwoTrees(VethForest(name, peer)[0], outer);
    EncodedLength(leaf);
    EncodedLength(inner);
    EncodedLength(middle);
    EncodedLength(kind);
    EncodedLength(outer);
    EncodedLength(VethForest(name, peer)[0]);
  }

  lemma VethForestFits(name: seq<byte>, peer: seq<byte>)
    requires |name| < 256 && |peer| < 256
    ensures forall i :: 0 <= i < 2 ==> Fits(VethForest(name, peer)[i])
  {
    var leaf := Leaf(IFLA_IFNAME, peer + [0]);
    var inner := Nest(VETH_INFO_PEER, Zeros(IFINFO_SIZE), [leaf]);
    var middle := Nest(IFLA_INFO_DATA, [], [inner]);
    var kind := Leaf(IFLA_INFO_KIND, VETH_KIND);
    SingleTree(leaf);
    SingleTree(inner);
    TwoTrees(kind, middle);
    EncodedLength(leaf);
    EncodedLength(inner);
    EncodedLength(middle);
    EncodedLength(kind);
    assert Fits(leaf);
    assert Fits(inner);
    assert Fits(middle);
  }
}
