// tunnel/udp_proto.go: the footer that names the flow of a relayed datagram.
module UdpProto {
  import opened Bytes
  import opened BigInt

  const REDIRECT_FLOW_4_FOOTER_ID_OLD: u64 := 0x5cb867cf788173b2
  const REDIRECT_FLOW_4_FOOTER_ID: u64 := 0x4448474f48414344
  const REDIRECT_FLOW_6_FOOTER_ID: u64 := 0x6668676f68616366
  const UDP_CHANNEL_ESTABLISH_ID: u64 := 0xd01fe6830ddce781
  // The case label of the V4 branch: the bitwise or of the two V4 identifiers.
  const FOOTER_4_CASE: u64 := 0x5cf867cf78c173f6

  const V4_LEN := 20
  const V6_LEN := 48

  lemma FooterCase()
    ensures (0x4448474f48414344 as bv64) | 0x5cb867cf788173b2 == 0x5cf867cf78c173f6
    ensures FOOTER_4_CASE !in {REDIRECT_FLOW_4_FOOTER_ID, REDIRECT_FLOW_4_FOOTER_ID_OLD}
  {}

  datatype FlowBase = FlowBase(src: AddrPort, dst: AddrPort)
  datatype Flow6 = Flow6(base: FlowBase, flow: u32)

  // A struct of two pointers; with both nil the Go methods stop.
  datatype UdpFlow = UdpFlow(v4: Option<FlowBase>, v6: Option<Flow6>) {
    predicate IsSet() { v4.Some? || v6.Some? }

    function Len(): nat { if v4.None? then V6_LEN else V4_LEN }

    function Base(): FlowBase
      requires IsSet()
    {
      if v4.Some? then v4.value else v6.value.base
    }

    // Both ends of the family the alternative in force is for.
    predicate IsOneFamily()
      requires IsSet()
    {
      if v4.Some? then Base().src.addr.Ip4? && Base().dst.addr.Ip4?
      else Base().src.addr.Ip6? && Base().dst.addr.Ip6?
    }

    // The alternative the writer chose.
    function Reduced(): UdpFlow { if v4.Some? then UdpFlow(v4, None) else this }

    function EncodeBase(): (e: seq<byte>)
      requires IsSet()
      ensures IsOneFamily() ==> |e| == if v4.Some? then 12 else 36
    {
      Base().src.addr.Octets() + Base().dst.addr.Octets()
      + BigEndian(2, Base().src.port) + BigEndian(2, Base().dst.port)
    }

    function EncodeId(): (e: seq<byte>)
      requires IsSet()
      ensures |e| == if v4.Some? then 8 else 12
    {
      if v4.Some? then BigEndian(8, REDIRECT_FLOW_4_FOOTER_ID_OLD)
      else BigEndian(4, v6.value.flow) + BigEndian(8, REDIRECT_FLOW_6_FOOTER_ID)
    }

    function Encode(): (e: seq<byte>)
      requires IsSet()
      ensures IsOneFamily() ==> |e| == Len()
    {
      EncodeBase() + EncodeId()
    }

    method WriteTo(w: Buffer)
      requires IsSet()
      modifies w
      ensures w.data == old(w.data) + Encode()
    {
      var conn := Base();
      w.Write(conn.src.addr.Octets());
      w.Write(conn.dst.addr.Octets());
      w.WriteUint(2, conn.src.port);
      w.WriteUint(2, conn.dst.port);
      assert w.data == old(w.data) + EncodeBase();
      ghost var before := w.data;
      if v4.Some? {
        w.WriteUint(8, REDIRECT_FLOW_4_FOOTER_ID_OLD);
      } else {
        w.WriteUint(4, v6.value.flow);
        w.WriteUint(8, REDIRECT_FLOW_6_FOOTER_ID);
        Assoc(before, BigEndian(4, v6.value.flow), BigEndian(8, REDIRECT_FLOW_6_FOOTER_ID));
      }
      Assoc(old(w.data), EncodeBase(), EncodeId());
    }
  }

  // Found carries a flow; Unknown is the (nil, footer, nil) result, Short the error results.
  datatype Tail = Found(flow: UdpFlow) | Unknown(footer: u64) | Short(footer: u64)

  function IsFooter4(v: Variant, footer: u64): bool {
    match v
    case AsWritten => footer == FOOTER_4_CASE
    case Repaired => footer == REDIRECT_FLOW_4_FOOTER_ID || footer == REDIRECT_FLOW_4_FOOTER_ID_OLD
  }

  // Where each field of a footer is read: as written every field has a reader of its own, so all
  // of them start at the first octet.
  function At(v: Variant, offset: nat): nat { if v == AsWritten then 0 else offset }

  function Field(tail: seq<byte>, from: nat, n: nat): (r: seq<byte>)
    requires from + n <= |tail|
    ensures |r| == n
  {
    tail[from..from + n]
  }

  function Port(tail: seq<byte>, from: nat): u16
    requires from + 2 <= |tail|
  {
    Pow256Values();
    BigEndianOfValue(Field(tail, from, 2));
    Value(Field(tail, from, 2))
  }

  function Word(tail: seq<byte>, from: nat): u32
    requires from + 4 <= |tail|
  {
    Pow256Values();
    BigEndianOfValue(Field(tail, from, 4));
    Value(Field(tail, from, 4))
  }

  function Footer(slice: seq<byte>): u64
    requires |slice| >= 8
  {
    Pow256Values();
    BigEndianOfValue(slice[|slice| - 8..]);
    Value(slice[|slice| - 8..])
  }

  function FromTail4(v: Variant, tail: seq<byte>): UdpFlow
    requires |tail| == V4_LEN
  {
    UdpFlow(Some(FlowBase(AddrPort(Ip4(Field(tail, 0, 4)), Port(tail, At(v, 8))),
                          AddrPort(Ip4(Field(tail, At(v, 4), 4)), Port(tail, At(v, 10))))), None)
  }

  function FromTail6(v: Variant, tail: seq<byte>): UdpFlow
    requires |tail| == V6_LEN
  {
    UdpFlow(None, Some(Flow6(FlowBase(AddrPort(Ip6(Field(tail, 0, 16)), Port(tail, At(v, 32))),
                                      AddrPort(Ip6(Field(tail, At(v, 16), 16)), Port(tail, At(v, 34)))),
                             Word(tail, At(v, 36)))))
  }

  function FromTailUdpFlow(v: Variant, slice: seq<byte>): Tail {
    if |slice| < 8 then Short(0) else
      var footer := Footer(slice);
      if IsFooter4(v, footer) then
        if |slice| < V4_LEN then Short(0) else Found(FromTail4(v, slice[|slice| - V4_LEN..]))
      else if footer == REDIRECT_FLOW_6_FOOTER_ID then
        if |slice| < V6_LEN then Short(footer) else Found(FromTail6(v, slice[|slice| - V6_LEN..]))
      else Unknown(footer)
  }

  // A sequence made of five pieces, and its pieces.
  lemma Pieces(a: seq<byte>, b: seq<byte>, c: seq<byte>, d: seq<byte>, id: seq<byte>)
    requires |a| == |b| && |c| == |d| == 2
    ensures var e, n := a + b + c + d + id, |a|;
            && Field(e, 0, n) == a && Field(e, n, n) == b
            && Field(e, 2 * n, 2) == c && Field(e, 2 * n + 2, 2) == d && e[2 * n + 4..] == id
  {}

  lemma EncodedParts(f: UdpFlow)
    requires f.IsSet() && f.IsOneFamily()
    ensures var e, n := f.Encode(), if f.v4.Some? then 4 else 16;
            && |e| == f.Len()
            && Field(e, 0, n) == f.Base().src.addr.Octets()
            && Field(e, n, n) == f.Base().dst.addr.Octets()
            && Field(e, 2 * n, 2) == BigEndian(2, f.Base().src.port)
            && Field(e, 2 * n + 2, 2) == BigEndian(2, f.Base().dst.port)
            && (f.v4.None? ==> Field(e, 36, 4) == BigEndian(4, f.v6.value.flow))
            && Footer(e) == if f.v4.Some? then REDIRECT_FLOW_4_FOOTER_ID_OLD else REDIRECT_FLOW_6_FOOTER_ID
  {
    hide BigEndian;
    hide Value;
    var base, e := f.Base(), f.Encode();
    Pieces(base.src.addr.Octets(), base.dst.addr.Octets(), BigEndian(2, base.src.port), BigEndian(2, base.dst.port),
           f.EncodeId());
    var id := if f.v4.Some? then REDIRECT_FLOW_4_FOOTER_ID_OLD else REDIRECT_FLOW_6_FOOTER_ID;
    assert f.EncodeId()[|f.EncodeId()| - 8..] == BigEndian(8, id);
    assert e[|e| - 8..] == f.EncodeId()[|f.EncodeId()| - 8..];
    if f.v4.None? {
      assert f.EncodeId()[..4] == BigEndian(4, f.v6.value.flow);
      assert Field(e, 36, 4) == f.EncodeId()[..4];
    }
    Pow256Values();
    ValueOfBigEndian(8, id);
  }

  // The footer of p ++ e, and its last octets, are those of e.
  lemma TailOfConcat(p: seq<byte>, e: seq<byte>)
    requires |e| >= 8
    ensures Footer(p + e) == Footer(e)
    ensures (p + e)[|p + e| - |e|..] == e
  {
    assert (p + e)[|p + e| - 8..] == e[|e| - 8..];
  }

  lemma Back4(f: UdpFlow)
    requires f.v4.Some? && f.IsOneFamily()
    ensures FromTail4(Repaired, f.Encode()) == f.Reduced()
  {
    EncodedParts(f);
    Pow256Values();
    ValueOfBigEndian(2, f.Base().src.port);
    ValueOfBigEndian(2, f.Base().dst.port);
  }

  lemma Back6(f: UdpFlow)
    requires f.v4.None? && f.v6.Some? && f.IsOneFamily()
    ensures FromTail6(Repaired, f.Encode()) == f
  {
    EncodedParts(f);
    Pow256Values();
    ValueOfBigEndian(2, f.Base().src.port);
    ValueOfBigEndian(2, f.Base().dst.port);
    ValueOfBigEndian(4, f.v6.value.flow);
  }

  // Behind any payload the written footer is found again.
  lemma Back(p: seq<byte>, f: UdpFlow)
    requires f.IsSet() && f.IsOneFamily()
    ensures FromTailUdpFlow(Repaired, p + f.Encode()) == Found(f.Reduced())
  {
    WrittenFooter(f);
    TailOfConcat(p, f.Encode());
    if f.v4.Some? {
      Back4(f);
    } else {
      Back6(f);
    }
  }

  lemma WrittenFooter(f: UdpFlow)
    requires f.IsSet() && f.IsOneFamily()
    ensures Footer(f.Encode()) == if f.v4.Some? then REDIRECT_FLOW_4_FOOTER_ID_OLD else REDIRECT_FLOW_6_FOOTER_ID
  {
    EncodedParts(f);
  }

  predicate RepeatsFirstOctets(f: Flow6)
    requires f.base.src.addr.Ip6?
  {
    var o := f.base.src.addr.Octets();
    && f.base.dst.addr == f.base.src.addr
    && f.base.src.port == f.base.dst.port == Value(o[..2])
    && f.flow == Value(o[..4])
  }

  // The parser in the repository does not recognise a written V4 footer.
  lemma Back4AsWritten(p: seq<byte>, f: UdpFlow)
    requires f.v4.Some? && f.IsOneFamily()
    ensures FromTailUdpFlow(AsWritten, p + f.Encode()) == Unknown(REDIRECT_FLOW_4_FOOTER_ID_OLD)
  {
    EncodedParts(f);
    TailOfConcat(p, f.Encode());
  }

  // It recovers a written V6 footer only if all fields happen to agree with its first octets.
  lemma Back6AsWritten(p: seq<byte>, f: UdpFlow)
    requires f.v4.None? && f.v6.Some? && f.IsOneFamily()
    ensures FromTailUdpFlow(AsWritten, p + f.Encode()) == Found(f) <==> RepeatsFirstOctets(f.v6.value)
  {
    var e := f.Encode();
    EncodedParts(f);
    TailOfConcat(p, e);
    FromTail6AsWritten(e);
    assert FromTailUdpFlow(AsWritten, p + e) == Found(FromTail6(AsWritten, e));
  }

  lemma FromTail6AsWritten(tail: seq<byte>)
    requires |tail| == V6_LEN
    ensures var f, o := FromTail6(AsWritten, tail).v6.value, Field(tail, 0, 16);
            && f.base.src.addr == f.base.dst.addr == Ip6(o)
            && f.base.src.port == f.base.dst.port == Value(o[..2])
            && f.flow == Value(o[..4])
  {
    var o := Field(tail, 0, 16);
    assert Field(tail, 0, 2) == o[..2] && Field(tail, 0, 4) == o[..4];
  }

  lemma Parsed4(slice: seq<byte>)
    requires |slice| >= V4_LEN
    ensures var tail, f := slice[|slice| - V4_LEN..], FromTail4(Repaired, slice[|slice| - V4_LEN..]);
            && f.IsOneFamily() && f.Len() == V4_LEN
            && f.Encode()[..12] == tail[..12]
            && (Footer(slice) == REDIRECT_FLOW_4_FOOTER_ID_OLD ==> f.Encode() == tail)
  {
    hide BigEndian;
    hide Value;
    var tail := slice[|slice| - V4_LEN..];
    BigEndianOfValue(Field(tail, 8, 2));
    BigEndianOfValue(Field(tail, 10, 2));
    BigEndianOfValue(tail[12..]);
    assert tail[12..] == slice[|slice| - 8..];
    assert FromTail4(Repaired, tail).EncodeBase() == tail[..12];
    assert tail == tail[..12] + tail[12..];
  }

  lemma Id6(tail: seq<byte>)
    requires |tail| == V6_LEN && Value(tail[40..]) == REDIRECT_FLOW_6_FOOTER_ID
    ensures FromTail6(Repaired, tail).EncodeId() == tail[36..]
  {
    BigEndianOfValue(Field(tail, 36, 4));
    BigEndianOfValue(tail[40..]);
    assert tail[36..] == tail[36..40] + tail[40..];
  }

  lemma Base6(tail: seq<byte>)
    requires |tail| == V6_LEN
    ensures FromTail6(Repaired, tail).EncodeBase() == tail[..36]
  {
    BigEndianOfValue(Field(tail, 32, 2));
    BigEndianOfValue(Field(tail, 34, 2));
    assert tail[..36] == tail[..16] + tail[16..32] + tail[32..34] + tail[34..36];
  }

  lemma Parsed6(slice: seq<byte>)
    requires |slice| >= V6_LEN && Footer(slice) == REDIRECT_FLOW_6_FOOTER_ID
    ensures var tail, f := slice[|slice| - V6_LEN..], FromTail6(Repaired, slice[|slice| - V6_LEN..]);
            && f.IsOneFamily() && f.Len() == V6_LEN
            && f.Encode() == tail
  {
    var tail := slice[|slice| - V6_LEN..];
    assert tail[40..] == slice[|slice| - 8..];
    Base6(tail);
    Id6(tail);
    assert tail == tail[..36] + tail[36..];
  }

  // The slice ends in the encoding of f, up to the newer V4 identifier standing where the writer
  // puts the old one.
  predicate EndsIn(slice: seq<byte>, f: UdpFlow) {
    && f.IsSet() && f.IsOneFamily() && f.Len() <= |slice|
    && var tail, e := slice[|slice| - f.Len()..], f.Encode();
       if f.v4.Some? && Footer(slice) == REDIRECT_FLOW_4_FOOTER_ID then e[..f.Len() - 8] == tail[..f.Len() - 8]
       else e == tail
  }

  // A slice parses to a flow if and only if it ends in that flow's encoding.
  lemma Forth(slice: seq<byte>, f: UdpFlow)
    ensures FromTailUdpFlow(Repaired, slice) == Found(f) <==> EndsIn(slice, f) && f.Reduced() == f
  {
    if FromTailUdpFlow(Repaired, slice) == Found(f) {
      ParsedEndsIn(slice, f);
    }
    if EndsIn(slice, f) && f.Reduced() == f {
      EndsInParses(slice, f);
    }
  }

  lemma ParsedEndsIn(slice: seq<byte>, f: UdpFlow)
    requires FromTailUdpFlow(Repaired, slice) == Found(f)
    ensures EndsIn(slice, f) && f.Reduced() == f
  {
    hide UdpFlow.Encode;
    hide UdpFlow.IsOneFamily;
    hide Footer;
    if IsFooter4(Repaired, Footer(slice)) {
      Parsed4(slice);
    } else {
      Parsed6(slice);
    }
  }

  lemma EndsInParses(slice: seq<byte>, f: UdpFlow)
    requires EndsIn(slice, f) && f.Reduced() == f
    ensures FromTailUdpFlow(Repaired, slice) == Found(f)
  {
    hide UdpFlow.Encode;
    hide UdpFlow.IsOneFamily;
    hide FromTail4;
    var n := |slice| - f.Len();
    var tail := slice[n..];
    if f.v4.Some? && Footer(slice) == REDIRECT_FLOW_4_FOOTER_ID {
      SameFields(tail, f.Encode());
      Back4(f);
    } else {
      assert slice == slice[..n] + f.Encode();
      Back(slice[..n], f);
    }
  }

  // The identifier is not one of the fields.
  lemma SameFields(a: seq<byte>, b: seq<byte>)
    requires |a| == |b| == V4_LEN && a[..12] == b[..12]
    ensures FromTail4(Repaired, a) == FromTail4(Repaired, b)
  {
    assert a[0..4] == a[..12][0..4] == b[0..4] && a[4..8] == a[..12][4..8] == b[4..8];
    assert a[8..10] == a[..12][8..10] == b[8..10] && a[10..12] == a[..12][10..12] == b[10..12];
  }

  // The identifiers, octet by octet.
  lemma Identifiers(f: UdpFlow, slice: seq<byte>)
    ensures f.IsSet() && f.IsOneFamily() ==>
              f.Encode()[f.Len() - 8..] == if f.v4.Some? then [0x5c, 0xb8, 0x67, 0xcf, 0x78, 0x81, 0x73, 0xb2]
                                           else [0x66, 0x68, 0x67, 0x6f, 0x68, 0x61, 0x63, 0x66]
    ensures |slice| >= 8 ==>
              (Footer(slice) == REDIRECT_FLOW_4_FOOTER_ID
               <==> slice[|slice| - 8..] == [0x44, 0x48, 0x47, 0x4f, 0x48, 0x41, 0x43, 0x44])
              && (Footer(slice) == UDP_CHANNEL_ESTABLISH_ID
                  <==> slice[|slice| - 8..] == [0xd0, 0x1f, 0xe6, 0x83, 0x0d, 0xdc, 0xe7, 0x81])
  {
    hide Value;
    hide BigEndian;
    EightOctets(0x5c, 0xb8, 0x67, 0xcf, 0x78, 0x81, 0x73, 0xb2);
    EightOctets(0x66, 0x68, 0x67, 0x6f, 0x68, 0x61, 0x63, 0x66);
    EightOctets(0x44, 0x48, 0x47, 0x4f, 0x48, 0x41, 0x43, 0x44);
    EightOctets(0xd0, 0x1f, 0xe6, 0x83, 0x0d, 0xdc, 0xe7, 0x81);
    if f.IsSet() && f.IsOneFamily() {
      IdLast(f);
    }
    if |slice| >= 8 {
      BigEndianOfValue(slice[|slice| - 8..]);
    }
  }

  lemma IdLast(f: UdpFlow)
    requires f.IsSet() && f.IsOneFamily()
    ensures f.Encode()[f.Len() - 8..]
         == BigEndian(8, if f.v4.Some? then REDIRECT_FLOW_4_FOOTER_ID_OLD else REDIRECT_FLOW_6_FOOTER_ID)
  {
    hide Value;
    hide BigEndian;
    var e, id := f.EncodeBase(), f.EncodeId();
    assert (e + id)[|e|..] == id;
    assert f.Encode()[f.Len() - 8..] == id[|id| - 8..];
  }
}
