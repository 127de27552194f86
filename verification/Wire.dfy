// Where everything is on the wire, octet by octet.
module Wire {
  import opened Bytes
  import opened BigInt
  import opened Lib
  import opened ControlMessage
  import opened ControlFeeds

  // x lies in e from position k on.
  predicate At(e: seq<byte>, k: nat, x: seq<byte>) { k + |x| <= |e| && e[k..k + |x|] == x }

  lemma Parts(a: seq<byte>, b: seq<byte>, c: seq<byte>, d: seq<byte>)
    ensures var e := a + b + c + d;
            At(e, 0, a) && At(e, |a|, b) && At(e, |a| + |b|, c) && At(e, |a| + |b| + |c|, d)
  {}

  lemma Tag(x: byte)
    ensures BigEndian(4, x) == [0, 0, 0, x] && BigEndian(1, x) == [x]
  {
    NumberOctets(0, 0, 0, x);
    assert BigEndian(0, x / 0x100) == [];
  }

  lemma SessionLayout(id: AgentSessionId)
    ensures var e := id.Encode();
            |e| == 24 && At(e, 0, BigEndian(8, id.sessionId)) && At(e, 8, BigEndian(8, id.accountId))
            && At(e, 16, BigEndian(8, id.agentId))
  {
    hide BigEndian;
    Parts(BigEndian(8, id.sessionId), BigEndian(8, id.accountId), BigEndian(8, id.agentId), []);
    assert id.Encode() + [] == id.Encode();
  }

  lemma PortOctets(p: u16)
    ensures BigEndian(2, p) == [p / 0x100, p % 0x100]
  {
    Tag(p / 0x100);
  }

  // Family, octets, port.
  lemma AddressLayout(a: AddrPort)
    requires a.IsValid()
    ensures var e, n := a.Encode(), if a.addr.Ip4? then 4 else 16;
            && |e| == n + 3 && e[0] == (if a.addr.Ip4? then 4 else 6) && At(e, 1, a.addr.Octets())
            && e[n + 1] == a.port / 0x100 && e[n + 2] == a.port % 0x100
  {
    hide BigEndian;
    Tag(4);
    Tag(6);
    PortOctets(a.port);
    Parts([if a.addr.Ip4? then 4 else 6], a.addr.Octets(), BigEndian(2, a.port), []);
  }

  lemma OptionLayout(v: Option<u64>, w: Option<u32>)
    ensures PutOptionU64(v) == (match v case None => [0] case Some(x) => [1] + BigEndian(8, x))
    ensures PutOptionU32(w) == (match w case None => [0] case Some(x) => [1] + BigEndian(4, x))
  {
    Tag(0);
    Tag(1);
  }

  lemma ProtoLayout(p: PortProto)
    ensures p.Encode() == match p.value case "tcp" => Some([1]) case "udp" => Some([2]) case "both" => Some([3])
                                        case _ => None
  {
    Tag(1);
    Tag(2);
    Tag(3);
  }

  lemma PingLayout(p: Ping)
    ensures var e, n := p.Encode(), if p.currentPing.Some? then 5 else 1;
            && At(e, 0, BigEndian(8, ToU64(p.now)))
            && At(e, 8, match p.currentPing case None => [0] case Some(x) => [1] + BigEndian(4, x))
            && At(e, 8 + n, match p.sessionId case None => [0] case Some(id) => [1] + id.Encode())
            && |e| == 8 + n + if p.sessionId.Some? then 25 else 1
  {
    Tag(0);
    Tag(1);
    OptionLayout(None, p.currentPing);
    hide BigEndian;
    Parts(BigEndian(8, ToU64(p.now)), PutOptionU32(p.currentPing), p.EncodeSession(), []);
    assert p.Encode() + [] == p.Encode();
  }

  lemma PongLayout(p: Pong)
    ensures var e, c, t := p.Encode(), p.clientAddr.Encode(), p.tunnelAddr.Encode();
            && At(e, 0, BigEndian(8, p.requestNow)) && At(e, 8, BigEndian(8, p.serverNow))
            && At(e, 16, BigEndian(8, p.serverId)) && At(e, 24, BigEndian(4, p.dataCenterId))
            && At(e, 28, c) && At(e, 28 + |c|, t)
            && e[28 + |c| + |t|..] == match p.sessionExpireAt case None => [0] case Some(x) => [1] + BigEndian(8, x)
  {
    OptionLayout(p.sessionExpireAt, None);
    hide BigEndian;
    hide AddrPort.Encode;
    hide PutOptionU64;
    Parts(BigEndian(8, p.requestNow), BigEndian(8, p.serverNow), BigEndian(8, p.serverId),
          BigEndian(4, p.dataCenterId));
    Parts(p.EncodeServer(), p.clientAddr.Encode(), p.tunnelAddr.Encode(), PutOptionU64(p.sessionExpireAt));
    Within(p.Encode(), p.EncodeServer());
  }

  // What lies in the beginning of e lies in e.
  lemma Within(e: seq<byte>, a: seq<byte>)
    requires At(e, 0, a)
    ensures forall k: nat, x :: At(a, k, x) ==> At(e, k, x)
  {
    forall k: nat, x | At(a, k, x) ensures At(e, k, x) {
      assert e[..|a|][k..k + |x|] == e[k..k + |x|];
    }
  }

  lemma RegisterLayout(r: AgentRegister)
    ensures var e, c, t := r.Encode(), r.clientAddr.Encode(), r.tunnelAddr.Encode();
            && At(e, 0, BigEndian(8, r.accountId)) && At(e, 8, BigEndian(8, r.agentId))
            && At(e, 16, BigEndian(8, r.agentVersion)) && At(e, 24, BigEndian(8, r.timestamp))
            && At(e, 32, c) && At(e, 32 + |c|, t) && e[32 + |c| + |t|..] == r.signature
  {
    hide BigEndian;
    hide AddrPort.Encode;
    Parts(BigEndian(8, r.accountId), BigEndian(8, r.agentId), BigEndian(8, r.agentVersion), BigEndian(8, r.timestamp));
    Parts(r.EncodeIds(), r.clientAddr.Encode(), r.tunnelAddr.Encode(), r.signature);
    Within(r.Encode(), r.EncodeIds());
  }

  lemma RegisteredLayout(r: AgentRegistered)
    ensures var e := r.Encode();
            |e| == 32 && At(e, 0, r.id.Encode()) && At(e, 24, BigEndian(8, ToU64(r.expiresAt)))
  {
    hide BigEndian;
  }

  // An address, the length of the token and the token.
  lemma TokenLayout(d: UdpChannelDetails, c: ClaimInstructions)
    ensures var e, n := d.Encode(), |d.tunnelAddr.Encode()|;
            At(e, 0, d.tunnelAddr.Encode()) && At(e, n, BigEndian(8, |d.token|)) && e[n + 8..] == d.token
    ensures var e, n := c.Encode(), |c.address.Encode()|;
            At(e, 0, c.address.Encode()) && At(e, n, BigEndian(8, |c.token|)) && e[n + 8..] == c.token
  {
    hide BigEndian;
    hide AddrPort.Encode;
    Parts(d.tunnelAddr.Encode(), BigEndian(8, |d.token|), d.token, []);
    Assoc(d.tunnelAddr.Encode(), BigEndian(8, |d.token|), d.token);
    Parts(c.address.Encode(), BigEndian(8, |c.token|), c.token, []);
    Assoc(c.address.Encode(), BigEndian(8, |c.token|), c.token);
  }

  lemma ClientLayout(c: NewClient)
    ensures var e, a, b := c.Encode(), |c.connectAddr.Encode()|, |c.peerAddr.Encode()|;
            var i := |c.claimInstructions.Encode()|;
            && At(e, 0, c.connectAddr.Encode()) && At(e, a, c.peerAddr.Encode())
            && At(e, a + b, c.claimInstructions.Encode())
            && At(e, a + b + i, BigEndian(8, c.tunnelServerId)) && e[a + b + i + 8..] == BigEndian(4, c.dataCenterId)
  {
    hide BigEndian;
    hide AddrPort.Encode;
    hide ClaimInstructions.Encode;
    Parts(c.connectAddr.Encode(), c.peerAddr.Encode(), c.claimInstructions.Encode(), []);
    assert c.EncodeAddrs() + [] == c.EncodeAddrs();
    Parts(c.EncodeAddrs(), BigEndian(8, c.tunnelServerId), BigEndian(4, c.dataCenterId), []);
    assert c.Encode() + [] == c.Encode();
    Within(c.Encode(), c.EncodeAddrs());
  }

  // The first alternative that is set is written: its tag, and what follows it.
  lemma RequestLayout(r: ControlRequest)
    ensures r.Encode()
         == if r.ping.Some? then Some([0, 0, 0, 6] + r.ping.value.Encode())
            else if r.agentRegister.Some? then Some([0, 0, 0, 2] + r.agentRegister.value.Encode())
            else if r.agentKeepAlive.Some? then Some([0, 0, 0, 3] + r.agentKeepAlive.value.Encode())
            else if r.setupUdpChannel.Some? then Some([0, 0, 0, 4] + r.setupUdpChannel.value.Encode())
            else if r.agentCheckPortMapping.Some? && r.agentCheckPortMapping.value.Encode().Some? then
              Some([0, 0, 0, 5] + r.agentCheckPortMapping.value.Encode().value)
            else None
  {
    hide BigEndian;
    Tag(6);
    Tag(2);
    Tag(3);
    Tag(4);
    Tag(5);
  }

  lemma ResponseLayout(r: ControlResponse)
    ensures r.Encode()
         == if r.pong.Some? then Some([0, 0, 0, 1] + r.pong.value.Encode())
            else if r.invalidSignature then Some([0, 0, 0, 2])
            else if r.unauthorized then Some([0, 0, 0, 3])
            else if r.requestQueued then Some([0, 0, 0, 4])
            else if r.tryAgainLater then Some([0, 0, 0, 5])
            else if r.agentRegistered.Some? then Some([0, 0, 0, 6] + r.agentRegistered.value.Encode())
            else if r.agentPortMapping.Some? then
              (match r.agentPortMapping.value.Encode() case None => None case Some(p) => Some([0, 0, 0, 7] + p))
            else if r.udpChannelDetails.Some? then Some([0, 0, 0, 8] + r.udpChannelDetails.value.Encode())
            else None
  {
    hide BigEndian;
    Tag(1);
    Tag(2);
    Tag(3);
    Tag(4);
    Tag(5);
    Tag(6);
    Tag(7);
    Tag(8);
  }

  // Every other tag, and every other address family, is refused.
  lemma Unknown(v: Variant, tag: u32, family: byte, s: seq<byte>)
    ensures var t := BigEndian(4, tag) + s;
            && (tag > 6 || tag == 0 || tag == (if v == AsWritten then 6 else 1) ==>
                  ControlRequest.Parse(v, t) == Rejected(UnknownTag, s))
            && (tag > 8 || tag == 0 ==> ControlResponse.Parse(v, t) == Rejected(UnknownTag, s))
            && (tag > 2 || tag == 0 ==> ControlFeed.Parse(v, t) == Rejected(UnknownTag, s))
    ensures family != 4 && family != 6 ==> AddrPort.Parse([family] + s) == Rejected(UnknownFamily, s)
  {
    hide BigEndian;
    hide Value;
    U32Back(tag, s);
    U8Back(family, s);
    Tag(family);
  }

  // What a writer's choice needs to be read back.
  lemma Surviving(v: Variant, q: ControlRequest, r: ControlResponse, f: ControlFeed)
    ensures q.Survives(v)
       <==> if q.ping.Some? then v == Repaired
            else if q.agentRegister.Some? then
              var a := q.agentRegister.value;
              !a.clientAddr.addr.Unset? && !a.tunnelAddr.addr.Unset? && |a.signature| == 32
            else q.agentKeepAlive.Some? || q.setupUdpChannel.Some?
    ensures r.Survives(v)
       <==> if r.pong.Some? then
              v == Repaired && !r.pong.value.clientAddr.addr.Unset? && !r.pong.value.tunnelAddr.addr.Unset?
            else
              || r.invalidSignature || r.unauthorized || r.requestQueued || r.tryAgainLater || r.agentRegistered.Some?
              || (r.agentPortMapping.None? && r.udpChannelDetails.Some?
                  && !r.udpChannelDetails.value.tunnelAddr.addr.Unset?)
    ensures f.Survives(v)
       <==> if f.response.Some? then f.response.value.content.Survives(v)
            else f.newClient.Some? && var c := f.newClient.value;
                 && !c.connectAddr.addr.Unset? && !c.peerAddr.addr.Unset?
                 && !c.claimInstructions.address.addr.Unset?
  {}

  // Eight octets of request id before the content; four of tag before the frame.
  lemma FrameLayout(m: Request, f: ControlFeed)
    ensures m.content.Encode().Some? ==> EncodeRequest(m) == Some(BigEndian(8, m.requestId) + m.content.Encode().value)
    ensures f.response.Some? && f.response.value.content.Encode().Some? ==>
              f.Encode() == Some([0, 0, 0, 1] + (BigEndian(8, f.response.value.requestId)
                                                 + f.response.value.content.Encode().value))
    ensures f.response.None? && f.newClient.Some? ==> f.Encode() == Some([0, 0, 0, 2] + f.newClient.value.Encode())
  {
    hide BigEndian;
    Tag(1);
    Tag(2);
  }
}
