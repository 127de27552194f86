// tunnel/control_message.go: the requests an agent sends and the responses it gets.
//
// Two readers do not match their writers. Parse(AsWritten, ..) is the reader in the repository,
// Parse(Repaired, ..) the one the writer calls for; each Back lemma says when a reader recovers
// what was written.
module ControlMessage {
  import opened Bytes
  import opened BigInt
  import opened Lib

  // now is a time.Time in milliseconds, the only precision on the wire.
  datatype Ping = Ping(now: i64, currentPing: Option<u32>, sessionId: Option<AgentSessionId>) {
    function Encode(): seq<byte> {
      BigEndian(8, ToU64(now)) + PutOptionU32(currentPing) + EncodeSession()
    }

    function EncodeSession(): seq<byte> {
      match sessionId
      case None => BigEndian(1, 0)
      case Some(id) => BigEndian(1, 1) + id.Encode()
    }

    static function ParseSession(s: seq<byte>): (Option<AgentSessionId>, seq<byte>) {
      var (code, s) := TakeU8(s);
      if code != 1 then (None, s) else
        var (id, s) := AgentSessionId.Parse(s);
        (Some(id), s)
    }

    // As written, both option octets are read as part of the value that follows them.
    static function Parse(v: Variant, s: seq<byte>): (Ping, seq<byte>) {
      var (now, s) := TakeU64(s);
      match v
      case AsWritten =>
        var (currentPing, s) := TakeU32(s);
        var (id, s) := AgentSessionId.Parse(s);
        (Ping(ToI64(now), Some(currentPing), Some(id)), s)
      case Repaired =>
        var (currentPing, s) := TakeOptionU32(s);
        var (id, s) := ParseSession(s);
        (Ping(ToI64(now), currentPing, id), s)
    }

    method WriteTo(w: Buffer)
      modifies w
      ensures w.data == old(w.data) + Encode()
    {
      w.WriteUint(8, ToU64(now));
      w.WriteOptionU32(currentPing);
      ghost var before := w.data;
      if sessionId.None? {
        w.WriteUint(1, 0);
      } else {
        w.WriteUint(1, 1);
        sessionId.value.WriteTo(w);
        Assoc(before, BigEndian(1, 1), sessionId.value.Encode());
      }
      Assoc(old(w.data), BigEndian(8, ToU64(now)), PutOptionU32(currentPing));
      Assoc(old(w.data), BigEndian(8, ToU64(now)) + PutOptionU32(currentPing), EncodeSession());
    }

    static method ReadFrom(v: Variant, r: Buffer) returns (p: Ping)
      modifies r
      ensures (p, r.data) == Parse(v, old(r.data))
    {
      var now := r.ReadU64();
      if v == AsWritten {
        var currentPing := r.ReadU32();
        var id := AgentSessionId.ReadFrom(r);
        return Ping(ToI64(now), Some(currentPing), Some(id));
      }
      var currentPing := r.ReadOptionU32();
      var code := r.ReadU8();
      if code != 1 {
        return Ping(ToI64(now), currentPing, None);
      }
      var id := AgentSessionId.ReadFrom(r);
      return Ping(ToI64(now), currentPing, Some(id));
    }

    lemma SessionBack(s: seq<byte>)
      ensures ParseSession(EncodeSession() + s) == (sessionId, s)
    {
      match sessionId
      case None => U8Back(0, s);
      case Some(id) =>
        assert EncodeSession() + s == BigEndian(1, 1) + (id.Encode() + s);
        U8Back(1, id.Encode() + s);
        id.Back(s);
    }

    // Any other option octet means that no session follows.
    static lemma OtherCodes(code: byte, s: seq<byte>)
      ensures code != 1 ==> ParseSession([code] + s) == (None, s)
    {
      U8Back(code, s);
      assert BigEndian(1, code) == [code];
    }

    // The reader in the repository never recovers a ping, not even one with both options set.
    lemma Back(v: Variant, s: seq<byte>)
      ensures Parse(v, Encode() + s) == (this, s) <==> v == Repaired
    {
      if v == Repaired {
        BackRepaired(s);
      } else {
        LeftOver(s);
      }
    }

    lemma BackRepaired(s: seq<byte>)
      ensures Parse(Repaired, Encode() + s) == (this, s)
    {
      hide BigEndian;
      hide Value;
      hide EncodeSession;
      hide ParseSession;
      var s2 := EncodeSession() + s;
      Assoc(BigEndian(8, ToU64(now)) + PutOptionU32(currentPing), EncodeSession(), s);
      Assoc(BigEndian(8, ToU64(now)), PutOptionU32(currentPing), s2);
      U64Back(ToU64(now), PutOptionU32(currentPing) + s2);
      OptionU32Back(currentPing, s2);
      SessionBack(s);
    }

    // As written a ping with both options set leaves two octets behind, and one without them all is
    // read as having them.
    lemma LeftOver(s: seq<byte>)
      ensures var (p, rest) := Parse(AsWritten, Encode() + s);
              && p.currentPing.Some? && p.sessionId.Some?
              && (currentPing.Some? && sessionId.Some? ==> |rest| == |s| + 2)
    {}
  }

  datatype Pong = Pong(requestNow: u64, serverNow: u64, serverId: u64, dataCenterId: u32,
                       clientAddr: AddrPort, tunnelAddr: AddrPort, sessionExpireAt: Option<u64>)
  {
    function Encode(): seq<byte> {
      EncodeServer() + clientAddr.Encode() + tunnelAddr.Encode() + PutOptionU64(sessionExpireAt)
    }

    function EncodeServer(): seq<byte> {
      BigEndian(8, requestNow) + BigEndian(8, serverNow) + BigEndian(8, serverId) + BigEndian(4, dataCenterId)
    }

    // As written, the expiry is read as a bare 64-bit integer.
    static function ParseExpiry(v: Variant, s: seq<byte>): (Option<u64>, seq<byte>) {
      match v
      case AsWritten =>
        var (x, s) := TakeU64(s);
        (Some(x), s)
      case Repaired => TakeOptionU64(s)
    }

    static function Parse(v: Variant, s: seq<byte>): (r: Parsed<Pong>)
      ensures r.Parsed? ==> r.value.clientAddr.IsValid() && r.value.tunnelAddr.IsValid()
    {
      var (requestNow, s) := TakeU64(s);
      var (serverNow, s) := TakeU64(s);
      var (serverId, s) := TakeU64(s);
      var (dataCenterId, s) := TakeU32(s);
      var (clientAddr, s) :- AddrPort.Parse(s);
      var (tunnelAddr, s) :- AddrPort.Parse(s);
      var (sessionExpireAt, s) := ParseExpiry(v, s);
      Parsed(Pong(requestNow, serverNow, serverId, dataCenterId, clientAddr, tunnelAddr, sessionExpireAt), s)
    }

    method WriteTo(w: Buffer)
      modifies w
      ensures w.data == old(w.data) + Encode()
    {
      w.WriteUint(8, requestNow);
      w.WriteUint(8, serverNow);
      w.WriteUint(8, serverId);
      w.WriteUint(4, dataCenterId);
      assert w.data == old(w.data) + EncodeServer();
      clientAddr.WriteTo(w);
      Assoc(old(w.data), EncodeServer(), clientAddr.Encode());
      tunnelAddr.WriteTo(w);
      Assoc(old(w.data), EncodeServer() + clientAddr.Encode(), tunnelAddr.Encode());
      w.WriteOptionU64(sessionExpireAt);
      Assoc(old(w.data), EncodeServer() + clientAddr.Encode() + tunnelAddr.Encode(), PutOptionU64(sessionExpireAt));
    }

    static method ReadFrom(v: Variant, r: Buffer) returns (p: Result<Pong>)
      modifies r
      ensures p.At(r.data) == Parse(v, old(r.data))
    {
      var requestNow := r.ReadU64();
      var serverNow := r.ReadU64();
      var serverId := r.ReadU64();
      var dataCenterId := r.ReadU32();
      var clientAddr :- AddrPort.ReadFrom(r);
      var tunnelAddr :- AddrPort.ReadFrom(r);
      var sessionExpireAt: Option<u64>;
      if v == AsWritten {
        var x := r.ReadU64();
        sessionExpireAt := Some(x);
      } else {
        sessionExpireAt := r.ReadOptionU64();
      }
      return Success(Pong(requestNow, serverNow, serverId, dataCenterId, clientAddr, tunnelAddr, sessionExpireAt));
    }

    // With valid addresses everything before the expiry is recovered under either reader.
    lemma ReachesExpiry(v: Variant, s: seq<byte>)
      requires clientAddr.IsValid() && tunnelAddr.IsValid()
      ensures Parse(v, Encode() + s)
           == var (x, rest) := ParseExpiry(v, PutOptionU64(sessionExpireAt) + s);
              Parsed(this.(sessionExpireAt := x), rest)
    {
      var s6 := PutOptionU64(sessionExpireAt) + s;
      var s5 := tunnelAddr.Encode() + s6;
      var s4 := clientAddr.Encode() + s5;
      assert Encode() + s == EncodeServer() + s4;
      ServerBack(s4);
      clientAddr.Back(s5);
      tunnelAddr.Back(s6);
    }

    lemma ServerBack(s: seq<byte>)
      ensures var (a, s1) := TakeU64(EncodeServer() + s);
              var (b, s2) := TakeU64(s1);
              var (c, s3) := TakeU64(s2);
              a == requestNow && b == serverNow && c == serverId && TakeU32(s3) == (dataCenterId, s)
    {
      var s3 := BigEndian(4, dataCenterId) + s;
      var s2 := BigEndian(8, serverId) + s3;
      var s1 := BigEndian(8, serverNow) + s2;
      assert EncodeServer() + s == BigEndian(8, requestNow) + s1;
      U64Back(requestNow, s1);
      U64Back(serverNow, s2);
      U64Back(serverId, s3);
      U32Back(dataCenterId, s);
    }

    // What the reader in the repository makes of an expiry: the option octet becomes its top
    // octet and the last octet stays in the stream.
    lemma ExpiryAsWritten(x: u64, s: seq<byte>)
      ensures ParseExpiry(AsWritten, PutOptionU64(Some(x)) + s)
           == (Some(0x100_0000_0000_0000 + x / 0x100), [x % 0x100] + s)
    {
      var low := [x % 0x100] + s;
      var high := BigEndian(1, 1) + BigEndian(7, x / 0x100);
      HighOctets(x);
      LowOctet(x);
      Shifted(BigEndian(1, 1), BigEndian(7, x / 0x100), [x % 0x100], s);
      BytesBack(high, low);
    }

    static lemma HighOctets(x: u64)
      ensures Value(BigEndian(1, 1) + BigEndian(7, x / 0x100)) == 0x100_0000_0000_0000 + x / 0x100
    {
      hide BigEndian;
      hide Value;
      hide Pow256;
      Pow256Values();
      ValueOfConcat(BigEndian(1, 1), BigEndian(7, x / 0x100));
      ValueOfBigEndian(1, 1);
      ValueOfBigEndian(7, x / 0x100);
    }

    static lemma LowOctet(x: u64)
      ensures BigEndian(8, x) == BigEndian(7, x / 0x100) + [x % 0x100]
    {}

    static lemma Shifted(a: seq<byte>, b: seq<byte>, c: seq<byte>, s: seq<byte>)
      ensures a + (b + c) + s == (a + b) + (c + s)
    {}

    lemma Back(v: Variant, s: seq<byte>)
      ensures Parse(v, Encode() + s) == Parsed(this, s)
         <==> v == Repaired && clientAddr.IsValid() && tunnelAddr.IsValid()
    {
      if clientAddr.IsValid() && tunnelAddr.IsValid() {
        ReachesExpiry(v, s);
        match sessionExpireAt {
          case None =>
          case Some(x) => ExpiryAsWritten(x, s);
        }
        OptionU64Back(sessionExpireAt, s);
      }
    }
  }

  datatype AgentRegister = AgentRegister(accountId: u64, agentId: u64, agentVersion: u64, timestamp: u64,
                                         clientAddr: AddrPort, tunnelAddr: AddrPort, signature: seq<byte>)
  {
    function EncodeIds(): seq<byte> {
      BigEndian(8, accountId) + BigEndian(8, agentId) + BigEndian(8, agentVersion) + BigEndian(8, timestamp)
    }

    function EncodePlain(): seq<byte> { EncodeIds() + clientAddr.Encode() + tunnelAddr.Encode() }

    function Encode(): seq<byte> { EncodePlain() + signature }

    static function Parse(s: seq<byte>): (r: Parsed<AgentRegister>)
      ensures r.Parsed? ==> r.value.IsWellFormed()
    {
      var (accountId, s) := TakeU64(s);
      var (agentId, s) := TakeU64(s);
      var (agentVersion, s) := TakeU64(s);
      var (timestamp, s) := TakeU64(s);
      var (clientAddr, s) :- AddrPort.Parse(s);
      var (tunnelAddr, s) :- AddrPort.Parse(s);
      var (signature, s) :- TakeBytes(32, s);
      Parsed(AgentRegister(accountId, agentId, agentVersion, timestamp, clientAddr, tunnelAddr, signature), s)
    }

    predicate IsWellFormed() {
      clientAddr.IsValid() && tunnelAddr.IsValid() && |signature| == 32
    }

    method WritePlain(w: Buffer)
      modifies w
      ensures w.data == old(w.data) + EncodePlain()
    {
      w.WriteUint(8, accountId);
      w.WriteUint(8, agentId);
      w.WriteUint(8, agentVersion);
      w.WriteUint(8, timestamp);
      assert w.data == old(w.data) + EncodeIds();
      clientAddr.WriteTo(w);
      Assoc(old(w.data), EncodeIds(), clientAddr.Encode());
      tunnelAddr.WriteTo(w);
      Assoc(old(w.data), EncodeIds() + clientAddr.Encode(), tunnelAddr.Encode());
    }

    method WriteTo(w: Buffer)
      modifies w
      ensures w.data == old(w.data) + Encode()
    {
      WritePlain(w);
      w.Write(signature);
      Assoc(old(w.data), EncodePlain(), signature);
    }

    static method ReadFrom(r: Buffer) returns (p: Result<AgentRegister>)
      modifies r
      ensures p.At(r.data) == Parse(old(r.data))
    {
      var accountId := r.ReadU64();
      var agentId := r.ReadU64();
      var agentVersion := r.ReadU64();
      var timestamp := r.ReadU64();
      var clientAddr :- AddrPort.ReadFrom(r);
      var tunnelAddr :- AddrPort.ReadFrom(r);
      var signature :- r.ReadBuffN(32);
      return Success(AgentRegister(accountId, agentId, agentVersion, timestamp, clientAddr, tunnelAddr, signature));
    }

    lemma Back(s: seq<byte>)
      ensures Parse(Encode() + s) == Parsed(this, s) <==> IsWellFormed()
    {
      if IsWellFormed() {
        var s6 := signature + s;
        var s5 := tunnelAddr.Encode() + s6;
        var s4 := clientAddr.Encode() + s5;
        assert Encode() + s == EncodeIds() + s4;
        IdsBack(s4);
        clientAddr.Back(s5);
        tunnelAddr.Back(s6);
        BytesBack(signature, s);
      }
    }

    lemma IdsBack(s: seq<byte>)
      ensures var (a, s1) := TakeU64(EncodeIds() + s);
              var (b, s2) := TakeU64(s1);
              var (c, s3) := TakeU64(s2);
              a == accountId && b == agentId && c == agentVersion && TakeU64(s3) == (timestamp, s)
    {
      var s3 := BigEndian(8, timestamp) + s;
      var s2 := BigEndian(8, agentVersion) + s3;
      var s1 := BigEndian(8, agentId) + s2;
      assert EncodeIds() + s == BigEndian(8, accountId) + s1;
      U64Back(accountId, s1);
      U64Back(agentId, s2);
      U64Back(agentVersion, s3);
      U64Back(timestamp, s);
    }
  }

  datatype AgentCheckPortMapping = AgentCheckPortMapping(sessionId: AgentSessionId, portRange: PortRange) {
    function Encode(): Option<seq<byte>> {
      match portRange.Encode()
      case None => None
      case Some(p) => Some(sessionId.Encode() + p)
    }

    static function Parse(s: seq<byte>): (AgentCheckPortMapping, seq<byte>) {
      var (id, s) := AgentSessionId.Parse(s);
      var (portRange, s) := PortRange.Parse(s);
      (AgentCheckPortMapping(id, portRange), s)
    }

    method WriteTo(w: Buffer) returns (ok: bool)
      modifies w
      ensures ok == Encode().Some?
      ensures ok ==> w.data == old(w.data) + Encode().value
    {
      sessionId.WriteTo(w);
      ok := portRange.WriteTo(w);
      if ok {
        assert w.data == old(w.data) + Encode().value;
      }
    }

    static method ReadFrom(r: Buffer) returns (p: AgentCheckPortMapping)
      modifies r
      ensures (p, r.data) == Parse(old(r.data))
    {
      var id := AgentSessionId.ReadFrom(r);
      var portRange := PortRange.ReadFrom(r);
      p := AgentCheckPortMapping(id, portRange);
    }

    // The stub reader recovers the session and leaves the whole port range in the stream.
    lemma Back(s: seq<byte>)
      requires Encode().Some?
      ensures Parse(Encode().value + s)
           == (AgentCheckPortMapping(sessionId, PortRange([], 0, 0, PortProto(""))), portRange.Encode().value + s)
    {
      assert Encode().value + s == sessionId.Encode() + (portRange.Encode().value + s);
      sessionId.Back(portRange.Encode().value + s);
    }
  }

  // A Go struct of pointers: several may be set, the writer emits the first of them only.
  datatype ControlRequest = ControlRequest(
    ping: Option<Ping>, agentRegister: Option<AgentRegister>, agentKeepAlive: Option<AgentSessionId>,
    setupUdpChannel: Option<AgentSessionId>, agentCheckPortMapping: Option<AgentCheckPortMapping>)
  {
    static const EMPTY := ControlRequest(None, None, None, None, None)

    function Encode(): Option<seq<byte>> {
      if ping.Some? then Some(BigEndian(4, 6) + ping.value.Encode())
      else if agentRegister.Some? then Some(BigEndian(4, 2) + agentRegister.value.Encode())
      else if agentKeepAlive.Some? then Some(BigEndian(4, 3) + agentKeepAlive.value.Encode())
      else if setupUdpChannel.Some? then Some(BigEndian(4, 4) + setupUdpChannel.value.Encode())
      else if agentCheckPortMapping.Some? then
        match agentCheckPortMapping.value.Encode()
        case None => None
        case Some(p) => Some(BigEndian(4, 5) + p)
      else None
    }

    // As written, a ping is read under tag 1 although it is written under tag 6.
    static function ParseBody(v: Variant, tag: u32, s: seq<byte>): Parsed<ControlRequest> {
      if tag == (if v == AsWritten then 1 else 6) then
        var (p, s) := Ping.Parse(v, s);
        Parsed(EMPTY.(ping := Some(p)), s)
      else if tag == 2 then
        var (p, s) :- AgentRegister.Parse(s);
        Parsed(EMPTY.(agentRegister := Some(p)), s)
      else if tag == 3 then
        var (p, s) := AgentSessionId.Parse(s);
        Parsed(EMPTY.(agentKeepAlive := Some(p)), s)
      else if tag == 4 then
        var (p, s) := AgentSessionId.Parse(s);
        Parsed(EMPTY.(setupUdpChannel := Some(p)), s)
      else if tag == 5 then
        var (p, s) := AgentCheckPortMapping.Parse(s);
        Parsed(EMPTY.(agentCheckPortMapping := Some(p)), s)
      else Rejected(UnknownTag, s)
    }

    static function Parse(v: Variant, s: seq<byte>): Parsed<ControlRequest> {
      var (tag, s) := TakeU32(s);
      ParseBody(v, tag, s)
    }

    // What the writer puts on the wire: its first alternative that is set.
    function Alternatives(): nat {
      (if ping.Some? then 1 else 0) + (if agentRegister.Some? then 1 else 0) + (if agentKeepAlive.Some? then 1 else 0)
      + (if setupUdpChannel.Some? then 1 else 0) + (if agentCheckPortMapping.Some? then 1 else 0)
    }

    function Reduced(): (r: ControlRequest)
      ensures Alternatives() == 1 ==> r == this
      ensures Alternatives() > 0 ==> r.Alternatives() == 1 && r.Encode() == Encode()
    {
      if ping.Some? then EMPTY.(ping := ping)
      else if agentRegister.Some? then EMPTY.(agentRegister := agentRegister)
      else if agentKeepAlive.Some? then EMPTY.(agentKeepAlive := agentKeepAlive)
      else if setupUdpChannel.Some? then EMPTY.(setupUdpChannel := setupUdpChannel)
      else EMPTY.(agentCheckPortMapping := agentCheckPortMapping)
    }

    predicate Survives(v: Variant) {
      if ping.Some? then v == Repaired
      else if agentRegister.Some? then agentRegister.value.IsWellFormed()
      else agentKeepAlive.Some? || setupUdpChannel.Some?
    }

    method WriteTo(w: Buffer) returns (ok: bool)
      modifies w
      ensures ok == Encode().Some?
      ensures ok ==> w.data == old(w.data) + Encode().value
    {
      ok := true;
      if ping.Some? {
        w.WriteUint(4, 6);
        ping.value.WriteTo(w);
        Assoc(old(w.data), BigEndian(4, 6), ping.value.Encode());
      } else if agentRegister.Some? {
        w.WriteUint(4, 2);
        agentRegister.value.WriteTo(w);
        Assoc(old(w.data), BigEndian(4, 2), agentRegister.value.Encode());
      } else if agentKeepAlive.Some? {
        w.WriteUint(4, 3);
        agentKeepAlive.value.WriteTo(w);
        Assoc(old(w.data), BigEndian(4, 3), agentKeepAlive.value.Encode());
      } else if setupUdpChannel.Some? {
        w.WriteUint(4, 4);
        setupUdpChannel.value.WriteTo(w);
        Assoc(old(w.data), BigEndian(4, 4), setupUdpChannel.value.Encode());
      } else if agentCheckPortMapping.Some? {
        w.WriteUint(4, 5);
        ok := agentCheckPortMapping.value.WriteTo(w);
        if ok {
          Assoc(old(w.data), BigEndian(4, 5), agentCheckPortMapping.value.Encode().value);
        }
      } else {
        ok := false;
      }
    }

    static method ReadFrom(v: Variant, r: Buffer) returns (p: Result<ControlRequest>)
      modifies r
      ensures p.At(r.data) == Parse(v, old(r.data))
    {
      var tag := r.ReadU32();
      if tag == (if v == AsWritten then 1 else 6) {
        var x := Ping.ReadFrom(v, r);
        return Success(EMPTY.(ping := Some(x)));
      } else if tag == 2 {
        var x :- AgentRegister.ReadFrom(r);
        return Success(EMPTY.(agentRegister := Some(x)));
      } else if tag == 3 {
        var x := AgentSessionId.ReadFrom(r);
        return Success(EMPTY.(agentKeepAlive := Some(x)));
      } else if tag == 4 {
        var x := AgentSessionId.ReadFrom(r);
        return Success(EMPTY.(setupUdpChannel := Some(x)));
      } else if tag == 5 {
        var x := AgentCheckPortMapping.ReadFrom(r);
        return Success(EMPTY.(agentCheckPortMapping := Some(x)));
      }
      return Failure(UnknownTag);
    }

    static lemma Dispatch(v: Variant, tag: u32, body: seq<byte>, s: seq<byte>)
      ensures Parse(v, BigEndian(4, tag) + body + s) == ParseBody(v, tag, body + s)
    {
      Assoc(BigEndian(4, tag), body, s);
      U32Back(tag, body + s);
    }

    lemma Back(v: Variant, s: seq<byte>)
      requires Encode().Some?
      ensures Parse(v, Encode().value + s) == Parsed(Reduced(), s) <==> Survives(v)
    {
      hide Ping.Parse;
      hide Ping.Encode;
      hide AgentRegister.Parse;
      hide AgentRegister.Encode;
      if ping.Some? {
        Dispatch(v, 6, ping.value.Encode(), s);
        ping.value.Back(v, s);
      } else if agentRegister.Some? {
        Dispatch(v, 2, agentRegister.value.Encode(), s);
        agentRegister.value.Back(s);
      } else if agentKeepAlive.Some? {
        Dispatch(v, 3, agentKeepAlive.value.Encode(), s);
        agentKeepAlive.value.Back(s);
      } else if setupUdpChannel.Some? {
        Dispatch(v, 4, setupUdpChannel.value.Encode(), s);
        setupUdpChannel.value.Back(s);
      } else {
        Dispatch(v, 5, agentCheckPortMapping.value.Encode().value, s);
        agentCheckPortMapping.value.Back(s);
        assert agentCheckPortMapping.value.portRange.proto.value != "";
      }
    }
  }

  datatype AgentRegistered = AgentRegistered(id: AgentSessionId, expiresAt: i64) {
    function Encode(): seq<byte> { id.Encode() + BigEndian(8, ToU64(expiresAt)) }

    static function Parse(s: seq<byte>): (AgentRegistered, seq<byte>) {
      var (id, s) := AgentSessionId.Parse(s);
      var (expiresAt, s) := TakeU64(s);
      (AgentRegistered(id, ToI64(expiresAt)), s)
    }

    method WriteTo(w: Buffer)
      modifies w
      ensures w.data == old(w.data) + Encode()
    {
      id.WriteTo(w);
      w.WriteUint(8, ToU64(expiresAt));
      assert w.data == old(w.data) + Encode();
    }

    static method ReadFrom(r: Buffer) returns (p: AgentRegistered)
      modifies r
      ensures (p, r.data) == Parse(old(r.data))
    {
      var id := AgentSessionId.ReadFrom(r);
      var expiresAt := r.ReadU64();
      p := AgentRegistered(id, ToI64(expiresAt));
    }

    lemma Back(s: seq<byte>)
      ensures Parse(Encode() + s) == (this, s)
    {
      var rest := BigEndian(8, ToU64(expiresAt)) + s;
      assert Encode() + s == id.Encode() + rest;
      id.Back(rest);
      U64Back(ToU64(expiresAt), s);
    }
  }

  datatype AgentPortMappingFound = AgentPortMappingFound(toAgent: Option<AgentSessionId>)

  datatype AgentPortMapping = AgentPortMapping(range: PortRange, found: Option<AgentPortMappingFound>) {
    // A nil found stops the writer, and so does a port range with an unknown protocol.
    function Encode(): Option<seq<byte>> {
      match (range.Encode(), found)
      case (Some(p), Some(f)) =>
        Some(p + match f.toAgent case None => [] case Some(id) => BigEndian(4, 1) + id.Encode())
      case _ => None
    }

    // found is nil in a fresh value: the only tag the reader knows makes it follow that pointer.
    static function Parse(s: seq<byte>): (r: Parsed<AgentPortMapping>)
      ensures r.Rejected?
    {
      var (_, s) := PortRange.Parse(s);
      var (tag, s) := TakeU32(s);
      Rejected(if tag == 1 then NilDereference else UnknownTag, s)
    }

    method WriteTo(w: Buffer) returns (ok: bool)
      modifies w
      ensures ok == Encode().Some?
      ensures ok ==> w.data == old(w.data) + Encode().value
    {
      ok := range.WriteTo(w);
      if !ok || found.None? {
        return false;
      }
      if found.value.toAgent.Some? {
        var id := found.value.toAgent.value;
        ghost var before := w.data;
        w.WriteUint(4, 1);
        id.WriteTo(w);
        Assoc(before, BigEndian(4, 1), id.Encode());
        Assoc(old(w.data), range.Encode().value, BigEndian(4, 1) + id.Encode());
      } else {
        Assoc(old(w.data), range.Encode().value, []);
      }
    }

    static method ReadFrom(r: Buffer) returns (p: Result<AgentPortMapping>)
      modifies r
      ensures p.At(r.data) == Parse(old(r.data))
    {
      var range := PortRange.ReadFrom(r);
      var tag := r.ReadU32();
      p := Failure(if tag == 1 then NilDereference else UnknownTag);
    }
  }

  datatype UdpChannelDetails = UdpChannelDetails(tunnelAddr: AddrPort, token: Slice) {
    function Encode(): seq<byte> { tunnelAddr.Encode() + PutToken(token) }

    static function Parse(s: seq<byte>): (r: Parsed<UdpChannelDetails>)
      ensures r.Parsed? ==> r.value.tunnelAddr.IsValid()
    {
      var (tunnelAddr, s) :- AddrPort.Parse(s);
      var (token, s) :- TakeToken(s);
      Parsed(UdpChannelDetails(tunnelAddr, token), s)
    }

    method WriteTo(w: Buffer)
      modifies w
      ensures w.data == old(w.data) + Encode()
    {
      tunnelAddr.WriteTo(w);
      w.WriteToken(token);
      assert w.data == old(w.data) + Encode();
    }

    static method ReadFrom(r: Buffer) returns (p: Result<UdpChannelDetails>)
      modifies r
      ensures p.At(r.data) == Parse(old(r.data))
    {
      var tunnelAddr :- AddrPort.ReadFrom(r);
      var token :- r.ReadToken();
      return Success(UdpChannelDetails(tunnelAddr, token));
    }

    lemma Back(s: seq<byte>)
      ensures Parse(Encode() + s) == Parsed(this, s) <==> tunnelAddr.IsValid()
    {
      hide AddrPort.Parse;
      hide AddrPort.Encode;
      hide PutToken;
      hide TakeToken;
      if tunnelAddr.IsValid() {
        Assoc(tunnelAddr.Encode(), PutToken(token), s);
        tunnelAddr.Back(PutToken(token) + s);
        TokenBack(token, s);
      }
    }

    // Cutting an encoding short: where the address octets or the token octets are incomplete the
    // reader fails; inside the port or the length it succeeds with an empty token, and with port 0
    // if the port is incomplete.
    lemma Truncated(k: nat)
      requires tunnelAddr.IsValid() && k < |Encode()|
      ensures var port := 1 + |tunnelAddr.addr.Octets()|;
              var r := Parse(Encode()[..k]);
              if k < port || port + 10 <= k then r == Rejected(if k == 0 then UnknownFamily else ShortBuffer, [])
              else
                var p := if k < port + 2 then 0 else tunnelAddr.port;
                r == Parsed(UdpChannelDetails(tunnelAddr.(port := p), []), [])
    {
      var port := 1 + |tunnelAddr.addr.Octets()|;
      var address := tunnelAddr.Encode();
      var t := Encode()[..k];
      if k < port + 2 {
        assert t == address[..k];
        tunnelAddr.Truncated(k);
      } else {
        var tail := PutToken(token)[..k - (port + 2)];
        assert t == address + tail;
        tunnelAddr.Back(tail);
        TokenTruncated(token, k - (port + 2));
      }
    }
  }

  datatype ControlResponse = ControlResponse(
    invalidSignature: bool, unauthorized: bool, requestQueued: bool, tryAgainLater: bool,
    pong: Option<Pong>, agentRegistered: Option<AgentRegistered>,
    agentPortMapping: Option<AgentPortMapping>, udpChannelDetails: Option<UdpChannelDetails>)
  {
    static const EMPTY := ControlResponse(false, false, false, false, None, None, None, None)

    function Encode(): Option<seq<byte>> {
      if pong.Some? then Some(BigEndian(4, 1) + pong.value.Encode())
      else if invalidSignature then Some(BigEndian(4, 2))
      else if unauthorized then Some(BigEndian(4, 3))
      else if requestQueued then Some(BigEndian(4, 4))
      else if tryAgainLater then Some(BigEndian(4, 5))
      else if agentRegistered.Some? then Some(BigEndian(4, 6) + agentRegistered.value.Encode())
      else if agentPortMapping.Some? then
        match agentPortMapping.value.Encode()
        case None => None
        case Some(p) => Some(BigEndian(4, 7) + p)
      else if udpChannelDetails.Some? then Some(BigEndian(4, 8) + udpChannelDetails.value.Encode())
      else None
    }

    static function ParseBody(v: Variant, tag: u32, s: seq<byte>): Parsed<ControlResponse> {
      if tag == 1 then
        var (p, s) :- Pong.Parse(v, s);
        Parsed(EMPTY.(pong := Some(p)), s)
      else if tag == 2 then Parsed(EMPTY.(invalidSignature := true), s)
      else if tag == 3 then Parsed(EMPTY.(unauthorized := true), s)
      else if tag == 4 then Parsed(EMPTY.(requestQueued := true), s)
      else if tag == 5 then Parsed(EMPTY.(tryAgainLater := true), s)
      else if tag == 6 then
        var (p, s) := AgentRegistered.Parse(s);
        Parsed(EMPTY.(agentRegistered := Some(p)), s)
      else if tag == 7 then
        var p := AgentPortMapping.Parse(s);
        Rejected(p.error, p.rest)
      else if tag == 8 then
        var (p, s) :- UdpChannelDetails.Parse(s);
        Parsed(EMPTY.(udpChannelDetails := Some(p)), s)
      else Rejected(UnknownTag, s)
    }

    static function Parse(v: Variant, s: seq<byte>): Parsed<ControlResponse> {
      var (tag, s) := TakeU32(s);
      ParseBody(v, tag, s)
    }

    function Alternatives(): nat {
      (if invalidSignature then 1 else 0) + (if unauthorized then 1 else 0) + (if requestQueued then 1 else 0)
      + (if tryAgainLater then 1 else 0) + (if pong.Some? then 1 else 0) + (if agentRegistered.Some? then 1 else 0)
      + (if agentPortMapping.Some? then 1 else 0) + (if udpChannelDetails.Some? then 1 else 0)
    }

    function Reduced(): (r: ControlResponse)
      ensures Alternatives() == 1 ==> r == this
      ensures Alternatives() > 0 ==> r.Alternatives() == 1 && r.Encode() == Encode()
    {
      if pong.Some? then EMPTY.(pong := pong)
      else if invalidSignature then EMPTY.(invalidSignature := true)
      else if unauthorized then EMPTY.(unauthorized := true)
      else if requestQueued then EMPTY.(requestQueued := true)
      else if tryAgainLater then EMPTY.(tryAgainLater := true)
      else if agentRegistered.Some? then EMPTY.(agentRegistered := agentRegistered)
      else if agentPortMapping.Some? then EMPTY.(agentPortMapping := agentPortMapping)
      else EMPTY.(udpChannelDetails := udpChannelDetails)
    }

    predicate Survives(v: Variant) {
      if pong.Some? then v == Repaired && pong.value.clientAddr.IsValid() && pong.value.tunnelAddr.IsValid()
      else if invalidSignature || unauthorized || requestQueued || tryAgainLater || agentRegistered.Some? then true
      else agentPortMapping.None? && udpChannelDetails.Some? && udpChannelDetails.value.tunnelAddr.IsValid()
    }

    method WriteTo(w: Buffer) returns (ok: bool)
      modifies w
      ensures ok == Encode().Some?
      ensures ok ==> w.data == old(w.data) + Encode().value
    {
      ok := true;
      if pong.Some? {
        w.WriteUint(4, 1);
        pong.value.WriteTo(w);
        Assoc(old(w.data), BigEndian(4, 1), pong.value.Encode());
      } else if invalidSignature {
        w.WriteUint(4, 2);
      } else if unauthorized {
        w.WriteUint(4, 3);
      } else if requestQueued {
        w.WriteUint(4, 4);
      } else if tryAgainLater {
        w.WriteUint(4, 5);
      } else if agentRegistered.Some? {
        w.WriteUint(4, 6);
        agentRegistered.value.WriteTo(w);
        Assoc(old(w.data), BigEndian(4, 6), agentRegistered.value.Encode());
      } else if agentPortMapping.Some? {
        w.WriteUint(4, 7);
        ok := agentPortMapping.value.WriteTo(w);
        if ok {
          Assoc(old(w.data), BigEndian(4, 7), agentPortMapping.value.Encode().value);
        }
      } else if udpChannelDetails.Some? {
        w.WriteUint(4, 8);
        udpChannelDetails.value.WriteTo(w);
        Assoc(old(w.data), BigEndian(4, 8), udpChannelDetails.value.Encode());
      } else {
        ok := false;
      }
    }

    static method ReadFrom(v: Variant, r: Buffer) returns (p: Result<ControlResponse>)
      modifies r
      ensures p.At(r.data) == Parse(v, old(r.data))
    {
      var tag := r.ReadU32();
      match tag {
        case 1 =>
          var x :- Pong.ReadFrom(v, r);
          p := Success(EMPTY.(pong := Some(x)));
        case 2 => p := Success(EMPTY.(invalidSignature := true));
        case 3 => p := Success(EMPTY.(unauthorized := true));
        case 4 => p := Success(EMPTY.(requestQueued := true));
        case 5 => p := Success(EMPTY.(tryAgainLater := true));
        case 6 =>
          var x := AgentRegistered.ReadFrom(r);
          p := Success(EMPTY.(agentRegistered := Some(x)));
        case 7 =>
          var x := AgentPortMapping.ReadFrom(r);
          p := Failure(x.error);
        case 8 =>
          var x :- UdpChannelDetails.ReadFrom(r);
          p := Success(EMPTY.(udpChannelDetails := Some(x)));
        case _ => p := Failure(UnknownTag);
      }
    }

    static lemma Dispatch(v: Variant, tag: u32, body: seq<byte>, s: seq<byte>)
      ensures Parse(v, BigEndian(4, tag) + body + s) == ParseBody(v, tag, body + s)
    {
      Assoc(BigEndian(4, tag), body, s);
      U32Back(tag, body + s);
    }

    static lemma FlagBack(v: Variant, tag: u32, s: seq<byte>)
      ensures Parse(v, BigEndian(4, tag) + s) == ParseBody(v, tag, s)
    {
      U32Back(tag, s);
    }

    lemma Back(v: Variant, s: seq<byte>)
      requires Encode().Some?
      ensures Parse(v, Encode().value + s) == Parsed(Reduced(), s) <==> Survives(v)
    {
      hide Pong.Parse;
      hide Pong.Encode;
      hide AgentRegistered.Parse;
      hide UdpChannelDetails.Parse;
      if pong.Some? {
        Dispatch(v, 1, pong.value.Encode(), s);
        pong.value.Back(v, s);
      } else if invalidSignature {
        FlagBack(v, 2, s);
      } else if unauthorized {
        FlagBack(v, 3, s);
      } else if requestQueued {
        FlagBack(v, 4, s);
      } else if tryAgainLater {
        FlagBack(v, 5, s);
      } else if agentRegistered.Some? {
        Dispatch(v, 6, agentRegistered.value.Encode(), s);
        agentRegistered.value.Back(s);
      } else if agentPortMapping.Some? {
        Dispatch(v, 7, agentPortMapping.value.Encode().value, s);
      } else {
        Dispatch(v, 8, udpChannelDetails.value.Encode(), s);
        udpChannelDetails.value.Back(s);
      }
    }
  }
}
