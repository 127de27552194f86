// tunnel/lib.go: session identifiers, protocols and port ranges.
module Lib {
  import opened Bytes
  import opened BigInt

  datatype AgentSessionId = AgentSessionId(sessionId: u64, accountId: u64, agentId: u64) {
    function Encode(): seq<byte> {
      BigEndian(8, sessionId) + BigEndian(8, accountId) + BigEndian(8, agentId)
    }

    static function Parse(s: seq<byte>): (AgentSessionId, seq<byte>) {
      var (sessionId, s) := TakeU64(s);
      var (accountId, s) := TakeU64(s);
      var (agentId, s) := TakeU64(s);
      (AgentSessionId(sessionId, accountId, agentId), s)
    }

    method WriteTo(w: Buffer)
      modifies w
      ensures w.data == old(w.data) + Encode()
    {
      w.WriteUint(8, sessionId);
      w.WriteUint(8, accountId);
      w.WriteUint(8, agentId);
      assert w.data == old(w.data) + Encode();
    }

    static method ReadFrom(r: Buffer) returns (id: AgentSessionId)
      modifies r
      ensures (id, r.data) == Parse(old(r.data))
    {
      var sessionId := r.ReadU64();
      var accountId := r.ReadU64();
      var agentId := r.ReadU64();
      id := AgentSessionId(sessionId, accountId, agentId);
    }

    lemma Back(s: seq<byte>)
      ensures Parse(Encode() + s) == (this, s)
    {
      var s2 := BigEndian(8, agentId) + s;
      var s1 := BigEndian(8, accountId) + s2;
      assert Encode() + s == BigEndian(8, sessionId) + s1;
      U64Back(sessionId, s1);
      U64Back(accountId, s2);
      U64Back(agentId, s);
    }
  }

  // A Go string field; only three of its values can be written.
  datatype PortProto = PortProto(value: string) {
    function Encode(): Option<seq<byte>> {
      if value == "tcp" then Some(BigEndian(1, 1))
      else if value == "udp" then Some(BigEndian(1, 2))
      else if value == "both" then Some(BigEndian(1, 3))
      else None
    }

    static function Parse(s: seq<byte>): Parsed<PortProto> {
      var (code, s) := TakeU8(s);
      if code == 1 then Parsed(PortProto("tcp"), s)
      else if code == 2 then Parsed(PortProto("udp"), s)
      else if code == 3 then Parsed(PortProto("both"), s)
      else Rejected(UnknownTag, s)
    }

    method WriteTo(w: Buffer) returns (ok: bool)
      modifies w
      ensures ok == Encode().Some?
      ensures w.data == old(w.data) + if ok then Encode().value else []
    {
      ok := true;
      if value == "tcp" {
        w.WriteUint(1, 1);
      } else if value == "udp" {
        w.WriteUint(1, 2);
      } else if value == "both" {
        w.WriteUint(1, 3);
      } else {
        ok := false;
      }
    }

    static method ReadFrom(r: Buffer) returns (p: Result<PortProto>)
      modifies r
      ensures p.At(r.data) == Parse(old(r.data))
    {
      var code := r.ReadU8();
      match code {
        case 1 => p := Success(PortProto("tcp"));
        case 2 => p := Success(PortProto("udp"));
        case 3 => p := Success(PortProto("both"));
        case _ => p := Failure(UnknownTag);
      }
    }

    // The codes and the three names determine each other.
    lemma Back(s: seq<byte>, t: seq<byte>)
      ensures Encode().Some? ==> Parse(Encode().value + s) == Parsed(this, s)
      ensures Parse(t) == Parsed(this, s) && t != [] ==> Encode().Some? && t == Encode().value + s
    {
      U8Back(1, s);
      U8Back(2, s);
      U8Back(3, s);
      if t != [] && Parse(t).Parsed? {
        BigEndianOfValue(t[..1]);
        assert t == t[..1] + t[1..];
      }
    }
  }

  // The writer gives no address family and the reader is a stub that reads nothing.
  datatype PortRange = PortRange(ip: seq<byte>, portStart: u16, portEnd: u16, proto: PortProto) {
    function Encode(): Option<seq<byte>> {
      match proto.Encode()
      case None => None
      case Some(p) => Some(ip + BigEndian(2, portStart) + BigEndian(2, portEnd) + p)
    }

    static function Parse(s: seq<byte>): (PortRange, seq<byte>) {
      (PortRange([], 0, 0, PortProto("")), s)
    }

    method WriteTo(w: Buffer) returns (ok: bool)
      modifies w
      ensures ok == Encode().Some?
      ensures ok ==> w.data == old(w.data) + Encode().value
    {
      w.Write(ip);
      w.WriteUint(2, portStart);
      w.WriteUint(2, portEnd);
      ok := proto.WriteTo(w);
      if ok {
        assert w.data == old(w.data) + Encode().value;
      }
    }

    static method ReadFrom(r: Buffer) returns (p: PortRange)
      ensures (p, r.data) == Parse(r.data)
    {
      p := PortRange([], 0, 0, PortProto(""));
    }
  }
}
