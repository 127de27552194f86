// tunnel/rpc.go and tunnel/control_feed.go: the two frames that travel on the control channel.
module ControlFeeds {
  import opened Bytes
  import opened BigInt
  import opened ControlMessage

  datatype RpcMessage<+T> = RpcMessage(requestId: u64, content: T)

  function EncodeRpc(requestId: u64, content: Option<seq<byte>>): Option<seq<byte>> {
    match content
    case None => None
    case Some(c) => Some(BigEndian(8, requestId) + c)
  }

  type Request = RpcMessage<ControlRequest>
  type Response = RpcMessage<ControlResponse>

  function EncodeRequest(m: Request): Option<seq<byte>> { EncodeRpc(m.requestId, m.content.Encode()) }

  function EncodeResponse(m: Response): Option<seq<byte>> { EncodeRpc(m.requestId, m.content.Encode()) }

  function ParseRequest(v: Variant, s: seq<byte>): Parsed<Request> {
    var (requestId, s) := TakeU64(s);
    var (content, s) :- ControlRequest.Parse(v, s);
    Parsed(RpcMessage(requestId, content), s)
  }

  function ParseResponse(v: Variant, s: seq<byte>): Parsed<Response> {
    var (requestId, s) := TakeU64(s);
    var (content, s) :- ControlResponse.Parse(v, s);
    Parsed(RpcMessage(requestId, content), s)
  }

  method WriteRequest(m: Request, w: Buffer) returns (ok: bool)
    modifies w
    ensures ok == EncodeRequest(m).Some?
    ensures ok ==> w.data == old(w.data) + EncodeRequest(m).value
  {
    w.WriteUint(8, m.requestId);
    ok := m.content.WriteTo(w);
    if ok {
      Assoc(old(w.data), BigEndian(8, m.requestId), m.content.Encode().value);
    }
  }

  method WriteResponse(m: Response, w: Buffer) returns (ok: bool)
    modifies w
    ensures ok == EncodeResponse(m).Some?
    ensures ok ==> w.data == old(w.data) + EncodeResponse(m).value
  {
    w.WriteUint(8, m.requestId);
    ok := m.content.WriteTo(w);
    if ok {
      Assoc(old(w.data), BigEndian(8, m.requestId), m.content.Encode().value);
    }
  }

  method ReadRequest(v: Variant, r: Buffer) returns (p: Result<Request>)
    modifies r
    ensures p.At(r.data) == ParseRequest(v, old(r.data))
  {
    var requestId := r.ReadU64();
    var content :- ControlRequest.ReadFrom(v, r);
    p := Success(RpcMessage(requestId, content));
  }

  method ReadResponse(v: Variant, r: Buffer) returns (p: Result<Response>)
    modifies r
    ensures p.At(r.data) == ParseResponse(v, old(r.data))
  {
    var requestId := r.ReadU64();
    var content :- ControlResponse.ReadFrom(v, r);
    p := Success(RpcMessage(requestId, content));
  }

  // A framed request is recovered, cut down to the alternative the writer chose, exactly when
  // that alternative survives.
  lemma RequestBack(v: Variant, m: Request, s: seq<byte>)
    requires EncodeRequest(m).Some?
    ensures ParseRequest(v, EncodeRequest(m).value + s) == Parsed(m.(content := m.content.Reduced()), s)
       <==> m.content.Survives(v)
  {
    var rest := m.content.Encode().value + s;
    Assoc(BigEndian(8, m.requestId), m.content.Encode().value, s);
    U64Back(m.requestId, rest);
    m.content.Back(v, s);
  }

  lemma ResponseBack(v: Variant, m: Response, s: seq<byte>)
    requires EncodeResponse(m).Some?
    ensures ParseResponse(v, EncodeResponse(m).value + s) == Parsed(m.(content := m.content.Reduced()), s)
       <==> m.content.Survives(v)
  {
    var rest := m.content.Encode().value + s;
    Assoc(BigEndian(8, m.requestId), m.content.Encode().value, s);
    U64Back(m.requestId, rest);
    m.content.Back(v, s);
  }

  datatype ClaimInstructions = ClaimInstructions(address: AddrPort, token: Slice) {
    function Encode(): seq<byte> { address.Encode() + PutToken(token) }

    static function Parse(s: seq<byte>): (r: Parsed<ClaimInstructions>)
      ensures r.Parsed? ==> r.value.address.IsValid()
    {
      var (address, s) :- AddrPort.Parse(s);
      var (token, s) :- TakeToken(s);
      Parsed(ClaimInstructions(address, token), s)
    }

    method WriteTo(w: Buffer)
      modifies w
      ensures w.data == old(w.data) + Encode()
    {
      address.WriteTo(w);
      w.WriteToken(token);
      Assoc(old(w.data), address.Encode(), PutToken(token));
    }

    static method ReadFrom(r: Buffer) returns (p: Result<ClaimInstructions>)
      modifies r
      ensures p.At(r.data) == Parse(old(r.data))
    {
      var address :- AddrPort.ReadFrom(r);
      var token :- r.ReadToken();
      return Success(ClaimInstructions(address, token));
    }

    lemma Back(s: seq<byte>)
      ensures Parse(Encode() + s) == Parsed(this, s) <==> address.IsValid()
    {
      if address.IsValid() {
        Assoc(address.Encode(), PutToken(token), s);
        address.Back(PutToken(token) + s);
        TokenBack(token, s);
      }
    }
  }

  datatype NewClient = NewClient(connectAddr: AddrPort, peerAddr: AddrPort, claimInstructions: ClaimInstructions,
                                 tunnelServerId: u64, dataCenterId: u32)
  {
    function EncodeAddrs(): seq<byte> { connectAddr.Encode() + peerAddr.Encode() + claimInstructions.Encode() }

    function Encode(): seq<byte> { EncodeAddrs() + BigEndian(8, tunnelServerId) + BigEndian(4, dataCenterId) }

    predicate IsValid() { connectAddr.IsValid() && peerAddr.IsValid() && claimInstructions.address.IsValid() }

    static function Parse(s: seq<byte>): (r: Parsed<NewClient>)
      ensures r.Parsed? ==> r.value.IsValid()
    {
      var (connectAddr, s) :- AddrPort.Parse(s);
      var (peerAddr, s) :- AddrPort.Parse(s);
      var (claimInstructions, s) :- ClaimInstructions.Parse(s);
      var (tunnelServerId, s) := TakeU64(s);
      var (dataCenterId, s) := TakeU32(s);
      Parsed(NewClient(connectAddr, peerAddr, claimInstructions, tunnelServerId, dataCenterId), s)
    }

    method WriteTo(w: Buffer)
      modifies w
      ensures w.data == old(w.data) + Encode()
    {
      connectAddr.WriteTo(w);
      peerAddr.WriteTo(w);
      claimInstructions.WriteTo(w);
      assert w.data == old(w.data) + EncodeAddrs();
      w.WriteUint(8, tunnelServerId);
      Assoc(old(w.data), EncodeAddrs(), BigEndian(8, tunnelServerId));
      w.WriteUint(4, dataCenterId);
      Assoc(old(w.data), EncodeAddrs() + BigEndian(8, tunnelServerId), BigEndian(4, dataCenterId));
    }

    static method ReadFrom(r: Buffer) returns (p: Result<NewClient>)
      modifies r
      ensures p.At(r.data) == Parse(old(r.data))
    {
      var connectAddr :- AddrPort.ReadFrom(r);
      var peerAddr :- AddrPort.ReadFrom(r);
      var claimInstructions :- ClaimInstructions.ReadFrom(r);
      var tunnelServerId := r.ReadU64();
      var dataCenterId := r.ReadU32();
      return Success(NewClient(connectAddr, peerAddr, claimInstructions, tunnelServerId, dataCenterId));
    }

    lemma Back(s: seq<byte>)
      ensures Parse(Encode() + s) == Parsed(this, s) <==> IsValid()
    {
      if IsValid() {
        var s4 := BigEndian(4, dataCenterId) + s;
        var s3 := BigEndian(8, tunnelServerId) + s4;
        var s2 := claimInstructions.Encode() + s3;
        var s1 := peerAddr.Encode() + s2;
        assert Encode() + s == connectAddr.Encode() + s1;
        connectAddr.Back(s1);
        peerAddr.Back(s2);
        claimInstructions.Back(s3);
        U64Back(tunnelServerId, s4);
        U32Back(dataCenterId, s);
      }
    }
  }

  // A struct of two pointers of which the writer emits the first that is set.
  datatype ControlFeed = ControlFeed(response: Option<Response>, newClient: Option<NewClient>) {
    function Encode(): Option<seq<byte>> {
      if response.Some? then
        match EncodeResponse(response.value)
        case None => None
        case Some(r) => Some(BigEndian(4, 1) + r)
      else if newClient.Some? then Some(BigEndian(4, 2) + newClient.value.Encode())
      else None
    }

    static function Parse(v: Variant, s: seq<byte>): (r: Parsed<ControlFeed>)
      ensures r.Parsed? ==> r.value.response.Some? != r.value.newClient.Some?
    {
      var (tag, s) := TakeU32(s);
      if tag == 1 then
        var (m, s) :- ParseResponse(v, s);
        Parsed(ControlFeed(Some(m), None), s)
      else if tag == 2 then
        var (c, s) :- NewClient.Parse(s);
        Parsed(ControlFeed(None, Some(c)), s)
      else Rejected(UnknownTag, s)
    }

    function Reduced(): ControlFeed {
      match response
      case Some(m) => ControlFeed(Some(m.(content := m.content.Reduced())), None)
      case None => this
    }

    predicate Survives(v: Variant) {
      match response
      case Some(m) => m.content.Survives(v)
      case None => newClient.Some? && newClient.value.IsValid()
    }

    method WriteTo(w: Buffer) returns (ok: bool)
      modifies w
      ensures ok == Encode().Some?
      ensures ok ==> w.data == old(w.data) + Encode().value
    {
      if response.Some? {
        w.WriteUint(4, 1);
        ok := WriteResponse(response.value, w);
        if ok {
          Assoc(old(w.data), BigEndian(4, 1), EncodeResponse(response.value).value);
        }
      } else if newClient.Some? {
        w.WriteUint(4, 2);
        newClient.value.WriteTo(w);
        Assoc(old(w.data), BigEndian(4, 2), newClient.value.Encode());
        ok := true;
      } else {
        ok := false;
      }
    }

    static method ReadFrom(v: Variant, r: Buffer) returns (p: Result<ControlFeed>)
      modifies r
      ensures p.At(r.data) == Parse(v, old(r.data))
    {
      var tag := r.ReadU32();
      match tag {
        case 1 =>
          var m :- ReadResponse(v, r);
          p := Success(ControlFeed(Some(m), None));
        case 2 =>
          var c :- NewClient.ReadFrom(r);
          p := Success(ControlFeed(None, Some(c)));
        case _ => p := Failure(UnknownTag);
      }
    }

    // Normal form: a feed is recovered, cut down to what the writer chose, and nothing of what
    // follows it is touched, exactly when that choice survives.
    lemma Back(v: Variant, s: seq<byte>)
      requires Encode().Some?
      ensures Parse(v, Encode().value + s) == Parsed(Reduced(), s) <==> Survives(v)
    {
      if response.Some? {
        var m := EncodeResponse(response.value).value;
        Assoc(BigEndian(4, 1), m, s);
        U32Back(1, m + s);
        ResponseBack(v, response.value, s);
      } else {
        Assoc(BigEndian(4, 2), newClient.value.Encode(), s);
        U32Back(2, newClient.value.Encode() + s);
        newClient.value.Back(s);
      }
    }

    // No encoding continues another: from a stream that starts with a feed that survives, the feed
    // and what follows it are both determined.
    lemma PrefixFree(v: Variant, other: ControlFeed, s: seq<byte>, t: seq<byte>)
      requires Encode().Some? && Survives(v) && other.Encode().Some? && other.Survives(v)
      requires Encode().value + s == other.Encode().value + t
      ensures Reduced() == other.Reduced() && s == t
    {
      Back(v, s);
      other.Back(v, t);
    }
  }
}
