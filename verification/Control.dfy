// tunnel/control.go: a registered control channel.
module Controls {
  import opened Bytes
  import opened BigInt
  import opened ControlMessage
  import opened ControlFeeds
  import opened Events
  import H = Handshakes

  // The state of an AuthenticatedControl, flattened to a value.
  datatype Channel = Channel(addr: AddrPort, currentPing: Option<u32>, lastPong: Pong, forceExpired: bool,
                             registered: AgentRegistered, buff: seq<byte>)

  function Open(c: H.Connected, registered: AgentRegistered, buff: seq<byte>): Channel {
    Channel(c.addr, None, c.pong, false, registered, buff)
  }

  // The client address is compared with itself, so this never holds.
  predicate FlowChanged(c: Channel) { c.lastPong.clientAddr != c.lastPong.clientAddr }

  predicate IsExpired(c: Channel) { c.forceExpired || c.lastPong.sessionExpireAt.None? || FlowChanged(c) }

  function PingMessage(c: Channel, requestId: u64, now: u64): Request {
    RpcMessage(requestId,
               ControlRequest.EMPTY.(ping := Some(Ping(ToI64(now), c.currentPing, Some(c.registered.id)))))
  }

  function KeepAliveMessage(c: Channel, requestId: u64): Request {
    RpcMessage(requestId, ControlRequest.EMPTY.(agentKeepAlive := Some(c.registered.id)))
  }

  function SetupUdpMessage(c: Channel, requestId: u64): Request {
    RpcMessage(requestId, ControlRequest.EMPTY.(setupUdpChannel := Some(c.registered.id)))
  }

  // The buffer holds the message that was sent last.
  function AfterSend(c: Channel, m: Request): Channel {
    match EncodeRequest(m)
    case None => c.(buff := [])
    case Some(e) => c.(buff := e)
  }

  datatype Reply = Reply(channel: Channel, feed: Option<ControlFeed>, events: seq<Event>)

  // A registration or a pong in a response updates the channel.
  function Absorb(c: Channel, feed: ControlFeed, clock: u64): Reply {
    if feed.response.None? then Reply(c, Some(feed), []) else
      var content := feed.response.value.content;
      if content.agentRegistered.Some? then
        var registered := content.agentRegistered.value;
        Reply(c.(registered := registered), Some(feed), [Installed(registered.id)])
      else if content.pong.Some? then
        var pong := content.pong.value;
        var expiresAt := if pong.sessionExpireAt.Some? then ToI64(pong.sessionExpireAt.value)
                         else c.registered.expiresAt;
        Reply(c.(currentPing := Some(Sub64(pong.requestNow, clock) % 0x1_0000_0000), lastPong := pong,
                 registered := c.registered.(expiresAt := expiresAt)), Some(feed), [])
      else Reply(c, Some(feed), [])
  }

  // As written the feed is decoded from what lies behind the datagram in the buffer.
  function FeedBytes(v: Variant, buff: seq<byte>, size: nat): seq<byte>
    requires size <= |buff|
  {
    if v == AsWritten then buff[size..] else buff[..size]
  }

  function RecFeedMsg(v: Variant, c: Channel, read: NetRead, clock: u64): Reply {
    var buff := c.buff + Zeros(1024);
    if !read.Received? then Reply(c.(buff := buff), None, []) else
      var filled, size := Fill(buff, read.data), Min(|buff|, |read.data|);
      var c := c.(buff := filled);
      if read.from != c.addr then Reply(c, None, []) else
        Understand(c, ControlFeed.Parse(v, FeedBytes(v, filled, size)), clock)
  }

  function Understand(c: Channel, parsed: Parsed<ControlFeed>, clock: u64): Reply {
    match parsed
    case Rejected(_, _) => Reply(c, None, [])
    case Parsed(feed, _) => Absorb(c, feed, clock)
  }

  datatype Reauth = Reauth(channel: Channel, ok: bool, events: seq<Event>)

  // As written the fresh session's unset ForceEpired is not copied.
  function Reauthenticate(v: Variant, c: Channel, input: H.AuthInput): Reauth {
    var h := H.Authenticate(v, H.Connected(c.addr, c.lastPong), input);
    match h.result
    case AuthFailed(_) => Reauth(c, false, [Registering(c.addr, h.registrations)])
    case Authenticated(registered, buff) =>
      Reauth(c.(buff := buff, currentPing := None, registered := registered,
                forceExpired := v == AsWritten && c.forceExpired),
             true, [Registering(c.addr, h.registrations), Installed(registered.id)])
  }

  class AuthenticatedControl {
    var ControlAddr: AddrPort
    var CurrentPing: Option<u32>
    var LastPong: Pong
    var ForceExpired: bool
    var Registered: AgentRegistered
    var Buff: seq<byte>

    function State(): Channel
      reads this
    {
      Channel(ControlAddr, CurrentPing, LastPong, ForceExpired, Registered, Buff)
    }

    constructor (c: H.Connected, registered: AgentRegistered, buff: seq<byte>)
      ensures State() == Open(c, registered, buff)
    {
      ControlAddr, LastPong, CurrentPing, ForceExpired := c.addr, c.pong, None, false;
      Registered, Buff := registered, buff;
    }

    method Send(m: Request)
      modifies this
      ensures State() == AfterSend(old(State()), m)
    {
      hide EncodeRequest;
      Buff := [];
      var bufio := new Buffer(Buff);
      var ok := WriteRequest(m, bufio);
      if ok {
        Buff := bufio.data;
        assert Buff == EncodeRequest(m).value;
      }
    }

    method SendKeepAlive(requestId: u64) returns (m: Request)
      modifies this
      ensures m == KeepAliveMessage(old(State()), requestId) && State() == AfterSend(old(State()), m)
    {
      m := RpcMessage(requestId, ControlRequest.EMPTY.(agentKeepAlive := Some(Registered.id)));
      Send(m);
    }

    method SendSetupUDPChannel(requestId: u64) returns (m: Request)
      modifies this
      ensures m == SetupUdpMessage(old(State()), requestId) && State() == AfterSend(old(State()), m)
    {
      m := RpcMessage(requestId, ControlRequest.EMPTY.(setupUdpChannel := Some(Registered.id)));
      Send(m);
    }

    method SendPing(requestId: u64, now: u64) returns (m: Request)
      modifies this
      ensures m == PingMessage(old(State()), requestId, now) && State() == AfterSend(old(State()), m)
    {
      m := RpcMessage(requestId,
                      ControlRequest.EMPTY.(ping := Some(Ping(ToI64(now), CurrentPing, Some(Registered.id)))));
      Send(m);
    }

    method Receive(v: Variant, read: NetRead, clock: u64) returns (feed: Option<ControlFeed>, ghost events: seq<Event>)
      modifies this
      ensures Reply(State(), feed, events) == RecFeedMsg(v, old(State()), read, clock)
    {
      Buff := Buff + Zeros(1024);
      if !read.Received? {
        return None, [];
      }
      var size := Min(|Buff|, |read.data|);
      Buff := Fill(Buff, read.data);
      if read.from != ControlAddr {
        return None, [];
      }
      var stream := new Buffer(FeedBytes(v, Buff, size));
      var parsed := ControlFeed.ReadFrom(v, stream);
      if parsed.Failure? {
        return None, [];
      }
      feed, events := Apply(parsed.value, clock);
    }

    // What follows a successful decode.
    method Apply(m: ControlFeed, clock: u64) returns (feed: Option<ControlFeed>, ghost events: seq<Event>)
      modifies this
      ensures Reply(State(), feed, events) == Absorb(old(State()), m, clock)
    {
      events := [];
      if m.response.Some? {
        var content := m.response.value.content;
        if content.agentRegistered.Some? {
          Registered := content.agentRegistered.value;
          events := [Installed(Registered.id)];
        } else if content.pong.Some? {
          var pong := content.pong.value;
          CurrentPing := Some(Sub64(pong.requestNow, clock) % 0x1_0000_0000);
          LastPong := pong;
          if pong.sessionExpireAt.Some? {
            Registered := Registered.(expiresAt := ToI64(pong.sessionExpireAt.value));
          }
        }
      }
      feed := Some(m);
    }

    method Authenticate(v: Variant, input: H.AuthInput) returns (ok: bool, ghost events: seq<Event>)
      modifies this
      ensures Reauth(State(), ok, events) == Reauthenticate(v, old(State()), input)
    {
      var h := H.RunAuthenticate(v, H.Connected(ControlAddr, LastPong), input);
      events := [Registering(ControlAddr, h.registrations)];
      if h.result.AuthFailed? {
        return false, events;
      }
      Buff, CurrentPing, Registered := h.result.buff, None, h.result.registered;
      if v == Repaired {
        ForceExpired := false;
      }
      return true, events + [Installed(Registered.id)];
    }
  }

  // The buffer a read starts with, and how many octets of a datagram fit into it.
  function ReadBuffer(c: Channel): seq<byte> { c.buff + Zeros(1024) }

  function Taken(c: Channel, d: seq<byte>): nat { Min(|c.buff| + 1024, |d|) }

  // What the read decodes as written: the octets that were behind the datagram beforehand.
  function Behind(c: Channel, d: seq<byte>): seq<byte> { ReadBuffer(c)[Taken(c, d)..] }

  // As written a datagram from the control address puts its octets into the buffer, and the channel
  // takes in the feed that was already there behind them.
  lemma HeardFromBehind(c: Channel, d: seq<byte>, clock: u64)
    ensures RecFeedMsg(AsWritten, c, Received(c.addr, d), clock)
         == Understand(c.(buff := Fill(ReadBuffer(c), d)), ControlFeed.Parse(AsWritten, Behind(c, d)), clock)
  {
    assert Fill(ReadBuffer(c), d)[Taken(c, d)..] == Behind(c, d);
  }

  // So a read yields a feed exactly when one lies there.
  lemma HeardAsWritten(c: Channel, read: NetRead, clock: u64)
    ensures RecFeedMsg(AsWritten, c, read, clock).feed.Some?
       <==> read.Received? && read.from == c.addr && ControlFeed.Parse(AsWritten, Behind(c, read.data)).Parsed?
  {
    hide ControlFeed.Parse;
    if read.Received? && read.from == c.addr {
      HeardFromBehind(c, read.data, clock);
    }
  }

  // As written a feed that its sender can write is delivered by the read that receives it exactly
  // when the same feed already lay behind it; compare FeedDelivered for the repaired code.
  lemma DeliveredAsWritten(c: Channel, feed: ControlFeed, clock: u64)
    requires feed.Encode().Some?
    ensures var data := feed.Encode().value;
            RecFeedMsg(AsWritten, c, Received(c.addr, data), clock).feed == Some(feed.Reduced())
            <==> var parsed := ControlFeed.Parse(AsWritten, Behind(c, data));
                 parsed.Parsed? && parsed.value == feed.Reduced()
  {
    hide ControlFeed.Parse;
    hide ControlFeed.Encode;
    hide ControlFeed.Reduced;
    HeardFromBehind(c, feed.Encode().value, clock);
  }

  // Replies of one length from the control address have the same effect, except on the buffer, which
  // keeps each of them for a later read.
  lemma ContentsDeferredAsWritten(c: Channel, d1: seq<byte>, d2: seq<byte>, clock: u64)
    requires |d1| == |d2|
    ensures var r1 := RecFeedMsg(AsWritten, c, Received(c.addr, d1), clock);
            var r2 := RecFeedMsg(AsWritten, c, Received(c.addr, d2), clock);
            && r1.feed == r2.feed && r1.events == r2.events
            && r1.channel.buff == Fill(ReadBuffer(c), d1)
            && r2.channel == r1.channel.(buff := Fill(ReadBuffer(c), d2))
  {
    hide ControlFeed.Parse;
    var parsed := ControlFeed.Parse(AsWritten, Behind(c, d1));
    HeardFromBehind(c, d1, clock);
    HeardFromBehind(c, d2, clock);
    BuffUnused(c, Fill(ReadBuffer(c), d1), parsed, clock);
    BuffUnused(c, Fill(ReadBuffer(c), d2), parsed, clock);
  }

  // What a feed does to a channel does not depend on the channel's buffer.
  lemma BuffUnused(c: Channel, b: seq<byte>, parsed: Parsed<ControlFeed>, clock: u64)
    ensures var r := Understand(c, parsed, clock);
            Understand(c.(buff := b), parsed, clock) == r.(channel := r.channel.(buff := b))
  {}

  // A read hears nothing if only zeros lay behind its datagram, as they do when the datagram is at
  // least as long as the buffer was before the read.
  lemma NothingBehind(c: Channel, d: seq<byte>, clock: u64)
    requires forall k :: |d| <= k < |c.buff| ==> c.buff[k] == 0
    ensures RecFeedMsg(AsWritten, c, Received(c.addr, d), clock).feed.None?
  {
    HeardFromBehind(c, d, clock);
    ZeroTag(Behind(c, d));
  }

  // A reply is heard late: the read that receives it leaves it in the buffer, and an empty datagram
  // from the control address then has it decoded in full. Unless something lay behind it, the read
  // that received it heard nothing.
  lemma HeardLateAsWritten(c: Channel, feed: ControlFeed, clock1: u64, clock2: u64)
    requires feed.Encode().Some? && |feed.Encode().value| <= |c.buff| + 1024
    requires feed.Survives(AsWritten)
    ensures var e := feed.Encode().value;
            var r1 := RecFeedMsg(AsWritten, c, Received(c.addr, e), clock1);
            var r2 := RecFeedMsg(AsWritten, r1.channel, Received(c.addr, []), clock2);
            && r2.feed == Some(feed.Reduced())
            && ((forall k :: |e| <= k < |c.buff| ==> c.buff[k] == 0) ==> r1.feed.None?)
  {
    hide ControlFeed.Parse;
    hide ControlFeed.Encode;
    hide ControlFeed.Reduced;
    hide ControlFeed.Survives;
    var e := feed.Encode().value;
    ContentsDeferredAsWritten(c, e, e, clock1);
    var r1 := RecFeedMsg(AsWritten, c, Received(c.addr, e), clock1);
    HeardFromBehind(c, e, clock1);
    BuffUnused(c, Fill(ReadBuffer(c), e), ControlFeed.Parse(AsWritten, Behind(c, e)), clock1);
    assert r1.channel.addr == c.addr;
    var rest := ReadBuffer(c)[|e|..] + Zeros(1024);
    assert Behind(r1.channel, []) == e + rest;
    feed.Back(AsWritten, rest);
    HeardFromBehind(r1.channel, [], clock2);
    if forall k :: |e| <= k < |c.buff| ==> c.buff[k] == 0 {
      NothingBehind(c, e, clock1);
    }
  }

  // Two replies of one length with different contents, each followed by an empty datagram, are told
  // apart: what a reply contains does matter, one read later.
  lemma ContentsMatterLater(c: Channel, a: AgentRegistered, b: AgentRegistered, id: u64, clock1: u64, clock2: u64)
    requires a != b
    ensures var fa, fb := RegisteredFeed(id, a), RegisteredFeed(id, b);
            var ra := RecFeedMsg(AsWritten, c, Received(c.addr, fa.Encode().value), clock1);
            var rb := RecFeedMsg(AsWritten, c, Received(c.addr, fb.Encode().value), clock1);
            && |fa.Encode().value| == |fb.Encode().value|
            && RecFeedMsg(AsWritten, ra.channel, Received(c.addr, []), clock2).feed == Some(fa)
            && RecFeedMsg(AsWritten, rb.channel, Received(c.addr, []), clock2).feed == Some(fb)
  {
    hide RecFeedMsg;
    HeardLateAsWritten(c, RegisteredFeed(id, a), clock1, clock2);
    HeardLateAsWritten(c, RegisteredFeed(id, b), clock1, clock2);
  }

  function RegisteredFeed(id: u64, r: AgentRegistered): (feed: ControlFeed)
    ensures feed.Encode().Some? && |feed.Encode().value| == 48
    ensures (forall v :: feed.Survives(v)) && feed.Reduced() == feed
  {
    ControlFeed(Some(RpcMessage(id, ControlResponse.EMPTY.(agentRegistered := Some(r)))), None)
  }

  lemma ZeroTag(s: seq<byte>)
    requires forall k :: 0 <= k < |s| ==> s[k] == 0
    ensures TakeU32(s).0 == 0
  {
    if |s| >= 4 {
      assert s[..4] == [0, 0, 0, 0];
      assert [0, 0, 0, 0][..3] == [0, 0, 0] && [0, 0, 0][..2] == [0, 0] && [0, 0][..1] == [0];
    }
  }
}
