// What a datagram on the control channel does, from its octets to the channel, the tunnel and the
// result of an Update.
module Hearing {
  import opened Bytes
  import opened BigInt
  import opened ControlMessage
  import opened ControlFeeds
  import opened Events
  import opened UdpTunnels
  import opened Controls
  import opened SimplesTunnels

  // ---- On the channel ----

  // The receive buffer once the read is over.
  function Refilled(c: Channel, read: NetRead): seq<byte> {
    var space := c.buff + Zeros(1024);
    if !read.Received? then space else
      var n := Min(|space|, |read.data|);
      read.data[..n] + space[n..]
  }

  // The feed that is made out: with the repairs from the datagram, as written from what lies behind
  // it in the buffer, and in either case only if it comes from the control address.
  function Heard(v: Variant, c: Channel, read: NetRead): Option<ControlFeed> {
    if !read.Received? || read.from != c.addr then None else
      var space := c.buff + Zeros(1024);
      var n := Min(|space|, |read.data|);
      match ControlFeed.Parse(v, if v == AsWritten then space[n..] else read.data[..n])
      case Parsed(feed, _) => Some(feed)
      case Rejected(_, _) => None
  }

  lemma OneAlternative(v: Variant, s: seq<byte>)
    ensures var p := ControlFeed.Parse(v, s);
            p.Parsed? ==> match p.value.response
                          case None => p.value.newClient.Some?
                          case Some(m) => p.value.newClient.None? && m.content.Alternatives() == 1
  {
    hide Pong.Parse;
    hide AgentRegistered.Parse;
    hide UdpChannelDetails.Parse;
    hide NewClient.Parse;
    hide TakeUint;
  }

  // A pong makes the round trip from its timestamp to the clock the current ping, modulo 2^32, and
  // its expiry that of the session; nothing else changes.
  predicate Ponged(c: Channel, pong: Pong, clock: u64, after: Channel) {
    && after == c.(lastPong := pong, currentPing := after.currentPing,
                   registered := c.registered.(expiresAt := after.registered.expiresAt))
    && after.currentPing.Some?
    && (after.currentPing.value + clock) % 0x1_0000_0000 == pong.requestNow % 0x1_0000_0000
    && match pong.sessionExpireAt
       case None => after.registered.expiresAt == c.registered.expiresAt
       case Some(x) =>
         after.registered.expiresAt == if x < 0x8000_0000_0000_0000 then x else x - 0x1_0000_0000_0000_0000
  }

  // Every read refills the buffer. Beyond that a registration replaces the session, a pong is taken
  // in, and everything else leaves the channel as it is.
  lemma ChannelEffect(v: Variant, c: Channel, read: NetRead, clock: u64)
    ensures var r, kept := RecFeedMsg(v, c, read, clock), c.(buff := Refilled(c, read));
            && r.feed == Heard(v, c, read)
            && if r.feed.Some? && r.feed.value.response.Some? then
                 var content := r.feed.value.response.value.content;
                 && content.Alternatives() == 1
                 && (content.agentRegistered.Some? ==>
                       && r.channel == kept.(registered := content.agentRegistered.value)
                       && r.events == [Installed(content.agentRegistered.value.id)])
                 && (content.pong.Some? ==> Ponged(kept, content.pong.value, clock, r.channel) && r.events == [])
                 && (content.agentRegistered.None? && content.pong.None? ==> r.channel == kept && r.events == [])
               else r.channel == kept && r.events == []
  {
    hide Absorb;
    hide Heard;
    hide RecFeedMsg;
    hide Ponged;
    TakesIn(v, c, read, clock);
    var heard := Heard(v, c, read);
    if heard.Some? {
      AbsorbEffect(c.(buff := Refilled(c, read)), heard.value, clock);
    }
  }

  lemma TakesIn(v: Variant, c: Channel, read: NetRead, clock: u64)
    ensures var kept := c.(buff := Refilled(c, read));
            RecFeedMsg(v, c, read, clock)
            == match Heard(v, c, read)
               case None => Reply(kept, None, [])
               case Some(feed) => Absorb(kept, feed, clock)
    ensures var heard := Heard(v, c, read);
            heard.Some? ==> match heard.value.response
                            case None => heard.value.newClient.Some?
                            case Some(m) => heard.value.newClient.None? && m.content.Alternatives() == 1
  {
    hide ControlFeed.Parse;
    hide Absorb;
    if read.Received? {
      var space := c.buff + Zeros(1024);
      var n := Min(|space|, |read.data|);
      var filled := Fill(space, read.data);
      assert filled[..n] == read.data[..n] && filled[n..] == space[n..];
      OneAlternative(v, FeedBytes(v, filled, n));
    }
  }

  lemma AbsorbEffect(c: Channel, feed: ControlFeed, clock: u64)
    requires feed.response.Some? ==> feed.response.value.content.Alternatives() == 1
    ensures var r := Absorb(c, feed, clock);
            && r.feed == Some(feed)
            && if feed.response.Some? then
                 var content := feed.response.value.content;
                 && (content.agentRegistered.Some? ==>
                       && r.channel == c.(registered := content.agentRegistered.value)
                       && r.events == [Installed(content.agentRegistered.value.id)])
                 && (content.pong.Some? ==> Ponged(c, content.pong.value, clock, r.channel) && r.events == [])
                 && (content.agentRegistered.None? && content.pong.None? ==> r.channel == c && r.events == [])
               else r.channel == c && r.events == []
  {
    hide Sub64;
    if feed.response.Some? && feed.response.value.content.pong.Some? {
      RoundTrip(feed.response.value.content.pong.value.requestNow, clock);
    }
  }

  lemma RoundTrip(sent: u64, clock: u64)
    ensures (Sub64(sent, clock) % 0x1_0000_0000 + clock) % 0x1_0000_0000 == sent % 0x1_0000_0000
  {
    var m := 0x1_0000_0000;
    var x := (sent - clock) % m;
    assert Sub64(sent, clock) % m == x;
    assert sent - clock == (sent - clock) / m * m + x;
    assert sent == (x + clock) + (sent - clock) / m * m;
    Shifted(x + clock, (sent - clock) / m);
  }

  lemma Shifted(x: int, q: int)
    ensures (x + q * 0x1_0000_0000) % 0x1_0000_0000 == x % 0x1_0000_0000
  {}

  // A registration that arrives on the channel is the session from then on.
  lemma RegistrationHeard(c: Channel, id: u64, registered: AgentRegistered, clock: u64)
    requires |c.buff| + 1024 >= 48
    ensures var data := RegisteredFeed(id, registered).Encode().value;
            var r := RecFeedMsg(Repaired, c, Received(c.addr, data), clock);
            && r.channel == c.(buff := Refilled(c, Received(c.addr, data)), registered := registered)
            && r.events == [Installed(registered.id)]
  {
    hide RecFeedMsg;
    hide ControlFeed.Encode;
    var feed := RegisteredFeed(id, registered);
    EncodedHeard(c, feed);
    ChannelEffect(Repaired, c, Received(c.addr, feed.Encode().value), clock);
  }

  // As written it is so one read later, if that receives an empty datagram.
  lemma RegistrationHeardLate(c: Channel, id: u64, registered: AgentRegistered, clock1: u64, clock2: u64)
    ensures var data := RegisteredFeed(id, registered).Encode().value;
            var r1 := RecFeedMsg(AsWritten, c, Received(c.addr, data), clock1);
            var r2 := RecFeedMsg(AsWritten, r1.channel, Received(c.addr, []), clock2);
            r2.channel.registered == registered && r2.events == [Installed(registered.id)]
  {
    hide RecFeedMsg;
    hide ControlFeed.Encode;
    var feed := RegisteredFeed(id, registered);
    HeardLateAsWritten(c, feed, clock1, clock2);
    var r1 := RecFeedMsg(AsWritten, c, Received(c.addr, feed.Encode().value), clock1);
    ChannelEffect(AsWritten, r1.channel, Received(c.addr, []), clock2);
  }

  function PongFeed(id: u64, pong: Pong): ControlFeed {
    ControlFeed(Some(RpcMessage(id, ControlResponse.EMPTY.(pong := Some(pong)))), None)
  }

  lemma PongHeard(c: Channel, id: u64, pong: Pong, clock: u64)
    requires pong.clientAddr.IsValid() && pong.tunnelAddr.IsValid()
    requires |PongFeed(id, pong).Encode().value| <= |c.buff| + 1024
    ensures var data := PongFeed(id, pong).Encode().value;
            var r := RecFeedMsg(Repaired, c, Received(c.addr, data), clock);
            Ponged(c.(buff := Refilled(c, Received(c.addr, data))), pong, clock, r.channel) && r.events == []
  {
    hide RecFeedMsg;
    hide Ponged;
    var feed := PongFeed(id, pong);
    assert feed.Encode().Some? && feed.Survives(Repaired) && feed.Reduced() == feed;
    hide ControlFeed.Encode;
    EncodedHeard(c, feed);
    ChannelEffect(Repaired, c, Received(c.addr, feed.Encode().value), clock);
  }

  lemma EncodedHeard(c: Channel, feed: ControlFeed)
    requires feed.Encode().Some? && |feed.Encode().value| <= |c.buff| + 1024 && feed.Survives(Repaired)
    ensures Heard(Repaired, c, Received(c.addr, feed.Encode().value)) == Some(feed.Reduced())
  {
    hide ControlFeed.Parse;
    hide ControlFeed.Encode;
    hide ControlFeed.Survives;
    hide ControlFeed.Reduced;
    var data := feed.Encode().value;
    feed.Back(Repaired, []);
    assert data + [] == data && data[..|data|] == data;
  }

  // ---- In the receive loop ----

  function FeedAt(feeds: seq<FeedInput>, i: nat): FeedInput {
    if i < |feeds| then feeds[i] else FeedInput(TimedOut, 0, 0)
  }

  // The UDP session once details have been supplied that are not in force. As written they are lost.
  function Supplied(v: Variant, u: Udp, d: UdpChannelDetails, clock: u64): Udp {
    Udp(u.hasUdp6,
        if v == AsWritten then u.details else Some(d),
        if v == Repaired && u.details.Some? && u.details.value.tunnelAddr != d.tunnelAddr
        then u.history + [u.details.value.tunnelAddr] else u.history,
        u.lastConfirm,
        if d.tunnelAddr.addr.Ip4? || u.hasUdp6 then clock % 0x1_0000_0000 / 1000 else u.lastSend)
  }

  function Loss(v: Variant, d: UdpChannelDetails): Event { if v == AsWritten then Discarded(d) else Stored(d) }

  // One read of the receive loop that makes out no feed counts towards the ten failures; a client
  // ends the loop and is its result.
  lemma LoopReads(v: Variant, t: Tunnel, feeds: seq<FeedInput>, i: nat, timeout: nat)
    requires i < 30 && timeout < 10
    ensures var f := FeedAt(feeds, i);
            var r := RecFeedMsg(v, t.control, f.read, f.decoded);
            var t1 := t.(control := r.channel);
            var all := FeedLoop(v, t, feeds, i, timeout);
            && (r.feed.None? ==> all == FeedLoop(v, t1, feeds, i + 1, timeout + 1))
            && (r.feed.Some? && r.feed.value.newClient.Some? ==>
                  all == (Out(t1, []), Client(r.feed.value.newClient.value)))
  {
    hide RecFeedMsg;
    var f := FeedAt(feeds, i);
    ChannelEffect(v, t.control, f.read, f.decoded);
    AfterNone(FeedLoop(v, t, feeds, i, timeout));
    var r := RecFeedMsg(v, t.control, f.read, f.decoded);
    AfterNone(FeedLoop(v, t.(control := r.channel), feeds, i + 1, timeout + 1));
  }

  // After 30 reads or 10 failures the loop ends without a result.
  lemma LoopEnds(v: Variant, t: Tunnel, feeds: seq<FeedInput>, i: nat, timeout: nat)
    requires i == 30 || (i < 30 && timeout >= 10)
    ensures FeedLoop(v, t, feeds, i, timeout) == (Out(t, []), Nothing)
  {}

  // One that makes out a response: details that are not in force reach the UDP session and have
  // their token sent, or count as a failure if the socket they need is missing; a pong stamps the
  // tunnel; a refusal ends the loop, is its result and, with the repairs, forces expiry; and all
  // other responses do no more than to the channel.
  lemma LoopResponds(v: Variant, t: Tunnel, feeds: seq<FeedInput>, i: nat, timeout: nat)
    requires i < 30 && timeout < 10
    ensures var f := FeedAt(feeds, i);
            var r := RecFeedMsg(v, t.control, f.read, f.decoded);
            var t1 := t.(control := r.channel);
            var all := FeedLoop(v, t, feeds, i, timeout);
            r.feed.Some? && r.feed.value.response.Some? ==>
              var content := r.feed.value.response.value.content;
              match content.udpChannelDetails
              case Some(d) =>
                var t2 := t1.(udp := Supplied(v, t.udp, d, f.acted));
                if t.udp.details == Some(d) then all == FeedLoop(v, t1, feeds, i + 1, timeout)
                else if d.tunnelAddr.addr.Ip4? || t.udp.hasUdp6 then
                  all == After([Loss(v, d), TokenSent(f.acted, d.tunnelAddr, d.token)],
                               FeedLoop(v, t2, feeds, i + 1, timeout))
                else all == After([Loss(v, d)], FeedLoop(v, t2, feeds, i + 1, timeout + 1))
              case None =>
                if content.pong.Some? then all == FeedLoop(v, t1.(lastPong := f.acted), feeds, i + 1, timeout)
                else if content.unauthorized then
                  && all.0.events == [] && all.1 == Unauthorized
                  && all.0.t == t1.(control := r.channel.(forceExpired := v == Repaired || t.control.forceExpired))
                else all == After(r.events, FeedLoop(v, t1, feeds, i + 1, timeout))
  {
    hide RecFeedMsg;
    hide FeedLoop;
    hide Act;
    hide Supplied;
    var f := FeedAt(feeds, i);
    ChannelEffect(v, t.control, f.read, f.decoded);
    var r := RecFeedMsg(v, t.control, f.read, f.decoded);
    if r.feed.Some? && r.feed.value.response.Some? {
      LoopOnce(v, t, feeds, i, timeout);
      ResponseActs(v, t.(control := r.channel), r.feed.value, f.acted);
      var a := Act(v, t.(control := r.channel), r.feed.value, f.acted);
      assert [] + a.out.events == a.out.events && r.events + [] == r.events;
      if a.result.Nothing? {
        AfterNone(FeedLoop(v, a.out.t, feeds, i + 1, if a.failed then timeout + 1 else timeout));
      }
    }
  }

  lemma ResponseActs(v: Variant, t: Tunnel, feed: ControlFeed, clock: u64)
    requires feed.newClient.None? && feed.response.Some?
    ensures var content := feed.response.value.content;
            Act(v, t, feed, clock)
            == match content.udpChannelDetails
               case Some(d) =>
                 if t.udp.details == Some(d) then Fed(Out(t, []), false, Nothing)
                 else if d.tunnelAddr.addr.Ip4? || t.udp.hasUdp6 then
                   var events := [Loss(v, d), TokenSent(clock, d.tunnelAddr, d.token)];
                   Fed(Out(t.(udp := Supplied(v, t.udp, d, clock)), events), false, Nothing)
                 else Fed(Out(t.(udp := Supplied(v, t.udp, d, clock)), [Loss(v, d)]), true, Nothing)
               case None =>
                 if content.pong.Some? then Fed(Out(t.(lastPong := clock), []), false, Nothing)
                 else if content.unauthorized then
                   Fed(Out(t.(control := t.control.(forceExpired := v == Repaired || t.control.forceExpired)), []),
                       false, Unauthorized)
                 else Fed(Out(t, []), false, Nothing)
  {}

  lemma LoopOnce(v: Variant, t: Tunnel, feeds: seq<FeedInput>, i: nat, timeout: nat)
    requires i < 30 && timeout < 10
    ensures var f := FeedAt(feeds, i);
            var s := FeedStep(v, t, f);
            FeedLoop(v, t, feeds, i, timeout)
            == if !s.result.Nothing? then (s.out, s.result)
               else After(s.out.events, FeedLoop(v, s.out.t, feeds, i + 1, if s.failed then timeout + 1 else timeout))
  {
    hide FeedStep;
  }

  // ---- What ends the loop ----

  // What a datagram of the control address means with the repairs, given the room for it.
  function Meaning(addr: AddrPort, room: nat, read: NetRead): Option<ControlFeed> {
    if !read.Received? || read.from != addr then None else
      match ControlFeed.Parse(Repaired, read.data[..Min(room, |read.data|)])
      case Parsed(feed, _) => Some(feed)
      case Rejected(_, _) => None
  }

  lemma HeardIsMeaning(c: Channel, read: NetRead)
    ensures Heard(Repaired, c, read) == Meaning(c.addr, |c.buff| + 1024, read)
  {
    hide ControlFeed.Parse;
  }

  function DetailsIn(feed: Option<ControlFeed>): Option<UdpChannelDetails> {
    if feed.Some? && feed.value.response.Some? then feed.value.response.value.content.udpChannelDetails else None
  }

  // A client, or the refusal of the session.
  predicate Concluding(feed: ControlFeed) {
    feed.newClient.Some? || (feed.response.Some? && feed.response.value.content.unauthorized)
  }

  // None of the next n reads concludes. The room grows with each.
  predicate Uneventful(addr: AddrPort, room: nat, feeds: seq<FeedInput>, i: nat, n: nat)
    decreases n
  {
    if n == 0 then true else
      var heard := Meaning(addr, room, FeedAt(feeds, i).read);
      (heard.None? || !Concluding(heard.value)) && Uneventful(addr, room + 1024, feeds, i + 1, n - 1)
  }

  // How many of the next n reads fail: nothing is made out, or details need a socket that is missing.
  function Strikes(addr: AddrPort, room: nat, udp6: bool, details: Option<UdpChannelDetails>, feeds: seq<FeedInput>,
                   i: nat, n: nat): nat
    decreases n
  {
    if n == 0 then 0 else
      var heard := Meaning(addr, room, FeedAt(feeds, i).read);
      var d := DetailsIn(heard);
      var refused := d.Some? && d != details && !d.value.tunnelAddr.addr.Ip4? && !udp6;
      (if heard.None? || refused then 1 else 0)
      + Strikes(addr, room + 1024, udp6, if d.Some? then d else details, feeds, i + 1, n - 1)
  }

  // One read that does not conclude: the loop goes on, with the failure counted.
  lemma GoesOn(t: Tunnel, feeds: seq<FeedInput>, others: seq<FeedInput>, i: nat, timeout: nat)
    returns (t': Tunnel, timeout': nat, events: seq<Event>)
    requires i < 30 && timeout < 10 && FeedAt(feeds, i) == FeedAt(others, i)
    requires Uneventful(t.control.addr, |t.control.buff| + 1024, feeds, i, 1)
    ensures FeedLoop(Repaired, t, feeds, i, timeout) == After(events, FeedLoop(Repaired, t', feeds, i + 1, timeout'))
    ensures FeedLoop(Repaired, t, others, i, timeout) == After(events, FeedLoop(Repaired, t', others, i + 1, timeout'))
    ensures t'.control.addr == t.control.addr && |t'.control.buff| == |t.control.buff| + 1024
    ensures timeout' == timeout + Strikes(t.control.addr, |t.control.buff| + 1024, t.udp.hasUdp6, t.udp.details,
                                          feeds, i, 1)
    ensures t'.udp.hasUdp6 == t.udp.hasUdp6
    ensures var d := DetailsIn(Meaning(t.control.addr, |t.control.buff| + 1024, FeedAt(feeds, i).read));
            t'.udp.details == if d.Some? then d else t.udp.details
  {
    hide RecFeedMsg;
    hide Meaning;
    hide FeedLoop;
    var f := FeedAt(feeds, i);
    var r := RecFeedMsg(Repaired, t.control, f.read, f.decoded);
    ChannelEffect(Repaired, t.control, f.read, f.decoded);
    HeardIsMeaning(t.control, f.read);
    LoopReads(Repaired, t, feeds, i, timeout);
    LoopResponds(Repaired, t, feeds, i, timeout);
    LoopReads(Repaired, t, others, i, timeout);
    LoopResponds(Repaired, t, others, i, timeout);
    assert |Refilled(t.control, f.read)| == |t.control.buff| + 1024;
    var t1 := t.(control := r.channel);
    var d := DetailsIn(r.feed);
    t', timeout', events := t1, timeout, [];
    if r.feed.None? {
      timeout' := timeout + 1;
    } else if d.Some? && t.udp.details != d {
      t' := t1.(udp := Supplied(Repaired, t.udp, d.value, f.acted));
      if d.value.tunnelAddr.addr.Ip4? || t.udp.hasUdp6 {
        events := [Loss(Repaired, d.value), TokenSent(f.acted, d.value.tunnelAddr, d.value.token)];
      } else {
        timeout', events := timeout + 1, [Loss(Repaired, d.value)];
      }
    } else if d.None? && r.feed.value.response.value.content.pong.Some? {
      t' := t1.(lastPong := f.acted);
    } else if d.None? {
      events := r.events;
    }
    AfterNone(FeedLoop(Repaired, t', feeds, i + 1, timeout'));
    AfterNone(FeedLoop(Repaired, t', others, i + 1, timeout'));
  }

  lemma Concludes(t: Tunnel, feeds: seq<FeedInput>, others: seq<FeedInput>, i: nat, timeout: nat)
    requires i < 30 && timeout < 10 && FeedAt(feeds, i) == FeedAt(others, i)
    ensures var heard := Meaning(t.control.addr, |t.control.buff| + 1024, FeedAt(feeds, i).read);
            heard.Some? && Concluding(heard.value) ==>
              var (out, result) := FeedLoop(Repaired, t, feeds, i, timeout);
              && (out, result) == FeedLoop(Repaired, t, others, i, timeout)
              && match heard.value.newClient
                 case Some(client) => result == Client(client)
                 case None => result == Unauthorized && out.t.control.forceExpired
  {
    hide FeedLoop;
    hide Meaning;
    hide RecFeedMsg;
    var f := FeedAt(feeds, i);
    ChannelEffect(Repaired, t.control, f.read, f.decoded);
    HeardIsMeaning(t.control, f.read);
    LoopReads(Repaired, t, feeds, i, timeout);
    LoopResponds(Repaired, t, feeds, i, timeout);
    LoopReads(Repaired, t, others, i, timeout);
    LoopResponds(Repaired, t, others, i, timeout);
  }

  // The receive loop hands over: after any reads that do not conclude and fewer than ten failures in
  // all, the first one that does is the result, and nothing that would arrive later is looked at. A
  // refusal leaves the channel marked as expired.
  lemma {:induction false} LoopConcludes(t: Tunnel, feeds: seq<FeedInput>, others: seq<FeedInput>,
                                         i: nat, timeout: nat, n: nat)
    requires i + n < 30 && forall k :: i <= k <= i + n ==> FeedAt(feeds, k) == FeedAt(others, k)
    requires Uneventful(t.control.addr, |t.control.buff| + 1024, feeds, i, n)
    ensures var addr, room := t.control.addr, |t.control.buff| + 1024;
            var last := Meaning(addr, room + 1024 * n, FeedAt(feeds, i + n).read);
            && timeout + Strikes(addr, room, t.udp.hasUdp6, t.udp.details, feeds, i, n) < 10
            && last.Some? && Concluding(last.value) ==>
              var (out, result) := FeedLoop(Repaired, t, feeds, i, timeout);
              && (out, result) == FeedLoop(Repaired, t, others, i, timeout)
              && match last.value.newClient
                 case Some(client) => result == Client(client)
                 case None => result == Unauthorized && out.t.control.forceExpired
    decreases n
  {
    hide FeedLoop;
    hide Meaning;
    hide RecFeedMsg;
    var addr, room := t.control.addr, |t.control.buff| + 1024;
    if n == 0 && timeout < 10 {
      Concludes(t, feeds, others, i, timeout);
    } else if timeout < 10 {
      assert Uneventful(addr, room, feeds, i, 1);
      assert Strikes(addr, room + 1024, t.udp.hasUdp6, t.udp.details, feeds, i + 1, 0) == 0;
      var t', timeout', events := GoesOn(t, feeds, others, i, timeout);
      LoopConcludes(t', feeds, others, i + 1, timeout', n - 1);
    }
  }
}
