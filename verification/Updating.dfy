// One Update as a table: what is sent when, and what state is left.
module Updating {
  import opened Bytes
  import opened BigInt
  import opened ControlMessage
  import opened ControlFeeds
  import opened Events
  import opened UdpTunnels
  import opened Controls
  import opened SimplesTunnels
  import opened Timing
  import opened Lifecycle
  import opened Hearing
  import H = Handshakes

  // More than s seconds from last to now on the 32-bit seconds clock, which wraps.
  predicate PastSeconds(clock: u64, last: u32, s: nat) {
    var now := clock % 0x1_0000_0000 / 1000;
    if last <= now then now - last > s else now + 0x1_0000_0000 - last > s
  }

  function SetupOf(c: Channel, requestId: u64): Request {
    RpcMessage(requestId, ControlRequest(None, None, None, Some(c.registered.id), None))
  }

  // The channel once it has sent a request.
  function Having(c: Channel, m: Request): Channel { c.(buff := EncodeRequest(m).GetOr([])) }

  // A pong older than 6000 ms is forgotten and forces expiry; any other is left alone.
  function Watched(t: Tunnel, clock: u64): Tunnel {
    if t.lastPong != 0 && Past(clock, t.lastPong, 6000)
    then t.(lastPong := 0, control := t.control.(forceExpired := true)) else t
  }

  // Past the expiry check an Update first pings, exactly when more than a second has passed since
  // the last ping, and goes on as it would if the ping had been sent before.
  lemma PingFirst(v: Variant, t: Tunnel, i: UpdateInput)
    requires Past(i.now, t.lastPing, 1000)
    ensures var ping := Ping(ToI64(i.now), t.control.currentPing, Some(t.control.registered.id));
            var m := RpcMessage(200, ControlRequest(Some(ping), None, None, None, None));
            var rest := Proceed(v, t.(lastPing := i.now, control := Having(t.control, m)), i);
            Proceed(v, t, i) == Updated(rest.t, [Requested(i.now, t.control.addr, m)] + rest.events, rest.result)
  {
    hide SessionPhase;
    hide EncodeRequest;
    var t' := PingPhase(t, i.now).t;
    assert PingPhase(t', i.now) == Out(t', []);
    assert [] + SessionPhase(v, t', i).0.events == SessionPhase(v, t', i).0.events;
  }

  // Authorisation is required while the last confirmation does not lie after the last token and that
  // is more than 5 seconds old; resending once the last confirmation is more than 10 seconds old.
  predicate AuthDue(u: Udp, clock: u64) { u.lastSend >= u.lastConfirm && PastSeconds(clock, u.lastSend, 5) }

  predicate ResendDue(u: Udp, clock: u64) { PastSeconds(clock, u.lastConfirm, 10) }

  // Where authorisation is required, UDP setup is requested if 5 seconds have passed on its timer.
  lemma AuthBranch(v: Variant, t: Tunnel, i: UpdateInput)
    requires !Past(i.now, t.lastPing, 1000) && AuthDue(t.udp, i.authClock)
    ensures var m := SetupOf(t.control, 9000);
            Proceed(v, t, i)
            == if Past(i.now, t.lastUdpAuth, 5000) then
                 Updated(Watched(t.(lastUdpAuth := i.now, control := Having(t.control, m)), i.watchdog),
                         [Requested(i.now, t.control.addr, m)], Nothing)
               else Updated(Watched(t, i.watchdog), [], Nothing)
  {
    hide EncodeRequest;
    hide FeedLoop;
    hide PingPhase;
    hide ResendPhase;
    hide KeepAlivePhase;
    hide RequiresAuth;
    hide RequireResend;
    hide AuthDue;
    hide ResendDue;
    NotYet(t, i);
  }

  // Where neither is required, nothing is sent or read.
  lemma QuietBranch(v: Variant, t: Tunnel, i: UpdateInput)
    requires !Past(i.now, t.lastPing, 1000) && !AuthDue(t.udp, i.authClock) && !ResendDue(t.udp, i.resendClock)
    ensures Proceed(v, t, i) == Updated(Watched(t, i.watchdog), [], Nothing)
  {
    hide EncodeRequest;
    hide FeedLoop;
    hide PingPhase;
    hide ResendPhase;
    hide KeepAlivePhase;
    hide RequiresAuth;
    hide RequireResend;
    hide AuthDue;
    hide ResendDue;
    NotYet(t, i);
  }

  // Whether the token can be resent: there are details, and a socket for their address.
  predicate CanResend(u: Udp) { u.details.Some? && (u.details.value.tunnelAddr.addr.Ip4? || u.hasUdp6) }

  // The state the receive loop starts from, and what has been sent by then.
  function Resent(t: Tunnel, i: UpdateInput): Out {
    if !Past(i.now, t.lastUdpAuth, 1000) then Out(t, [])
    else if !CanResend(t.udp) then Out(t.(lastUdpAuth := i.now), [Resending(i.now)])
    else
      var d := t.udp.details.value;
      Out(t.(lastUdpAuth := i.now, udp := t.udp.(lastSend := i.tokenClock % 0x1_0000_0000 / 1000)),
          [Resending(i.now), TokenSent(i.tokenClock, d.tunnelAddr, d.token)])
  }

  function KeptAlive(t: Tunnel, i: UpdateInput): Out {
    if !Past(i.now, t.lastKeepAlive, 10000) || (i.now >= 30000 && !(0 <= t.control.registered.expiresAt < 30000))
    then Out(t, [])
    else
      var k := RpcMessage(100, ControlRequest(None, None, Some(t.control.registered.id), None, None));
      var s := SetupOf(t.control, 1);
      Out(t.(lastKeepAlive := i.now, control := Having(t.control, s)),
          [Requested(i.now, t.control.addr, k), Requested(i.now, t.control.addr, s)])
  }

  // Where a resend is required, the token goes out again if a second has passed on the shared timer,
  // then the keep-alive, and then the feed is read; the watchdog is only reached without a result.
  lemma ResendBranch(v: Variant, t: Tunnel, i: UpdateInput)
    requires !Past(i.now, t.lastPing, 1000) && !AuthDue(t.udp, i.authClock) && ResendDue(t.udp, i.resendClock)
    ensures var s := Resent(t, i);
            var k := KeptAlive(s.t, i);
            var (o, result) := FeedLoop(v, k.t, i.feeds, 0, 0);
            Proceed(v, t, i) == Updated(if result.Nothing? then Watched(o.t, i.watchdog) else o.t,
                                        s.events + k.events + o.events, result)
  {
    hide FeedLoop;
    hide ResendPhase;
    hide KeepAlivePhase;
    hide Resent;
    hide KeptAlive;
    ResentIs(t, i);
    KeptAliveIs(Resent(t, i).t, i);
    NotYet(t, i);
    var s := Resent(t, i);
    var k := KeptAlive(s.t, i);
    var o := FeedLoop(v, k.t, i.feeds, 0, 0).0;
    assert [] + (s.events + k.events + o.events) == s.events + k.events + o.events;
  }

  lemma ResentIs(t: Tunnel, i: UpdateInput)
    ensures ResendPhase(t, i.now, i.tokenClock) == Resent(t, i)
  {}

  lemma KeptAliveIs(t: Tunnel, i: UpdateInput)
    ensures KeepAlivePhase(t, i.now) == KeptAlive(t, i)
  {
    hide EncodeRequest;
  }

  // No ping is due, and the two predicates of the source decide between the branches.
  lemma NotYet(t: Tunnel, i: UpdateInput)
    ensures !Past(i.now, t.lastPing, 1000) ==> PingPhase(t, i.now) == Out(t, [])
    ensures RequiresAuth(t.udp, i.authClock) == AuthDue(t.udp, i.authClock)
    ensures RequireResend(t.udp, i.resendClock) == ResendDue(t.udp, i.resendClock)
  {
    hide EncodeRequest;
  }

  // ---- A client is handed over by Update itself ----

  // Datagrams of at most 1024 octets fit into every receive buffer.
  predicate Short(feeds: seq<FeedInput>, n: nat) {
    forall k :: 0 <= k < n ==> FeedAt(feeds, k).read.Received? ==> |FeedAt(feeds, k).read.data| <= 1024
  }

  lemma RoomEnough(addr: AddrPort, room: nat, read: NetRead)
    requires room >= 1024 && (read.Received? ==> |read.data| <= 1024)
    ensures Meaning(addr, room, read) == Meaning(addr, 1024, read)
  {
    hide ControlFeed.Parse;
  }

  lemma {:induction false} RoomsEnough(addr: AddrPort, a: nat, b: nat, udp6: bool, details: Option<UdpChannelDetails>,
                                       feeds: seq<FeedInput>, i: nat, n: nat)
    requires a >= 1024 && b >= 1024 && Short(feeds, i + n)
    ensures Uneventful(addr, a, feeds, i, n) == Uneventful(addr, b, feeds, i, n)
    ensures Strikes(addr, a, udp6, details, feeds, i, n) == Strikes(addr, b, udp6, details, feeds, i, n)
    decreases n
  {
    hide Meaning;
    if n > 0 {
      RoomEnough(addr, a, FeedAt(feeds, i).read);
      RoomEnough(addr, b, FeedAt(feeds, i).read);
      var d := DetailsIn(Meaning(addr, 1024, FeedAt(feeds, i).read));
      RoomsEnough(addr, a + 1024, b + 1024, udp6, if d.Some? then d else details, feeds, i + 1, n - 1);
    }
  }

  // An Update that reads the feed, and whose first n reads neither conclude nor fail ten times, ends
  // with what the next read brings: the client of a new-client message, or the refusal.
  lemma UpdateConcludes(t: Tunnel, i: UpdateInput, n: nat)
    requires Reaches(Repaired, t, i) && !AuthDue(t.udp, i.authClock) && ResendDue(t.udp, i.resendClock)
    requires n < 30 && Short(i.feeds, n + 1)
    ensures var addr, last := t.control.addr, Meaning(t.control.addr, 1024, FeedAt(i.feeds, n).read);
            && Uneventful(addr, 1024, i.feeds, 0, n)
            && Strikes(addr, 1024, t.udp.hasUdp6, t.udp.details, i.feeds, 0, n) < 10
            && last.Some? && Concluding(last.value) ==>
              var u := Update(Repaired, t, i);
              match last.value.newClient
              case Some(client) => u.result == Client(client)
              case None => u.result == Unauthorized && u.t.control.forceExpired
  {
    hide Update;
    hide Proceed;
    hide FeedLoop;
    hide Meaning;
    hide Uneventful;
    hide Strikes;
    hide EncodeRequest;
    hide H.Authenticate;
    ExpiryGate(Repaired, t, i);
    RenewedKeeps(Repaired, t, i);
    var t1 := Renewed(Repaired, t, i);
    var t2 := t1;
    if Past(i.now, t1.lastPing, 1000) {
      PingFirst(Repaired, t1, i);
      var ping := Ping(ToI64(i.now), t1.control.currentPing, Some(t1.control.registered.id));
      t2 := t1.(lastPing := i.now,
                control := Having(t1.control, RpcMessage(200, ControlRequest(Some(ping), None, None, None, None))));
    }
    ResendBranch(Repaired, t2, i);
    var k := KeptAlive(Resent(t2, i).t, i).t;
    var room := |k.control.buff| + 1024;
    RoomsEnough(t.control.addr, 1024, room, t.udp.hasUdp6, t.udp.details, i.feeds, 0, n);
    RoomEnough(t.control.addr, room + 1024 * n, FeedAt(i.feeds, n).read);
    if Uneventful(t.control.addr, 1024, i.feeds, 0, n) {
      LoopConcludes(k, i.feeds, i.feeds, 0, 0, n);
    }
  }

  // In particular the client of an encoded new-client message that arrives first.
  lemma ClientHandedOver(t: Tunnel, i: UpdateInput, client: NewClient)
    requires Reaches(Repaired, t, i) && !AuthDue(t.udp, i.authClock) && ResendDue(t.udp, i.resendClock)
    requires client.IsValid() && |ControlFeed(None, Some(client)).Encode().value| <= 1024
    requires FeedAt(i.feeds, 0).read == Received(t.control.addr, ControlFeed(None, Some(client)).Encode().value)
    ensures Update(Repaired, t, i).result == Client(client)
  {
    hide Update;
    hide Meaning;
    var feed := ControlFeed(None, Some(client));
    assert feed.Encode().Some? && feed.Survives(Repaired) && feed.Reduced() == feed;
    hide ControlFeed.Encode;
    MeaningBack(t.control.addr, 1024, feed);
    UpdateConcludes(t, i, 0);
  }

  lemma MeaningBack(addr: AddrPort, room: nat, feed: ControlFeed)
    requires feed.Encode().Some? && |feed.Encode().value| <= room && feed.Survives(Repaired)
    ensures Meaning(addr, room, Received(addr, feed.Encode().value)) == Some(feed.Reduced())
  {
    hide ControlFeed.Parse;
    hide ControlFeed.Encode;
    hide ControlFeed.Survives;
    hide ControlFeed.Reduced;
    var data := feed.Encode().value;
    feed.Back(Repaired, []);
    assert data + [] == data && data[..|data|] == data;
  }
}
