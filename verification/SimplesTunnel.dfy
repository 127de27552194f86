// tunnel/simples_tunnel.go: one tunnel, advanced by Update and moved by ReloadControlAddr.
//
// Every clock sample is an input: two samples inside one Update may differ.
module SimplesTunnels {
  import opened Bytes
  import opened BigInt
  import opened ControlFeeds
  import opened Events
  import opened UdpTunnels
  import opened Controls
  import H = Handshakes

  // The state of a SimplesTunnel after Setup, flattened to a value.
  datatype Tunnel = Tunnel(controlAddr: AddrPort, control: Channel, udp: Udp, lastKeepAlive: u64, lastPing: u64,
                           lastPong: u64, lastUdpAuth: u64, targets: seq<AddrPort>)

  datatype Out = Out(t: Tunnel, events: seq<Event>)

  // ---- Update ----

  function PingPhase(t: Tunnel, now: u64): Out {
    if Sub64(now, t.lastPing) > 1000 then
      var m := PingMessage(t.control, 200, now);
      Out(t.(lastPing := now, control := AfterSend(t.control, m)), [Requested(now, t.control.addr, m)])
    else Out(t, [])
  }

  function AuthPhase(t: Tunnel, now: u64): Out {
    if 5000 < Sub64(now, t.lastUdpAuth) then
      var m := SetupUdpMessage(t.control, 9000);
      Out(t.(lastUdpAuth := now, control := AfterSend(t.control, m)), [Requested(now, t.control.addr, m)])
    else Out(t, [])
  }

  function ResendPhase(t: Tunnel, now: u64, clock: u64): Out {
    if 1000 < Sub64(now, t.lastUdpAuth) then
      var s := ResendToken(t.udp, clock);
      Out(t.(lastUdpAuth := now, udp := s.udp), [Resending(now)] + s.events)
    else Out(t, [])
  }

  // The smaller of the expiry and the present time, both as timestamps.
  function TimeTillExpire(c: Channel, now: u64): u64 {
    var x := ToU64(c.registered.expiresAt);
    if x > now then now else x
  }

  function KeepAlivePhase(t: Tunnel, now: u64): Out {
    if 10000 < Sub64(now, t.lastKeepAlive) && TimeTillExpire(t.control, now) < 30000 then
      var k, s := KeepAliveMessage(t.control, 100), SetupUdpMessage(t.control, 1);
      Out(t.(lastKeepAlive := now, control := AfterSend(AfterSend(t.control, k), s)),
          [Requested(now, t.control.addr, k), Requested(now, t.control.addr, s)])
    else Out(t, [])
  }

  // One read of the feed: what arrives, the clock when it is decoded and when it is acted upon.
  datatype FeedInput = FeedInput(read: NetRead, decoded: u64, acted: u64)

  function NthFeed(feeds: seq<FeedInput>, i: nat): FeedInput {
    if i < |feeds| then feeds[i] else FeedInput(TimedOut, 0, 0)
  }

  datatype UpdateResult = Nothing | Client(client: NewClient) | Unauthorized

  // failed says whether the read counts as a timeout.
  datatype Fed = Fed(out: Out, failed: bool, result: UpdateResult)

  function Act(v: Variant, t: Tunnel, feed: ControlFeed, clock: u64): Fed {
    if feed.newClient.Some? then Fed(Out(t, []), false, Client(feed.newClient.value))
    else if feed.response.Some? then
      var content := feed.response.value.content;
      if content.udpChannelDetails.Some? then
        var s := SetUdpTunnel(v, t.udp, content.udpChannelDetails.value, clock);
        Fed(Out(t.(udp := s.udp), s.events), !s.ok, Nothing)
      else if content.pong.Some? then Fed(Out(t.(lastPong := clock), []), false, Nothing)
      else if content.unauthorized then
        // As written the log call panics before the channel is marked as expired.
        var expired := v == Repaired || t.control.forceExpired;
        Fed(Out(t.(control := t.control.(forceExpired := expired)), []), false, Unauthorized)
      else Fed(Out(t, []), false, Nothing)
    else Fed(Out(t, []), false, Nothing)
  }

  function FeedStep(v: Variant, t: Tunnel, f: FeedInput): Fed {
    var r := RecFeedMsg(v, t.control, f.read, f.decoded);
    var t := t.(control := r.channel);
    if r.feed.None? then Fed(Out(t, r.events), true, Nothing) else
      var a := Act(v, t, r.feed.value, f.acted);
      a.(out := a.out.(events := r.events + a.out.events))
  }

  const FEED_READS := 30
  const FEED_TIMEOUTS := 10

  // A result preceded by the given events.
  function After(events: seq<Event>, r: (Out, UpdateResult)): (Out, UpdateResult) {
    (Out(r.0.t, events + r.0.events), r.1)
  }

  // The rest of the receive loop from its i-th pass on.
  function FeedLoop(v: Variant, t: Tunnel, feeds: seq<FeedInput>, i: nat, timeout: nat): (r: (Out, UpdateResult))
    requires i <= FEED_READS
    decreases feeds, FEED_READS - i
  {
    if i == FEED_READS || timeout >= FEED_TIMEOUTS then (Out(t, []), Nothing) else
      var f := FeedStep(v, t, NthFeed(feeds, i));
      if !f.result.Nothing? then (f.out, f.result) else
        After(f.out.events, FeedLoop(v, f.out.t, feeds, i + 1, if f.failed then timeout + 1 else timeout))
  }

  lemma AfterNone(r: (Out, UpdateResult))
    ensures After([], r) == r
  {
    assert [] + r.0.events == r.0.events;
  }

  lemma AfterAfter(a: seq<Event>, b: seq<Event>, r: (Out, UpdateResult))
    ensures After(a, After(b, r)) == After(a + b, r)
  {
    assert a + (b + r.0.events) == a + b + r.0.events;
  }

  lemma FeedLoopEnd(v: Variant, t: Tunnel, feeds: seq<FeedInput>, i: nat, timeout: nat, before: seq<Event>)
    requires i == FEED_READS || (i < FEED_READS && timeout >= FEED_TIMEOUTS)
    ensures After(before, FeedLoop(v, t, feeds, i, timeout)) == (Out(t, before), Nothing)
  {
    assert before + [] == before;
  }

  lemma FeedLoopStep(v: Variant, t: Tunnel, feeds: seq<FeedInput>, i: nat, timeout: nat, before: seq<Event>)
    requires i < FEED_READS && timeout < FEED_TIMEOUTS
    ensures var f := FeedStep(v, t, NthFeed(feeds, i));
            After(before, FeedLoop(v, t, feeds, i, timeout))
            == if !f.result.Nothing? then (Out(f.out.t, before + f.out.events), f.result)
               else After(before + f.out.events,
                          FeedLoop(v, f.out.t, feeds, i + 1, if f.failed then timeout + 1 else timeout))
  {
    var f := FeedStep(v, t, NthFeed(feeds, i));
    if f.result.Nothing? {
      AfterAfter(before, f.out.events, FeedLoop(v, f.out.t, feeds, i + 1, if f.failed then timeout + 1 else timeout));
    }
  }

  function Watchdog(t: Tunnel, clock: u64): Tunnel {
    if t.lastPong != 0 && Sub64(clock, t.lastPong) > 6000 then
      t.(lastPong := 0, control := t.control.(forceExpired := true))
    else t
  }

  // now is the sample the timers use; the others are taken where the seconds clock is read.
  datatype UpdateInput = UpdateInput(auth: H.AuthInput, now: u64, authClock: u64, resendClock: u64, tokenClock: u64,
                                     feeds: seq<FeedInput>, watchdog: u64)

  datatype Updated = Updated(t: Tunnel, events: seq<Event>, result: UpdateResult)

  // Authorisation, resending, keeping alive and the receive loop.
  function SessionPhase(v: Variant, t: Tunnel, i: UpdateInput): (Out, UpdateResult) {
    if RequiresAuth(t.udp, i.authClock) then (AuthPhase(t, i.now), Nothing)
    else if RequireResend(t.udp, i.resendClock) then
      var s := ResendPhase(t, i.now, i.tokenClock);
      var k := KeepAlivePhase(s.t, i.now);
      After(s.events + k.events, FeedLoop(v, k.t, i.feeds, 0, 0))
    else (Out(t, []), Nothing)
  }

  // From the first clock sample on.
  function Proceed(v: Variant, t: Tunnel, i: UpdateInput): Updated {
    var p := PingPhase(t, i.now);
    var (s, result) := SessionPhase(v, p.t, i);
    Updated(if result.Nothing? then Watchdog(s.t, i.watchdog) else s.t, p.events + s.events, result)
  }

  function Update(v: Variant, t: Tunnel, i: UpdateInput): Updated {
    if IsExpired(t.control) then
      var a := Reauthenticate(v, t.control, i.auth);
      if !a.ok then Updated(t, a.events, Nothing) else
        var u := Proceed(v, t.(control := a.channel), i);
        u.(events := a.events + u.events)
    else Proceed(v, t, i)
  }

  // ---- Moving to another control address ----

  datatype Relocated = Relocated(t: Tunnel, events: seq<Event>, changed: bool)

  function UpdateControlAddr(v: Variant, t: Tunnel, c: H.Connected, auth: H.AuthInput): Relocated {
    if c.addr == t.controlAddr then Relocated(t, [], false) else
      var h := H.Authenticate(v, c, auth);
      match h.result
      case AuthFailed(_) => Relocated(t, [Registering(c.addr, h.registrations)], false)
      case Authenticated(registered, buff) =>
        var u := Invalidate(t.udp);
        Relocated(t.(control := Open(c, registered, buff), controlAddr := c.addr,
                     lastPing := 0, lastKeepAlive := 0, lastUdpAuth := 0, udp := u.udp),
                  [Registering(c.addr, h.registrations), Installed(registered.id), Moved(c.addr)] + u.events, true)
  }

  // addresses is None when the routing API fails.
  datatype ReloadInput = ReloadInput(addresses: Option<seq<AddrPort>>, probes: seq<H.ProbeInput>, auth: H.AuthInput)

  // As written nothing is done if some earlier target has disappeared.
  predicate Disappeared(targets: seq<AddrPort>, addresses: seq<AddrPort>) {
    exists a :: a in targets && a !in addresses
  }

  function ReloadControlAddr(v: Variant, t: Tunnel, i: ReloadInput): Relocated {
    if i.addresses.None? || Disappeared(t.targets, i.addresses.value) then Relocated(t, [], false) else
      match H.FindSuitableChannel(v, i.addresses.value, i.probes)
      case NoChannel => Relocated(t, [], false)
      case Found(connected, _) =>
        var r := UpdateControlAddr(v, t, connected, i.auth);
        r.(t := r.t.(targets := i.addresses.value))
  }

  // ---- Setup ----

  datatype SetupInput = SetupInput(udp4: bool, udp6: bool, addresses: Option<seq<AddrPort>>,
                                   probes: seq<H.ProbeInput>, auth: H.AuthInput)

  // The tunnel a fresh SimplesTunnel becomes, if every step succeeds.
  function Setup(v: Variant, i: SetupInput): Option<Tunnel> {
    if !i.udp4 || i.addresses.None? then None else
      match H.FindSuitableChannel(v, i.addresses.value, i.probes)
      case NoChannel => None
      case Found(connected, _) =>
        match H.Authenticate(v, connected, i.auth).result
        case AuthFailed(_) => None
        case Authenticated(registered, buff) =>
          Some(Tunnel(connected.addr, Open(connected, registered, buff), Fresh(i.udp6), 0, 0, 0, 0, []))
  }

  class SimplesTunnel {
    var ControlAddr: AddrPort
    var ControlChannel: AuthenticatedControl?
    var Udp: UdpTunnel?
    var LastKeepAlive: u64
    var LastPing: u64
    var LastPong: u64
    var LastUdpAuth: u64
    var lastControlTargets: seq<AddrPort>

    predicate Ready()
      reads this
    {
      ControlChannel != null && Udp != null
    }

    function State(): Tunnel
      requires Ready()
      reads this, ControlChannel, Udp
    {
      Tunnel(ControlAddr, ControlChannel.State(), Udp.State(), LastKeepAlive, LastPing, LastPong, LastUdpAuth,
             lastControlTargets)
    }

    constructor ()
      ensures !Ready()
      ensures LastKeepAlive == LastPing == LastPong == LastUdpAuth == 0 && lastControlTargets == []
    {
      ControlAddr, ControlChannel, Udp := AddrPort(Unset, 0), null, null;
      LastKeepAlive, LastPing, LastPong, LastUdpAuth, lastControlTargets := 0, 0, 0, 0, [];
    }

    // Setup leaves the timers and the targets as they are; a failure leaves everything but the UDP
    // session as it is.
    method Start(v: Variant, i: SetupInput, now: i64) returns (ok: bool)
      modifies this
      ensures ok == Setup(v, i).Some?
      ensures lastControlTargets == old(lastControlTargets)
      ensures LastKeepAlive == old(LastKeepAlive) && LastPing == old(LastPing)
      ensures LastPong == old(LastPong) && LastUdpAuth == old(LastUdpAuth)
      ensures if i.udp4 then Udp != null && fresh(Udp) && Udp.State() == Fresh(i.udp6) else Udp == old(Udp)
      ensures ok ==> Ready() && fresh(ControlChannel)
      ensures ok ==> State() == Setup(v, i).value.(lastKeepAlive := LastKeepAlive, lastPing := LastPing,
                                                   lastPong := LastPong, lastUdpAuth := LastUdpAuth,
                                                   targets := lastControlTargets)
      ensures !ok ==> ControlAddr == old(ControlAddr) && ControlChannel == old(ControlChannel)
    {
      if !i.udp4 {
        return false;
      }
      Udp := new UdpTunnel(i.udp6);
      if i.addresses.None? {
        return false;
      }
      var setup := H.RunFindSuitableChannel(v, i.addresses.value, i.probes, now);
      if setup.NoChannel? {
        return false;
      }
      var h := H.RunAuthenticate(v, setup.connected, i.auth);
      if h.result.AuthFailed? {
        return false;
      }
      ControlAddr := setup.connected.addr;
      ControlChannel := new AuthenticatedControl(setup.connected, h.result.registered, h.result.buff);
      return true;
    }

    method ChangeControlAddr(v: Variant, c: H.Connected, auth: H.AuthInput)
      returns (changed: bool, ghost events: seq<Event>)
      requires Ready()
      modifies this, Udp
      ensures Ready() && Udp == old(Udp) && (ControlChannel == old(ControlChannel) || fresh(ControlChannel))
      ensures Relocated(State(), events, changed) == UpdateControlAddr(v, old(State()), c, auth)
    {
      hide H.Authenticate;
      if c.addr == ControlAddr {
        return false, [];
      }
      var h := H.RunAuthenticate(v, c, auth);
      events := [Registering(c.addr, h.registrations)];
      if h.result.AuthFailed? {
        return false, events;
      }
      ControlChannel := new AuthenticatedControl(c, h.result.registered, h.result.buff);
      ControlAddr := c.addr;
      LastPing := 0;
      LastKeepAlive := 0;
      LastUdpAuth := 0;
      ghost var invalidated := Udp.InvalidateSession();
      changed := true;
      events := [Registering(c.addr, h.registrations), Installed(h.result.registered.id), Moved(c.addr)] + invalidated;
    }

    method Reload(v: Variant, i: ReloadInput, now: i64) returns (changed: bool, ghost events: seq<Event>)
      requires Ready()
      modifies this, Udp
      ensures Ready() && Udp == old(Udp) && (ControlChannel == old(ControlChannel) || fresh(ControlChannel))
      ensures Relocated(State(), events, changed) == ReloadControlAddr(v, old(State()), i)
    {
      hide H.FindSuitableChannel;
      hide UpdateControlAddr;
      if i.addresses.None? || exists a :: a in lastControlTargets && a !in i.addresses.value {
        return false, [];
      }
      var setup := H.RunFindSuitableChannel(v, i.addresses.value, i.probes, now);
      if setup.NoChannel? {
        return false, [];
      }
      changed, events := ChangeControlAddr(v, setup.connected, i.auth);
      lastControlTargets := i.addresses.value;
    }

    method Advance(v: Variant, i: UpdateInput) returns (result: UpdateResult, ghost events: seq<Event>)
      requires Ready()
      modifies this, ControlChannel, Udp
      ensures Ready() && Udp == old(Udp) && ControlChannel == old(ControlChannel)
      ensures Updated(State(), events, result) == Update(v, old(State()), i)
    {
      hide Proceed;
      hide H.Authenticate;
      events := [];
      if IsExpired(ControlChannel.State()) {
        var ok;
        ok, events := ControlChannel.Authenticate(v, i.auth);
        if !ok {
          return Nothing, events;
        }
      }
      ghost var more;
      result, more := AdvanceTimers(v, i);
      events := events + more;
    }

    method AdvanceTimers(v: Variant, i: UpdateInput) returns (result: UpdateResult, ghost events: seq<Event>)
      requires Ready()
      modifies this, ControlChannel, Udp
      ensures Ready() && Udp == old(Udp) && ControlChannel == old(ControlChannel)
      ensures Updated(State(), events, result) == Proceed(v, old(State()), i)
    {
      var now := i.now;
      events := [];
      if Sub64(now, LastPing) > 1000 {
        LastPing := now;
        var m := ControlChannel.SendPing(200, now);
        events := [Requested(now, ControlChannel.ControlAddr, m)];
      }
      ghost var more;
      result, more := AdvanceSession(v, i);
      events := events + more;
      if result.Nothing? {
        WatchPong(i.watchdog);
      }
    }

    method AdvanceSession(v: Variant, i: UpdateInput) returns (result: UpdateResult, ghost events: seq<Event>)
      requires Ready()
      modifies this, ControlChannel, Udp
      ensures Ready() && Udp == old(Udp) && ControlChannel == old(ControlChannel)
      ensures (Out(State(), events), result) == SessionPhase(v, old(State()), i)
    {
      events, result := [], Nothing;
      if RequiresAuth(Udp.State(), i.authClock) {
        events := RequestAuth(i.now);
      } else if RequireResend(Udp.State(), i.resendClock) {
        events := ResendIfDue(i.now, i.tokenClock);
        ghost var kept := KeepAliveIfDue(i.now);
        events := events + kept;
        ghost var fed;
        result, fed := ReceiveFeeds(v, i.feeds);
        events := events + fed;
      }
    }

    method RequestAuth(now: u64) returns (ghost events: seq<Event>)
      requires Ready()
      modifies this`LastUdpAuth, ControlChannel
      ensures Out(State(), events) == AuthPhase(old(State()), now)
    {
      events := [];
      if 5000 < Sub64(now, LastUdpAuth) {
        LastUdpAuth := now;
        var m := ControlChannel.SendSetupUDPChannel(9000);
        events := [Requested(now, ControlChannel.ControlAddr, m)];
      }
    }

    method ResendIfDue(now: u64, clock: u64) returns (ghost events: seq<Event>)
      requires Ready()
      modifies this`LastUdpAuth, Udp
      ensures Out(State(), events) == ResendPhase(old(State()), now, clock)
    {
      events := [];
      if 1000 < Sub64(now, LastUdpAuth) {
        LastUdpAuth := now;
        ghost var sent;
        var ok;
        ok, sent := Udp.Resend(clock);
        events := [Resending(now)] + sent;
      }
    }

    method KeepAliveIfDue(now: u64) returns (ghost events: seq<Event>)
      requires Ready()
      modifies this`LastKeepAlive, ControlChannel
      ensures Out(State(), events) == KeepAlivePhase(old(State()), now)
    {
      events := [];
      var expires := ToU64(ControlChannel.Registered.expiresAt);
      var timeTillExpire := if expires > now then now else expires;
      if 10000 < Sub64(now, LastKeepAlive) && timeTillExpire < 30000 {
        LastKeepAlive := now;
        var k := ControlChannel.SendKeepAlive(100);
        var s := ControlChannel.SendSetupUDPChannel(1);
        events := [Requested(now, ControlChannel.ControlAddr, k), Requested(now, ControlChannel.ControlAddr, s)];
      }
    }

    method WatchPong(clock: u64)
      requires Ready()
      modifies this`LastPong, ControlChannel
      ensures State() == Watchdog(old(State()), clock)
    {
      if LastPong != 0 && Sub64(clock, LastPong) > 6000 {
        LastPong := 0;
        ControlChannel.ForceExpired := true;
      }
    }

    method ReceiveFeeds(v: Variant, feeds: seq<FeedInput>) returns (result: UpdateResult, ghost events: seq<Event>)
      requires Ready()
      modifies this, ControlChannel, Udp
      ensures Ready() && Udp == old(Udp) && ControlChannel == old(ControlChannel)
      ensures (Out(State(), events), result) == FeedLoop(v, old(State()), feeds, 0, 0)
    {
      hide FeedStep;
      var timeout := 0;
      events := [];
      ghost var whole := FeedLoop(v, State(), feeds, 0, 0);
      AfterNone(whole);
      for i := 0 to FEED_READS
        invariant Ready() && Udp == old(Udp) && ControlChannel == old(ControlChannel)
        invariant whole == After(events, FeedLoop(v, State(), feeds, i, timeout))
      {
        if timeout >= FEED_TIMEOUTS {
          FeedLoopEnd(v, State(), feeds, i, timeout, events);
          return Nothing, events;
        }
        ghost var t := State();
        ghost var before := events;
        ghost var more;
        var failed;
        failed, result, more := ReceiveFeed(v, NthFeed(feeds, i));
        FeedLoopStep(v, t, feeds, i, timeout, before);
        events := before + more;
        if !result.Nothing? {
          return result, events;
        }
        if failed {
          timeout := timeout + 1;
        }
      }
      FeedLoopEnd(v, State(), feeds, FEED_READS, timeout, events);
      result := Nothing;
    }

    method ReceiveFeed(v: Variant, f: FeedInput) returns (failed: bool, result: UpdateResult, ghost events: seq<Event>)
      requires Ready()
      modifies this, ControlChannel, Udp
      ensures Ready() && Udp == old(Udp) && ControlChannel == old(ControlChannel)
      ensures Fed(Out(State(), events), failed, result) == FeedStep(v, old(State()), f)
    {
      var men;
      men, events := ControlChannel.Receive(v, f.read, f.decoded);
      if men.None? {
        return true, Nothing, events;
      }
      ghost var more;
      failed, result, more := ActOn(v, men.value, f.acted);
      events := events + more;
    }

    method ActOn(v: Variant, men: ControlFeed, clock: u64)
      returns (failed: bool, result: UpdateResult, ghost events: seq<Event>)
      requires Ready()
      modifies this, ControlChannel, Udp
      ensures Ready() && Udp == old(Udp) && ControlChannel == old(ControlChannel)
      ensures Fed(Out(State(), events), failed, result) == Act(v, old(State()), men, clock)
    {
      failed, result, events := false, Nothing, [];
      if men.newClient.Some? {
        result := Client(men.newClient.value);
      } else if men.response.Some? {
        var cont := men.response.value.content;
        if cont.udpChannelDetails.Some? {
          var ok;
          ok, events := Udp.Set(v, cont.udpChannelDetails.value, clock);
          failed := !ok;
        } else if cont.pong.Some? {
          LastPong := clock;
        } else if cont.unauthorized {
          if v == Repaired {
            ControlChannel.ForceExpired := true;
          }
          result := Unauthorized;
        }
      }
    }
  }
}
