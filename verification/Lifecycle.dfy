// Expiry, re-authentication and moving to another control address, over whole runs.
module Lifecycle {
  import opened Bytes
  import opened BigInt
  import opened ControlMessage
  import opened ControlFeeds
  import opened Events
  import opened UdpTunnels
  import opened Controls
  import opened SimplesTunnels
  import opened Runs
  import opened Timing
  import H = Handshakes

  // ---- Expiry gates every send ----

  // The tunnel an Update works on once it is past the expiry check.
  function Renewed(v: Variant, t: Tunnel, i: UpdateInput): Tunnel {
    if !Expired(t) then t else
      match H.Authenticate(v, H.Connected(t.control.addr, t.control.lastPong), i.auth).result
      case AuthFailed(_) => t
      case Authenticated(registered, buff) =>
        t.(control := t.control.(registered := registered, buff := buff, currentPing := None,
                                 forceExpired := v == AsWritten && t.control.forceExpired))
  }

  // No Update of the run gets past its expiry check.
  predicate NoneReaches(v: Variant, t: Tunnel, steps: seq<Step>)
    decreases steps
  {
    steps == [] || (&& (steps[0].UpdateStep? ==> !Reaches(v, t, steps[0].update))
                    && NoneReaches(v, Next(v, t, steps[0]).t, steps[1..]))
  }

  // Such an Update changes nothing.
  lemma StoppedUpdate(v: Variant, t: Tunnel, i: UpdateInput)
    requires !Reaches(v, t, i)
    ensures Update(v, t, i).t == t
  {
    hide Update;
    hide Proceed;
    hide H.Authenticate;
    ExpiryGate(v, t, i);
  }

  // With an expired channel an Update registers first. If that fails it does nothing else and
  // changes nothing; if it succeeds the new session is installed before anything is sent.
  predicate Gated(v: Variant, t: Tunnel, i: UpdateInput) {
    var u := Update(v, t, i);
    var h := H.Authenticate(v, H.Connected(t.control.addr, t.control.lastPong), i.auth);
    match h.result
    case AuthFailed(_) => u == Updated(t, [Registering(t.control.addr, h.registrations)], Nothing)
    case Authenticated(registered, _) =>
      var p := Proceed(v, Renewed(v, t, i), i);
      u == Updated(p.t, [Registering(t.control.addr, h.registrations), Installed(registered.id)] + p.events, p.result)
  }

  lemma ExpiryGate(v: Variant, t: Tunnel, i: UpdateInput)
    ensures if Expired(t) then Gated(v, t, i) else Update(v, t, i) == Proceed(v, t, i)
  {
    hide Proceed;
    hide H.Authenticate;
  }

  // The watchdog of this Update finds a pong older than 6000 ms.
  predicate PongOverdue(v: Variant, t: Tunnel, i: UpdateInput) {
    && Reaches(v, t, i)
    && var (s, result) := SessionPhase(v, PingPhase(Renewed(v, t, i), i.now).t, i);
       result.Nothing? && s.t.lastPong != 0 && Past(i.watchdog, s.t.lastPong, 6000)
  }

  lemma OverdueForces(v: Variant, t: Tunnel, i: UpdateInput)
    requires PongOverdue(v, t, i)
    ensures Update(v, t, i).t.control.forceExpired && Update(v, t, i).t.lastPong == 0
  {
    hide SessionPhase;
    hide PingPhase;
    hide Update;
    hide H.Authenticate;
    ExpiryGate(v, t, i);
    assert Update(v, t, i).t == Proceed(v, Renewed(v, t, i), i).t;
  }

  lemma FeedKeepsForced(v: Variant, t: Tunnel, f: FeedInput)
    requires t.control.forceExpired
    ensures FeedStep(v, t, f).out.t.control.forceExpired
  {
    hide RecFeedMsg;
    ReceiveKeeps(v, t.control, f.read, f.decoded);
  }

  lemma {:induction false} LoopKeepsForced(v: Variant, t: Tunnel, feeds: seq<FeedInput>, i: nat, timeout: nat)
    requires i <= FEED_READS && t.control.forceExpired
    ensures FeedLoop(v, t, feeds, i, timeout).0.t.control.forceExpired
    decreases FEED_READS - i
  {
    hide FeedStep;
    if i < FEED_READS && timeout < FEED_TIMEOUTS {
      var f := FeedStep(v, t, NthFeed(feeds, i));
      FeedKeepsForced(v, t, NthFeed(feeds, i));
      if f.result.Nothing? {
        LoopKeepsForced(v, f.out.t, feeds, i + 1, if f.failed then timeout + 1 else timeout);
      }
    }
  }

  lemma ProceedKeepsForced(v: Variant, t: Tunnel, i: UpdateInput)
    requires t.control.forceExpired
    ensures Proceed(v, t, i).t.control.forceExpired
  {
    hide FeedLoop;
    hide EncodeRequest;
    var t1 := PingPhase(t, i.now).t;
    var k := KeepAlivePhase(ResendPhase(t1, i.now, i.tokenClock).t, i.now);
    LoopKeepsForced(v, k.t, i.feeds, 0, 0);
  }

  // As written a successful re-authentication leaves the channel marked as expired.
  lemma UpdateKeepsForced(t: Tunnel, i: UpdateInput)
    requires t.control.forceExpired
    ensures Update(AsWritten, t, i).t.control.forceExpired
  {
    hide Proceed;
    hide H.Authenticate;
    if Reaches(AsWritten, t, i) {
      ProceedKeepsForced(AsWritten, Renewed(AsWritten, t, i), i);
    }
  }

  lemma MoveKeepsForced(v: Variant, t: Tunnel, c: H.Connected, auth: H.AuthInput)
    requires t.control.forceExpired
    ensures var r := UpdateControlAddr(v, t, c, auth);
            r.t.control.forceExpired || exists k :: 0 <= k < |r.events| && r.events[k].Moved?
  {
    hide H.Authenticate;
    var r := UpdateControlAddr(v, t, c, auth);
    if r.changed {
      assert r.events[2].Moved?;
    }
  }

  lemma StepKeepsForced(v: Variant, t: Tunnel, step: Step)
    requires t.control.forceExpired
    requires v == AsWritten || (step.UpdateStep? ==> !Reaches(v, t, step.update))
    ensures var o := Next(v, t, step); o.t.control.forceExpired || Moves(o.events) > 0
  {
    hide Update;
    hide Reaches;
    hide FeedStep;
    hide UpdateControlAddr;
    hide ReceiveFrom;
    hide H.FindSuitableChannel;
    var o := Next(v, t, step);
    match step {
      case UpdateStep(i) =>
        if v == AsWritten {
          UpdateKeepsForced(t, i);
        } else {
          StoppedUpdate(v, t, i);
        }
      case ReloadStep(i) =>
        var found := H.FindSuitableChannel(v, i.addresses.GetOr([]), i.probes);
        if found.Found? {
          MoveKeepsForced(v, t, found.connected, i.auth);
        }
      case MoveStep(c, auth) => MoveKeepsForced(v, t, c, auth);
      case FeedMessage(f) => FeedKeepsForced(v, t, f);
      case Datagram(_, _, _) =>
    }
    if k :| 0 <= k < |o.events| && o.events[k].Moved? {
      MovedCounts(o.events, k);
    }
  }

  lemma {:induction false} RunKeepsForced(v: Variant, t: Tunnel, steps: seq<Step>)
    requires t.control.forceExpired && Moves(Run(v, t, steps).events) == 0
    requires v == AsWritten || NoneReaches(v, t, steps)
    ensures Run(v, t, steps).t.control.forceExpired
    decreases steps
  {
    hide Next;
    if steps != [] {
      var first := Next(v, t, steps[0]);
      StepKeepsForced(v, t, steps[0]);
      PingsConcat(first.events, Run(v, first.t, steps[1..]).events);
      RunKeepsForced(v, first.t, steps[1..]);
    }
  }

  // Once a watchdog finds its pong overdue, and until the control address changes, every Update
  // registers before it sends anything, up to and including the first that succeeds in that. As
  // written so do all later ones.
  lemma OverdueGatesNext(v: Variant, t: Tunnel, i: UpdateInput, steps: seq<Step>, next: UpdateInput)
    requires PongOverdue(v, t, i)
    requires v == AsWritten || NoneReaches(v, Update(v, t, i).t, steps)
    requires Moves(Run(v, Update(v, t, i).t, steps).events) == 0
    ensures Gated(v, Run(v, Update(v, t, i).t, steps).t, next)
  {
    hide PongOverdue;
    hide Run;
    hide Update;
    OverdueForces(v, t, i);
    RunKeepsForced(v, Update(v, t, i).t, steps);
    ExpiryGate(v, Run(v, Update(v, t, i).t, steps).t, next);
  }

  // ---- Changing the control address ----

  // All or nothing: either no tunnel state changes, or the channel is replaced by the one just
  // registered and all three send timers and both UDP timestamps are cleared.
  lemma AllOrNothing(v: Variant, t: Tunnel, c: H.Connected, auth: H.AuthInput)
    ensures var r, h := UpdateControlAddr(v, t, c, auth), H.Authenticate(v, c, auth);
            && (r.changed <==> c.addr != t.controlAddr && h.result.Authenticated?)
            && (if !r.changed then r.t == t else
                 && r.t.controlAddr == c.addr
                 && r.t.control == Channel(c.addr, None, c.pong, false, h.result.registered, h.result.buff)
                 && r.t.lastPing == r.t.lastKeepAlive == r.t.lastUdpAuth == 0
                 && r.t.udp.lastSend == r.t.udp.lastConfirm == 0
                 && r.t.udp.details == t.udp.details && r.t.udp.history == t.udp.history
                 && r.t.udp.hasUdp6 == t.udp.hasUdp6 && r.t.lastPong == t.lastPong && r.t.targets == t.targets)
            && r.events == (if c.addr == t.controlAddr then [] else [Registering(c.addr, h.registrations)])
                           + (if r.changed then [Installed(h.result.registered.id), Moved(c.addr), Invalidated] else [])
  {
    hide H.Authenticate;
  }

  // Setup succeeds if and only if the IPv4 socket opens, the routing API answers, a channel is found
  // and it registers; IPv6 is optional. What it yields is that channel with nothing sent yet.
  lemma SetupOutcome(v: Variant, i: SetupInput)
    ensures var found := H.FindSuitableChannel(v, i.addresses.GetOr([]), i.probes);
            var ready := i.udp4 && i.addresses.Some? && found.Found?;
            && (Setup(v, i).Some? <==> ready && H.Authenticate(v, found.connected, i.auth).result.Authenticated?)
            && (Setup(v, i).Some? ==>
                  var c, h := found.connected, H.Authenticate(v, found.connected, i.auth).result;
                  Setup(v, i).value == Tunnel(c.addr, Channel(c.addr, None, c.pong, false, h.registered, h.buff),
                                              Udp(i.udp6, None, [], 0, 0), 0, 0, 0, 0, []))
  {
    hide H.Authenticate;
    hide H.FindSuitableChannel;
  }

  // Reloading changes the address if and only if the routing API answers, no earlier target has
  // disappeared, and the first of the new targets to answer is another address and registers. The
  // targets are replaced whenever one of them answers.
  lemma ReloadPicksFirst(v: Variant, t: Tunnel, i: ReloadInput)
    ensures var r, addresses := ReloadControlAddr(v, t, i), i.addresses.GetOr([]);
            var found := H.FindSuitableChannel(v, addresses, i.probes);
            var answered := i.addresses.Some? && (forall a :: a in t.targets ==> a in addresses) && found.Found?;
            && (r.changed <==> answered && found.connected.addr != t.controlAddr
                               && H.Authenticate(v, found.connected, i.auth).result.Authenticated?)
            && r.t.targets == (if answered then addresses else t.targets)
            && (answered ==> found.index < |addresses| && found.connected.addr == addresses[found.index])
            && if r.changed then r.t.controlAddr == found.connected.addr else r.t.(targets := t.targets) == t
  {
    hide H.Authenticate;
    hide H.FindSuitableChannel;
    H.ChannelFound(v, i.addresses.GetOr([]), i.probes);
  }

  // The last two events are a ping and a UDP setup request to the address, in this session.
  predicate EndsWithFreshRequests(events: seq<Event>, now: u64, addr: AddrPort, c: Channel) {
    var n := |events|;
    && n >= 2
    && events[n - 2].Requested? && events[n - 1].Requested?
    && events[n - 2].at == events[n - 1].at == now && events[n - 2].to == events[n - 1].to == addr
    && var (ping, setup) := (events[n - 2].message, events[n - 1].message);
       && ping.requestId == 200 && setup.requestId == 9000
       && ping.content.ping == Some(Ping(ToI64(now), c.currentPing, Some(c.registered.id)))
       && ping.content == ControlRequest(ping.content.ping, None, None, None, None)
       && setup.content == ControlRequest(None, None, None, Some(c.registered.id), None)
  }

  // A step of a run of the program itself.
  predicate OfTheAgent(step: Step) { step.UpdateStep? || step.ReloadStep? || step.MoveStep? }

  lemma QuietStep(v: Variant, t: Tunnel, step: Step)
    requires OfTheAgent(step) && (step.UpdateStep? ==> !Reaches(v, t, step.update))
    requires Moves(Next(v, t, step).events) == 0
    ensures Next(v, t, step).t.(targets := t.targets) == t
  {
    hide Update;
    hide Reaches;
    hide UpdateControlAddr;
    hide H.FindSuitableChannel;
    match step {
      case UpdateStep(i) => StoppedUpdate(v, t, i);
      case ReloadStep(r) =>
        var found := H.FindSuitableChannel(v, r.addresses.GetOr([]), r.probes);
        if found.Found? {
          ChangeMoves(v, t, found.connected, r.auth);
        }
      case MoveStep(c, auth) => ChangeMoves(v, t, c, auth);
    }
  }

  lemma ChangeMoves(v: Variant, t: Tunnel, c: H.Connected, auth: H.AuthInput)
    ensures var r := UpdateControlAddr(v, t, c, auth); if r.changed then Moves(r.events) > 0 else r.t == t
  {
    hide H.Authenticate;
    var r := UpdateControlAddr(v, t, c, auth);
    if r.changed {
      MovedCounts(r.events, 2);
    }
  }

  // Until an Update gets past its expiry check or the address changes, the program's own steps
  // change nothing but the targets.
  lemma {:induction false} QuietRun(v: Variant, t: Tunnel, steps: seq<Step>)
    requires NoneReaches(v, t, steps) && forall s :: s in steps ==> OfTheAgent(s)
    requires Moves(Run(v, t, steps).events) == 0
    ensures Run(v, t, steps).t.(targets := t.targets) == t
    decreases steps
  {
    hide Next;
    hide Reaches;
    if steps != [] {
      var first := Next(v, t, steps[0]);
      PingsConcat(first.events, Run(v, first.t, steps[1..]).events);
      QuietStep(v, t, steps[0]);
      QuietRun(v, first.t, steps[1..]);
    }
  }

  // A change takes effect at once: the first Update after it that gets past the expiry check, with
  // the clocks beyond their first 5 seconds, pings the new address and asks it to set up UDP,
  // however many Updates fail and reloads change nothing in between.
  lemma ChangeTakesEffect(v: Variant, t: Tunnel, c: H.Connected, auth: H.AuthInput, steps: seq<Step>, i: UpdateInput)
    requires i.now > 5000 && NowSec(i.authClock) > 5 && forall s :: s in steps ==> OfTheAgent(s)
    ensures var r := UpdateControlAddr(v, t, c, auth);
            var t1 := Run(v, r.t, steps).t;
            r.changed && NoneReaches(v, r.t, steps) && Moves(Run(v, r.t, steps).events) == 0 && Reaches(v, t1, i) ==>
              EndsWithFreshRequests(Update(v, t1, i).events, i.now, c.addr, Renewed(v, t1, i).control)
  {
    hide UpdateControlAddr;
    hide H.Authenticate;
    hide Run;
    hide Reaches;
    hide EndsWithFreshRequests;
    AllOrNothing(v, t, c, auth);
    var r := UpdateControlAddr(v, t, c, auth);
    var t1 := Run(v, r.t, steps).t;
    if r.changed && NoneReaches(v, r.t, steps) && Moves(Run(v, r.t, steps).events) == 0 && Reaches(v, t1, i) {
      QuietRun(v, r.t, steps);
      FreshUpdate(v, t1, i);
    }
  }

  lemma FreshUpdate(v: Variant, t: Tunnel, i: UpdateInput)
    requires t.lastPing == t.lastUdpAuth == 0 && t.udp.lastSend == t.udp.lastConfirm == 0
    requires Reaches(v, t, i) && i.now > 5000 && NowSec(i.authClock) > 5
    ensures EndsWithFreshRequests(Update(v, t, i).events, i.now, t.control.addr, Renewed(v, t, i).control)
  {
    hide Update;
    hide Proceed;
    hide H.Authenticate;
    ExpiryGate(v, t, i);
    RenewedKeeps(v, t, i);
    var p := Proceed(v, Renewed(v, t, i), i);
    FreshProceed(v, Renewed(v, t, i), i);
    assert Update(v, t, i).events[|Update(v, t, i).events| - |p.events|..] == p.events;
    EndsLater(Update(v, t, i).events, p.events, i.now, t.control.addr, Renewed(v, t, i).control);
  }

  lemma EndsLater(events: seq<Event>, tail: seq<Event>, now: u64, addr: AddrPort, c: Channel)
    requires EndsWithFreshRequests(tail, now, addr, c)
    requires |tail| <= |events| && events[|events| - |tail|..] == tail
    ensures EndsWithFreshRequests(events, now, addr, c)
  {
    var n, m := |events|, |tail|;
    assert events[n - 2] == events[n - m..][m - 2] && events[n - 1] == events[n - m..][m - 1];
  }

  lemma RenewedKeeps(v: Variant, t: Tunnel, i: UpdateInput)
    ensures var t1 := Renewed(v, t, i); t1.control.addr == t.control.addr && t1.(control := t.control) == t
  {
    hide H.Authenticate;
  }

  lemma FreshProceed(v: Variant, t: Tunnel, i: UpdateInput)
    requires t.lastPing == t.lastUdpAuth == 0 && t.udp.lastSend == t.udp.lastConfirm == 0
    requires i.now > 5000 && NowSec(i.authClock) > 5
    ensures EndsWithFreshRequests(Proceed(v, t, i).events, i.now, t.control.addr, t.control)
  {
    hide EncodeRequest;
    hide FeedLoop;
    hide ResendPhase;
    hide KeepAlivePhase;
  }

  // ---- What is unreachable as long as the clock agrees with itself ----

  // Both timestamps unset, nothing known of the relay and no pong awaited.
  predicate Idle(t: Tunnel) {
    t.udp.lastSend == t.udp.lastConfirm == 0 && t.udp.details.None? && t.udp.history == [] && t.lastPong == 0
  }

  // From such a tunnel, resending, keeping alive and receiving are entered exactly when the two
  // samples of the seconds clock inside one Update fall on either side of a gap.
  lemma BranchEntered(t: Tunnel, i: UpdateInput)
    requires t.udp.lastSend == t.udp.lastConfirm == 0
    ensures !RequiresAuth(t.udp, i.authClock) && RequireResend(t.udp, i.resendClock)
       <==> NowSec(i.authClock) <= 5 && NowSec(i.resendClock) > 10
  {}

  // A run of the program itself, whose Updates see one value of the seconds clock each.
  predicate AsRunByTheAgent(step: Step) {
    match step
    case UpdateStep(i) => NowSec(i.authClock) == NowSec(i.resendClock)
    case ReloadStep(_) => true
    case MoveStep(_, _) => true
    case _ => false
  }

  // Registrations, address changes, pings and UDP setup requests.
  predicate Plain(e: Event) {
    match e
    case Requested(_, _, m) => m.requestId == PING || m.requestId == SETUP
    case Registering(_, _) => true
    case Installed(_) => true
    case Moved(_) => true
    case Invalidated => true
    case _ => false
  }

  lemma ProceedIdle(v: Variant, t: Tunnel, i: UpdateInput)
    requires Idle(t) && NowSec(i.authClock) == NowSec(i.resendClock)
    ensures var u := Proceed(v, t, i); Idle(u.t) && forall e :: e in u.events ==> Plain(e)
  {
    hide EncodeRequest;
    hide FeedLoop;
    hide ResendPhase;
    hide KeepAlivePhase;
    BranchEntered(t, i);
  }

  lemma UpdateIdle(v: Variant, t: Tunnel, i: UpdateInput)
    requires Idle(t) && NowSec(i.authClock) == NowSec(i.resendClock)
    ensures var u := Update(v, t, i); Idle(u.t) && forall e :: e in u.events ==> Plain(e)
  {
    hide Proceed;
    hide H.Authenticate;
    if Reaches(v, t, i) {
      RenewedKeeps(v, t, i);
      ProceedIdle(v, Renewed(v, t, i), i);
    }
  }

  lemma MoveIdle(v: Variant, t: Tunnel, c: H.Connected, auth: H.AuthInput)
    requires Idle(t)
    ensures var r := UpdateControlAddr(v, t, c, auth); Idle(r.t) && forall e :: e in r.events ==> Plain(e)
  {
    hide H.Authenticate;
  }

  lemma StepIdle(v: Variant, t: Tunnel, step: Step)
    requires Idle(t) && AsRunByTheAgent(step)
    ensures var o := Next(v, t, step); Idle(o.t) && forall e :: e in o.events ==> Plain(e)
  {
    hide Update;
    hide UpdateControlAddr;
    hide H.FindSuitableChannel;
    match step {
      case UpdateStep(i) => UpdateIdle(v, t, i);
      case ReloadStep(i) =>
        var found := H.FindSuitableChannel(v, i.addresses.GetOr([]), i.probes);
        if found.Found? {
          MoveIdle(v, t, found.connected, i.auth);
        }
      case MoveStep(c, auth) => MoveIdle(v, t, c, auth);
    }
  }

  // Then a run from such a tunnel, and every initial one is, never resends a token, never keeps the
  // session alive and never reads the feed: it registers, pings and asks for UDP to be set up, and the
  // UDP session stays unset.
  lemma {:induction false} NeverEstablished(v: Variant, t: Tunnel, steps: seq<Step>)
    requires Idle(t) && forall s :: s in steps ==> AsRunByTheAgent(s)
    ensures var r := Run(v, t, steps); Idle(r.t) && forall e :: e in r.events ==> Plain(e)
    decreases steps
  {
    hide Next;
    if steps != [] {
      StepIdle(v, t, steps[0]);
      NeverEstablished(v, Next(v, t, steps[0]).t, steps[1..]);
    }
  }

  // As written the keep-alive compares timestamps: it goes out only while the present time or the
  // expiry lies in the first 30 seconds of the epoch.
  lemma KeepAliveCondition(t: Tunnel, now: u64)
    ensures KeepAlivePhase(t, now).events != []
       <==> Past(now, t.lastKeepAlive, 10000)
            && (now < 30000 || 0 <= t.control.registered.expiresAt < 30000)
  {
    hide EncodeRequest;
  }

  // The receive loop looks at 30 reads at most.
  lemma {:induction false} FeedBudget(v: Variant, t: Tunnel, a: seq<FeedInput>, b: seq<FeedInput>, i: nat, timeout: nat)
    requires i <= FEED_READS && forall k :: i <= k < FEED_READS ==> NthFeed(a, k) == NthFeed(b, k)
    ensures FeedLoop(v, t, a, i, timeout) == FeedLoop(v, t, b, i, timeout)
    decreases FEED_READS - i
  {
    hide FeedStep;
    if i < FEED_READS && timeout < FEED_TIMEOUTS {
      var f := FeedStep(v, t, NthFeed(a, i));
      assert NthFeed(a, i) == NthFeed(b, i);
      FeedBudget(v, f.out.t, a, b, i + 1, if f.failed then timeout + 1 else timeout);
    }
  }

  // How many of the next n passes fail.
  function Failures(v: Variant, t: Tunnel, feeds: seq<FeedInput>, i: nat, n: nat): nat
    decreases n
  {
    if n == 0 then 0 else
      var f := FeedStep(v, t, NthFeed(feeds, i));
      (if f.failed then 1 else 0) + Failures(v, f.out.t, feeds, i + 1, n - 1)
  }

  // The tenth failure, of whatever kind and whatever came between, ends the receive loop: what
  // would arrive afterwards is not looked at.
  lemma {:induction false} FeedGivesUp(v: Variant, t: Tunnel, a: seq<FeedInput>, b: seq<FeedInput>,
                                       i: nat, timeout: nat, n: nat)
    requires i + n <= FEED_READS && forall k :: i <= k < i + n ==> NthFeed(a, k) == NthFeed(b, k)
    ensures timeout + Failures(v, t, a, i, n) >= FEED_TIMEOUTS ==>
              FeedLoop(v, t, a, i, timeout) == FeedLoop(v, t, b, i, timeout)
    decreases n
  {
    hide FeedStep;
    hide NthFeed;
    if n > 0 && timeout < FEED_TIMEOUTS {
      var f := FeedStep(v, t, NthFeed(a, i));
      assert NthFeed(a, i) == NthFeed(b, i);
      FeedGivesUp(v, f.out.t, a, b, i + 1, if f.failed then timeout + 1 else timeout, n - 1);
    }
  }

  // And if nothing is received, nothing happens.
  lemma {:induction false} FeedSilent(v: Variant, t: Tunnel, feeds: seq<FeedInput>, i: nat, timeout: nat)
    requires i <= FEED_READS && timeout <= FEED_TIMEOUTS
    requires forall k :: i <= k < Min(FEED_READS, i + (FEED_TIMEOUTS - timeout)) ==> !NthFeed(feeds, k).read.Received?
    ensures FeedLoop(v, t, feeds, i, timeout).1.Nothing? && FeedLoop(v, t, feeds, i, timeout).0.events == []
    decreases FEED_READS - i
  {
    hide FeedStep;
    hide NthFeed;
    if i < FEED_READS && timeout < FEED_TIMEOUTS {
      var f := FeedStep(v, t, NthFeed(feeds, i));
      NothingReceived(v, t, NthFeed(feeds, i));
      FeedSilent(v, f.out.t, feeds, i + 1, timeout + 1);
    }
  }

  lemma NothingReceived(v: Variant, t: Tunnel, f: FeedInput)
    requires !f.read.Received?
    ensures FeedStep(v, t, f).failed && FeedStep(v, t, f).result.Nothing? && FeedStep(v, t, f).out.events == []
  {}

  // A pass fails exactly when no feed is decoded, or when it brings details that are not in force
  // and whose address needs an IPv6 socket that is missing.
  lemma WhatFails(v: Variant, t: Tunnel, f: FeedInput)
    ensures var feed := RecFeedMsg(v, t.control, f.read, f.decoded).feed;
            FeedStep(v, t, f).failed <==>
              || feed.None?
              || (&& feed.value.newClient.None? && feed.value.response.Some?
                  && var details := feed.value.response.value.content.udpChannelDetails;
                     details.Some? && details != t.udp.details && !details.value.tunnelAddr.addr.Ip4? && !t.udp.hasUdp6)
  {
    hide RecFeedMsg;
  }
}
