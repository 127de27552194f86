// Whole runs of a tunnel, and what their record of events says about the state they reach.
module Runs {
  import opened Bytes
  import opened BigInt
  import opened Lib
  import opened ControlMessage
  import opened ControlFeeds
  import opened Events
  import opened UdpTunnels
  import opened Controls
  import opened SimplesTunnels
  import H = Handshakes

  // In the repository a run is made of Update and Reload steps only. The others let feed messages
  // and datagrams arrive outside Update, and the control address be changed directly.
  datatype Step =
    | UpdateStep(update: UpdateInput)
    | ReloadStep(reload: ReloadInput)
    | MoveStep(connected: H.Connected, auth: H.AuthInput)
    | FeedMessage(feed: FeedInput)
    | Datagram(buff: Slice, read: NetRead, clock: u64)

  function Next(v: Variant, t: Tunnel, step: Step): Out {
    match step
    case UpdateStep(i) => var u := Update(v, t, i); Out(u.t, u.events)
    case ReloadStep(i) => var r := ReloadControlAddr(v, t, i); Out(r.t, r.events)
    case MoveStep(c, auth) => var r := UpdateControlAddr(v, t, c, auth); Out(r.t, r.events)
    case FeedMessage(f) => FeedStep(v, t, f).out
    case Datagram(buff, read, clock) =>
      var r := ReceiveFrom(v, t.udp, buff, read, clock);
      Out(t.(udp := r.udp), r.events)
  }

  function Run(v: Variant, t: Tunnel, steps: seq<Step>): Out
    decreases steps
  {
    if steps == [] then Out(t, []) else
      var first := Next(v, t, steps[0]);
      var rest := Run(v, first.t, steps[1..]);
      Out(rest.t, first.events + rest.events)
  }

  // ---- What an observer of the events knows ----

  // sent and confirmed are the seconds of the last token sent and of the last confirmation, 0 if
  // there has been none since the session was invalidated; the last three are the stamps of the
  // last timer-gated sends of each kind, 0 if there has been none at this control address.
  datatype View = View(addr: AddrPort, id: AgentSessionId, details: Option<UdpChannelDetails>, known: seq<AddrPort>,
                       sent: u32, confirmed: u32, lastPing: u64, lastUdpAuth: u64, lastKeepAlive: u64)

  function Observe(t: Tunnel): View {
    View(t.controlAddr, t.control.registered.id, t.udp.details, Known(t.udp), t.udp.lastSend, t.udp.lastConfirm,
         t.lastPing, t.lastUdpAuth, t.lastKeepAlive)
  }

  // The request ids of the timer-gated sends.
  const PING: u64 := 200
  const SETUP: u64 := 9000
  const KEEP_ALIVE: u64 := 100
  // The setup request that goes with a keep-alive.
  const SETUP_AGAIN: u64 := 1

  function See(w: View, e: Event): View {
    match e
    case Installed(id) => w.(id := id)
    case Moved(a) => w.(addr := a, lastPing := 0, lastUdpAuth := 0, lastKeepAlive := 0)
    case Requested(at, _, m) =>
      if m.requestId == PING then w.(lastPing := at)
      else if m.requestId == SETUP then w.(lastUdpAuth := at)
      else if m.requestId == KEEP_ALIVE then w.(lastKeepAlive := at)
      else w
    case Resending(at) => w.(lastUdpAuth := at)
    case Stored(d) =>
      var same := w.details.Some? && w.details.value.tunnelAddr == d.tunnelAddr;
      w.(details := Some(d), known := if same then w.known else w.known + [d.tunnelAddr])
    case TokenSent(clock, _, _) => w.(sent := NowSec(clock))
    case Confirmed(clock, _, _) => w.(confirmed := NowSec(clock))
    case Invalidated => w.(sent := 0, confirmed := 0)
    case _ => w
  }

  // What the request ids stand for: a ping with the clock and the session, a UDP setup request or a
  // keep-alive for the session, and nothing beside it.
  predicate Proper(w: View, at: u64, m: Request) {
    var c := m.content;
    if m.requestId == PING then
      && c.ping.Some? && c == ControlRequest(c.ping, None, None, None, None)
      && c.ping.value.sessionId == Some(w.id)
      && c.ping.value.now == if at < 0x8000_0000_0000_0000 then at else at - 0x1_0000_0000_0000_0000
    else if m.requestId == SETUP || m.requestId == SETUP_AGAIN then
      c == ControlRequest(None, None, None, Some(w.id), None)
    else
      m.requestId == KEEP_ALIVE && c == ControlRequest(None, None, Some(w.id), None, None)
  }

  function SessionOf(r: ControlRequest): Option<AgentSessionId> {
    if r.ping.Some? then r.ping.value.sessionId
    else if r.agentKeepAlive.Some? then r.agentKeepAlive
    else r.setupUdpChannel
  }

  // The timer of a request has run out, by the subtraction that wraps.
  predicate Timely(w: View, at: u64, requestId: u64) {
    if requestId == PING then Past(at, w.lastPing, 1000)
    else if requestId == SETUP then Past(at, w.lastUdpAuth, 5000)
    else if requestId == KEEP_ALIVE then Past(at, w.lastKeepAlive, 10000)
    else true
  }

  // A request goes out in time, to the present address, as what its id stands for; a token
  // goes where it belongs; a confirmation is the token in force, from an address the session has had.
  // As written no details are ever stored.
  predicate Allowed(v: Variant, w: View, e: Event) {
    match e
    case Requested(at, a, m) =>
      a == w.addr && Proper(w, at, m) && Timely(w, at, m.requestId)
    case Resending(at) => Past(at, w.lastUdpAuth, 1000)
    case TokenSent(_, a, token) => v == Repaired ==> w.details == Some(UdpChannelDetails(a, token))
    case Stored(_) => v == Repaired
    case Discarded(_) => v == AsWritten
    case Confirmed(_, from, data) => w.details.Some? && data == w.details.value.token && from in w.known
    case _ => true
  }

  function SeeAll(w: View, es: seq<Event>): View
    decreases es
  {
    if es == [] then w else SeeAll(See(w, es[0]), es[1..])
  }

  predicate AllAllowed(v: Variant, w: View, es: seq<Event>)
    decreases es
  {
    es == [] || (Allowed(v, w, es[0]) && AllAllowed(v, See(w, es[0]), es[1..]))
  }

  lemma {:induction false} SeeConcat(v: Variant, w: View, a: seq<Event>, b: seq<Event>)
    ensures SeeAll(w, a + b) == SeeAll(SeeAll(w, a), b)
    ensures AllAllowed(v, w, a + b) <==> AllAllowed(v, w, a) && AllAllowed(v, SeeAll(w, a), b)
    decreases a
  {
    if a == [] {
      assert a + b == b;
    } else {
      assert (a + b)[0] == a[0] && (a + b)[1..] == a[1..] + b;
      SeeConcat(v, See(w, a[0]), a[1..], b);
    }
  }

  lemma {:induction false} AllowedAt(v: Variant, w: View, es: seq<Event>, k: nat)
    requires AllAllowed(v, w, es) && k < |es|
    ensures Allowed(v, SeeAll(w, es[..k]), es[k])
    decreases es
  {
    if k > 0 {
      AllowedAt(v, See(w, es[0]), es[1..], k - 1);
      assert es[..k][0] == es[0] && es[..k][1..] == es[1..][..k - 1];
    }
  }

  // The tunnel's own address and its channel's agree.
  predicate Coherent(t: Tunnel) { t.controlAddr == t.control.addr }

  // From a coherent tunnel the observer follows the state and never sees anything forbidden.
  predicate Followed(v: Variant, t: Tunnel, o: Out) {
    Coherent(t) ==> Coherent(o.t) && AllAllowed(v, Observe(t), o.events) && SeeAll(Observe(t), o.events) == Observe(o.t)
  }

  lemma FollowedThen(v: Variant, t: Tunnel, a: Out, b: Out)
    requires Followed(v, t, a) && Followed(v, a.t, b)
    ensures Followed(v, t, Out(b.t, a.events + b.events))
  {
    SeeConcat(v, Observe(t), a.events, b.events);
  }

  lemma FollowedOne(v: Variant, t: Tunnel, o: Out, e: Event)
    requires o.events == [e]
    requires Coherent(t) ==> Coherent(o.t) && Allowed(v, Observe(t), e) && See(Observe(t), e) == Observe(o.t)
    ensures Followed(v, t, o)
  {
    assert SeeAll(See(Observe(t), e), []) == See(Observe(t), e);
  }

  lemma FollowedSilent(v: Variant, t: Tunnel, t': Tunnel)
    requires Coherent(t) ==> Coherent(t') && Observe(t) == Observe(t')
    ensures Followed(v, t, Out(t', []))
  {}

  // ---- Every step is followed ----

  lemma PingFollowed(v: Variant, t: Tunnel, now: u64)
    ensures Followed(v, t, PingPhase(t, now))
  {
    hide EncodeRequest;
    var o := PingPhase(t, now);
    if o.events == [] {
      FollowedSilent(v, t, o.t);
    } else {
      FollowedOne(v, t, o, o.events[0]);
    }
  }

  lemma AuthFollowed(v: Variant, t: Tunnel, now: u64)
    ensures Followed(v, t, AuthPhase(t, now))
  {
    hide EncodeRequest;
    var o := AuthPhase(t, now);
    if o.events == [] {
      FollowedSilent(v, t, o.t);
    } else {
      FollowedOne(v, t, o, o.events[0]);
    }
  }

  lemma TokenFollowed(v: Variant, t: Tunnel, d: UdpChannelDetails, clock: u64)
    requires v == Repaired ==> t.udp.details == Some(d)
    ensures var s := SendToken(t.udp, d, clock);
            Followed(v, t, Out(t.(udp := s.udp), s.events))
  {
    var s := SendToken(t.udp, d, clock);
    if s.ok {
      FollowedOne(v, t, Out(t.(udp := s.udp), s.events), s.events[0]);
    } else {
      FollowedSilent(v, t, t.(udp := s.udp));
    }
  }

  lemma ResendFollowed(v: Variant, t: Tunnel, now: u64, clock: u64)
    ensures Followed(v, t, ResendPhase(t, now, clock))
  {
    var o := ResendPhase(t, now, clock);
    if o.events == [] {
      FollowedSilent(v, t, o.t);
    } else {
      var t1 := t.(lastUdpAuth := now);
      var s := ResendToken(t1.udp, clock);
      FollowedOne(v, t, Out(t1, [Resending(now)]), Resending(now));
      if t1.udp.details.Some? {
        TokenFollowed(v, t1, t1.udp.details.value, clock);
      } else {
        FollowedSilent(v, t1, t1);
      }
      FollowedThen(v, t, Out(t1, [Resending(now)]), Out(t1.(udp := s.udp), s.events));
    }
  }

  lemma KeepAliveFollowed(v: Variant, t: Tunnel, now: u64)
    ensures Followed(v, t, KeepAlivePhase(t, now))
  {
    hide EncodeRequest;
    var o := KeepAlivePhase(t, now);
    if o.events == [] {
      FollowedSilent(v, t, o.t);
    } else {
      FollowedOne(v, t, Out(o.t, [o.events[0]]), o.events[0]);
      FollowedOne(v, o.t, Out(o.t, [o.events[1]]), o.events[1]);
      FollowedThen(v, t, Out(o.t, [o.events[0]]), Out(o.t, [o.events[1]]));
      assert [o.events[0]] + [o.events[1]] == o.events;
    }
  }

  // Receiving a feed message leaves everything but the channel alone, and the channel's address.
  lemma ReceiveKeeps(v: Variant, c: Channel, read: NetRead, clock: u64)
    ensures var r := RecFeedMsg(v, c, read, clock);
            && r.channel.addr == c.addr && r.channel.forceExpired == c.forceExpired
            && (r.events == [Installed(r.channel.registered.id)]
                || (r.events == [] && r.channel.registered.id == c.registered.id))
  {
    hide ControlFeed.Parse;
  }

  lemma ReceiveFollowed(v: Variant, t: Tunnel, read: NetRead, clock: u64)
    ensures var r := RecFeedMsg(v, t.control, read, clock);
            Followed(v, t, Out(t.(control := r.channel), r.events))
  {
    ReceiveKeeps(v, t.control, read, clock);
    hide RecFeedMsg;
    var r := RecFeedMsg(v, t.control, read, clock);
    var o := Out(t.(control := r.channel), r.events);
    if r.events == [] {
      FollowedSilent(v, t, o.t);
    } else {
      FollowedOne(v, t, o, r.events[0]);
    }
  }

  lemma SetFollowed(v: Variant, t: Tunnel, d: UdpChannelDetails, clock: u64)
    ensures var s := SetUdpTunnel(v, t.udp, d, clock);
            Followed(v, t, Out(t.(udp := s.udp), s.events))
  {
    var s := SetUdpTunnel(v, t.udp, d, clock);
    if t.udp.details.Some? && t.udp.details.value == d {
      FollowedSilent(v, t, t.(udp := s.udp));
    } else {
      var (u, stored) := Store(v, t.udp, d);
      var o1 := Out(t.(udp := u), stored);
      FollowedOne(v, t, o1, stored[0]);
      TokenFollowed(v, o1.t, d, clock);
      var sent := SendToken(u, d, clock);
      FollowedThen(v, t, o1, Out(o1.t.(udp := sent.udp), sent.events));
    }
  }

  lemma ActFollowed(v: Variant, t: Tunnel, feed: ControlFeed, clock: u64)
    ensures Followed(v, t, Act(v, t, feed, clock).out)
  {
    if feed.newClient.None? && feed.response.Some? && feed.response.value.content.udpChannelDetails.Some? {
      SetFollowed(v, t, feed.response.value.content.udpChannelDetails.value, clock);
    } else {
      FollowedSilent(v, t, Act(v, t, feed, clock).out.t);
    }
  }

  lemma FeedFollowed(v: Variant, t: Tunnel, f: FeedInput)
    ensures Followed(v, t, FeedStep(v, t, f).out)
  {
    hide RecFeedMsg;
    hide Act;
    var r := RecFeedMsg(v, t.control, f.read, f.decoded);
    var t1 := t.(control := r.channel);
    ReceiveFollowed(v, t, f.read, f.decoded);
    if r.feed.Some? {
      ActFollowed(v, t1, r.feed.value, f.acted);
      FollowedThen(v, t, Out(t1, r.events), Act(v, t1, r.feed.value, f.acted).out);
    }
  }

  lemma {:induction false} LoopFollowed(v: Variant, t: Tunnel, feeds: seq<FeedInput>, i: nat, timeout: nat)
    requires i <= FEED_READS
    ensures Followed(v, t, FeedLoop(v, t, feeds, i, timeout).0)
    decreases FEED_READS - i
  {
    hide FeedStep;
    if i == FEED_READS || timeout >= FEED_TIMEOUTS {
      FollowedSilent(v, t, t);
    } else {
      var f := FeedStep(v, t, NthFeed(feeds, i));
      FeedFollowed(v, t, NthFeed(feeds, i));
      if f.result.Nothing? {
        var timeout' := if f.failed then timeout + 1 else timeout;
        LoopFollowed(v, f.out.t, feeds, i + 1, timeout');
        FollowedThen(v, t, f.out, FeedLoop(v, f.out.t, feeds, i + 1, timeout').0);
      }
    }
  }

  lemma SessionFollowed(v: Variant, t: Tunnel, i: UpdateInput)
    ensures Followed(v, t, SessionPhase(v, t, i).0)
  {
    hide AuthPhase;
    hide ResendPhase;
    hide KeepAlivePhase;
    hide FeedLoop;
    if RequiresAuth(t.udp, i.authClock) {
      AuthFollowed(v, t, i.now);
    } else if RequireResend(t.udp, i.resendClock) {
      var s := ResendPhase(t, i.now, i.tokenClock);
      var k := KeepAlivePhase(s.t, i.now);
      ResendFollowed(v, t, i.now, i.tokenClock);
      KeepAliveFollowed(v, s.t, i.now);
      FollowedThen(v, t, s, k);
      LoopFollowed(v, k.t, i.feeds, 0, 0);
      FollowedThen(v, t, Out(k.t, s.events + k.events), FeedLoop(v, k.t, i.feeds, 0, 0).0);
    } else {
      FollowedSilent(v, t, t);
    }
  }

  lemma ProceedFollowed(v: Variant, t: Tunnel, i: UpdateInput)
    ensures var u := Proceed(v, t, i); Followed(v, t, Out(u.t, u.events))
  {
    hide PingPhase;
    hide SessionPhase;
    var p := PingPhase(t, i.now);
    var s := SessionPhase(v, p.t, i).0;
    PingFollowed(v, t, i.now);
    SessionFollowed(v, p.t, i);
    FollowedThen(v, t, p, s);
  }

  lemma ReauthFollowed(v: Variant, t: Tunnel, auth: H.AuthInput)
    ensures var a := Reauthenticate(v, t.control, auth);
            Followed(v, t, Out(t.(control := a.channel), a.events))
  {
    hide H.Authenticate;
    var a := Reauthenticate(v, t.control, auth);
    FollowedOne(v, t, Out(t, [a.events[0]]), a.events[0]);
    if a.ok {
      var o := Out(t.(control := a.channel), [a.events[1]]);
      FollowedOne(v, t, o, a.events[1]);
      FollowedThen(v, t, Out(t, [a.events[0]]), o);
      assert [a.events[0]] + [a.events[1]] == a.events;
    }
  }

  lemma UpdateFollowed(v: Variant, t: Tunnel, i: UpdateInput)
    ensures var u := Update(v, t, i); Followed(v, t, Out(u.t, u.events))
  {
    hide Proceed;
    hide Reauthenticate;
    if IsExpired(t.control) {
      var a := Reauthenticate(v, t.control, i.auth);
      ReauthFollowed(v, t, i.auth);
      FailedReauthKeeps(v, t.control, i.auth);
      if a.ok {
        var t1 := t.(control := a.channel);
        var u := Proceed(v, t1, i);
        ProceedFollowed(v, t1, i);
        FollowedThen(v, t, Out(t1, a.events), Out(u.t, u.events));
      }
    } else {
      ProceedFollowed(v, t, i);
    }
  }

  lemma FailedReauthKeeps(v: Variant, c: Channel, auth: H.AuthInput)
    ensures var a := Reauthenticate(v, c, auth); a.ok || a.channel == c
  {
    hide H.Authenticate;
  }

  lemma MoveFollowed(v: Variant, t: Tunnel, c: H.Connected, auth: H.AuthInput)
    ensures var r := UpdateControlAddr(v, t, c, auth); Followed(v, t, Out(r.t, r.events))
  {
    hide H.Authenticate;
    var r := UpdateControlAddr(v, t, c, auth);
    if r.events == [] {
      FollowedSilent(v, t, r.t);
    } else if |r.events| == 1 {
      FollowedOne(v, t, Out(r.t, r.events), r.events[0]);
    } else {
      var es := r.events;
      var t1 := t.(control := t.control.(registered := r.t.control.registered));
      var t2 := r.t.(udp := t.udp);
      FollowedOne(v, t, Out(t, [es[0]]), es[0]);
      FollowedOne(v, t, Out(t1, [es[1]]), es[1]);
      FollowedOne(v, t1, Out(t2, [es[2]]), es[2]);
      FollowedOne(v, t2, Out(r.t, [es[3]]), es[3]);
      FollowedThen(v, t, Out(t, [es[0]]), Out(t1, [es[1]]));
      FollowedThen(v, t, Out(t1, [es[0]] + [es[1]]), Out(t2, [es[2]]));
      FollowedThen(v, t, Out(t2, [es[0]] + [es[1]] + [es[2]]), Out(r.t, [es[3]]));
      assert es == [es[0]] + [es[1]] + [es[2]] + [es[3]];
    }
  }

  lemma NextFollowed(v: Variant, t: Tunnel, step: Step)
    ensures Followed(v, t, Next(v, t, step))
  {
    hide Update;
    hide UpdateControlAddr;
    hide FeedStep;
    hide Extract;
    match step
    case UpdateStep(i) => UpdateFollowed(v, t, i);
    case ReloadStep(i) =>
      hide H.FindSuitableChannel;
      var found := H.FindSuitableChannel(v, i.addresses.GetOr([]), i.probes);
      if found.Found? {
        MoveFollowed(v, t, found.connected, i.auth);
      }
      FollowedSilent(v, t, t);
    case MoveStep(c, auth) => MoveFollowed(v, t, c, auth);
    case FeedMessage(f) => FeedFollowed(v, t, f);
    case Datagram(buff, read, clock) =>
      var o := Next(v, t, step);
      if o.events == [] {
        FollowedSilent(v, t, o.t);
      } else {
        KnownMember(t.udp, read.from);
        FollowedOne(v, t, o, o.events[0]);
      }
  }

  // Over any run the state is exactly what the events say it is, and none of them is forbidden.
  lemma {:induction false} RunFollowed(v: Variant, t: Tunnel, steps: seq<Step>)
    ensures Followed(v, t, Run(v, t, steps))
    decreases steps
  {
    hide Next;
    if steps == [] {
      FollowedSilent(v, t, t);
    } else {
      var first := Next(v, t, steps[0]);
      NextFollowed(v, t, steps[0]);
      RunFollowed(v, first.t, steps[1..]);
      FollowedThen(v, t, first, Run(v, first.t, steps[1..]));
    }
  }
}
