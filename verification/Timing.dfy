// How often a tunnel sends: spacing and rate over whole runs.
module Timing {
  import opened Bytes
  import opened ControlFeeds
  import opened Events
  import opened UdpTunnels
  import opened Controls
  import opened SimplesTunnels
  import opened Runs
  import opened Sessions
  import H = Handshakes

  // ---- What the parts of an Update do to the timers ----

  predicate Stamped(e: Event) { e.Requested? || e.Resending? }

  predicate IsPing(e: Event) { e.Requested? && e.message.requestId == PING }

  predicate IsFeedEvent(e: Event) { e.Installed? || e.Stored? || e.Discarded? || e.TokenSent? }

  // Only feed events, no timer touched and nothing confirmed.
  predicate FeedOnly(t: Tunnel, o: Out) {
    && o.t.udp.lastConfirm == t.udp.lastConfirm
    && o.t.lastPing == t.lastPing && o.t.lastUdpAuth == t.lastUdpAuth && o.t.lastKeepAlive == t.lastKeepAlive
    && forall e :: e in o.events ==> IsFeedEvent(e)
  }

  lemma FeedStepOnly(v: Variant, t: Tunnel, f: FeedInput)
    ensures FeedOnly(t, FeedStep(v, t, f).out)
  {
    hide RecFeedMsg;
    hide Act;
    ReceiveKeeps(v, t.control, f.read, f.decoded);
    var r := RecFeedMsg(v, t.control, f.read, f.decoded);
    if r.feed.Some? {
      ActOnly(v, t.(control := r.channel), r.feed.value, f.acted);
    }
  }

  lemma ActOnly(v: Variant, t: Tunnel, feed: ControlFeed, clock: u64)
    ensures FeedOnly(t, Act(v, t, feed, clock).out)
  {}

  lemma {:induction false} LoopOnly(v: Variant, t: Tunnel, feeds: seq<FeedInput>, i: nat, timeout: nat)
    requires i <= FEED_READS
    ensures FeedOnly(t, FeedLoop(v, t, feeds, i, timeout).0)
    decreases FEED_READS - i
  {
    hide FeedStep;
    if i < FEED_READS && timeout < FEED_TIMEOUTS {
      var f := FeedStep(v, t, NthFeed(feeds, i));
      FeedStepOnly(v, t, NthFeed(feeds, i));
      if f.result.Nothing? {
        LoopOnly(v, f.out.t, feeds, i + 1, if f.failed then timeout + 1 else timeout);
      }
    }
  }

  // Everything is stamped with the sample of this Update, and nothing here is a ping or a move.
  predicate StampedNow(o: seq<Event>, now: u64) {
    forall e :: e in o ==> !e.Moved? && (Stamped(e) ==> e.at == now)
  }

  lemma SessionPings(v: Variant, t: Tunnel, i: UpdateInput)
    ensures var o := SessionPhase(v, t, i).0;
            NoPing(t, o, i.now)
  {
    hide FeedLoop;
    hide AuthPhase;
    hide ResendPhase;
    hide KeepAlivePhase;
    var s := ResendPhase(t, i.now, i.tokenClock);
    var k := KeepAlivePhase(s.t, i.now);
    GatedSends(t, i.now, i.tokenClock);
    GatedSends(s.t, i.now, i.tokenClock);
    LoopOnly(v, k.t, i.feeds, 0, 0);
  }

  predicate NoPing(t: Tunnel, o: Out, now: u64) {
    && o.t.lastPing == t.lastPing && o.t.udp.lastConfirm == t.udp.lastConfirm && StampedNow(o.events, now)
    && forall e :: e in o.events ==> !IsPing(e)
  }

  lemma GatedSends(t: Tunnel, now: u64, clock: u64)
    ensures NoPing(t, AuthPhase(t, now), now) && NoPing(t, ResendPhase(t, now, clock), now)
    ensures NoPing(t, KeepAlivePhase(t, now), now)
  {
    hide EncodeRequest;
  }

  // Update gets past the expiry check.
  predicate Reaches(v: Variant, t: Tunnel, i: UpdateInput) {
    Expired(t) ==> H.Authenticate(v, H.Connected(t.control.addr, t.control.lastPong), i.auth).result.Authenticated?
  }

  // Marked as expired, or its last pong carried no expiry.
  predicate Expired(t: Tunnel) { t.control.forceExpired || t.control.lastPong.sessionExpireAt.None? }

  function Count(p: Event -> bool, es: seq<Event>): nat
    decreases es
  {
    if es == [] then 0 else (if p(es[0]) then 1 else 0) + Count(p, es[1..])
  }

  lemma {:induction false} CountConcat(p: Event -> bool, a: seq<Event>, b: seq<Event>)
    ensures Count(p, a + b) == Count(p, a) + Count(p, b)
    decreases a
  {
    if a == [] {
      assert a + b == b;
    } else {
      assert (a + b)[0] == a[0] && (a + b)[1..] == a[1..] + b;
      CountConcat(p, a[1..], b);
    }
  }

  lemma {:induction false} CountNone(p: Event -> bool, es: seq<Event>)
    requires forall e :: e in es ==> !p(e)
    ensures Count(p, es) == 0
    decreases es
  {
    if es != [] {
      CountNone(p, es[1..]);
    }
  }

  function Pings(es: seq<Event>): nat { Count((e: Event) => IsPing(e), es) }

  function Moves(es: seq<Event>): nat { Count((e: Event) => e.Moved?, es) }

  lemma PingsConcat(a: seq<Event>, b: seq<Event>)
    ensures Pings(a + b) == Pings(a) + Pings(b) && Moves(a + b) == Moves(a) + Moves(b)
  {
    CountConcat((e: Event) => IsPing(e), a, b);
    CountConcat((e: Event) => e.Moved?, a, b);
  }

  lemma NoPings(es: seq<Event>)
    ensures (forall e :: e in es ==> !IsPing(e)) ==> Pings(es) == 0
    ensures (forall e :: e in es ==> !e.Moved?) ==> Moves(es) == 0
  {
    if forall e :: e in es ==> !IsPing(e) {
      CountNone((e: Event) => IsPing(e), es);
    }
    if forall e :: e in es ==> !e.Moved? {
      CountNone((e: Event) => e.Moved?, es);
    }
  }

  lemma ProceedPings(v: Variant, t: Tunnel, i: UpdateInput)
    ensures var u := Proceed(v, t, i);
            && StampedNow(u.events, i.now) && u.t.udp.lastConfirm == t.udp.lastConfirm
            && if Past(i.now, t.lastPing, 1000) then Pings(u.events) == 1 && u.t.lastPing == i.now
               else Pings(u.events) == 0 && u.t.lastPing == t.lastPing
  {
    hide SessionPhase;
    hide EncodeRequest;
    var p := PingPhase(t, i.now);
    var s := SessionPhase(v, p.t, i).0;
    SessionPings(v, p.t, i);
    NoPings(s.events);
    PingsConcat(p.events, s.events);
    if p.events != [] {
      assert p.events[1..] == [];
      assert Count((e: Event) => IsPing(e), p.events) == 1 + Count((e: Event) => IsPing(e), []);
    }
  }

  // An Update pings exactly when it gets past the expiry check and the wrapping difference
  // between its clock sample and the last ping exceeds a second.
  lemma UpdatePings(v: Variant, t: Tunnel, i: UpdateInput)
    ensures var u := Update(v, t, i);
            && StampedNow(u.events, i.now) && Moves(u.events) == 0 && u.t.udp.lastConfirm == t.udp.lastConfirm
            && if Reaches(v, t, i) && Past(i.now, t.lastPing, 1000) then Pings(u.events) == 1 && u.t.lastPing == i.now
               else Pings(u.events) == 0 && u.t.lastPing == t.lastPing
  {
    hide Proceed;
    hide H.Authenticate;
    if IsExpired(t.control) {
      var a := Reauthenticate(v, t.control, i.auth);
      NoPings(a.events);
      if a.ok {
        var t1 := t.(control := a.channel);
        ProceedPings(v, t1, i);
        PingsConcat(a.events, Proceed(v, t1, i).events);
      }
    } else {
      ProceedPings(v, t, i);
    }
    NoPings(Update(v, t, i).events);
  }

  predicate HasMove(es: seq<Event>) { exists k :: 0 <= k < |es| && es[k].Moved? }

  // Nothing is stamped, and the ping timer is cleared with the address changing.
  predicate Unstamped(t: Tunnel, o: Out) {
    && (forall e :: e in o.events ==> !Stamped(e))
    && o.t.lastPing == if HasMove(o.events) then 0 else t.lastPing
  }

  // The confirmation is cleared with the address changing.
  predicate Unconfirmed(t: Tunnel, o: Out) {
    o.t.udp.lastConfirm == if HasMove(o.events) then 0 else t.udp.lastConfirm
  }

  lemma MoveUnstamped(v: Variant, t: Tunnel, c: H.Connected, auth: H.AuthInput)
    ensures var r := UpdateControlAddr(v, t, c, auth);
            Unstamped(t, Out(r.t, r.events)) && Unconfirmed(t, Out(r.t, r.events))
  {
    hide H.Authenticate;
    var r := UpdateControlAddr(v, t, c, auth);
    if r.changed {
      assert r.events[2].Moved?;
    }
  }

  lemma ReloadUnstamped(v: Variant, t: Tunnel, i: ReloadInput)
    ensures var r := ReloadControlAddr(v, t, i);
            Unstamped(t, Out(r.t, r.events)) && Unconfirmed(t, Out(r.t, r.events))
  {
    hide H.FindSuitableChannel;
    hide UpdateControlAddr;
    var found := H.FindSuitableChannel(v, i.addresses.GetOr([]), i.probes);
    if found.Found? {
      MoveUnstamped(v, t, found.connected, i.auth);
    }
  }

  lemma DatagramUnstamped(v: Variant, t: Tunnel, buff: Slice, read: NetRead, clock: u64)
    ensures var r := ReceiveFrom(v, t.udp, buff, read, clock);
            Unstamped(t, Out(t.(udp := r.udp), r.events)) && !HasMove(r.events)
  {
    hide Extract;
  }

  // No other step sends anything timer-gated; a move clears the ping timer.
  lemma OtherPings(v: Variant, t: Tunnel, step: Step)
    requires !step.UpdateStep?
    ensures var o := Next(v, t, step);
            && (forall e :: e in o.events ==> !Stamped(e)) && Pings(o.events) == 0
            && o.t.lastPing == (if Moves(o.events) == 0 then t.lastPing else 0)
            && (step.Datagram? ==> Moves(o.events) == 0)
            && (!step.Datagram? ==> o.t.udp.lastConfirm == if Moves(o.events) == 0 then t.udp.lastConfirm else 0)
  {
    hide FeedStep;
    hide UpdateControlAddr;
    hide ReloadControlAddr;
    hide ReceiveFrom;
    var o := Next(v, t, step);
    match step {
      case ReloadStep(i) => ReloadUnstamped(v, t, i);
      case MoveStep(c, auth) => MoveUnstamped(v, t, c, auth);
      case FeedMessage(f) =>
        FeedStepOnly(v, t, f);
        assert forall k :: 0 <= k < |o.events| ==> o.events[k] in o.events;
      case Datagram(buff, read, clock) => DatagramUnstamped(v, t, buff, read, clock);
    }
    assert Unstamped(t, o) && (step.Datagram? || Unconfirmed(t, o));
    NoPings(o.events);
    if k :| 0 <= k < |o.events| && o.events[k].Moved? {
      MovedCounts(o.events, k);
    } else {
      assert forall e :: e in o.events ==> !e.Moved?;
    }
  }

  lemma {:induction false} MovedCounts(es: seq<Event>, k: nat)
    requires k < |es| && es[k].Moved?
    ensures Moves(es) > 0
    decreases es
  {
    if k > 0 {
      MovedCounts(es[1..], k - 1);
    }
  }

  // ---- Ping rate ----

  // Pings sent, ms the clock moved forward and steps it moved backward between the samples of the
  // Updates that got past the expiry check, and moves to another control address.
  datatype Tally = Tally(pings: nat, forward: nat, backward: nat, moves: nat)

  function Account(v: Variant, t: Tunnel, clock: u64, steps: seq<Step>): Tally
    decreases steps
  {
    if steps == [] then Tally(0, 0, 0, 0) else
      var o := Next(v, t, steps[0]);
      var now := if steps[0].UpdateStep? && Reaches(v, t, steps[0].update) then steps[0].update.now else clock;
      var rest := Account(v, o.t, now, steps[1..]);
      Tally(Pings(o.events) + rest.pings,
            (if now >= clock then now - clock else 0) + rest.forward,
            (if now < clock then 1 else 0) + rest.backward,
            Moves(o.events) + rest.moves)
  }

  // What a ping may still draw on: the time since the last one, up to 1001 ms; all of it when the
  // last ping lies ahead of the clock, because then the subtraction wraps.
  function Credit(lastPing: u64, clock: u64): nat {
    if lastPing > clock || clock - lastPing > 1001 then 1001 else clock - lastPing
  }

  // One Update: a ping is paid for by the clock moving forward 1001 ms since the last one, or by a
  // backward step that made the subtraction wrap.
  lemma PingPaid(lastPing: u64, clock: u64, now: u64)
    ensures var forward := if now >= clock then now - clock else 0;
            var backward := if now < clock then 1 else 0;
            (if Past(now, lastPing, 1000) then 1001 + Credit(now, now) else Credit(lastPing, now))
            <= forward + Credit(lastPing, clock) + 1001 * backward
  {}

  lemma {:induction false} RateFrom(v: Variant, t: Tunnel, clock: u64, steps: seq<Step>)
    ensures var a := Account(v, t, clock, steps);
            1001 * a.pings <= a.forward + Credit(t.lastPing, clock) + 1001 * (a.moves + a.backward)
    decreases steps
  {
    hide Next;
    hide Update;
    hide Reauthenticate;
    hide Pings;
    hide Moves;
    if steps != [] {
      var o := Next(v, t, steps[0]);
      var now := if steps[0].UpdateStep? && Reaches(v, t, steps[0].update) then steps[0].update.now else clock;
      RateFrom(v, o.t, now, steps[1..]);
      if steps[0].UpdateStep? {
        UpdateNext(v, t, steps[0].update);
        UpdatePings(v, t, steps[0].update);
        PingPaid(t.lastPing, clock, now);
      } else {
        OtherPings(v, t, steps[0]);
      }
    }
  }

  lemma UpdateNext(v: Variant, t: Tunnel, i: UpdateInput)
    ensures Next(v, t, UpdateStep(i)) == Out(Update(v, t, i).t, Update(v, t, i).events)
  {
    hide Update;
  }

  lemma {:induction false} AccountPings(v: Variant, t: Tunnel, clock: u64, steps: seq<Step>)
    ensures Account(v, t, clock, steps).pings == Pings(Run(v, t, steps).events)
    ensures Account(v, t, clock, steps).moves == Moves(Run(v, t, steps).events)
    decreases steps
  {
    hide Next;
    hide Reauthenticate;
    if steps != [] {
      var o := Next(v, t, steps[0]);
      var now := if steps[0].UpdateStep? && Reaches(v, t, steps[0].update) then steps[0].update.now else clock;
      AccountPings(v, o.t, now, steps[1..]);
      PingsConcat(o.events, Run(v, o.t, steps[1..]).events);
    }
  }

  // Ping rate: in any run from any state, with F ms of forward clock movement, r moves to another
  // control address and b backward clock steps, at most F / 1001 + 1 + r + b pings.
  lemma PingRate(v: Variant, t: Tunnel, clock: u64, steps: seq<Step>)
    ensures var a := Account(v, t, clock, steps);
            Pings(Run(v, t, steps).events) <= a.forward / 1001 + 1 + Moves(Run(v, t, steps).events) + a.backward
  {
    hide Run;
    hide Account;
    RateFrom(v, t, clock, steps);
    AccountPings(v, t, clock, steps);
  }

  // ---- Spacing ----

  // The clock samples of the Updates never go back, nor below floor.
  predicate Ordered(steps: seq<Step>, floor: u64)
    decreases steps
  {
    steps == [] ||
    if steps[0].UpdateStep? then floor <= steps[0].update.now && Ordered(steps[1..], steps[0].update.now)
    else Ordered(steps[1..], floor)
  }

  predicate StampsOrdered(es: seq<Event>, floor: u64) {
    && (forall k :: 0 <= k < |es| && Stamped(es[k]) ==> floor <= es[k].at)
    && (forall j, k :: 0 <= j < k < |es| && Stamped(es[j]) && Stamped(es[k]) ==> es[j].at <= es[k].at)
  }

  lemma StampsConcat(a: seq<Event>, b: seq<Event>, floor: u64, now: u64)
    requires floor <= now && StampedNow(a, now) && StampsOrdered(b, now)
    ensures StampsOrdered(a + b, floor)
  {
    var es := a + b;
    forall k | 0 <= k < |es| && Stamped(es[k]) ensures now <= es[k].at && (k < |a| ==> es[k].at == now) {
      if k < |a| {
        assert es[k] in a;
      } else {
        assert es[k] == b[k - |a|];
      }
    }
    forall j, k | 0 <= j < k < |es| && Stamped(es[j]) && Stamped(es[k]) ensures es[j].at <= es[k].at {
      if |a| <= j {
        assert es[j] == b[j - |a|] && es[k] == b[k - |a|];
      }
    }
  }

  lemma StampsSkip(a: seq<Event>, b: seq<Event>, floor: u64)
    requires (forall k :: 0 <= k < |a| ==> !Stamped(a[k])) && StampsOrdered(b, floor)
    ensures StampsOrdered(a + b, floor)
  {
    var es := a + b;
    assert forall k :: |a| <= k < |es| ==> es[k] == b[k - |a|];
  }

  lemma {:induction false} RunStamps(v: Variant, t: Tunnel, steps: seq<Step>, floor: u64)
    requires Ordered(steps, floor)
    ensures StampsOrdered(Run(v, t, steps).events, floor)
    decreases steps
  {
    hide Next;
    if steps != [] {
      var o := Next(v, t, steps[0]);
      if steps[0].UpdateStep? {
        UpdateNext(v, t, steps[0].update);
        UpdatePings(v, t, steps[0].update);
        RunStamps(v, o.t, steps[1..], steps[0].update.now);
        StampsConcat(o.events, Run(v, o.t, steps[1..]).events, floor, steps[0].update.now);
      } else {
        OtherPings(v, t, steps[0]);
        RunStamps(v, o.t, steps[1..], floor);
        StampsSkip(o.events, Run(v, o.t, steps[1..]).events, floor);
      }
    }
  }

  datatype Timer = PingTimer | AuthTimer | KeepAliveTimer

  // The UDP setup request and the gated resend share a timer.
  predicate Sets(timer: Timer, e: Event) {
    match timer
    case PingTimer => IsPing(e)
    case AuthTimer => e.Resending? || (e.Requested? && e.message.requestId == SETUP)
    case KeepAliveTimer => e.Requested? && e.message.requestId == KEEP_ALIVE
  }

  function TimerOf(timer: Timer, w: View): u64 {
    match timer
    case PingTimer => w.lastPing
    case AuthTimer => w.lastUdpAuth
    case KeepAliveTimer => w.lastKeepAlive
  }

  function Gap(e: Event): nat {
    if e.Resending? then 1000
    else if e.Requested? && e.message.requestId == PING then 1000
    else if e.Requested? && e.message.requestId == SETUP then 5000
    else 10000
  }

  // Once set, and unless the address changes, a timer holds the stamp of an event since.
  lemma {:induction false} TimerSetBy(timer: Timer, w: View, es: seq<Event>, j: nat) returns (m: nat)
    requires j < |es| && Sets(timer, es[j]) && forall k :: j < k < |es| ==> !es[k].Moved?
    ensures j <= m < |es| && Sets(timer, es[m]) && TimerOf(timer, SeeAll(w, es)) == es[m].at
    decreases |es|
  {
    var n := |es| - 1;
    SeeLast(w, es);
    if Sets(timer, es[n]) {
      m := n;
    } else {
      assert forall k :: 0 <= k < n ==> es[..n][k] == es[k];
      m := TimerSetBy(timer, w, es[..n], j);
    }
  }

  // Two sends on one timer with no change of address between them are further apart than the later
  // one's gap: 5000 ms for a UDP setup, 1000 ms for a gated resend or a ping, 10000 ms for a keep-alive.
  predicate Spaced(timer: Timer, es: seq<Event>) {
    forall j, k :: 0 <= j < k < |es| && Sets(timer, es[j]) && Sets(timer, es[k]) && NotMoved(es, j, k) ==>
      es[k].at - es[j].at > Gap(es[k])
  }

  predicate NotMoved(es: seq<Event>, j: nat, k: nat)
    requires j < k < |es|
  {
    forall m :: j < m < k ==> !es[m].Moved?
  }

  // Spacing: so it is in every run whose clock samples do not go back.
  lemma Spacing(v: Variant, t: Tunnel, steps: seq<Step>, timer: Timer)
    requires Coherent(t) && Ordered(steps, 0)
    ensures Spaced(timer, Run(v, t, steps).events)
  {
    hide Run;
    var es := Run(v, t, steps).events;
    RunFollowed(v, t, steps);
    RunStamps(v, t, steps, 0);
    forall j, k | 0 <= j < k < |es| && Sets(timer, es[j]) && Sets(timer, es[k]) && NotMoved(es, j, k)
      ensures es[k].at - es[j].at > Gap(es[k])
    {
      SpacedApart(v, Observe(t), es, timer, j, k);
    }
  }

  lemma SpacedApart(v: Variant, w: View, es: seq<Event>, timer: Timer, j: nat, k: nat)
    requires AllAllowed(v, w, es) && StampsOrdered(es, 0)
    requires j < k < |es| && Sets(timer, es[j]) && Sets(timer, es[k]) && NotMoved(es, j, k)
    ensures es[k].at - es[j].at > Gap(es[k])
  {
    hide Allowed;
    hide Sets;
    hide TimerOf;
    AllowedAt(v, w, es, k);
    assert forall m :: 0 <= m < k ==> es[..k][m] == es[m];
    var m := TimerSetBy(timer, w, es[..k], j);
    TimersStamped(timer, es[j]);
    TimersStamped(timer, es[m]);
    TimersStamped(timer, es[k]);
    assert es[j].at <= es[m].at <= es[k].at;
    AllowedGap(v, SeeAll(w, es[..k]), timer, es[k]);
  }

  lemma TimersStamped(timer: Timer, e: Event)
    requires Sets(timer, e)
    ensures Stamped(e)
  {}

  lemma AllowedGap(v: Variant, w: View, timer: Timer, e: Event)
    requires Allowed(v, w, e) && Sets(timer, e) && Stamped(e) && TimerOf(timer, w) <= e.at
    ensures e.at - TimerOf(timer, w) > Gap(e)
  {}
}
