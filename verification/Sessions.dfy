// Safety of the control and UDP sessions over whole runs from Setup.
module Sessions {
  import opened Bytes
  import opened BigInt
  import opened Lib
  import opened ControlMessage
  import opened ControlFeeds
  import opened Events
  import opened UdpTunnels
  import opened Controls
  import opened SimplesTunnels
  import opened Runs
  import H = Handshakes

  function Last<T>(es: seq<T>): T
    requires es != []
  {
    es[|es| - 1]
  }

  function LastInstalled(id: AgentSessionId, es: seq<Event>): AgentSessionId {
    if es == [] then id else if Last(es).Installed? then Last(es).id else LastInstalled(id, es[..|es| - 1])
  }

  function LastMoved(addr: AddrPort, es: seq<Event>): AddrPort {
    if es == [] then addr else if Last(es).Moved? then Last(es).moved else LastMoved(addr, es[..|es| - 1])
  }

  lemma SeeLast(w: View, es: seq<Event>)
    requires es != []
    ensures SeeAll(w, es) == See(SeeAll(w, es[..|es| - 1]), Last(es))
  {
    var init := es[..|es| - 1];
    assert es == init + [Last(es)];
    SeeConcat(Repaired, w, init, [Last(es)]);
    assert SeeAll(See(SeeAll(w, init), Last(es)), []) == See(SeeAll(w, init), Last(es));
  }

  lemma {:induction false} ViewIsLast(w: View, es: seq<Event>)
    ensures SeeAll(w, es).id == LastInstalled(w.id, es) && SeeAll(w, es).addr == LastMoved(w.addr, es)
    decreases |es|
  {
    if es != [] {
      SeeLast(w, es);
      ViewIsLast(w, es[..|es| - 1]);
    }
  }

  // A tunnel with no timer set, no UDP session and no pong received.
  predicate Initial(t: Tunnel) {
    && Coherent(t) && t.udp == Fresh(t.udp.hasUdp6)
    && t.lastPing == t.lastKeepAlive == t.lastUdpAuth == t.lastPong == 0
  }

  // The theorems about runs from an initial tunnel apply to what Setup yields.
  lemma SetupInitial(v: Variant, i: SetupInput)
    ensures Setup(v, i).Some? ==> Initial(Setup(v, i).value) && !Setup(v, i).value.control.forceExpired
  {}

  // Session coherence: in every state the two control addresses agree, and every request of a run
  // goes to the address moved to last with the session installed last before it.
  lemma SessionCoherence(v: Variant, t: Tunnel, steps: seq<Step>, k: nat)
    requires Coherent(t)
    ensures var r := Run(v, t, steps);
            && r.t.controlAddr == r.t.control.addr
            && (k < |r.events| ==>
                  match r.events[k]
                  case Requested(_, a, m) =>
                    && a == LastMoved(t.controlAddr, r.events[..k])
                    && SessionOf(m.content) == Some(LastInstalled(t.control.registered.id, r.events[..k]))
                  case _ => true)
  {
    hide Run;
    var r := Run(v, t, steps);
    RunFollowed(v, t, steps);
    if k < |r.events| {
      AllowedAt(v, Observe(t), r.events, k);
      ViewIsLast(Observe(t), r.events[..k]);
    }
  }

  // What a run sends is understood: every request of a run can be written, and reading it back in
  // any stream yields it again and nothing more, except that the reader as written loses pings.
  lemma RequestsUnderstood(v: Variant, t: Tunnel, steps: seq<Step>, k: nat, reader: Variant, s: seq<byte>)
    requires Coherent(t)
    ensures var es := Run(v, t, steps).events;
            k < |es| && es[k].Requested? ==>
              var e := EncodeRequest(es[k].message);
              && e.Some?
              && (ParseRequest(reader, e.value + s) == Parsed(es[k].message, s)
                  <==> reader == Repaired || es[k].message.content.ping.None?)
  {
    hide Run;
    hide ParseRequest;
    var es := Run(v, t, steps).events;
    RunFollowed(v, t, steps);
    if k < |es| && es[k].Requested? {
      AllowedAt(v, Observe(t), es, k);
      RequestBack(reader, es[k].message, s);
    }
  }

  // Tokens were sent no later than clock, in its window of 2^32 ms.
  predicate SentBy(es: seq<Event>, clock: u64) {
    forall k :: 0 <= k < |es| && es[k].TokenSent? ==>
      es[k].clock <= clock && es[k].clock / 0x1_0000_0000 == clock / 0x1_0000_0000
  }

  lemma {:induction false} SentBound(w: View, es: seq<Event>, clock: u64)
    requires w.sent <= NowSec(clock) && SentBy(es, clock)
    ensures SeeAll(w, es).sent <= NowSec(clock)
    decreases |es|
  {
    if es != [] {
      var n := |es| - 1;
      SeeLast(w, es);
      assert forall j :: 0 <= j < n ==> es[..n][j] == es[j];
      SentBound(w, es[..n], clock);
      if es[n].TokenSent? {
        Monotone(es[n].clock, clock);
      }
    }
  }

  lemma Monotone(a: u64, b: u64)
    requires a <= b && a / 0x1_0000_0000 == b / 0x1_0000_0000
    ensures NowSec(a) <= NowSec(b)
  {}

  // Inside one window of the clock a session that needs no authorisation has been confirmed in a
  // later second than the last token was sent, or has sent one at most 5 seconds ago (0: none).
  lemma NoAuthNeeded(v: Variant, t: Tunnel, steps: seq<Step>, clock: u64)
    requires Initial(t)
    ensures var r := Run(v, t, steps);
            var w := SeeAll(Observe(t), r.events);
            SentBy(r.events, clock) ==>
              (!RequiresAuth(r.t.udp, clock) <==> w.confirmed > w.sent || NowSec(clock) - w.sent <= 5)
  {
    hide Run;
    var r := Run(v, t, steps);
    RunFollowed(v, t, steps);
    if SentBy(r.events, clock) {
      SentBound(Observe(t), r.events, clock);
      AuthInWindow(r.t.udp, clock);
    }
  }

  lemma {:induction false} NothingStored(w: View, es: seq<Event>)
    requires w.details.None? && w.confirmed == 0 && AllAllowed(AsWritten, w, es)
    ensures SeeAll(w, es).details.None? && SeeAll(w, es).confirmed == 0
    ensures forall e :: e in es ==> !e.Stored? && !e.Confirmed?
    decreases es
  {
    if es != [] {
      NothingStored(See(w, es[0]), es[1..]);
    }
  }

  // As written no run ever establishes or confirms a UDP session, whatever feed messages and
  // datagrams arrive.
  lemma NeverConfirmedAsWritten(t: Tunnel, steps: seq<Step>)
    requires Initial(t)
    ensures var r := Run(AsWritten, t, steps);
            && r.t.udp.details.None? && r.t.udp.lastConfirm == 0
            && forall e :: e in r.events ==> !e.Confirmed?
  {
    hide Run;
    RunFollowed(AsWritten, t, steps);
    NothingStored(Observe(t), Run(AsWritten, t, steps).events);
  }

  // Every token goes to the address of details that were supplied just before and discarded.
  predicate TokensSupplied(es: seq<Event>) {
    forall k :: 0 <= k < |es| && es[k].TokenSent? ==>
      k > 0 && es[k - 1] == Discarded(UdpChannelDetails(es[k].to, es[k].token))
  }

  // As long as there are no details nothing but a feed message makes a token go out.
  predicate Unsettled(o: Out) { o.t.udp.details.None? && TokensSupplied(o.events) }

  lemma TokensThen(t: Tunnel, a: seq<Event>, b: seq<Event>)
    requires t.udp.details.None? && TokensSupplied(a) && TokensSupplied(b)
    ensures Unsettled(Out(t, a + b))
  {
    forall k | 0 <= k < |a + b| && (a + b)[k].TokenSent?
      ensures k > 0 && (a + b)[k - 1] == Discarded(UdpChannelDetails((a + b)[k].to, (a + b)[k].token))
    {
      assert (a + b)[k] == if k < |a| then a[k] else b[k - |a|];
    }
  }

  lemma FeedUnsettled(t: Tunnel, f: FeedInput)
    requires t.udp.details.None?
    ensures Unsettled(FeedStep(AsWritten, t, f).out)
  {
    hide RecFeedMsg;
    hide Act;
    var r := RecFeedMsg(AsWritten, t.control, f.read, f.decoded);
    ReceiveKeeps(AsWritten, t.control, f.read, f.decoded);
    if r.feed.Some? {
      var a := Act(AsWritten, t.(control := r.channel), r.feed.value, f.acted).out;
      ActUnsettled(t.(control := r.channel), r.feed.value, f.acted);
      TokensThen(a.t, r.events, a.events);
    }
  }

  lemma ActUnsettled(t: Tunnel, feed: ControlFeed, clock: u64)
    requires t.udp.details.None?
    ensures Unsettled(Act(AsWritten, t, feed, clock).out)
  {}

  lemma {:induction false} LoopUnsettled(t: Tunnel, feeds: seq<FeedInput>, i: nat, timeout: nat)
    requires i <= FEED_READS && t.udp.details.None?
    ensures Unsettled(FeedLoop(AsWritten, t, feeds, i, timeout).0)
    decreases FEED_READS - i
  {
    hide FeedStep;
    if i < FEED_READS && timeout < FEED_TIMEOUTS {
      var f := FeedStep(AsWritten, t, NthFeed(feeds, i));
      FeedUnsettled(t, NthFeed(feeds, i));
      if f.result.Nothing? {
        var timeout' := if f.failed then timeout + 1 else timeout;
        LoopUnsettled(f.out.t, feeds, i + 1, timeout');
        var rest := FeedLoop(AsWritten, f.out.t, feeds, i + 1, timeout').0;
        TokensThen(rest.t, f.out.events, rest.events);
      }
    }
  }

  lemma SessionUnsettled(t: Tunnel, i: UpdateInput)
    requires t.udp.details.None?
    ensures Unsettled(SessionPhase(AsWritten, t, i).0)
  {
    hide FeedLoop;
    hide EncodeRequest;
    if !RequiresAuth(t.udp, i.authClock) && RequireResend(t.udp, i.resendClock) {
      var s := ResendPhase(t, i.now, i.tokenClock);
      var k := KeepAlivePhase(s.t, i.now);
      LoopUnsettled(k.t, i.feeds, 0, 0);
      var rest := FeedLoop(AsWritten, k.t, i.feeds, 0, 0).0;
      TokensThen(rest.t, s.events + k.events, rest.events);
    }
  }

  lemma UpdateUnsettled(t: Tunnel, i: UpdateInput)
    requires t.udp.details.None?
    ensures var u := Update(AsWritten, t, i); Unsettled(Out(u.t, u.events))
  {
    hide SessionPhase;
    hide PingPhase;
    hide Reauthenticate;
    var a := Reauthenticate(AsWritten, t.control, i.auth);
    RegistrationSends(AsWritten, t.control, i.auth);
    if !IsExpired(t.control) || a.ok {
      var t1 := if IsExpired(t.control) then t.(control := a.channel) else t;
      var p := PingPhase(t1, i.now);
      PingSends(t1, i.now);
      var s := SessionPhase(AsWritten, p.t, i).0;
      SessionUnsettled(p.t, i);
      TokensThen(s.t, p.events, s.events);
      TokensThen(s.t, a.events, p.events + s.events);
    }
  }

  lemma RegistrationSends(v: Variant, c: Channel, auth: H.AuthInput)
    ensures TokensSupplied(Reauthenticate(v, c, auth).events)
  {
    hide H.Authenticate;
  }

  lemma PingSends(t: Tunnel, now: u64)
    ensures TokensSupplied(PingPhase(t, now).events) && PingPhase(t, now).t.udp == t.udp
  {
    hide EncodeRequest;
  }

  lemma MoveUnsettled(t: Tunnel, c: H.Connected, auth: H.AuthInput)
    requires t.udp.details.None?
    ensures var r := UpdateControlAddr(AsWritten, t, c, auth); Unsettled(Out(r.t, r.events))
  {
    hide H.Authenticate;
  }

  lemma StepUnsettled(t: Tunnel, step: Step)
    requires t.udp.details.None?
    ensures Unsettled(Next(AsWritten, t, step))
  {
    hide Update;
    hide UpdateControlAddr;
    hide FeedStep;
    hide H.FindSuitableChannel;
    match step {
      case UpdateStep(i) => UpdateUnsettled(t, i);
      case ReloadStep(i) =>
        var found := H.FindSuitableChannel(AsWritten, i.addresses.GetOr([]), i.probes);
        if found.Found? {
          MoveUnsettled(t, found.connected, i.auth);
        }
      case MoveStep(c, auth) => MoveUnsettled(t, c, auth);
      case FeedMessage(f) => FeedUnsettled(t, f);
      case Datagram(_, _, _) =>
    }
  }

  // As written no token is ever resent: each one a run sends goes out once, with the token and to
  // the address of the details that have just been supplied and discarded.
  lemma {:induction false} TokensAsWritten(t: Tunnel, steps: seq<Step>)
    requires t.udp.details.None?
    ensures Unsettled(Run(AsWritten, t, steps))
    decreases steps
  {
    hide Next;
    if steps != [] {
      var first := Next(AsWritten, t, steps[0]);
      StepUnsettled(t, steps[0]);
      TokensAsWritten(first.t, steps[1..]);
      var rest := Run(AsWritten, first.t, steps[1..]);
      TokensThen(rest.t, first.events, rest.events);
    }
  }

  function StoredAddrs(es: seq<Event>): seq<AddrPort> {
    if es == [] then []
    else if Last(es).Stored? then StoredAddrs(es[..|es| - 1]) + [Last(es).details.tunnelAddr]
    else StoredAddrs(es[..|es| - 1])
  }

  // The view knows the addresses s: all of them without consecutive duplicates, and the last.
  predicate Remembers(w: View, s: seq<AddrPort>) {
    && w.known == Dedup(s)
    && if s == [] then w.details.None? else w.details.Some? && w.details.value.tunnelAddr == Last(s)
  }

  lemma RemembersNext(w: View, s: seq<AddrPort>, e: Event)
    requires Remembers(w, s)
    ensures Remembers(See(w, e), if e.Stored? then s + [e.details.tunnelAddr] else s)
  {
    if e.Stored? {
      DedupAppend(s, e.details.tunnelAddr);
    }
  }

  lemma {:induction false} KnownIsDedup(w: View, es: seq<Event>)
    requires Remembers(w, [])
    ensures Remembers(SeeAll(w, es), StoredAddrs(es))
    decreases |es|
  {
    hide Remembers;
    hide See;
    if es != [] {
      SeeLast(w, es);
      KnownIsDedup(w, es[..|es| - 1]);
      RemembersNext(SeeAll(w, es[..|es| - 1]), StoredAddrs(es[..|es| - 1]), Last(es));
    }
  }

  // Over any run the relay addresses that are accepted are those the run has stored, oldest first
  // with consecutive duplicates removed.
  lemma RunHistory(v: Variant, t: Tunnel, steps: seq<Step>)
    requires Initial(t)
    ensures var r := Run(v, t, steps); Known(r.t.udp) == Dedup(StoredAddrs(r.events))
  {
    hide Run;
    RunFollowed(v, t, steps);
    KnownIsDedup(Observe(t), Run(v, t, steps).events);
  }
}
