// From a reply of the control server to a confirmed UDP session, across all the layers: with the
// repairs the protocol completes.
module Establishing {
  import opened Bytes
  import opened ControlMessage
  import opened ControlFeeds
  import opened Events
  import opened UdpTunnels
  import opened Controls
  import opened SimplesTunnels
  import opened Runs

  // The channel once a datagram has been received into its buffer.
  function Buffered(c: Channel, data: seq<byte>): Channel { c.(buff := Fill(c.buff + Zeros(1024), data)) }

  // A feed that its sender can write reaches the channel as it was meant, cut down to what the
  // writer chose, if the receive buffer holds it.
  lemma FeedDelivered(c: Channel, feed: ControlFeed, clock: u64)
    requires feed.Encode().Some? && |feed.Encode().value| <= |c.buff| + 1024
    requires feed.Survives(Repaired)
    ensures var data := feed.Encode().value;
            RecFeedMsg(Repaired, c, Received(c.addr, data), clock) == Absorb(Buffered(c, data), feed.Reduced(), clock)
  {
    hide ControlFeed.Parse;
    var data := feed.Encode().value;
    feed.Back(Repaired, []);
    assert data + [] == data;
    assert Fill(c.buff + Zeros(1024), data)[..|data|] == data;
  }

  function DetailsFeed(requestId: u64, d: UdpChannelDetails): ControlFeed {
    ControlFeed(Some(RpcMessage(requestId, ControlResponse.EMPTY.(udpChannelDetails := Some(d)))), None)
  }

  // The two steps: the control server sends the details, the relay sends the token back.
  function Exchanged(t: Tunnel, requestId: u64, d: UdpChannelDetails, decoded: u64, acted: u64,
                     buff: Slice, clock: u64): (steps: seq<Step>)
  {
    var data := DetailsFeed(requestId, d).Encode().value;
    [FeedMessage(FeedInput(Received(t.control.addr, data), decoded, acted)),
     Datagram(buff, Received(d.tunnelAddr, d.token), clock)]
  }

  lemma DetailsStored(t: Tunnel, requestId: u64, d: UdpChannelDetails, decoded: u64, acted: u64)
    requires d.tunnelAddr.IsValid() && |DetailsFeed(requestId, d).Encode().value| <= |t.control.buff| + 1024
    requires d.tunnelAddr.addr.Ip4? || t.udp.hasUdp6
    ensures var data := DetailsFeed(requestId, d).Encode().value;
            var o := FeedStep(Repaired, t, FeedInput(Received(t.control.addr, data), decoded, acted)).out;
            && o.t.control == Buffered(t.control, data)
            && o.t.(control := t.control, udp := t.udp) == t
            && o.t.udp.details == Some(d) && o.t.udp.hasUdp6 == t.udp.hasUdp6
            && if t.udp.details == Some(d) then o.events == [] && o.t.udp == t.udp
               else
                 && o.events == [Stored(d), TokenSent(acted, d.tunnelAddr, d.token)]
                 && o.t.udp.lastSend == NowSec(acted) && o.t.udp.lastConfirm == t.udp.lastConfirm
  {
    hide RecFeedMsg;
    var feed := DetailsFeed(requestId, d);
    FeedDelivered(t.control, feed, decoded);
    assert feed.Reduced() == feed;
  }

  lemma TokenReturned(u: Udp, d: UdpChannelDetails, buff: Slice, clock: u64)
    requires u.details == Some(d) && Sock(u).None? && |d.token| <= |buff|
    ensures var r := ReceiveFrom(Repaired, u, buff, Received(d.tunnelAddr, d.token), clock);
            && r.udp == u.(lastConfirm := NowSec(clock)) && r.rx == Confirming
            && r.events == [Confirmed(clock, d.tunnelAddr, d.token)]
  {
    hide Extract;
    assert Fill(buff, d.token)[..|d.token|] == d.token;
  }

  // From any state of the tunnel: when the control server's details and then the relay's token
  // arrive, the details are in force, the token was sent to the relay unless they already were, and
  // the session is confirmed. It needs no resend for the next 10 seconds inside the clock's window,
  // and no authorisation at any time if the confirmation is of a later second than the last token.
  lemma Established(t: Tunnel, requestId: u64, d: UdpChannelDetails, decoded: u64, acted: u64,
                    buff: Slice, clock: u64, later: u64)
    requires d.tunnelAddr.IsValid() && |DetailsFeed(requestId, d).Encode().value| <= |t.control.buff| + 1024
    requires d.tunnelAddr.addr.Ip4? || t.udp.hasUdp6
    requires |d.token| <= |buff|
    requires clock <= later && clock / 0x1_0000_0000 == later / 0x1_0000_0000
    ensures var r := Run(Repaired, t, Exchanged(t, requestId, d, decoded, acted, buff, clock));
            && r.t.udp.details == Some(d) && r.t.udp.lastConfirm == NowSec(clock)
            && r.events == (if t.udp.details == Some(d) then []
                            else [Stored(d), TokenSent(acted, d.tunnelAddr, d.token)])
                           + [Confirmed(clock, d.tunnelAddr, d.token)]
            && (later - clock <= 10000 ==> !RequireResend(r.t.udp, later))
            && (r.t.udp.lastSend < NowSec(clock) ==> forall b: u64 :: !RequiresAuth(r.t.udp, b))
            && (t.udp.details != Some(d) ==> r.t.udp.lastSend == NowSec(acted))
  {
    hide FeedStep;
    hide ReceiveFrom;
    hide DetailsFeed;
    hide ControlFeed.Encode;
    var steps := Exchanged(t, requestId, d, decoded, acted, buff, clock);
    DetailsStored(t, requestId, d, decoded, acted);
    var first := Next(Repaired, t, steps[0]);
    TokenReturned(first.t.udp, d, buff, clock);
    assert steps[1..] == [steps[1]] && [steps[1]][1..] == [];
    var second := Next(Repaired, first.t, steps[1]);
    assert Run(Repaired, second.t, []) == Out(second.t, []);
    assert second.events + [] == second.events;
    if later - clock <= 10000 {
      WrapOnlyResends(second.t.udp, clock, later);
    }
  }
}
