// tunnel/udp_tunnel.go: the relay's UDP session, its two 32-bit timestamps and its data path.
module UdpTunnels {
  import opened Bytes
  import opened BigInt
  import opened ControlMessage
  import opened UdpProto
  import opened Events

  // The state of a UdpTunnel whose IPv4 socket is open, flattened to a value.
  datatype Udp = Udp(hasUdp6: bool, details: Option<UdpChannelDetails>, history: seq<AddrPort>,
                     lastConfirm: u32, lastSend: u32)

  function Fresh(hasUdp6: bool): Udp { Udp(hasUdp6, None, [], 0, 0) }

  // Milliseconds are cut to 32 bits before they become seconds.
  function NowSec(ms: u64): u32 { ms % 0x1_0000_0000 / 1000 }

  predicate RequireResend(u: Udp, clock: u64) { 10 < Sub32(NowSec(clock), u.lastConfirm) }

  predicate RequiresAuth(u: Udp, clock: u64) {
    if u.lastSend < u.lastConfirm then false else 5 < Sub32(NowSec(clock), u.lastSend)
  }

  datatype Stepped = Stepped(udp: Udp, events: seq<Event>, ok: bool)

  function Invalidate(u: Udp): Stepped { Stepped(u.(lastConfirm := 0, lastSend := 0), [Invalidated], true) }

  function SendToken(u: Udp, d: UdpChannelDetails, clock: u64): Stepped {
    if !d.tunnelAddr.addr.Ip4? && !u.hasUdp6 then Stepped(u, [], false) else
      Stepped(u.(lastSend := NowSec(clock)), [TokenSent(clock, d.tunnelAddr, d.token)], true)
  }

  // What the lock's copy is meant to write back. As written nothing is, and details never change.
  function Store(v: Variant, u: Udp, d: UdpChannelDetails): (r: (Udp, seq<Event>)) {
    match v
    case AsWritten => (u, [Discarded(d)])
    case Repaired =>
      var history := if u.details.Some? && u.details.value.tunnelAddr != d.tunnelAddr
                     then u.history + [u.details.value.tunnelAddr] else u.history;
      (u.(details := Some(d), history := history), [Stored(d)])
  }

  function SetUdpTunnel(v: Variant, u: Udp, d: UdpChannelDetails, clock: u64): Stepped {
    if u.details.Some? && u.details.value.token == d.token && u.details.value.tunnelAddr == d.tunnelAddr
    then Stepped(u, [], true)
    else
      var (u, stored) := Store(v, u, d);
      var s := SendToken(u, d, clock);
      s.(events := stored + s.events)
  }

  function ResendToken(u: Udp, clock: u64): Stepped {
    match u.details
    case None => Stepped(u, [], false)
    case Some(d) => SendToken(u, d, clock)
  }

  datatype Refusal = NotConnected | NoIpv6 | ReadError | OtherSource | NoFooter | UnexpectedEstablish | NilFlow

  datatype Rx = Confirming | Packet(bytes: u64, flow: UdpFlow) | Refused(reason: Refusal)

  datatype Reception = Reception(udp: Udp, buff: seq<byte>, rx: Rx, events: seq<Event>)

  // GetSock: the tunnel address, or why there is no socket for it.
  function Sock(u: Udp): Option<Refusal> {
    if u.details.None? then Some(NotConnected)
    else if !u.details.value.tunnelAddr.addr.Ip4? && !u.hasUdp6 then Some(NoIpv6)
    else None
  }

  function Send(u: Udp, data: seq<byte>, flow: UdpFlow): Option<(AddrPort, seq<byte>)>
    requires flow.IsSet()
  {
    if Sock(u).Some? then None else Some((u.details.value.tunnelAddr, data + flow.Encode()))
  }

  // As written the footer is looked for behind the datagram, in what the buffer held before.
  function Extract(v: Variant, buff: Slice, size: nat): Rx
    requires size <= |buff|
  {
    match FromTailUdpFlow(v, if v == AsWritten then buff[size..] else buff[..size])
    case Found(flow) => Packet(Sub64(size, flow.Len()), flow)
    case Short(_) => Refused(NoFooter)
    case Unknown(footer) =>
      // As written this result carries no error and the nil flow is dereferenced.
      if v == AsWritten then Refused(NilFlow)
      else if footer == UDP_CHANNEL_ESTABLISH_ID then Refused(UnexpectedEstablish)
      else Refused(NoFooter)
  }

  function ReceiveFrom(v: Variant, u: Udp, buff: Slice, read: NetRead, clock: u64): Reception {
    if Sock(u).Some? then Reception(u, buff, Refused(Sock(u).value), [])
    else if !read.Received? then Reception(u, buff, Refused(ReadError), [])
    else
      var size, filled := Min(|buff|, |read.data|), Fill(buff, read.data);
      if read.from != u.details.value.tunnelAddr && read.from !in u.history
      then Reception(u, filled, Refused(OtherSource), [])
      else if filled[..size] == u.details.value.token
      then
        Reception(u.(lastConfirm := NowSec(clock)), filled, Confirming, [Confirmed(clock, read.from, filled[..size])])
      else Reception(u, filled, Extract(v, filled, size), [])
  }

  class UdpTunnel {
    var Udp6: bool
    var Details: Option<UdpChannelDetails>
    var AddrHistory: seq<AddrPort>
    var LastConfirm: u32
    var LastSend: u32

    function State(): Udp
      reads this
    {
      Udp(Udp6, Details, AddrHistory, LastConfirm, LastSend)
    }

    // AssignUdpTunnel once the IPv4 socket is open; IPv6 is optional.
    constructor (udp6: bool)
      ensures State() == Fresh(udp6)
    {
      Udp6, Details, AddrHistory, LastConfirm, LastSend := udp6, None, [], 0, 0;
    }

    method InvalidateSession() returns (ghost events: seq<Event>)
      modifies this
      ensures Stepped(State(), events, true) == Invalidate(old(State()))
    {
      LastConfirm := 0;
      LastSend := 0;
      events := [Invalidated];
    }

    method SendTokenTo(d: UdpChannelDetails, clock: u64) returns (ok: bool, ghost events: seq<Event>)
      modifies this
      ensures Stepped(State(), events, ok) == SendToken(old(State()), d, clock)
    {
      if !d.tunnelAddr.addr.Ip4? && !Udp6 {
        return false, [];
      }
      LastSend := NowSec(clock);
      return true, [TokenSent(clock, d.tunnelAddr, d.token)];
    }

    method Set(v: Variant, d: UdpChannelDetails, clock: u64) returns (ok: bool, ghost events: seq<Event>)
      modifies this
      ensures Stepped(State(), events, ok) == SetUdpTunnel(v, old(State()), d, clock)
    {
      var udp, history := Details, AddrHistory;
      if udp.Some? {
        var current := udp.value;
        if current.token == d.token && current.tunnelAddr == d.tunnelAddr {
          return true, [];
        }
        if current.tunnelAddr != d.tunnelAddr {
          history := history + [current.tunnelAddr];
        }
      }
      ghost var stored := [Discarded(d)];
      if v == Repaired {
        Details, AddrHistory := Some(d), history;
        stored := [Stored(d)];
      }
      ok, events := SendTokenTo(d, clock);
      events := stored + events;
    }

    method Resend(clock: u64) returns (ok: bool, ghost events: seq<Event>)
      modifies this
      ensures Stepped(State(), events, ok) == ResendToken(old(State()), clock)
    {
      if Details.None? {
        return false, [];
      }
      ok, events := SendTokenTo(Details.value, clock);
    }

    method SendData(data: seq<byte>, flow: UdpFlow) returns (sent: Option<(AddrPort, seq<byte>)>)
      requires flow.IsSet()
      ensures sent == Send(State(), data, flow)
    {
      var buff := new Buffer([]);
      flow.WriteTo(buff);
      assert buff.data == flow.Encode();
      if Sock(State()).Some? {
        return None;
      }
      return Some((Details.value.tunnelAddr, data + buff.data));
    }

    method Receive(v: Variant, buff: array<byte>, read: NetRead, clock: u64) returns (rx: Rx, ghost events: seq<Event>)
      requires buff.Length < 0x8000_0000_0000_0000
      modifies this, buff
      ensures Reception(State(), buff[..], rx, events) == ReceiveFrom(v, old(State()), old(buff[..]), read, clock)
    {
      events := [];
      if Sock(State()).Some? {
        return Refused(Sock(State()).value), [];
      } else if !read.Received? {
        return Refused(ReadError), [];
      }
      var tunnelAddr, token := Details.value.tunnelAddr, Details.value.token;
      var size := Min(buff.Length, |read.data|);
      for k := 0 to size
        invariant buff[..k] == read.data[..k]
        invariant buff[k..] == old(buff[..])[k..]
        modifies buff
      {
        assert buff[k..][1..] == buff[k + 1..];
        assert old(buff[..])[k..][1..] == old(buff[..])[k + 1..];
        buff[k] := read.data[k];
      }
      assert buff[..] == buff[..size] + buff[size..];
      ghost var filled := Fill(old(buff[..]), read.data);
      assert buff[..] == filled;
      assert buff[..size] == filled[..size];
      if tunnelAddr != read.from && read.from !in AddrHistory {
        return Refused(OtherSource), [];
      }
      if buff[..size] == token {
        LastConfirm := NowSec(clock);
        return Confirming, [Confirmed(clock, read.from, filled[..size])];
      }
      rx := Extract(v, buff[..], size);
    }
  }

  // The 32-bit clock: from a confirmation at ms a to a check at ms b the wrap can only cause
  // a resend that was not needed.
  lemma WrapOnlyResends(u: Udp, a: u64, b: u64)
    requires u.lastConfirm == NowSec(a) && a <= b <= a + 0x1_0000_0000 - 1000
    ensures !RequireResend(u, b) ==> b - a < 11000 && a / 0x1_0000_0000 == b / 0x1_0000_0000
    ensures RequireResend(u, b) ==> b - a > 10000 || a / 0x1_0000_0000 < b / 0x1_0000_0000
  {
    var m := 0x1_0000_0000;
    var ra, rb := a % m, b % m;
    assert a / m == b / m || a / m + 1 == b / m;
    if a / m == b / m {
      assert rb - ra == b - a;
      SecondsApart(ra, rb);
    } else {
      assert rb <= ra - 1000;
      SecondsWrap(ra, rb);
    }
  }

  lemma SecondsApart(a: u32, b: u32)
    requires a <= b
    ensures if 10 < Sub32(b / 1000, a / 1000) then b - a > 10000 else b - a < 11000
  {}

  lemma SecondsWrap(a: u32, b: u32)
    requires b <= a - 1000
    ensures 10 < Sub32(b / 1000, a / 1000)
  {
    assert 0 < a / 1000 - b / 1000 < 0x100_0000;
  }

  // Inside one window of the clock, with no timestamp ahead of it, authorisation is not required
  // exactly when a confirmation second lies after the last send second or the last send is at most
  // 5 seconds old; a timestamp of 0 stands for none.
  lemma AuthInWindow(u: Udp, clock: u64)
    requires u.lastSend <= NowSec(clock)
    ensures !RequiresAuth(u, clock) <==> u.lastConfirm > u.lastSend || NowSec(clock) - u.lastSend <= 5
  {}

  function CurrentAddr(u: Udp): Option<AddrPort> {
    match u.details
    case None => None
    case Some(d) => Some(d.tunnelAddr)
  }

  // Every address the session has had, oldest first.
  function Known(u: Udp): seq<AddrPort> {
    match u.details
    case None => u.history
    case Some(d) => u.history + [d.tunnelAddr]
  }

  // A sequence without the elements that repeat their predecessor.
  function Dedup(s: seq<AddrPort>): seq<AddrPort> {
    if |s| <= 1 then s
    else if s[|s| - 1] == s[|s| - 2] then Dedup(s[..|s| - 1])
    else Dedup(s[..|s| - 1]) + [s[|s| - 1]]
  }

  lemma {:induction false} DedupLast(s: seq<AddrPort>)
    requires s != []
    ensures Dedup(s) != [] && Dedup(s)[|Dedup(s)| - 1] == s[|s| - 1]
    ensures forall a :: a in Dedup(s) <==> a in s
  {
    if |s| > 1 {
      DedupLast(s[..|s| - 1]);
      assert s == s[..|s| - 1] + [s[|s| - 1]];
    }
  }

  datatype Supply = Supply(details: UdpChannelDetails, clock: u64)

  function SetAll(v: Variant, u: Udp, supplies: seq<Supply>): Udp {
    if supplies == [] then u else
      var n := |supplies| - 1;
      SetUdpTunnel(v, SetAll(v, u, supplies[..n]), supplies[n].details, supplies[n].clock).udp
  }

  function Addrs(supplies: seq<Supply>): (r: seq<AddrPort>)
    ensures |r| == |supplies|
  {
    seq(|supplies|, i requires 0 <= i < |supplies| => supplies[i].details.tunnelAddr)
  }

  lemma SetKnown(u: Udp, d: UdpChannelDetails, clock: u64)
    ensures var u' := SetUdpTunnel(Repaired, u, d, clock).udp;
            && CurrentAddr(u') == Some(d.tunnelAddr)
            && Known(u') == if CurrentAddr(u) == Some(d.tunnelAddr) then Known(u) else Known(u) + [d.tunnelAddr]
  {}

  // Appending an element, unless it repeats the last one, keeps a sequence deduplicated.
  lemma DedupAppend(s: seq<AddrPort>, a: AddrPort)
    ensures Dedup(s + [a]) == if s != [] && s[|s| - 1] == a then Dedup(s) else Dedup(s) + [a]
  {
    assert (s + [a])[..|s|] == s;
  }

  // u remembers the supplied addresses s: all of them, consecutive duplicates removed, and the last.
  predicate Tracks(u: Udp, s: seq<AddrPort>) {
    Known(u) == Dedup(s) && CurrentAddr(u) == if s == [] then None else Some(s[|s| - 1])
  }

  lemma TracksNext(u: Udp, s: seq<AddrPort>, d: UdpChannelDetails, clock: u64)
    requires Tracks(u, s)
    ensures Tracks(SetUdpTunnel(Repaired, u, d, clock).udp, s + [d.tunnelAddr])
  {
    SetKnown(u, d, clock);
    DedupAppend(s, d.tunnelAddr);
  }

  lemma TracksNone(hasUdp6: bool)
    ensures Tracks(Fresh(hasUdp6), [])
  {}

  // The address history is the sequence of addresses supplied, consecutive duplicates removed.
  lemma {:induction false} HistoryIsDedup(hasUdp6: bool, supplies: seq<Supply>)
    ensures Tracks(SetAll(Repaired, Fresh(hasUdp6), supplies), Addrs(supplies))
  {
    hide SetUdpTunnel;
    hide Dedup;
    if supplies == [] {
      TracksNone(hasUdp6);
    } else {
      var n := |supplies| - 1;
      HistoryIsDedup(hasUdp6, supplies[..n]);
      var last := supplies[n];
      TracksNext(SetAll(Repaired, Fresh(hasUdp6), supplies[..n]), Addrs(supplies[..n]), last.details, last.clock);
      assert Addrs(supplies) == Addrs(supplies[..n]) + [supplies[n].details.tunnelAddr];
    }
  }

  // Datagrams pass the source check from exactly the addresses that were supplied.
  lemma SourceCheck(hasUdp6: bool, supplies: seq<Supply>, buff: Slice, from: AddrPort, data: seq<byte>, clock: u64)
    requires supplies != []
    ensures var u := SetAll(Repaired, Fresh(hasUdp6), supplies);
            Sock(u).None? ==>
              (ReceiveFrom(Repaired, u, buff, Received(from, data), clock).rx == Refused(OtherSource)
               <==> from !in Addrs(supplies))
  {
    HistoryIsDedup(hasUdp6, supplies);
    DedupLast(Addrs(supplies));
    var u := SetAll(Repaired, Fresh(hasUdp6), supplies);
    KnownMember(u, from);
  }

  // Details equal to those in force change nothing and send nothing; any others are stored.
  lemma SetIdempotent(v: Variant, u: Udp, d: UdpChannelDetails, clock: u64)
    ensures u.details == Some(d) ==> SetUdpTunnel(v, u, d, clock) == Stepped(u, [], true)
    ensures SetUdpTunnel(Repaired, u, d, clock).udp.details == Some(d)
    ensures SetUdpTunnel(AsWritten, u, d, clock).udp.details == u.details
  {}

  // As written no session is ever established: the details stay nil, so nothing is received,
  // nothing confirmed and no payload sent, whatever is supplied.
  lemma {:induction false} NeverConnectedAsWritten(hasUdp6: bool, supplies: seq<Supply>,
                                                   buff: Slice, read: NetRead, clock: u64)
    ensures var u := SetAll(AsWritten, Fresh(hasUdp6), supplies);
            && u.details.None? && u.lastConfirm == 0 && u.history == []
            && ReceiveFrom(AsWritten, u, buff, read, clock) == Reception(u, buff, Refused(NotConnected), [])
            && ResendToken(u, clock) == Stepped(u, [], false)
  {
    if supplies != [] {
      NeverConnectedAsWritten(hasUdp6, supplies[..|supplies| - 1], buff, read, clock);
    }
  }

  // A datagram that passes the source check and is not the token is searched for a footer.
  lemma PassedOn(u: Udp, buff: Slice, from: AddrPort, data: seq<byte>, clock: u64)
    requires Sock(u).None? && from in Known(u) && |data| <= |buff| && data != u.details.value.token
    ensures var filled := Fill(buff, data);
            ReceiveFrom(Repaired, u, buff, Received(from, data), clock)
            == Reception(u, filled, Extract(Repaired, filled, |data|), [])
  {
    assert Fill(buff, data)[..|data|] == data;
    KnownMember(u, from);
  }

  // Whether there is a socket: there are details, and if their address is not IPv4, one for IPv6.
  predicate Connected(u: Udp) { u.details.Some? && (u.details.value.tunnelAddr.addr.Ip4? || u.hasUdp6) }

  // Why nothing is sent or received without one, and nothing from a stranger.
  lemma Refusals(v: Variant, u: Udp, buff: Slice, read: NetRead, clock: u64, p: seq<byte>, f: UdpFlow)
    requires f.IsSet()
    ensures Send(u, p, f).Some? <==> Connected(u)
    ensures var r := ReceiveFrom(v, u, buff, read, clock);
            && (u.details.None? ==> r == Reception(u, buff, Refused(NotConnected), []))
            && (u.details.Some? && !Connected(u) ==> r == Reception(u, buff, Refused(NoIpv6), []))
            && (Connected(u) && !read.Received? ==> r == Reception(u, buff, Refused(ReadError), []))
            && (Connected(u) && read.Received? && read.from !in Known(u) ==>
                  r == Reception(u, Fill(buff, read.data), Refused(OtherSource), []))
  {
    hide Extract;
    KnownMember(u, read.GetFrom());
  }

  // What a datagram from a known address, cut to the buffer, makes: the token confirms; one that ends
  // in no known footer is refused, as unexpected if it ends like an establish packet; any other is a
  // packet of its flow, without the footer.
  lemma Understood(u: Udp, buff: Slice, from: AddrPort, data: seq<byte>, clock: u64)
    requires Connected(u) && from in Known(u)
    ensures var n, filled := Min(|buff|, |data|), Fill(buff, data);
            ReceiveFrom(Repaired, u, buff, Received(from, data), clock)
            == if data[..n] == u.details.value.token then
                 Reception(u.(lastConfirm := clock % 0x1_0000_0000 / 1000), filled, Confirming,
                           [Confirmed(clock, from, data[..n])])
               else Reception(u, filled, match FromTailUdpFlow(Repaired, data[..n])
                                         case Found(flow) => Packet(n - flow.Len(), flow)
                                         case Short(_) => Refused(NoFooter)
                                         case Unknown(0xd01fe6830ddce781) => Refused(UnexpectedEstablish)
                                         case Unknown(_) => Refused(NoFooter), [])
  {
    hide FromTailUdpFlow;
    var n := Min(|buff|, |data|);
    assert Fill(buff, data)[..n] == data[..n];
    KnownMember(u, from);
    match FromTailUdpFlow(Repaired, data[..n]) {
      case Found(flow) => FoundFits(data[..n], flow);
      case _ =>
    }
  }

  lemma FoundFits(slice: seq<byte>, f: UdpFlow)
    requires FromTailUdpFlow(Repaired, slice) == Found(f)
    ensures f.Len() <= |slice|
  {
    Forth(slice, f);
  }

  // The data path end to end: what Send builds for payload p and flow f, received from a
  // permitted address into a buffer that holds it, and unlike the token, is delivered as p and f.
  lemma DataPath(sender: Udp, u: Udp, p: seq<byte>, f: UdpFlow, buff: Slice, from: AddrPort, clock: u64)
    requires f.IsSet() && f.IsOneFamily() && Sock(sender).None? && Sock(u).None?
    requires from in Known(u)
    requires |p| + f.Len() <= |buff| && p + f.Encode() != u.details.value.token
    ensures var datagram := Send(sender, p, f).value.1;
            var r := ReceiveFrom(Repaired, u, buff, Received(from, datagram), clock);
            && Send(sender, p, f).value.0 == sender.details.value.tunnelAddr
            && r.udp == u && r.rx == Packet(|p|, f.Reduced())
            && r.buff[..|p|] == p && r.buff[|p| + f.Len()..] == buff[|p| + f.Len()..]
  {
    var e := f.Encode();
    PassedOn(u, buff, from, p + e, clock);
    FilledParts(buff, p, e);
    Delivered(Fill(buff, p + e), p, f);
  }

  lemma Delivered(filled: Slice, p: seq<byte>, f: UdpFlow)
    requires f.IsSet() && f.IsOneFamily()
    requires |p| + f.Len() <= |filled| && filled[..|p| + f.Len()] == p + f.Encode()
    ensures Extract(Repaired, filled, |p| + f.Len()) == Packet(|p|, f.Reduced())
  {
    var t := p + f.Encode();
    Back(p, f);
    Extracted(filled, |t|, f.Reduced());
  }

  lemma Extracted(filled: Slice, size: nat, f: UdpFlow)
    requires f.Len() <= size <= |filled| && FromTailUdpFlow(Repaired, filled[..size]) == Found(f)
    ensures Extract(Repaired, filled, size) == Packet(size - f.Len(), f)
  {}

  lemma FilledParts(buff: seq<byte>, p: seq<byte>, e: seq<byte>)
    requires |p + e| <= |buff|
    ensures var filled := Fill(buff, p + e);
            filled[..|p + e|] == p + e && filled[..|p|] == p && filled[|p + e|..] == buff[|p + e|..]
  {}

  lemma KnownMember(u: Udp, from: AddrPort)
    ensures from in Known(u) <==> from in u.history || Some(from) == CurrentAddr(u)
  {}

  // As written, were a session ever connected, the flow would be looked for in what the caller's
  // buffer held behind the datagram beforehand.
  lemma ExtractedFromBehind(u: Udp, buff: Slice, from: AddrPort, data: seq<byte>, clock: u64)
    requires |data| <= |buff| && (u.details.Some? ==> data != u.details.value.token)
    requires Sock(u).None? && from in Known(u)
    ensures ReceiveFrom(AsWritten, u, buff, Received(from, data), clock)
         == Reception(u, Fill(buff, data),
                      match FromTailUdpFlow(AsWritten, buff[|data|..])
                      case Found(flow) => Packet(Sub64(|data|, flow.Len()), flow)
                      case Short(_) => Refused(NoFooter)
                      case Unknown(_) => Refused(NilFlow), [])
  {
    hide FromTailUdpFlow;
    assert Fill(buff, data)[..|data|] == data && Fill(buff, data)[|data|..] == buff[|data|..];
    KnownMember(u, from);
  }

  // So the data path holds as written exactly when the buffer already held, behind the place the
  // datagram takes, something that parses to the flow sent.
  lemma DataPathAsWritten(sender: Udp, u: Udp, p: seq<byte>, f: UdpFlow, buff: Slice, from: AddrPort, clock: u64)
    requires f.IsSet() && f.IsOneFamily() && Sock(sender).None? && Sock(u).None?
    requires from in Known(u)
    requires |p| + f.Len() <= |buff| && p + f.Encode() != u.details.value.token
    ensures var datagram := Send(sender, p, f).value.1;
            ReceiveFrom(AsWritten, u, buff, Received(from, datagram), clock).rx == Packet(|p|, f.Reduced())
            <==> FromTailUdpFlow(AsWritten, buff[|p| + f.Len()..]) == Found(f.Reduced())
  {
    hide FromTailUdpFlow;
    hide ReceiveFrom;
    hide UdpFlow.Encode;
    hide UdpFlow.IsOneFamily;
    hide Known;
    var datagram := p + f.Encode();
    ExtractedFromBehind(u, buff, from, datagram, clock);
    assert |datagram| == |p| + f.Len() && f.Reduced().Len() == f.Len();
    assert Sub64(|datagram|, f.Len()) == |p|;
  }

  // As written datagrams of one length that are not the token have the same outcome, whatever they
  // contain; only the caller's buffer tells them apart.
  lemma PayloadIgnoredAsWritten(u: Udp, buff: Slice, from: AddrPort, d1: seq<byte>, d2: seq<byte>, clock: u64)
    requires |d1| == |d2| <= |buff|
    requires u.details.Some? ==> d1 != u.details.value.token && d2 != u.details.value.token
    ensures var r1 := ReceiveFrom(AsWritten, u, buff, Received(from, d1), clock);
            var r2 := ReceiveFrom(AsWritten, u, buff, Received(from, d2), clock);
            && r1.rx == r2.rx && r1.udp == r2.udp == u && r1.events == r2.events == []
            && r1.buff == (if Sock(u).Some? then buff else Fill(buff, d1))
            && r2.buff == (if Sock(u).Some? then buff else Fill(buff, d2))
  {
    var n := |d1|;
    assert Fill(buff, d1)[..n] == d1 && Fill(buff, d2)[..n] == d2;
    assert Fill(buff, d1)[n..] == buff[n..] == Fill(buff, d2)[n..];
  }
}
