// The network as the agent meets it, and the record of what the agent did.
module Events {
  import opened Bytes
  import opened BigInt
  import opened Lib
  import opened ControlMessage
  import opened ControlFeeds

  // The outcome of one read from a socket.
  datatype NetRead = TimedOut | ReadFailed | Received(from: AddrPort, data: seq<byte>) {
    function GetFrom(): AddrPort { if Received? then from else AddrPort(Unset, 0) }
  }

  // Beyond the behaviour that was supplied nothing arrives.
  function Nth(arrivals: seq<NetRead>, i: nat): NetRead { if i < |arrivals| then arrivals[i] else TimedOut }

  // A send succeeds unless the behaviour says otherwise.
  function SendOk(sends: seq<bool>, i: nat): bool { i < |sends| ==> sends[i] }

  // What a datagram leaves in a receive buffer; what does not fit is lost.
  function Fill(buff: seq<byte>, data: seq<byte>): (r: seq<byte>)
    ensures |r| == |buff|
  {
    var n := Min(|buff|, |data|);
    data[..n] + buff[n..]
  }

  datatype Event =
    | Registering(to: AddrPort, count: nat)
    | Installed(id: AgentSessionId)
    | Moved(moved: AddrPort)
    | Requested(at: u64, to: AddrPort, message: Request)
    | Resending(at: u64)
    | Stored(details: UdpChannelDetails)
    | Discarded(details: UdpChannelDetails)
    | TokenSent(clock: u64, to: AddrPort, token: Slice)
    | Confirmed(clock: u64, from: AddrPort, data: seq<byte>)
    | Invalidated
}
