// tunnel/setup.go: finding a control server that answers, and registering with it.
module Handshakes {
  import opened Bytes
  import opened BigInt
  import opened ControlMessage
  import opened ControlFeeds
  import opened Events
  import opened Rounds

  // A ConnectedControl; its socket is the network behaviour a handshake is given.
  datatype Connected = Connected(addr: AddrPort, pong: Pong)

  // ---- Registration ----

  // NilResponse is a feed without a response. As written its RequestID is read first, so the
  // program stops there instead of reporting the missing response.
  datatype Reason = BadPong | NotSigned | SendError | ReadError | Undecodable | NilResponse | InvalidSignature
                  | Unauthorized | NoReply

  datatype RegisterEnd = Accepted(registered: AgentRegistered, size: nat) | Refused(reason: Reason)

  // The behaviour of the API (None: it fails, or its token is not hexadecimal) and of the network.
  datatype AuthInput = AuthInput(token: Option<seq<byte>>, sends: seq<bool>, arrivals: seq<NetRead>)

  datatype AuthResult = Authenticated(registered: AgentRegistered, buff: seq<byte>) | AuthFailed(reason: Reason)

  datatype Handshake = Handshake(result: AuthResult, registrations: nat, used: nat)

  const REGISTER_ROUNDS := 5
  const ROOM := 1024

  function Frame(token: seq<byte>): seq<byte> { BigEndian(8, 10) + token }

  function JudgeReply(v: Variant, addr: AddrPort, room: nat, read: NetRead): Verdict<RegisterEnd> {
    match read
    case TimedOut => EndRound
    case ReadFailed => Decide(Refused(ReadError))
    case Received(from, data) =>
      if from != addr then Skip else
        var size := Min(room, |data|);
        match ControlFeed.Parse(v, data[..size])
        case Rejected(_, _) => Decide(Refused(Undecodable))
        case Parsed(feed, _) =>
          if feed.response.None? then Decide(Refused(NilResponse))
          else if feed.response.value.requestId != 10 then Skip
          else
            var content := feed.response.value.content;
            if content.requestQueued then Skip
            else if content.invalidSignature then Decide(Refused(InvalidSignature))
            else if content.unauthorized then Decide(Refused(Unauthorized))
            else if content.agentRegistered.Some? then Decide(Accepted(content.agentRegistered.value, size))
            else Skip
  }

  function Replies(v: Variant, addr: AddrPort, room: nat, arrivals: seq<NetRead>): (vs: seq<Verdict<RegisterEnd>>)
    ensures |vs| == SLOTS * REGISTER_ROUNDS
  {
    seq(SLOTS * REGISTER_ROUNDS, i requires 0 <= i => JudgeReply(v, addr, room, Nth(arrivals, i)))
  }

  function Registration(v: Variant, addr: AddrPort, frame: seq<byte>, input: AuthInput): Exchange<RegisterEnd> {
    Play(REGISTER_ROUNDS, input.sends, Replies(v, addr, |frame| + ROOM, input.arrivals), 0, 0, 0)
  }

  // The receive buffer behind the accepted datagram becomes the channel's buffer.
  function Conclude(frame: seq<byte>, x: Exchange<RegisterEnd>): Handshake {
    var result := match x.end
                  case SendFailed => AuthFailed(SendError)
                  case Exhausted => AuthFailed(NoReply)
                  case Decided(Refused(reason)) => AuthFailed(reason)
                  case Decided(Accepted(registered, size)) =>
                    Authenticated(registered, (frame + Zeros(ROOM))[Min(size, |frame| + ROOM)..]);
    Handshake(result, x.sent, x.used)
  }

  function Authenticate(v: Variant, c: Connected, input: AuthInput): Handshake {
    if !c.pong.clientAddr.IsValid() || !c.pong.tunnelAddr.IsValid() then Handshake(AuthFailed(BadPong), 0, 0)
    else if input.token.None? then Handshake(AuthFailed(NotSigned), 0, 0)
    else
      var frame := Frame(input.token.value);
      Conclude(frame, Registration(v, c.addr, frame, input))
  }

  // One pass through the inner loop, from the read to its continue, break or return.
  method HandleReply(v: Variant, addr: AddrPort, reciver: nat, read: NetRead) returns (verdict: Verdict<RegisterEnd>)
    ensures verdict == JudgeReply(v, addr, reciver, read)
  {
    if read.TimedOut? {
      return EndRound;
    } else if read.ReadFailed? {
      return Decide(Refused(ReadError));
    } else if read.from != addr {
      return Skip;
    }
    var size := Min(reciver, |read.data|);
    var stream := new Buffer(read.data[..size]);
    var feed := ControlFeed.ReadFrom(v, stream);
    if feed.Failure? {
      return Decide(Refused(Undecodable));
    } else if feed.value.response.None? {
      return Decide(Refused(NilResponse));
    } else if feed.value.response.value.requestId != 10 {
      return Skip;
    }
    var content := feed.value.response.value.content;
    if content.requestQueued {
      return Skip;
    } else if content.invalidSignature {
      return Decide(Refused(InvalidSignature));
    } else if content.unauthorized {
      return Decide(Refused(Unauthorized));
    } else if content.agentRegistered.Some? {
      return Decide(Accepted(content.agentRegistered.value, size));
    }
    return Skip;
  }

  method RunAuthenticate(v: Variant, c: Connected, input: AuthInput) returns (h: Handshake)
    ensures h == Authenticate(v, c, input)
  {
    hide JudgeReply;
    hide Play;
    if !c.pong.clientAddr.IsValid() {
      return Handshake(AuthFailed(BadPong), 0, 0);
    } else if !c.pong.tunnelAddr.IsValid() {
      return Handshake(AuthFailed(BadPong), 0, 0);
    }
    if input.token.None? {
      return Handshake(AuthFailed(NotSigned), 0, 0);
    }
    ghost var frame := Frame(input.token.value);
    ghost var vs := Replies(v, c.addr, |frame| + ROOM, input.arrivals);
    ghost var whole := Registration(v, c.addr, frame, input);
    var used := 0;
    for round := 0 to REGISTER_ROUNDS
      invariant used <= SLOTS * round
      invariant whole == Play(REGISTER_ROUNDS, input.sends, vs, round, 0, used)
    {
      var buffer := new Buffer([]);
      buffer.WriteUint(8, 10);
      buffer.Write(input.token.value);
      assert buffer.data == frame;
      if !SendOk(input.sends, round) {
        PlayStops(REGISTER_ROUNDS, input.sends, vs, round, used);
        return Handshake(AuthFailed(SendError), round + 1, used);
      }
      for slot := 0 to SLOTS
        invariant buffer.data == frame
        invariant used <= SLOTS * round + slot
        invariant slot < SLOTS ==> whole == Play(REGISTER_ROUNDS, input.sends, vs, round, slot, used)
        invariant slot == SLOTS ==> whole == Play(REGISTER_ROUNDS, input.sends, vs, round + 1, 0, used)
      {
        var reciver := buffer.data + Zeros(ROOM);
        var verdict := HandleReply(v, c.addr, |reciver|, Nth(input.arrivals, used));
        assert vs[used] == verdict;
        PlayRead(REGISTER_ROUNDS, input.sends, vs, round, slot, used);
        used := used + 1;
        match verdict {
          case EndRound => break;
          case Skip =>
          case Decide(Refused(reason)) => return Handshake(AuthFailed(reason), round + 1, used);
          case Decide(Accepted(registered, size)) =>
            return Handshake(Authenticated(registered, reciver[Min(size, |reciver|)..]), round + 1, used);
        }
      }
    }
    PlayStops(REGISTER_ROUNDS, input.sends, vs, REGISTER_ROUNDS, used);
    return Handshake(AuthFailed(NoReply), REGISTER_ROUNDS, used);
  }

  // Whatever the network does: at most 5 registrations and 25 reads, and the exchange is the one
  // ended by the first decisive reply.
  lemma AuthenticateRefinesFold(v: Variant, c: Connected, input: AuthInput, x: Exchange<RegisterEnd>)
    requires c.pong.clientAddr.IsValid() && c.pong.tunnelAddr.IsValid() && input.token.Some?
    ensures var frame, h := Frame(input.token.value), Authenticate(v, c, input);
            && h.registrations <= 5 && h.used <= 25
            && (FirstDecisive(REGISTER_ROUNDS, input.sends, Replies(v, c.addr, |frame| + ROOM, input.arrivals), x)
                ==> h == Conclude(frame, x))
  {
    var frame := Frame(input.token.value);
    var vs := Replies(v, c.addr, |frame| + ROOM, input.arrivals);
    Budget(REGISTER_ROUNDS, input.sends, vs, 0, 0, 0);
    PlayIsFirstDecisive(REGISTER_ROUNDS, input.sends, vs, x);
  }

  // A datagram from the control address that carries this registration under request id 10.
  predicate Carries(v: Variant, addr: AddrPort, room: nat, read: NetRead, registered: AgentRegistered) {
    && read.Received? && read.from == addr
    && var feed := ControlFeed.Parse(v, read.data[..Min(room, |read.data|)]);
       && feed.Parsed? && feed.value.response.Some? && feed.value.response.value.requestId == 10
       && feed.value.response.value.content.agentRegistered == Some(registered)
  }

  lemma AcceptedCarries(v: Variant, addr: AddrPort, room: nat, read: NetRead)
    ensures match JudgeReply(v, addr, room, read)
            case Decide(Accepted(registered, _)) => Carries(v, addr, room, read, registered)
            case EndRound => read.TimedOut?
            case _ => true
  {}

  // Success means that some datagram carried exactly the registration that is returned, and that
  // everything before it was skipped or timed out.
  lemma AcceptedReply(v: Variant, c: Connected, input: AuthInput)
    requires Authenticate(v, c, input).result.Authenticated?
    ensures input.token.Some?
    ensures var h, room := Authenticate(v, c, input), |Frame(input.token.value)| + ROOM;
            && 0 < h.used && Carries(v, c.addr, room, Nth(input.arrivals, h.used - 1), h.result.registered)
            && forall k :: 0 <= k < h.used - 1 ==>
                 JudgeReply(v, c.addr, room, Nth(input.arrivals, k)).Skip? || Nth(input.arrivals, k).TimedOut?
  {
    hide JudgeReply;
    hide Carries;
    hide Play;
    var frame := Frame(input.token.value);
    var room := |frame| + ROOM;
    var vs := Replies(v, c.addr, room, input.arrivals);
    var x := Registration(v, c.addr, frame, input);
    PlayIsFirstDecisive(REGISTER_ROUNDS, input.sends, vs, x);
    AcceptedCarries(v, c.addr, room, Nth(input.arrivals, x.used - 1));
    assert vs[x.used - 1] == JudgeReply(v, c.addr, room, Nth(input.arrivals, x.used - 1));
    forall k | 0 <= k < x.used - 1
      ensures JudgeReply(v, c.addr, room, Nth(input.arrivals, k)).Skip? || Nth(input.arrivals, k).TimedOut?
    {
      assert !Decisive(vs, k) && vs[k] == JudgeReply(v, c.addr, room, Nth(input.arrivals, k));
      AcceptedCarries(v, c.addr, room, Nth(input.arrivals, k));
    }
  }

  // ---- Probing ----

  datatype ProbeEnd = Answered(pong: Pong) | Aborted

  // How one address behaves: whether a socket opens for it, whether pings leave, what arrives.
  datatype ProbeInput = ProbeInput(listens: bool, sends: seq<bool>, arrivals: seq<NetRead>)

  datatype Probe =
    | Answer(pong: Pong, sent: nat, used: nat)
    | Abort(sent: nat, used: nat)
    | Silent(sent: nat, used: nat)

  const PROBE_ROUNDS := 3
  const PROBE_ROOM := 2048

  function JudgePong(v: Variant, addr: AddrPort, read: NetRead): Verdict<ProbeEnd> {
    match read
    case TimedOut => Skip
    case ReadFailed => Decide(Aborted)
    case Received(from, data) =>
      if from != addr then Skip else
        match ControlFeed.Parse(v, data[..Min(PROBE_ROOM, |data|)])
        case Rejected(_, _) => Decide(Aborted)
        case Parsed(feed, _) =>
          if feed.response.None? then Decide(Aborted)
          else if feed.response.value.requestId != 1 then Skip
          else if feed.response.value.content.pong.None? then Decide(Aborted)
          else Decide(Answered(feed.response.value.content.pong.value))
  }

  function Pongs(v: Variant, addr: AddrPort, arrivals: seq<NetRead>): (vs: seq<Verdict<ProbeEnd>>)
    ensures |vs| == SLOTS * PROBE_ROUNDS
  {
    seq(SLOTS * PROBE_ROUNDS, i requires 0 <= i => JudgePong(v, addr, Nth(arrivals, i)))
  }

  function ProbeExchange(v: Variant, addr: AddrPort, input: ProbeInput): Exchange<ProbeEnd> {
    Play(PROBE_ROUNDS, input.sends, Pongs(v, addr, input.arrivals), 0, 0, 0)
  }

  function ProbeAddress(v: Variant, addr: AddrPort, input: ProbeInput): Probe {
    if !input.listens then Silent(0, 0) else
      var x := ProbeExchange(v, addr, input);
      match x.end
      case Decided(Answered(pong)) => Answer(pong, x.sent, x.used)
      case Decided(Aborted) => Abort(x.sent, x.used)
      case SendFailed => Silent(x.sent, x.used)
      case Exhausted => Silent(x.sent, x.used)
  }

  datatype Found = Found(connected: Connected, index: nat) | NoChannel

  function NthProbe(probes: seq<ProbeInput>, i: nat): ProbeInput {
    if i < |probes| then probes[i] else ProbeInput(false, [], [])
  }

  function Outcomes(v: Variant, addrs: seq<AddrPort>, probes: seq<ProbeInput>): (r: seq<Probe>)
    ensures |r| == |addrs|
  {
    seq(|addrs|, i requires 0 <= i < |addrs| => ProbeAddress(v, addrs[i], NthProbe(probes, i)))
  }

  function FindFrom(addrs: seq<AddrPort>, outcomes: seq<Probe>, i: nat): Found
    requires i <= |addrs| == |outcomes|
    decreases |addrs| - i
  {
    if i == |addrs| then NoChannel else
      match outcomes[i]
      case Answer(pong, _, _) => Found(Connected(addrs[i], pong), i)
      case Abort(_, _) => NoChannel
      case Silent(_, _) => FindFrom(addrs, outcomes, i + 1)
  }

  function FindSuitableChannel(v: Variant, addrs: seq<AddrPort>, probes: seq<ProbeInput>): Found {
    FindFrom(addrs, Outcomes(v, addrs, probes), 0)
  }

  // One pass through the inner loop, from the read to its continue or return.
  method HandlePong(v: Variant, addr: AddrPort, read: NetRead) returns (verdict: Verdict<ProbeEnd>)
    ensures verdict == JudgePong(v, addr, read)
  {
    if read.TimedOut? {
      return Skip;
    } else if read.ReadFailed? {
      return Decide(Aborted);
    } else if read.from != addr {
      return Skip;
    }
    var stream := new Buffer(read.data[..Min(PROBE_ROOM, |read.data|)]);
    var feed := ControlFeed.ReadFrom(v, stream);
    if feed.Failure? {
      return Decide(Aborted);
    } else if feed.value.response.None? {
      return Decide(Aborted);
    }
    var msg := feed.value.response.value;
    if msg.requestId != 1 {
      return Skip;
    } else if msg.content.pong.None? {
      return Decide(Aborted);
    }
    return Decide(Answered(msg.content.pong.value));
  }

  // The first ping names no session. Writing it cannot fail, so only the network can.
  method SendPing(now: i64, network: bool) returns (sent: bool)
    ensures sent == network
  {
    var buffer := new Buffer([]);
    var ok := WriteRequest(RpcMessage(1, ControlRequest.EMPTY.(ping := Some(Ping(now, None, None)))), buffer);
    sent := ok && network;
  }

  // The attempts on one address once a socket is open for it.
  method RunProbe(v: Variant, addr: AddrPort, input: ProbeInput, now: i64) returns (probe: Probe)
    requires input.listens
    ensures probe == ProbeAddress(v, addr, input)
  {
    hide JudgePong;
    hide Play;
    ghost var vs := Pongs(v, addr, input.arrivals);
    ghost var whole := ProbeExchange(v, addr, input);
    var used := 0;
    for round := 0 to PROBE_ROUNDS
      invariant used <= SLOTS * round
      invariant whole == Play(PROBE_ROUNDS, input.sends, vs, round, 0, used)
    {
      var sent := SendPing(now, SendOk(input.sends, round));
      if !sent {
        PlayStops(PROBE_ROUNDS, input.sends, vs, round, used);
        return Silent(round + 1, used);
      }
      for slot := 0 to SLOTS
        invariant used <= SLOTS * round + slot
        invariant slot < SLOTS ==> whole == Play(PROBE_ROUNDS, input.sends, vs, round, slot, used)
        invariant slot == SLOTS ==> whole == Play(PROBE_ROUNDS, input.sends, vs, round + 1, 0, used)
      {
        var verdict := HandlePong(v, addr, Nth(input.arrivals, used));
        assert vs[used] == verdict;
        PlayRead(PROBE_ROUNDS, input.sends, vs, round, slot, used);
        used := used + 1;
        match verdict {
          case Skip =>
          case EndRound => break;
          case Decide(Aborted) => return Abort(round + 1, used);
          case Decide(Answered(pong)) => return Answer(pong, round + 1, used);
        }
      }
    }
    PlayStops(PROBE_ROUNDS, input.sends, vs, PROBE_ROUNDS, used);
    return Silent(PROBE_ROUNDS, used);
  }

  method RunFindSuitableChannel(v: Variant, addrs: seq<AddrPort>, probes: seq<ProbeInput>, now: i64)
    returns (found: Found)
    ensures found == FindSuitableChannel(v, addrs, probes)
  {
    hide ProbeExchange;
    ghost var outcomes := Outcomes(v, addrs, probes);
    for i := 0 to |addrs|
      invariant FindSuitableChannel(v, addrs, probes) == FindFrom(addrs, outcomes, i)
    {
      var input := NthProbe(probes, i);
      if !input.listens {
        assert outcomes[i] == Silent(0, 0);
        continue;
      }
      var probe := RunProbe(v, addrs[i], input, now);
      assert outcomes[i] == probe;
      match probe {
        case Answer(pong, _, _) => return Found(Connected(addrs[i], pong), i);
        case Abort(_, _) => return NoChannel;
        case Silent(_, _) =>
      }
    }
    return NoChannel;
  }

  function ParsedReply(v: Variant, read: NetRead): Parsed<ControlFeed>
    requires read.Received?
  {
    ControlFeed.Parse(v, read.data[..Min(2048, |read.data|)])
  }

  // An event that does not decide a probe: nothing, a stranger, or another request's reply.
  predicate Ignored(v: Variant, addr: AddrPort, read: NetRead) {
    || read.TimedOut?
    || (read.Received? && read.from != addr)
    || (read.Received? && var feed := ParsedReply(v, read);
                          feed.Parsed? && feed.value.response.Some? && feed.value.response.value.requestId != 1)
  }

  // An event that ends the search: a read error, or from the address itself a reply that is
  // undecodable, no response, or a response to request 1 without a pong.
  predicate Aborting(v: Variant, addr: AddrPort, read: NetRead) {
    || read.ReadFailed?
    || (read.Received? && read.from == addr && var feed := ParsedReply(v, read);
        || feed.Rejected? || feed.value.response.None?
        || (feed.value.response.value.requestId == 1 && feed.value.response.value.content.pong.None?))
  }

  // A reply by the address to request 1 with this pong.
  predicate Answers(v: Variant, addr: AddrPort, read: NetRead, pong: Pong) {
    && read.Received? && read.from == addr
    && var feed := ParsedReply(v, read);
       && feed.Parsed? && feed.value.response.Some? && feed.value.response.value.requestId == 1
       && feed.value.response.value.content.pong == Some(pong)
  }

  lemma PongVerdict(v: Variant, addr: AddrPort, read: NetRead)
    ensures match JudgePong(v, addr, read)
            case Skip => Ignored(v, addr, read)
            case EndRound => false
            case Decide(Aborted) => Aborting(v, addr, read)
            case Decide(Answered(pong)) => Answers(v, addr, read, pong)
  {}

  // The first n reads decide nothing.
  predicate AllIgnored(v: Variant, addr: AddrPort, arrivals: seq<NetRead>, n: nat) {
    forall k :: 0 <= k < n ==> Ignored(v, addr, Nth(arrivals, k))
  }

  // At most 3 pings and 15 reads for one address, whatever happens. Giving up on it silently means
  // that it failed to open, a ping failed to leave, or all 15 reads were ignored. An answer or an
  // abort comes from the last read, in the round of the last ping, with every read before it ignored.
  lemma ProbeOutcome(v: Variant, addr: AddrPort, input: ProbeInput)
    ensures match ProbeAddress(v, addr, input)
            case Silent(sent, used) =>
              && sent <= 3 && used <= 15 && AllIgnored(v, addr, input.arrivals, used)
              && (if input.listens then used == 15 || (0 < sent && !SendOk(input.sends, sent - 1))
                  else sent == used == 0)
            case Answer(pong, sent, used) =>
              && input.listens
              && 0 < sent <= 3 && 5 * sent - 5 < used <= 5 * sent && AllIgnored(v, addr, input.arrivals, used - 1)
              && Answers(v, addr, Nth(input.arrivals, used - 1), pong)
            case Abort(sent, used) =>
              && input.listens
              && 0 < sent <= 3 && 5 * sent - 5 < used <= 5 * sent && AllIgnored(v, addr, input.arrivals, used - 1)
              && Aborting(v, addr, Nth(input.arrivals, used - 1))
  {
    hide JudgePong;
    hide Play;
    hide Ignored;
    hide Aborting;
    hide Answers;
    if input.listens {
      var vs, x := Pongs(v, addr, input.arrivals), ProbeExchange(v, addr, input);
      Budget(PROBE_ROUNDS, input.sends, vs, 0, 0, 0);
      PlayIsFirstDecisive(PROBE_ROUNDS, input.sends, vs, x);
      PongVerdicts(v, addr, input.arrivals);
      var undecided := if x.end.Decided? then x.used - 1 else x.used;
      NeverEndsEarly(vs, undecided);
      UndecidedIgnored(v, addr, input, undecided);
    }
  }

  lemma PongVerdicts(v: Variant, addr: AddrPort, arrivals: seq<NetRead>)
    ensures var vs := Pongs(v, addr, arrivals);
            forall k :: 0 <= k < |vs| ==>
              match vs[k]
              case Skip => true
              case EndRound => false
              case Decide(Aborted) => Aborting(v, addr, Nth(arrivals, k))
              case Decide(Answered(pong)) => Answers(v, addr, Nth(arrivals, k), pong)
  {
    hide JudgePong;
    hide Aborting;
    hide Answers;
    var vs := Pongs(v, addr, arrivals);
    forall k | 0 <= k < |vs|
      ensures match vs[k]
              case Skip => true
              case EndRound => false
              case Decide(Aborted) => Aborting(v, addr, Nth(arrivals, k))
              case Decide(Answered(pong)) => Answers(v, addr, Nth(arrivals, k), pong)
    {
      PongVerdict(v, addr, Nth(arrivals, k));
    }
  }

  lemma UndecidedIgnored(v: Variant, addr: AddrPort, input: ProbeInput, n: nat)
    requires Undecided(PROBE_ROUNDS, input.sends, Pongs(v, addr, input.arrivals), n)
    ensures AllIgnored(v, addr, input.arrivals, n)
  {
    hide JudgePong;
    hide Ignored;
    hide Due;
    var vs := Pongs(v, addr, input.arrivals);
    forall k | 0 <= k < n ensures Ignored(v, addr, Nth(input.arrivals, k)) {
      assert !Decisive(vs, k) && vs[k] == JudgePong(v, addr, Nth(input.arrivals, k));
      PongVerdict(v, addr, Nth(input.arrivals, k));
    }
  }

  // Nothing ends a probing round early, so three rounds are fifteen reads.
  lemma {:induction false} NeverEndsEarly<R>(vs: seq<Verdict<R>>, k: nat)
    requires k <= |vs| && forall i :: 0 <= i < |vs| ==> !vs[i].EndRound?
    ensures var (round, slot) := Reached(vs, k);
            k == SLOTS * round + slot && slot < SLOTS
  {
    if k > 0 {
      NeverEndsEarly(vs, k - 1);
    }
  }

  // Probing succeeds at the first address that answers, and only if every earlier one was silent.
  lemma {:induction false} FoundFirst(addrs: seq<AddrPort>, outcomes: seq<Probe>, i: nat)
    requires i <= |addrs| == |outcomes|
    ensures match FindFrom(addrs, outcomes, i)
            case Found(connected, index) =>
              && i <= index < |addrs| && connected.addr == addrs[index]
              && (forall k :: i <= k < index ==> outcomes[k].Silent?)
              && outcomes[index].Answer? && outcomes[index].pong == connected.pong
            case NoChannel =>
              || (forall k :: i <= k < |addrs| ==> outcomes[k].Silent?)
              || (exists k :: i <= k < |addrs| && outcomes[k].Abort? && forall j :: i <= j < k ==> outcomes[j].Silent?)
    decreases |addrs| - i
  {
    if i < |addrs| && outcomes[i].Silent? {
      FoundFirst(addrs, outcomes, i + 1);
    }
  }

  // The channel found is the pong of the first address whose probe is answered; none is found if
  // every address is silent, or one aborts the search before any has answered.
  lemma ChannelFound(v: Variant, addrs: seq<AddrPort>, probes: seq<ProbeInput>)
    ensures match FindSuitableChannel(v, addrs, probes)
            case Found(connected, index) =>
              && index < |addrs| && connected.addr == addrs[index] && SilentBefore(v, addrs, probes, index)
              && var probe := ProbeAddress(v, addrs[index], NthProbe(probes, index));
                 probe.Answer? && probe.pong == connected.pong
            case NoChannel =>
              || SilentBefore(v, addrs, probes, |addrs|)
              || (exists k :: 0 <= k < |addrs| && ProbeAddress(v, addrs[k], NthProbe(probes, k)).Abort?
                              && SilentBefore(v, addrs, probes, k))
  {
    hide ProbeAddress;
    var outcomes := Outcomes(v, addrs, probes);
    FoundFirst(addrs, outcomes, 0);
    assert forall k :: 0 <= k < |addrs| ==> outcomes[k] == ProbeAddress(v, addrs[k], NthProbe(probes, k));
    var found := FindSuitableChannel(v, addrs, probes);
    if found.NoChannel? && !SilentBefore(v, addrs, probes, |addrs|) {
      var k :| 0 <= k < |addrs| && outcomes[k].Abort? && forall j :: 0 <= j < k ==> outcomes[j].Silent?;
      assert ProbeAddress(v, addrs[k], NthProbe(probes, k)).Abort? && SilentBefore(v, addrs, probes, k);
    }
  }

  predicate SilentBefore(v: Variant, addrs: seq<AddrPort>, probes: seq<ProbeInput>, n: nat)
    requires n <= |addrs|
  {
    forall k :: 0 <= k < n ==> ProbeAddress(v, addrs[k], NthProbe(probes, k)).Silent?
  }
}
