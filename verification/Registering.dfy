// Registration event by event: what each thing that can arrive makes of the handshake.
module Registering {
  import opened Bytes
  import opened BigInt
  import opened ControlMessage
  import opened ControlFeeds
  import opened Events
  import opened Rounds
  import opened Handshakes
  import opened Controls

  function Reading(v: Variant, room: nat, read: NetRead): Parsed<ControlFeed>
    requires read.Received?
  {
    ControlFeed.Parse(v, read.data[..Min(room, |read.data|)])
  }

  // The content of a reply by the control address to request 10.
  function Content10(v: Variant, addr: AddrPort, room: nat, read: NetRead): Option<ControlResponse> {
    if !read.Received? || read.from != addr then None else
      match Reading(v, room, read)
      case Parsed(ControlFeed(Some(RpcMessage(id, content)), _), _) => if id == 10 then Some(content) else None
      case _ => None
  }

  // What does not decide the handshake: a timeout, a stranger, a reply to another request, or one
  // that is queued or says nothing about registration.
  predicate Passes(v: Variant, addr: AddrPort, room: nat, read: NetRead) {
    || read.TimedOut?
    || (read.Received? && read.from != addr)
    || (read.Received? && var feed := Reading(v, room, read);
          && feed.Parsed? && feed.value.response.Some?
          && (feed.value.response.value.requestId != 10 || SaysNothing(feed.value.response.value.content)))
  }

  predicate SaysNothing(content: ControlResponse) {
    || content.requestQueued
    || (!content.invalidSignature && !content.unauthorized && content.agentRegistered.None?)
  }

  // What makes it fail, and how.
  predicate FailsWith(v: Variant, addr: AddrPort, room: nat, read: NetRead, reason: Reason) {
    var content := Content10(v, addr, room, read);
    match reason
    case ReadError => read.ReadFailed?
    case Undecodable => read.Received? && read.from == addr && Reading(v, room, read).Rejected?
    case NilResponse =>
      && read.Received? && read.from == addr
      && var feed := Reading(v, room, read);
         feed.Parsed? && feed.value.response.None?
    case InvalidSignature => content.Some? && !content.value.requestQueued && content.value.invalidSignature
    case Unauthorized =>
      content.Some? && !content.value.requestQueued && !content.value.invalidSignature && content.value.unauthorized
    case _ => false
  }

  // What makes it succeed.
  predicate Registers(v: Variant, addr: AddrPort, room: nat, read: NetRead, registered: AgentRegistered) {
    var content := Content10(v, addr, room, read);
    && content.Some? && content.value.agentRegistered == Some(registered)
    && !content.value.requestQueued && !content.value.invalidSignature && !content.value.unauthorized
  }

  // Nothing else can arrive.
  lemma EveryEvent(v: Variant, addr: AddrPort, room: nat, read: NetRead)
    ensures || Passes(v, addr, room, read)
            || (exists reason :: FailsWith(v, addr, room, read, reason))
            || (exists registered :: Registers(v, addr, room, read, registered))
  {
    hide ControlFeed.Parse;
    match JudgeReply(v, addr, room, read) {
      case Skip =>
      case EndRound =>
      case Decide(Refused(reason)) => assert FailsWith(v, addr, room, read, reason);
      case Decide(Accepted(registered, _)) => assert Registers(v, addr, room, read, registered);
    }
  }

  lemma PassVerdict(v: Variant, addr: AddrPort, room: nat, read: NetRead)
    requires Passes(v, addr, room, read)
    ensures JudgeReply(v, addr, room, read) == if read.TimedOut? then EndRound else Skip
  {
    hide ControlFeed.Parse;
  }

  lemma DecisiveVerdict(v: Variant, addr: AddrPort, room: nat, read: NetRead,
                        reason: Reason, registered: AgentRegistered)
    ensures FailsWith(v, addr, room, read, reason) ==> JudgeReply(v, addr, room, read) == Decide(Refused(reason))
    ensures Registers(v, addr, room, read, registered) ==>
              JudgeReply(v, addr, room, read) == Decide(Accepted(registered, Min(room, |read.data|)))
  {
    hide ControlFeed.Parse;
  }

  // The round and the place in it that come after k reads that decide nothing: a timeout ends a
  // round, and so does its fifth read.
  function Position(arrivals: seq<NetRead>, k: nat): (nat, nat) {
    if k == 0 then (0, 0) else
      var (round, place) := Position(arrivals, k - 1);
      if Nth(arrivals, k - 1).TimedOut? || place == 4 then (round + 1, 0) else (round, place + 1)
  }

  predicate AllPass(v: Variant, addr: AddrPort, room: nat, arrivals: seq<NetRead>, n: nat) {
    forall k :: 0 <= k < n ==> Passes(v, addr, room, Nth(arrivals, k))
  }

  // The registrations of the first rounds have left.
  predicate AllSent(sends: seq<bool>, rounds: nat) { forall r :: 0 <= r < rounds ==> SendOk(sends, r) }

  lemma {:induction false} Bounds(arrivals: seq<NetRead>, k: nat)
    ensures var (round, place) := Position(arrivals, k); place < 5 && k <= 5 * round + place
  {
    if k > 0 {
      Bounds(arrivals, k - 1);
    }
  }

  lemma {:induction false} InOrder(arrivals: seq<NetRead>, k: nat, n: nat)
    requires k < n
    ensures var (r, p) := Position(arrivals, k);
            var (round, place) := Position(arrivals, n);
            r < round || (r == round && p < place)
    decreases n
  {
    if k < n - 1 {
      InOrder(arrivals, k, n - 1);
    }
  }

  // The position is the one the fold has reached, and no read before it decides.
  lemma {:induction false} PositionReached(v: Variant, addr: AddrPort, room: nat, arrivals: seq<NetRead>, k: nat)
    requires k <= 25 && AllPass(v, addr, room, arrivals, k)
    ensures var vs := Replies(v, addr, room, arrivals);
            Reached(vs, k) == Position(arrivals, k) && forall j :: 0 <= j < k ==> !Decisive(vs, j)
  {
    hide JudgeReply;
    hide Passes;
    if k > 0 {
      PositionReached(v, addr, room, arrivals, k - 1);
      PassVerdict(v, addr, room, Nth(arrivals, k - 1));
    }
  }

  // All reads before the n-th have happened and decided nothing.
  lemma AllDue(v: Variant, addr: AddrPort, room: nat, sends: seq<bool>, arrivals: seq<NetRead>, n: nat)
    requires AllPass(v, addr, room, arrivals, n)
    requires var (round, place) := Position(arrivals, n);
             (round < 5 || (round == 5 && place == 0)) && AllSent(sends, if place == 0 then round else round + 1)
    ensures n <= 25 && Undecided(5, sends, Replies(v, addr, room, arrivals), n)
  {
    hide JudgeReply;
    hide Passes;
    Bounds(arrivals, n);
    var vs := Replies(v, addr, room, arrivals);
    PositionReached(v, addr, room, arrivals, n);
    forall k | 0 <= k < n ensures Due(5, sends, vs, k) {
      InOrder(arrivals, k, n);
      PositionReached(v, addr, room, arrivals, k);
    }
  }

  // The handshake event by event. After n reads that decide nothing, with the registrations of all
  // rounds so far sent, the next read gives the result if it decides: a failure with its reason, or
  // the registration it carries, what is left of the receive buffer becoming the channel's.
  lemma HandshakeResult(v: Variant, c: Connected, input: AuthInput, n: nat, reason: Reason, registered: AgentRegistered)
    requires c.pong.clientAddr.IsValid() && c.pong.tunnelAddr.IsValid() && input.token.Some?
    requires AllPass(v, c.addr, 8 + |input.token.value| + 1024, input.arrivals, n)
    requires Position(input.arrivals, n).0 < 5 && AllSent(input.sends, Position(input.arrivals, n).0 + 1)
    ensures var h, room := Authenticate(v, c, input), 8 + |input.token.value| + 1024;
            var round, read := Position(input.arrivals, n).0, Nth(input.arrivals, n);
            && (FailsWith(v, c.addr, room, read, reason) ==> h == Handshake(AuthFailed(reason), round + 1, n + 1))
            && (Registers(v, c.addr, room, read, registered) ==>
                  var space := BigEndian(8, 10) + input.token.value + Zeros(1024);
                  h == Handshake(Authenticated(registered, space[Min(room, |read.data|)..]), round + 1, n + 1))
  {
    hide JudgeReply;
    hide AllPass;
    hide AllSent;
    hide FailsWith;
    hide Registers;
    hide Replies;
    hide Position;
    hide Play;
    hide Authenticate;
    var room := 8 + |input.token.value| + 1024;
    DecidedNext(v, c.addr, room, input.sends, input.arrivals, n);
    DecisiveVerdict(v, c.addr, room, Nth(input.arrivals, n), reason, registered);
    Played(v, c, input);
  }

  // If nothing has decided and the next registration cannot be sent, or five rounds are over, that
  // is the failure.
  lemma HandshakeStops(v: Variant, c: Connected, input: AuthInput, n: nat)
    requires c.pong.clientAddr.IsValid() && c.pong.tunnelAddr.IsValid() && input.token.Some?
    requires AllPass(v, c.addr, 8 + |input.token.value| + 1024, input.arrivals, n)
    requires var (round, place) := Position(input.arrivals, n);
             round <= 5 && place == 0 && AllSent(input.sends, round) && (round < 5 ==> !SendOk(input.sends, round))
    ensures var round := Position(input.arrivals, n).0;
            Authenticate(v, c, input)
            == if round < 5 then Handshake(AuthFailed(SendError), round + 1, n)
               else Handshake(AuthFailed(NoReply), 5, n)
  {
    hide JudgeReply;
    hide AllPass;
    hide Replies;
    hide Play;
    hide Authenticate;
    Stopped(v, c.addr, 8 + |input.token.value| + 1024, input.sends, input.arrivals, n);
    Played(v, c, input);
  }

  lemma Played(v: Variant, c: Connected, input: AuthInput)
    requires c.pong.clientAddr.IsValid() && c.pong.tunnelAddr.IsValid() && input.token.Some?
    ensures var room := 8 + |input.token.value| + 1024;
            var x := Play(5, input.sends, Replies(v, c.addr, room, input.arrivals), 0, 0, 0);
            Authenticate(v, c, input) == Conclude(BigEndian(8, 10) + input.token.value, x)
  {
    hide JudgeReply;
    hide Play;
  }

  // The exchange that the next read decides.
  lemma DecidedNext(v: Variant, addr: AddrPort, room: nat, sends: seq<bool>, arrivals: seq<NetRead>, n: nat)
    requires AllPass(v, addr, room, arrivals, n)
    requires Position(arrivals, n).0 < 5 && AllSent(sends, Position(arrivals, n).0 + 1)
    ensures match JudgeReply(v, addr, room, Nth(arrivals, n))
            case Decide(end) =>
              Play(5, sends, Replies(v, addr, room, arrivals), 0, 0, 0)
              == Exchange(Decided(end), Position(arrivals, n).0 + 1, n + 1)
            case _ => true
  {
    hide JudgeReply;
    hide Passes;
    hide Play;
    var vs := Replies(v, addr, room, arrivals);
    AllDue(v, addr, room, sends, arrivals, n);
    PositionReached(v, addr, room, arrivals, n);
    Bounds(arrivals, n);
    match vs[n] {
      case Decide(end) =>
        PlayIsFirstDecisive(5, sends, vs, Exchange(Decided(end), Position(arrivals, n).0 + 1, n + 1));
      case _ =>
    }
  }

  // The exchange that ends between two rounds.
  lemma Stopped(v: Variant, addr: AddrPort, room: nat, sends: seq<bool>, arrivals: seq<NetRead>, n: nat)
    requires AllPass(v, addr, room, arrivals, n)
    requires var (round, place) := Position(arrivals, n);
             round <= 5 && place == 0 && AllSent(sends, round) && (round < 5 ==> !SendOk(sends, round))
    ensures var round := Position(arrivals, n).0;
            Play(5, sends, Replies(v, addr, room, arrivals), 0, 0, 0)
            == if round < 5 then Exchange(SendFailed, round + 1, n) else Exchange(Exhausted, 5, n)
  {
    hide JudgeReply;
    hide Passes;
    hide Play;
    var vs, round := Replies(v, addr, room, arrivals), Position(arrivals, n).0;
    AllDue(v, addr, room, sends, arrivals, n);
    PositionReached(v, addr, room, arrivals, n);
    PlayIsFirstDecisive(5, sends, vs,
                        if round < 5 then Exchange(SendFailed, round + 1, n) else Exchange(Exhausted, 5, n));
  }

  // In particular, a registration that arrives first, in answer to one that was sent, is accepted.
  lemma FirstReplyAccepted(v: Variant, c: Connected, input: AuthInput, registered: AgentRegistered)
    requires c.pong.clientAddr.IsValid() && c.pong.tunnelAddr.IsValid() && input.token.Some?
    requires SendOk(input.sends, 0)
    requires Nth(input.arrivals, 0) == Received(c.addr, RegisteredFeed(10, registered).Encode().value)
    ensures var h := Authenticate(v, c, input);
            h.result.Authenticated? && h.result.registered == registered && h.registrations == h.used == 1
  {
    hide ControlFeed.Encode;
    hide ControlFeed.Parse;
    hide Authenticate;
    hide Replies;
    var feed := RegisteredFeed(10, registered);
    var data := feed.Encode().value;
    feed.Back(v, []);
    assert data + [] == data && data[..48] == data;
    HandshakeResult(v, c, input, 0, ReadError, registered);
  }

  // Without a signed token, or with a pong that lacks an address, nothing is sent.
  lemma NotAttempted(v: Variant, c: Connected, input: AuthInput)
    ensures !c.pong.clientAddr.IsValid() || !c.pong.tunnelAddr.IsValid() ==>
              Authenticate(v, c, input) == Handshake(AuthFailed(BadPong), 0, 0)
    ensures c.pong.clientAddr.IsValid() && c.pong.tunnelAddr.IsValid() && input.token.None? ==>
              Authenticate(v, c, input) == Handshake(AuthFailed(NotSigned), 0, 0)
  {}
}
