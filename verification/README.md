# A Dafny model of the playit agent's tunnel package

The agent keeps a UDP control channel to a playit control server, pings it, registers a session on it,
and through it obtains a relay ("UDP tunnel") over which it forwards datagrams. This project models the
four parts of the Go package `tunnel` that do this and proves what they keep over whole runs:

- the control and UDP session machine (`SimplesTunnel.dfy`, `Control.dfy`, `UdpTunnel.dfy`, and the
  theorems about runs in `Runs.dfy`, `Sessions.dfy`, `Confirmation.dfy`, `Timing.dfy`, `Lifecycle.dfy`,
  `Establishing.dfy`, and about single steps in `Hearing.dfy`, `Updating.dfy`);
- the binary codec of the control channel (`Bytes.dfy`, `BigInt.dfy`, `Lib.dfy`, `ControlMessage.dfy`,
  `ControlFeed.dfy`, `Wire.dfy`);
- the datagram footer and the two handshakes (`UdpProto.dfy`, `Rounds.dfy`, `Setup.dfy`, `Registering.dfy`);
- the hash that spreads peers over the loopback network (`Words.dfy`, `LanAddress.dfy`, `Peers.dfy`).

`dafny verify dfyconfig.toml` checks all of it.

## How it is built

Code that updates state in Go is a class or a method with loops here: `Buffer`, `UdpTunnel`,
`AuthenticatedControl`, `SimplesTunnel`, the readers and writers of every message, and the handshake loops.
Each method is proved equal to a function on values (`Update`, `ReceiveFrom`, `ControlFeed.Parse`, ...), and
the theorems are about those functions and about runs, which are sequences of steps. Theorems about runs hold
from any `Coherent` or `Initial` tunnel, and `Sessions.SetupInitial` says that `Setup` yields those.

The network, the API and the clock are inputs. A step's input says what every read yields and whether every
send succeeds; every place where the Go code looks at the clock has its own sample, so two samples inside one
`Update` may differ and the clock may go backwards. Sends, installed sessions, stored details, confirmations and
address changes are recorded as events. Unsigned subtraction wraps at its width, and the seconds clock is cut to
32 bits before it is divided, as in Go.

## Where the code departs from its intent

Most definitions take a `Variant`. `AsWritten` is the code as it stands. `Repaired` differs from it in exactly
these places; theorems quantify over both unless their row says otherwise.

| place | as written | repaired |
|---|---|---|
| tunnel/control_message.go:187, :216 | `Ping` is written under tag 6 and read under tag 1 | read under tag 6 |
| tunnel/control_message.go:43-47 | both option octets of a `Ping` are read as part of the values | options are read as options |
| tunnel/control_message.go:91 | the expiry of a `Pong` is read as a bare integer | read as the option that was written |
| tunnel/udp_proto.go:91 | the V4 case is the bitwise or of the two identifiers, a third value | either identifier |
| tunnel/udp_proto.go:96-100, :113-118 | each field has a fresh reader, so all start at the first octet | fields in sequence |
| tunnel/udp_tunnel.go:87-101 | new details go to the lock's copy and are never kept | details and history are stored |
| tunnel/udp_tunnel.go:215, tunnel/control.go:102 | what lies behind the datagram in the buffer is decoded | the datagram is decoded |
| tunnel/udp_tunnel.go:224 | an unknown footer makes the nil flow be dereferenced (`NilFlow`) | reported as an error |
| tunnel/control.go:135-139 | re-authentication does not copy the cleared `ForceEpired` | copied |
| tunnel/simples_tunnel.go:191-193 | the log call panics before the channel is marked expired | marked, then reported |

Kept as they are in both variants: `FlowChanged` compares a value with itself (tunnel/control.go:68);
`timeTillExpire` is the smaller of two timestamps (tunnel/simples_tunnel.go:145-150, see
`Lifecycle.KeepAliveCondition`); `ReloadControlAddr` does nothing if an earlier target has disappeared
(tunnel/simples_tunnel.go:68-74, see `Lifecycle.ReloadPicksFirst`); resending, keeping alive and receiving
sit inside the `RequireResend` branch (tunnel/simples_tunnel.go:136-204, see `Lifecycle.NeverEstablished`), which
is why runs also have a step that receives a feed message on its own; the registration handshake reads
`Response.RequestID` before it checks `Response` for nil (tunnel/setup.go:158-161), which ends it either way, with
the reason `NilResponse` here.

The consequences of the code as written are theorems too: no run of it ever stores or confirms a UDP session
(`Sessions.NeverConfirmedAsWritten`); a reply is not decoded by the read that receives it but stays in the
channel's buffer, where a later, shorter datagram from the control address has it decoded
(`Controls.HeardAsWritten`, `Controls.HeardLateAsWritten`, `Controls.ContentsMatterLater`), so that it is
delivered at once exactly when the same feed lay there already (`Controls.DeliveredAsWritten`); and a ping, a
pong or an IPv4 footer is never read back (`Ping.Back`, `Pong.Back`, `Back4AsWritten`).

## Model

The first 50 rows are the main results, from whole runs down to single functions; then come the lemmas they
rest on that say something of their own; the last 42 rows tie the imperative members to the functions that
specify them. What those functions do is fixed by the lemmas of `Updating`, `Hearing`, `Registering`, `Peers` and
`Wire`, which speak of events, octets and plain arithmetic and not of the helper functions they pin down.

| member | source | states |
|---|---|---|
| Timing.PingRate | tunnel/simples_tunnel.go:117-123 | In every run, pings sent are at most F / 1001 + 1 + control-address changes + backward clock steps, F being the total forward movement of the clock in ms; a clock that goes back may fire a ping because the subtraction wraps. Both variants, any starting state |
| Timing.Spacing | tunnel/simples_tunnel.go:128-162 | With a non-decreasing clock and no address change between them, a ping follows a ping by more than 1000 ms, a UDP setup request follows a setup or gated resend by more than 5000 ms, a gated resend follows either by more than 1000 ms, and keep-alives are more than 10000 ms apart, for any two in a run, not only neighbours |
| Sessions.SessionCoherence | tunnel/simples_tunnel.go:57-58 | After `Setup` the two control addresses always agree, and every ping, keep-alive and UDP setup request goes to the address moved to last and carries the session installed last, by handshake or feed message; that registrations on the feed are installed is `Hearing.RegistrationHeard` |
| Sessions.NoAuthNeeded | tunnel/udp_tunnel.go:77-83 | In every reachable state, within one 2^32 ms window: authorisation is not required if and only if a confirmation lies in a later second than the last token sent, or the last token was sent at most 5 seconds ago (0 for none) |
| Sessions.RunHistory | tunnel/udp_tunnel.go:85-105 | In every reachable state the history followed by the present relay address is the sequence of stored addresses with consecutive duplicates removed |
| Sessions.RequestsUnderstood | tunnel/control.go:22-65 | Every request of every run can be written, and in any stream it reads back as itself with nothing else consumed, except that the reader as written loses exactly the pings |
| Sessions.NeverConfirmedAsWritten | tunnel/udp_tunnel.go:87-101 | As written no run, whatever arrives, ever has details or a confirmation, because the details are written to a copy |
| Sessions.TokensAsWritten | tunnel/udp_tunnel.go:85-116 | As written, from a tunnel without details, no token is ever resent: every token of a run goes out once, to the address and with the token of details supplied just before and then lost |
| Runs.RunFollowed | tunnel/simples_tunnel.go:107-213 | Every event of every run is allowed in the state that the events before it describe: a request goes to the right address after its timer has run out, and is what its id stands for (200 a ping with the clock and the session, 9000 and 1 a UDP setup request, 100 a keep-alive, for the session installed last, and nothing beside it); with the repairs a token is the one in force (as written see `Sessions.TokensAsWritten`); and the events determine the final address, session, details, history, timestamps and timers |
| Confirmation.ConfirmationSafety | tunnel/udp_tunnel.go:178-209 | In every reachable state a non-zero `LastConfirm` is the second of some earlier datagram step whose data equalled the token in force at that moment and came from the present or a former relay address, with no invalidating address change since |
| Establishing.Established | tunnel/simples_tunnel.go:183-188 | Repaired, from any state and across codec, channel and UDP session: once the control server's encoded details and then the relay's token arrive, the details are in force, the token was sent exactly once to the relay unless they were already in force, the session is confirmed at that second, needs no resend for 10 seconds inside the clock's window, and no authorisation while its confirmation is later than its last token |
| Updating.UpdateConcludes | tunnel/simples_tunnel.go:164-202 | Repaired: an `Update` that reads the feed, and whose first n reads neither conclude nor fail ten times, ends with what the next read brings: the client of a new-client message is the result, or the refusal, which also forces expiry |
| Hearing.LoopConcludes | tunnel/simples_tunnel.go:164-204 | Repaired, for datagrams of any length and from any pass on: after any reads that do not conclude and fewer than ten failures in all, the first client or refusal is the result of the receive loop, and nothing that would arrive later is looked at; which reads fail is counted from the octets received |
| Hearing.ChannelEffect | tunnel/control.go:91-124 | For every datagram, in both variants: the buffer is refilled; a feed is made out exactly if it comes from the control address and the octets looked at decode; a registration in it replaces the session, a pong is taken in with its round trip modulo 2^32 and its expiry, and nothing else changes the channel |
| Hearing.LoopResponds | tunnel/simples_tunnel.go:179-202 | One read of the receive loop that makes out a response, as an equation: details not in force reach the UDP session and have their token sent, or count as a failure if their socket is missing; a pong stamps the tunnel with its own clock sample; a refusal ends the loop; anything else does no more than to the channel |
| Updating.ResendBranch | tunnel/simples_tunnel.go:136-210 | Where a resend and no authorisation is required: exactly what is sent (token by the shared timer and socket, keep-alive and setup request by their timer and the timestamps), the state the receive loop starts from, and the watchdog after it exactly when there is no result |
| Updating.AuthBranch | tunnel/simples_tunnel.go:128-134 | Where authorisation is required, a UDP setup request with id 9000 goes out if and only if more than 5000 ms have passed on its timer, by plain arithmetic on the wrapping clock, and the watchdog follows |
| Lifecycle.ExpiryGate | tunnel/simples_tunnel.go:108-115 | An `Update` registers first if and only if the channel is marked expired or its last pong had no expiry; if that fails it does nothing else and changes nothing, otherwise the new session and buffer are installed, the current ping is cleared and, with the repairs, the mark too, before anything is sent |
| Lifecycle.OverdueGatesNext | tunnel/simples_tunnel.go:206-210 | Once the watchdog finds its pong more than 6000 ms old, every `Update` must register before it sends, up to and including the first that succeeds in that, whatever happens in between short of an address change; as written so must all later ones |
| Lifecycle.AllOrNothing | tunnel/simples_tunnel.go:84-105 | An address change happens if and only if the address differs and registration succeeds; then the channel is exactly that of the new connection, the three timers and two UDP timestamps are 0, details, history, pong stamp and targets being kept; otherwise the state is unchanged; the events are given in each case |
| Lifecycle.ReloadPicksFirst | tunnel/simples_tunnel.go:62-82 | Reloading changes the address if and only if the API answers, no earlier target has disappeared, and the first new target that answers is another address and registers; the targets are replaced if and only if one answers and none has disappeared; nothing else changes without a change of address |
| Lifecycle.SetupOutcome | tunnel/simples_tunnel.go:38-60 | `Setup` succeeds if and only if the IPv4 socket opens, the API answers, a channel is found and it registers, IPv6 being optional; the tunnel is that channel with nothing sent |
| Lifecycle.ChangeTakesEffect | tunnel/simples_tunnel.go:84-134 | After an address change the first `Update` that gets past the expiry check, with the clocks beyond their first 5 seconds, sends a ping and then a UDP setup request to the new address in the present session, as its last two events, however many `Update`s fail that check and reloads leave the address in between; both given by their ids and alternatives |
| Lifecycle.NeverEstablished | tunnel/simples_tunnel.go:136-204 | If the two seconds samples of each `Update` agree, a run of updates and address changes from an unset session never resends, keeps alive or reads the feed: it only registers, pings and requests UDP setup, and the session stays unset |
| Registering.HandshakeResult | tunnel/setup.go:122-189 | The handshake event by event: after n reads that decide nothing (timeout, stranger, another request, queued, nothing about registration), with all registrations so far sent, the next read gives the result: `AgentRegistered` the session, the rest of the receive buffer and the counts; a read error, an undecodable reply, a missing response, `InvalidSignature` and `Unauthorized` their failure |
| Registering.HandshakeStops | tunnel/setup.go:122-189 | If nothing has decided and the next registration cannot be sent, or five rounds are over, that is the failure, with the counts; with `HandshakeResult`, `EveryEvent` and `NotAttempted` this is every result there is |
| Handshakes.AuthenticateRefinesFold | tunnel/setup.go:103-189 | For every network: at most 5 registrations and 25 reads, and any exchange ended by its first decisive event gives the result of the handshake; what each event decides is `Registering.HandshakeResult` |
| Handshakes.AcceptedReply | tunnel/setup.go:175-185 | Success returns exactly the registration carried, under request id 10, by a datagram from the control address, every read before it having timed out or been skipped |
| Handshakes.ProbeOutcome | tunnel/setup.go:30-91 | Per address, for every outcome, at most 3 pings and 15 reads; silence means it did not open, a ping failed or all 15 reads were ignorable; an answer is the pong of its reply to request 1, and an abort is a read error, an undecodable reply, a reply that is no response or a reply to request 1 without a pong, in both cases on the last read, in the round of the last ping, all earlier reads being ignorable |
| Handshakes.ChannelFound | tunnel/setup.go:18-95 | The channel found is the pong of the first address that answers, every address before it being silent; without one all addresses were silent, or one aborted the search after silent ones only |
| Rounds.PlayIsFirstDecisive | tunnel/setup.go:122-189 | The nested retry loops, as a fold, are exactly the exchange ended by the first decisive event among the reads that are due, or by a failing send, or by using up the budget; the characterisation determines the exchange uniquely |
| ControlFeeds.ControlFeed.Back | tunnel/control_feed.go:77-110 | Normal form: reading a written feed followed by any stream returns the feed reduced to the writer's first alternative and leaves the stream untouched, if and only if that alternative survives (valid addresses; no port mapping; no pong as written) |
| ControlFeeds.RequestBack | tunnel/rpc.go:18-36 | The same normal form, as an equivalence, for framed requests |
| ControlMessage.UdpChannelDetails.Truncated | tunnel/control_message.go:316-326 | A strict prefix is rejected exactly when it ends before the address octets or after the length field; otherwise it reads as an empty token, with port 0 if the port is incomplete; the error is given |
| UdpProto.Back | tunnel/udp_proto.go:53-134 | Repaired: behind any payload the written footer parses to its flow, for both families |
| UdpProto.Forth | tunnel/udp_proto.go:85-134 | Repaired: a slice parses to a flow if and only if it ends in that flow's encoding, up to the newer V4 identifier standing for the old one |
| UdpTunnels.DataPath | tunnel/udp_tunnel.go:147-225 | Repaired: what `Send` builds for payload p and flow f, received from any address the session has had into a large enough buffer and unlike the token, is delivered as f and the length of p, with p at the start of the buffer, the rest of it untouched and the session unchanged; it is addressed to the sender's relay |
| UdpTunnels.HistoryIsDedup | tunnel/udp_tunnel.go:85-105 | Repaired: after any sequence of `SetUdpTunnel` calls the history and the present address are the addresses supplied without consecutive duplicates |
| UdpTunnels.SourceCheck | tunnel/udp_tunnel.go:187-195 | Repaired: a datagram is refused for its source if and only if its sender was never supplied |
| UdpTunnels.WrapOnlyResends | tunnel/udp_tunnel.go:67-75 | From a confirmation at ms a to a check at ms b, up to 2^32 - 1000 later: no resend means less than 11000 ms have passed, a resend means more than 10000 ms have passed or the 32-bit clock has wrapped |
| LanAddress.ShuffleBijective | tunnel/lan_address.go:9-14 | `shuffle` is a bijection on 32-bit words with an explicit inverse, both ways |
| Peers.Ip4PeerCount | tunnel/lan_address.go:16-41 | Over the 4-octet addresses themselves: exactly 512 IPv4 peers map to 127.0.0.1, exactly 256 to every other address from 127.0.0.2 to 127.255.255.255, none elsewhere |
| Peers.Ip6PeerCount | tunnel/lan_address.go:24-41 | Over 16-octet addresses with three words fixed: the four octets of the remaining word have the same counts, exactly, also where they can complete the IPv4-mapped prefix |
| Controls.HeardAsWritten | tunnel/control.go:91-105 | As written a read yields a feed if and only if the datagram comes from the control address and what was in the buffer behind the place it takes decodes to a feed |
| Controls.DeliveredAsWritten | tunnel/control.go:91-105 | As written a feed its sender can write is delivered by the read that receives it if and only if the same feed already lay behind it in the buffer; the repaired counterpart, without that condition, is `Establishing.FeedDelivered` |
| Controls.HeardLateAsWritten | tunnel/control.go:92-102 | As written a reply that fits the buffer is decoded in full by the next read if that receives an empty datagram; and not by its own read if only zeros lay behind it |
| UdpTunnels.DataPathAsWritten | tunnel/udp_tunnel.go:147-225 | As written, had it a session, the data path would hold if and only if the buffer already held behind the datagram something that parses to the flow sent |
| UdpProto.Back4AsWritten | tunnel/udp_proto.go:91-107 | As written a V4 footer is never recognised |
| UdpProto.Back6AsWritten | tunnel/udp_proto.go:108-131 | As written a V6 footer is recovered if and only if both ends, the ports and the flow label all repeat its first octets |
| ControlMessage.Pong.ExpiryAsWritten | tunnel/control_message.go:91-92 | As written an expiry x reads back as 2^56 + x / 256 with the octet x % 256 left in the stream |
| Timing.UpdatePings | tunnel/simples_tunnel.go:107-123 | One `Update` pings exactly once, stamping the timer, when it is past the expiry check and the wrapped age of the last ping exceeds 1000 ms, and otherwise not at all; it never moves the address and never confirms |
| Timing.OtherPings | tunnel/simples_tunnel.go:84-105 | No other step pings or stamps a timer; the ping timer and the confirmation are cleared exactly by an address change |
| Sessions.SetupInitial | tunnel/simples_tunnel.go:38-60 | What `Setup` yields has one control address in both places, no timer set, no UDP session, no pong stamp and no forced expiry |
| Establishing.FeedDelivered | tunnel/control.go:91-124 | Repaired: a feed its sender can write reaches the channel as its reduced form, if the buffer holds it; what it does there is `Hearing.ChannelEffect` |
| Establishing.DetailsStored | tunnel/udp_tunnel.go:85-105 | Repaired: the encoded details arriving on the channel are stored and their token sent, or change nothing if in force, and nothing else of the tunnel changes |
| Confirmation.StepConfirms | tunnel/udp_tunnel.go:205-209 | Each step keeps the confirmation, sets it because of such a datagram, or clears it because the address changed |
| Lifecycle.BranchEntered | tunnel/simples_tunnel.go:128-136 | With both timestamps unset the resend branch is entered if and only if the two seconds samples of one `Update` lie at most 5 and beyond 10 |
| Lifecycle.KeepAliveCondition | tunnel/simples_tunnel.go:145-162 | A keep-alive goes out if and only if its timer has run out and the present time or the expiry lies in the first 30 seconds of the epoch |
| Lifecycle.FeedBudget | tunnel/simples_tunnel.go:164-169 | The receive loop depends on at most 30 reads |
| Lifecycle.FeedGivesUp | tunnel/simples_tunnel.go:164-187 | The tenth failure ends the receive loop, whatever kind the failures are and whatever comes between them: nothing after it is looked at |
| ControlFeeds.ControlFeed.PrefixFree | tunnel/control_feed.go:77-110 | Two written feeds at the head of one stream are the same reduced feed with the same rest |
| ControlFeeds.ResponseBack | tunnel/rpc.go:18-36 | The same normal form, as an equivalence, for framed responses |
| ControlFeeds.NewClient.Back | tunnel/control_feed.go:45-70 | A new-client message is recovered if and only if its three addresses are valid |
| ControlFeeds.ClaimInstructions.Back | tunnel/control_feed.go:15-35 | Claim instructions are recovered if and only if the address is valid |
| ControlMessage.ControlRequest.Back | tunnel/control_message.go:185-233 | A written request reads back as its first alternative, which is the request itself if it is the only one, if and only if that alternative survives: a ping only under the repair, a registration only with valid addresses and a 32-octet signature, a port mapping never |
| ControlMessage.ControlRequest.Reduced | tunnel/control_message.go:185-212 | Reducing keeps one alternative, keeps the encoding, and is the identity when there is one |
| ControlMessage.ControlResponse.Back | tunnel/control_message.go:339-411 | The same equivalence for responses, in the writer's order of priority |
| ControlMessage.ControlResponse.Reduced | tunnel/control_message.go:339-381 | Reducing keeps one alternative, keeps the encoding, and is the identity when there is one |
| ControlMessage.Ping.Back | tunnel/control_message.go:16-49 | A ping is recovered by the repaired reader and never by the one as written, even with both options set |
| ControlMessage.Pong.Back | tunnel/control_message.go:61-94 | A pong is recovered if and only if the reader is repaired and both addresses are valid |
| ControlMessage.AgentRegister.Back | tunnel/control_message.go:102-152 | A registration is recovered if and only if its addresses are valid and its signature has 32 octets |
| ControlMessage.AgentRegistered.Back | tunnel/control_message.go:240-255 | A registration reply is recovered |
| ControlMessage.AgentCheckPortMapping.Back | tunnel/control_message.go:159-175 | The stub reader recovers the session and leaves the whole port range in the stream |
| ControlMessage.AgentPortMapping.Parse | tunnel/control_message.go:292-299 | Reading a port mapping fails on every stream |
| ControlMessage.UdpChannelDetails.Back | tunnel/control_message.go:306-326 | Channel details are recovered if and only if the address is valid |
| BigInt.AddrPort.Back | tunnel/bigint.go:180-219 | A socket address is recovered if and only if it is valid |
| BigInt.AddrPort.Truncated | tunnel/bigint.go:201-219 | A cut inside the octets fails, a cut inside the port yields port 0 |
| BigInt.TokenTruncated | tunnel/bigint.go:53-79 | A cut inside the length of a token yields the empty token, a cut after it fails |
| Lib.AgentSessionId.Back | tunnel/lib.go:46-61 | A session identifier is recovered |
| Lib.PortProto.Back | tunnel/lib.go:19-40 | The three names and their codes determine each other, both ways |
| UdpProto.UdpFlow.Encode | tunnel/udp_proto.go:33-38 | A one-family footer is exactly `Len` octets long |
| UdpTunnels.SetIdempotent | tunnel/udp_tunnel.go:89-94 | Identical details change nothing and send nothing; the repair stores all others, the code as written none |
| UdpTunnels.AuthInWindow | tunnel/udp_tunnel.go:77-83 | When no timestamp is ahead of the clock, authorisation is needed exactly if neither a later confirmation nor a send in the last 5 seconds stands |
| UdpTunnels.NeverConnectedAsWritten | tunnel/udp_tunnel.go:85-105 | As written every sequence of details leaves the tunnel unconnected: nothing can be received, confirmed or resent |
| UdpTunnels.PayloadIgnoredAsWritten | tunnel/udp_tunnel.go:215 | As written datagrams of one length that are not the token have the same outcome and leave the session alone; only the caller's buffer keeps what they contain. With a session this is what the code would do, as written it never has one (`UdpTunnels.NeverConnectedAsWritten`) |
| LanAddress.AlwaysLoopback | tunnel/lan_address.go:36-41 | Every peer gets an address in 127/8 (section 3.2.1.3 of RFC 1122) |
| LanAddress.MappedLikePlain | tunnel/lan_address.go:26-27 | The IPv4-mapped form of an address (section 2.5.5.2 of RFC 4291) goes where the address goes |
| Controls.ContentsDeferredAsWritten | tunnel/control.go:92-102 | As written replies of one length from the control address have the same immediate effect; the buffer keeps each of them, and is all they differ in |
| Controls.ContentsMatterLater | tunnel/control.go:92-102 | As written two registration replies that differ at all, each followed by an empty datagram, end in two different decoded feeds |
| Controls.NothingBehind | tunnel/control.go:91-105 | As written a read hears nothing when only zeros lay behind its datagram, in particular when the datagram is at least as long as the buffer before the read |
| Lifecycle.WhatFails | tunnel/simples_tunnel.go:170-187 | A pass fails if and only if no feed is decoded, or it brings details not in force whose address needs an IPv6 socket that is missing |
| Lifecycle.FeedSilent | tunnel/simples_tunnel.go:164-175 | If nothing is received, the receive loop has no result and no event |
| Updating.PingFirst | tunnel/simples_tunnel.go:117-123 | A ping with the clock, the current ping and the session goes out first, exactly when more than 1000 ms have passed, and the rest of `Update` is as if it had been sent before |
| Updating.QuietBranch | tunnel/simples_tunnel.go:128-210 | Where neither authorisation nor a resend is required, nothing is sent or read |
| Updating.ClientHandedOver | tunnel/simples_tunnel.go:177-178 | Repaired: an `Update` that reads the feed returns the client of an encoded new-client message that arrives first |
| Hearing.LoopReads | tunnel/simples_tunnel.go:170-178 | A read that makes out no feed goes on with one more failure; a client ends the loop and is its result |
| Hearing.LoopEnds | tunnel/simples_tunnel.go:165-169 | After 30 reads or 10 failures the loop ends without a result |
| Hearing.RegistrationHeard | tunnel/control.go:108-111 | Repaired: an encoded registration from the control address is the session from then on |
| Hearing.RegistrationHeardLate | tunnel/control.go:102-111 | As written it is so one read later, if that receives an empty datagram |
| Hearing.PongHeard | tunnel/control.go:112-119 | Repaired: an encoded pong sets the last pong, the current ping and, if it has one, the expiry |
| Registering.EveryEvent | tunnel/setup.go:141-186 | Every event either passes, fails with one of the reasons or registers |
| Registering.FirstReplyAccepted | tunnel/setup.go:175-185 | An encoded registration that arrives first is accepted, under both readers |
| Registering.NotAttempted | tunnel/setup.go:104-120 | Without both addresses in the pong, or without a signed token, nothing is sent |
| UdpTunnels.Refusals | tunnel/udp_tunnel.go:132-195 | Sending needs, exactly, details and a socket for their address; receiving is refused for the reason that applies, without change but for the buffer |
| UdpTunnels.Understood | tunnel/udp_tunnel.go:201-224 | Repaired, for every datagram from a known address: token, packet of its flow, or refusal, by the last octets |
| UdpProto.Identifiers | tunnel/udp_proto.go:11-19 | The three flow identifiers and the establish identifier, octet by octet |
| Wire.RequestLayout | tunnel/control_message.go:185-212 | The tag and content of the first alternative that is set, in order |
| Wire.ResponseLayout | tunnel/control_message.go:339-381 | The tag and content of the first alternative that is set, in order |
| Wire.FrameLayout | tunnel/control_feed.go:77-93 | Where tags and request ids stand in requests and feeds |
| Wire.PingLayout | tunnel/control_message.go:16-39 | The position of every field of a ping |
| Wire.PongLayout | tunnel/control_message.go:61-78 | The position of every field of a pong |
| Wire.RegisterLayout | tunnel/control_message.go:102-134 | The position of every field of a registration |
| Wire.ClientLayout | tunnel/control_feed.go:45-57 | The position of every field of a new-client message |
| Wire.AddressLayout | tunnel/bigint.go:180-200 | Family, octets and port of an address |
| Wire.SessionLayout | tunnel/lib.go:46-57 | The position of every field of a session identifier |
| Wire.Unknown | tunnel/control_message.go:214-233 | Every other tag or family is refused, the ping's own tag included as written |
| Wire.Surviving | tunnel/control_message.go:185-233 | What a writer's choice needs to be read back |
| BigInt.OddPrefixes | tunnel/bigint.go:117-123 | An option octet other than 1 means no value; a token length that is not an `int` stops the reader |
| Peers.Ip4Mapped | tunnel/lan_address.go:26-27 | An IPv4 peer is hashed as the number its four octets stand for, most significant first |
| Peers.Ip6Mapped | tunnel/lan_address.go:28-34 | An IPv6 peer is hashed as its four words, each shuffled, combined; an IPv4-mapped one as its last word |
| Peers.FoldHalves | tunnel/lan_address.go:10-12 | The shift and exclusive or of `shuffle`: the high half stays, the low half is combined with it |
| Peers.ShuffleOf | tunnel/lan_address.go:9-14 | `shuffle` undoes the multiplications by 0xdd72673b, which fixes its constant |
| Peers.LocalPorts | tunnel/lan_address.go:68 | Two ports share a local port exactly if they agree modulo 24000 |
| LanAddress.Ip4FibreSizes | tunnel/lan_address.go:16-22 | Exactly 512 of the 32-bit words are masked to 127.0.0.1, exactly 256 to every other address from 127.0.0.2 to 127.255.255.255, and none elsewhere |
| LanAddress.Ip6FibreSizes | tunnel/lan_address.go:27-34 | With three words of an IPv6 address fixed, the fourth has the same counts; if the fixed ones leave the IPv4-mapped prefix to be completed by it, one value moves from where its key sends it to where the last word goes as an IPv4 address, and the counts are exact in that case too |
| ControlFeeds.ControlFeed.WriteTo | tunnel/control_feed.go:77-93 | Appends the encoding, and fails if and only if nothing can be written |
| ControlFeeds.ControlFeed.ReadFrom | tunnel/control_feed.go:95-110 | Yields what the specification parser yields and leaves the same stream, also on failure |
| ControlMessage.ControlRequest.WriteTo | tunnel/control_message.go:185-212 | Appends the encoding, and fails if and only if nothing can be written |
| ControlMessage.ControlRequest.ReadFrom | tunnel/control_message.go:214-233 | Yields what the specification parser yields and leaves the same stream, also on failure |
| ControlMessage.ControlResponse.WriteTo | tunnel/control_message.go:339-381 | Appends the encoding, and fails if and only if nothing can be written |
| ControlMessage.ControlResponse.ReadFrom | tunnel/control_message.go:383-411 | Yields what the specification parser yields and leaves the same stream, also on failure |
| ControlMessage.Ping.ReadFrom | tunnel/control_message.go:40-49 | Field by field, as written and repaired |
| ControlMessage.Pong.ReadFrom | tunnel/control_message.go:79-94 | Field by field, as written and repaired, failing where an address does |
| BigInt.Buffer.ReadUint | tunnel/bigint.go:23-57 | A short integer read swallows the rest of the stream and yields 0 |
| BigInt.Buffer.ReadBuff | tunnel/bigint.go:67-74 | Succeeds if and only if the stream is long enough; on failure the stream is used up and the octets read stay in the buffer |
| UdpProto.UdpFlow.WriteTo | tunnel/udp_proto.go:53-83 | Appends the footer in the order of the wire |
| UdpTunnels.UdpTunnel.constructor | tunnel/udp_tunnel.go:29-54 | A fresh session has no details, history or timestamps |
| UdpTunnels.UdpTunnel.InvalidateSession | tunnel/udp_tunnel.go:62-65 | Clears both timestamps and keeps details and history |
| UdpTunnels.UdpTunnel.Set | tunnel/udp_tunnel.go:85-105 | Whole new state, events and error of `SetUdpTunnel` |
| UdpTunnels.UdpTunnel.Resend | tunnel/udp_tunnel.go:107-116 | Sends the token in force if there is one |
| UdpTunnels.UdpTunnel.SendTokenTo | tunnel/udp_tunnel.go:118-130 | Stamps the send second unless the address needs an IPv6 socket that is missing |
| UdpTunnels.UdpTunnel.SendData | tunnel/udp_tunnel.go:147-159 | The datagram is the payload followed by the footer, to the present relay address, if there is a socket for it |
| UdpTunnels.UdpTunnel.Receive | tunnel/udp_tunnel.go:178-225 | Whole new state, buffer contents and outcome: refusal and its reason, confirmation, or packet |
| Controls.AuthenticatedControl.Receive | tunnel/control.go:91-124 | Whole new channel state and feed for every read |
| Controls.AuthenticatedControl.Apply | tunnel/control.go:106-121 | A registration replaces the session, a pong replaces the last pong and the expiry, in that priority |
| Controls.AuthenticatedControl.Send | tunnel/control.go:22-34 | The buffer holds the message just encoded, or nothing |
| Controls.AuthenticatedControl.SendPing | tunnel/control.go:54-65 | The ping carries the clock, the current ping and the registered session |
| Controls.AuthenticatedControl.SendKeepAlive | tunnel/control.go:36-43 | The keep-alive carries the registered session |
| Controls.AuthenticatedControl.SendSetupUDPChannel | tunnel/control.go:45-52 | The UDP setup request carries the registered session |
| Controls.AuthenticatedControl.Authenticate | tunnel/control.go:126-141 | Whole new channel state after a repeated registration, unchanged if it fails |
| SimplesTunnels.SimplesTunnel.Start | tunnel/simples_tunnel.go:38-60 | Succeeds if and only if socket, routing, probing and registration do, in the state `Setup` defines, timers and targets staying as they were; a failure leaves all but the UDP session as it was |
| SimplesTunnels.SimplesTunnel.Advance | tunnel/simples_tunnel.go:107-213 | One `Update`: whole new state, result and events |
| SimplesTunnels.SimplesTunnel.AdvanceSession | tunnel/simples_tunnel.go:128-204 | Authorisation, or resend, keep-alive and receive loop, by the two predicates on the seconds clock |
| SimplesTunnels.SimplesTunnel.RequestAuth | tunnel/simples_tunnel.go:129-134 | UDP setup request once its timer has run out |
| SimplesTunnels.SimplesTunnel.ResendIfDue | tunnel/simples_tunnel.go:137-143 | Token resend once the shared timer has run out |
| SimplesTunnels.SimplesTunnel.KeepAliveIfDue | tunnel/simples_tunnel.go:145-162 | Keep-alive and UDP setup request once the timer and the timestamp condition allow |
| SimplesTunnels.SimplesTunnel.WatchPong | tunnel/simples_tunnel.go:206-210 | An overdue pong is forgotten and forces expiry |
| SimplesTunnels.SimplesTunnel.ReceiveFeeds | tunnel/simples_tunnel.go:164-204 | The receive loop computes the recursion over at most 30 reads and 10 failures |
| SimplesTunnels.SimplesTunnel.ReceiveFeed | tunnel/simples_tunnel.go:170-203 | One pass: new state, whether it counts as a failure, and what `Update` returns |
| SimplesTunnels.SimplesTunnel.ActOn | tunnel/simples_tunnel.go:177-202 | A new client is returned, details go to the UDP session, a pong is stamped, unauthorized ends the loop, in that priority |
| SimplesTunnels.SimplesTunnel.ChangeControlAddr | tunnel/simples_tunnel.go:84-105 | Whole new state after `UpdateControlAddr` |
| SimplesTunnels.SimplesTunnel.Reload | tunnel/simples_tunnel.go:62-82 | Whole new state after `ReloadControlAddr` |
| Handshakes.HandleReply | tunnel/setup.go:138-186 | One pass of the inner loop gives the verdict of the specification on the event read: end the round, skip, or decide with which error or registration |
| Handshakes.RunAuthenticate | tunnel/setup.go:103-190 | The loops compute the fold, and the remaining receive buffer becomes the channel's buffer |
| Handshakes.HandlePong | tunnel/setup.go:59-89 | One pass of the inner loop gives the verdict of the specification on the event read |
| Handshakes.RunProbe | tunnel/setup.go:30-91 | The loops over pings and reads compute the fold for one address |
| Handshakes.RunFindSuitableChannel | tunnel/setup.go:18-95 | The loop over addresses stops at the first answer or abort and passes over silent addresses |

## Left out

- The HTTP API, its JSON and `openapi.yaml` (`api/*`): the results of `AgentRoutings` and `ProtoRegisterRegister` are inputs.
- `tunnel/runner.go` and `tunnel/tcp_tunnel.go`: goroutines, signals, dialling and process exit; runs of `Update` and `ReloadControlAddr` stand for the runner.
- Sockets, deadlines, sleeps, logging, JSON dumps and hexadecimal text; a read deadline that cannot be set counts as a failed read.
- Network errors of the control channel's own sends inside `Update`: the Go code logs them, and no state depends on them.
- The pings of the probing handshake are counted, not recorded as events of a run.
- `tunnel/rwlock` and interleavings of the lock: every `UdpTunnel` method is atomic.
- Aliasing of pointers and half-filled receivers: messages are values, so that the channel's first pong is the same object as its last pong, which only a log line looks at, is not captured, nor what a reader has assigned before it fails.
- Sharing of backing arrays by `append`: appends copy.
- Memory: a token length that is not an `int` stops the program here (`SliceTooLong`); shorter ones that exceed memory do not.
- IPv6 zones; peers are compared as addresses, where the handshakes compare their text.
- The size test before the footer is parsed (tunnel/udp_tunnel.go:211): a read never exceeds its buffer, so it never holds.
- A port range has no format to invert, because its writer gives no address family and its reader is a stub (tunnel/lib.go:70-85); what both do is modelled.
- `net.IPv4` returns 16 octets; the model returns the last four, which carry the address.
- The dialling in `TcpSocket` and `UdpSocket`; the expression for the local port is `LanAddress.LocalPort`.
- `ReadU8Buff` and its three siblings, `ReadOption`, `WriteOption`, the 8- and 16-bit option writers, the `RawSlice` reader, `IntoRequiresAuth`, `IsSetup`: nothing modelled here uses them.
- `tunnel/address_lookup.go`: a first-match scan.
