# wstunnel, modelled and proved

wstunnel tunnels TCP, UDP, unix socket and SOCKS5 traffic through websocket or HTTP/2 connections.
This project models the parts of it whose correctness depends on many small steps going right
together, and proves what those parts are for. `dafny verify dfyconfig.toml` checks all of it.

- **UDP server** (`Notify`, `UdpDemux`, `UdpDemuxSafety`, `UdpDemuxDrain`, `UdpServer`, `Watchdog`): one socket is
  shared by a server that only peeks and by one stream per peer; clearance to read is handed around
  through two notifications per stream. `UdpDemux` has every await point and shared access as a step
  of its own, `UdpDemuxSafety` and `UdpDemuxDrain` prove its promises for every interleaving; `UdpServer` is the
  object with its loops, each method being a run of those steps; `Watchdog` is the inactivity timer.
- **SOCKS5 UDP relay** (`Socks5Udp`, `Socks5Drain`): the relay that reads all datagrams itself and
  routes them through bounded channels.
- **Tunnel transport** (`Transport`, `TransportLaws`, `TransportDrain`, `TunnelBuffers`, `TunnelLoops`, `Http2Stream`):
  two endpoints, each with a writer and a reader loop that talk through a bounded queue of control
  frames and a broadcast notification, in any schedule; the reading and writing halves and the two
  loops as objects; the HTTP/2 direction, where frames may be cut and merged.
- **SCP** (`ScpHeader`, `ScpFiles`, `ScpReceiver`, `ScpSession`, `ScpLockstep`, `ScpProgram`): header
  lines down to the bytes, trees and file systems, the receiver as a machine over messages, an upload
  fed to a download, both running interleaved, and the loops of the client.
- **Certificate reload** (`TlsReload`): file event handlers against the accept loop.
- **Rate limits** (`RateLimiter`, `RateLimiterPool`, `Jitter`): quota, chunk and bucket arithmetic,
  all connections of a server over time, and the lock-free jitter source.
- **Reverse tunnel listeners** (`ReverseTunnel`, `ReverseDrain`, `ReverseListener`): listener task, requests,
  registry and the idle check.
- **Restrictions** (`Restrictions`) and **address order** (`AddrInterleave`). `Common` has what they share.

A protocol is a `State`, a set of steps with `Enabled` and `Apply`, and `Reached` states; an
invariant is kept by every step, hence holds in every reached state, and the promises follow from
it. Where the program changes fields in place there is also a class whose methods have the
program's branches and loops and are tied to that step model or to a function.

What the models take as given:

- Atomic accesses are sequentially consistent; `tokio::sync::Notify`, `mpsc`, `async_channel` and
  `Interval` behave as documented; a wire between endpoints is first in, first out.
- UDP read buffers are large enough for a datagram. Timeouts are positive. Time does not go back.
- `reserve(n)` on an empty buffer yields a capacity between `n` and the larger of `n` and twice the
  old one. The rate limiter library is an ideal token bucket in nanosecond time.
- A header line of the SCP protocol arrives in one chunk (`ScpSession.CutLineIsLost` shows that it
  has to), payloads in any non-empty chunks.
- `IpAddr::from_str` and other regular expressions than the two the flags compile to are parameters.

Where code and words disagree the code is followed:

- `resolver.rs` line 26 says the first address is a version 6 one if there is any; the code asks for
  the preference (`AddrInterleave.FirstIsV6`, `AddrInterleave.FirstIsV4WithoutPreference`).
- `restrictions.yaml` lines 24 and 46-51 have a rule's protocol list name what is allowed; of a reverse
  unix socket only the path is checked (`Restrictions.UnixSocketIgnoresTheList`, `Restrictions.ListedProtocolsOnly`).
- `rate_limiter.rs` line 116 names xorshift64*; the code has no multiplication. Its jitter is meant to go
  either way; the chunk is cut to the room and to 16384, so it only shrinks (`RateLimiter.JitterOnlyShrinks`).

Promises that do not hold for all inputs are stated with the exact condition:
`ScpHeader.HeaderRoundTrip` (names ending in a newline), `ScpReceiver.PayloadIsExact` (an empty chunk
where the terminator is looked for), `TransportLaws.NoLostWakeup` (frames before the writer listens),
`RateLimiter.BurstIsSixFifths` (quotas from 4096 MiB/s), `RateLimiter.PanicExactly` (room whose low 32
bits are zero), `RateLimiter.ChunkFitsBurst` (quota zero), `ScpReceiver.SizeMustMatch` and `ScpProgram.SteadyExactly`
(a file that changes while it is sent), `ReverseTunnel.StaleExactly` (an entry put in after its listener has taken it out),
`Restrictions.ListedProtocolsOnly` (reverse unix sockets), `Restrictions.CompiledRulesMean` (empty names,
newlines).

## Model

| member | source | states |
|---|---|---|
| `UdpDemuxSafety.StepKeepsInv` | wstunnel/src/protocols/udp/server.rs:258-298 | every step of the server, of a poll, of a drop or of the network keeps the whole invariant: registry, token, notifications, pending answers, ledger |
| `UdpDemuxSafety.RunKeepsInv` | wstunnel/src/protocols/udp/server.rs:258-298 | and so does every interleaving of them |
| `UdpDemuxSafety.TokenIsExclusive` | wstunnel/src/protocols/udp/server.rs:200-215 | in every reached state at most one stream is cleared to take from the shared socket, and the head datagram is from that stream's peer |
| `UdpDemuxSafety.DeliveryIsFaithful` | wstunnel/src/protocols/udp/server.rs:183-218 | delivered followed by queued is exactly what arrived, in order; every peer's streams received exactly that peer's datagrams, in order |
| `UdpDemuxSafety.RegistryIsExact` | wstunnel/src/protocols/udp/server.rs:268-295 | while the server runs the registered peers are the disjoint union of the live and the dead-listed ones, live streams have distinct peers and their own entry, a sweep evicts no live stream |
| `UdpDemuxSafety.AwaitedPeerIsRegistered` | wstunnel/src/protocols/udp/server.rs:262-266 | the peer of a stream just handed out is always still registered, so the server does await its first read |
| `UdpDemuxSafety.NextStepGetsCloser` | wstunnel/src/protocols/udp/server.rs:258-298 | whenever a datagram is queued some step of the server or of a stream is enabled and brings it closer to delivery |
| `UdpDemuxDrain.HelpfulStepsCost` | wstunnel/src/protocols/udp/server.rs:120-218 | every step of the server, a poll or a drop that changes anything lowers a measure, so none of them can go on for ever |
| `UdpDemuxDrain.EveryScheduleDrains` | wstunnel/src/protocols/udp/server.rs:258-298 | no wake-up is lost, drops included: from every reached state of a running server every schedule of its own steps is bounded, and one that cannot go on has delivered everything that arrived |
| `UdpDemuxDrain.EveryDatagramIsDelivered` | wstunnel/src/protocols/udp/server.rs:258-298 | a datagram can arrive at any time, and every schedule that cannot go on has delivered it after all that came before |
| `UdpDemuxSafety.StopsExactlyByFailing` | wstunnel/src/protocols/udp/server.rs:270-289 | the server stops exactly by failing to peek or to make a stream, or by being cancelled |
| `UdpDemuxSafety.StoppedForGood` | wstunnel/src/protocols/udp/server.rs:272-276 | and then no stream is made or served and no peer forgotten, whatever the streams do |
| `UdpServer.UdpServer.constructor` | wstunnel/src/protocols/udp/server.rs:78-84 | an empty server, with or without a timeout, is the initial state of the step model |
| `UdpServer.UdpServer.CleanDeadKeys` | wstunnel/src/protocols/udp/server.rs:87-99 | exactly the listed keys leave the registry and the list is emptied |
| `UdpServer.UdpServer.ServerStep` | wstunnel/src/protocols/udp/server.rs:260-297 | one stretch of the server task is one step of the step model |
| `UdpServer.UdpServer.AwaitAnswer` | wstunnel/src/protocols/udp/server.rs:262-281 | awaiting the stream that holds the token, and taking its answer |
| `UdpServer.UdpServer.ServePeer` | wstunnel/src/protocols/udp/server.rs:278-280 | a known peer's stream is handed the token |
| `UdpServer.UdpServer.AcceptPeer` | wstunnel/src/protocols/udp/server.rs:283-294 | an unknown peer gets a stream and an entry, and a watchdog that fires exactly from one timeout later on; no other watchdog is touched |
| `UdpServer.UdpServer.PollServer` | wstunnel/src/protocols/udp/server.rs:258-298 | polling the connection stream terminates: with a new stream for the head datagram's unknown peer and its watchdog set now, all others untouched, or waiting for a datagram or for a stream that can still answer |
| `UdpServer.UdpServer.CheckDeadline` | wstunnel/src/protocols/udp/server.rs:186-198 | the watchdog part of a poll, with its loop over missed ticks, is the specification's timer step |
| `UdpServer.UdpServer.TryTake` | wstunnel/src/protocols/udp/server.rs:200-217 | a poll takes a datagram exactly when the stream is cleared; it is the head, of the stream's own peer, and the clearance is spent |
| `UdpServer.UdpServer.PollRead` | wstunnel/src/protocols/udp/server.rs:183-218 | the whole poll equals its run of steps; an accepted stream times out only more than one timeout after its last read, or one after it was accepted |
| `UdpServer.UdpServer.DropStream` | wstunnel/src/protocols/udp/server.rs:120-133 | a drop lists the key before it tells the server, and leaves a reachable state |
| `UdpServer.PollFollows` | wstunnel/src/protocols/udp/server.rs:186-198 | the watchdog of a stream is what all its polls since it was accepted make of a new one, and fires only after that much silence |
| `UdpServer.ReadSpendsToken` | wstunnel/src/protocols/udp/server.rs:205-215 | a cleared stream finds its own datagram at the head, and is not cleared any more after reading it |
| `UdpServer.WaitIsForSomebody` | wstunnel/src/protocols/udp/server.rs:281 | when the server waits for an answer the stream it waits for still holds the token or is being dropped |
| `UdpServer.ServerTurns` | wstunnel/src/protocols/udp/server.rs:268-297 | the server's loop cannot spin: each step without a new connection lowers a measure |
| `Watchdog.TimeoutMeansIdle` | wstunnel/src/protocols/udp/server.rs:186-198 | for every polling pattern a timeout means strictly more than one period since the last read, or at least one since creation |
| `Watchdog.SilenceTimesOut` | wstunnel/src/protocols/udp/server.rs:186-198 | polled within `slack` of each tick, a stream times out at most two periods and `slack` after its last read, one and `slack` after creation |
| `Watchdog.FirstAfter` | wstunnel/src/protocols/udp/server.rs:197 | the drained interval is at the first tick of its schedule that lies in the future |
| `Watchdog.StaysOnSchedule` | wstunnel/src/protocols/udp/server.rs:197 | draining skips whole periods and no tick that is still to come |
| `Socks5Udp.StepKeepsInv` | wstunnel/src/protocols/socks5/udp_server.rs:244-297 | every step of the relay, of a stream and of its drop keeps the registry and routing invariant |
| `Socks5Udp.RegistryIsSafe` | wstunnel/src/protocols/socks5/udp_server.rs:244-297 | registered keys lie between live and live or dead-listed; live streams have distinct keys; neither the sweep nor the removal after a failed send evicts a live stream |
| `Socks5Udp.RoutingIsFaithful` | wstunnel/src/protocols/socks5/udp_server.rs:244-297 | what came off the socket is what was dealt with and what is in hand; for every key what was not discarded is in order what the streams of that key, one after the other, took and hold; nothing is discarded while no stream of the key is gone |
| `Socks5Udp.StreamIsFaithful` | wstunnel/src/protocols/socks5/udp_server.rs:177-213 | what a stream took and holds is exactly what was queued for it, all of its own key, at most 1024 queued |
| `Socks5Udp.LossesAreCounted` | wstunnel/src/protocols/socks5/udp_server.rs:276-295 | every datagram of a key is taken or queued in the open stream, left in a dropped stream, or discarded by a failed send; the last two never for a key whose streams are all open |
| `Socks5Udp.FailedSendsAreToTheDead` | wstunnel/src/protocols/socks5/udp_server.rs:278-280 | a send fails only for a stream that is gone and whose key is already listed as dead |
| `Socks5Udp.SendIsReleased` | wstunnel/src/protocols/socks5/udp_server.rs:276-281 | a send that waits for room is released by its own stream, by a take or by the end of its drop |
| `Socks5Udp.StopsExactlyByFailing` | wstunnel/src/protocols/socks5/udp_server.rs:250-270 | the relay stops exactly by failing to receive or by being cancelled; a datagram that is not well formed changes nothing |
| `Socks5Udp.StoppedForGood` | wstunnel/src/protocols/socks5/udp_server.rs:250-254 | and then nothing is received, routed or registered |
| `Socks5Udp.Socks5UdpServer.CleanDeadKeys` | wstunnel/src/protocols/socks5/udp_server.rs:85-97 | exactly the listed keys leave the registry |
| `Socks5Udp.Socks5UdpServer.ReceiveOne` | wstunnel/src/protocols/socks5/udp_server.rs:245-296 | one turn of the receive loop: a new stream exactly for a key that is not registered after the sweep |
| `Socks5Udp.Socks5UdpServer.FinishSend` | wstunnel/src/protocols/socks5/udp_server.rs:278-280 | the awaited send either queues or removes the entry |
| `Socks5Udp.Socks5UdpStreamWriter.PollWrite` | wstunnel/src/protocols/socks5/udp_server.rs:216-222 | the datagram is header and payload, the caller hears the payload's length, the header buffer is restored on every outcome |
| `Socks5Drain.OwnStepCosts` | wstunnel/src/protocols/socks5/udp_server.rs:177-281 | every step of the relay or a stream that needs no new datagram, drop or failure lowers a measure |
| `Socks5Drain.EveryScheduleDrains` | wstunnel/src/protocols/socks5/udp_server.rs:244-297 | every schedule of such steps is bounded, and one that cannot go on has the relay back at its socket with every datagram dealt with, none discarded but to a stream that is gone, and every open stream has read all it was sent |
| `TransportLaws.StepKeepsLaws` | wstunnel/src/tunnel/transport/io.rs:98-205 | every step of either loop of either endpoint keeps the ping, stream, wake-up and order laws of both |
| `TransportLaws.RunKeepsLaws` | wstunnel/src/tunnel/transport/io.rs:98-205 | and so does every schedule |
| `TransportLaws.PingsAreConserved` | wstunnel/src/tunnel/transport/websocket.rs:102-157 | the in-flight counter equals pings on the wire, in the peer's hands, pongs on the way back and pongs waiting at home, plus what died with an ended loop |
| `TransportLaws.PingLimitIsExact` | wstunnel/src/tunnel/transport/websocket.rs:102-119 | the counter never underflows or exceeds three in a live loop; a tick ends the loop exactly when three pings are unanswered |
| `TransportLaws.StreamIsPreserved` | wstunnel/src/tunnel/transport/io.rs:123-202 | what is written at the far side is a prefix of what was read at the near side, by chunks and by bytes; each read is one frame and one write |
| `TransportLaws.NoLostWakeup` | wstunnel/src/tunnel/transport/io.rs:116-142 | control frames are handled in order, and a waiting writer that is not woken leaves exactly the frames announced before it listened, besides the one being announced |
| `TransportLaws.QueueNeverFills` | wstunnel/src/tunnel/transport/websocket.rs:166-178 | of the ten places for control frames at most eight are ever taken, so a reader never waits for room |
| `TransportLaws.ClosesAreTold` | wstunnel/src/tunnel/transport/io.rs:170-172 | a writer loop that ends and can still write sends a close last, and answers a close with one |
| `TransportLaws.ReaderEndsExactly` | wstunnel/src/tunnel/transport/io.rs:187-202 | a reader loop ends exactly by a failure, a cancellation or a close, and then exactly a first part of its chunk is written |
| `TransportLaws.AnythingCanBeRead` | wstunnel/src/tunnel/transport/io.rs:144 | whatever the local side has can be read whenever the writer selects, and is recorded |
| `TransportDrain.CloseGetsThrough` | wstunnel/src/tunnel/transport/websocket.rs:226-232 | with the writer running, a reader that can do nothing more has ended or has taken everything sent |
| `TransportDrain.OwnStepCosts` | wstunnel/src/tunnel/transport/io.rs:98-205 | every step of a loop that needs no new data, tick or failure keeps both loops running and lowers a measure if it changes anything |
| `TransportDrain.EveryScheduleSettles` | wstunnel/src/tunnel/transport/io.rs:98-205 | with the loops running, every control frame heard of and no close under way, every schedule of such steps is bounded, and one that cannot go on has written every chunk read at the other side and answered every ping, in both directions |
| `TransportLaws.EarlyFrameIsNotHeard` | wstunnel/src/tunnel/transport/io.rs:116-118 | the exception is real: a frame announced before the first `Notified` exists stays queued with nobody to wake the writer |
| `TunnelBuffers.CapacityIsBounded` | wstunnel/src/tunnel/transport/websocket.rs:81-97 | over any reads the buffer has room for a packet, never shrinks, stays below 64 MiB, and does not grow for datagrams |
| `TunnelBuffers.DrainedAnswers` | wstunnel/src/tunnel/transport/websocket.rs:133-157 | draining answers every ping with a pong in order and takes every pong off the counter, which wraps around on unsolicited ones |
| `TunnelBuffers.WebsocketTunnelWrite.constructor` | wstunnel/src/tunnel/transport/websocket.rs:42-53 | a fresh writer satisfies the loop-head condition |
| `TunnelBuffers.WebsocketTunnelWrite.ReadThenWrite` | wstunnel/src/tunnel/transport/websocket.rs:61-100 | one read becomes one frame; the buffer is empty again and grown as specified; failure sends nothing |
| `TunnelBuffers.WebsocketTunnelWrite.Ping` | wstunnel/src/tunnel/transport/websocket.rs:102-119 | the counter is raised in every case; the ping goes out exactly if fewer than three were in flight and the wire takes it |
| `TunnelBuffers.WebsocketTunnelWrite.HandlePendingOperations` | wstunnel/src/tunnel/transport/websocket.rs:133-157 | the drain loop sends exactly the replies of the queue and lowers the counter, wrapping, once per pong; or a prefix of the replies when the wire fails |
| `TunnelBuffers.WebsocketTunnelRead.Copy` | wstunnel/src/tunnel/transport/websocket.rs:187-234 | the receive loop queues control frames in order, one notification each, until data, close, an empty wire or a full queue |
| `TunnelBuffers.Http2TunnelWrite.constructor` | wstunnel/src/tunnel/transport/http2.rs:77-84 | a fresh writer satisfies the loop-head condition |
| `TunnelBuffers.Http2TunnelWrite.ReadThenWrite` | wstunnel/src/tunnel/transport/http2.rs:91-104 | the filled part is sent off, and the loop-head condition holds again whether or not the channel is open |
| `TunnelLoops.PropagateLocalToRemote` | wstunnel/src/tunnel/transport/io.rs:98-175 | every round writes what a round does that goes on, so every read is one data frame, every queued frame answered and every tick one ping, until a round has a reason to end the loop; then a close follows unless a ping failed; no byte is lost but in a failed write |
| `TunnelLoops.WriterRound` | wstunnel/src/tunnel/transport/io.rs:129-168 | by what the round finds: as much as is ready and has room goes out as one frame, and the loop ends exactly at the end of the data or if that fails; all that is queued is answered, or the wire is full; a ping goes out, or three are in flight or the wire fails |
| `TunnelLoops.OneChunkPerRead` | wstunnel/src/tunnel/transport/io.rs:144-168 | rounds that went on sent exactly one chunk for every read |
| `TunnelLoops.ReaderRound` | wstunnel/src/tunnel/transport/io.rs:187-201 | one round takes pings and pongs up to the next data frame or close, and that too; it stops before only at an empty wire or a full queue; what it takes is queued, announced or written out |
| `TunnelLoops.PropagateRemoteToLocal` | wstunnel/src/tunnel/transport/io.rs:177-205 | every round does, until a close is taken, at which the loop ends exactly; what is written out is what the frames carry, in order |
| `Http2Stream.RunKeepsInv` | wstunnel/src/tunnel/transport/http2.rs:48-104 | every schedule of sends, carries, frames and failures keeps the bytes accounted for |
| `Http2Stream.BytesArePreserved` | wstunnel/src/tunnel/transport/http2.rs:48-69 | however frames are cut or merged, the bytes written are a prefix of the bytes read and the rest is under way |
| `Http2Stream.EveryScheduleDrains` | wstunnel/src/tunnel/transport/http2.rs:48-104 | with both sides running every schedule of sends, carries, frames and writes is bounded, and one that cannot go on has written every byte read |
| `Http2Stream.ChunkGetsThrough` | wstunnel/src/tunnel/transport/http2.rs:48-104 | any chunk, alone on its way, gets through in five steps |
| `Http2Stream.EndsExactly` | wstunnel/src/tunnel/transport/http2.rs:54-69 | writer and reader end exactly by their failures and ends, and a failed write leaves exactly its first part written |
| `Http2Stream.SendWaitsExactly` | wstunnel/src/tunnel/transport/http2.rs:91-98 | a send waits exactly while 1024 chunks are on the channel |
| `ScpHeader.PrintedNumberParses` | wstunnel/src/protocols/ssh/scp.rs:289 | every 64-bit size printed in decimal parses to itself |
| `ScpHeader.DigitsParseExactly` | wstunnel/src/protocols/ssh/scp.rs:289 | digits parse exactly if their number fits 64 bits, and to that number |
| `ScpHeader.HeaderRoundTrip` | wstunnel/src/protocols/ssh/scp.rs:281-292 | for every size and name the printed header parses to the size and the name without trailing newlines; to the very name exactly if it does not end in one |
| `ScpHeader.HeaderIsRead` | wstunnel/src/protocols/ssh/scp.rs:281-284 | a header that is no text is refused first of all; otherwise its line without trailing newlines is read |
| `ScpHeader.FieldsAreRead` | wstunnel/src/protocols/ssh/scp.rs:285-292 | with three fields, the second must be a number and the third is the name, spaces included; otherwise the size is bad |
| `ScpHeader.MalformedExactly` | wstunnel/src/protocols/ssh/scp.rs:285-288 | a line is malformed exactly if it has not three fields |
| `ScpHeader.NumbersAreRead` | wstunnel/src/protocols/ssh/scp.rs:289 | a number is digits after at most one plus sign that fit 64 bits, and has their value |
| `ScpHeader.EncodedIsValid` | wstunnel/src/protocols/ssh/scp.rs:282 | every text in UTF-8 is accepted as text |
| `ScpHeader.ValidIsEncoded` | wstunnel/src/protocols/ssh/scp.rs:282 | and nothing else is: what is accepted are the bytes of some text |
| `ScpHeader.SizeIsSettled` | wstunnel/src/protocols/ssh/scp.rs:285-289 | a header line cut short that still parses announces the size of the whole line |
| `ScpFiles.LayoutIsTree` | wstunnel/src/protocols/ssh/scp.rs:170-196 | the files a tree is laid out as hold at every path what walking the tree finds there |
| `ScpFiles.LayoutDeterminesTree` | wstunnel/src/protocols/ssh/scp.rs:170-196 | two trees laid out the same resolve every path the same |
| `ScpFiles.FirstAndRestFit` | wstunnel/src/protocols/ssh/scp.rs:184-191 | laying out one entry of a directory leaves the directory in place and its siblings fitting |
| `ScpFiles.FileNeedsItsDirectory` | wstunnel/src/protocols/ssh/scp.rs:294-303 | a file in a directory can be made exactly if the directory is there and the name is not a directory's |
| `ScpFiles.ComponentsAtSlash` | wstunnel/src/protocols/ssh/scp.rs:235 | a slash in a received name separates components |
| `ScpFiles.ComponentsWithoutSlash` | wstunnel/src/protocols/ssh/scp.rs:235 | between slashes a name is itself, and nothing or a dot is no component |
| `ScpReceiver.PayloadIsExact` | wstunnel/src/protocols/ssh/scp.rs:294-333 | for every split of a file's bytes and the terminator into chunks, empty ones included, exactly the content is written, one terminator consumed and one acknowledgement sent, if and only if the chunk searched for the terminator is not empty |
| `ScpReceiver.PayloadIsStage` | wstunnel/src/protocols/ssh/scp.rs:305-330 | with non-empty chunks only the last chunk is acknowledged, once |
| `ScpReceiver.SizeMustMatch` | wstunnel/src/protocols/ssh/scp.rs:145-168 | a file arrives whole exactly if the size announced is the size of what is then read and sent |
| `ScpSession.CutLineIsLost` | wstunnel/src/protocols/ssh/scp.rs:219-275 | a header line cut in two anywhere never has the effect it has in one piece |
| `ScpSession.HeaderRefusedExactly` | wstunnel/src/protocols/ssh/scp.rs:242-249 | in an existing directory a file header is refused exactly if a directory has that name, a directory header exactly if a file has |
| `ScpSession.TreeArrives` | wstunnel/src/protocols/ssh/scp.rs:200-279 | what tells a tree takes the receiver through all its stages and lays exactly that tree over the top directory, the directory stack being as before |
| `ScpSession.BurstsTell` | wstunnel/src/protocols/ssh/scp.rs:145-196 | what the recursive upload sends, payloads in any non-empty chunks, tells its tree |
| `ScpLockstep.RunsStayInStep` | wstunnel/src/protocols/ssh/scp.rs:67-112 | in every interleaving the two sides stay in step: one acknowledgement out with nothing on the channel, or none out and the receiver inside a stage |
| `ScpLockstep.RunsAreFinite` | wstunnel/src/protocols/ssh/scp.rs:67-112 | every interleaving ends after a bounded number of steps |
| `ScpLockstep.StuckMeansDone` | wstunnel/src/protocols/ssh/scp.rs:67-98 | neither side stalls: if nobody can move, the upload is complete and the receiver is where it should be |
| `ScpLockstep.UploadLeadsToGoal` | wstunnel/src/protocols/ssh/scp.rs:145-196 | the plan of an upload leads the receiver from its start, target directory missing or not, to the goal |
| `ScpLockstep.TreeRoundTrip` | wstunnel/src/protocols/ssh/scp.rs:116-279 | for every tree, chunking and interleaving: acknowledgements match one to one, no failure, no stall, and the download ends with exactly the tree and the stack at its root |
| `ScpLockstep.GoalHoldsTheTree` | wstunnel/src/protocols/ssh/scp.rs:216-275 | at the end every path holds what the tree has there, or what it held before where the tree has nothing |
| `ScpProgram.Download.RecvData` | wstunnel/src/protocols/ssh/scp.rs:100-112 | the next data is appended, other messages skipped, a close reported |
| `ScpProgram.OnlyTheTerminatorIsExtra` | wstunnel/src/protocols/ssh/scp.rs:314-330 | however content and terminator are cut, the terminator is all that is found after the content, so the buffer ends empty |
| `ScpProgram.Download.DownloadFileData` | wstunnel/src/protocols/ssh/scp.rs:294-333 | the payload loop writes exactly the announced bytes, leaves the messages after the terminator, and in the buffer what followed the content without a terminator |
| `ScpProgram.Download.HandleFile` | wstunnel/src/protocols/ssh/scp.rs:229-241 | the arm for a file, with both acknowledgements, is the receiver's reaction |
| `ScpProgram.Download.HandleDir` | wstunnel/src/protocols/ssh/scp.rs:242-253 | the arm for a directory |
| `ScpProgram.Download.HandleHeader` | wstunnel/src/protocols/ssh/scp.rs:228-274 | one round of the header loop, every first byte |
| `ScpProgram.OtherHeaders` | wstunnel/src/protocols/ssh/scp.rs:254-274 | a download fails with a remote error exactly at a byte 2, passes over a warning byte 1 with an acknowledgement, leaves a directory at E, and refuses every other byte |
| `ScpProgram.RefusedHeaders` | wstunnel/src/protocols/ssh/scp.rs:229-253 | a header that does not parse or a directory that cannot be made is not acknowledged; a file that cannot be made was, once |
| `ScpProgram.ErrorsAndWarnings` | wstunnel/src/protocols/ssh/scp.rs:261-270 | where a header is awaited an error ends the whole download at once and a warning does not change its outcome |
| `ScpProgram.RemoteErrorIsTold` | wstunnel/src/protocols/ssh/scp.rs:267-270 | over any messages a download ends with a remote error only if some data begins with a 2 |
| `ScpProgram.Download.ScpDownload` | wstunnel/src/protocols/ssh/scp.rs:200-279 | the whole loop over any messages ends as the receiver machine does, with its files, stack, fault and number of acknowledgements |
| `ScpProgram.DataDecides` | wstunnel/src/protocols/ssh/scp.rs:100-112 | waiting for data goes on as the machine does with that data, or with the end |
| `ScpProgram.PayloadDecides` | wstunnel/src/protocols/ssh/scp.rs:305-330 | the payload loop takes off the channel exactly what the machine takes |
| `ScpProgram.DownloadOfUpload` | wstunnel/src/protocols/ssh/scp.rs:116-279 | the download program fed an upload ends well with exactly the tree and one acknowledgement per burst |
| `ScpProgram.ConverseSends` | wstunnel/src/protocols/ssh/scp.rs:145-196 | an upload that ends well has sent everything, one that does not has sent whole bursts up to the unanswered one |
| `ScpProgram.AcksNeeded` | wstunnel/src/protocols/ssh/scp.rs:67-98 | zero bytes carry an upload through exactly if there are as many as bursts |
| `ScpProgram.Upload.RecvResponse` | wstunnel/src/protocols/ssh/scp.rs:67-98 | skips empty data and other messages, and answers by the first byte of the first answer (see ResponseIsFirstAnswer) |
| `ScpProgram.ResponseIsFirstAnswer` | wstunnel/src/protocols/ssh/scp.rs:67-98 | the response is the first message that is not empty data or of another kind: good exactly if it is data beginning with 0 or 1, and what follows it is left |
| `ScpProgram.UploadNeedsGoodAnswers` | wstunnel/src/protocols/ssh/scp.rs:67-196 | an upload ends well exactly if every burst has an answer of its own and all of them are good |
| `ScpProgram.UploadStopsAtBadAnswer` | wstunnel/src/protocols/ssh/scp.rs:79-98 | at the first bad answer, such as an error byte 2, or at the end of the channel, the upload fails with exactly the bursts up to that one sent |
| `ScpProgram.Upload.UploadFile` | wstunnel/src/protocols/ssh/scp.rs:145-168 | header with the size found first, answer, content read then and terminator, answer |
| `ScpProgram.Upload.UploadDir` | wstunnel/src/protocols/ssh/scp.rs:170-196 | the recursive loop sends exactly the bursts of the directory, stopping at the first bad answer |
| `ScpProgram.Upload.UploadEntry` | wstunnel/src/protocols/ssh/scp.rs:184-191 | an entry is uploaded as what it is, a file with the size found first and the content read later |
| `ScpProgram.SteadyExactly` | wstunnel/src/protocols/ssh/scp.rs:145-196 | the recursive upload sends the bursts of the tree it reads exactly if no file anywhere in it changes its size between being measured and being read |
| `ScpProgram.Upload.ScpUpload` | wstunnel/src/protocols/ssh/scp.rs:116-143 | the upload waits for an answer before its first burst, and refuses a directory unless recursive |
| `TlsReload.StepKeepsInv` | wstunnel/src/tunnel/tls_reloader.rs:189-258 | every step of the handlers and of the accept loop keeps the reload invariant |
| `TlsReload.RunKeepsInv` | wstunnel/src/tunnel/tls_reloader.rs:128-135 | and so does every interleaving |
| `TlsReload.NoReloadIsLost` | wstunnel/src/tunnel/server/server.rs:611-623 | flag down, no handler between store and flag, no rebuild under way: the acceptor is built from exactly the stored material, or that does not build and the last good acceptor is kept |
| `TlsReload.TornReadIsRepaired` | wstunnel/src/protocols/tls/server.rs:158-184 | an acceptor built from material that has changed meanwhile leaves a reload due; certificate and key of an acceptor were stored together |
| `TlsReload.OnlyStoresMakeStale` | wstunnel/src/tunnel/tls_reloader.rs:192-196 | only a store makes an up-to-date acceptor stale, and it leaves a reload due |
| `TlsReload.NextAcceptIsUpToDate` | wstunnel/src/tunnel/server/server.rs:611-623 | once no handler is at work, the next accept serves an acceptor that is up to date |
| `TlsReload.EveryScheduleSettles` | wstunnel/src/tunnel/tls_reloader.rs:189-258 | every schedule of running handlers and the accept loop is bounded, and one that cannot go on serves exactly what is stored if that builds, and the last that did otherwise |
| `TlsReload.TlsServer.constructor` | wstunnel/src/tunnel/server/server.rs:451-458 | the first acceptor is built from the loaded material |
| `TlsReload.TlsServer.Reload` | wstunnel/src/tunnel/tls_reloader.rs:190-210 | one cell: stored and flagged, left for a new watch, or not named |
| `TlsReload.TlsServer.HandleServerFsEvent` | wstunnel/src/tunnel/tls_reloader.rs:171-259 | the whole handler: which cells change, when the flag rises, which files are watched anew, for every kind of event |
| `TlsReload.EventsByKind` | wstunnel/src/tunnel/tls_reloader.rs:190-212 | a create or a modify stores what loads and has watched anew what does not, a remove has everything named watched anew, any other kind does nothing |
| `TlsReload.TlsServer.EventThenAccept` | wstunnel/src/tunnel/server/server.rs:611-623 | after any event the next connection is served exactly the certificate, key and CA then in force if they go together, and what was served before otherwise |
| `TlsReload.TlsServer.TlsAcceptor` | wstunnel/src/tunnel/server/server.rs:613-622 | serves the acceptor of the stored material if that builds, the previous one otherwise, and lowers the flag |
| `RateLimiter.BurstIsSixFifths` | wstunnel/src/tunnel/rate_limiter.rs:52-58 | burst is at most 6/5 of the rate exactly for quotas below 4096 or whose remainder by 4096 is at least 3414 |
| `RateLimiter.QuotaExactly` | wstunnel/src/tunnel/rate_limiter.rs:52-58 | rate and burst of every quota, with the wrap-around of the rate, the saturation of the burst and the least value one |
| `RateLimiter.ProductIsExact` | wstunnel/src/tunnel/rate_limiter.rs:56 | for every quota the product with 1.2 in doubles, rounded to 53 bits and cut down, is 6/5 of the quota cut down |
| `RateLimiter.CappedQuotaIsExact` | wstunnel/src/tunnel/server/tunnel_resolver.rs:82-88 | quotas from 1 to 10 give the exact rate and burst |
| `RateLimiter.ChunkIsBounded` | wstunnel/src/tunnel/rate_limiter.rs:128-134 | for all room and rolls: the chunk is empty exactly if the low 32 bits of the room are, and otherwise within ten percent, the room and 16384 |
| `RateLimiter.JitterOnlyShrinks` | wstunnel/src/tunnel/rate_limiter.rs:128-134 | the chunk by roll: the lower ten of 21 rolls ask for a tenth to a hundredth less, all others for the whole room up to 16384 |
| `RateLimiter.ChunkFitsBurst` | wstunnel/src/tunnel/rate_limiter.rs:150-154 | a chunk always fits the burst exactly if the quota is not zero |
| `RateLimiter.PanicExactly` | wstunnel/src/tunnel/rate_limiter.rs:147-150 | a poll panics exactly if limited, not asleep and the low 32 bits of the room are zero |
| `RateLimiter.PollPays` | wstunnel/src/tunnel/rate_limiter.rs:136-172 | a poll moves no more than it charged and the bucket pays for exactly the charge |
| `RateLimiter.PollMoves` | wstunnel/src/tunnel/rate_limiter.rs:136-172 | a poll that is awake, has room and finds enough in the bucket answers as the wrapped stream does: all it has, or at least nine tenths of the room up to 16384 |
| `RateLimiter.UnlimitedPollMoves` | wstunnel/src/tunnel/rate_limiter.rs:147-170 | and so does every poll that is awake without a limit |
| `RateLimiter.SleepingPollWaits` | wstunnel/src/tunnel/rate_limiter.rs:140-145 | a poll whose sleep is not over does nothing |
| `RateLimiter.RefusedPollSleeps` | wstunnel/src/tunnel/rate_limiter.rs:151-158 | a refused poll charges nothing and sleeps exactly until the bucket holds its chunk; ten milliseconds if it never can |
| `RateLimiter.EmptyBucketFills` | wstunnel/src/tunnel/rate_limiter.rs:52-60 | an empty bucket holds `n` bytes exactly once the rate has given them, and never more than the burst |
| `RateLimiter.WaitIsExact` | wstunnel/src/tunnel/rate_limiter.rs:155-158 | the wait after a refusal is exactly long enough |
| `RateLimiterPool.InitialInv` | wstunnel/src/tunnel/rate_limiter.rs:32-40 | an empty pool is a valid state |
| `RateLimiterPool.FirstQuotaStays` | wstunnel/src/tunnel/rate_limiter.rs:63-76 | the first connection's quota, or its absence, holds for all later connections over any run |
| `RateLimiterPool.FirstWrapDecides` | wstunnel/src/tunnel/rate_limiter.rs:65-75 | over any run after the first wrap of a tunnel, reading has that wrap's download quota and writing its upload quota |
| `RateLimiterPool.SharedQuotaBound` | wstunnel/src/tunnel/rate_limiter.rs:136-202 | over any run from any state, all connections of a tunnel move at most burst plus rate times time in one direction, every byte charged first |
| `RateLimiterPool.CappedQuotaBound` | wstunnel/src/tunnel/server/tunnel_resolver.rs:82-88 | for quotas from 1 to 10, at most 6/5 of a second's worth plus the elapsed time's worth |
| `RateLimiterPool.RefusedPollMovesLater` | wstunnel/src/tunnel/rate_limiter.rs:140-170 | a refused poll made again after its sleep, nobody having charged meanwhile, charges its chunk and moves |
| `RateLimiterPool.Limiter.constructor` | wstunnel/src/tunnel/rate_limiter.rs:52-60 | a new limiter is a full bucket of its quota |
| `RateLimiterPool.Limiter.CheckN` | wstunnel/src/tunnel/rate_limiter.rs:150 | the check against the bucket |
| `RateLimiterPool.RateLimited.Poll` | wstunnel/src/tunnel/rate_limiter.rs:137-202 | a poll of a half connection is the specification's, sleep, bucket and answer |
| `RateLimiterPool.Pool.Wrap` | wstunnel/src/tunnel/rate_limiter.rs:44-89 | later connections share the very limiters of the first, whatever they ask for |
| `RateLimiterPool.Pool.Build` | wstunnel/src/tunnel/rate_limiter.rs:52-61 | a limiter exactly for a quota |
| `Jitter.RollsWalkTheOrbit` | wstunnel/src/tunnel/rate_limiter.rs:113-126 | in any interleaving of callers the rolls are the low halves of the sequential orbit's words from the seed, in order, none skipped or shared; no word is zero or the one before |
| `Jitter.JitterState.NextJitterRoll` | wstunnel/src/tunnel/rate_limiter.rs:113-126 | the loop ends with the low half of the orbit's next word, whoever else stepped meanwhile |
| `Jitter.XorShiftNonZero` | wstunnel/src/tunnel/rate_limiter.rs:116-120 | a step never gives zero |
| `Jitter.XorShiftMoves` | wstunnel/src/tunnel/rate_limiter.rs:116-120 | a step never gives the same word |
| `Jitter.StepCanBeUndone` | wstunnel/src/tunnel/rate_limiter.rs:116-120 | a step can be undone by the inverse of its three shifts, so no two words have the same successor |
| `Jitter.FirstRepeatIsTheSeed` | wstunnel/src/tunnel/rate_limiter.rs:113-126 | no word comes twice before the seed comes again |
| `Jitter.CallerGetsNextRoll` | wstunnel/src/tunnel/rate_limiter.rs:113-126 | a caller that is not interrupted gets the next roll at once |
| `ReverseTunnel.StepKeepsInv` | wstunnel/src/tunnel/server/reverse_tunnel.rs:52-131 | every step of listener, requests and creator keeps conservation, matching, counters and registry |
| `ReverseTunnel.IdleCloseOnlyWhenIdle` | wstunnel/src/tunnel/server/reverse_tunnel.rs:102-110 | the idle test closes exactly if at the count check no request waits or holds a connection, and only after a swap that saw no request since the previous one |
| `ReverseTunnel.SwapSeesEveryRequest` | wstunnel/src/tunnel/server/reverse_tunnel.rs:106 | the swap goes on to the count check exactly if no request was counted since the swap before |
| `ReverseTunnel.RefusedExactly` | wstunnel/src/tunnel/server/reverse_tunnel.rs:102-130 | after an idle close exactly those requests are refused that the count check did not see, that got none of the connections queued then, and that did not leave, none before those connections are all served; no other connection is ever delivered, and all other requests had left by then |
| `ReverseTunnel.ConnectionsAreConserved` | wstunnel/src/tunnel/server/reverse_tunnel.rs:71-99 | delivered, queued, in hand and given up are the accepted connections in order; at most ten queued; each delivered to exactly one request, at most one per request |
| `ReverseDrain.EveryRequestIsServed` | wstunnel/src/tunnel/server/reverse_tunnel.rs:62-131 | every schedule of listener and requests without anything new is bounded, and one that cannot go on leaves nobody waiting while a connection is queued or at a listener that is gone |
| `ReverseTunnel.StaleExactly` | wstunnel/src/tunnel/server/reverse_tunnel.rs:77-122 | a run leaves an entry whose listener is gone exactly if in it the listener takes the entry out before the creator puts it in |
| `ReverseTunnel.CreatorInTime` | wstunnel/src/tunnel/server/reverse_tunnel.rs:102-122 | it does not if the listener does not end by itself before that and makes no count check before the creator has its receiver |
| `ReverseTunnel.SlowCreatorLeavesStaleEntry` | wstunnel/src/tunnel/server/reverse_tunnel.rs:116-122 | that happens: the first tick may come before the creator is counted |
| `ReverseTunnel.StaleForGood` | wstunnel/src/tunnel/server/reverse_tunnel.rs:62-66 | such an entry stays, and with its queue empty no request gets a connection from it |
| `ReverseListener.Listener.constructor` | wstunnel/src/tunnel/server/reverse_tunnel.rs:116-123 | a listener whose creator registered it before it ran |
| `ReverseListener.Listener.Recv` | wstunnel/src/tunnel/server/reverse_tunnel.rs:126-130 | the oldest queued connection; refused exactly if none is queued and the channel is closed |
| `ReverseListener.Listener.OnIncoming` | wstunnel/src/tunnel/server/reverse_tunnel.rs:94-99 | a connection is accepted and is the next to be queued |
| `ReverseListener.Listener.Round` | wstunnel/src/tunnel/server/reverse_tunnel.rs:82-112 | one round, by what happens: a connection, an error, the end, a tick, a timeout, a request that comes, takes or leaves; then a waiting connection is queued if there is room among ten |
| `ReverseListener.Listener.OnTick` | wstunnel/src/tunnel/server/reverse_tunnel.rs:102-110 | uninterrupted, the idle test keeps the listener exactly if a request was counted since the last swap or one has a receiver |
| `ReverseListener.Listener.Finish` | wstunnel/src/tunnel/server/reverse_tunnel.rs:78-80 | leaving takes the entry out of the registry and closes the channel |
| `ReverseListener.Listener.Listen` | wstunnel/src/tunnel/server/reverse_tunnel.rs:77-114 | every round does to connections, queue, requests and phase what its happening does, until one ends the loop; connections are conserved, requests on the listener's way out included, and at its end its entry is out of the registry and its channel closed |
| `Restrictions.ContainsIsPrefix` | wstunnel/src/tunnel/server/utils.rs:176-177 | a network contains exactly the addresses of its family that agree in the prefix |
| `Restrictions.ExtremePrefixes` | wstunnel/src/restrictions/types.rs:96-98 | prefix 0 contains the family, a full prefix the address alone |
| `Restrictions.ValidateTunnel` | wstunnel/src/tunnel/server/utils.rs:201-212 | the first restriction that accepts, or none if none does |
| `Restrictions.ListedProtocolsOnly` | wstunnel/src/tunnel/server/utils.rs:125-180 | a rule that lists protocols allows only those exactly if it is a forward rule, lists unix sockets, or its path pattern matches nothing |
| `Restrictions.ForwardRefuses` | wstunnel/src/tunnel/server/utils.rs:158-180 | a forward rule refuses exactly reverse tunnels, ports in none of its ranges, protocols it does not list, names not matched and addresses outside its networks |
| `Restrictions.ReverseRefuses` | wstunnel/src/tunnel/server/utils.rs:125-155 | a reverse rule refuses exactly forward tunnels, unix paths not matched, ports in none of its ranges, protocols it does not list, names, and addresses outside its networks |
| `Restrictions.ConditionsFail` | wstunnel/src/tunnel/server/utils.rs:113-122 | conditions fail exactly on a path or header that is not matched, or on an absent header |
| `Restrictions.UnixSocketIgnoresTheList` | wstunnel/src/tunnel/server/utils.rs:132-137 | a rule for reverse TCP only allows a reverse unix socket |
| `Restrictions.ConditionsNarrow` | wstunnel/src/tunnel/server/utils.rs:113-123 | a list of conditions holds exactly if both parts do, wherever it is cut; with an authorization in it, never without a header |
| `Restrictions.MappedPortIsFirst` | wstunnel/src/tunnel/server/utils.rs:34-52 | the first reverse rule that maps a port decides |
| `Restrictions.UnmappedPortStays` | wstunnel/src/tunnel/server/utils.rs:45 | a port that no rule maps stays |
| `Restrictions.CompiledDestinationMeans` | wstunnel/src/restrictions/mod.rs:43-60 | a compiled destination allows exactly the forward tunnels to that address or name and port |
| `Restrictions.CompiledDestinationsMean` | wstunnel/src/restrictions/mod.rs:24-66 | the compiled destinations allow exactly what the flags say |
| `Restrictions.CompiledRulesMean` | wstunnel/src/restrictions/mod.rs:23-91 | for all prefixes, destinations and requests the compiled rules accept exactly what the flags mean, and return the first rule of the path |
| `Restrictions.ProperHostsMatchExactly` | wstunnel/src/restrictions/mod.rs:41-60 | with destinations the request's host, unless the empty name, is the flag's host itself; without, everything but reverse tunnels on a name |
| `Restrictions.CompiledRulesMapNothing` | wstunnel/src/restrictions/mod.rs:31-37 | rules from the flags map no port |
| `AddrInterleave.AlternatesThenRest` | wstunnel/src/protocols/dns/resolver.rs:32-39 | strict alternation for twice the smaller family, then the rest of the larger |
| `AddrInterleave.SortedIsFair` | wstunnel/src/protocols/dns/resolver.rs:28-40 | a permutation that keeps the order in each family and starts with the preferred one if present |
| `AddrInterleave.FirstIsV6` | wstunnel/src/protocols/dns/resolver.rs:25-29 | the first address is version 6 exactly if there is one and it is preferred or alone |
| `AddrInterleave.FirstIsV4WithoutPreference` | wstunnel/src/protocols/dns/resolver.rs:26 | so the comment's promise fails without the preference |
| `AddrInterleave.AddrIterator.constructor` | wstunnel/src/protocols/dns/resolver.rs:29-31 | the iterator has the specified order to come |
| `AddrInterleave.AddrIterator.NextOf` | wstunnel/src/protocols/dns/resolver.rs:30-31 | the next address of a family, others skipped |
| `AddrInterleave.AddrIterator.Next` | wstunnel/src/protocols/dns/resolver.rs:32-39 | the next of the order; ends exactly when both families are used up |
| `AddrInterleave.SortSocketAddrs` | wstunnel/src/protocols/dns/resolver.rs:28-40 | collecting the iterator gives the specified order |

## Left out

- Sockets, TLS handshakes, the HTTP upgrade and the websocket, HTTP/2 and SSH libraries: foreign code, seen as channels with failure steps.
- JWT tokens, command line and URL parsing, credential checks, path-prefix extraction, cookies: the work is in libraries, or easy.
- File watching and re-watch threads, the restrictions reloader, the Kubernetes tunnel server, stdio, unix socket and tproxy adapters: plumbing.
- The client side of certificate reloading (`handle_client_fs_event`): the server's handler without the CA.
- The two tunnel loops over HTTP/2 objects: the same loops as over websockets without control frames; `Http2Stream` has their bytes.
- ScpFiles.LayoutIsTree: paths are plain names; `..`, links and permissions are not resolved, and names are valid UTF-8.
- ScpLockstep.TreeRoundTrip: what is already there may be overwritten, but is no directory where the tree has a file nor a file where it has a directory; `ScpSession.HeaderRefusedExactly` has the header at which such a download fails.
- RateLimiter.WaitIsExact: the bucket gains exactly its rate; rounding inside the rate limiter library, such as of the time per byte to whole nanoseconds, is not modelled.
- ReverseTunnel.StaleExactly: one listener per address; two requests that create a listener for the same address at once are not modelled.
- ReverseListener.Listener.constructor: starts after the registration; the race of the creator with its listener is in `ReverseTunnel`.
- Socks5Udp.StreamIsFaithful: a read buffer too small for a datagram, which makes the stream fail with that datagram lost, is not modelled.
- TlsReload.NoReloadIsLost: a file changed after it was loaded at start and before it is watched raises no event and is not modelled.
