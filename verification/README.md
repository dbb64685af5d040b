# A verified model of the tunnel protocols

This project models the stateful byte-moving protocols of a tunnelling proxy and proves what they
promise, in Dafny 4.11. `dafny verify dfyconfig.toml` checks all of it.

Each protocol has two layers. A class (or a method with a loop) follows the original object field by
field and branch by branch, and is proved against functions on values. A machine takes those functions
as its steps and lets everything else happen in any order: network cuts, timeouts, failed writes,
dropped acknowledgements, slow readers, callers that use their buffers again. The results are statements about every state of every run.

- **HTTP/3-style transport** (`Http3Frames`, `Http3Receive`, `Http3Codec`, `Http3Transport`,
  `Http3Sending`, `Http3Run`, `Http3Results`, `Http3Window`, `Http3Steps`, `Connections`). Frames of type,
  two-byte length and payload; five write routes with their window checks; an in-place filter for window
  updates. The layout is the program's own, not that of RFC 9114. Main results: the byte stream is
  preserved in both directions, failures included; which writes keep the send window, and which do not.
- **Ztp sessions** (`ZtpFrame`, `ZtpProtocol`, `ZtpSession`, `ZtpRun`, `ZtpInvariant`, `ZtpReach`,
  `ZtpBuffers`, `ZtpResults`, `ZtpReading`, `ZtpExamples`, `ZtpSteps`). Streams with credit-based flow control and
  cumulative acknowledgements, three priority queues, LEB128 stream ids. Main results: flow control,
  order and completeness of delivery and of reads, and exactly when a session fails.
- **Proxied TCP connections** (`Checksum`, `TcpPacket`, `ProxyProtocol`, `ProxyInterface`, `ProxyRun`,
  `ProxyResults`, `ProxySequence`, `ProxyPackets`, `ProxyHandshake`). The Internet checksum (section 1 of RFC 1071), the packets built
  and parsed, and the connection table driven by SYN, ACK, data, FIN and RST under a mutex. Main results:
  built packets are accepted, the outbound side gets exactly the accepted payloads, exactly which packets
  stop the interface, and what the table holds before and after.
- **The buffered pipe** (`PipeProtocol`, `BufferedPipe`). Conservation for any number of readers and
  writers, and progress of chunked blocking writes.
- **The Zap handshake** (`ZapFrame`, `ZapDecoding`, `Hkdf`, `ZapProtocol`, `ZapHandshake`, `ZapSteps`, `ZapResults`,
  `ZapProgress`, `Readers`). Codecs, key derivation (RFC 5869) and a two-party, four-message protocol. Main results:
  agreement, and an honest handshake goes through.
- **The DNS-over-QUIC encoder** (`Doq`) and **the router** (`Router`). A round trip with the exact
  condition for it; longest-prefix choice and a table that is a map.
- `Bytes` holds machine words, byte orders and facts about sequences.

Where the code does not do what one would expect, the model follows the code, and a lemma says exactly
when the expectation holds:

- `Deobfuscate` of the HTTP/3 codec refuses empty data (`Http3Codec.RoundTrip`), and headers of 65536
  bytes or more make every message unreadable (`Http3Codec.HeadersDecide`).
- A write of the HTTP/3-style transport is charged for the prepared headers that it sends, and a later
  zero-copy write for its payload twice. None of this is given back (`Http3Window.OverchargeIs`,
  `Http3Window.WindowIs`). If the second charge is more than what is left, the 32-bit difference wraps
  and the window check lets almost everything pass (`Http3Window.WriteWithinWindow`,
  `Http3Window.CheckDisabled`).
- A read whose WINDOW_UPDATE frame cannot be sent loses a payload that would have fitted, and bytes that
  a connection returns together with an error are dropped (`Http3Results.LostBytes`); the forwarder of a
  proxied connection drops them too (`ProxyResults.EverythingReadIsForwarded`).
- A Ztp `Write` returns while its frames still refer to the caller's buffer. A caller that uses the
  buffer again, as it may after any `io.Writer`, changes what is sent (`ZtpBuffers.EncodedAsWritten`,
  `ZtpExamples.ReusedBuffer`).
- The answer to a Ztp ping is taken for a malformed acknowledgement and ends the session that sent the
  ping (`ZtpResults.OnlyPingsFail`, `ZtpResults.AnsweredPingFails`, `ZtpExamples.PingEndsSession`).
- Acknowledgements are compared as plain 32-bit words. A Ztp stream carries at most 2^32 - 1 + 65535
  bytes and is then dead (`ZtpResults.AckCountsUntilWrap`, `ZtpResults.StreamWearsOut`,
  `ZtpExamples.StreamWornOut`); a proxied connection can send two packets under one number
  (`ProxySequence.OldAckSetsBack`, `ProxySequence.TwoBytesOneNumber`).
- A payload that a slow Ztp receiver drops takes its size out of the sender's window for good
  (`ZtpResults.WindowWhenIdle`, `ZtpExamples.FullChannelCostsWindow`), and a read with a short buffer
  loses the rest of its payload (`ZtpReading.ReadsReturnWritten`).
- Two Ztp ends that both open streams take each other's streams away (`ZtpExamples.SameIdIsReset`).
- The proxy interface locks a mutex that it holds: a reset, a second FIN, or a dial, SYN-ACK or outbound
  write that fails stops it for ever (`ProxyResults.SendPacketReturns`,
  `ProxyResults.ResetStopsInterface`), with a closed connection in the table
  (`ProxyResults.TableInvariant`).
- The proxy sends its own FIN for a connection that is already closed
  (`ProxyResults.FinForClosedConnection`).
- Data from the client is never acknowledged, and a bare acknowledgement makes the proxy acknowledge one byte too
  many (`ProxyPackets.DataAcknowledges`, `ProxyPackets.HonestAckIsOneAhead`). A server that speaks first keeps the
  handshake from completing until all of that is acknowledged (`ProxyHandshake.EarlyDataDelaysHandshake`).
- A payload is forwarded whatever its sequence number (`ProxyResults.PayloadLands`,
  `ProxyResults.RetransmissionForwardedTwice`).
- A read of more than 65495 bytes makes a packet that its receiver drops
  (`ProxyResults.ForwardedPacketAccepted`).
- A pipe of one to three bytes never takes a byte (`PipeProtocol.TinyPipeIsStuck`).
- The Zap payload decoders slice with 16-bit offsets and panic on long fields
  (`ZapFrame.HelloRoundTrip`, `ZapDecoding.HelloAccepted` and their siblings).
- A `/0` route is never chosen (`Router.SelectRoute`).
- Only TXT queries carry data, and an empty subdomain breaks every message (`Doq.RoundTrip`,
  `Doq.SubdomainDecides`).

What the model takes from outside: where the network cuts a stream, whether a read, write, dial or send
fails, the clock, random values, verdicts of the authentication manager, and the results of
`net.ParseCIDR`, ECDH and HMAC are parameters or arbitrary choices. Two things are assumed of them: a
keyed hash has outputs of one non-zero size, and ECDH is commutative. What a connection has answered is on
record, so that each failure is one that it has reported.

## Model

| member | source | states |
|---|---|---|
| `Http3Codec.CreateHeadersFrame` | internal/protocol/zop/http3.go:765-798 | fills the HEADERS frame by position; the length field keeps the low 16 bits |
| `Http3Codec.Obfuscate` | internal/protocol/zop/http3.go:525-567 | a HEADERS frame, then the data in DATA frames of at most 32768 bytes |
| `Http3Codec.StreamObfuscate` | internal/protocol/zop/http3.go:570-630 | on success has written the same bytes as `Obfuscate` would return; on failure a prefix of them |
| `Http3Codec.Deobfuscate` | internal/protocol/zop/http3.go:633-673 | the concatenated DATA payloads of a string of whole HEADERS and DATA frames; an error for a truncated or unknown frame and for no data |
| `Http3Codec.StreamDeobfuscate` | internal/protocol/zop/http3.go:676-734 | the same, but up to two stray bytes at the end and empty data are accepted, and the type is checked before the payload; also on an error, exactly what has then been written |
| `Http3Codec.RoundTrip` | internal/protocol/zop/http3.go:525-734 | three encoders, two decoders: the streaming decoder undoes all of them for all data; `Deobfuscate` does so exactly for non-empty data |
| `Http3Codec.DecodersAgree` | internal/protocol/zop/http3.go:633-734 | for every byte string: the frame loop of `Deobfuscate` reads it iff no bytes are left over and the streaming decoder reads it, with the same result |
| `Http3Codec.DeobfuscateAgrees` | internal/protocol/zop/http3.go:633-734 | so `Deobfuscate` returns data iff the streaming decoder returns the same, it is not empty, and no bytes are left over |
| `Http3Codec.ObfuscatedLength` | internal/protocol/zop/http3.go:537-540 | the capacity reserved is exactly the length returned: headers + n + 3*ceil(n/32768) |
| `Http3Codec.OversizedHeadersLost` | internal/protocol/zop/http3.go:782-797 | headers of 65536 bytes of text or more wrap the length field; no decoder then reaches the data |
| `Http3Codec.HeadersDecide` | internal/protocol/zop/http3.go:765-798 | with headers of text, every payload survives iff they fit the 16-bit length field |
| `Http3Frames.ReadInPieces` | internal/protocol/zop/http3.go:162-289 | parsing does not depend on how the network cuts the stream |
| `Http3Receive.FilterMeaning` | internal/protocol/zop/http3.go:915-965 | the scan succeeds iff every complete frame is acceptable; it then keeps exactly the DATA and HEADERS frames in order and the incomplete tail, and collects exactly the increments it takes out |
| `Http3Receive.FilterStops` | internal/protocol/zop/http3.go:915-965 | with or without a fault: exactly the frames in front of the first one that is not acceptable are kept or credited, the rest is untouched, and the fault tells which kind it was |
| `Http3Receive.FilterKeepsTheStream` | internal/protocol/zop/http3.go:915-965 | whatever arrives later, parsing after the filter gives the same payloads, the same tail, and the credit not yet collected |
| `Http3Receive.SkipConserves` | internal/protocol/zop/http3.go:162-258 | frames that `Read` takes out of the way cost no data byte and hand over every increment |
| `Http3Receive.PollsConserve` | internal/protocol/zop/http3.go:874-983 | any number of polls moves only WINDOW_UPDATE frames, from the pending bytes into the window, whatever comes later |
| `Http3Transport.MoveDown` | internal/protocol/zop/http3.go:944-946 | the overlapping in-place copy moves the bytes it should and leaves the others |
| `Http3Transport.Transport.HandleWindowUpdate` | internal/protocol/zop/http3.go:859-871 | four bytes add their value to the window modulo 2^32; any other length is refused without effect |
| `Http3Transport.Transport.FilterRaw` | internal/protocol/zop/http3.go:915-965 | the in-place scan leaves the filtered buffer and adds the sum of the increments, also when it stops at a bad frame |
| `Http3Transport.Transport.ProcessIncomingFrames` | internal/protocol/zop/http3.go:874-983 | one read of at most 4096 bytes, appended and filtered; the result is what the answer of the connection and the filter make it: a timeout is no error, another error and a fault are |
| `Http3Transport.Transport.Read` | internal/protocol/zop/http3.go:146-311 | returns from the buffer first; otherwise the next DATA payload, what does not fit being buffered, and its length goes back as credit. It asks the connection exactly as long as no frame is at hand that it does not skip, and fails for the connection iff that answers with an error, for the window update iff the send fails, and for a frame iff that is bad |
| `Http3Transport.Transport.WaitForWindow` | internal/protocol/zop/http3.go:1040-1074 | passes at the first window check that holds in 32-bit words, made once and again after each poll, and records it; gives up only after all its polls, with every check refused |
| `Http3Transport.Transport.WriteDataFrames` | internal/protocol/zop/http3.go:986-1037 | DATA frames of at most 65535 bytes, each sent as soon as its own window check has passed, and then counted; giving up leaves whole frames and names the check that failed, and a prefix is left iff a send failed |
| `Http3Transport.Transport.StreamWrite` | internal/protocol/zop/http3.go:1077-1132 | one window check for everything, then prepared headers at the first write, then the streamed frames, with the bytes it counts |
| `Http3Transport.Transport.Write` | internal/protocol/zop/http3.go:314-432 | each of the five routes: the polls and window checks it made and when they passed, what it puts on the wire, what it counts, and whether headers are then sent; how far it got when it gives up; a prefix iff a send failed |
| `Http3Transport.CreateWindowUpdateFrame` | internal/protocol/zop/http3.go:847-856 | a WINDOW_UPDATE frame with the increment in big-endian |
| `Http3Run.WireBytesCarry` | internal/protocol/zop/http3.go:338-432 | every write route puts whole frames on the wire that carry exactly the payload and no credit |
| `Http3Run.PartCarries` | internal/protocol/zop/http3.go:986-1037 | a write that gives up waiting has put whole frames on the wire that carry the beginning of the payload |
| `Http3Results.StreamPreserved` | internal/protocol/zop/http3.go:146-432 | over all runs of writes, reads and polls at both ends, successful or not, and all cuts and ends of the wire: as long as no read has lost a payload, what is returned is a prefix of what was written; when everything is delivered and read, the two are equal iff none has, and the connection did not return the end of a payload together with an error |
| `Http3Results.LostBytes` | internal/protocol/zop/http3.go:192-272 | over all runs: bytes are lost iff a read took a payload that fits without being able to send its WINDOW_UPDATE frame, or the connection returned the end of a payload together with an error |
| `Http3Results.ReadsNeverFault` | internal/protocol/zop/http3.go:238-258 | in no run does a read meet a frame it rejects; a successful read with room returns at least a byte |
| `Http3Results.FrameAtHandIsTaken` | internal/protocol/zop/http3.go:162-258 | in every run: a read that has a whole DATA frame at hand, behind nothing but frames it skips, returns from it whatever the connection does, unless the window update cannot be sent |
| `Http3Results.PollsNeverFault` | internal/protocol/zop/http3.go:931-952 | in no run does a poll meet a frame it rejects |
| `Http3Window.ChargeIsExact` | internal/protocol/zop/http3.go:338-432 | a write charges no less than its payload, and exactly that iff it streams without sending prepared headers, or is empty and zero-copy after the first |
| `Http3Window.WindowWholeAgain` | internal/protocol/zop/http3.go:1044-1052 | over all runs: when all is taken and all updates are back, the 32-bit window is whole if all writes were such, and, short of an overcharge of 2^32 bytes, only if |
| `Http3Window.OverchargeIs` | internal/protocol/zop/http3.go:96-142 | over all runs, for a transport as `newHTTP3Transport` makes it: what was charged beyond the payloads is the prepared headers, once, and the payload of every later zero-copy write |
| `Http3Window.WindowIs` | internal/protocol/zop/http3.go:422-431 | so the window left when all is taken and all updates are back is the initial one less exactly that, in 32-bit words, and whole iff that sum is a multiple of 2^32 |
| `Http3Window.WriteWithinWindow` | internal/protocol/zop/http3.go:422-431 | when a write takes the charge beyond the window: never on the three routes that check all they charge; a later zero-copy write iff twice its payload exceeds what was left; the unchecked fallback iff its wire bytes do |
| `Http3Window.WithinWindow` | internal/protocol/zop/http3.go:1044-1052 | over all runs without a fallback, a later zero-copy payload or a failed send: the charge never exceeds the window, and the 32-bit subtraction never wraps |
| `Http3Window.AtMostAWindowInFlight` | internal/protocol/zop/http3.go:986-1074 | in such runs no more than the initial window is ever written and not yet taken |
| `Http3Window.UnderflowOpensWindow` | internal/protocol/zop/http3.go:1045-1055 | once more is charged than the window has, the wrapped difference lets through all but the excess of 2^32 bytes |
| `Http3Window.CheckDisabled` | internal/protocol/zop/http3.go:390-431 | a run of two writes of a new transport, as `newHTTP3Transport` makes it, in which that happens |
| `Http3Steps.ReadSteps` | internal/protocol/zop/http3.go:146-311 | a `Read` of the transport, however it ends, is a step of the two-ended machine, followed by one more if the connection ends with a last piece |
| `Http3Steps.WriteSteps` | internal/protocol/zop/http3.go:314-432 | so is a `Write`, however it ends |
| `ZtpFrame.EncodeVarint` | internal/protocol/ztp/frame.go:229-244 | the LEB128 digits of the id, least significant first |
| `ZtpFrame.DecodeVarint` | internal/protocol/ztp/frame.go:247-271 | its value and length, or overflow after five continued bytes; an unterminated string is accepted |
| `ZtpFrame.OrAdds` | internal/protocol/ztp/frame.go:252-263 | in 32-bit words, OR-ing the shifted digit adds it |
| `ZtpFrame.VarintRoundTrip` | internal/protocol/ztp/frame.go:229-271 | decoding an encoded id in front of anything gives the id and its length, 1 to 5 bytes |
| `ZtpFrame.VarintMinimal` | internal/protocol/ztp/frame.go:229-271 | no byte string that decodes to an id is shorter than its encoding |
| `ZtpFrame.Encode` | internal/protocol/ztp/frame.go:112-145 | refuses exactly the invalid frames; fills header, id, length and payload |
| `ZtpFrame.ReadFrame` | internal/protocol/ztp/frame.go:274-337 | the streaming parser, with what it leaves in the reader |
| `ZtpFrame.ParsersAgree` | internal/protocol/ztp/frame.go:148-337 | for every byte string both parsers succeed or both fail, and return the same frame |
| `ZtpFrame.FrameStreamRoundTrip` | internal/protocol/ztp/frame.go:112-337 | reading a concatenation of encoded valid frames returns exactly those frames and leaves exactly what follows |
| `ZtpFrame.AckPayloadRoundTrip` | internal/protocol/ztp/frame.go:357-374 | an acknowledgement payload decodes to its two words |
| `ZtpProtocol.FramesOnTheWire` | internal/protocol/ztp/frame.go:12-138 | the data, open, close, ping and pong frames of a session, byte by byte |
| `ZtpSession.Session.SendFrame` | internal/protocol/ztp/session.go:185-209 | queues the frame at its priority iff there is room |
| `ZtpSession.Session.TrySendFrame` | internal/protocol/ztp/session.go:212-234 | queues the frame iff its queue has room |
| `ZtpSession.Session.Open` | internal/protocol/ztp/session.go:237-274 | registers a fresh stream under the next id and queues its open frame iff there is room; when there is not, the stream stays registered; ids beyond the limit are refused |
| `ZtpSession.Session.TakeNext` | internal/protocol/ztp/session.go:289-332 | one round of the send loop removes the oldest frame of a queue, never passes over a frame of a higher queue that was there when the round began, and finds none iff all queues are empty |
| `ZtpSession.Session.HandleDataFrame` | internal/protocol/ztp/session.go:417-448 | delivers and acknowledges, drops when the channel is full, answers with a reset when the stream is unknown |
| `ZtpSession.Session.HandleStreamOpenFrame` | internal/protocol/ztp/session.go:451-491 | registers a remote stream and offers it to be accepted if there is room, or answers with a reset |
| `ZtpSession.Session.HandleStreamCloseFrame` | internal/protocol/ztp/session.go:494-554 | marks the stream closed by its peer and unregisters it |
| `ZtpSession.Session.HandleAckFrame` | internal/protocol/ztp/session.go:505-536 | only a larger acknowledgement counts; a malformed one raises an error |
| `ZtpSession.Session.HandleFrame` | internal/protocol/ztp/session.go:397-414 | dispatch by type; an unknown type raises an error |
| `ZtpSession.Session.CloseStream` | internal/protocol/ztp/stream.go:191-227 | closes once, unregisters, then queues the close frame iff there is room |
| `ZtpSession.Session.Write` | internal/protocol/ztp/stream.go:43-125 | refuses a closed stream without effect; on an open one puts the pieces of the caller's buffer, as long as a frame allows, into the queue in order, each when the window of that moment allows it, and the first at once if it does. The count is exact but for a piece sent and abandoned; every error with what caused it: a full queue, a window that refused to the last, a close while it waited |
| `ZtpSession.Session.SendIfFits` | internal/protocol/ztp/stream.go:61-73 | queues a slice of the caller's buffer iff the window check passes and there is room, and does nothing else |
| `ZtpSession.Session.TakeNormal` | internal/protocol/ztp/session.go:297-328 | takes the oldest frame of the normal queue, encoded as its buffer is then |
| `ZtpSession.Stream.Read` | internal/protocol/ztp/stream.go:128-188 | data iff the stream is open here and a payload is there: the front of the oldest, what does not fit being dropped; the end of the stream after a local close, a remote one once the channel is empty, or an empty payload |
| `ZtpInvariant.WindowRespected` | internal/protocol/ztp/stream.go:62-73 | the window check in machine words bounds the unacknowledged bytes, however often the counter has wrapped |
| `ZtpInvariant.HandleKeepsHalf` | internal/protocol/ztp/session.go:397-554 | every expected frame keeps counters, queues, delivery and acknowledgements in order |
| `ZtpReach.InvariantHolds` | internal/protocol/ztp/session.go:185-583 | every state of every run meets the invariant in both directions |
| `ZtpResults.OnlyPingsFail` | internal/protocol/ztp/session.go:505-543 | in every state of every run: an end has raised an error iff it has handled the answer to a ping, and then it has sent one |
| `ZtpResults.AnsweredPingFails` | internal/protocol/ztp/session.go:505-583 | once all that a session queued has arrived, the other has failed iff the session has answered a ping |
| `ZtpResults.QuietSessionsNeverFail` | internal/protocol/ztp/session.go:556-583 | a session that sends no pings never fails |
| `ZtpExamples.PingEndsSession` | internal/protocol/ztp/session.go:505-583 | whatever the queue sizes, a run of five steps in which one ping ends the session that sent it |
| `ZtpResults.FlowControl` | internal/protocol/ztp/stream.go:59-121 | in every reachable state: acknowledged <= delivered <= queued <= acknowledged + 65535 + what was sent and never counted; with nothing pending the window check sees exactly the rest, although acknowledgements may overtake the count or be dropped |
| `ZtpResults.StreamWearsOut` | internal/protocol/ztp/stream.go:59-121 | over all runs: a stream carries at most 2^32 - 1 + 65535 bytes, besides those never counted, and no chunk that would pass this is ever sent |
| `ZtpExamples.StreamWornOut` | internal/protocol/ztp/stream.go:59-121 | a run that gets there, byte by byte: everything is delivered, read and acknowledged, the stream is open, and no chunk passes the window check any more |
| `ZtpResults.EmissionInterleaves` | internal/protocol/ztp/session.go:289-332 | in every reachable state: what has left a session interleaves its three queues, loses and repeats nothing, and keeps each in order |
| `ZtpBuffers.EncodedAsWritten` | internal/protocol/ztp/stream.go:57-87 | over all runs: the chunks of a stream that have left the queue are those that were written iff each buffer, when its frame was encoded, still held what it held when the frame was queued; the same up to the end of the stream |
| `ZtpBuffers.LeftAloneIsSafe` | internal/protocol/ztp/session.go:326-328 | so it is enough that no caller fills a buffer with other bytes while a queued frame refers to them |
| `ZtpExamples.ReusedBuffer` | internal/protocol/ztp/stream.go:57-87 | a run in which a caller writes one byte, uses its buffer again after `Write` has returned, and the peer gets the other byte |
| `ZtpResults.InOrderDelivery` | internal/protocol/ztp/session.go:417-448 | what reaches a receive channel is an in-order subsequence of the chunks as they were encoded, and a prefix, the rest still on its way, while no slow receiver or close intervenes; it is then a prefix of the chunks as they were written iff no caller changed its buffer before `sendLoop` encoded the frame |
| `ZtpResults.CloseComesLast` | internal/protocol/ztp/session.go:494-502 | once the ending frame is handled, exactly what was queued before it has been delivered; as it was written iff no caller changed its buffer before the frame was encoded |
| `ZtpResults.AllDelivered` | internal/protocol/ztp/session.go:417-448 | with queues and wire empty, as many bytes have been delivered as were written, and the same bytes iff no caller changed its buffer before the frame was encoded |
| `ZtpResults.ReceiverCounts` | internal/protocol/ztp/session.go:430-441 | in every reachable state the receiver counts exactly the bytes it has put into the channel, modulo 2^32 |
| `ZtpReading.ReadsReturnWritten` | internal/protocol/ztp/stream.go:128-188 | over all runs: while no slow receiver or close intervenes, what reads have returned, followed by what is in the channel, on the way and queued, is what was written, iff no read had less room than the payload it took and no caller changed its buffer before the frame was encoded |
| `ZtpResults.WindowWhenIdle` | internal/protocol/ztp/session.go:417-448 | when all acknowledgements are back, the window left is what the largest acknowledgement queued leaves; when all else has arrived too, it is whole iff no payload met a full channel and an acknowledgement of all that was delivered was queued |
| `ZtpResults.LostPayloadsShrinkWindow` | internal/protocol/ztp/session.go:439-446 | what was handled and not delivered is missing from the window ever after |
| `ZtpExamples.FullChannelCostsWindow` | internal/protocol/ztp/session.go:439-446 | for every channel size, a run after which a stream is idle with a byte of its window missing |
| `ZtpResults.AckCountsUntilWrap` | internal/protocol/ztp/session.go:523-528 | an acknowledgement of everything delivered counts iff no multiple of 2^32 lies between it and the last |
| `ZtpExamples.SameIdIsReset` | internal/protocol/ztp/session.go:450-462 | when both ends have opened the same id, the answer to an open frame takes the stream away from its sender iff the id is open at the receiver and the answer finds room |
| `ZtpSteps.OpenSteps` | internal/protocol/ztp/session.go:237-274 | a successful `OpenStream` is a step |
| `ZtpSteps.SendSteps` | internal/protocol/ztp/stream.go:61-106 | the check and send of a chunk is a step of the two-ended machine |
| `ZtpSteps.FillSteps` | internal/protocol/ztp/stream.go:57-57 | a caller that fills its buffer again changes the queued frames that refer to it, as the step of the machine says |
| `ZtpSteps.CountSteps` | internal/protocol/ztp/stream.go:113-114 | the count that follows is a step |
| `ZtpSteps.PingSteps` | internal/protocol/ztp/session.go:556-583 | a ping that is sent is a step |
| `ZtpSteps.ReceiveSteps` | internal/protocol/ztp/session.go:397-414 | handling the next frame that arrives is a step |
| `ZtpSteps.EmitSteps` | internal/protocol/ztp/session.go:289-332 | a round of the send loop is a step, after the frames that arrive in the meantime |
| `ZtpSteps.ReadSteps` | internal/protocol/ztp/stream.go:128-188 | a `Read` that returns data is a step, and the filling of its buffer another |
| `ZtpSteps.CloseSteps` | internal/protocol/ztp/stream.go:191-227 | a `Close` is a step |
| `Checksum.CalculateChecksum` | internal/tunproxy/proxy_interface.go:797-816 | the complement of the residue of the 32-bit word sum: 0 only for a zero sum, else 1 to 65535 modulo 65535 |
| `Checksum.NoOverflow` | internal/tunproxy/proxy_interface.go:797-808 | up to 131074 bytes the 32-bit sum cannot overflow |
| `Checksum.VerifiesWhen` | internal/tunproxy/proxy_interface.go:797-816 | recomputing gives 0 iff the words sum to a positive multiple of 65535 |
| `Checksum.StoredChecksumVerifies` | internal/tunproxy/proxy_interface.go:727-730 | data with its checksum stored at an even offset recomputes to 0 |
| `Checksum.ChangedWordNoticed` | internal/tunproxy/proxy_interface.go:797-816 | replacing one word of verifying data goes unnoticed iff the words are equal modulo 65535 |
| `TcpPacket.ConstructTCPPacket` | internal/tunproxy/proxy_interface.go:701-779 | the bytes of a packet: IPv4 header, TCP header, payload, both checksums in place |
| `TcpPacket.ParseBuilt` | internal/tunproxy/proxy_interface.go:127-183 | parsing a built packet gives back addresses, ports, numbers, flags and payload |
| `TcpPacket.AddressForms` | internal/tunproxy/proxy_interface.go:723-725 | an address goes out as its four bytes, an IPv4-mapped one as those it maps, any other as zeros |
| `TcpPacket.ParseRefuses` | internal/tunproxy/proxy_interface.go:127-165 | exactly which packets make the parser panic, which it ignores, and which versions it does not know |
| `TcpPacket.ParsesAnyV4` | internal/tunproxy/proxy_interface.go:135-158 | an IPv4 packet with any options gives its two addresses and the segment behind the options |
| `TcpPacket.ParsesAnyV6` | internal/tunproxy/proxy_interface.go:146-158 | an IPv6 packet the same |
| `TcpPacket.ParsesAnyTcp` | internal/tunproxy/proxy_interface.go:166-183 | a TCP header with any options gives all its fields and the payload behind the options |
| `TcpPacket.BuiltIsAccepted` | internal/tunproxy/proxy_interface.go:701-794 | a built packet passes length check, header checksum and TCP checksum of its receiver iff its payload has at most 65495 bytes |
| `ProxyInterface.ProxyInterface.SendPacket` | internal/tunproxy/proxy_interface.go:122-220 | parses, then dispatches on flags; state and outcome are determined by the packet and by what dial, sends, clock and outbound write decide; it panics exactly on packets shorter than the fields it indexes, and blocks exactly when the mutex is held for ever or its own handler locks it again |
| `ProxyPackets.ErrorsAreReported` | internal/tunproxy/proxy_interface.go:122-220 | a call that returns from a segment returns an error iff it owed the client a packet and could not send it, or the segment has a payload, is no SYN, and belongs to no connection |
| `ProxyProtocol.ReturnsUnlessBlocked` | internal/tunproxy/proxy_interface.go:195-220 | a call returns from a segment iff that is no reset of a known connection, no FIN beyond the first whose acknowledgement goes out, no acknowledgement in LAST_ACK, and needs no dial, SYN-ACK or outbound write that fails |
| `ProxyInterface.ProxyInterface.HandleSYN` | internal/tunproxy/proxy_interface.go:223-298 | dials and registers once; a failed dial or SYN-ACK leaves no entry, and the call blocks on recording it |
| `ProxyInterface.ProxyInterface.HandleACK` | internal/tunproxy/proxy_interface.go:317-392 | completes the handshake, or takes over numbers; in LAST_ACK it closes and blocks; other states as they are |
| `ProxyInterface.ProxyInterface.HandleFIN` | internal/tunproxy/proxy_interface.go:409-469 | the first FIN is acknowledged and starts the own close; a later one is acknowledged, closes the connection, and blocks before unregistering it |
| `ProxyInterface.ProxyInterface.HandleDataPacket` | internal/tunproxy/proxy_interface.go:472-506 | forwards while established; a failed write blocks with the connection open and registered |
| `ProxyInterface.ProxyInterface.StrandConn` | internal/tunproxy/proxy_interface.go:395-406 | a reset closes both sides and blocks with the connection still registered |
| `ProxyInterface.ProxyInterface.DropConn` | internal/tunproxy/proxy_interface.go:510-518 | the end of a forwarder closes both sides and deletes the key |
| `ProxyInterface.ProxyInterface.ForwardRead` | internal/tunproxy/proxy_interface.go:532-572 | one packet with ACK and PSH for one read, carrying the number and the acknowledgement of its connection; the number and the counters move by its length |
| `ProxyInterface.ProxyInterface.ForwardRound` | internal/tunproxy/proxy_interface.go:520-573 | one round of the forwarding loop: forwards a read without an error, goes on after an empty one, and on an error ends without a look at the bytes that came with it |
| `ProxyInterface.ProxyInterface.EndForwarding` | internal/tunproxy/proxy_interface.go:509-518 | closes and unregisters unless that has happened |
| `ProxyInterface.ProxyInterface.FireTimer` | internal/tunproxy/proxy_interface.go:428-435 | sends the FIN iff the connection is in CLOSE_WAIT, closed or not |
| `ProxyInterface.ProxyInterface.Close` | internal/tunproxy/proxy_interface.go:833-844 | closes every registered connection and empties the table |
| `ProxyRun.StepKeepsGood` | internal/tunproxy/proxy_interface.go:195-220 | every packet, read, end, timer and shutdown keeps table and connections consistent, but for the one connection that a blocked call strands |
| `ProxyRun.AlwaysGood` | internal/tunproxy/proxy_interface.go:195-220 | so they are in every state of every run |
| `ProxyRun.ForwarderEndsSafely` | internal/tunproxy/proxy_interface.go:510-518 | a forwarder that ends never unregisters a newer connection with the same key |
| `ProxyResults.TableInvariant` | internal/tunproxy/proxy_interface.go:223-314 | in every state of every run: every entry is under its own key; a closed connection is registered iff a blocked call has stranded it; an outbound side is open iff it is registered otherwise |
| `ProxyResults.SendPacketReturns` | internal/tunproxy/proxy_interface.go:195-220 | in every run: a call never returns exactly for a reset of a known connection, an acknowledged FIN for one not established, a failed write for an established one, and a failed dial or SYN-ACK; nothing happens after it |
| `ProxyResults.ResetStopsInterface` | internal/tunproxy/proxy_interface.go:195-206 | a run of two packets, SYN and RST, after which the mutex is held and the connection closed and registered |
| `ProxyResults.FinForClosedConnection` | internal/tunproxy/proxy_interface.go:409-435 | when the forwarder ends after the first FIN, the timer sends its FIN for a connection that is closed and unregistered |
| `ProxyResults.ConnectionInvariant` | internal/tunproxy/proxy_interface.go:472-506 | until the FIN the expected number is ISN + 1 + bytes forwarded modulo 2^32; both counters are the length of the transcript; active-close states are never entered |
| `ProxyResults.OutboundIsTranscript` | internal/tunproxy/proxy_interface.go:472-506 | the outbound side has been given exactly the payloads accepted while established, in order; only a call blocked on a failed write leaves a beginning more |
| `ProxyResults.PayloadLands` | internal/tunproxy/proxy_interface.go:488-500 | an accepted payload lands behind what has been forwarded, whatever its number; that is the place which the number names iff it is the expected number |
| `ProxyResults.StreamInOrder` | internal/tunproxy/proxy_interface.go:472-506 | over all runs: if every payload accepted carries the bytes of the client's stream that its number names, and comes when that number is expected, the outbound side gets a prefix of that stream |
| `ProxyResults.RetransmissionForwardedTwice` | internal/tunproxy/proxy_interface.go:472-506 | a segment sent twice is forwarded twice |
| `ProxyResults.EverythingReadIsForwarded` | internal/tunproxy/proxy_interface.go:520-573 | over all runs: everything read from a server without an error is put into packets for its client, once, in order, and counted; that is all the server's connection gave iff no bytes came with the error that ended the forwarder |
| `ProxyResults.ForwardedPacketAccepted` | internal/tunproxy/proxy_interface.go:520-564 | the packet of a read is acceptable iff the read had at most 65495 of the 65536 bytes the buffer allows |
| `ProxySequence.PacketsAreAddressed` | internal/tunproxy/proxy_interface.go:550-559 | every packet handed over goes from the server of its connection to its client |
| `ProxySequence.StepMoves` | internal/tunproxy/proxy_interface.go:342-348 | a step moves the sequence number by the bytes forwarded, or one for a FIN, iff it is not a bare acknowledgement of the established connection with a larger number |
| `ProxySequence.ServerNumbersExact` | internal/tunproxy/proxy_interface.go:567-570 | while no bare acknowledgement of the established connection is ahead, the sequence number is ISN + 1 + bytes forwarded and FIN, modulo 2^32 |
| `ProxySequence.PacketsNumberedExactly` | internal/tunproxy/proxy_interface.go:539-570 | so in every such run each packet of a read is ACK and PSH, carries the number of its first byte, the acknowledgement number of its connection, and the data read |
| `ProxySequence.OldAckSetsBack` | internal/tunproxy/proxy_interface.go:342-348 | on an established connection an honest old acknowledgement leaves the next number alone iff no multiple of 2^32 lies between them; otherwise it sets the number back |
| `ProxySequence.TwoBytesOneNumber` | internal/tunproxy/proxy_interface.go:342-348 | a run of five steps in which two packets with different data carry the same number |
| `ProxyPackets.StepHands` | internal/tunproxy/proxy_interface.go:520-693 | each event hands over exactly the packet that it should, with all its fields, or none: the SYN-ACK of a new connection, the acknowledgement of a FIN, the data of a read, the FIN of the timer |
| `ProxyPackets.PacketsAreOrderly` | internal/tunproxy/proxy_interface.go:575-693 | in every run: no packet handed over is a reset, all acknowledge, the SYN is the first packet of its connection and no other, and PSH goes with a payload and nothing else |
| `ProxyPackets.StepCounts` | internal/tunproxy/proxy_interface.go:615-645 | the count of bytes to the client starts again when a connection is established, and otherwise moves by exactly the packets that reach it |
| `ProxyPackets.DataAcknowledges` | internal/tunproxy/proxy_interface.go:350-353 | over all runs: the packets of reads acknowledge one more than the number of the last bare acknowledgement on the established connection, or 0; data does not count |
| `ProxyPackets.HonestAckIsOneAhead` | internal/tunproxy/proxy_interface.go:350-353 | a bare acknowledgement with the number the client is at makes them acknowledge a byte that was never sent |
| `ProxyHandshake.StepEstablishes` | internal/tunproxy/proxy_interface.go:321-341 | a connection becomes established exactly by a bare acknowledgement, while half open, of all that has been sent |
| `ProxyHandshake.EstablishedWasCompleted` | internal/tunproxy/proxy_interface.go:321-341 | so in every run an established connection has had such a one |
| `ProxyHandshake.EarlyDataDelaysHandshake` | internal/tunproxy/proxy_interface.go:536-570 | when the server speaks before the handshake is over, an acknowledgement establishes the connection iff it covers all the server has sent |
| `BufferedPipe.NewBufferedPipe` | internal/transport/bufpipe.go:52-72 | two empty pipes, each the peer of the other; 10 MiB when no size is given |
| `BufferedPipe.Pipe.Read` | internal/transport/bufpipe.go:100-149 | the front of the buffer; EOF iff closed and drained; it waits only while the buffer is empty and open, and reports the deadline only when that is over |
| `BufferedPipe.Pipe.Write` | internal/transport/bufpipe.go:221-311 | places a prefix of its data, in order, and returns its exact length; nothing into a closed end; each pass places what fits, and nobody else gets at the peer between passes unless it is full. The deadline is reported only when that is over and the peer full, the close only when it is there; a write that fits is placed at once |
| `BufferedPipe.Pipe.Close` | internal/transport/bufpipe.go:314-330 | marks this end closed, leaves its buffer, and does not touch the other end |
| `PipeProtocol.AlwaysConserved` | internal/transport/bufpipe.go:221-330 | over all interleavings of readers, writers and closes: placed = read ++ buffered, within the size, and every write has placed exactly the prefix it reports |
| `PipeProtocol.ClosedOnlyDrains` | internal/transport/bufpipe.go:137-139 | after a close nothing is placed; reads get what was buffered, and report the end iff all that was ever placed is taken |
| `PipeProtocol.PassMoves` | internal/transport/bufpipe.go:291-298 | a pass with room moves something iff the buffer has at least four bytes |
| `PipeProtocol.LooksMove` | internal/transport/bufpipe.go:246-310 | so in one write every pass that finds room places at least a byte, if the pipe has at least four bytes; with fewer nothing is placed |
| `PipeProtocol.FitsAtOnce` | internal/transport/bufpipe.go:229-310 | and a write that fits is placed in one piece, whatever others do |
| `PipeProtocol.WritersProgress` | internal/transport/bufpipe.go:246-310 | a writer that has made as many passes with room as it has bytes is done, with all of them placed in order |
| `PipeProtocol.TinyPipeIsStuck` | internal/transport/bufpipe.go:78-78 | with fewer than four bytes no write ever gets a byte in |
| `PipeProtocol.StepsEvolve` | internal/transport/bufpipe.go:274-285 | what may happen to an end during a wait is what the steps of the others do |
| `ZapFrame.Encode` | internal/protocol/zap/frame.go:89-106 | header and payload, little-endian |
| `ZapFrame.ReadFrame` | internal/protocol/zap/frame.go:149-191 | the streaming parser, with what it leaves in the reader |
| `ZapDecoding.FrameAccepted` | internal/protocol/zap/frame.go:149-191 | the parser accepts a frame iff the encoding of that frame is in front, and takes just that |
| `ZapFrame.ReadBack` | internal/protocol/zap/frame.go:89-191 | an encoded frame in front of anything is read back by both parsers |
| `ZapFrame.ParsersAgree` | internal/protocol/zap/frame.go:109-191 | below 4 GiB both parsers accept the same strings with the same frame |
| `ZapFrame.EncodeClientHello` | internal/protocol/zap/frame.go:208-222 | the payload by position, the key cut at 65535 bytes |
| `ZapFrame.HelloRoundTrip` | internal/protocol/zap/frame.go:208-243 | decodes back iff the key has at most 65500 bytes; otherwise the decoder panics |
| `ZapDecoding.HelloAccepted` | internal/protocol/zap/frame.go:225-243 | for every byte string: accepted iff the encoding of that hello is in front of the data and its key has at most 65500 bytes; panics iff a longer key is there in full |
| `ZapFrame.EncodeServerChallenge` | internal/protocol/zap/frame.go:254-274 | the payload by position, key and signature cut at 65535 bytes |
| `ZapFrame.ChallengeRoundTrip` | internal/protocol/zap/frame.go:254-306 | decodes back for keys up to 65501 bytes (signature cut at 65535); otherwise the decoder panics |
| `ZapDecoding.ChallengeAccepted` | internal/protocol/zap/frame.go:277-306 | for every byte string: accepted iff the encoding of that challenge is in front and its key has at most 65501 bytes; panics iff a longer one is there with 18 bytes behind it |
| `ZapFrame.EncodeClientResponse` | internal/protocol/zap/frame.go:315-328 | the payload by position, for an HMAC of at least 32 bytes |
| `ZapFrame.ResponseRoundTrip` | internal/protocol/zap/frame.go:315-348 | decodes back iff the data has at most 65501 bytes; otherwise the decoder panics |
| `ZapDecoding.ResponseAccepted` | internal/protocol/zap/frame.go:331-348 | for every byte string: accepted iff the encoding of that response is in front and its data has at most 65501 bytes; panics iff more is there with 32 bytes behind it |
| `ZapFrame.EncodeServerSuccess` | internal/protocol/zap/frame.go:357-363 | 16 bytes of the id and the lifetime, for an id of at least 16 bytes |
| `ZapFrame.SuccessRoundTrip` | internal/protocol/zap/frame.go:357-376 | decodes back, whatever follows |
| `ZapDecoding.SuccessAccepted` | internal/protocol/zap/frame.go:366-376 | for every byte string: accepted iff the encoding of that payload is in front of the data |
| `ZapFrame.EncodeError` | internal/protocol/zap/frame.go:385-399 | code, length and message, cut at 65535 bytes |
| `ZapFrame.ErrorRoundTrip` | internal/protocol/zap/frame.go:385-416 | decodes back iff the message has at most 65531 bytes; otherwise the decoder panics |
| `ZapDecoding.ErrorAccepted` | internal/protocol/zap/frame.go:402-416 | for every byte string: accepted iff the encoding of that error is in front and its message has at most 65531 bytes; panics iff a longer one is there in full |
| `Hkdf.Expand` | internal/protocol/zap/crypto.go:334-361 | the first bytes of T(1)..T(n) of section 2.3 of RFC 5869; errors exactly for a short key, more than 255 hashes, and a negative length |
| `Hkdf.RoundsFit` | internal/protocol/zap/crypto.go:341-344 | the block counter fits its byte iff the length is at most 255 hashes |
| `Hkdf.OutputPrefix` | internal/protocol/zap/crypto.go:334-361 | outputs have exactly the length asked for, and a shorter one is a prefix of a longer one |
| `Hkdf.SimpleHkdf` | internal/protocol/zap/crypto.go:364-370 | extract then expand; succeeds for every length up to 255 hashes |
| `ZapHandshake.DeriveSessionKey` | internal/protocol/zap/crypto.go:80-106 | a key iff both randoms have 32 bytes and the secret is not empty; for hashes of 32 bytes it is one HMAC, under the HMAC of the secret salted with both randoms, of "zpt-session-key" and a 1 |
| `ZapProtocol.MessagesOnTheWire` | internal/protocol/zap/handshake.go:226-482 | the four messages of a handshake, byte by byte |
| `ZapProtocol.OneBlockKey` | internal/protocol/zap/crypto.go:80-106 | the derived key for hashes of 32 bytes, in HMACs only |
| `ZapHandshake.Handshake.DoClientHandshake` | internal/protocol/zap/handshake.go:142-180 | succeeds exactly when what it draws, what arrives and what it can send let the four steps succeed, with every field what the frames read and the derivation make it; and, however it ends, what it has put on the wire |
| `ZapHandshake.Handshake.DoServerHandshake` | internal/protocol/zap/handshake.go:183-223 | the same for the server, with the verdicts of its authentication manager |
| `ZapSteps.ClientSteps` | internal/protocol/zap/handshake.go:142-180 | a successful client handshake is four steps of the two-party machine, whatever the server does in between, when the bytes that arrive are the beginning of what the server sent |
| `ZapSteps.ServerSteps` | internal/protocol/zap/handshake.go:183-223 | so is a successful server handshake |
| `ZapHandshake.Handshake.ReceiveServerChallenge` | internal/protocol/zap/handshake.go:332-358 | takes random, key and salt from a challenge frame, and fails on anything else |
| `ZapHandshake.Handshake.EstablishKey` | internal/protocol/zap/handshake.go:440-459 | derives the key iff secret and key can be derived; a random key without a peer key |
| `ZapProtocol.NextIsNext` | internal/protocol/zap/frame.go:149-191 | over an untampered channel with failing writes, a reader gets exactly the next frame sent |
| `ZapResults.Agreement` | internal/protocol/zap/handshake.go:142-223 | a client session implies that the server accepted the very data the client made, and the same id and key as the server; so two sessions agree |
| `ZapResults.SessionKeyIs` | internal/protocol/zap/crypto.go:80-106 | that key is HKDF of the shared secret of both private keys, salted with what both sides have drawn, written out for HMAC-SHA-256 |
| `ZapResults.OnlyAuthenticated` | internal/protocol/zap/handshake.go:251-285 | in no run is there a session on either side unless the authentication manager of the server has supported the method and found the response valid |
| `ZapProgress.NeverStuck` | internal/protocol/zap/handshake.go:142-223 | while nobody fails or rejects and neither side is done, the next step of the protocol can be taken |
| `ZapProgress.Completes` | internal/protocol/zap/handshake.go:142-223 | every such run can be continued to a session on either side, provided the keys fit the decoders and give secrets |
| `Doq.CreateTxtRecord` | internal/protocol/zop/doq.go:440-462 | the data in character strings of at most 255 bytes |
| `Doq.TxtLength` | internal/protocol/zop/doq.go:440-462 | n + ceil(n/255) bytes |
| `Doq.CreateDnsQuery` | internal/protocol/zop/doq.go:246-320 | header, name, type and class, and the record iff the type is TXT or none |
| `Doq.ExtractFromDnsResponse` | internal/protocol/zop/doq.go:359-416 | skips the name, type and class and joins the strings; each malformed message with its error |
| `Doq.SkipStopsAtEnd` | internal/protocol/zop/doq.go:371-382 | with labels of 1 to 255 bytes the loop stops exactly at the end of the name |
| `Doq.QueryIsStandard` | internal/protocol/zop/doq.go:246-320 | a DNS reader finds a standard query with one question, for the subdomain of example.com, of the type and in the class that it should be |
| `Doq.MessageIsFramed` | internal/protocol/zop/doq.go:323-356 | a reader of the message header finds version, kind, id and length |
| `Doq.RoundTrip` | internal/protocol/zop/doq.go:202-232 | with a subdomain of 1 to 255 bytes, a message decodes to the data iff its type carries data or there is none |
| `Doq.SubdomainDecides` | internal/protocol/zop/doq.go:277-281 | among subdomains of at most 255 bytes, every message survives iff the subdomain is not empty |
| `Router.DefaultRouter.AddRoute` | internal/router/default_router.go:68-94 | refuses a malformed destination; replaces the route of the same destination or appends |
| `Router.DefaultRouter.RemoveRoute` | internal/router/default_router.go:97-110 | removes the route of the destination, keeps the order of the others |
| `Router.TableIsMap` | internal/router/default_router.go:68-110 | after every run of changes destinations are distinct and look up what a map would hold |
| `Router.RemoveUndoesAdd` | internal/router/default_router.go:68-110 | removing a route that was new restores the table, order included |
| `Router.SelectRoute` | internal/router/default_router.go:152-174 | the first of the longest matching enabled prefixes of at least one bit; none exactly when there is no such match |
| `Router.NewRouteTakesOver` | internal/router/default_router.go:152-174 | a new route takes a destination over iff it matches with a longer prefix |
| `Router.DestinationIsSecond` | internal/router/default_router.go:128-143 | for a raw packet the destination looked up is the second address of its IPv4 or IPv6 header |
| `Router.DefaultRouter.RoutePacket` | internal/router/default_router.go:124-206 | the packet goes to the interface of the chosen route and to no other, and is routed iff that accepts it; exactly one counter is raised with it, and the counters of that interface and no other |
| `Router.DefaultRouter.Start` | internal/router/default_router.go:34-52 | once, with all counters at zero |
| `Router.DefaultRouter.RegisterInterface` | internal/router/default_router.go:209-230 | a new name only, with fresh counters |
| `Router.DefaultRouter.UnregisterInterface` | internal/router/default_router.go:233-246 | removes handler and counters |

## Left out

- Http3Results.StreamPreserved: calls on one transport do not overlap; `rawBuffer` has no lock in the original. A connection that has failed to send sends nothing more.
- Http3Results.LostBytes: an error that comes with bytes is the last thing that its connection returns.
- Http3Transport.Transport.Read: an empty read without an error and a `rawBuffer` that shares memory with the buffer pool are not modelled; buffers are fresh arrays of the requested length.
- Http3Transport.Transport.WaitForWindow: the thirty-second timeout is a bounded number of polls, and a concurrent `Close` is left out.
- Http3Codec.StreamObfuscate: reads from a source that does not fail; header and payload of a frame are one write.
- ZtpSession.Session.Arrivals: frames that others queue between two looks of the send loop are given as frames; callers fill buffers between its rounds, not between its looks.
- ZtpResults.FlowControl: for one writer a stream, whose window check and send are one step; only acknowledgements can come between them in the original, and they widen the window.
- ZtpReach.InvariantHolds: only one end opens streams, because both number theirs from 1 (`ZtpExamples.SameIdIsReset`), the id counter does not wrap (it cannot when `MaxStreams` is below 2^32 - 1), and an `OpenStream` that fails after registering its stream is not a step.
- ZtpSession.Session.HandleDataFrame: the 100 ms for which a full channel is waited on are a channel that is full or not; a stream closed locally between lookup and delivery counts as closed before.
- ZtpSession.Session.Write: the waits are bounded numbers of rounds in which others may change the stream and the queues, and a close that comes in one is seen at its end; a queue that is full is one that stays full for the five seconds.
- ZtpSession.Stream.Read: a read that has to wait is given how its wait ends.
- ZtpResults.OnlyPingsFail: an error is a mark on the session, and steps may follow it; in the original the session then closes, and `Close` waits for the very goroutine that called it. Errors of the transport are left out.
- Ztp sessions closing down, `AcceptStream`, and read timeouts in the middle of a frame.
- ProxyInterface.ProxyInterface.SendPacket: each handler is one step under the mutex. A packet's capacity is its length, addresses are copies and not slices of the packet, and statistics and time stamps are left out. Byte counters do not wrap.
- ProxyInterface.ProxyInterface.HandleACK: the timer of the CLOSING state is left out; `ProxyResults.ConnectionInvariant` shows that the state is never entered.
- ProxySequence.ServerNumbersExact: says nothing about the acknowledgement numbers of bare ACKs, whose arguments are passed in exchanged roles.
- BufferedPipe.Pipe.Write: deadlines are numbers of passes, condition variables arbitrary wake-ups; `TryRead`, `TryWrite` and a pipe without peer are left out.
- ZapHandshake.Handshake.DoClientHandshake: the context and its timeout are failures at any read or write; expiry times are left out, and the signature and HMAC fields are the constant zeros that the original sends and does not check.
- A Zap decoder that panics is, in the handshake model, a party that fails.
- Hkdf.Expand: HMAC-SHA-256 is an arbitrary keyed hash; nothing is said about its strength. For a length within 31 of the largest 64-bit integer the original's sum overflows, and slicing panics where the model returns the error.
- Doq.SkipStopsAtEnd: for labels of 1 to 255 bytes; a longer label wraps its length byte, and whether the name then still parses depends on the label's own bytes.
- The DoQ transport around the codec, which takes every read of its connection for one message.
- Router.DefaultRouter.RoutePacket: calls do not overlap; the original raises its counters under a read lock, so that overlapping calls can lose counts.
- Router.DefaultRouter.AddRoute: routes are values; the original keeps pointers that a caller could change later. A nil route or handler is not modelled.
- Router.SelectRoute: what a CIDR string covers is a parameter.
- The Zap `KeyExchange` and `SessionKeyManager` wrappers, flag setters, accessors and copies of statistics would only add easy members.
- TLS, QUIC and TCP transports, TUN devices, configuration, SOCKS5, WebRTC, the mode switcher, the connection tracker and the buffer pool.
