# GopherSocks: framing codecs and session lifecycle, in Dafny

GopherSocks is a Go library of TCP, UDP, QUIC and WebSocket servers with one
session type. This project models its two cores and joins them:

* **Framing** (`framing/framing.go`). `Legacy` puts a 16-bit length and a
  delimiter *after* the payload, so its decoder searches for the end of a
  frame; `Uvarint` and `Uint32` put a length first.
* **Lifecycle** (`listener/session.go`, `listener/server.go` and the admission
  code of the four listeners). Senders, the writer, the read-ahead pump, Serve
  loops, handlers, close callbacks and `StopListener` run concurrently.

## How it is modelled

* `Bufio` is the buffered reader: the bytes still to come, a terminal error and
  a buffer size of at least 16. `ReadSlice` stops after its delimiter, after a
  full buffer or at the end. `IsCut` describes where repeated calls stop
  without running them.
* `Legacy.One` is the specification of reading one frame: the shortest prefix of
  the stream that is a frame, unless an earlier cut already left too many bytes
  collected. `Legacy.ReadOne` is the scanner, a loop over the reader, proved to
  compute it. `Legacy.Pull` adds the skipping of empty frames. `LegacyTheorems`
  says which payloads the format can carry, `LegacyLimit` what the limit and the
  buffer size do to it.
* `Prefixed` has the two length-prefixed codecs, with `binary.AppendUvarint`
  and `binary.ReadUvarint` written out. `Streams` puts the three codecs behind
  one type and proves the stream laws once.
* `Transport.StreamTransport` is the framed connection: one buffer and one write
  for a batch, and what becomes of the buffer afterwards.
* `Session`, `Server` and `Udp` are step machines on values: `Enabled` says when
  a step can be taken and `Next` what it does. Each lock region, atomic
  operation, channel operation, `select` and line of `closeWith` is a step, and
  an expired timer is a step that may be taken. A run is any sequence of
  enabled steps, so every theorem over runs is one over every interleaving.
  `Lifecycle` holds the close phases that `Session` and `Server` share;
  `SessionHistory` and `ServerHistory` tie states to the list of steps behind them.
* `SessionCode`, `ServerCode` and `UdpCode` have the objects themselves, with
  fields their methods update. A method that runs on its own takes a run of the
  machine: `TrySend` and `Stop` return that run, and the `IsRun` lemmas
  (`SessionRuns`, `ServerCode.PathIsRun`, `UdpCode.DeliverIsRun`) give it for the
  others.

## Findings

* `Read`'s limit does not bound the payload: for `Legacy` it does so, over all
  streams, only when it is 65535 or more. The scanner tests for a frame end before
  it tests for too many bytes, so a frame may end past the maximum by the length of
  the last chunk `ReadSlice` brought. How long that can be follows from the
  delimiter. If its last byte occurs once more `g` places earlier and `g` is at most
  the buffer size, it is exactly `g` (1 for the default delimiter). If it does not
  recur, it is the buffer size, unless one of the two length bytes equals it.
* Whether a frame is accepted can therefore depend on the buffer size. It never does
  exactly when the delimiter's last byte recurs within a buffer's length before its
  end.
* A payload is ambiguous exactly when its encoding holds, before its end, two bytes
  that spell their own offset and then the delimiter. In the default
  format that is a pattern in the payload or one of four that straddle the length
  bytes; a payload without newlines is ambiguous only if it is 2314 bytes long and
  ends with 0x09, and then the decoder returns it without its last byte. A list of
  non-empty payloads round-trips exactly when none is ambiguous and each is within
  the limit and its last chunk.
* `closeWith` promises that whoever is woken by the session's context sees it
  unregistered and disconnected (`listener/session.go:207-209`). That holds
  while the parent context has not ended; when it ends first, the session's
  context is done with nothing closed.
* `newSession` arms the close callbacks before `add` lists the session. A QUIC
  connection that dies in between is unlisted first and listed afterwards, on a
  running server. A listed session has run `remove` exactly when this happened to
  it, and its entry then stays until another session registers on the same address;
  `StopListener` leaves no other entries.
* `active` may exceed `MaxConnections` for a moment; the admitted connections
  never do.
* `SendToClient` accepts messages up to `MaxLength`, which by default is larger
  than `Legacy` can express. Such a message costs its whole batch, of which
  nothing is written, and closes the session. No run accepts one, and encoding never
  fails, exactly when `MaxLength` is at most what the format expresses: 65535 for
  `Legacy`.

## Model

| member | source | states |
|---|---|---|
| Legacy.Append | framing/framing.go:71-78 | appends payload, most significant length byte, least significant one and delimiter, or refuses an inexpressible payload and leaves the buffer alone |
| Legacy.FrameEndIffFrame | framing/framing.go:121-130 | the end-of-frame test accepts a buffer exactly when it is the encoding of some payload, and gives that payload's length |
| Legacy.ReadOne | framing/framing.go:97-119 | for every buffer size the scanner returns the shortest frame prefix, or the corrupt or end-of-stream error, and consumes exactly those bytes |
| Legacy.ChunkMissesNothing | framing/framing.go:101-107 | no frame ends strictly inside a chunk, so looking only where ReadSlice stops misses none |
| Legacy.Read | framing/framing.go:87-95 | skips empty frames, terminates, and returns the first non-empty frame or the first error |
| Bufio.Reader.ReadSlice | framing/framing.go:103-104 | a chunk ends at the first delimiter byte, or without one at a full buffer, or without either at the end of the stream |
| Bufio.ChunkEndsAtNextCut | framing/framing.go:101-104 | the closed description of the cuts is where successive calls really stop |
| LegacyTheorems.UnambiguousIff | framing/framing.go:80-86 | a payload is ambiguous exactly when its encoding holds, before its end, a length that fits its place and then the delimiter |
| LegacyTheorems.OneOnFrame | framing/framing.go:71-130 | a frame within the limit decodes to its payload whatever follows when no proper prefix of it is a frame, and to a shorter payload otherwise |
| LegacyTheorems.ParseThenPrint | framing/framing.go:97-130 | on arbitrary bytes, a payload returned re-encodes to the bytes taken and is never ambiguous |
| LegacyTheorems.PullParseThenPrint | framing/framing.go:87-119 | Read takes some empty frames and then exactly the encoding of what it returns |
| LegacyLimit.OneExact | framing/framing.go:97-119 | any delimiter, limit, buffer and stream: the first frame is accepted exactly when it ends past the maximum by no more than its last chunk, else the stream is corrupt or ended |
| LegacyLimit.AcceptedIff | framing/framing.go:98-110 | an encoding decodes to its payload exactly when it is unambiguous and within the maximum and its last chunk |
| LegacyLimit.ReadsIff | framing/framing.go:87-95 | the same for Read, which takes exactly that encoding |
| LegacyLimit.NothingToParse | framing/framing.go:88-117 | a stream with no frame in it is corrupt exactly when it is longer than the longest frame the smaller of max and 65535 allows; otherwise it ended, cleanly only if it was empty |
| LegacyLimit.PayloadBound | framing/framing.go:39-40 | from any bytes a payload exceeds the limit by at most the slack of its delimiter, length and buffer |
| LegacyLimit.AcceptableLengthIff | framing/framing.go:98-110 | that bound is exact: for every delimiter, length, limit and buffer some payload of this length is accepted exactly when the length is within limit and slack |
| LegacyLimit.LimitHoldsIff | framing/framing.go:39-40 | the limit bounds what Read returns, over all streams, exactly when it is at least 65535 |
| LegacyLimit.OneWithGap | framing/framing.go:97-119 | when the delimiter's last byte recurs g places before its end, within a buffer, a frame may end g bytes past the maximum and no more, whatever the buffer size |
| LegacyLimit.BufferSizeShows | framing/framing.go:97-119 | for any other delimiter there are a stream and a limit that one buffer size accepts and another finds corrupt |
| DefaultFormat.DefaultUnambiguousIff | framing/framing.go:80-86 | any payload: exactly which byte patterns the default format cannot carry |
| DefaultFormat.DefaultDecodes | framing/framing.go:45-130 | what the default decoder returns and takes for every newline-free payload and every limit, whatever follows it |
| DefaultFormat.DefaultReads | framing/framing.go:87-95 | the same for Read, which also skips an empty payload |
| Prefixed.AppendUvarint | framing/framing.go:136-139 | the loop writes the base-128 digits and the payload |
| Prefixed.ReadUvarint | framing/framing.go:141-145 | the loop computes the digits' value, with the ten-byte overflow rule and the end-of-stream errors |
| Prefixed.AppendUint32 | framing/framing.go:153-159 | appends the four length bytes n/2^24, n/2^16, n/2^8 and n modulo 256 and the payload, or refuses a length over 32 bits |
| Prefixed.ReadPayload | framing/framing.go:169-187 | refuses more than max bytes without reading any, takes exactly n, and reports an unexpected end, never a clean one, when the stream ends first |
| Prefixed.ReadUvarintFrame | framing/framing.go:141-147 | length then payload, as the stream specification says |
| Prefixed.ReadUint32Frame | framing/framing.go:161-167 | length then payload, a clean end only before the first byte |
| Prefixed.Uint32OneIs | framing/framing.go:161-187 | that specification byte by byte: the length is a·2^24 + b·2^16 + c·2^8 + e, and what each shorter stream or larger length gives |
| Prefixed.ReadDigitsIs | framing/framing.go:141-145 | any bytes: the number their low seven bits spell, or overflow from ten bytes or a tenth above 1, or the end of the stream, clean only before the first byte |
| Prefixed.VarintSpells | framing/framing.go:136-139 | the printed bytes spell the length, with the high bit on all but the last |
| Prefixed.DigitsRoundTrip | framing/framing.go:136-145 | every 64-bit length takes at most ten bytes and is read back whatever follows |
| Prefixed.DigitsCut | framing/framing.go:141-145 | a cut length code is never read as a number |
| Prefixed.VarintPrefixFree | framing/framing.go:136-139 | no length's code is a prefix of another's |
| Prefixed.VarintMinimal | framing/framing.go:136-145 | no accepted code of a length is shorter than the printed one |
| Prefixed.PaddedVarintIsAccepted | framing/framing.go:141-147 | the decoder accepts a longer code too, so parsing does not determine the bytes |
| Streams.Append | framing/framing.go:36-38 | each codec appends its encoding exactly when it can express the payload |
| Streams.Read | framing/framing.go:39-40 | each codec's Read is its stream specification |
| Streams.Truncation | framing/framing.go:97-187 | all codecs: a stream cut at any byte gives the whole frames before the cut, then the terminal error on a boundary, and elsewhere UnexpectedEOF for EOF and any other error as it is |
| Streams.CleanEndIff | framing/framing.go:111-117 | a hang-up is seen as a clean end exactly when the stream stopped between two frames |
| Streams.RoundTrip | framing/framing.go:71-187 | all codecs: the uncut stream gives back the list, without empty payloads for Legacy |
| Streams.LegacyRoundTripIff | framing/framing.go:71-130 | a list of non-empty payloads of any expressible length round-trips exactly when each is unambiguous and within the limit and its last chunk |
| Streams.PrefixedRoundTrip | framing/framing.go:132-178 | the length-prefixed codecs carry every list within the limit, empty payloads included |
| Streams.DecodedAreUnambiguous | framing/framing.go:87-119 | from any bytes a Legacy reader gets only non-empty, unambiguous payloads |
| Streams.BufferSizeInvisibleIff | framing/framing.go:97-178 | two buffer sizes never decode a stream differently, exactly when the codec is length-prefixed or the delimiter's last byte recurs within the smallest buffer |
| Streams.EncodeAllConcat | listener/stream.go:46-53 | encoding two batches in turn is encoding their concatenation |
| Transport.StreamTransport.WriteMessages | listener/stream.go:43-66 | nothing is written when a message cannot be encoded or the deadline fails; otherwise the batch's frames in one piece, or as many of their bytes as the connection took; the retained buffer stays within 1 MiB |
| Transport.StreamTransport.ReadMessage | listener/stream.go:32-41 | a failed deadline takes nothing from the stream; otherwise one frame is read |
| Transport.BatchingIsInvisible | listener/stream.go:43-66 | the wire does not show how messages were batched |
| Session.NewConfig | listener/session.go:54-71 | the configured sizes are kept, a queue of less than 1 becomes 1024 and a buffer of less than 1 becomes 1, so both are positive |
| SessionInvariants.SendKeeps | listener/session.go:138-172 | every step of SendToClient keeps the accounting, the order of calls and the settled outcomes |
| SessionHistory.CallGoesOn | listener/session.go:138-172 | through every step of a call its sender holds the payload it was given, and that is what is queued |
| SessionInvariants.WriteKeeps | listener/session.go:176-205 | every step of the writer keeps the wire equal to the written frames and a part of the batch in flight |
| SessionInvariants.ReadKeeps | listener/session.go:98-133 | every step of the pump keeps the Data channel sound |
| SessionInvariants.RunKeeps | listener/session.go:29-34 | the close order and the three invariants above hold after any run |
| SessionTheorems.CloseOrdering | listener/session.go:207-221 | in any run, a done context under a live parent means callback finished, slot released, transport closed; the cause is the parent's or the completed close call's |
| SessionTheorems.ParentEndsFirst | listener/session.go:72-75 | the run in which the parent ends first: context done, nothing closed |
| SessionTheorems.CauseIsFinal | listener/session.go:91-92 | the recorded cause never changes |
| SessionTheorems.FirstCallWins | listener/session.go:210-221 | the closing cause is the one brought by the first close call of the run, from whichever thread |
| SessionTheorems.ClosingCause | listener/session.go:156-229 | that cause by the steps of the run: the parent's, the caller's, slow consumer after that sender's timeout, the failed write or encoding, or the end of reading, where EOF and a closed connection count as an ordinary close |
| SessionTheorems.SlowConsumerNeedsTimeout | listener/session.go:156-172 | in any run without a send timeout no session closes as a slow consumer, unless its parent ended with that cause |
| SessionTheorems.NoSendAfterEnd | listener/session.go:138-146 | after the context has ended no later call is ever accepted |
| SessionTheorems.Backlog | listener/session.go:26-27 | accepted messages not yet written are at most the queue size plus 128 |
| SessionTheorems.WriterOutlastsContext | listener/session.go:176-192 | while the context lives the writer and the pump run, and every accepted message is written, in flight or queued |
| SessionTheorems.SendOutcome | listener/session.go:135-172 | a finished call was accepted or refused and never both, an accepted one carries the payload the sender passed to it, a refused message is nowhere on its way to the wire, and each sender's order is kept |
| SessionTheorems.OpenSessionAccepts | listener/session.go:138-172 | while the context lives a finished call was accepted exactly when its payload is within the limit, whether it waited or not |
| SessionTheorems.WireIsFramesOfAccepted | listener/session.go:174-205 | for any interleaving and batching the wire is a prefix of the accepted messages' frames and contains the written ones |
| SessionTheorems.NothingMoreIsWritten | listener/session.go:181-188 | once the writer has failed or stopped nothing more is written, and a batch with one inexpressible message is lost whole |
| SessionTheorems.InexpressibleIsAccepted | listener/session.go:138-151 | the run in which SendToClient accepts a message the codec cannot express and the writer takes it |
| SessionTheorems.ExpressibleIff | listener/session.go:138-151 | in every run all accepted messages are expressible and encoding a batch never fails, exactly when the maximum length is at most what the format expresses |
| SessionTheorems.DataChannel | listener/session.go:114-133 | Data never panics, is closed only by the departed pump after the context has ended, reads ahead at most its capacity and carries a prefix of the decoded messages |
| SessionTheorems.EndToEnd | listener/session.go:138-205 | the peer decodes exactly the payloads passed to the first n accepted calls, n at least the number written, with a clean end exactly on a frame boundary |
| SessionTheorems.SessionToSession | listener/session.go:98-205 | what a reader of Data receives is a prefix of the payloads passed to the accepted SendToClient calls at the other end |
| SessionCode.Session.CloseWith | listener/session.go:207-221 | the body runs once, in order; later calls change nothing |
| Lifecycle.CloseAllOnce | listener/session.go:207-221 | the first cause is kept, and a context already ended keeps its own |
| SessionRuns.CloseWithIsRun | listener/session.go:207-221 | the method is the machine's close call followed by the four lines of its body, or by none if the session is closed |
| SessionCode.Session.TrySend | listener/session.go:138-151 | the call is the run Start, CheckOpen, TryQueue of the machine, cut short at a refusal: sent exactly when the run accepts it, too large or closed when the run refuses it, queue full when the run leaves the sender waiting |
| SessionRuns.SendIsRun | listener/session.go:138-151 | those steps end in a refusal, a place at the end of the queue, or a wait, by length, context and queue |
| SessionRuns.WaitIsRun | listener/session.go:155-168 | a waiting sender's message is queued when there is room, and refused once the context has ended |
| SessionRuns.TimeoutIsRun | listener/session.go:169-172 | when its time is up the message is refused and an open session closes as a slow consumer |
| SessionRuns.ParentCloses | listener/session.go:72-75 | the parent's end closes an open session with the parent's cause |
| SessionCode.Session.FillBatch | listener/session.go:194-205 | moves the longest prefix of the queue that fits a batch of 128 |
| SessionCode.Session.WriteRound | listener/session.go:183-189 | one round writes one batch in queue order, or closes the session with the write error |
| SessionCode.Session.Messages | listener/session.go:97-112 | the read loop yields exactly what the codec decodes; a consumer that stops early leaves the session open and the rest unread, otherwise the session closes with the reason the stream ended |
| SessionCode.Stop | listener/server.go:141-153 | takes the snapshot with the flag and closes exactly the sessions in it, in any order, each with the cause of its first close; as a run of the machine it ends with nothing left to close |
| SessionRuns.FillBatchIsRun | listener/session.go:194-205 | the loop is the machine's fill steps in a row |
| SessionRuns.WriteRoundIsRun | listener/session.go:176-205 | a round is a run of the machine for every outcome of the write: the batch counted as written, or part of it or nothing on the wire and the session closed and the writer gone |
| SessionRuns.RoundWrites | listener/session.go:183-189 | what each outcome of a round leaves on the wire and which cause, if any, it closes the session with |
| SessionRuns.MessagesIsRun | listener/session.go:97-133 | pumped into Data, all that is inbound reaches the reader in order, then the read error closes session and channel |
| ServerInvariants.ConnMovesCounters | listener/server.go:39-62 | each step of a connection moves the counter and the wait group exactly as it moves the connection between the counted classes |
| ServerInvariants.ConnMovesRegistry | listener/server.go:64-79 | only registering and unlisting touch the registry, and only the connection's own entry |
| ServerInvariants.RunKeeps | listener/server.go:10-26 | the counts, every connection's own state, the registry, the Serve loops and the stop flag stay consistent in any run |
| ServerTheorems.Admission | listener/server.go:51-62 | admitted connections never exceed the maximum, the counter is those plus failed attempts to undo, and each slot is given back exactly once |
| ServerTheorems.OvershootIsBounded | listener/server.go:53-60 | for TCP, UDP and QUIC the counter exceeds the maximum by at most the number of Serve calls |
| ServerTheorems.CounterOvershoots | listener/websocket.go:122-126 | the run in which the counter exceeds the maximum |
| ServerTheorems.CloseOrdering | listener/server.go:70-79 | a session done under a live Serve context is unlisted, released once and disconnected, and listed only after the QUIC race |
| ServerTheorems.ListedIsOpen | listener/server.go:120-139 | a listed session is under its own address, and its `remove` has run exactly when it ran before `add`, which outside QUIC needs an ended Serve context |
| ServerTheorems.OnlyOwnRemoval | listener/server.go:70-76 | no step takes another session's entry, even when an address is reused |
| ServerTheorems.StaleEntry | listener/quic.go:255-261 | the QUIC run that leaves a closed session listed on a running server |
| ServerTheorems.StaleUntilReplaced | listener/server.go:64-79 | over any run such an entry stays exactly when no session registers on its address |
| ServerTheorems.Shutdown | listener/server.go:141-156 | when StopListener has returned no Serve loop or handler runs, every session is closed and released once, the registry lists only sessions unlisted before they were listed, and the counter is 0 but for WebSocket upgrades being turned away |
| ServerTheorems.ShutdownIsFinal | listener/server.go:39-49 | that stays so in every later run, and nothing enters any more |
| ServerTheorems.SnapshotIsClosed | listener/server.go:143-153 | however the run goes on, a stopper whose list is empty has seen every session of its snapshot closed |
| ServerTheorems.MarkOwesListed | listener/server.go:144-147 | every session listed when the flag is set is on that list or already closed |
| ServerHistory.FirstCloserWins | listener/server.go:81-86 | a session closes with the cause of the first step that closed it: ordinary close after its handler, server stopped by StopListener, or a caller's; without such a step it stays open |
| ServerHistory.ContextCauses | listener/server.go:88-97 | every Serve context, the server's and each session's ends with the cause of the step that ended it |
| ServerCode.Server.Enter | listener/server.go:39-49 | joins the wait group unless the server is stopping |
| ServerCode.Server.TryAdmit | listener/server.go:51-60 | takes a slot exactly when one is free, and else leaves the counter as it was |
| ServerCode.Server.Remove | listener/server.go:70-79 | deletes the entry only if it is the session's own, and releases the slot |
| ServerCode.Server.MarkStopped | listener/server.go:144-147 | sets the flag and takes the snapshot together |
| ServerCode.Server.Accept | listener/quic.go:203-260 | on every failing path slot and wait-group place go back; only a listed session keeps them |
| ServerCode.AcceptIsPath | listener/tcp.go:100-127 | that method is a path of the machine's connection steps |
| ServerCode.PathIsRun | listener/server.go:39-79 | such a path, taken alone, is a run of the whole machine that moves only that connection and the shared fields |
| ServerCode.CloseIsPath | listener/session.go:207-221 | closeWith's body, seen from the server: own entry gone, slot released once, the rest untouched |
| ServerCode.ServeIsPath | listener/server.go:81-86 | after its handler an open session is closed as an ordinary close and entry, slot and wait-group place are given back |
| ServerCode.StopOneIsRun | listener/server.go:150-152 | one turn of stop's loop is a run that closes that session and strikes it off the list |
| Udp.FilterIsWhole | listener/udp.go:86-103 | the size filter passes exactly the whole datagrams of an allowed length |
| Udp.RunKeeps | listener/udp.go:86-147 | the order of deliveries and the registry's soundness hold after any run |
| UdpTheorems.Isolation | listener/udp.go:86-147 | what an address's sessions receive, in creation order, is a subsequence of its datagrams, each whole and of allowed length, with bounded channels |
| UdpTheorems.Conservation | listener/udp.go:86-147 | over any run each datagram of an allowed length is on a channel of its own address, whole and once, or was refused or met a full channel, or is in hand |
| UdpTheorems.RegistryChanges | listener/udp.go:107-141 | an address's entry changes exactly by `add` and by its own session's unlisting |
| UdpCode.Server.ReadFiltered | listener/udp.go:86-103 | reading through the shared buffer yields the datagram or drops it, and the message handed on is a copy |
| UdpCode.Server.Deliver | listener/udp.go:107-147 | a message goes to the end of its address's channel if there is room, in a new session if the address is unknown and admitted, and nowhere if not admitted; nothing else changes |
| UdpCode.DeliverIsRun | listener/udp.go:107-147 | the machine's steps for one datagram, refusing only one not admitted, change the same |

## Left out

- Sockets, TLS, quic-go, the HTTP server and the WebSocket library: a connection is a byte sequence with a terminal error, or a source of accept events.
- Time: deadlines, tickers, the UDP idle reaper's schedule and `GetLastRecieved`; an expired timer is a step that may happen.
- Liveness: a handler that never returns blocks `StopListener`; the shutdown theorems say what holds once it has returned.
- The writer and the pump are not counted by the wait group, so the shutdown theorems do not cover them.
- WebSocket reading and writing: message boundaries come from the library; only the admission path of `upgrade` is modelled.
- Logging, configuration, validation, ALPN and codec lookup, session IDs, `GetActiveSessions`, `legacyHandler` and the clients: plumbing that would add only easy members.
- `Messages` used concurrently with `Data`, which its documentation forbids: in the machine the only reader is the pump.
- The session and the server are two machines that share the close phases, not one product machine.
- Slices are values: sharing of backing arrays between a write buffer, a batch and the caller's message is not modelled.
- A reader whose source reports its error together with the last bytes; here the error comes with the next read, and it is permanent.
- The length-prefixed readers take a limit that is not negative; the conversion of a negative one to 64 unsigned bits is not modelled.
- Which addresses a UDP Serve loop opens is decided in `Udp`; the `Server` machine lets any address arrive, and in `Udp` admission is a free choice.
- Transport.StreamTransport.WriteMessages: the growth of an appended array is any capacity that holds the contents.
- SessionCode.Session.TrySend: stops where `waitToSend` would wait; waiting is steps of `Session`.
- SessionCode.Session.Messages: takes deadlines that never fail; `Transport` has the other case.
- LegacyLimit.AcceptableLengthIff: takes a limit that is not negative; `AcceptedIff` and `OneExact` take any.
- Streams.BufferSizeInvisibleIff: for smallest buffers of up to 32 KiB; one longer than every frame never fills, whatever the delimiter.
- SessionCode.Stop: does not wait; what `wg.Wait` waits for is steps of `Server`.
- SessionCode.Session.WriteRound: covers a turn that found a message; that the same `select` may stop at a done context instead is a step of `Session`.
