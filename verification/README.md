# Chameleon: a verified model

Chameleon is a proxy that reaches a destination directly, through an authenticated tunnel or through a
relay, learns which way works on which network, and cuts up the first bytes of a connection where that
helps. This project models the parts of it whose correctness depends on more than one function, and proves
what they promise. To verify: `dafny verify dfyconfig.toml`.

## What is modelled

**The tunnel** (`Crypto`, `Clock`, `Net`, `SecureStream`, `Auth`, `Handshake`, `TunnelEnds`, `Handover`,
`Delivery`, `ReplayCache`, `Relay`, `Datagram`). Octets on the wire are either plain bytes or octets of a sealed frame,
so that only the holder of a key can make a frame that opens under it; keys are injective in secret, nonces and label.
`SecureConn` is a class over a connection that may split and delay everything. `Authenticate` says what the
server makes of an opening, and the methods that read it through a `bufio.Reader` are proved against it;
the clock check of a legacy hello is the 64-bit one of the Go code.
`Handover` puts an honest client and the server into one transition system, including the moment when the
buffered reader is dropped and the secure connection goes on with the raw one; `Delivery` proves that this
system makes progress. `Relay` is the UDP relay table as threads that check, dial, relock and recheck.

**The adaptive router** (`Averages`, `Ranking`, `Memory`, `Carrier`, `CarrierPreference`, `Dpi`,
`DpiPreference`, `Planner`, `Race`, `AdaptiveDialer`, `LearningConn`). Both learners are classes whose store is
proved to be the fold of a ghost log of observations; what a log makes them prefer is proved in the two
`Preference` modules. The planner routes results to them by failure scope; every report of a dial is that of the
plan it dialled, and the replanning loop is proved to try every candidate when nothing works. The race of two
connections and the concurrent reads and writes of one learned connection are transition systems over their atomic
steps.

**The Android side** (`Controller`, `Pcap`, `Packets`, `Versions`). The runtime that several components start and
stop, the capture reader that follows a growing file and the packets in it, and the version comparator of the updater.

**Bytes in and out** (`Bytes`, `Text`, `SplitWriter`, `SocksUdp`, `CoreFrame`). The split writer works on a
writer that may accept any part of what it is given; the codecs are functions with inverses.

Scores are real numbers. Times are integers in nanoseconds (milliseconds in captures) and are inputs, as are
dial results, chunk sizes and clock readings. Each file starts with the source file it models. That the parameters
and conditions of the theorems can be met is shown for decay curves (`Carrier.HyperbolaIsDecay`), client destinations
(`Delivery.SomeDestinationIsValid`), eviction choices (`Pcap.SuchPicksExist`), address texts
(`SocksUdp.LawfulNamesExist`) and cold runs (`AdaptiveDialer.ShippedCarriersAreCold`).

## Where the code does less than it seems to

Most of these are stated with the exact condition under which the code does meet the property, and, where an
interleaving is needed, with a concrete run.

- A client secret with white space around it passes the client's own validation and is refused by the server
  (`Handshake.AuthV2Agreement`, `Handshake.PaddedSecretIsRefused`).
- A legacy hello whose random nonce starts with the Auth v2 preface is refused (`Handshake.LegacyAgreement`).
- The clock check of a legacy hello passes a timestamp at least 2^63 nanoseconds ahead: the saturated
  difference stays negative when it is negated (`Clock.HelloFreshIff`, `Handshake.FarFutureHelloIsAccepted`).
- A legacy hello stamped ahead of the server's clock can be accepted twice
  (`ReplayCache.AcceptedAgainIffStampedAhead`), and one stamped that far ahead every time the cache has
  forgotten it (`ReplayCache.FarHelloIsAcceptedEveryTime`).
- A failing reader drops by destination, so it may remove a socket that replaced its own
  (`Relay.ReaderDropsOwnIffInstalled`, `Relay.StaleReaderRemovesAnother`).
- That the relay ends with every socket closed rests on its session loop, which runs `upstream` and the deferred
  `close` one after the other (`Relay.SessionClosesAll`); the methods by themselves do not promise it
  (`Relay.CleanShutdownClosesAll`, `Relay.LateUpstreamLeaks`).
- A race whose caller cancels after an attempt has won leaves that connection open; one whose caller never
  cancels loses none (`Race.OrphanIffCancelledAfterWin`, `Race.OrphanRunExists`, `Race.PatientCallerLosesNothing`).
- A DPI failure can be recorded although a byte has arrived since it was checked, exactly when a read counts in
  between; never when the caller's calls do not overlap (`LearningConn.FailureOvertakenIffCounted`,
  `LearningConn.FailureCanOvertakeFirstByte`, `LearningConn.SerialFailureMeansSilence`).
- A server answers the destination `probe.session:1` with status 0 and closes, so nothing such a client writes is
  ever received; every other accepted and answered client can get its bytes delivered
  (`Delivery.DeliveredIffNoProbe`, `Delivery.ProbeIsNeverRead`).
- Two contexts share evidence exactly when their parts, cut at `|`, give the same pieces. A bar in a network id or in
  a protocol, both free text in the planning tool, can make different contexts collide; bars in destinations alone
  do no harm (`Carrier.KeysAgreeIff`, `Carrier.ContextsCollide`, `Carrier.ProtocolsCollide`,
  `Carrier.KeysSeparateContexts`).
- The integer running mean of 0, 1, ..., n-1 is 0 (`Averages.RampDriftsFully`).
- Complete failover needs costs closer together than 1.025: with two candidates that far apart or further, there are
  cold runs in which the dearer one is never dialled (`AdaptiveDialer.SpreadIsSharp`, `AdaptiveDialer.WideRunExists`).
- A blank owner stops any owner's runtime (`Controller.BlankOwnerStopsAnyone`), and a stop that times out may
  blame the runtime that was started since (`Controller.TimeoutBlamesOwnTargetIffUncleared`,
  `Controller.LateTimeoutBlamesNewRuntime`).
- A capture with an impossible record length has its records counted again at every look
  (`Pcap.RereadIsHarmlessIff`, `Pcap.MalformedIsRecounted`), and a bad header is reported only at the first look, so
  that later ones take what follows for records (`Pcap.BadHeaderIsReportedIff`, `Pcap.BadHeaderIsReportedOnce`).
- An empty first write fails through the split writer, and a failed one reports 0 bytes whatever went out, which is
  wrong exactly when its first answer took something (`SplitWriter.SameOnFullWireIffNotRefused`,
  `SplitWriter.FirstCountIsTrueIff`, `SplitWriter.EmptyFirstWriteFails`, `SplitWriter.FailedFirstWriteHidesBytes`).
- Datagram frames above 1080 bytes decode but cannot be made (`Datagram.EncodeOfDecode`); SOCKS destinations
  round-trip only in canonical form (`SocksUdp.RoundTripIffCanonical`, `SocksUdp.BuildOfParse`); the core
  frame recovers data only while lengths fit 32 bits (`CoreFrame.DecodeOfEncode`).
- A version number beyond int counts as 0 (`Versions.ComponentIsNumber`), and a numeric prerelease identifier
  beyond int makes the comparison throw when it decides (`Versions.CompareFailsIff`,
  `Versions.ComparesWithItselfIffFits`).

## Model

| member | source | states |
|---|---|---|
| Crypto.OpenOfSeal | pkg/crypto/crypto.go:57-82 | What was sealed opens under the same key to the same plaintext. |
| Crypto.OnlySealsOpen | pkg/crypto/crypto.go:68-82 | A frame that opens was sealed under that key from the plaintext it opens to. |
| Crypto.OtherKeyFails | pkg/crypto/crypto.go:68-82 | A sealed frame does not open under any other key. |
| SecureStream.SecureStreamRefinesByteStream | pkg/tunnel/secure_conn.go:35-103 | Any part of the wire of any sequence of writes decodes to a prefix of the bytes written, and the whole wire to all of them. |
| SecureStream.StreamOfFramedAll | pkg/tunnel/secure_conn.go:68-103 | The frames of any sequence of writes decode to exactly the bytes written, in order; none is too large for the reader. |
| SecureStream.FramedSize | pkg/tunnel/secure_conn.go:68-103 | A write of n bytes puts n octets and 32 more for every started 64 KiB on the wire. |
| SecureStream.ImpossibleLengthEndsStream | pkg/tunnel/secure_conn.go:42-54 | A frame that claims no octets or more than 128 KiB ends what can be read. |
| SecureStream.SecureConn.Read | pkg/tunnel/secure_conn.go:35-66 | A read with any buffer takes the next bytes of the decoded stream, keeps the rest pending, fails only when nothing more can be delivered, and makes progress. |
| SecureStream.SecureConn.ReadFrame | pkg/tunnel/secure_conn.go:42-61 | Reads and opens one whole frame of the stream, or reports why there is none. |
| SecureStream.SecureConn.Write | pkg/tunnel/secure_conn.go:68-103 | A write puts the frames of the given bytes on the wire; on failure a beginning of them, counted in whole frames; the 128 KiB check never fires. |
| SecureStream.SecureConn.CopyAll | pkg/tunnel/secure_conn.go:35-66 | Reading to the end with buffers of any sizes yields the whole decoded stream. |
| Net.Conn.WriteFull | pkg/tunnel/secure_conn.go:112-126 | Success means everything was sent; failure means a beginning of it was. |
| Net.BufReader.ReadFull | pkg/tunnel/server_auth.go:16-48 | io.ReadFull over bufio.Reader takes the next n unread octets, whatever the chunks, and fails exactly when fewer are coming. |
| Auth.NewClientRegistry | pkg/tunnel/auth.go:60-82 | A registry is built exactly from acceptable credentials with distinct trimmed ids, and holds each of them trimmed and nothing else. |
| Auth.HalfIsInvalid | pkg/tunnel/auth.go:24-39 | A client with only an id or only a secret is not valid and never falls back to the pre-shared key. |
| Handshake.VerdictIsFinal | pkg/tunnel/server_auth.go:16-48 | Once the octets received decide the outcome, further octets do not change it, and no more than those received are consumed. |
| Handshake.BadLengthIsRefused | pkg/tunnel/protocol_v2.go:124-170 | An id, proof or legacy length out of range is refused at once, whatever follows it. |
| Handshake.ValidDestinationIff | pkg/tunnel/protocol.go:141-157 | A host and a port number, with white space around them or not, are valid exactly when there is a host, the port is 1 to 65535 and the whole has at most 1024 octets. |
| Handshake.AcceptedDestinationIsValid | pkg/tunnel/protocol.go:141-157 | Whoever is accepted has named a valid destination. |
| Handshake.HonestV2 | pkg/tunnel/protocol_v2.go:34-121 | The proof of a valid destination fits its size limit and reaches the server's check whole. |
| Handshake.AuthV2Agreement | pkg/tunnel/protocol_v2.go:34-230 | An honest client is accepted exactly when its id is registered and enabled, its expiry is none or still to come, and its secret equals the registered one; both ends then hold the same session key, destination and identity, and all octets are consumed. |
| Handshake.PaddedSecretIsRefused | pkg/tunnel/auth.go:24-39 | A client keeping white space around its secret validates locally and is refused. |
| Handshake.AcceptedV2IsProven | pkg/tunnel/protocol_v2.go:124-215 | Whatever a peer sends, Auth v2 acceptance means that the trimmed id is registered, enabled and not expired, that the keys come from its secret, and that a proof of the destination was sealed under it with the nonces of this connection. |
| Handshake.AcceptedV2IsOnWire | pkg/tunnel/protocol_v2.go:124-170 | The accepted id and nonce are those the peer's hello starts with. |
| Handshake.HelloV2IsNotEnough | pkg/tunnel/protocol_v2.go:124-170 | An Auth v2 hello alone gets no verdict. |
| Handshake.LegacySealsFailV2 | pkg/tunnel/protocol_v2.go:170-215 | Octets sealed by legacy clients do not pass Auth v2. |
| Handshake.LegacyAgreement | pkg/tunnel/protocol.go:36-130 | A legacy hello is accepted exactly when it does not start with the v2 preface, the keys agree, the nonce is new, and the timestamp is within the skew of the clock or at least 2^63 ns ahead of it; then both ends agree and all octets are consumed. |
| Handshake.AcceptedLegacyIsProven | pkg/tunnel/protocol.go:74-130 | Whatever a peer sends, legacy acceptance means a configured pre-shared key, a new nonce, a timestamp within the skew or at least 2^63 ns ahead, and a hello of them sealed under that key. |
| Handshake.FarFutureHelloIsAccepted | pkg/tunnel/protocol.go:117-127 | A hello stamped 2^40 seconds after 1970 passes the clock check under any configured skew. |
| Clock.HelloFreshIff | pkg/tunnel/protocol.go:117-127 | The check with saturating difference and wrapping negation passes exactly the window and everything at least 2^63 ns ahead. |
| Clock.UnixTimeIs | pkg/tunnel/protocol.go:117-127 | The timestamp is the instant it says, except above 2^63-1-62135596800 seconds, where it lies before the year 1. |
| TunnelEnds.AuthenticateConn | pkg/tunnel/server_auth.go:16-48 | The server's reads give the verdict of Authenticate on the peer's whole stream, under any chunking, and consume exactly the octets it needed. |
| TunnelEnds.ServerHandshakeV2 | pkg/tunnel/protocol_v2.go:124-215 | The challenge/response steps reach that verdict and send exactly the server nonce. |
| TunnelEnds.ReadClientHello | pkg/tunnel/protocol.go:74-130 | The legacy hello steps reach that verdict. |
| TunnelEnds.ClientHandshakeV2 | pkg/tunnel/protocol_v2.go:34-121 | A connected client has sent exactly hello and proof, holds the session key of both nonces, and continues where the status ended; the proof-size error cannot occur. |
| TunnelEnds.ClientHandshakeLegacy | pkg/tunnel/client.go:87-131 | The same for the legacy hello. |
| TunnelEnds.AwaitStatus | pkg/tunnel/client.go:115-131 | A client connects only after a status that starts with 0 under the session key. |
| Handover.HandOverLosesNothing | pkg/tunnel/server.go:82-147 | In every run and chunking: when the server serves, the dropped reader held nothing and the keys agree; what it delivers is a prefix of what the client wrote, and, while it serves, all of it once nothing is under way. |
| Handover.AcceptedOpening | pkg/tunnel/server_auth.go:16-48 | Acceptance takes all of an honest client's opening, because that client sends nothing more before it has read the status. |
| Handover.ChallengedVerdict | pkg/tunnel/protocol_v2.go:124-170 | A challenged server gives no verdict before the proof. |
| Handover.StreamNeverSticks | pkg/tunnel/secure_conn.go:35-66 | While a server serves and octets of a finished write remain, the next frame opens or more octets are arriving that the reader asks for; a probe's server has closed by then. |
| Delivery.RegisteredClientIsAccepted | pkg/tunnel/protocol_v2.go:124-215 | An Auth v2 client is accepted exactly when its id is registered, enabled and not expired and it holds the registered secret. |
| Delivery.OpeningNeverSticks | pkg/tunnel/server.go:82-147 | In every reachable state of an accepted client, legacy or Auth v2, that has neither its stream nor a refusal, a protocol step is enabled. |
| Delivery.OpeningIsShort | pkg/tunnel/server.go:82-147 | Under every chunking, a run before the client's first write has at most 3 times as many steps as the opening has octets, and 5 more. |
| Delivery.RunsAreShort | pkg/tunnel/server.go:82-147 | Between two writes of the client every run ends. |
| Delivery.AcceptedClientDelivers | pkg/tunnel/server.go:82-147 | From every reachable state of an accepted client answered with status 0, and for all its further writes of any length, a run leads to its stream and to the server having received exactly what was written, or nothing if the destination is the probe's. |
| Delivery.ProbeIsNeverRead | pkg/tunnel/server.go:97-104 | In no run does the server receive anything a client of the probe destination writes. |
| Delivery.DeliveredIffNoProbe | pkg/tunnel/server.go:82-147 | From every reachable state of an accepted client answered with status 0, a run that delivers everything exists exactly when the destination is not the probe's or nothing is written. |
| Handover.RunInv | pkg/tunnel/server.go:82-147 | Every run keeps the invariant on both directions of the connection. |
| ReplayCache.Server.AcceptNonce | pkg/tunnel/server.go:163-177 | Purges, then accepts exactly a nonce that is not remembered; the cache stays the one its log determines. |
| ReplayCache.CacheIsLiveAcceptances | pkg/tunnel/server.go:163-177 | At non-decreasing times the cache is exactly the set of acceptances no older than the skew. |
| ReplayCache.VerdictFollowsLog | pkg/tunnel/server.go:163-177 | A call is refused exactly when its nonce was accepted within the skew. |
| ReplayCache.AcceptancesAreApart | pkg/tunnel/server.go:163-177 | Two acceptances of one nonce are more than the skew apart. |
| ReplayCache.AcceptedAgainIffStampedAhead | pkg/tunnel/protocol.go:117-130 | However often it was presented and refused within the skew, a hello can be accepted a second time exactly when its timestamp lies after the first acceptance (and the skew is not the largest duration). |
| ReplayCache.FarHelloIsAcceptedEveryTime | pkg/tunnel/protocol.go:117-130 | A hello stamped at least 2^63 ns ahead is fresh and accepted each time the cache has forgotten it, any number of times. |
| Relay.RelaySafety | pkg/tunnel/quic_datagram.go:285-378 | In every interleaving: at most 64 entries; every dialled socket is held by one thread, installed under one destination, or closed, and never two of these. |
| Relay.RefusedIsNeverInstalled | pkg/tunnel/quic_datagram.go:285-332 | In every run, a socket whose remote address was refused is never in the table and never read, and is closed once nothing is in flight. |
| Relay.AllowedIsInstalledIffRoom | pkg/tunnel/quic_datagram.go:285-332 | An allowed dial is installed and read exactly when at the second lock its destination is free and there is room, whatever happened in between; otherwise its socket is closed. |
| Relay.UpstreamDialsIffRoom | pkg/tunnel/quic_datagram.go:285-300 | A call dials exactly when its destination is not in the table and there is room. |
| Relay.NoCallIsLong | pkg/tunnel/quic_datagram.go:285-378 | In every run, each call and each reader takes at most 66 steps. |
| Relay.UnfinishedCanStep | pkg/tunnel/quic_datagram.go:285-378 | A call that has not ended always has an enabled step. |
| Relay.SettledClosesAllIffEmpty | pkg/tunnel/quic_datagram.go:285-378 | When nothing is in flight, all dialled sockets are closed exactly when the table is empty. |
| Relay.CleanShutdownClosesAll | pkg/tunnel/quic_datagram.go:359-378 | A close with no upstream call outstanding leads to every dialled socket being closed. |
| Relay.SessionClosesAll | pkg/tunnel/quic_datagram.go:260-378 | When one goroutine calls upstream and drop and closes last, as the session loop does, every socket it dialled is closed once nothing is in flight, however the readers interleave. |
| Relay.LateUpstreamLeaks | pkg/tunnel/quic_datagram.go:285-332 | The methods alone do not promise this: an upstream call allowed to outlive close, which the session loop excludes, would leave its socket open. |
| Relay.ReaderDropsOwnIffInstalled | pkg/tunnel/quic_datagram.go:334-367 | Whatever happened since its read failed, a reader's drop removes its own socket exactly when that socket is still installed, and otherwise whatever is installed under the destination. |
| Relay.StaleReaderRemovesAnother | pkg/tunnel/quic_datagram.go:260-367 | A session in which the reader of a dropped socket removes the socket that replaced it. |
| Datagram.DecodeOfEncode | pkg/tunnel/quic_datagram.go:172-208 | Encoding succeeds exactly for valid destinations whose frame fits, and decoding gives both parts back. |
| Datagram.EncodeOfDecode | pkg/tunnel/quic_datagram.go:172-208 | Encoding what was decoded gives the frame back exactly up to 1080 bytes. |
| Averages.TruncationDrift | pkg/dpi/engine.go:317-322 | After n non-negative samples the stored mean's total error is between 0 and n(n-1)/2. |
| Averages.QuotientTruncates | pkg/dpi/engine.go:317-322 | Integer division cuts off what is behind the point, on either side of zero. |
| Averages.MeanWithinSamples | pkg/adaptive/session_memory.go:128-133 | The stored mean stays between the smallest and largest sample. |
| Averages.RampDriftsFully | pkg/dpi/engine.go:317-322 | The error bound is attained for every n. |
| Averages.RealMeanIsExact | pkg/dpi/engine.go:324-329 | Over the reals the running mean is the mean. |
| Averages.Summarize | pkg/probe/metrics.go:69-111 | Counts, mean latency, mean jitter, loss rate and error text of a list of samples. |
| Averages.ErrorTextIsFirst | pkg/probe/metrics.go:77-82 | The error text is the first one that is not empty. |
| Averages.SummaryWithinSamples | pkg/probe/metrics.go:69-111 | The mean stays between the extreme latencies and the jitter within their distance. |
| Ranking.SortIsPermutation | pkg/carrier/engine.go:196-226 | Sorting keeps every candidate exactly once. |
| Ranking.SortIsSorted | pkg/carrier/engine.go:196-226 | No later candidate is better than an earlier one. |
| Ranking.FrontIsFirstBest | pkg/carrier/engine.go:196-226 | The front has the highest score, then the lowest cost, then the earliest position. |
| Memory.JoinIsInjective | pkg/carrier/engine.go:278-292 | Keys of parts without a bar are equal only if the parts are. |
| Memory.MemoryIsFoldOfOwnLog | pkg/carrier/engine.go:118-169 | What is remembered of a name in a context is the fold of exactly its own observations there. |
| Carrier.KeysAgreeIff | pkg/carrier/engine.go:278-292 | Any two contexts share evidence exactly when their normalised parts, cut at bars, give the same pieces in a row, and are then the same exactly when each part holds as many bars as the other's. |
| Carrier.PartsAreSpelled | pkg/carrier/engine.go:278-292 | Each part counts in lower case without the white space around it, a blank one as its default. |
| Carrier.KeysOverlapIff | pkg/carrier/engine.go:278-292 | With bar-free classes and protocols, contexts share evidence exactly when their parts agree or a bar in one network id makes the other's overlap with its destination. |
| Carrier.KeysSeparateContexts | pkg/carrier/engine.go:278-292 | With bar-free network ids, classes and protocols, contexts share evidence exactly when their normalised parts agree, whatever their destinations hold. |
| Carrier.ProtocolsCollide | pkg/carrier/engine.go:278-292 | Two contexts with the same network id and class share a key, one with a bar in its protocol and one with a bar in its destination. |
| Carrier.ContextsCollide | pkg/carrier/engine.go:278-292 | Two contexts share a key, one with a bar in its network id and one with a bar in its destination. |
| Carrier.StatsCountTheLog | pkg/carrier/engine.go:118-169 | Attempts, successes, failures and streak are those of the log. |
| Carrier.AveragesAreMeans | pkg/carrier/engine.go:153-163 | With measured latencies the averages are the running means of the latencies and of the distances between consecutive ones. |
| Carrier.UnmeasuredKeepsAverages | pkg/carrier/engine.go:153-166 | Observations without a latency or a throughput leave its averages alone. |
| Carrier.AveragesStayWithinLatencies | pkg/carrier/engine.go:153-163 | Mean latency and jitter stay between 0 and the largest latency. |
| Carrier.ScoreFadesToBaseline | pkg/carrier/engine.go:315-372 | A score lies between learned value and baseline and moves only toward the baseline as evidence ages. |
| Carrier.CompatibleMembers | pkg/carrier/engine.go:294-313 | The filter keeps exactly the candidates with a name, a non-negative cost and support for the protocol. |
| Carrier.CompatibleIff | pkg/carrier/engine.go:294-313 | However the protocol is spelled: TCP, which nothing stands for too, asks for TCP support, UDP for UDP support, anything else for neither; names must not be blank nor costs negative. |
| Carrier.ChoiceIsBest | pkg/carrier/engine.go:173-226 | The chosen carrier is first best, and with its alternates it is the compatible list, best first. |
| Carrier.NoEvidencePicksCheapest | pkg/carrier/engine.go:173-226 | Without evidence the first of the cheapest is chosen. |
| CarrierPreference.LearnedIsWorth | pkg/carrier/engine.go:315-347 | The weights of success share, failure streak, latency, jitter, throughput and cost in each traffic class, with their caps. |
| CarrierPreference.SuccessIsPreferred | pkg/carrier/engine.go:173-226 | If some candidate has only succeeded, within a second each and less than a half-life ago, the chosen one has evidence other than failures or is cheaper by at least 1.425, in every class. |
| CarrierPreference.BetterStaysChosen | pkg/carrier/engine.go:173-226 | A chosen carrier stays chosen when its share of successes grows, its streak, latency or jitter shrinks or its throughput grows, all else equal, in every class. |
| CarrierPreference.WorseIsNotChosen | pkg/carrier/engine.go:173-226 | Of two equally dear carriers with evidence of one age, one that is worse in something its class looks at and better in nothing is not chosen. |
| Carrier.Engine.Observe | pkg/carrier/engine.go:118-169 | Appends one observation to the log and keeps the store its fold; a blank name changes nothing. |
| Carrier.Engine.Record | pkg/carrier/engine.go:136-166 | The field updates of one entry amount to one revision of its statistics. |
| Carrier.Engine.Choose | pkg/carrier/engine.go:173-226 | The filtering, ranking and sorting loops compute the choice. |
| Carrier.Engine.FilterCompatible | pkg/carrier/engine.go:294-313 | The loop keeps the compatible candidates in order. |
| Carrier.Engine.HasEvidence | pkg/carrier/engine.go:231-246 | True exactly when some candidate has been observed in this context. |
| Dpi.KeysAgreeIff | pkg/dpi/engine.go:280-294 | As for carriers. |
| Dpi.PartsAreSpelled | pkg/dpi/engine.go:280-294 | As for carriers. |
| Dpi.KeysSeparateContexts | pkg/dpi/engine.go:280-294 | With bar-free network ids and classes, contexts share evidence exactly when their normalised parts agree, whatever their destinations hold. |
| Dpi.StatsFollowTheLog | pkg/dpi/engine.go:100-138 | Counters are those of the log and both averages its running means. |
| Dpi.LastTimes | pkg/dpi/engine.go:117-128 | The remembered times are those of the log's last failure and last success. |
| Dpi.ChoiceIsBest | pkg/dpi/engine.go:142-200 | The chosen strategy is first best, and with its alternates it is the candidate list, best first. |
| DpiPreference.ScoreIsWorth | pkg/dpi/engine.go:296-315 | The weights of success share, failure streak, latency, throughput and cost, with their caps. |
| DpiPreference.SuccessIsPreferred | pkg/dpi/engine.go:142-200 | If some strategy has only succeeded, the chosen one has evidence other than failures or is cheaper by at least 3.8. |
| DpiPreference.BetterStaysChosen | pkg/dpi/engine.go:142-200 | A chosen strategy stays chosen when its own evidence gets better and nothing else changes. |
| DpiPreference.WorseIsNotChosen | pkg/dpi/engine.go:142-200 | Of two equally dear strategies the one whose evidence is worse is not chosen. |
| Dpi.Engine.Observe | pkg/dpi/engine.go:100-138 | Appends one observation to the log and keeps the store its fold. |
| Dpi.Engine.Choose | pkg/dpi/engine.go:142-200 | Refuses an empty or invalid list, otherwise computes the choice. |
| Dpi.Engine.RecentlyExhausted | pkg/dpi/engine.go:225-255 | True exactly when every strategy failed within the window and has not succeeded since; there has to be one. |
| Dpi.FailedRecentlyIffWorn | pkg/dpi/engine.go:225-255 | A strategy counts as failed exactly when the last failure in its own log lies within the window and its last success is not later. |
| Planner.Planner.Choose | pkg/planner/planner.go:80-143 | The plan combines the carrier choice with a strategy choice for that carrier's first hop; QUIC and UDP carriers get only direct strategies. |
| Planner.PlanSuitsCarrier | pkg/planner/planner.go:80-143 | A plan uses a compatible carrier and a valid strategy; QUIC and UDP carriers are never cut up, others use an offered strategy. |
| Planner.PlanIsBothChoices | pkg/planner/planner.go:80-143 | A plan is the carrier learner's choice for the destination, then the DPI learner's for the endpoint of a tunnel or else for the destination, out of all strategies or, for QUIC and UDP, of the first one named direct alone. |
| Planner.ResultsReachTheirChoices | pkg/planner/planner.go:145-219 | Results of a dial go back to the very contexts its plan was chosen in; which events each scope adds, and that a DPI failure vouches for a carrier nobody has reported on. |
| Planner.Planner.DirectOnlyDPI | pkg/planner/planner.go:221-232 | The first direct strategy, or the default one. |
| Planner.Planner.Observe | pkg/planner/planner.go:145-219 | Adds to each learner's log exactly the events the result's scope allows. |
| Planner.ObserveAll | pkg/planner/planner.go:145-219 | After any run of results both stores are the folds of their events. |
| Planner.FailuresStayInScope | pkg/planner/planner.go:145-219 | A carrier is charged exactly with failures reported for it or both layers, a strategy with those for DPI or both. |
| Planner.CarrierScopeNeverTouchesDpi | pkg/planner/planner.go:145-219 | Carrier results leave the DPI learner untouched. |
| Race.RaceOutcome | pkg/probe/race.go:31-118 | In every interleaving at most one attempt's success reaches the caller; the returned connection is never closed by the race and all others are, once the goroutines end; the failures handed over are distinct attempts that dialled nothing. |
| Race.FailedRaceListsEveryAttempt | pkg/probe/race.go:84-118 | A failed race leaves no connection and, unless cancelled, lists every attempt exactly once. |
| Race.FailuresAreNotSwallowed | pkg/probe/race.go:84-118 | A caller that waits for the channel to close hears of its own cancellation only when it was told of no failure. |
| Race.OrphanIffCancelledAfterWin | pkg/probe/race.go:31-118 | A connection is left neither closed nor returned exactly when the caller's cancellation was seen after it won. |
| Race.PatientCallerLosesNothing | pkg/probe/race.go:31-118 | In a run without a cancellation by the caller, once the goroutines end, every dialled connection is closed, returned, or waiting for the caller. |
| Race.OrphanRunExists | pkg/probe/race.go:31-118 | A run in which a cancelling caller leaves the winner open. |
| AdaptiveDialer.WithoutDirectCarrier | pkg/proxy/adaptive.go:406-418 | Keeps exactly the candidates that are not direct, in their order, or all if every one is direct. |
| AdaptiveDialer.NoDirectWhenWorn | pkg/proxy/adaptive.go:117-126 | While direct traffic is worn out and another candidate is configured, a call works with no direct one. |
| AdaptiveDialer.RacesOnlyOnFirstUse | pkg/proxy/adaptive.go:143-155 | A call races exactly when racing is on, more than one candidate is left and no observation of any of them in this context is logged; any other goes straight to the loop. |
| AdaptiveDialer.RacersAreCheapest | pkg/proxy/adaptive.go:208-214 | The racers are the two cheapest candidates, the earlier first among equals. |
| AdaptiveDialer.FailureScore | pkg/carrier/engine.go:315-372 | A carrier that failed once scores at least 1.025 below its baseline for a half-life. |
| AdaptiveDialer.SpreadIsSharp | pkg/proxy/adaptive.go:155-197 | At a cost difference of 1.025 or more the loop dials the cheaper of two candidates, which fails at once and is chosen again a half-life later, and stops: the dearer one is never dialled. |
| AdaptiveDialer.WideRunExists | pkg/proxy/adaptive.go:155-197 | Such a run: a direct carrier at no cost and a relay at 1.025. |
| AdaptiveDialer.NextIsFirstUntried | pkg/proxy/adaptive.go:159-197 | In a cold run the next choice is the first untried candidate in stable cost order. |
| AdaptiveDialer.Replan | pkg/proxy/adaptive.go:155-197 | Every round dials what the planner chooses after the failures so far, no plan twice; the reports are one charge for the plan of each failed round and the successes of the plan that connected; the loop stops for lack of a fresh plan or within two rounds more than there are candidates. |
| AdaptiveDialer.ColdFailover | pkg/proxy/adaptive.go:155-197 | In a cold run the loop has dialled each compatible candidate exactly once, in stable cost order. |
| AdaptiveDialer.Round | pkg/proxy/adaptive.go:159-191 | One round either stops for lack of a fresh plan, charges one carrier failure to its plan, or returns a connection recorded for its plan. |
| AdaptiveDialer.RecordSuccessfulConnection | pkg/proxy/adaptive.go:275-318 | Records exactly one carrier success, and one DPI success unless the route is direct. |
| AdaptiveDialer.RaceUnknown | pkg/proxy/adaptive.go:200-273 | Reports exactly one failure per failed attempt, in order and for that attempt's plan, and returns the winner's plan; without two plans it reports nothing. |
| AdaptiveDialer.PlanOfLast | pkg/proxy/adaptive.go:221-254 | Plans are kept by carrier name, so an attempt is charged to the plan of the last entrant with its name: its own, unless the name is repeated. |
| AdaptiveDialer.Dialer.DialContext | pkg/proxy/adaptive.go:66-198 | Every call works with all configured candidates, or, when each strategy's last failure in this context is recent and not followed by a later success, with those that are not direct; it dials and reports no other. It reports the race's failures, then its rounds or the winner's success, each for the plan that was dialled; with learners kept in memory, recording never fails; cold failover is complete. |
| AdaptiveDialer.ShippedCarriersAreCold | pkg/carrier/defaults.go:6-83 | The shipped carriers, with any endpoints, meet the conditions of complete failover in an unknown context. |
| LearningConn.OneOutcome | pkg/proxy/adaptive.go:459-555 | In every interleaving of reads and writes at most one outcome is recorded, grounded as required, never as carrier evidence; exactly one if anything was read and the calls are over. |
| LearningConn.FailureCountsIffCharged | pkg/proxy/outcome.go:25-58 | A failing call that goes on alone records a failure exactly when the route is direct, a write was attempted and nothing read, the error is one of the five terminal kinds, the first write lies at most the window and a second back, and nothing was recorded before. |
| LearningConn.FirstWriteIsStamped | pkg/proxy/adaptive.go:474-493 | The first write of something marks the attempt and its time, whatever becomes of it. |
| LearningConn.EmptyWriteLeavesNoMark | pkg/proxy/adaptive.go:474-483 | An empty write is no attempt. |
| LearningConn.AnswerCounts | pkg/proxy/adaptive.go:459-472 | A read that gets something counts it and records a success unless something was recorded before. |
| LearningConn.VerdictIsDpiEvidence | pkg/proxy/adaptive.go:499-555 | An outcome adds no carrier event and one DPI event, under the plan's first hop and strategy, with the connect time of a success or the time since the first write of a failure. |
| LearningConn.FailureOvertakenIffCounted | pkg/proxy/adaptive.go:523-555 | A failure is recorded after a byte has arrived exactly when nothing was recorded before and a read counts between the failing call's check and its conclusion. |
| LearningConn.SerialFailureMeansSilence | pkg/proxy/adaptive.go:523-555 | When a call starts only while no other is under way, no byte has arrived when a failure is recorded. |
| LearningConn.FailureCanOvertakeFirstByte | pkg/proxy/adaptive.go:523-555 | A run in which a failure is recorded after a byte has arrived. |
| LearningConn.RunInv | pkg/proxy/outcome.go:25-58 | Every run keeps each pending failure within the failure test. |
| Controller.RegisteredIffServing | mobile/mobile.go:267-342 | A runtime is registered exactly while one serve goroutine has not cleared it, and its generation is the current one. |
| Controller.StartRegistersIff | mobile/mobile.go:267-342 | A start registers a runtime exactly when none is registered and its listener binds, and otherwise changes nothing but the error. |
| Controller.EndReportsIff | mobile/mobile.go:308-342 | A runtime that ends leaves an error exactly when its serve loop failed and no stop has cancelled it. |
| Controller.StopsStayWithTheirOwner | mobile/mobile.go:354-384 | A stop cancels only the runtime current when it looked, and with an owner only that owner's. |
| Controller.OnlyStopsCancel | mobile/mobile.go:354-384 | Every cancelled runtime was cancelled by a stop of its owner or one without owner. |
| Controller.BlankOwnerStopsAnyone | mobile/mobile.go:354-366 | StopOwned proceeds exactly when its argument is blank or names the registered owner. |
| Controller.TimeoutBlamesOwnTargetIffUncleared | mobile/mobile.go:367-384 | A timed-out stop blames its own target exactly while that target is uncleared. |
| Controller.LateTimeoutBlamesNewRuntime | mobile/mobile.go:367-384 | A run in which the blame falls on a newer runtime. |
| Pcap.IncrementalIsBatch | android/app/src/main/java/io/chameleon/android/InspectorActivity.java:226-279 | Reading a growing well-formed capture in any instalments leaves the state of reading it once. |
| Pcap.CaptureReachesTablesOnce | android/app/src/main/java/io/chameleon/android/InspectorActivity.java:226-312 | Each packet of a written capture, in either byte order, reaches the tables exactly once and in order. |
| Pcap.ParseOfWritten | android/app/src/main/java/io/chameleon/android/InspectorActivity.java:255-277 | Parsing what was written gives back the records. |
| Pcap.MalformedIff | android/app/src/main/java/io/chameleon/android/InspectorActivity.java:260-270 | A record header is refused exactly when its unsigned length is zero or above one mebibyte. |
| Pcap.ParseResumes | android/app/src/main/java/io/chameleon/android/InspectorActivity.java:255-277 | A longer file parses to the shorter one's records followed by what resuming finds. |
| Pcap.RereadIsHarmlessIff | android/app/src/main/java/io/chameleon/android/InspectorActivity.java:266-277 | Looking again changes nothing exactly when nothing is malformed or no counted packet precedes the malformed record. |
| Pcap.MalformedIsRecounted | android/app/src/main/java/io/chameleon/android/InspectorActivity.java:266-277 | A capture of one packet followed by a record header without length: two looks count the packet twice. |
| Pcap.BadHeaderIsReportedIff | android/app/src/main/java/io/chameleon/android/InspectorActivity.java:231-253 | A look reports a bad header exactly when nothing has been read yet or the file is shorter than what was read. |
| Pcap.BadHeaderIsReportedOnce | android/app/src/main/java/io/chameleon/android/InspectorActivity.java:231-253 | Of all looks at a growing capture with a bad header exactly the first at a whole header reports it. |
| Pcap.ListIsLastPackets | android/app/src/main/java/io/chameleon/android/InspectorActivity.java:281-312 | The list is the last 200 of the packets of at least 20 bytes, numbered consecutively. |
| Pcap.FlowTableIsBounded | android/app/src/main/java/io/chameleon/android/InspectorActivity.java:383-399 | The flow table never exceeds 2048 entries. |
| Pcap.EvictionDropsOldest | android/app/src/main/java/io/chameleon/android/InspectorActivity.java:385-388 | A new flow in a full table displaces one least recently seen flow and nothing else. |
| Pcap.FlowsCountTheirPackets | android/app/src/main/java/io/chameleon/android/InspectorActivity.java:383-399 | While all flows fit, each counts exactly its own packets and bytes. |
| Packets.FlowOfIPv4 | android/app/src/main/java/io/chameleon/android/InspectorActivity.java:323-334 | An IPv4 packet between the phone and another host belongs, in both directions, to the flow of its two ends, and to none exactly when it is a later fragment, not TCP or UDP, or cut short. |
| Packets.FlowOfIPv6 | android/app/src/main/java/io/chameleon/android/InspectorActivity.java:336-399 | The same for IPv6 behind at most seven extension headers without a later fragment. |
| Packets.ChainIsSkipped | android/app/src/main/java/io/chameleon/android/InspectorActivity.java:347-363 | The reader gets past exactly the chains of extension headers shorter than its limit that hold no later fragment. |
| Packets.EntriesAreRecords | android/app/src/main/java/io/chameleon/android/InspectorActivity.java:281-312 | Each packet of at least 20 bytes is listed under the next number with its time, its whole length and at most 2048 bytes. |
| Packets.LastSeenIsLastPacket | android/app/src/main/java/io/chameleon/android/InspectorActivity.java:383-399 | A flow in the table carries the time of its last packet. |
| Packets.FirstSeenIsFirstPacket | android/app/src/main/java/io/chameleon/android/InspectorActivity.java:383-399 | While all flows fit, each carries the time of its first packet. |
| Pcap.SkipStaysInside | android/app/src/main/java/io/chameleon/android/InspectorActivity.java:347-363 | A transport header found behind IPv6 extension headers lies inside the packet and is no extension header. |
| Pcap.Inspector.ParseNewPackets | android/app/src/main/java/io/chameleon/android/InspectorActivity.java:226-279 | The fields after a look, exception or not, are those Next computes. |
| Pcap.Inspector.ParseRecords | android/app/src/main/java/io/chameleon/android/InspectorActivity.java:255-277 | The record loop hands over exactly the parsed records and moves the offset only on a normal end. |
| Pcap.Inspector.ParsePacket | android/app/src/main/java/io/chameleon/android/InspectorActivity.java:281-321 | The updates of one packet are one step of the tables. |
| Pcap.Inspector.IPv6Transport | android/app/src/main/java/io/chameleon/android/InspectorActivity.java:347-363 | The loop follows the chain of at most eight extension headers. |
| Pcap.Inspector.HandleTransport | android/app/src/main/java/io/chameleon/android/InspectorActivity.java:365-399 | The flow of an initial TCP or UDP packet is touched and no other, short of one eviction. |
| SplitWriter.NormalizedSplitPoints | pkg/dpi/writer.go:57-74 | The in-range split points, each once, in increasing order. |
| SplitWriter.SplitsAreUnique | pkg/dpi/writer.go:57-74 | There is only one such list. |
| SplitWriter.WriteAll | pkg/dpi/writer.go:76-88 | Success means all bytes went out in order, failure a beginning of them. |
| SplitWriter.ApplyWriter | pkg/dpi/writer.go:18-55 | Success delivers exactly the payload, failure a beginning, refusal nothing; with full writes the cuts lie exactly at the distinct in-range split points. |
| SplitWriter.RefusedIff | pkg/dpi/writer.go:18-36 | A payload goes out exactly when it is there, its strategy is valid and needs no control over packets. |
| SplitWriter.FragmentsCut | pkg/dpi/writer.go:37-49 | The fragments join to the payload, none is empty, and their boundaries are the cut points. |
| SplitWriter.FragmentedCuts | pkg/dpi/writer.go:37-55 | The fragments of a strategy make up the payload and meet exactly at its distinct in-range split points. |
| SplitWriter.FirstWriteConn.Write | pkg/dpi/conn.go:28-41 | The first write goes out in fragments as far as the connection's answers allow and is told in full or as failed, on a full connection as failed exactly when refused; later writes are the connection's own. |
| SplitWriter.FirstCountIsTrueIff | pkg/dpi/conn.go:28-41 | The count told is what was delivered exactly when the write succeeds, is refused, or fails at a first answer that takes nothing. |
| SplitWriter.SameOnFullWireIffNotRefused | pkg/dpi/conn.go:28-41 | On a connection that takes everything, wrapper and bare connection tell the same exactly when the write is not refused. |
| SplitWriter.NewFirstWriteConn | pkg/dpi/conn.go:20-25 | A direct or unnamed strategy leaves the connection bare. |
| SplitWriter.WriteStream | pkg/dpi/conn.go:28-41 | Any sequence of successful writes delivers their concatenation. |
| SplitWriter.WriteStreamBare | pkg/dpi/conn.go:28-41 | As does the bare connection. |
| SplitWriter.EmptyFirstWriteFails | pkg/dpi/writer.go:22-24 | An empty first write fails through the wrapper only. |
| SplitWriter.FailedFirstWriteHidesBytes | pkg/dpi/conn.go:34-39 | With a strategy that splits after the first byte, the first fragment goes out, the second fails, and 0 is reported. |
| SplitWriter.ShippedSplitsEarly | pkg/dpi/strategy.go:55-85 | Both shipped split strategies are of this kind. |
| SocksUdp.ParseOfBuild | pkg/socks5/udp.go:170-269 | A built packet parses to the payload and the destination in canonical form. |
| SocksUdp.RoundTripIffCanonical | pkg/socks5/udp.go:170-269 | Parse after build is the identity exactly on canonical destinations. |
| SocksUdp.BuildOfParse | pkg/socks5/udp.go:170-269 | Build after parse is the identity exactly on packets whose address is neither IPv4-mapped, nor a domain that reads as an address, nor one with brackets. |
| CoreFrame.EncodeFrame | pkg/core/frame.go:14-44 | Fills the frame in place, and succeeds exactly for an original length within the payload. |
| CoreFrame.HeaderIs | pkg/core/frame.go:14-44 | The first eight octets: CHLM, the version, no flags, the number of the profile. |
| CoreFrame.DecodeOfEncode | pkg/core/frame.go:14-66 | Decoding recovers the data exactly when its length fits 32 bits and does not exceed the padded length's low 32 bits. |
| CoreFrame.TrailingBytesAreIgnored | pkg/core/frame.go:47-66 | Bytes after the padded payload do not matter. |
| Versions.CompareIsTotalPreorder | android/app/src/main/java/io/chameleon/android/UpdateRepository.java:185-217 | Comparing is total, sign-antisymmetric and transitive, ties included. |
| Versions.NewerIff | android/app/src/main/java/io/chameleon/android/UpdateRepository.java:177-217 | Newer means a larger number at the first difference; at equal numbers, a release over a prerelease; of two prereleases, the later identifier at the first untied position, or the longer list. |
| Versions.LargerIsNewer | android/app/src/main/java/io/chameleon/android/UpdateRepository.java:185-192 | The larger number at the first difference is newer, never the other way round. |
| Versions.ParseOfShown | android/app/src/main/java/io/chameleon/android/UpdateRepository.java:223-242 | A version written as numbers, dots and a hyphen parses back, with or without a leading v and white space. |
| Versions.NewerIsStrictWeakOrder | android/app/src/main/java/io/chameleon/android/UpdateRepository.java:177-179 | Being newer is a strict order whose incomparability is transitive. |
| Versions.ReleaseAbovePrereleases | android/app/src/main/java/io/chameleon/android/UpdateRepository.java:193-195 | A release is newer than any prerelease of the same numbers. |
| Versions.VersionsTie | android/app/src/main/java/io/chameleon/android/UpdateRepository.java:185-217 | Versions tie exactly when numbers agree and identifiers agree in value or up to case. |
| Versions.CompareFailsIff | android/app/src/main/java/io/chameleon/android/UpdateRepository.java:185-217 | Comparing throws exactly when the numbers tie and the first identifiers that do not tie are both numeric, one of them beyond int. |
| Versions.ComparesWithItselfIffFits | android/app/src/main/java/io/chameleon/android/UpdateRepository.java:204-208 | A prerelease compares with itself without an exception exactly when its numeric identifiers fit in int. |
| Versions.ComponentIsNumber | android/app/src/main/java/io/chameleon/android/UpdateRepository.java:230-236 | A main component counts as the number it spells, or as 0 beyond int. |
| Versions.CompareVersions | android/app/src/main/java/io/chameleon/android/UpdateRepository.java:185-217 | The loops compute the comparison of the two parsed versions, which NewerIff describes by plain comparison. |
| Versions.Parse | android/app/src/main/java/io/chameleon/android/UpdateRepository.java:223-242 | The in-place parse yields the version of the text. |
| Versions.IsNewer | android/app/src/main/java/io/chameleon/android/UpdateRepository.java:177-179 | Newer exactly when the comparison is positive. |
| Text.SplitOfJoin | pkg/tunnel/protocol.go:141-157 | Splitting what net.JoinHostPort made gives host and port back. |
| Text.JoinOfSplit | pkg/socks5/udp.go:195-207 | Joining what net.SplitHostPort gave restores the text exactly when a bracketed host needed its brackets. |

## Left out

- Cryptographic primitives, TLS, QUIC, certificates: replaced by ideal functions.
- Handover.HandOverLosesNothing: the octets from server to client are followed only up to the status; what the server relays back afterwards is a second SecureConn stream, covered by SecureStream alone.
- Handover: the server's dial of the upstream between acceptance and status is one step that ends in any status byte, for a probe always 0; deadlines are not modelled.
- Relay: the writes to an upstream and the sealed responses; only who owns and closes which socket is modelled.
- Handshake.LegacyAgreement: the server's clock reads an ordinary date, so only the instant of the timestamp wraps.
- ReplayCache.AcceptNonce: the lock is taken as given, so calls are sequential.
- Averages.RunningDuration: 64-bit overflow of durations and counters is not modelled.
- Carrier.Engine.Choose: scores are real numbers, so rounding and NaN are not modelled; the decay curve is any function with the shape of a 24 h half-life.
- Carrier, Dpi: the JSON stores on disk, Snapshot and the human-readable reasons of decisions; so neither is an observation that cannot be saved, after which a dialled connection is closed.
- Planner.Planner.Choose: the traffic class is a field of the request; the classifier is not part of this model.
- AdaptiveDialer.Dialer.DialContext: what happens inside one dial of a plan is a dial result; how a race of two attempts ends is an input: any winner and any failures of distinct other attempts, which is what Race.RaceOutcome allows.
- LearningConn.OneOutcome: the early read deadline for web and streaming traffic, and the throughput value of a success.
- Controller: the stage texts and the readiness probe; parsing the configuration happens before the modelled section.
- Pcap.Inspector.ParsePacket: summaries, owners, DNS names, TLS SNI and HTTP details of packets and flows are display text.
- Pcap.Inspector.HandleTransport: which of several equally old flows is evicted is a parameter.
- Versions.Parse: line terminators inside a component, which the regular expression treats specially.
- SocksUdp.ParseOfBuild: the text forms of addresses are any pair of functions that undo each other.
- SplitWriter.ApplyWriter: the pauses between fragments.
- Text.Trim: only ASCII white space; Text.Lower: only ASCII letters.
- Configuration, updates over the network, installers, Android screens and services, DNS over TCP and direct UDP associations would add only simple members.
