# WhatsApp connector: a verified model

The connector relays Opus audio between a WhatsApp call on Meta's side, over ICE, DTLS and SRTP, and a LiveKit room. This project models the parts of it in which several goroutines interleave or in which fixed-width arithmetic carries an unbounded meaning, and proves laws of them for all inputs, all interleavings and all reachable states. `dafny verify dfyconfig.toml` checks everything.

How the parts are modelled:

- State that the code updates in place is a class (`Tracker`, `Rebaser`, `Packet`, `Bridge`, `Inbox`, `Mux`, `Transport`, `Negotiation`, `Record`, `CallManager`). Each method is a critical section or a loop of the code, proved against a function on values.
- A concurrent protocol is a step machine over those same functions: `Enabled` and `Step` describe one critical section, channel operation or foreign call, and `Reachable` ranges over every finite interleaving. Foreign calls (pion, Meta, LiveKit, timers) succeed or fail at will.
- Wrapping arithmetic is compared with an independent reference on unbounded integers: `Source` (a trace of true sequence numbers) for the receive statistics and `Timeline` (an integer shift per source segment) for the rebaser.

| file | subject |
|---|---|
| `Words.dfy`, `Sequences.dfy`, `Text.dfy` | machine words, order-preserving selection, ASCII text and hexadecimal |
| `RxStats.dfy` | receive statistics and reception reports |
| `Rebase.dfy`, `Bridge.dfy` | rewriting of sequence numbers and timestamps, and the forwarder that uses it |
| `RtpQueue.dfy`, `PacketMux.dfy` | drop-oldest packet queue, demultiplexing of one UDP flow |
| `Transport.dfy` | start and close of the media transport |
| `Fingerprint.dfy`, `Sdp.dfy` | certificate fingerprints, offer and answer |
| `Call.dfy`, `Manager.dfy`, `Registry.dfy` | one call, the manager with all calls, and the manager as an object |
| `WholeRuns.dfy`, `History.dfy`, `Returns.dfy` | what no later step takes back, what happened to a call, and what Accept and Dial return |
| `Progress.dfy`, `Draining.dfy` | bounded progress, and what Shutdown achieves |
| `Composition.dfy` | the manager together with the transports of its calls |

Where the code promises less than one might expect, the model follows the code and the exact condition is proved:

- `Lost` is the number of missing packets if and only if no packet arrived twice and none preceded the first (`RxStats.LostIsMissing`, failing in `RxStats.DuplicateHidesLoss`); the reported total is clamped to 0..2^24-1, not to the signed range of appendix A.3 of RFC 3550.
- Output positions of the rebaser can repeat: over a run they are unique if and only if every packet numbered before the first packet of its segment falls into a gap (`Rebase.PositionsUniqueIff`, packet by packet `Rebase.ReuseIff`, with the example `Rebase.OutputNumberReused`).
- The drop-oldest queue keeps the newest packet of each stream if and only if there is at most one stream reader (`RtpQueue.NewestKeptIffOneReader`).
- A marked RTP packet with a payload type in 64..95 is taken for RTCP (`PacketMux.RtpGoesToSrtp`), although such payload types can be negotiated.
- `Wait` can report success without a session: exactly if the goroutine was never launched or met the closed flag on entering setResult or its mux registration (`Transport.SuccessWithoutSessionIff`). The manager never uses such a success (`Composition.ConnectedCallsHaveSessions`).
- A rejected answer can leave its parameters in the negotiation (`Sdp.RejectionCanWrite`), and leaves none exactly under the condition of `Sdp.RejectionLeavesRecordIff`; it never influences what a later answer does (`Sdp.EarlierAnswersDoNotMatter`).
- A fingerprint that passes validation can be matched by a certificate only if it is in canonical form up to case (`Fingerprint.AcceptedFingerprintMatchableIff`, failing for `Fingerprint.BareFingerprintIsNeverMatched`).
- Shutdown cancels every call, present and future, if and only if no Accept is between its draining check and its registration (`Draining.DrainIsCompleteIff`).
- Dial keeps the registry faithful if and only if the identifier that Meta returns is not registered (`Manager.DialNeedsFreshIdentifier`, failing in the states of `Manager.StaleIdentifierHappens`); the runs of `Manager` assume that it is not.

## Model

| member | source | states |
|---|---|---|
| RxStats.Tracker.constructor | internal/media/rtpstats.go:20-37 | a new tracker has seen nothing |
| RxStats.Tracker.Update | internal/media/rtpstats.go:39-57 | one packet moves the fields as `Updated` does; `RunRefines` says what that means |
| RxStats.Tracker.Snap | internal/media/rtpstats.go:82-90 | the snapshot is `SnapshotOf` the fields, which `LostIsMissing` and `StatisticsOfTrueTrace` explain, and changes nothing |
| RxStats.Tracker.Report | internal/media/rtpstats.go:93-123 | the report, or none before the first packet, and the new priors; explained by `FractionIsExact` and `ReportedTotalIsSumOfIntervals` |
| RxStats.ArrivalRefines | internal/media/rtpstats.go:46-57 | one arrival keeps every word equal to the reference quantity modulo its width |
| RxStats.StepRefines | internal/media/rtpstats.go:39-123 | so does every arrival or report, of the same or a new source |
| RxStats.RunRefines | internal/media/rtpstats.go:39-123 | after every run of arrivals and reports the wrapping state refines the trace of unbounded positions |
| RxStats.TrueNumbersRecovered | internal/media/rtpstats.go:46-57 | if each true number is within half the 16-bit space of the maximum before it, the reference holds exactly the true numbers, after any history |
| RxStats.StatisticsOfTrueTrace | internal/media/rtpstats.go:46-57 | then cycles plus maximum is the true maximum modulo 2^32, and reordering and received counts are those of the trace |
| RxStats.LostIsMissing | internal/media/rtpstats.go:82-90 | Lost is the number of missing positions less the duplicates and predecessors, and equals the missing ones iff arrivals are distinct and none precedes the first |
| RxStats.LostOfTrueTrace | internal/media/rtpstats.go:82-90 | for a true trace after any history, Lost is the number of the sender's missing numbers iff they arrived distinct and none preceded the first |
| RxStats.NothingBeforeFirstPacket | internal/media/rtpstats.go:82-90 | the snapshot is all zero exactly as long as no packet has arrived |
| RxStats.DuplicateHidesLoss | internal/media/rtpstats.go:82-90 | a concrete run, one packet received twice: nothing is missing and Lost is -1 |
| RxStats.RunKeepsIntervals | internal/media/rtpstats.go:93-108 | in every run, nothing is expected in an interval in which nothing arrived |
| RxStats.FractionNeverTruncates | internal/media/rtpstats.go:99-108 | with fewer than 2^32 packets in the interval, a positive expected interval has a received packet and the 8-bit conversion loses nothing |
| RxStats.FractionIsExact | internal/media/rtpstats.go:99-108 | with E expected and R received in the true interval, the reported f satisfies f·E ≤ 256·(E−R) < (f+1)·E if E > R and E > 0, and is 0 otherwise |
| RxStats.ReportNamesTheSource | internal/media/rtpstats.go:119-122 | the report carries the source's SSRC and its true highest position modulo 2^32 |
| RxStats.IntervalLossesTelescope | internal/media/rtpstats.go:99-114 | the interval losses since the source began add up to the loss at the last report |
| RxStats.ReportedTotalIsSumOfIntervals | internal/media/rtpstats.go:99-114 | the reported total is the sum of the interval losses, 0 if that is negative and 16777215 if it is greater |
| Rebase.Rebaser.constructor | internal/livekitbridge/rebase.go:30-48 | a new rebaser has adopted no source |
| Rebase.Rebaser.Anchor | internal/livekitbridge/rebase.go:69-92 | adopt, keep or continue: the offsets become `Anchored`, whose meaning is `ContinuationRefines` and `RestartRefines` |
| Rebase.Rebaser.FramesSince | internal/livekitbridge/rebase.go:77-83 | the frames skipped at a restart, which `FramesAreElapsedTime` determines |
| Rebase.FramesAreElapsedTime | internal/livekitbridge/rebase.go:77-83 | the one number f with 20 ms·f ≤ elapsed < 20 ms·(f+1), where less than one frame counts as 1 and more than 500 as 500, also for times outside the range of a duration |
| Rebase.Rebaser.Advance | internal/livekitbridge/rebase.go:94-101 | moves the two high-water marks as `Advanced` does, whose meaning is `ContinuationRefines` |
| Rebase.Rebaser.Rewrite | internal/livekitbridge/rebase.go:66-112 | header and state after one packet in place, payload untouched |
| Rebase.RestartsIffBreaks | internal/livekitbridge/rebase.go:76-76 | the 16-bit restart test is the test on unbounded positions |
| Rebase.ContinuationRefines | internal/livekitbridge/rebase.go:94-101 | within a segment the packet is shifted by the segment's constant and both high-water marks follow |
| Rebase.RestartRefines | internal/livekitbridge/rebase.go:76-92 | a restart puts the packet one above the high-water mark and 960 ticks per skipped frame later |
| Rebase.RunKeepsInvariant | internal/livekitbridge/rebase.go:66-112 | after every run the wrapping state refines the integer timeline and every output so far lies on it |
| Rebase.OutputsArePlacements | internal/livekitbridge/rebase.go:69-107 | one output SSRC for the whole run, the first source's xor 0x6d2b79f5, and output numbers are the placements modulo 2^16 |
| Rebase.ExtensionsKeptOrCleared | internal/livekitbridge/rebase.go:102-111 | in every run header extensions pass unchanged in one direction and are cleared in the other |
| Rebase.SegmentIsShifted | internal/livekitbridge/rebase.go:94-102 | two packets of one segment keep their distance in number and timestamp, over any number of wraparounds |
| Rebase.SegmentStart | internal/livekitbridge/rebase.go:76-92 | each new segment starts exactly one above the high-water mark, 960·f ticks after the packet that reached it, where f is that number of frames since the previous packet, even if the clock goes back |
| Rebase.SameSegmentIff | internal/livekitbridge/rebase.go:76-76 | a packet stays in its predecessor's segment iff it has its SSRC and some position within 3000 of that segment's highest has its number |
| Rebase.FirstSegmentIsUnchanged | internal/livekitbridge/rebase.go:70-75 | numbers and timestamps of the first segment pass unchanged |
| Rebase.HighWaterNeverDecreases | internal/livekitbridge/rebase.go:99-101 | the unbounded output high-water mark is monotone and lastOutSeq is it modulo 2^16 |
| Rebase.SteadySourceIsOneSegment | internal/livekitbridge/rebase.go:69-102 | a source whose true numbers stay within 3000 of their maximum is one segment of exactly those positions plus a constant, after any history |
| Rebase.ReuseIff | internal/livekitbridge/rebase.go:84-94 | a packet of a later segment lands on a position used before that segment iff it is numbered some d before the segment's first packet and the position d below that one's had been emitted; for d = 1 it always had |
| Rebase.PositionsUniqueIff | internal/livekitbridge/rebase.go:84-101 | over a whole run two packets share a position only as copies of one packet, iff every packet numbered before its segment's first falls into a gap |
| Rebase.NobodyEarlyMeansUnique | internal/livekitbridge/rebase.go:84-101 | in particular if no packet is numbered before the first of its segment |
| Rebase.OutputNumberReused | internal/livekitbridge/rebase.go:84-94 | a concrete run in which two segments emit the same number |
| Bridge.Bridge.constructor | internal/livekitbridge/bridge.go:55-66 | a new bridge has no active track, and its counters are zero |
| Bridge.Bridge.CountWriteFailure | internal/livekitbridge/bridge.go:190-199 | exactly one of the two failure counters advances |
| Bridge.Bridge.ForwardOne | internal/livekitbridge/bridge.go:164-177 | the packet is rewritten before the write is attempted, and counted by its fate |
| Bridge.Bridge.ForwardRemote | internal/livekitbridge/bridge.go:141-178 | one forwarder at a time; it reads on until a write fails with one of the five errors that end it and stops there, what it sent are the rebaser's outputs at the delivered packets, and the counters are the tally |
| Bridge.PacketsAreConserved | internal/livekitbridge/bridge.go:156-178 | packets read are sent, dropped as not ready, failed, or one last fatal one |
| Bridge.FatesAreExhaustive | internal/livekitbridge/bridge.go:165-176 | every packet has exactly one fate |
| Bridge.FatesByError | internal/livekitbridge/bridge.go:180-198 | a write ends the forwarder iff its error wraps EOF, closed pipe, closed connection, cancellation or deadline; otherwise not-ready and other failures cost one packet each |
| Bridge.SentPacketsKeepTheirDistance | internal/livekitbridge/bridge.go:164-177 | two sent packets of one segment keep their input distance however many between them were lost |
| RtpQueue.Inbox.TrySend | internal/media/transport.go:342-344 | the non-blocking send |
| RtpQueue.Inbox.Enqueue | internal/media/transport.go:342-355 | with one reader and any consumer, the packet ends up newest, at most one older one is dropped, and none unless the queue held 256 |
| RtpQueue.Inbox.ReadStream | internal/media/transport.go:329-357 | every valid packet is accepted, kept ones are an in-order selection and the newest is kept |
| RtpQueue.PacketsAreConserved | internal/media/transport.go:329-357 | for any number of readers: accepted packets are, as multisets, delivered, queued, dropped or in hand; rxDropped counts the dropped ones; at most 256 are queued |
| RtpQueue.StreamsStayInOrder | internal/media/transport.go:329-381 | what is delivered of each stream is an in-order subsequence of what it read |
| RtpQueue.OneReaderDropsOnlyTheOldest | internal/media/transport.go:342-355 | with one reader each dropped packet is older than all kept ones and the newest is never dropped |
| RtpQueue.TwoReadersCanDropTheNewest | internal/media/transport.go:345-355 | for every set of readers and any two of them, a reachable state has dropped the newest packet of one |
| RtpQueue.NewestKeptIffOneReader | internal/media/transport.go:342-355 | for every set of readers, all reachable states keep each stream's newest packet iff the set has at most one element |
| RtpQueue.DropsNeedAFullQueue | internal/media/transport.go:342-355 | in every run a packet is dropped only by a reader whose offer of the packet in hand met a queue of 256, one at a time |
| PacketMux.RtpGoesToSrtp | internal/media/transport.go:611-618 | version 2 RTP goes to SRTP iff it is not marked with payload type 64..95 |
| PacketMux.ClassesByBytes | internal/media/transport.go:606-621 | which first and second bytes make DTLS, SRTP and SRTCP |
| PacketMux.EndpointsHoldTheirBytes | internal/media/transport.go:598-646 | in every reachable state an endpoint has only received datagrams with the bytes of its class, and while open all of them |
| PacketMux.Mux.Send | internal/media/transport.go:622-627 | the datagram is appended to its endpoint and to no other |
| PacketMux.Mux.ReadLoop | internal/media/transport.go:598-629 | on an open mux each endpoint gets exactly the datagrams of its class, in order |
| PacketMux.OpenEndpointGetsEverything | internal/media/transport.go:598-646 | in every reachable state with mux and endpoint open, consumed, queued and in-hand datagrams are exactly those of the class, in order |
| PacketMux.EndpointsStayInOrder | internal/media/transport.go:598-646 | whatever was closed, an endpoint sees an in-order selection of its class |
| Transport.Transport.constructor | internal/media/transport.go:69-73 | a new transport is not started, and owns only its raw socket |
| Transport.Transport.Start | internal/media/transport.go:74-74 | only the first start launches the goroutine |
| Transport.Transport.Register | internal/media/transport.go:232-241 | resources are registered only if the transport is not closed |
| Transport.Transport.SetResult | internal/media/transport.go:203-224 | publishes sessions and error, or hands everything back for closing if the transport is closed |
| Transport.Transport.MarkClosed | internal/media/transport.go:532-537 | sets the closed flag and nothing else |
| Transport.Transport.ResourcesToClose | internal/media/transport.go:546-568 | the six tests collect exactly what is registered, each once, in the order of closing, which is what the protocol closes |
| Transport.Transport.ReleaseIfNeverStarted | internal/media/transport.go:539-540 | Close takes the start guard and releases the waiters iff nobody started |
| Transport.StepKeeps | internal/media/transport.go:74-164 | every step of the run goroutine, Close, Start and a failing mux keeps the ledger, ready and result invariants |
| Transport.ExecKeeps | internal/media/transport.go:74-292 | so does every interleaving |
| Transport.ReadyClosesOnce | internal/media/transport.go:532-545 | the ready channel is closed at most once, and once when any Close has returned |
| Transport.CloseCancelsFirst | internal/media/transport.go:532-537 | a Close past its first step has cancelled the context, and nobody else has; before it nothing is marked or closed by it |
| Transport.CloseLeavesNothingOpen | internal/media/transport.go:532-568 | when any Close has returned, everything ever created and the raw socket are closed, whichever step it interrupted |
| Transport.ReadyMeansSessions | internal/media/transport.go:203-224 | unless closed, a ready transport reports success iff all sessions are registered |
| Transport.SuccessWithoutSessionIff | internal/media/transport.go:282-292 | over every run that released the waiters: success without a session iff the goroutine was never launched, or found the transport closed on entering setResult or the registration of its mux |
| Transport.SuccessWithoutSessionHappens | internal/media/transport.go:532-545 | closing a transport that was never started is such a run |
| Transport.SomebodyProgresses | internal/media/transport.go:532-545 | a Close under way can go on, or waits for a goroutine that can, whatever its library call yields |
| Transport.RunProgresses | internal/media/transport.go:75-164 | every step of the run goroutine, successful or not, gets nearer to its end and leaves Close alone |
| Transport.CloseProgresses | internal/media/transport.go:532-568 | every step of Close gets nearer to its end and leaves the goroutine alone |
| Transport.OwnStepsAreBounded | internal/media/transport.go:75-164 | between any two points of any run, Close and the goroutine take no more steps than they had left |
| Transport.CloseEndsInEveryRun | internal/media/transport.go:532-545 | in every run Close and the goroutine take at most 48 steps together, and where neither has one, Close is done |
| Transport.CloseCompletes | internal/media/transport.go:532-545 | from every reachable state Close and the goroutine alone reach the end of Close, whether the library calls succeed or fail |
| Transport.NothingBeforeStart | internal/media/transport.go:69-79 | until the goroutine is launched nothing but the raw socket exists |
| Fingerprint.Format | internal/media/sdp.go:167-172 | the printing loop yields upper-case byte pairs separated by colons |
| Fingerprint.PrintedDecodes | internal/media/sdp.go:208-215 | every printed digest passes the validators and decodes to itself |
| Fingerprint.ComparisonIsEquality | internal/media/transport.go:97-104 | for printed fingerprints the peer comparison is equality of digests |
| Fingerprint.AcceptedFingerprintMatchableIff | internal/media/sdp.go:208-215 | a validated fingerprint can be matched by some certificate iff, in upper case, it is the printed form of what it decodes to, and then by that digest only |
| Fingerprint.BareFingerprintIsNeverMatched | internal/media/sdp.go:208-215 | for every digest: its fingerprint without colons passes validation and no certificate matches it |
| Text.HexRoundTrip | internal/media/sdp.go:212-215 | hexadecimal decoding undoes encoding |
| Text.HexLowerRoundTrip | internal/media/sdp.go:324-330 | credentials printed in lower case decode to their bytes |
| Text.FieldsOfTwoWords | internal/media/sdp.go:208-209 | splitting at white space undoes joining two words with a blank |
| Text.ItoaRoundTrip | internal/media/sdp.go:278-283 | decimal parsing undoes printing |
| Sdp.CollectCandidates | internal/media/sdp.go:297-323 | the collecting loop with its seen-set |
| Sdp.CandidatesAreTheFirstGoodLines | internal/media/sdp.go:297-323 | the candidates are, in order, those of the candidate lines read as component 1, UDP, IPv4, port 1..65535, each the first that prints so, and every such line is represented |
| Sdp.Negotiation.ApplyAnswer | internal/media/sdp.go:75-138 | the record after ApplyAnswer in place, on failure too |
| Sdp.ParametersAgree | internal/media/sdp.go:79-126 | the two separately written validators extract the same parameters or fail for the same reason, where ApplyAnswer has one error for the two of ParseOfferAndAnswer about ICE credentials |
| Sdp.ParametersIff | internal/media/sdp.go:79-126 | a description is accepted up to its setup iff its first compatible audio section has, by itself or through the session, the listed attributes |
| Sdp.AcceptedParametersAreTold | internal/media/sdp.go:83-128 | whichever function accepts a description, every recorded parameter is the value of the audio section's first attribute with its key or, only if it has none, of the session's first; payload type and candidates are those of the first fitting lines |
| Sdp.RolesFollowSetup | internal/media/sdp.go:129-136 | an accepted passive peer makes us active and the DTLS client, an active or actpass one passive and the server |
| Sdp.LocalParametersAreGiven | internal/media/sdp.go:248-256 | the answerer's record holds the certificate, address, port modulo 2^16 and random credentials it was given |
| Sdp.AcceptedIff | internal/media/sdp.go:75-138 | ApplyAnswer accepts iff there is offer state, the description has those attributes and its setup is active or passive |
| Sdp.ValidatorsAgree | internal/media/sdp.go:75-271 | with valid offer state ApplyAnswer accepts iff ParseOfferAndAnswer accepts with a setup other than actpass, and then parameters and role are the same |
| Sdp.AppliedKeepsOffer | internal/media/sdp.go:127-137 | an answer never changes certificate, credentials or address of the offer |
| Sdp.OutcomeDependsOnOffer | internal/media/sdp.go:75-138 | acceptance and its result depend on the offer only |
| Sdp.EarlierAnswersDoNotMatter | internal/media/sdp.go:75-138 | after any tried answers the next one has the outcome it would have on the original offer |
| Sdp.RejectionLeavesRecordIff | internal/media/sdp.go:127-136 | a rejected answer leaves the record untouched iff there was no offer state, some attribute other than the setup was wrong, or the record already held its six parameters |
| Sdp.RejectionCanWrite | internal/media/sdp.go:127-136 | a complete answer with setup holdconn is rejected and changes the record |
| Sdp.DescriptionReadsBack | internal/media/sdp.go:331-342 | reading the printed attributes gives the printer's own parameters |
| Sdp.HostCandidateWords | internal/media/sdp.go:331-342 | the announced candidate reads: component 1, UDP, the local address and port, host |
| Sdp.OfferAnswerRoundTrip | internal/media/sdp.go:52-151 | an offer answered by one side and applied by the other is accepted, exchanges all parameters and leaves exactly one DTLS client |
| Sdp.NewOfferLeavesOneClient | internal/media/sdp.go:52-71 | NewOffer succeeds iff certificate, IPv4 address, port and randomness are good; its offer, answered and applied, makes the offerer the only DTLS client |
| Call.Record.constructor | internal/call/manager.go:127-136 | a new call has no verdict and no hang-up recorded |
| Call.Record.SignalReady | internal/call/manager.go:474-484 | the first report wins |
| Call.Record.StopBusiness | internal/call/manager.go:500-507 | records a business hang-up unless the user hung up |
| Call.Record.StopUser | internal/call/manager.go:508-514 | records the user hang-up and withdraws a business one; `History.TerminateFollowsHangUps` says what follows |
| Call.Record.Cancel | internal/call/manager.go:500-514 | cancels the context, as the second half of both stops |
| Call.Record.Connect | internal/call/manager.go:224-232 | the first accepted answer creates the transport and releases the waiter; later ones change nothing |
| Call.StepKeeps | internal/call/manager.go:249-322 | every step of setup, failure, ending and cleanup and every concurrent Connect, Disconnect or cancellation keeps the call's invariants |
| Call.StepKeepsSocket | internal/call/manager.go:528-534 | the socket is closed exactly when cleanup has ended: by the transport, or by the call if it kept one and had no transport, also when Connect makes a transport meanwhile |
| Call.StepFrame | internal/call/manager.go:500-535 | what no step takes back: identity, cancellation, a recorded hang-up and who recorded it, a closed socket; stopUser records the user |
| Call.VerdictIsFinal | internal/call/manager.go:474-484 | a reported verdict never changes |
| Call.TerminateIsDecidedOnce | internal/call/manager.go:515-527 | when cleanup reads the flags exactly one is set; Meta is asked to terminate at most once, and exactly if the call was signalled and no user hang-up was recorded then |
| Call.BridgeIsReleased | internal/call/manager.go:528-530 | a connected call has its bridge and was signalled, and a released one has closed its bridge |
| Call.WaitersLearnTheTruth | internal/call/manager.go:490-499 | waiting succeeds iff the call reached connected, nobody waits for a call being released, and the missing-transport failure is unreachable |
| Call.AnswerDecidesTransport | internal/call/manager.go:301-315 | for outbound calls the answer channel is closed iff the transport exists, once, and the negotiation is the first accepted answer applied to the original offer |
| Call.RunAdvances | internal/call/manager.go:249-322 | every step of the run goroutine brings it nearer to its end, nobody else moves it, it always has a step, and once cancelled one that is no failure or timeout |
| Registry.CallManager.constructor | internal/call/manager.go:84-86 | a new manager is the initial state of the protocol |
| Registry.CallManager.AdmitInbound | internal/call/manager.go:92-104 | Accept's first section does what the protocol step does: refuse, join or go on |
| Registry.CallManager.RegisterInbound | internal/call/manager.go:137-149 | Accept's second section takes the object, the records of all calls included, to the state of the protocol step, also for a duplicate |
| Registry.CallManager.RegisterOutbound | internal/call/manager.go:203-212 | so does Dial's second section, also while draining |
| Registry.CallManager.Find | internal/call/manager.go:217-220 | looks up the registered call |
| Registry.CallManager.Disconnect | internal/call/manager.go:537-555 | hangs up the registered call for the user or the business, as the two protocol steps do, and ignores an unknown one |
| Registry.CallManager.Unregister | internal/call/manager.go:242-244 | deletes exactly the finished call, as the protocol step does |
| Registry.CallManager.Uncount | internal/call/manager.go:245-245 | Done on the wait group, as the protocol step does |
| Registry.CallManager.Shutdown | internal/call/manager.go:556-562 | ends in the state of a protocol run that begins Shutdown, stops and cancels each registered call once, in some order, and releases the mutex |
| Registry.StopAll | internal/call/manager.go:559-561 | the loop performs those steps on the records |
| Registry.StopOne | internal/call/manager.go:500-507 | stops and cancels one record and no other |
| Registry.HangUp | internal/call/manager.go:500-514 | stops and cancels one record and no other |
| Manager.OnCallKeeps | internal/call/manager.go:249-322 | any step of any call keeps all invariants of the manager |
| Manager.RegisterKeeps | internal/call/manager.go:137-149 | registration, discovery of a duplicate and a Dial that meets draining keep them |
| Manager.DeskStepKeeps | internal/call/manager.go:105-136 | so do the unlocked parts of Accept and Dial, whatever fails |
| Manager.UnregisterKeeps | internal/call/manager.go:240-244 | so does deletion from the registry |
| Manager.ShutdownKeeps | internal/call/manager.go:556-562 | so does the beginning of Shutdown |
| Manager.StepKeeps | internal/call/manager.go:88-247 | every step of every goroutine keeps them |
| Manager.RunKeeps | internal/call/manager.go:88-571 | so does every run |
| Manager.RegistryIsFaithful | internal/call/manager.go:240-247 | in every reachable state each key names a call with that identifier, live calls have different identifiers, and the wait group is the number of registered calls before Done, at least the registry's size |
| Manager.ZeroMeansReleased | internal/call/manager.go:563-570 | when the wait group is zero the registry is empty and every registered call has its verdict, its decision about Meta and its socket closed |
| Manager.EveryCallObeysItsLaws | internal/call/manager.go:485-535 | the laws of one call hold for every call in every reachable state of the manager |
| Manager.SocketsAreConserved | internal/call/manager.go:111-149 | every socket ever opened is closed, or held by one operation in flight, or owned by one call before the end of its cleanup |
| Manager.SocketsAreNotShared | internal/call/manager.go:177-212 | no two calls, and no call and operation, have the same socket |
| Manager.NothingLeaks | internal/call/manager.go:515-535 | when all operations have returned and all calls were cleaned up every socket is closed |
| Manager.ReturnsSettleSockets | internal/call/manager.go:111-149 | an operation that returns has closed its socket, also on errors, duplicates and draining, or its call is in the registry |
| Manager.JoinersShareTheRoom | internal/call/manager.go:137-149 | concurrent Accepts that got one call got the same room |
| Manager.DialNeedsFreshIdentifier | internal/call/manager.go:210-211 | storing the dialled call leaves the registry faithful iff the identifier was not registered |
| Manager.StaleIdentifierHappens | internal/call/manager.go:177-212 | for every identifier a state is reachable in which a Dial was given it while it is registered |
| WholeRuns.StepPersists | internal/call/manager.go:88-571 | no step takes back a verdict, a cancellation, a closed socket, a returned result or draining |
| WholeRuns.RunPersists | internal/call/manager.go:474-535 | nor does any run |
| History.EveryCallIsExplained | internal/call/manager.go:249-326 | in every run the flags, stage, verdict and failure of every call follow from which of its stages passed or failed and whether the user hung up in time |
| History.TerminateFollowsHangUps | internal/call/manager.go:515-524 | in every run Meta is asked to terminate once iff cleanup has decided, the call is outbound or was marked signalled, and no user hang-up came before cleanup looked |
| History.ConnectedMeansAllStages | internal/call/manager.go:249-326 | a waiter learns success iff the call reached connected, and then every stage before succeeded: bridge, PreAccept, transport and Accept inbound; bridge, answer and transport outbound |
| History.VerdictIsExplained | internal/call/manager.go:474-499 | a waiter learns a timeout iff the answer did not come, a setup failure iff another stage failed, and a cancellation iff nothing failed and it never connected |
| Returns.RunRefuses | internal/call/manager.go:88-215 | over every run an operation is refused iff one of the steps refuses it that the code has for that |
| Returns.AcceptReturns | internal/call/manager.go:88-160 | an Accept that returned was refused iff the manager drained when it began or its socket or negotiation failed; otherwise it joined a registered call of its identifier, in that call's room |
| Returns.AcceptRegistersItsRequest | internal/call/manager.go:137-149 | if the identifier is free at registration, the new inbound call has the identifier and room of the request |
| Returns.AcceptsJoinTheRegisteredCall | internal/call/manager.go:92-149 | while a call stays registered, over any run, every Accept of its identifier that begins, or is in flight without having found another, returns that call and its room, unless it is refused for one of those reasons |
| Returns.DialReturns | internal/call/manager.go:161-215 | a Dial that returned was refused iff the manager drained when it began or registered or its socket, offer or request failed; otherwise it returned the identifier Meta gave, registered for an outbound call in the requested room |
| Progress.NextStepEffect | internal/call/manager.go:240-322 | while the mutex is free every goroutine of a call has a next step, which is no failure or timeout if the call is cancelled |
| Progress.StepDistance | internal/call/manager.go:249-322 | a goroutine's own step brings it nearer to its end, and no other step moves it |
| Progress.OwnStepsAreBounded | internal/call/manager.go:240-322 | in every run the goroutines of any set of calls take no more steps than they had left, at most 24 each |
| Progress.OperationGoesOn | internal/call/manager.go:105-212 | while the mutex is free an Accept or Dial in flight has a step nearer to its return, or waits for a call of its own that can go on |
| Progress.OpStepsAreBounded | internal/call/manager.go:88-212 | in every run an operation takes at most five steps |
| Progress.ShutdownProgresses | internal/call/manager.go:557-562 | Shutdown never waits for a call while it holds the mutex |
| Progress.NobodyIsStuck | internal/call/manager.go:556-571 | in every reachable state Shutdown, if it holds the mutex, and otherwise every unfinished call and every operation has a next step, save a Dial whose identifier is not fresh; only an uncancelled call that waits needs a failure or timeout |
| Progress.EveryStateCanDrain | internal/call/manager.go:563-570 | from every reachable state some continuation brings the wait group to zero |
| Draining.RegisteredCallsAreCancelled | internal/call/manager.go:556-562 | every call registered when Shutdown begins is cancelled once it releases the mutex, in every continuation |
| Draining.NoOutboundAfterDraining | internal/call/manager.go:203-212 | while draining only a late Accept enters the registry, never an outbound call |
| Draining.DrainIsCompleteIff | internal/call/manager.go:92-149 | all registered calls are cancelled in every state after Shutdown's section, in every continuation, iff no Accept was past its draining check and unregistered |
| Draining.QuietShutdownDrains | internal/call/manager.go:556-571 | if no Accept was in flight, every schedule drains: counted calls take at most 24 steps each, nobody else is counted, and once the mutex is free each counted call has a step that is no failure or timeout, so where none is left the count is zero |
| Draining.AcceptInFlightHappens | internal/call/manager.go:92-104 | such an Accept is reachable |
| Composition.ExecKeeps | internal/call/manager.go:249-322 | every interleaving of manager, calls and their transports keeps the invariant that links each call to its transport |
| Composition.ConnectedCallsHaveSessions | internal/call/manager.go:266-276 | a call that Wait let pass has all its sessions and nobody is closing them: under this manager success is never hollow |
| Composition.ReleasedCallsHoldNothing | internal/call/manager.go:515-535 | a call past its cleanup has closed its socket and everything its transport ever created, also if Connect made the transport during cleanup |
| Composition.ZeroMeansMediaClosed | internal/call/manager.go:563-570 | when the wait group is zero, every ICE, DTLS and SRTP resource of every registered call is closed |

## Left out

- ICE, DTLS, SRTP and RTCP inside pion: each call succeeds or fails at will; the SDP text layer is skipped, so sessions start as parsed attribute lists and `OfferAnswerRoundTrip` passes attributes, not text; the candidate parser is a parameter.
- Fairness of Go's scheduler and termination of foreign calls: progress results bound the steps and say who has one.
- LiveKit room joining, tokens and SDK callbacks: only the disconnect event, which may stop a call at any time.
- A change of the active track by an unsubscribe callback while a forwarder runs: `ForwardRemote` has the track to itself.
- Meta's HTTP client: every request is an abstract success or failure.
- Jitter, DLSR and sender-report time: floating point, whose rounding is the point there.
- Timers and durations: a timer may fire at any step; only the elapsed time given to the rebaser is a value.
- Ports, configuration, authentication, Twirp mapping, logging, metrics and the program's entry point: single-function plumbing.
- Certificates, SHA-256 and randomness: digests and credentials are arbitrary values.
- The token that Disconnect may replace before hanging up: it only goes into requests to Meta.
- The branch of `wait` in which the waiter's own context ends, and the check for missing request fields: no shared state is involved.
- The pumps between transport and bridge of a connected call, RTCP reading and periodic statistics: they reach the protocol only as the event that media ended.
- Progress.EveryStateCanDrain: one continuation only, because while Accepts are in flight new calls may be registered; the result for every schedule is `Draining.QuietShutdownDrains`.
- Case conversion beyond ASCII: comparisons are with ASCII words; the Kelvin sign and long s, which fold to ASCII letters, are included.
