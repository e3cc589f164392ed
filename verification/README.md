# Verified models of a voice-only LiveKit server

This project models the parts of the server whose correctness is hardest to see
from the code, and proves what they promise for every input, every run or every
interleaving. `dafny verify dfyconfig.toml` checks all of it.

| file | component |
|---|---|
| `Common.dfy` | shared types and machine widths |
| `Channels.dfy` | psrpc channel names: escaping, joining, the four builders |
| `PsrpcBus.dfy`, `Psrpc.dfy`, `PsrpcProgress.dfy` | the psrpc claim protocol over the in-memory bus |
| `Negotiation.dfy` | subscriber renegotiation: two flags, one lock, racing tasks |
| `RtpStats.dfy` | loss, reordering and jitter from wrapping RTP sequence numbers |
| `Base62.dfy`, `Turn.dfy` | the base62 bit packer and the TURN credentials built on it |
| `Calendar.dfy`, `Decimal.dfy`, `WktText.dfy` | Gregorian arithmetic and ProtoJSON text of Timestamp and Duration |
| `Routing.dfy`, `Cluster.dfy` | room ownership: nodes racing single bus operations |
| `Relay.dfy` | the signaling relay: a stream read in batches |
| `Lists.dfy`, `SipTrunks.dfy`, `SipDispatch.dfy` | SIP trunk and dispatch-rule matching |
| `Mixer.dfy`, `Wav.dfy`, `Recorder.dfy` | recording: mixing, the WAV file, the whole run |
| `Room.dfy`, `RoomRaces.dfy` | room membership, the empty mark and closing; what the separate locks let happen |
| `ParticipantState.dfy` | the participant's compare-and-exchange state |

Protocols are state machines over the points where another task may run; the
adversary picks the next step. Objects that the server updates in place are
classes, buffers are arrays, and each loop is a loop proved against a
specification function about which the properties are then proved.

Clocks, random ids, decoder output, base64 with protobuf decoding, UTF-8,
SHA-256 and IP address parsing are parameters. Random ids are taken to be
distinct. Integers are unbounded; 16, 32 and 64-bit widths, wrap-around and
cuts are written out where they matter.

What the proofs say about the code, beyond confirming it:

- A psrpc handler error with an empty message is read by the caller as an empty
  success (`Psrpc.PayloadFaithfulIff`).
- Without a method name two psrpc channels coincide (`Channels.EmptyMethodCollides`).
- A subscription change that was uncovered when an attempt to offer failed stays
  uncovered until another offer is created (`Negotiation.DroppedUntilNextOffer`);
  apart from that none is lost while offers are answered
  (`Negotiation.NoChangeIsLostIff`). Once an offer is lost or its answer fails to
  apply no offer is made again, so no later change is covered
  (`Negotiation.StuckForEver`).
- A sequence jump of exactly 2^15 counts as a duplicate
  (`RtpEstimator.HalfSpaceJumpIsMissed`).
- Timestamps before year 0, and nanoseconds outside (-10^8, 10^9), do not survive
  printing and parsing; nor do durations with mixed signs, a fraction of a second
  or more, or the least 64-bit number of seconds. The exact conditions are
  `WktText.Printable` and `WktText.WellFormed`.
- While the recorded owner of a room is dead every other node that asks is answered
  Local after 26 bus operations, and the registry stays as it was
  (`Routing.DeadOwnerSplitsRoom`).
- A relay close marker drops the requests of its own batch
  (`Relay.CloseDropsItsBatch`). A request is lost exactly when a poll meets it with
  an id that is not after the reader's position (`Relay.NothingLostIff`), which one
  writer never causes and two can (`Relay.TwoWritersLoseARequest`).
- Which of two dispatch rules with equal priority and room wins depends on the
  order of the list (`SipDispatch.MatchIsOrderFreeIff`).
- A room's departure timeout does not run from the last real departure: a dependent
  that leaves last restarts it (`Room.DependentRestartsTimer`). It runs from the step
  described by `Room.SetsMark`, exactly (`Room.DepartedRoomExpiresIff`).
- Because the limit check and the insertion lock separately, n overlapping joins can
  pass a room's limit by n - 1 and no more (`RoomRaces.OverlapBound`,
  `RoomRaces.OverlapBoundIsMet`).
- Because a departure looks and marks under separate locks, twice, an occupied room
  ends up marked empty exactly when the mark was last cleared while a departure was
  about to set it (`RoomRaces.OccupiedRoomIsMarkedIff`). Both looks can do it
  (`RoomRaces.RaceClosesAtOnce`, which then closes the room at once, and
  `RoomRaces.NoticeRaces`).
- Because a join inserts and clears the mark under separate locks, a room real
  participants have left stays unmarked, and open, exactly when the mark was last
  cleared after they had gone (`RoomRaces.DepartedRoomIsUnmarkedIff`,
  `RoomRaces.LateClearKeepsRoomOpen`).
- The plain average of frames adds up in 32 bits, which is enough exactly up to 65536
  frames (`Mixer.SumFitsIff`).
- TURN names containing the separator, and an expiry of 0, cannot be resolved
  (`Turn.IssuedCredentialsResolveIff`).

## Model

| member | source | states |
|---|---|---|
| Channels.Sanitize | crates/lk-psrpc/src/lib.rs:281-293 | the escaping loop computes the character-by-character escaping of any Unicode string |
| Channels.SanitizeRoundTrip | crates/lk-psrpc/src/lib.rs:281-293 | an independent decoder recovers every string from its escaped form |
| Channels.SanitizeInjective | crates/lk-psrpc/src/lib.rs:281-293 | distinct strings have distinct escaped forms |
| Channels.SanitizedShape | crates/lk-psrpc/src/lib.rs:281-293 | the escaped form never contains the separator and is empty only for the empty string |
| Channels.ChannelEqualIff | crates/lk-psrpc/src/lib.rs:295-302 | two channels are equal exactly when their non-empty parts are equal, in order |
| Channels.TopicFamiliesInjective | crates/lk-psrpc/src/lib.rs:304-310 | request and grant channels determine service, method and topic, an empty topic included |
| Channels.ClientFamiliesInjective | crates/lk-psrpc/src/lib.rs:312-318 | response and bid channels determine service and client |
| Channels.FamiliesDisjoint | crates/lk-psrpc/src/lib.rs:304-318 | no channel belongs to two of the four families |
| Channels.EmptyMethodCollides | crates/lk-psrpc/src/lib.rs:295-306 | an empty method makes two different request channels coincide, so the non-empty hypothesis is needed |
| PsrpcBus.ChannelNamesProper | crates/lk-psrpc/src/lib.rs:304-318 | the real builders meet what the protocol proof needs of channel names |
| PsrpcBus.PublishOk | crates/lk-psrpc/src/lib.rs:241-273 | a publication adds copies of its own message only, and nobody ever reads a message that was not published |
| PsrpcBus.ReceiveOk | crates/lk-psrpc/src/lib.rs:241-273 | a read consumes exactly one copy of a published message |
| Psrpc.PayloadFaithfulIff | crates/lk-psrpc/src/lib.rs:546-554 | a handler's outcome reaches the caller unchanged exactly when it is not a failure with an empty message |
| Psrpc.StepKeepsInv | crates/lk-psrpc/src/lib.rs:419-733 | every step of clients, request tasks, server loops, handlers and bus keeps the protocol invariant |
| Psrpc.RunKeepsInv | crates/lk-psrpc/src/lib.rs:419-733 | the invariant holds after every run |
| Psrpc.GrantedAndHandledAtMostOnce | crates/lk-psrpc/src/lib.rs:495-544 | in every interleaving each request is granted to at most one server and handled at most once, on that server, for the call's service, method, topic and payload |
| Psrpc.ResultComesFromOwnHandler | crates/lk-psrpc/src/lib.rs:456-554 | a call that returns success or an RPC error returns what the one handler run for that request produced from its payload |
| Psrpc.ServersDecodeTheRightKind | crates/lk-psrpc/src/lib.rs:662-731 | a server loop, which ignores type URLs, only ever decodes requests on its request channel and grants on its grant channel |
| PsrpcProgress.LiveCallCanComplete | crates/lk-psrpc/src/lib.rs:456-733 | from every reachable state where an open, unexpired call has its request on the way and no bid at the client yet, or its registration's bid next in line, or its grant on the way to a server still holding it, or its handler at work, the run can go on, the clock never running backwards, so that the call returns what any given handler outcome reads as |
| PsrpcProgress.AnsweredCallCanReturn | crates/lk-psrpc/src/lib.rs:419-439 | from every reachable state where a response to an open call is on its way or waiting, the call can return with a response and no further handler run |
| PsrpcProgress.NewCallCanComplete | crates/lk-psrpc/src/lib.rs:456-733 | from every reachable state a new, unexpired, registered call can be made and return what any given handler outcome reads as, the clock never running backwards |
| Negotiation.StepKeepsInv | crates/lk-server/src/media.rs:1179-1265 | every step of requesters, tasks, client and answer handling keeps the invariant on the two flags |
| Negotiation.AtMostOneOffer | crates/lk-server/src/media.rs:1190-1265 | in every run, failures included, at most one offer awaits its answer |
| Negotiation.NoChangeIsLostIff | crates/lk-server/src/media.rs:1179-1265 | in a settled, connected state whose offers were all answered, the last offer covers every change so far exactly when no failed attempt to offer dropped one |
| Negotiation.DroppedUntilNextOffer | crates/lk-server/src/media.rs:1210-1225 | a dropped change stays uncovered, whatever happens, until another offer is created |
| Negotiation.StuckForEver | crates/lk-server/src/media.rs:1040-1066 | after a lost offer or a failed answer no offer is ever made, so all changes are covered exactly when all were by then and none came after |
| Negotiation.FailedOfferLosesChange | crates/lk-server/src/media.rs:1190-1265 | a failed attempt to offer can leave a reachable settled state with an uncovered change |
| Negotiation.FailedAnswerLosesChange | crates/lk-server/src/media.rs:1040-1066 | an answer that fails to apply can leave a reachable settled state with an uncovered change |
| Negotiation.NoDeadlock | crates/lk-server/src/media.rs:1179-1265 | until settled, some successful step is possible |
| Negotiation.EventuallyCovered | crates/lk-server/src/media.rs:1040-1265 | once changes stop, every way of running ends within a computed number of steps with all changes offered |
| RtpEstimator.RtpStats.Observe | crates/lk-server/src/media.rs:270-306 | one packet moves the counters as specified and the jitter a sixteenth of the way to the new deviation |
| RtpEstimator.CountersBracket | crates/lk-server/src/media.rs:270-298 | for any 16-bit stream packets + lost <= expected <= packets + lost + out of order |
| RtpEstimator.ExactOnTameStreams | crates/lk-server/src/media.rs:270-298 | for distinct unbounded numbers none below the first and each less than 2^15 from the running maximum, the mark is the maximum mod 2^16 and the loss is the exact count missing |
| RtpEstimator.HalfSpaceJumpIsMissed | crates/lk-server/src/media.rs:286-296 | the 2^15 bound is tight |
| Base62.Encode | crates/lk-server/src/turn.rs:38-64 | the chunk loop computes the reference digits of the byte string's value and width |
| Base62.Decode | crates/lk-server/src/turn.rs:72-123 | for every byte string decoding never indexes outside its buffer and computes the reference decoder: nothing unless the text is base62, else the bytes of the digits' value and width |
| Base62.DecodedOfEncoded | crates/lk-server/src/turn.rs:38-123 | the reference decoder undoes the reference encoder on every byte string |
| Base62.DigitsRoundTrip | crates/lk-server/src/turn.rs:38-123 | the reference digits carry exactly the value and width they were made from, 5-bit and last chunks included |
| Base62.ValueInjective | crates/lk-server/src/turn.rs:38-123 | value and length determine the byte string, leading zeros included |
| Base62.RoundTrip | crates/lk-server/src/turn.rs:38-123 | decoding the encoding of any byte string returns that byte string |
| Turn.AuthHandle | crates/lk-server/src/turn.rs:153-179 | for every username the handler derives the password from the decoded bytes, and knows no such user when they do not decode or resolve |
| Turn.IssuedCredentialsResolveIff | crates/lk-server/src/turn.rs:129-179 | an issued username yields the issued password exactly for a known key, a non-zero expiry and names without the separator |
| Turn.IssueThenAuthenticate | crates/lk-server/src/turn.rs:129-179 | issuing and then authenticating computes that result through the encoded text |
| Calendar.NextDayCountsOne | crates/lk-proto/src/wkt_serde.rs:172-180 | the next calendar day has the next day number |
| Calendar.DaysFromCivilCounts | crates/lk-proto/src/wkt_serde.rs:172-180 | the date reached by counting n days from 1970-01-01, either way, is valid and has day number n |
| Calendar.ClosedFormsAreTheCalendar | crates/lk-proto/src/wkt_serde.rs:172-195 | for every integer the closed form gives the valid date reached by counting, and converting back gives the integer |
| Calendar.CivilOfDays | crates/lk-proto/src/wkt_serde.rs:172-195 | converting a valid date to days and back gives the date |
| Calendar.EveryDateIsCounted | crates/lk-proto/src/wkt_serde.rs:172-180 | every valid date is reached by counting its day number |
| Decimal.ParsePad | crates/lk-proto/src/wkt_serde.rs:41-70 | a printed and padded number parses back exactly when it lies in the integer type's range |
| WktText.ParseFraction | crates/lk-proto/src/wkt_serde.rs:158-169 | the padding loop reads a fraction of 1 to 9 characters as nanoseconds and refuses others |
| WktText.SplitOffset | crates/lk-proto/src/wkt_serde.rs:144-156 | the scan splits off a trailing Z or the text from the first sign on |
| WktText.FractionReadsAs | crates/lk-proto/src/wkt_serde.rs:60-70 | a printed fraction reads back exactly when it is as wide as intended |
| WktText.FractionFitsIff | crates/lk-proto/src/wkt_serde.rs:60-70 | it is as wide as intended exactly for nanoseconds in (-10^8, 10^9) |
| WktText.TimestampRoundTripIff | crates/lk-proto/src/wkt_serde.rs:41-142 | for all 64-bit seconds and 32-bit nanoseconds, printing then parsing is the identity exactly from year 0 on with a fraction that fits; earlier years are refused as a bad date |
| WktText.OffsetMeansUtc | crates/lk-proto/src/wkt_serde.rs:72-156 | local time followed by its offset, east or west, parses to the UTC instant |
| WktText.DurationRoundTripIff | crates/lk-proto/src/wkt_serde.rs:225-268 | printing then parsing is the identity exactly for same-sign parts, a fraction below a second and seconds other than the least |
| Routing.StepKeepsOk | crates/lk-server/src/cluster.rs:456-486 | every single bus operation keeps the invariant and never changes a recorded owner |
| Routing.AnswersNameTheOwner | crates/lk-server/src/cluster.rs:456-486 | in every run, heartbeats expiring at will, an answer other than the last resort names the recorded owner |
| Routing.ForcedOnlyByDeadOwner | crates/lk-server/src/cluster.rs:477-485 | the last-resort Local is only given after eight turns by the step that finds the recorded owner dead |
| Routing.LiveRunsAreAtomic | crates/lk-server/src/cluster.rs:456-486 | while owners are alive the step that ends a call is one atomic get-or-claim and no other step changes the registry |
| Routing.SettlesInTwoTurns | crates/lk-server/src/cluster.rs:460-476 | while owners are alive a call takes at most two turns and four bus operations |
| Routing.OneOwnerPerRoom | crates/lk-server/src/cluster.rs:456-486 | while owners are alive all finished calls on a room name the same node |
| Routing.DeadOwnerSplitsRoom | crates/lk-server/src/cluster.rs:456-486 | while the recorded owner never has its heartbeat key, every other node's call ends in the last-resort Local after exactly 26 bus operations and the registry still names the dead owner |
| Cluster.MemoryBus.Hsetnx | crates/lk-server/src/cluster.rs:284-293 | writes and reports true exactly when the field is absent; other hashes are untouched |
| Cluster.Member.RouteRoom | crates/lk-server/src/cluster.rs:456-486 | an uninterrupted call gets or claims the owner, except that a dead owner's room is answered Local unchanged |
| Cluster.Member.ReleaseRoom | crates/lk-server/src/cluster.rs:489-497 | removes the room's entry exactly when this node owns it |
| Relay.Stream.Poll | crates/lk-server/src/cluster.rs:338-367 | one poll empties the queue and returns what is newer than the position, in order |
| Relay.Stream.Xadd | crates/lk-server/src/cluster.rs:329-337 | an append takes the next id and adds the entry at the end |
| Relay.Reader.TakeBatch | crates/lk-server/src/cluster.rs:611-633 | a batch moves the position to its last id, queues its decodable requests in order and reports a close marker |
| Relay.Reader.NextRequest | crates/lk-server/src/cluster.rs:596-645 | a call returns a pending request, else reads batches until a request, a close marker or a timeout |
| Relay.PositionOfId | crates/lk-server/src/cluster.rs:344-348 | the decimal text of an id is read back as that id |
| Relay.NewerIff | crates/lk-server/src/cluster.rs:354-361 | a poll drops an entry exactly when its id is not after the reader's position |
| Relay.StepLoses | crates/lk-server/src/cluster.rs:329-375 | with any number of writers every step keeps requests delivered, pending or queued, in order, except a poll that drops one, which leaves more missing |
| Relay.NothingLostIff | crates/lk-server/src/cluster.rs:329-375 | with any number of writers every pushed request is delivered, pending or queued, in order, exactly when no poll of the run dropped one |
| Relay.OneWriterKeepsIds | crates/lk-server/src/cluster.rs:329-375 | with one writer ids in the queue ascend after the reader's position, so no poll drops anything |
| Relay.DeliveredIsPrefix | crates/lk-server/src/cluster.rs:594-645 | with one writer the requests received are a prefix of those appended, and the rest is pending or queued |
| Relay.QuietEndDeliversAll | crates/lk-server/src/cluster.rs:594-645 | with one writer a stream that ends without a close marker has delivered all but what came after its last poll |
| Relay.CloseDropsItsBatch | crates/lk-server/src/cluster.rs:634-636 | at a close marker everything has been delivered exactly when its batch carries no requests |
| Relay.TwoWritersLoseARequest | crates/lk-server/src/cluster.rs:329-361 | for any two requests there is a run of two writers that loses the first: it is neither delivered, pending nor queued |
| SipTrunks.NormalizeIdempotent | crates/lk-server/src/ioservice.rs:250-266 | a normalized number is its own normal form |
| SipTrunks.FillerDoesNotMatter | crates/lk-server/src/ioservice.rs:250-266 | filler characters anywhere in a phone number do not change its normal form |
| SipTrunks.LeadingPlusDoesNotMatter | crates/lk-server/src/ioservice.rs:250-276 | a number matches itself with a leading plus |
| SipTrunks.MatchNumbers | crates/lk-server/src/ioservice.rs:268-276 | an empty list allows every caller, else some entry must equal the number or its normal form |
| SipTrunks.MatchAddresses | crates/lk-server/src/ioservice.rs:278-305 | every source is allowed when it is no IP address or no mask is well formed, else some well-formed mask must be the host or cover the address |
| SipTrunks.ListsNumber | crates/lk-server/src/ioservice.rs:342-350 | the inner loop finds whether a trunk lists the called number |
| SipTrunks.MatchTrunk | crates/lk-server/src/ioservice.rs:309-360 | the loop returns the one listed trunk, else the one wildcard trunk, else none, and an error for two of a kind |
| SipTrunks.TrunkOrderDoesNotMatter | crates/lk-server/src/ioservice.rs:309-360 | every permutation of the trunks gives the same trunk or error |
| SipTrunks.DispatchFindsAuthenticatedTrunk | crates/lk-server/src/ioservice.rs:177-191 | the trunk authentication finds is the one a later dispatch call finds by its id, whatever order the store lists in |
| SipTrunks.OtherIdsFallBack | crates/lk-server/src/ioservice.rs:177-191 | an id that is empty, unknown or whose trunk does not take the call falls back to the whole list |
| SipDispatch.PriorityIsLexicographic | crates/lk-server/src/ioservice.rs:376-409 | priorities order rules by open filters, then PIN, then kind, with unusable rules last |
| SipDispatch.HigherIsTotal | crates/lk-server/src/ioservice.rs:411-420 | of two rules one outranks the other unless priority and room are equal |
| SipDispatch.MatchDispatchRule | crates/lk-server/src/ioservice.rs:423-475 | the loop returns the first of highest rank among the call's specific rules, else among the default rules |
| SipDispatch.MatchIsMinimal | crates/lk-server/src/ioservice.rs:423-475 | the rule found is in its class and outranked by none of it; none is found exactly when the class is empty |
| SipDispatch.MatchKeyIsOrderFree | crates/lk-server/src/ioservice.rs:423-475 | every permutation finds a rule with the same priority and room, or none |
| SipDispatch.MatchIsOrderFreeIff | crates/lk-server/src/ioservice.rs:423-475 | every permutation finds the same rule exactly when no other rule of the class shares its priority and room |
| SipDispatch.NeverIncorrectPin | crates/lk-server/src/ioservice.rs:571-587 | a matched rule never fails its PIN check, and a call without PIN entry is never asked for one |
| SipDispatch.PinRequestIsAnswered | crates/lk-server/src/ioservice.rs:571-587 | repeating a call over the same list with the PIN of the rule that asked for it accepts that same rule |
| SipDispatch.PinRequestIsAnsweredInAnyOrder | crates/lk-server/src/ioservice.rs:571-587 | over any reordering of the list it accepts a rule of the same priority, room and PIN |
| Mixer.Mixer.Push | crates/lk-egress/src/recorder.rs:41-45 | appends to the track's queue and notes the time |
| Mixer.Mixer.PruneStale | crates/lk-egress/src/recorder.rs:50-63 | removes exactly the tracks silent for more than five seconds |
| Mixer.Mixer.Available | crates/lk-egress/src/recorder.rs:68-70 | the length of the longest queue, 0 without tracks |
| Mixer.Mixer.ReadFrame | crates/lk-egress/src/recorder.rs:74-85 | each slot is the unclamped sum of the tracks' shares and each queue loses its first samples |
| Mixer.MixTracks | crates/lk-egress/src/recorder.rs:74-85 | visiting tracks in any order gives that same frame |
| Mixer.PartialSumFits | crates/lk-egress/src/recorder.rs:74-85 | for any number of tracks every partial sum of shares fits 16 bits, so the clamp never acts |
| Mixer.MixFrames | crates/lk-egress/src/audio.rs:48-66 | each slot is the sum, cut to 32 bits, divided by the count toward zero and never clamped, over the longest frame's length; up to 65536 frames it is the exact average |
| Mixer.SumFitsIff | crates/lk-egress/src/audio.rs:56-61 | every sum of n samples fits the 32-bit accumulator exactly for n up to 65536 |
| Mixer.MixIsNearAverage | crates/lk-egress/src/audio.rs:48-66 | a mixed sample differs from the average of the same tracks by at most one less than their number |
| Wav.WavWriter.WritePcm | crates/lk-egress/src/wav.rs:30-40 | appends the samples' little-endian bytes |
| Wav.WavWriter.Finish | crates/lk-egress/src/wav.rs:43-70 | replaces the placeholder by the header and keeps the data |
| Wav.DecodeEncode | crates/lk-egress/src/wav.rs:30-40 | written samples read back unchanged |
| Wav.FormatFields | crates/lk-egress/src/wav.rs:43-60 | the format fields read back at the offsets a WAV reader uses |
| Wav.HeaderLayout | crates/lk-egress/src/wav.rs:43-60 | tags and format chunk are where a RIFF reader looks |
| Wav.SizesAreTrueIff | crates/lk-egress/src/wav.rs:43-60 | the sizes in the header are the file's exactly below the 32-bit limit |
| Recorder.DrainFrames | crates/lk-egress/src/recorder.rs:135-147 | the drain loop ends and writes exactly the frames the queues can fill |
| Recorder.RunRecording | crates/lk-egress/src/recorder.rs:90-160 | a whole run produces the header and the mixed frames of its packets, and counts the frames |
| Recorder.ConsumedOnceInOrder | crates/lk-egress/src/recorder.rs:111-152 | after every packet each queue is below 960 samples, and what frames took from a track plus its queue is what it was fed |
| Recorder.SilenceOnlyPastTheEnd | crates/lk-egress/src/recorder.rs:74-85 | a frame takes less than a full chunk from a track only by emptying it, and some track fills its chunk |
| Recorder.PruneLosesLessThanAFrame | crates/lk-egress/src/recorder.rs:50-63 | pruning a track other than the one that just spoke discards less than a frame of its samples |
| Recorder.SpeakerIsPrunedIff | crates/lk-egress/src/recorder.rs:41-63 | the track that just spoke is pruned exactly when more than five seconds pass between pushing its samples and pruning |
| Recorder.FileReadsBack | crates/lk-egress/src/wav.rs:43-70 | the finished file has 1920 bytes per frame, true sizes exactly below the 32-bit limit, and data that reads back as the frames |
| Room.Room.Join | crates/lk-server/src/room.rs:189-213 | admits a participant exactly when the room is open, not full for a real participant, and the identity is free |
| Room.Room.RemoveParticipant | crates/lk-server/src/room.rs:216-225 | removes the participant and marks the time when nobody is left |
| Room.Room.OnParticipantLeft | crates/lk-server/src/room.rs:324-341 | marks the time when no real participant is left and none is marked |
| Room.Room.ShouldClose | crates/lk-server/src/room.rs:356-380 | true exactly when the applicable timeout is on and has passed with no real participant |
| Room.RoomStaysConsistent | crates/lk-server/src/room.rs:149-225 | in every run identities are unique, real participants within the limit, and the empty mark off with and on without them |
| Room.MarkIsExact | crates/lk-server/src/room.rs:216-225 | in every run the empty mark is the time of the last removal that emptied the room, else of the first notice without real participants, since real participants were last let in |
| Room.OneStepSetsMark | crates/lk-server/src/room.rs:216-225 | at most one step of a run sets the mark |
| Room.DepartedRoomExpiresIff | crates/lk-server/src/room.rs:324-380 | a room real participants have left closes exactly when its departure timeout is on and has passed since the step that set the mark |
| Room.DependentRestartsTimer | crates/lk-server/src/room.rs:220-221 | a dependent leaving last moves the mark to its own departure, so the room outlives the timeout since the real one |
| Room.OccupiedAndUnusedRooms | crates/lk-server/src/room.rs:356-380 | a room never closes while a real participant is present, and one never entered closes exactly at its empty timeout |
| RoomRaces.OverlapBound | crates/lk-server/src/room.rs:189-213 | with at most n joins between check and insertion a room's limit is passed by at most n - 1 |
| RoomRaces.OverlapBoundIsMet | crates/lk-server/src/room.rs:189-213 | for every limit and n some run with n joins in flight passes the limit by n - 1 |
| RoomRaces.OccupiedRoomIsMarkedIff | crates/lk-server/src/room.rs:206-331 | with every lock section a step of its own, at rest an occupied room is marked empty exactly when the mark was last cleared while a departure was about to set it after either look |
| RoomRaces.DepartedRoomIsUnmarkedIff | crates/lk-server/src/room.rs:206-331 | at rest a room real participants have left is unmarked, and never expires, exactly when the mark was last cleared after they had gone with no departure since |
| RoomRaces.NoticeRaces | crates/lk-server/src/room.rs:324-331 | a join between the notice's look and its mark leaves an occupied room marked |
| RoomRaces.LateClearKeepsRoomOpen | crates/lk-server/src/room.rs:202-209 | a join that clears after its participant has gone leaves an empty room that expires at no time |
| RoomRaces.RaceClosesAtOnce | crates/lk-server/src/room.rs:216-225 | after such a race the room is expired the moment its real participant is noticed leaving |
| ParticipantState.StepKeepsInv | crates/lk-server/src/participant.rs:117-132 | every load or exchange keeps the invariant and never lowers the state |
| ParticipantState.StateNeverDecreases | crates/lk-server/src/participant.rs:117-132 | along every run the state never decreases |
| ParticipantState.OneWinnerPerValue | crates/lk-server/src/media.rs:983-997 | at most one call returns true for a value, so the Active broadcast happens at most once |
| ParticipantState.AtMostThreeAttempts | crates/lk-server/src/participant.rs:117-132 | a call exchanges at most three times, each failure having seen a larger state |
| ParticipantState.SettlesAtMaximum | crates/lk-server/src/participant.rs:117-132 | once all calls return, the state is the largest value asked for or the initial one |

## Left out

- Redis, WebSocket, HTTP, WebRTC, ICE, SDP, Opus, LAME, object storage, JWT and HMAC: I/O and foreign code.
- Metrics, webhooks, configuration, command line and CRUD services are not modelled.
- Psrpc.RunKeepsInv: the client and server loops are modelled on values, one await-free section per step; registrations and clients are fixed for the run, and sends may be lost, which covers late subscribers.
- Psrpc.GrantedAndHandledAtMostOnce: does not say that a timed-out request leaves the client's pending map or that no handler starts after expiry; the code does neither.
- Negotiation.StepKeepsInv: the flags and the lock are modelled on values; the peer connection is the count of changes its offers contain.
- RtpEstimator.RtpStats.Observe: jitter is over real numbers, without floating-point rounding; counters do not wrap at 64 bits.
- Base62.Encode: works on bytes; the text's UTF-8 form is the same bytes.
- Turn.AuthHandle: stops at the password; the key derived from it, the user name and the realm is foreign code.
- WktText.TimestampRoundTripIff: parsing computes with unbounded integers, so 64-bit overflow of a parsed date far outside the printable range is not modelled.
- WktText.DurationRoundTripIff: leaves out the least 64-bit number of seconds with a fraction, whose absolute value overflows in the source.
- WktText.ParseFraction: lengths count characters; text with non-ASCII characters is refused either way.
- Routing.LiveRunsAreAtomic: assumes, as the registry needs, that recorded owners keep their heartbeat key, that no bus call fails and that no room is released; dead owners are covered by Routing.ForcedOnlyByDeadOwner and the Cluster lemmas.
- Relay.DeliveredIsPrefix: is about the in-memory bus; on Redis the start position has another meaning. Ids stop at 64 bits.
- Mixer.MixFrames: the sum wraps at 32 bits, as in a release build; a build with overflow checks stops instead. The cast of a count of 2^31 frames or more is not modelled.
- Relay.Reader.NextRequest: the results of its blocking reads are a parameter; a failed read and a timed-out read both end them.
- SipTrunks.MatchTrunk: address parsing and network containment are parameters.
- SipDispatch.PinRequestIsAnswered: models the PIN part of evaluating a rule; room names, attributes and media settings are not modelled.
- Mixer.Mixer.PruneStale: time is a parameter in milliseconds.
- Recorder.RunRecording: packets carry their decoder's output and the clock readings they meet; MP3 output and write errors are not modelled.
- Room.RoomStaysConsistent: a join, a removal and a notice are one step each; RoomRaces takes their lock sections apart. There, the flag that somebody has joined is stored together with the clearing of the mark.
- The participant's track index, the reconnect grace timer, quality scores and egress status: the code promises little that holds in general.
