# lxst_phone call-control core in Dafny

This project models the call-control engine of lxst_phone, a peer-to-peer
voice phone that runs over Reticulum (RNS) and LXST. The model covers:

- the single-call phase machine (`CallState`);
- the JSON signaling messages, codec negotiation and message builders
  (`Signaling`);
- the admission and de-duplication gate for incoming signaling
  (`MessageFilter`);
- the per-peer sliding-window call rate limiter (`RateLimiter`);
- the media link's binary framing (`Framing`);
- call-quality counters with 16-bit sequence-gap loss accounting
  (`CallMetrics`);
- the receive jitter buffer (`JitterBuffer`);
- the two short authentication string (SAS) formats (`Sas`);
- one call's media session: link lifecycle, outgoing sequence counter and
  ping handling (`MediaSession`);
- the single-session media manager (`MediaManager`);
- the in-memory peer store (`PeersStorage`), call log (`CallHistory`) and
  settings (`Config`);
- the SAS guard chain of the telephone wrapper (`Telephone`).

Every stateful object is an immutable datatype, and every operation is a pure
function from the old state to the new one. Wall-clock time is a `now`
parameter. The things the source hands to outside code are returned as data:

- observer callbacks become a list of `Notice`s;
- link teardown, close and packet sends become a list of `Effect`s.

Outside code the model cannot see is a parameter:

- SHA-256 is a function `Bytes -> Digest`;
- a fresh uuid4 call id is a string argument;
- parsing a text as an ISO datetime and writing it back in ISO form is `parseIso`, which gives the canonical text or None;
- decoding the ping's 8-byte double is `decodeStamp`;
- LXST's `STATUS_RINGING` is `statusRinging`.

Floating-point quantities are exact reals.

## Model

| member | source | states |
|---|---|---|
| CallState.StartOutgoingCall | lxst_phone/core/call_state.py:49-63 | succeeds exactly from IDLE or ENDED, otherwise raises; on success the phase is OUTGOING_CALL, the call is initiated locally with the given ids, uses the supplied non-empty call id or else a fresh one, and the observer sees OUTGOING_CALL with that call |
| CallState.MarkRinging | lxst_phone/core/call_state.py:65-70 | OUTGOING_CALL moves to RINGING and notifies; every other phase is left alone silently |
| CallState.ReceiveIncomingInvite | lxst_phone/core/call_state.py:72-77 | returns true exactly when IDLE or ENDED, then holds the call in INCOMING_CALL; a busy machine returns false and is unchanged |
| CallState.AcceptCurrentCall | lxst_phone/core/call_state.py:79-83 | succeeds exactly in INCOMING_CALL with a call and moves to IN_CALL keeping the call; otherwise raises and nothing changes |
| CallState.RejectCurrentCall | lxst_phone/core/call_state.py:84-89 | succeeds under the same guard as accept and finishes the call (ENDED announced with the call, then IDLE with none) |
| CallState.Finish | lxst_phone/core/call_state.py:44-47 | a finished call leaves the machine IDLE with no call, after announcing ENDED with the finished call and then IDLE with none |
| CallState.MarkRemoteAccepted | lxst_phone/core/call_state.py:91-103 | a no-op unless the id names the current call; otherwise overwrites dest and key only with non-empty arguments, leaves every other call field as it was, and enters IN_CALL |
| CallState.FinishIfCurrent | lxst_phone/core/call_state.py:105-117 | a remote reject or a remote end names a call: an absent or different call leaves the machine untouched and silent; the current call is finished, ENDED announced with its record (carrying that call id) and then IDLE without one |
| CallState.EndCall | lxst_phone/core/call_state.py:119-124 | a no-op without a call; otherwise finishes the call |
| CallState.ApplyKeepsValid | lxst_phone/core/call_state.py:44-124 | every public operation keeps "never ENDED, and IDLE exactly when there is no call"; a silent step changes nothing, and the last notice describes the resulting state |
| CallState.RunKeepsValid | lxst_phone/core/call_state.py:44-124 | the invariant holds after any sequence of operations |
| CallState.EndedIsAnnouncedWithTheCall | lxst_phone/core/call_state.py:87-89 | whenever the observer sees ENDED, the finished call is attached, and the next notice is IDLE with no call |
| CallState.CallScenario | lxst_phone/core/call_state.py:49-124 | invite, accept and remote-accept put both ends IN_CALL with the accepted dest; hang-up and remote end return both ends to IDLE |
| Signaling.ToPayload | lxst_phone/core/signaling.py:31-52 | type, call_id, from and to are always written; each optional string is present exactly when non-empty, the bitrate exactly when not None, the timestamp exactly when non-zero; legacy keys are never written |
| Signaling.Required | lxst_phone/core/signaling.py:61-64 | a required key reads exactly when it is present as a string |
| Signaling.FromPayload | lxst_phone/core/signaling.py:55-71 | a payload without type, call_id, from and to as strings is refused, and a missing type is reported as such |
| Signaling.RoundTrip | lxst_phone/core/signaling.py:31-71 | reading back a written message gives the message, when no optional string is empty |
| Signaling.RoundTripDropsEmptyStrings | lxst_phone/core/signaling.py:39-46 | in general the round trip loses exactly the empty optional strings, which come back as None |
| Signaling.LegacyKeysFallback | lxst_phone/core/signaling.py:57-58 | call_dest and call_identity_key fall back to media_dest and media_identity_key when absent, null or empty, and win otherwise |
| Signaling.NormalizeCodecBitrate | lxst_phone/core/signaling.py:78-92 | opus and codec2 rates pass unchanged; any other codec reads 24000 |
| Signaling.NegotiateCodec | lxst_phone/core/signaling.py:95-125 | an incomplete remote offer yields the local pair; the result is always one of the two offers |
| Signaling.Codec2BeatsOpus | lxst_phone/core/signaling.py:117-120 | codec2 against opus: the codec2 side's pair wins whatever the bitrates |
| Signaling.LowerBitrateWins | lxst_phone/core/signaling.py:122-125 | otherwise the lower normalized bitrate wins, ties go to local, and the result's normalized rate is the minimum |
| Signaling.NegotiationExamples | lxst_phone/core/signaling.py:106-110 | the three documented rules on concrete offers |
| Signaling.ChooseCallId | lxst_phone/core/signaling.py:140 | a supplied non-empty call id is kept, otherwise the fresh one is used |
| Signaling.BuildInvite | lxst_phone/core/signaling.py:128-150 | a CALL_INVITE carrying every argument, the chosen call id and the current time |
| Signaling.BuildAccept | lxst_phone/core/signaling.py:152-172 | a CALL_ACCEPT for the given call, without a display name |
| Signaling.BuildReject | lxst_phone/core/signaling.py:174-182 | a CALL_REJECT carrying only the call, the two ends and the time |
| Signaling.BuildEnd | lxst_phone/core/signaling.py:184-192 | a CALL_END carrying only the call, the two ends and the time |
| Signaling.BuildAnnounce | lxst_phone/core/signaling.py:194-210 | a PRESENCE_ANNOUNCE with empty call id and empty recipient, without codec fields |
| Signaling.BuiltMessagesTravel | lxst_phone/core/signaling.py:31-210 | reject and end messages always survive the wire; invites and announces survive it when their optional strings are absent or non-empty |
| MessageFilter.NewFilter | lxst_phone/core/message_filter.py:17-20 | a fresh filter has a one-second window and has seen nothing |
| MessageFilter.Evaluate | lxst_phone/core/message_filter.py:22-51 | only this message's (call id, type) key can change, and only to `now`; a message is allowed exactly when the reason is presence_announce or ok |
| MessageFilter.AnnounceAlwaysAllowed | lxst_phone/core/message_filter.py:32-33 | a presence announce is allowed with reason presence_announce, and nothing is recorded |
| MessageFilter.NotForUsIsNotRecorded | lxst_phone/core/message_filter.py:35-36 | a message addressed elsewhere is refused as not_for_us, and nothing is recorded |
| MessageFilter.DuplicateHandling | lxst_phone/core/message_filter.py:38-43 | a key seen (at a non-zero time) within the window is refused as duplicate and its time is not refreshed; any other message to us is recorded at `now` |
| MessageFilter.CallIdRules | lxst_phone/core/message_filter.py:45-51 | past the duplicate check: an invite is ok; any other type is unknown_call_idle with no call, foreign_call for a different call, and ok for the current one |
| MessageFilter.RecordedTimeHolds | lxst_phone/core/message_filter.py:38-43 | through any run of arrivals inside a key's window, the key keeps the time it was recorded at, and the filter's id and window never change |
| MessageFilter.AdmittedThenDuplicate | lxst_phone/core/message_filter.py:22-51 | once a message is admitted at t > 0, the same call id and type is refused as duplicate at any time before t plus the window, whatever arrived in between |
| MessageFilter.RetransmissionScenario | lxst_phone/core/message_filter.py:38-51 | the same invite again within one second is a duplicate; after the window it is admitted again |
| RateLimiter.NewLimiter | lxst_phone/rate_limiter.py:25-45 | a fresh limiter tracks no peer and has just swept |
| RateLimiter.OlderPrefix | lxst_phone/rate_limiter.py:70-71 | the pruning loop pops exactly the leading timestamps older than the cutoff and stops at the first that is not |
| RateLimiter.DropOlder | lxst_phone/rate_limiter.py:70-71 | the deque after the pruning loop: the timestamps from the first one not older than the cutoff onwards |
| RateLimiter.DropOlderPrefix | lxst_phone/rate_limiter.py:70-71 | on any sequence, pruning removes a leading run of timestamps older than the cutoff, keeps the rest as a suffix, and the kept head is not older than the cutoff |
| RateLimiter.DropOlderOnSorted | lxst_phone/rate_limiter.py:70-71 | on a time-ordered sequence, pruning keeps exactly the timestamps at or after the cutoff, still in order |
| RateLimiter.CountSince | lxst_phone/rate_limiter.py:73 | the minute count never exceeds the length, and equals it exactly when every timestamp is inside the minute |
| RateLimiter.Sweep | lxst_phone/rate_limiter.py:94-119 | keeps exactly the peers whose pruned sequence is non-empty, stores the pruned sequences, sets the last sweep to `now`, and changes nothing else |
| RateLimiter.MaybeSweep | lxst_phone/rate_limiter.py:59-60 | the sweep runs exactly when more than the interval has passed since the last one |
| RateLimiter.IsAllowed | lxst_phone/rate_limiter.py:47-92 | allowed exactly when the minute count and the hour count are both under their caps; an allowed call appends `now`, a refused one records nothing; the pruned sequence is stored either way; other peers are as the sweep left them |
| RateLimiter.SweepWellFormed | lxst_phone/rate_limiter.py:94-119 | the sweep keeps every sequence sorted, bounded by the hourly cap and not later than `now` |
| RateLimiter.IsAllowedWellFormed | lxst_phone/rate_limiter.py:47-92 | with a non-decreasing clock, every peer's sequence stays sorted, never later than `now`, and never longer than the hourly cap |
| RateLimiter.BurstStep | lxst_phone/rate_limiter.py:73-92 | with the default caps, no sweep due and `n` calls at one instant, one more call at that instant is allowed exactly while n < 5, and the limiter is left with the caps unchanged and n + 1 (or n) calls at that instant |
| RateLimiter.BurstRun | lxst_phone/rate_limiter.py:47-92 | with the default caps, from `n` calls at one instant, the i-th of any number of further calls at that instant is allowed exactly when n + i < 5 |
| RateLimiter.SixCallsInOneSecond | lxst_phone/rate_limiter.py:47-92 | from a fresh limiter with caps 5/20, six calls at one instant give true five times, then false |
| RateLimiter.ResetPeer | lxst_phone/rate_limiter.py:121-132 | forgets that peer and no other |
| RateLimiter.ResetPeerTotal | lxst_phone/rate_limiter.py:121-132 | forgetting a peer lowers the total tracked calls by exactly that peer's count |
| RateLimiter.GetPeerStats | lxst_phone/rate_limiter.py:134-160 | all zeros for an unknown peer; otherwise calls_last_hour and total_calls are the stored length, and the minute count is at most that |
| RateLimiter.GetAllStats | lxst_phone/rate_limiter.py:162-172 | reports the number of tracked peers and the sum of their sequence lengths |
| Framing.BigEndian16 | lxst_phone/core/media.py:239 | the two header bytes read back as the sequence number |
| Framing.Frame | lxst_phone/core/media.py:234-240 | refuses a type outside 0..255; an audio frame with a sequence number is the type byte, the number mod 65536 big-endian, then the payload; anything else is the type byte then the payload |
| Framing.Parse | lxst_phone/core/media.py:243-250 | refuses exactly the empty input; the type is the first byte, and a sequence number is read exactly for audio packets of at least 3 bytes |
| Framing.AudioRoundTrip | lxst_phone/core/media.py:234-250 | parsing a framed audio packet gives back the type, the payload and the sequence number mod 65536 |
| Framing.OtherRoundTrip | lxst_phone/core/media.py:234-250 | parsing any other framed packet gives back the type and the payload, without a sequence number |
| Framing.AudioPacketParses | lxst_phone/core/media.py:234-250 | an audio packet built with a 16-bit number parses back to its frame and that number |
| Framing.NumberedAt | lxst_phone/core/media.py:234-240 | packet `i` of a run numbered from `a` is the audio packet for frame `i` with number `a + i` mod 65536 |
| Framing.NumberedParses | lxst_phone/core/media.py:234-250 | packet `i` of a numbered run parses back to frame `i` with number `a + i` mod 65536, so a receiver sees consecutive numbers |
| Framing.NumberedWrap | lxst_phone/core/media.py:239 | numbering from a start already wrapped to 16 bits gives the same packets, since only the low 16 bits reach the header |
| CallMetrics.GapIsForwardDistance | lxst_phone/core/media.py:303-311 | the branchy gap computation equals (seq - (last + 1)) mod 65536 |
| CallMetrics.Gap | lxst_phone/core/media.py:303-311 | the packets skipped before `seq`: below 65536, zero exactly when `seq` is the expected next number, and the expected number advanced by the gap (mod 65536) is `seq` |
| CallMetrics.RecordPacketReceived | lxst_phone/core/media.py:298-315 | one more packet received; the loss grows by the forward gap mod 65536; expected - received - lost is unchanged; the last sequence number and byte count are updated |
| CallMetrics.ReceiveAllBalanced | lxst_phone/core/media.py:298-315 | expected == received + lost holds after any run of arrivals |
| CallMetrics.LossExample | lxst_phone/core/media.py:298-315 | arrivals 0, 1, 2, 5 give 2 lost and 6 expected |
| CallMetrics.WrapIsNotLoss | lxst_phone/core/media.py:304-309 | 0 right after 65535 is not a loss |
| CallMetrics.RecordPacketSent | lxst_phone/core/media.py:291-296 | one more packet and `size` more bytes sent; no other counter moves |
| CallMetrics.RecordRtt | lxst_phone/core/media.py:281-289 | the window stays within 100 samples and ends with the new one; min and max take the sample into account; the average is over the window |
| CallMetrics.ConnectionQuality | lxst_phone/core/media.py:329-362 | Unknown exactly without an average or under 10 expected packets; Good exactly for (rtt < 200 and loss < 5%) or (rtt < 500 and loss < 2%); Poor exactly for rtt >= 500 and loss >= 5% |
| JitterBuffer.NewJitter | lxst_phone/core/media.py:371-373 | an empty buffer with the given capacity |
| JitterBuffer.Push | lxst_phone/core/media.py:375-378 | the depth stays within capacity; the new frame is last; a non-full buffer just appends, and a full one drops its oldest frame |
| JitterBuffer.PopReady | lxst_phone/core/media.py:380-390 | returns nothing exactly when the buffer is empty or the head has waited less than the target, and then changes nothing; otherwise removes and returns the head |
| JitterBuffer.Depth | lxst_phone/core/media.py:392-394 | the number of buffered frames |
| JitterBuffer.Clear | lxst_phone/core/media.py:396-398 | empties the buffer and keeps its capacity |
| JitterBuffer.PushTimedKeepsOrder | lxst_phone/core/media.py:375-378 | after any run of pushes at any arrival times, the buffer holds the last `max_frames` of everything pushed, in order, each frame with the time it arrived |
| JitterBuffer.PushTimedFrames | lxst_phone/core/media.py:375-378 | after any run of pushes, the buffered frames are the last `max_frames` of the frames already buffered followed by those pushed |
| JitterBuffer.DrainReady | lxst_phone/core/media.py:380-390 | when every frame is ready, repeated pops return all frames in queue order |
| JitterBuffer.FifoOrder | lxst_phone/core/media.py:371-398 | frames pushed into an empty buffer at any arrival times, drained once every one of them has waited the target delay, come out first-in first-out, minus the oldest ones an overflow dropped |
| JitterBuffer.NotBeforeTarget | lxst_phone/core/media.py:386-388 | a head younger than the target delay is not released |
| Sas.DecimalValue | lxst_phone/core/media.py:216 | the decimal spelling of n reads back as n |
| Sas.PaddedDecimal | lxst_phone/core/media.py:216 | zero-padding keeps the value, and gives exactly `width` digits for a number below 10^width |
| Sas.GenerateSas | lxst_phone/core/media.py:199-216 | only digits; exactly `length` of them (and "0" for length 0); their value is the first four digest bytes, read big-endian, mod 10^length |
| Sas.SasExample | lxst_phone/core/media.py:212-216 | a digest starting 00 00 1C 2E gives "7214" |
| Sas.ByteGroup | lxst_phone/core/telephone.py:358-360 | two digits spelling the byte mod 100 |
| Sas.GroupedSas | lxst_phone/core/telephone.py:344-362 | fails exactly when more groups are asked for than there are digest bytes; otherwise the groups joined by dashes |
| Sas.JoinDashShape | lxst_phone/core/telephone.py:362 | joining n two-character groups gives 3n - 1 characters, with group g at 3g and a dash after every group but the last |
| Sas.GroupedSasShape | lxst_phone/core/telephone.py:344-362 | a code of n groups is 3n - 1 characters; group g spells hash[g] mod 100, and dashes separate the groups |
| MediaSession.NewSession | lxst_phone/core/media.py:690-744 | a new session copies the call's id, role, dest and key; it has no link, is inactive, has sequence 0, is unverified and has fresh metrics |
| MediaSession.InitiateLink | lxst_phone/core/media.py:780-840 | the intended handshake: a responder, or an initiator missing a non-empty dest or key, is unchanged; otherwise the session takes the created link (None when creation failed), and the timeout is armed only when there is one |
| MediaSession.InitiateLinkAsWritten | lxst_phone/core/media.py:780-840 | the source's handshake raises exactly for an initiator with a destination but no identity key, and is the intended handshake otherwise |
| MediaSession.MissingKeyRaises | lxst_phone/core/media.py:795-800 | such a call raises as written, where the intended handshake leaves the fresh session untouched |
| MediaSession.OnLinkTimeout | lxst_phone/core/media.py:745-761 | disarms the timeout; an unestablished link is torn down and forgotten, an active one is kept |
| MediaSession.OnLinkEstablished | lxst_phone/core/media.py:851-886 | adopts the link, goes active, disarms the timeout, reads encryption (absent means encrypted), derives the SAS from the hash or else a byte link id, and sends the initial ping |
| MediaSession.OnIncomingLink | lxst_phone/core/media.py:842-849 | the initiator ignores an inbound link; the responder treats it as established |
| MediaSession.OnLinkClosed | lxst_phone/core/media.py:893-906 | goes inactive and disarms the timeout, keeping the link reference, counter, metrics and SAS |
| MediaSession.SendAudioFrame | lxst_phone/core/media.py:908-931 | nothing happens unless the session is active with a link whose status is absent or ACTIVE; otherwise the link gets the audio packet for the frame with the current sequence number, the counter advances mod 65536, one send is recorded, and nothing else changes |
| MediaSession.CanSend | lxst_phone/core/media.py:909-914 | the send guard: the session is active, has a link, and the link reports no status or ACTIVE (2); it implies an active, linked session |
| MediaSession.SentPacketParses | lxst_phone/core/media.py:908-931 | on a sendable link the packet handed over parses back to the frame with the counter's value before the send |
| MediaSession.ConsecutiveSequenceNumbers | lxst_phone/core/media.py:908-931 | on a sendable link, every frame of a run goes out: the packets are the run numbered consecutively from the counter, and the counter ends advanced by the run's length mod 65536 |
| MediaSession.HandlePing | lxst_phone/core/media.py:960-976 | payloads under 9 bytes are ignored; a request is answered with direction 1 and the same 8 timestamp bytes while active with a link; a response records the round trip in ms; other directions are ignored |
| MediaSession.PingEcho | lxst_phone/core/media.py:960-998 | the echo parses as a ping carrying direction 1 and exactly the request's 8 timestamp bytes |
| MediaSession.OnLinkData | lxst_phone/core/media.py:936-958 | empty data is dropped; audio with a sequence number updates loss accounting with the packet's length, and audio shorter than three bytes (no sequence number) changes nothing; pings go to the ping handler; other types change nothing |
| MediaSession.InitiateCoherent | lxst_phone/core/media.py:780-834 | after the handshake starts, the session is active and timed only over a link |
| MediaSession.EventKeepsCoherent | lxst_phone/core/media.py:745-958 | every link event keeps that coherence |
| MediaManager.StopSession | lxst_phone/core/media.py:136-156 | clears every manager field, and tears down the session's link when there is one |
| MediaManager.StopIdempotent | lxst_phone/core/media.py:136-156 | a second stop finds nothing and emits nothing |
| MediaManager.StartSession | lxst_phone/core/media.py:94-134 | any existing session is stopped first (its link torn down); the new session for the call starts its handshake, and the manager reports that call id |
| MediaManager.StartSessionAsWritten | lxst_phone/core/media.py:94-134 | over the source's handshake: when it raises, the stop has happened and the new call id and fresh session are stored, the hook is not installed and the exception escapes; otherwise it agrees with the intended start |
| MediaManager.StartRaisesWithoutHook | lxst_phone/core/media.py:106-130 | replacing a live call by an outgoing call with no identity key raises and leaves the hook off, where the intended start installs it |
| MediaManager.SecondStartReplacesFirst | lxst_phone/core/media.py:107-128 | starting while a linked session exists tears down the old link, and only the new, inactive session remains |
| MediaManager.HandleIncomingLink | lxst_phone/core/media.py:175-185 | with no session the link is closed; otherwise the session handles it and the manager's call id is kept |
| MediaManager.VerifySas | lxst_phone/core/media.py:170-173 | sets the active session's verified flag; without a session nothing changes |
| MediaManager.VerifyOnlyFlag | lxst_phone/core/media.py:170-173 | verification changes only the SAS flag |
| MediaManager.RunConsistent | lxst_phone/core/media.py:94-185 | after any sequence of manager operations there is a session exactly when there is an active call id, and they agree |
| PeersStorage.ToDict | lxst_phone/peers_storage.py:38-47 | writes exactly the six keys, each with its field's value |
| PeersStorage.FromDict | lxst_phone/peers_storage.py:49-59 | node_id is required; a last_seen that does not parse is an error; on success the node id comes from the dict, last_seen is the parsed datetime's ISO text, and missing keys read "Unknown", 1, false and false |
| PeersStorage.DictRoundTrip | lxst_phone/peers_storage.py:38-59 | a written record whose timestamp is in the datetime's ISO form reads back as itself |
| PeersStorage.ReloadIsStable | lxst_phone/peers_storage.py:38-59 | a record read from any dict, written back and read again, is the same record (given that ISO text the parser produces reparses to itself) |
| PeersStorage.MinimalRecord | lxst_phone/peers_storage.py:49-59 | a record with only node_id and a parseable last_seen gets the documented defaults and the canonical timestamp |
| PeersStorage.LoadPeersLastWins | lxst_phone/peers_storage.py:105-118 | the last readable entry for a node id is the one loaded |
| PeersStorage.LoadPeers | lxst_phone/peers_storage.py:105-118 | the fold of the stored list into the map keyed by node id, skipping entries that do not read, later entries overriding earlier ones; it holds at most one record per entry |
| PeersStorage.LoadPeersAbsent | lxst_phone/peers_storage.py:105-118 | a node id that no entry reads as is not loaded |
| PeersStorage.LoadPeersKeyed | lxst_phone/peers_storage.py:105-118 | every loaded record sits under its own node id |
| PeersStorage.Load | lxst_phone/peers_storage.py:80-127 | only a well-formed file replaces the in-memory map; anything else leaves it as it was |
| PeersStorage.AddOrUpdate | lxst_phone/peers_storage.py:145-173 | a new peer gets the given name or "Unknown", count 1 and both flags false; a known peer gets count + 1, a name replaced only by a non-empty one, and the same flags; nothing else changes |
| PeersStorage.AnnouncesKeepFlags | lxst_phone/peers_storage.py:158-163 | any number of announces keeps both flags and adds one to the count per announce |
| PeersStorage.MarkVerified | lxst_phone/peers_storage.py:179-183 | sets verified on a known peer only; unknown ids change nothing |
| PeersStorage.MarkBlocked | lxst_phone/peers_storage.py:185-189 | sets blocked on a known peer only; unknown ids change nothing |
| PeersStorage.Unblock | lxst_phone/peers_storage.py:191-195 | clears blocked on a known peer only; unknown ids change nothing |
| PeersStorage.FlagsAreLocal | lxst_phone/peers_storage.py:179-205 | the flag setters never add a peer, leave every other peer alone, and touch only their own flag |
| PeersStorage.BlockUnblock | lxst_phone/peers_storage.py:185-195 | blocking then unblocking an unblocked peer restores the store |
| PeersStorage.UnknownIsNeither | lxst_phone/peers_storage.py:197-205 | unknown ids are neither blocked nor verified |
| PeersStorage.IsBlocked | lxst_phone/peers_storage.py:197-200 | a peer is blocked exactly when it is known and its blocked flag is set; so only known peers are blocked |
| PeersStorage.IsVerified | lxst_phone/peers_storage.py:202-205 | a peer is verified exactly when it is known and its verified flag is set; so only known peers are verified |
| PeersStorage.Remove | lxst_phone/peers_storage.py:211-214 | deletes only that key |
| PeersStorage.Clear | lxst_phone/peers_storage.py:216-218 | empties the store |
| CallHistory.Insert | lxst_phone/call_history.py:220 | insertion adds exactly one record and keeps the rest |
| CallHistory.InsertSorted | lxst_phone/call_history.py:220 | insertion into a newest-first list keeps it newest first |
| CallHistory.SortNewestFirst | lxst_phone/call_history.py:220 | the sort is a permutation of the log |
| CallHistory.SortIsSorted | lxst_phone/call_history.py:220 | the sort orders records newest first by their timestamp text |
| CallHistory.PyTake | lxst_phone/call_history.py:222 | `[:limit]` is a prefix of length min(limit, n), counted from the end for a negative limit |
| CallHistory.Truncate | lxst_phone/call_history.py:143-144 | keeps exactly the last 1000 records in their original order |
| CallHistory.AddCall | lxst_phone/call_history.py:173-204 | the new record, stamped `now`, is last; below the cap it is simply appended; the log never exceeds 1000 |
| CallHistory.AddToFullLog | lxst_phone/call_history.py:143-144 | a full log drops its oldest record to make room |
| CallHistory.GetRecentCalls | lxst_phone/call_history.py:211-222 | returns min(limit, n) records drawn from the log, newest first, as a prefix of the sorted log |
| CallHistory.ForPeer | lxst_phone/call_history.py:235 | the filter keeps only records with that peer id |
| CallHistory.ForPeerExact | lxst_phone/call_history.py:235 | the filter keeps every record with that peer id, as often as it occurs |
| CallHistory.GetCallsForPeer | lxst_phone/call_history.py:224-237 | a prefix of that peer's records sorted newest first, of length min(limit, their number); every record has that peer id and comes from the log; all of them when the limit covers the log |
| CallHistory.GetStatistics | lxst_phone/call_history.py:239-259 | total is the log length; missed == total - answered and is never negative; incoming + outgoing never exceeds the total |
| CallHistory.DirectionsDisjoint | lxst_phone/call_history.py:249-250 | no call is counted both incoming and outgoing |
| CallHistory.CountsAppend | lxst_phone/call_history.py:246-250 | appending a record moves each count by exactly that record's contribution |
| CallHistory.StatsAfterAdd | lxst_phone/call_history.py:173-259 | adding a call below the cap adds one to the total and moves answered, missed and duration by that call's share |
| CallHistory.ClearHistory | lxst_phone/call_history.py:261-264 | the log is empty and its total is 0 |
| Config.MergeDefaults | lxst_phone/config.py:91-101 | fails exactly when a default section is loaded as a non-dict; otherwise exactly the default sections are present |
| Config.MergeKeys | lxst_phone/config.py:91-101 | every default key survives, a loaded value wins over the default, and no key appears that neither side had |
| Config.Load | lxst_phone/config.py:68-80 | the settings always have the default sections; an absent, unreadable or non-object file, or a failed merge, gives the defaults |
| Config.Get | lxst_phone/config.py:103-105 | the stored value, or the supplied default when the section or key is absent |
| Config.Set | lxst_phone/config.py:107-111 | adds the section when needed and the key to it |
| Config.GetAfterSet | lxst_phone/config.py:103-111 | reading back what was set gives it, and no other section/key pair changes |
| Config.GetSection | lxst_phone/config.py:113-115 | the section, or an empty one when absent |
| Config.SetFilterType | lxst_phone/config.py:173-178 | accepts exactly voice, music and none, then sets only that key; anything else is refused |
| Config.SetBandpassRange | lxst_phone/config.py:197-204 | refuses exactly low >= high; otherwise sets both bounds and nothing else |
| Config.DefaultsReadBack | lxst_phone/config.py:23-50 | a fresh install reads the documented defaults |
| Telephone.IsInCall | lxst_phone/core/telephone.py:266-269 | in a call exactly when the telephone's call status is at least the library's STATUS_RINGING |
| Telephone.InCallIsUpwardClosed | lxst_phone/core/telephone.py:266-269 | every status from ringing onwards counts as in a call, and the one below it does not, so an advancing status never leaves the call |
| Telephone.GetSasCode | lxst_phone/core/telephone.py:295-342 | a code exists exactly when the phone is in a call, has an active call object whose status is ACTIVE, and has a non-empty salt; it is then 11 characters, four two-digit groups joined by dashes, group g spelling byte g of the salt's digest modulo 100 |
| Telephone.GuardsWithhold | lxst_phone/core/telephone.py:305-334 | each failing guard on its own withholds the code |

## Findings

| source | as written | input that shows it | evidently intended | confidence | as-written member | corrected member |
|---|---|---|---|---|---|---|
| lxst_phone/core/media.py:796-799 | the initiator's log line for a missing identity key formats `self.remote_id[:16]`, an attribute `MediaSession` never sets, so an `AttributeError` escapes `initiate_link` and `start_session` (line 128) after the new session is stored but before the inbound-link hook is installed | an outgoing `CallInfo` with a non-empty `remote_media_dest` and an empty or missing `remote_identity_key` (a peer whose media destination is known but who has not announced), passed to `start_session` | log the missing key (naming `call_info.remote_id`) and return, leaving the session waiting | not executed; high | MediaSession.InitiateLinkAsWritten, MediaSession.MissingKeyRaises, MediaManager.StartSessionAsWritten, MediaManager.StartRaisesWithoutHook | MediaSession.InitiateLink, MediaManager.StartSession |

## Left out

- Audio pipeline (`AudioPipeline`): threads, sound devices, the Opus and Codec2 codecs and RMS levels. Jitter-buffer frames are opaque byte strings, and `OnLinkData` does not model handing the audio payload to the decoder.
- Timers and the link status monitor. The 30-second handshake timeout is a flag plus an explicit timeout event, and the periodic status log is left out.
- RNS packet sends, link teardown and link close are returned as `Effect` values rather than performed. A send that raises is not modelled.
- The Qt user interface, the LXMF announcer and peer discovery, `app.py`, `ringtone.py` and the logging setup. `identity.py` and `identity_backup.py` are not part of this model.
- `reticulum_client.py` is not part of this model. It reads `msg.media_dest` and passes a `signaling_dest` argument to `build_announce`, and neither matches the signaling module.
- The LXST `Telephone` calls in `telephone.py`: call, answer, hangup, reject, profile switch and announce handling. Only `is_in_call` and the SAS guard chain are modelled.
- SHA-256 and uuid4 are parameters, so nothing is stated about their outputs beyond their shape.
- File and encryption I/O for the call log, the peer store and the settings, including call-history loading and decryption. `PeersStorage.Load` and `Config.Load` take an abstract description of what was read.
- Python's shallow-copy aliasing of the default settings.
- Thin getters that only forward: `get`, `get_all`, `get_metrics` and `get_security_info`. Also the typed property getters and setters of `Config`, apart from the two validating setters.
- `_audio_sending_started` only affects logging. `jitter_ms`, the input/output levels and the bitrate estimate are not modelled. The loss percentage is computed from the counters when it is needed; this equals the stored value, because that value is refreshed on every arrival.
- JSON values of unexpected types are refused. `Signaling.FromPayload`, `PeersStorage.FromDict` and `Config.MergeDefaults` treat a wrongly typed field, or a JSON `null` display name in a peer record, as a read error. Python would store such a value untyped. A config section given as a list of pairs, which `dict.update` accepts, is treated as a non-dict.
- MediaSession.HandlePing: the timestamp is decoded by `decodeStamp` and the round trip uses exact reals, with no IEEE double arithmetic.
- CallMetrics.RecordRtt: the minimum and maximum are stated as bounds, and the average is over the window of exact reals.
- CallHistory.SortNewestFirst: the order among records with equal timestamps is not stated. Python's sort is stable, so those records keep their log order; the model proves only a newest-first permutation.
- CallHistory.GetRecentCalls: inherits that weaker statement about equal timestamps.
- CallHistory.GetCallsForPeer: inherits that weaker statement about equal timestamps.
- JitterBuffer.NewJitter: a negative `max_frames`, which makes Python's deque raise, cannot be expressed, because the capacity is a natural number.
- CallState.Apply: an operation that raises is modelled as leaving the machine unchanged, which is what the caller observes after catching the error.
