# OpenQSP server: transport, codec and mailbox, verified

This project models the heart of the OpenQSP server in Dafny and proves what its
parts promise each other.

- **Carriage** (`Base36`, `Base91`, `Carriage`, `Control`): frames cut into APRS
  message bodies of 67 characters, and the A2/N2/S2 control messages.
- **Reassembly and replay** (`Ordered`, `Reassembly`, `ReassemblyProofs`,
  `TextDelivery`, `Replay`, `ReplayProofs`, `Housekeeping`): the bounded, expiring
  tables behind the receiver.
- **Codec** (`Text`, `Codec`, `CodecProofs`): the thirteen Core operations.
- **Mailbox** (`Mailbox`, `MailboxProofs`, `MailboxRuns`, `Sync`,
  `Conversations`): message tables as values, every transaction one step, and the
  readers that page through them.
- **Core** (`Core`, `CoreProofs`, `CoreAnswers`, `CoreRuns`): sends with their
  listener rounds and the handling of request frames.
- **Selective-burst adapter** (`Burst`, `BurstProofs`, `BurstRuns`,
  `BurstOutcomes`, `BurstProgress`, `Queuing`, `Launching`, `Selective`,
  `SelectiveProofs`, `Controls`, `Answers`, `Completions`, `Polling`, `AtMostOnce`,
  `SelectiveProgress`, `Bookkeeping`, `Nudging`, `TwoParty`, `RepairRuns`,
  `Adapter`): the transmit state machine, the guarded receive path, and both ends
  of a repair.
- **Stop-and-wait adapter** (`StopAndWait`, `StopAndWaitProofs`, `StopAndWaitRuns`,
  `StopAndWaitQueuing`, `StopAndWaitPolling`, `StopAndWaitReceive`,
  `StopAndWaitAnswers`, `StopAndWaitOnce`, `StopAndWaitAdapter`).

State that the server changes in place is a class whose methods (`Reassembler`,
`ReplayCache`, `MessageStore`, `ServerCore`, `SelectiveAdapter`, the stop-and-wait
`Adapter`, the codec's `Reader`) are proved equal to transition functions on
values; the theorems are about those functions and their runs. Time is integer
ticks. Text is bytes with a UTF-8 predicate (section 4 of RFC 3629); APRS bodies
are strings. Exceptions are explicit outcomes, and what an operation had already
changed when it raised stays changed.

Where the code and its tests disagree, the code is followed: a completed Q2
SEND_MESSAGE emits A2 and then S2, and CAPABILITIES with version byte 0 decodes
but cannot be encoded. Four findings are stated
exactly rather than smoothed over: `Nudging.RaisesExactly` with
`Nudging.RaisesUntilHeard` (a transaction id above 255, which only a Q1 fragment
can carry, makes polls raise until its transaction is heard again),
`Bookkeeping.RunAgree` (repair records outlive expired reassembly entries),
`CoreProofs.HandlingIsClosed` (an unusable clock, or a bulletin row that cannot be
sent, escapes `handle_frame` as an exception), and `CodecProofs.FramePrints` (the
version-0 exception).

## Model

| member | source | states |
|---|---|---|
| Base36.RenderBase36 | server/src/openqsp/transport/aprs/carriage.py:36-44 | the digit loop yields the fixed-width base-36 digits of its value, or fails exactly when they do not fit |
| Base36.RoundTrips | server/src/openqsp/transport/aprs/carriage.py:36-49 | rendering and parsing undo each other, in both directions, for every width |
| Base91.Encode | server/src/openqsp/transport/aprs/carriage.py:52-76 | the bit-accumulator loop computes exactly the specified variable-width encoding |
| Base91.Decode | server/src/openqsp/transport/aprs/carriage.py:79-109 | the decoding loops, tail included, accept and compute exactly what the specified decoding does |
| Base91.RoundTrip | server/src/openqsp/transport/aprs/carriage.py:52-109 | decoding undoes encoding for every byte string, through the 13/14-bit packing and every tail case |
| Base91.SizeBound | server/src/openqsp/transport/aprs/carriage.py:52-76 | an encoding has at most two characters per started group of 13 bits, all of them from the alphabet |
| Base91.EncodedInjective | server/src/openqsp/transport/aprs/carriage.py:52-109 | no two non-empty byte strings share an encoding |
| Carriage.Q2RoundTrip | server/src/openqsp/transport/aprs/carriage.py:148-163 | every valid Q2 fragment has a body of at most 67 characters, and that body parses back to it |
| Carriage.Q2ParsesValid | server/src/openqsp/transport/aprs/carriage.py:209-230 | whatever the Q2 parser accepts is a fragment a sender could have made |
| Carriage.FragmentingIsTotal | server/src/openqsp/transport/aprs/carriage.py:178-206 | every frame the decoder accepts is cut into 1 to 16 fragments, each of which survives its body |
| Carriage.ChunksJoin | server/src/openqsp/transport/aprs/carriage.py:178-190 | the chunks of a frame put together again are the frame |
| Carriage.Q1RoundTrip | server/src/openqsp/transport/aprs/carriage.py:162-165 | a Q1 fragment with or without a message id parses back from its body |
| Control.BuildMissing | server/src/openqsp/transport/aprs/selective_burst.py:62-71 | the mask loop gives the same N2 whatever order it meets the indices in, and fails exactly on an empty or out-of-range set |
| Control.AckRoundTrip | server/src/openqsp/transport/aprs/selective_burst.py:41-42 | an A2 is read back as the acknowledgement of its transaction |
| Control.StoredRoundTrip | server/src/openqsp/transport/aprs/selective_burst.py:45-59 | an S2 is read back as the completion of its transaction and as no other control |
| Control.MissingRoundTrip | server/src/openqsp/transport/aprs/selective_burst.py:62-97 | an N2 asks for exactly the set of indices it was built from |
| Control.FragmentIsNoControl | server/src/openqsp/transport/aprs/selective_burst.py:74-112 | no control parser claims a Q2 fragment |
| Control.ControlIsNoFragment | server/src/openqsp/transport/aprs/carriage.py:233-251 | no fragment parser claims an A2, N2 or S2 |
| Reassembly.Reassembler.Expire | server/src/openqsp/transport/aprs/state.py:33-36 | deletes exactly the entries not seen for the time-to-live, keeping the order of the rest |
| Reassembly.Reassembler.Receive | server/src/openqsp/transport/aprs/state.py:38-83 | one arrival changes the table and returns the result as the specification of add does: expiry, eviction, conflict, completion of Q1 and Q2; what that delivers is the next rows |
| ReassemblyProofs.OtherKeyUntouched | server/src/openqsp/transport/aprs/state.py:38-67 | a fragment changes no other transaction that housekeeping spares |
| ReassemblyProofs.WaitsWhileIncomplete | server/src/openqsp/transport/aprs/state.py:38-69 | Q1 and Q2 alike: in any order, repeated and interleaved with other traffic, nothing is delivered while a piece of the frame or text is missing |
| ReassemblyProofs.DeliversExactlyOnce | server/src/openqsp/transport/aprs/state.py:38-83 | the last missing piece, and no earlier one, delivers exactly the chunks joined, or what the decoder makes of the pieces of text joined in index order, and the entry is gone |
| ReassemblyProofs.QuietDelivery | server/src/openqsp/transport/aprs/state.py:26-83 | traffic within the time-to-live and the table bound delivers every fragmented Q2 frame once, from an empty table |
| ReassemblyProofs.QuietlyWhole | server/src/openqsp/transport/aprs/state.py:26-83 | the same for a Q1 text: Complete with what it decodes to, Invalid when it decodes to nothing |
| ReassemblyProofs.ConflictIsExact | server/src/openqsp/transport/aprs/state.py:38-67 | a conflict is reported exactly when total, version or the data of that index contradict what is held, and it ends the transaction |
| TextDelivery.TextJoins | server/src/openqsp/transport/aprs/carriage.py:168-175 | the 48-character pieces a text is cut into spell it again |
| TextDelivery.FrameArrives | server/src/openqsp/transport/aprs/state.py:38-83 | the packets the stop-and-wait adapter queues for a frame, arriving at a reassembler in any order, repeated and among other traffic, give nothing until the last missing one and then the frame itself, for any decoder that inverts the encoder on it |
| Housekeeping.RoomIsMade | server/src/openqsp/transport/aprs/state.py:33-47 | before a fragment is added exactly the stale entries go, and for a new transaction the least recently heard others until one more fits; nothing else |
| Housekeeping.TableIsBounded | server/src/openqsp/transport/aprs/state.py:38-67 | whatever arrives, the table never holds more transactions than its bound |
| Housekeeping.TableIsByUse | server/src/openqsp/transport/aprs/state.py:38-67 | while the clock does not go back the table stands in the order in which its transactions were last heard |
| Replay.ReplayCache.Lookup | server/src/openqsp/transport/aprs/state.py:108-113 | expires, then finds the answer and makes it the most recently used |
| Replay.ReplayCache.Store | server/src/openqsp/transport/aprs/state.py:115-123 | stores as most recent, then drops the least recently used of the peer and of the whole cache down to the bounds |
| ReplayProofs.RecencyHolds | server/src/openqsp/transport/aprs/state.py:96-123 | over every run the cache order is the order of last use |
| ReplayProofs.PresentIsOriginal | server/src/openqsp/transport/aprs/state.py:108-123 | an answer found is the one last stored under its key, unchanged |
| ReplayProofs.MissHasReason | server/src/openqsp/transport/aprs/state.py:103-123 | a stored answer is missing only if it aged past its time-to-live, or if after its very last use as many other answers (of its peer, or of all) were used as a bound allows |
| ReplayProofs.AgedIsGone | server/src/openqsp/transport/aprs/state.py:103-123 | an answer as old as the time-to-live at some sweep or lookup is gone until stored anew |
| ReplayProofs.AnswerIsFresh | server/src/openqsp/transport/aprs/state.py:103-113 | whenever an answer is found it is the one stored last for its key, and younger than the time-to-live |
| ReplayProofs.JustStored | server/src/openqsp/transport/aprs/state.py:115-123 | an answer just stored survives its own trimming and is found |
| Housekeeping.CacheIsBounded | server/src/openqsp/transport/aprs/state.py:115-123 | after any uses the cache is within max_entries, and within max_per_peer for every peer |
| Codec.Reader.Take | server/src/openqsp/protocol/codec.py:74-80 | takes the next bytes and advances, or reports truncation and stays |
| Codec.ReadMessage | server/src/openqsp/protocol/codec.py:304-323 | the reader-driven MESSAGE decoder computes the specified decoding, errors included |
| Codec.ReadSendMessage | server/src/openqsp/protocol/codec.py:202-214 | the same for SEND_MESSAGE |
| Codec.ReadBulletin | server/src/openqsp/protocol/codec.py:378-397 | the same for BULLETIN |
| Codec.ReadBulletinHeader | server/src/openqsp/protocol/codec.py:348-361 | the same for BULLETIN_HEADER |
| Codec.ReadError | server/src/openqsp/protocol/codec.py:469-489 | the same for ERROR |
| CodecProofs.FrameParses | server/src/openqsp/protocol/codec.py:573-608 | decode_frame_with_flags undoes encode_frame for every encodable object of all 13 operations; decode_frame does unless the frame is unsolicited |
| CodecProofs.FramePrints | server/src/openqsp/protocol/codec.py:536-608 | re-encoding any accepted frame gives the same bytes, except CAPABILITIES with version 0, which the encoder refuses |
| CodecProofs.SizeCheckNeverFires | server/src/openqsp/protocol/codec.py:590-608 | the field limits keep every payload within one length byte: the size check never fires |
| CodecProofs.GetMessageParses | server/src/openqsp/protocol/get_message_wire.py:10-53 | the GET_MESSAGE wire codec reads back what it prints |
| CodecProofs.GetMessagePrints | server/src/openqsp/protocol/get_message_wire.py:10-53 | the GET_MESSAGE wire codec prints back what it accepts |
| CodecProofs.DecodersAgree | server/src/openqsp/protocol/__init__.py:36-62 | through the operation 0x06 routing the two decoders accept the same frames, except that one refuses the unsolicited flag |
| Mailbox.MessageStore.Store | server/src/openqsp/storage/messages.py:112-169 | one transaction: the new tables are the specified ones, or on any failure the old ones |
| Mailbox.MessageStore.StoreOnce | server/src/openqsp/storage/messages.py:171-261 | one keyed transaction: a new row, the earlier row, or a conflict with nothing changed |
| Mailbox.MessageStore.MarkDelivery | server/src/openqsp/storage/messages.py:410-439 | one delivery transition, or none, or an integrity failure with nothing changed |
| MailboxProofs.StoreKeepsInv | server/src/openqsp/storage/messages.py:112-169 | a store succeeds exactly when its arguments are in range and the mailbox has room, adds one row with the next number, and never reports damage |
| MailboxProofs.SelectIsPrefix | server/src/openqsp/storage/messages.py:79-96 | table order is already the order every query asks for, so a page is a prefix of the matches |
| MailboxProofs.CursorAheadRefused | server/src/openqsp/storage/messages.py:57-78 | retrieval refuses exactly the bad arguments and the cursors beyond the high-water |
| MailboxProofs.PageIsInterval | server/src/openqsp/storage/messages.py:57-110 | a page is the next interval of the mailbox, its cursor the last number returned, has_more true exactly when some are left |
| MailboxProofs.PaginationIsExact | server/src/openqsp/storage/messages.py:57-110 | following next_since while others store returns each message above the start once, in order, and never fails |
| MailboxProofs.PaginationEnds | server/src/openqsp/storage/messages.py:57-110 | has_more can be true only as often as there are unread messages |
| MailboxRuns.MailboxesAreGapless | server/src/openqsp/storage/messages.py:112-261 | after any run each mailbox holds exactly the sequences 1 to its high-water, once each, and the API sequences are exactly 1 to theirs |
| MailboxRuns.KeyedSendIsIdempotent | server/src/openqsp/storage/messages.py:171-261 | after one accepted send, a key stores nothing more: the same request gets the first message, another a conflict |
| MailboxRuns.DeliveredIsFinal | server/src/openqsp/storage/messages.py:410-439 | a delivered message stays delivered with its time, over any run |
| MailboxRuns.FailedNeedsRetry | server/src/openqsp/storage/messages.py:410-439 | between a failure and a delivery the message was pending again |
| MailboxRuns.MarkIsExact | server/src/openqsp/storage/messages.py:410-439 | a mark fails exactly when it names nothing stored or a negative time; it is recorded, and nothing else touched, exactly when it may follow the recorded status; otherwise nothing changes |
| MailboxRuns.LastMarkHolds | server/src/openqsp/storage/messages.py:410-439 | over any run the last mark that took effect is what the store says, with its time |
| Sync.SyncCallIsExact | server/src/openqsp/api/app.py:589-603 | one call, with commits between its two reads, accepts exactly the cursors up to its high-water and returns exactly what lies between old and new cursor |
| Sync.SyncLosesNothing | server/src/openqsp/api/app.py:589-603 | over any calls and commits the results are exactly the visible messages from the first cursor to the present one, and the cursor never goes back |
| Sync.IssuedCursorAccepted | server/src/openqsp/api/app.py:589-603 | a cursor once issued is accepted by every later call |
| Sync.ListingIsExact | server/src/openqsp/api/app.py:519-544 | following next_cursor while others store returns every visible message once; without a cursor the walk is complete |
| Conversations.RankPlaces | server/src/openqsp/storage/messages.py:290-307 | the conversation number of a stored message always exists, is at most its mailbox number, and is its place among the matches |
| Conversations.SelectOfRank | server/src/openqsp/storage/conversation_lookup.py:12-47 | looking a message up by its own conversation number gives that message |
| Conversations.RankOfSelect | server/src/openqsp/storage/conversation_lookup.py:12-47 | lookup answers for exactly the numbers up to the size of the conversation, and the message it gives has the number asked for |
| Conversations.RankIsStable | server/src/openqsp/storage/messages.py:290-307 | later stores never change a conversation number |
| Conversations.SelectIsStable | server/src/openqsp/storage/conversation_lookup.py:12-47 | later stores never change what a number finds |
| Core.ServerCore.Send | server/src/openqsp/server/core.py:141-199 | validates, stores and runs the listeners once exactly when the store created a message |
| Core.ServerCore.Handle | server/src/openqsp/server/core.py:201-246 | one frame is answered, and the store changed, exactly as specified |
| CoreProofs.SendIsAtomic | server/src/openqsp/server/core.py:141-199 | a send adds exactly one message and one listener round, or changes nothing; failures and repetitions change nothing |
| CoreProofs.UnkeyedSendSucceeds | server/src/openqsp/server/core.py:141-199 | an unkeyed send succeeds exactly when it is well formed, the mailbox has room and the clock is usable |
| CoreProofs.GetNewMessagesAnswer | server/src/openqsp/server/core.py:299-366 | GET_NEW_MESSAGES is answered with the page and an END carrying the page cursor, or one ERROR, never an exception |
| CoreProofs.GetMessageAnswer | server/src/openqsp/server/get_message_core.py:21-58 | GET_MESSAGE is answered with the message that has the number asked for, and with NOT_FOUND, for valid callsigns, exactly when there is none |
| CoreProofs.DecodeErrorEncodable | server/src/openqsp/server/core.py:503-532 | every decode failure of a frame with a header yields an encodable ERROR |
| CoreProofs.HandlingIsClosed | server/src/openqsp/server/core.py:201-222 | for every byte string and callsign every frame returned decodes to the response it stands for; an exception escapes exactly when a send meets an unusable clock or a bulletin row asked for cannot be sent |
| CoreAnswers.UndecodableIsBlamed | server/src/openqsp/server/core.py:503-532 | an undecodable frame changes nothing; shorter than a header it is ignored, else one ERROR names the operation the frame names, and by its bytes the version, operation, frame or field at fault, with the first 64 characters of the message |
| CoreAnswers.SendIsAnswered | server/src/openqsp/server/core.py:248-297 | a send is UNAUTHORIZED for a bad caller, BUSY for a full mailbox, else STORED, or raises on an unusable clock |
| CoreAnswers.MessagesRefused | server/src/openqsp/server/core.py:299-366 | GET_NEW_MESSAGES is refused with UNAUTHORIZED or, beyond the last message, INVALID_CURSOR |
| CoreAnswers.BulletinPageIsExact | server/src/openqsp/server/core.py:368-430 | the headers returned are exactly the bulletins after the cursor up to the new one, in order, has_more true exactly when some lie beyond; a cursor beyond the last is refused |
| CoreAnswers.BulletinIsExact | server/src/openqsp/server/core.py:432-484 | GET_BULLETIN returns the bulletin of that number whole, and NOT_FOUND exactly when there is none |
| CoreAnswers.ResponseIsRefused | server/src/openqsp/server/core.py:224-246 | a frame that is no request is refused and changes nothing |
| CoreRuns.RunKeepsCoreInv | server/src/openqsp/server/core.py:141-222 | in every reachable core each stored message can be sent to a client and had exactly one listener round |
| CoreRuns.StoredMeansStored | server/src/openqsp/server/core.py:248-297 | STORED is answered exactly when that message was committed; every other answer leaves the core as it was |
| CoreRuns.KeyedSendOnce | server/src/openqsp/server/core.py:164-199 | over any run each (author, key) creates at most one message and one listener round, and later sends return it or conflict |
| BurstRuns.AllocatorSucceeds | server/src/openqsp/transport/aprs/selective_burst.py:167-177 | the cyclic allocator finds an id whenever fewer than 256 are live |
| BurstRuns.SearchIsComplete | server/src/openqsp/transport/aprs/selective_burst.py:167-177 | and fails exactly when all 256 are in use |
| BurstProofs.QueueFrameKeepsInv | server/src/openqsp/transport/aprs/selective_burst.py:213-249 | queuing keeps ids distinct per peer and the load within capacity, also when it refuses |
| Queuing.QueueFrameIsExact | server/src/openqsp/transport/aprs/selective_burst.py:213-249 | a frame is queued if and only if the peer is valid, an id is free there, it is a frame and its pieces fit; then exactly one burst joins the queue, under an unused id, whose fragments in order carry all of it, with the delivery, batch, supersedability and priority asked for; a refusal names its reason and queues nothing; what gives way to a proactive frame is exact |
| Queuing.AllocatedInTurn | server/src/openqsp/transport/aprs/selective_burst.py:167-177 | the id is the first unused one from the peer's counter on, which is left behind it |
| Queuing.SupersessionIsExact | server/src/openqsp/transport/aprs/selective_burst.py:251-278 | superseding drops exactly the bursts of other batches of which a replaceable one is live to the peer, and leaves it nothing replaceable but the current batch |
| Queuing.CompactionIsExact | server/src/openqsp/transport/aprs/selective_burst.py:307-330 | compacting drops exactly the bursts of the batch, queued or in flight to its peer |
| BurstProofs.CandidatesSorted | server/src/openqsp/transport/aprs/selective_burst.py:438 | the launch order is the queue sorted by (priority, order) |
| BurstRuns.RunKeepsInv | server/src/openqsp/transport/aprs/selective_burst.py:167-454 | in every reachable state: ids distinct per peer, load within capacity, requested indices non-empty and in range, attempts between 1 and the maximum |
| BurstRuns.RunAccounts | server/src/openqsp/transport/aprs/selective_burst.py:287-299 | each burst ever queued is live and sent `attempts` times, or gone and left exactly once; never sent more than max_attempts times |
| BurstOutcomes.StepWrites | server/src/openqsp/transport/aprs/selective_burst.py:197-211 | a burst is confirmed only by an A2 naming it, given up only by a poll after its last attempt, superseded or compacted only with its response batch |
| BurstOutcomes.RunOrderly | server/src/openqsp/transport/aprs/selective_burst.py:411-449 | transmissions to one peer are at least min_interval apart whatever the clock does, and Core hears of a delivery exactly when its burst is confirmed or given up |
| BurstOutcomes.RunJustified | server/src/openqsp/transport/aprs/selective_burst.py:251-278 | a burst without a response batch, as every proactive message is, is never superseded or compacted |
| BurstProgress.PollOutcome | server/src/openqsp/transport/aprs/selective_burst.py:411-436 | each burst in flight is judged once a poll: left alone, given up, sent again, or put off by the rate limit |
| BurstProgress.RepairIsSent | server/src/openqsp/transport/aprs/selective_burst.py:411-436 | the next poll that attempts and rate allow transmits exactly the request |
| Launching.InFlightIsHandled | server/src/openqsp/transport/aprs/selective_burst.py:411-436 | a burst in flight is left alone until due; then it is given up after its last attempt, put off by the rate limit, or sent once more, with what was asked of it last or else all of it |
| Launching.QueuedIsHandled | server/src/openqsp/transport/aprs/selective_burst.py:438-449 | a queued burst is sent if and only if whatever its peer has in flight is given up in this poll, the rate allows it and it is the first of its peer by (priority, order); then all of it is sent and it is in flight with one attempt and its deadline; otherwise it stays queued as it is |
| Polling.PollReturns | server/src/openqsp/transport/aprs/selective_burst.py:390-454 | a poll that does not raise returns everything that was waiting, then one N2 for each overdue transaction, then what the bursts transmit; nothing waits any more and each record is rescheduled, dropped or left alone |
| Polling.QueuedBurstIsSent | server/src/openqsp/transport/aprs/selective_burst.py:438-454 | a queued burst whose turn it is has all its packets, in order, among those the poll returns, and is in flight; any other stays queued unsent |
| Polling.RepeatedBurstIsSent | server/src/openqsp/transport/aprs/selective_burst.py:411-436 | every fragment due of a burst in flight is among the packets returned |
| Adapter.SelectiveAdapter.Allocate | server/src/openqsp/transport/aprs/selective_burst.py:167-177 | the 256-step loop finds what the specified cyclic search finds and leaves the same counter |
| Adapter.SelectiveAdapter.QueueFrame | server/src/openqsp/transport/aprs/selective_burst.py:213-249 | queues, supersedes or refuses in place what the transition does that Queuing.QueueFrameIsExact characterises, partial effects of refusals included |
| Adapter.SelectiveAdapter.SupersedeStale | server/src/openqsp/transport/aprs/selective_burst.py:251-278 | drops exactly the outdated replaceable response bursts |
| Adapter.SelectiveAdapter.Poll | server/src/openqsp/transport/aprs/selective_burst.py:390-454 | the three loops change bursts and records and return packets as the transition does that Launching and Polling characterise; a repair request that cannot be encoded ends it where it stands |
| Adapter.SelectiveAdapter.HandleFragment | server/src/openqsp/transport/aprs/selective_burst.py:365-388 | one fragment through bookkeeping, reassembly, Core, response queuing and acknowledgement, as the transition that Completions characterises; every exception leaves what was changed before it |
| Adapter.SelectiveAdapter.Receive | server/src/openqsp/transport/aprs/selective_burst_guarded.py:16-43 | the guarded receive, over every body, is the transition that Controls, Completions and AtMostOnce characterise case by case |
| Controls.AckEndsBurst | server/src/openqsp/transport/aprs/selective_burst.py:339-348 | an A2 that names the burst in flight to its sender ends it: confirmed, its delivery reported, every other burst untouched; any other A2 changes nothing |
| Controls.NackRepairsBurst | server/src/openqsp/transport/aprs/selective_burst.py:349-358 | an N2 that names the burst in flight puts it under repair for exactly the fragments asked for that it has, every other burst untouched; any other N2 changes nothing |
| Answers.QueueAllIs | server/src/openqsp/transport/aprs/commit_adapter.py:227-242 | responses are queued one burst each, in order, each carrying its response under an unused id in the request's batch with its own delivery, up to the first that has no room |
| Answers.AllAnsweredIff | server/src/openqsp/transport/aprs/commit_adapter.py:227-242 | all are queued if and only if each is a frame and there are ids and room for them together |
| Completions.CompletionIsAnswered | server/src/openqsp/transport/aprs/selective_burst.py:365-388 | the fragment that completes a request has Core execute it, its answer remembered and exactly one burst queued for each response, in order, as far as there is room; when all are queued, and only then, A2 follows, and S2 with the redundant burst dropped if and only if a send was STORED |
| Completions.CommittedSendIsAnswered | server/src/openqsp/transport/aprs/commit_adapter.py:218-225 | a send under a commit id gets no response frame: A2, with S2 when stored and a rejection when not |
| Completions.CoreResponsesFit | server/src/openqsp/transport/aprs/commit_adapter.py:200-242 | Core's responses always are frames, so they all fit exactly when ids and room suffice |
| Completions.OtherArrivals | server/src/openqsp/transport/aprs/selective_burst.py:365-388 | a fragment that completes nothing is noted and held without a word; a conflicting or invalid one ends its transaction and is rejected under a commit id |
| Completions.UnansweredRequest | server/src/openqsp/transport/aprs/commit_adapter.py:196-200 | when the caller is invalid or Core raises, the exception escapes with nothing sent or remembered |
| Completions.RoutedMessageIsQueued | server/src/openqsp/transport/aprs/adapter.py:532-542 | a routed message is queued, exactly when it encodes and is accepted, as one unsolicited frame that reads back as it and reports its delivery |
| SelectiveProofs.StepMoves | server/src/openqsp/transport/aprs/selective_burst.py:332-454 | every adapter step extends the transmit side by moves the event allows and no others: a poll by that one poll unless it raises, a control message by the one it parses to, a fragment by answers to its own transaction |
| SelectiveProofs.SenderSafe | server/src/openqsp/transport/aprs/selective_burst.py:145-454 | so on every run of arrivals, polls and deliveries all of the sender guarantees hold of the adapter |
| AtMostOnce.ExecutedAtMostOnce | server/src/openqsp/transport/aprs/commit_adapter.py:146-207 | two executions for one (peer, transaction) happen only if in between the answer aged out, or was least recently used with max_per_peer answers of the peer or max_entries overall used after its last use |
| AtMostOnce.CoreChangesOnlyByExecution | server/src/openqsp/transport/aprs/commit_adapter.py:200-207 | Core and the mailbox change only with an execution so counted |
| AtMostOnce.AnsweredFragment | server/src/openqsp/transport/aprs/selective_burst_guarded.py:24-41 | while the answer is remembered a fragment reaches neither Core nor reassembly: it only repeats A2, and S2 with compaction when it was STORED, or raises exactly when its id is too wide for A2 |
| Bookkeeping.RunAgree | server/src/openqsp/transport/aprs/selective_burst.py:365-388 | on every run each repair record has the count and index set of its reassembly entry, in every state, if and only if no entry its record outlives was expired or evicted and no fragment ended in an exception |
| Bookkeeping.RepairRequestsAreExact | server/src/openqsp/transport/aprs/selective_burst.py:394-409 | while they agree every N2 a poll emits asks for exactly the fragments not held |
| Bookkeeping.PollAgreesUnlessStale | server/src/openqsp/transport/aprs/selective_burst.py:390-453 | a poll keeps that agreement if and only if it raises or no reassembly entry is stale: repair records have no time-to-live |
| Nudging.OverdueIsAsked | server/src/openqsp/transport/aprs/selective_burst.py:394-409 | a poll that does not raise asks every overdue transaction for all it lacks |
| Nudging.RaisesExactly | server/src/openqsp/transport/aprs/selective_burst.py:394-409 | on every run a poll raises if and only if some overdue transaction that lacks fragments has an id above one byte |
| Nudging.RaisedPollIsInert | server/src/openqsp/transport/aprs/selective_burst.py:390-409 | such a poll sends nothing, touches no burst and expires nothing, and what was waiting to be sent is lost |
| Nudging.RaisesUntilHeard | server/src/openqsp/transport/aprs/selective_burst.py:394-409 | and every later poll raises too until a fragment of that transaction arrives again, whatever else arrives or is routed |
| Nudging.OneFragmentStops | server/src/openqsp/transport/aprs/selective_burst.py:360-374 | any first Q1 fragment of several with such an id leads there once its grace is over |
| Nudging.ExpiryIsOutlived | server/src/openqsp/transport/aprs/selective_burst.py:451-453 | any first Q1 fragment never followed up, its id of one byte, has its record outlive its entry at the first poll past the time-to-live |
| TwoParty.RequestGoverns | server/src/openqsp/transport/aprs/selective_burst.py:339-358 | an N2 that reaches the adapter holding the burst puts it under repair for exactly what the receiver lacks |
| TwoParty.ArrivalShrinksMissing | server/src/openqsp/transport/aprs/selective_burst.py:365-388 | a requested fragment that arrives completes the transaction or strictly shrinks what is missing, by itself alone |
| TwoParty.RepairRound | server/src/openqsp/transport/aprs/selective_burst.py:339-436 | a whole round between two adapters: asked, answered with exactly that, and every arrival shrinks the missing set |
| SelectiveProgress.LivesAreBounded | server/src/openqsp/transport/aprs/selective_burst.py:411-436 | on every run of the adapter an unconfirmed burst outlives at most max_attempts - 1 polls past its deadline and rate limit |
| SelectiveProgress.RepairGovernsRun | server/src/openqsp/transport/aprs/selective_burst.py:349-358 | on every run of the adapter, until another N2 asks for something of the burst, every transmission of it carries exactly the fragments asked for |
| RepairRuns.RepairPersists | server/src/openqsp/transport/aprs/selective_burst.py:339-436 | an N2 delivered to the adapter holding the burst makes every transmission of it, through any later run until another N2 for it, exactly what the receiver lacked |
| RepairRuns.ArrivalProgress | server/src/openqsp/transport/aprs/selective_burst.py:365-388 | each fragment of the frame that arrives is held and recorded besides the others, or completes the frame, which is handed to Core unchanged |
| RepairRuns.LackingShrinks | server/src/openqsp/transport/aprs/selective_burst.py:365-388 | after any arrivals, in any order and repeated, what the next N2 asks for is exactly what did not come, one less for each useful arrival |
| RepairRuns.RepairEnds | server/src/openqsp/transport/aprs/selective_burst.py:365-388 | so after as many useful arrivals as there were fragments lacking, repair ends: the last hands the frame itself on |
| StopAndWaitRuns.QueueFrameKeepsInv | server/src/openqsp/transport/aprs/adapter.py:196-234 | queuing succeeds exactly when the peer is valid, an id is free and the pieces fit; then all pieces are queued in order under a free id, each with a message id of its own, and otherwise none is |
| StopAndWaitQueuing.CutIsExact | server/src/openqsp/transport/aprs/carriage.py:168-175 | a frame is cut up if and only if its text has 1 to 768 characters, and the pieces spell it |
| StopAndWaitQueuing.QueueFrameIsExact | server/src/openqsp/transport/aprs/adapter.py:196-234 | if and only if it is accepted, packets that spell the frame in order join the queue, each reading back, with the request's delivery, batch and priority, under unused ids; nothing else changes but the id counters |
| StopAndWaitRuns.MessageFound | server/src/openqsp/transport/aprs/adapter.py:149-167 | a message id is found whenever fewer than 1296 are live to the peer |
| StopAndWaitRuns.HeadIsLeast | server/src/openqsp/transport/aprs/adapter.py:489-496 | what is sent next is the least queued piece by (priority, order) |
| StopAndWaitPolling.PollIsExact | server/src/openqsp/transport/aprs/adapter.py:468-515 | a poll returns what was waiting, then every packet in flight that is due, within its attempts and the rate, then at most one new packet, the first of the queue, exactly when its peer is ready; what is spent goes with the rest of its work, and exactly its deliveries are reported failed |
| StopAndWaitRuns.RunKeepsInv | server/src/openqsp/transport/aprs/adapter.py:196-515 | in every reachable state one packet per peer awaits an ACK, message ids are unique per peer, a (peer, transaction) names one frame, and no piece of a live frame is lost |
| StopAndWaitProofs.DeliveredOnlyWhenComplete | server/src/openqsp/transport/aprs/commit_adapter.py:93-108 | an ACK reports a delivery exactly when it was the last piece, and then every piece of the frame has been acknowledged |
| StopAndWaitProofs.AbortIsExact | server/src/openqsp/transport/aprs/adapter.py:428-466 | exhausting a fragment removes exactly its transaction and response batch for that peer and fails exactly the deliveries among them |
| StopAndWaitProofs.CursorIsHonoured | server/src/openqsp/transport/aprs/commit_adapter.py:46-84 | a cursor removes exactly the deliveries it covers and reports exactly those delivered |
| StopAndWaitReceive.CursorClearsDeliveries | server/src/openqsp/transport/aprs/commit_adapter.py:200-243 | after a newly executed GET_NEW_MESSAGES nothing the cursor covers is queued or pending for that peer, the new answers included |
| StopAndWaitReceive.AdapterKeepsInv | server/src/openqsp/transport/aprs/commit_adapter.py:86-243 | the invariant holds on every run of arrivals, polls, deliveries and lost connections |
| StopAndWaitAnswers.AckEndsPacket | server/src/openqsp/transport/aprs/commit_adapter.py:93-108 | an ACK ends the packet in flight to its sender under that id and nothing else, and reports its delivery exactly when nothing of its frame is left; any other changes nothing |
| StopAndWaitAnswers.CompletionIsAnswered | server/src/openqsp/transport/aprs/commit_adapter.py:178-243 | a completed request is executed and remembered; a send under a commit id is told ack exactly when stored, and rej otherwise; for any other request one group of packets is queued for each response, in order, up to the first without room |
| StopAndWaitAnswers.RepetitionIsAnswered | server/src/openqsp/transport/aprs/commit_adapter.py:147-176 | a request answered before gets the same responses queued again without reaching Core; another request under its transaction is a conflict |
| StopAndWaitAnswers.OtherArrivals | server/src/openqsp/transport/aprs/commit_adapter.py:123-144 | any other fragment is confirmed when it is held and, under a commit id, rejected when it conflicts or is invalid |
| StopAndWaitAnswers.UnansweredRequest | server/src/openqsp/transport/aprs/commit_adapter.py:190-200 | when the caller is invalid or Core raises, the exception escapes; all but a send have been confirmed by then |
| StopAndWaitReceive.LossIsOutboundOnly | server/src/openqsp/transport/aprs/adapter.py:555-573 | a lost connection fails each outbound delivery once, and after any further run all that was received, remembered and executed is what it would be without the loss |
| StopAndWaitOnce.ExecutedAtMostOnce | server/src/openqsp/transport/aprs/commit_adapter.py:146-207 | over any run two executions for one (peer, transaction) happen only if in between the answer aged out or, least recently used, was crowded out |
| StopAndWaitOnce.CoreChangesOnlyByExecution | server/src/openqsp/transport/aprs/commit_adapter.py:200-214 | Core and the mailbox change only with an execution so counted |
| StopAndWaitAdapter.Adapter.QueueFrame | server/src/openqsp/transport/aprs/adapter.py:196-234 | allocates and pushes in place exactly as specified |
| StopAndWaitProofs.SupersessionIsExact | server/src/openqsp/transport/aprs/adapter.py:236-264 | supersession removes exactly the pieces of other batches of which a replaceable piece is live to that peer, each batch whole, other peers untouched and nobody told; the peer is left with nothing replaceable but the current batch |
| StopAndWaitAdapter.Adapter.FailTransaction | server/src/openqsp/transport/aprs/adapter.py:428-466 | rewrites queue and pending as specified and calls Core once for each abandoned delivery |
| StopAndWaitAdapter.Adapter.ReconcileCursor | server/src/openqsp/transport/aprs/commit_adapter.py:46-84 | rewrites queue and pending as specified and calls Core once for each confirmed delivery |
| StopAndWaitAdapter.Adapter.Poll | server/src/openqsp/transport/aprs/adapter.py:468-515 | retries, failures and the one new packet of a poll, as specified |
| StopAndWaitAdapter.Adapter.Receive | server/src/openqsp/transport/aprs/commit_adapter.py:86-243 | the commit-acknowledging receive, over every body, is the specified transition |

## Left out

- Sockets, asyncio, APRS-IS, the TCP server, HTTP routing, events to web clients, configuration, logging and command-line tools: plumbing around the modelled parts.
- HMAC signing of cursors, password hashing and accounts: sync and page cursors are plain numbers.
- SQL, migrations and WAL settings: tables are maps and sequences, each BEGIN IMMEDIATE to COMMIT is one step.
- Conversation summaries, read cursors (`advance_conversation_read`) and the projected message state: easy beside the modelled queries.
- StopAndWaitRuns.QueueFrameKeepsInv: for a queue capacity below the 1296 message ids; with more the source can raise part way through a frame.
- StopAndWaitQueuing.QueueFrameIsExact: for a queue capacity below the 1296 message ids, as above.
- StopAndWaitAnswers.CompletionIsAnswered: likewise; and room is stated response by response, not in one sum.
- CoreAnswers.BulletinPageIsExact: for a board whose rows stand in sequence order, as the bulletin table's own query returns them.
- TwoParty.RepairRound: for a poll of the sender that does not raise; when one does is `Nudging.RaisesExactly`.
- Storing bulletins and their pagination proof: the bulletin tables are given to the core as a value.
- Missing stores ("message store unavailable") in the core: both stores are always present.
- Presence, session registry and the activity, completed-transaction and failed-packet histories of the adapters.
- Unicode text inside exceptions: the wording of a decode error is a parameter, assumed printable ASCII, cut to 64 characters as the source does.
- Q1 Base64url text: encoder and decoder are parameters (`encodeText`, `decodeText`), the encoder assumed to give URL-safe text; `TextDelivery.FrameArrives` is for any pair of which the decoder inverts the encoder on the frame sent.
- Bodies that end in a newline, which the source's `$` patterns would still match.
- A selective burst is a value in a list, not an object updated through several references: aliasing is not modelled.
- The stop-and-wait heap is the list of its items in the order they were pushed; its internal layout is not modelled, only its least element.
- `connection_lost` of the selective adapter: the inherited method does not touch burst state.
- The "pending" mark made when a delivery is queued is not recorded by the adapters; marks for delivered and failed are.
- Delivery marks are calls the adapters make; their effect on the delivery table is `Mailbox.SetDelivery`, proved separately to leave messages alone, and is not folded into the core state the adapters hold.
- Floating-point clocks: time is a natural number of ticks; minus infinity for "never sent" is an absent map entry.
