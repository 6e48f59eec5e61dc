# Verified model of the csqtt core

A multi-stream tunnel carries packets over TURN relays. This project models the parts of its backend
whose behaviour is hard to see from any one function, and proves what they promise:

* the TURN client, a state machine without I/O: six states, five kinds of transaction, seven timers, two
  bounded rings; and the driver that rebuilds its state from the events
  (`TurnState`, `TurnSafety`, `TurnEntries`, `TurnHandshake`, `TurnResponses`, `TurnPolls`, `TurnCalls`,
  `TurnLifecycle`, `TurnEvents`, `TurnTimers`, `TurnUpkeep`, `TurnTransactions`, `TurnDrains`; the mutable client itself is `TurnCore.NativeCore`, the driver `TurnDriver.Driver`);
* STUN messages: the builder, the decoder and the attribute walk (RFC 8489)
  (`Bytes`, `Addresses`, `StunMessages`, `StunBuilder`, `StunFormat`, `StunReading`, `Signatures`,
  `TurnRequests`);
* the anti-replay window and the recovery of 64-bit packet indices from 16-bit RTP sequence numbers
  (`ReplayWindow`, `RtpIndex`);
* one packet's way through one buffer: tunnel frame, RTP obfuscation, ChannelData, and back
  (`Packets`, `Obfuscation`, `PacketPath`), and what a receiver takes of all that arrives (`Delivery`);
* TURN over TCP: cutting the byte stream into frames (`TcpReframing`);
* the epoch queue, the buffer pool, the logger and the repair counters under every interleaving of their
  atomic steps, and what their steps do when nobody interrupts a call (`EpochQueue`, `EpochQueueAlone`,
  `PacketPool`, `Logging`, `LoggingAlone`, `Repair`, with `Tally` for sums over threads);
* chunked round robin over workers, and the order of the worker list (`Scheduling`, `WorkerList`);
* quoting of Windows command lines (`CommandLine`).

Code that changes state in place is modelled by classes whose methods are proved equal to functions on
values; the theorems are about these functions and hold for every input, run or interleaving. Where
threads race, a system state, a function for the next atomic step and a list of steps stand for all
schedules, including those in which threads stop in the middle of a call.

## What is assumed

* Time is a number of nanoseconds given to each call. Transaction ids, padding, markers and timestamps
  are inputs. The order of inputs is arbitrary.
* HMAC, MD5, CRC-32 and the two ciphers are arbitrary functions; all that is used of them is in
  `Cipher.Lawful`: lengths are kept and opening inverts sealing.
* No STUN message handed to the client is longer than 4096 bytes (`Admissible`), which is what both
  drivers guarantee; user name and password are at most 512 bytes, as the constructor demands. Then every
  request fits its 16-bit length, which is proved, and starting a transaction cannot fail.
* Atomic operations are sequentially consistent, and each queue has one receiving thread. Counters of
  64 bits and clock values do not overflow, except where wrap-around or saturation is the point (packet
  indices, sequence numbers, failure counters).
* `emitted`, `drained`, `started`, `sent`, `live` in the pool, `installed` and `decided` in the repair
  slots, `generation`, `place`, `taken`, `output`, `overtaken`, `passed`, `empty`, `empties`, `resumes` and `reported` are
  histories: the programs' behaviour does not depend on them.

## Where the code does less than one might think

* In the last block of 2^16 indices saturation can make the extension of a sequence number differ from the
  nearest candidate; `RtpIndex.ExtendIsNearest` says for which pairs exactly, `LastBlockDiffers` shows one.
* An unframed packet of at least 24 bytes that begins with the frame's magic number comes back shortened
  (`PacketPath.UnframedRoundTrip`, `EndToEnd` say exactly when).
* A fingerprint is found valid exactly if no attribute of the message claimed to be one before
  (`StunBuilder.FingerprintOfBuild`). Integrity is checked against the first attribute that claims to be the
  signature, wherever it stands (`VerifiesExactly`, `IntegrityOfBuild`); one of another length than 20 bytes
  defeats it for every hash function (`ShortSignatureFails`).
* The client reads attributes behind the signature, which it does not cover: `Signatures.CutVerifies` says
  which of those it uses are vouched for, `UnsignedFieldsPass` that any fields may stand behind a correct
  signature, and `UnsignedFieldIsUsed` that such a field is the one the client uses when none of its kind is
  signed.
* A legal request can be longer than the 1024 bytes it is pulled into, and is then lost:
  `TurnLifecycle.PullLoses` says exactly when, and `TurnHandshake.ChallengeCanSilence` that a challenge with
  a nonce of 1000 bytes brings it about.
* A command line arrives exactly when nothing in it contains a NUL and the program name neither contains a
  quote nor needs quotes while ending in a backslash (`CommandLine.LineArrives`; `QuoteInName` shows a line).

## Model

| member | source | states |
|---|---|---|
| `Addresses.EventAddressRoundTrip` | backend/turn_core.rs:116-148 | an address put into an event is read back as the same address, for both families |
| `Addresses.XorAddressRoundTrip` | backend/turn_core.rs:1172-1217 | decoding an XOR-encoded IPv4 or IPv6 address under the same transaction gives the address back (RFC 8489, 14.2) |
| `Addresses.XorAddressUnique` | backend/turn_core.rs:1194-1217 | whatever decodes to an address is exactly that address's encoding: encoder and decoder are inverse in both directions |
| `StunMessages.KindRoundTrip` | backend/stun_codec.rs:95-107 | splitting a 14-bit kind into class and method and putting them together gives the kind |
| `StunMessages.MethodClassRoundTrip` | backend/stun_codec.rs:95-107 | every class and 12-bit method come back from their kind: the split is a bijection |
| `StunMessages.DecodeMessage` | backend/stun_codec.rs:37-89 | the decoding loop accepts a message exactly when header and attribute walk fit the datagram, and reports its kind and transaction |
| `StunMessages.AttributesWithin` | backend/stun_codec.rs:144-164 | every attribute the walk reports lies inside the message |
| `StunMessages.AttributeIterator.Next` | backend/stun_codec.rs:144-164 | each call yields the next attribute of the message's attribute list, and nothing at its end |
| `StunMessages.FindAttribute` | backend/stun_codec.rs:121-123 | finds the first attribute of a kind, if there is one |
| `StunFormat.DecodeExactly` | backend/stun_codec.rs:37-89 | bytes are accepted, with this type and transaction, if and only if they are laid out as RFC 8489 lays out a message: header, cookie, length, and attributes padded to four up to the end |
| `StunFormat.StunDecodes` | backend/stun_codec.rs:144-164 | the attributes reported are those of the layout, in order, at their places, 0x8020 under its newer number |
| `StunFormat.XorAddressOctets` | backend/turn_core.rs:1172-1192 | an encoded address octet by octet: family, then port and address combined with the cookie, for IPv6 with cookie and transaction |
| `StunFormat.XorBits` | backend/turn_core.rs:1172-1217 | a bit of the combination is set exactly when one of the two is |
| `StunFormat.FingerprintExactly` | backend/stun_codec.rs:125-136 | a fingerprint is valid if and only if it ends the message and is the checksum of all before it combined with the letters "STUN"; none is told from a wrong one |
| `StunFormat.SignedAtEnd` | backend/turn_core.rs:1115-1132 | a signature that ends the message verifies if and only if it is the keyed hash of all before it |
| `StunBuilder.MessageBuilder.AddAttribute` | backend/turn_core.rs:1081-1090 | appends the padded encoding of one attribute to those already written |
| `StunBuilder.MessageBuilder.FinishPlain` | backend/turn_core.rs:1107-1112 | the finished message is the specified one, with the length field rewritten and the fingerprint appended |
| `StunBuilder.MessageBuilder.FinishSigned` | backend/turn_core.rs:1097-1105 | the signed message is the specified one, through both rewrites of the length field |
| `StunBuilder.BuildBytes` | backend/turn_core.rs:1057-1112 | building succeeds exactly when attributes and trailer fit the 16-bit length, and the bytes are header and all attributes laid out in order |
| `StunBuilder.DecodeBuild` | backend/turn_core.rs:1057-1112 | every built message decodes, to its kind, its transaction and its unpadded attributes in order |
| `StunBuilder.FingerprintOfBuild` | backend/stun_codec.rs:125-136 | a built message has a valid fingerprint if and only if no earlier attribute claimed to be one |
| `StunBuilder.IntegrityOfBuild` | backend/turn_core.rs:1115-1132 | a built message verifies under its signing key, despite the two rewrites of the length field, if and only if no field was given that claims to be the signature, or the first such field is a correct signature of what lies before it |
| `StunBuilder.VerifiesExactly` | backend/turn_core.rs:1115-1132 | a laid-out message verifies if and only if its first attribute that claims to be the signature has 20 bytes and is the hash of what lies before it |
| `StunBuilder.ShortSignatureFails` | backend/turn_core.rs:1115-1132 | an earlier claimed signature of another length defeats verification, whatever the hash function |
| `Signatures.CutVerifies` | backend/turn_core.rs:1115-1132 | a message that verifies still does when all behind its signature is cut off, and keeps exactly the attributes that do not lie behind: those the client uses are covered exactly then |
| `Signatures.UnsignedFieldsPass` | backend/turn_core.rs:1115-1132 | a message whose own signature is correct still verifies with any fields behind the signature |
| `Signatures.UnsignedFieldIsUsed` | backend/stun_codec.rs:121-123 | behind a correct signature a field of a kind that no signed field has leaves the message verified and is the one the client finds |
| `TurnRequests.BuildRequestBytes` | backend/turn_core.rs:703-751 | the request written for an operation is the specified message |
| `TurnRequests.RequestBuilds` | backend/turn_core.rs:703-751 | every request fits its length field and carries its transaction where responses and the send queue look for it |
| `TurnRequests.RequestReadBack` | backend/turn_core.rs:703-751 | every request decodes to a request of the operation's method and transaction with a valid fingerprint, and one with credentials verifies under their key |
| `TurnRequests.RequestSays` | backend/turn_core.rs:703-751 | what every request asks for and whom it names, read from its bytes: transport, family, lifetime, peer, channel, each under its number; user name, realm and nonce as given, or none of the three |
| `TurnRequests.RequestLifetime` | backend/turn_core.rs:703-751 | a Refresh read back asks for ten minutes, a Deallocate for lifetime zero |
| `TurnRequests.RequestLength` | backend/turn_core.rs:703-751 | how long every request is, from its operation and the lengths of user name, realm and nonce |
| `TurnCore.NativeCore.StartOperation` | backend/turn_core.rs:667-701 | changes the client as the value function says: no second transaction of an operation, one new one with its packet queued |
| `TurnCore.NativeCore.InputStun` | backend/turn_core.rs:362-472 | status and whole new state are those of the value function, for every input including malformed ones |
| `TurnCore.NativeCore.Poll` | backend/turn_core.rs:474-535 | status, delay and whole new state are those of the value function |
| `TurnCore.NativeCore.ExpireTransactions` | backend/turn_core.rs:816-843 | the index loop over the shrinking list does what the recursive specification says |
| `TurnCore.NativeCore.CompleteSuccess` | backend/turn_core.rs:845-933 | whole new state of a verified success, for each operation |
| `TurnCore.NativeCore.CompleteFailure` | backend/turn_core.rs:935-958 | whole new state of a failed transaction, for each operation and state |
| `TurnCore.NativeCore.ScheduleRetry` | backend/turn_core.rs:996-1026 | counts the failure and sets the retry timer, or gives the allocation up at the fourth channel failure |
| `TurnCore.NativeCore.PushEvent` | backend/turn_core.rs:797-809 | appends an event, or drops the oldest and leaves a marker |
| `TurnCore.NativeCore.QueuePacket` | backend/turn_core.rs:781-795 | appends a packet, or drops the oldest and emits an overflow event |
| `TurnCore.NativeCore.GracefulShutdown` | backend/turn_core.rs:563-585 | whole new state: release, wait for a pending Allocate, or nothing to do |
| `TurnCore.NativeCore.ForceDestroy` | backend/turn_core.rs:587-602 | whole new state of a forced end |
| `TurnSafety.StartKeeps` | backend/turn_core.rs:667-701 | a start that is not a repeat always succeeds and adds exactly one pending transaction whose packet is queued |
| `TurnSafety.PollKeeps` | backend/turn_core.rs:474-535 | a poll keeps the invariant and never fails |
| `TurnSafety.ApplyKeeps` | backend/turn_core.rs:334-602 | every entry point keeps the invariant |
| `TurnSafety.RunKeeps` | backend/turn_core.rs:334-602 | every sequence of calls keeps the invariant |
| `TurnHandshake.ChallengeRead` | backend/turn_core.rs:362-451 | a built 401 decodes, has a valid fingerprint and is read with its code, realm and nonce |
| `TurnHandshake.GrantRead` | backend/turn_core.rs:845-878 | a built and signed Allocate success decodes, verifies and is read with its relay and lifetime |
| `TurnHandshake.ReachesReady` | backend/turn_core.rs:334-472 | a new client that starts an allocation, is challenged with any realm and nonce, queues an Allocate that names user, realm and nonce and is signed with its key under that realm; and on a success signed with that key it is READY with the granted relay and expiry |
| `TurnHandshake.ChallengeCanSilence` | backend/turn_core.rs:537-553 | the answer to a challenge is lost when pulled if and only if user name, realm and nonce are too long together, and always for a nonce of 1000 bytes or more |
| `TurnResponses.UnverifiedSuccess` | backend/turn_core.rs:379-399 | a success to an authenticated request that does not verify changes nothing and is reported as such |
| `TurnResponses.UnverifiedError` | backend/turn_core.rs:379-399 | an error to an authenticated request that does not verify is acted on if and only if its code, read from the bytes, is 400, 401, 420 or 438, or 437 behind a valid fingerprint; otherwise all that changes is that the code is told |
| `TurnResponses.UnsignedQuotaIsIgnored` | backend/turn_core.rs:1142-1148 | an unsigned 486 built for the pending Allocate does not end the allocation |
| `TurnResponses.ErrorOutcome` | backend/turn_core.rs:400-466 | from the bytes of an accepted error response to the whole new state and all events: the end on 437 or a refused channel, the same request again with the realm and nonce offered, or a failure |
| `TurnResponses.CodelessError` | backend/turn_core.rs:411-424 | an error without a code is a failure, and told as one |
| `TurnResponses.SuccessOutcome` | backend/turn_core.rs:845-933 | from the bytes of a verified success to the whole new state and all events, for each operation; useless ones are failures, and one that comes during shutdown starts the release |
| `TurnResponses.UnaskedSuccess` | backend/turn_core.rs:403-406 | a success to an unauthenticated request fails it, signed or not |
| `TurnResponses.Unheard` | backend/turn_core.rs:362-378 | what is no response, has a wrong fingerprint or answers nothing pending changes nothing, each with its status |
| `TurnResponses.FailureOutcome` | backend/turn_core.rs:935-1026 | the whole new state and the events of a failed request: the end, another try after 1, 2, 4, 8, 16 or 30 s, or giving the allocation up at the fourth channel failure |
| `TurnPolls.PollOutcome` | backend/turn_core.rs:474-535 | a poll looks at transactions and expiry and then maintains a READY client; the delay is the time to the first instant wanted, a millisecond at least, and none when nothing is wanted |
| `TurnPolls.MaintenanceOutcome` | backend/turn_core.rs:488-528 | the due requests that are not under way begin in order, each naming the user as known; timers, queue and keepalive are as stated for every state of the timers |
| `TurnPolls.KeepaliveIsSent` | backend/turn_core.rs:523-528 | the poll that finds the keepalive due queues 40 00 00 01 ff 00 00 00, with a bound channel and unless it begins a request; no other poll queues any |
| `TurnPolls.ExpiryOutcome` | backend/turn_core.rs:480-487 | an allocation that has run out ends, told as a Refresh that timed out |
| `TurnCalls.AllocationStart` | backend/turn_core.rs:334-345 | an allocation starts once, from the initial state, with an Allocate that names nobody; any other call is refused and changes nothing |
| `TurnCalls.MaintenanceStart` | backend/turn_core.rs:346-361 | in READY, and only there: a permission under way is left alone, a channel under way is sent again, what is not under way begins |
| `TurnCalls.ShutdownOutcome` | backend/turn_core.rs:563-585 | whole new state and events of a shutdown in every state, with the lone signed Deallocate where there is something to release |
| `TurnCalls.ForceOutcome` | backend/turn_core.rs:587-602 | whole new state and events of a forced end |
| `TurnCalls.PullOutcome` | backend/turn_core.rs:537-557 | packets and events leave in the order in which they came; a packet over 1024 bytes leaves unseen |
| `TurnCalls.RingsOutcome` | backend/turn_core.rs:781-809 | the send queue keeps the newest sixteen packets and tells when it lost one, the event ring the newest events behind a marker |
| `TurnLifecycle.RunSafe` | backend/turn_core.rs:334-602 | after every run: at most one pending transaction per operation; maintenance only in READY and not shutting down; READY implies relay, expiry, keepalive, maintenance timer and credentials, fewer than four channel failures, and exactly one of refresh timer and pending Refresh; rings within 16 and 64; every queued packet belongs to a pending transaction or is the keepalive |
| `TurnLifecycle.GrantsAreVerified` | backend/turn_core.rs:362-472 | relay, channel, a later expiry or READY appear only in a step that receives an integrity-verified success response |
| `TurnLifecycle.ApplyEdge` | backend/turn_core.rs:641-653 | the only state changes that any call can make |
| `TurnLifecycle.ReadyOnce` | backend/turn_core.rs:845-878 | READY is entered at most once in every run, and never again once left |
| `TurnLifecycle.NeverReadyAgain` | backend/turn_core.rs:563-585 | after graceful shutdown no run reaches READY |
| `TurnLifecycle.DeallocatingReleases` | backend/turn_core.rs:563-585 | in DEALLOCATING, and only there, a Deallocate is pending; it is the only pending transaction and its packet reads back as a Refresh with lifetime zero |
| `TurnLifecycle.ShutdownBeginsRelease` | backend/turn_core.rs:563-585 | shutdown of a live allocation, or of one whose channel rebind was exhausted, begins its release at once |
| `TurnLifecycle.LateSuccessIsReleased` | backend/turn_core.rs:845-886 | an Allocate success that arrives during shutdown is released and never used |
| `TurnLifecycle.ReleaseEnds` | backend/turn_core.rs:960-977 | a release ends in DEALLOCATED; only a forced destroy cuts it short, and until then its request stays the one pending transaction |
| `TurnLifecycle.PullLoses` | backend/turn_core.rs:537-553 | a queued request is lost when pulled if and only if it is authenticated and user name, realm and nonce together are too long for 1024 bytes |
| `TurnEvents.EventsRebuild` | backend/turn.rs:1182-1326 | nothing was lost exactly when no overflow marker was drained or waits; and then what was emitted, folded as the driver does, is the client's state and, while READY, its relay and channel |
| `TurnEvents.ClosingAgrees` | backend/turn.rs:1182-1326 | whether the driver is closing changes only whether failures are reported |
| `TurnEvents.MarkerFails` | backend/turn.rs:1314-1319 | draining an overflow marker always ends the connection |
| `TurnEvents.FailsExactly` | backend/turn.rs:1182-1326 | the fold records a failure if and only if one of the events is fatal: a failed Allocate, a channel bound to another peer or out of range, a loss, a forced end; while closing, never |
| `TurnDriver.Driver.Pump` | backend/turn.rs:1182-1334 | the pump loop takes and folds the events that wait, all of them or up to a relay announcement that disagrees with the client, and its whole effect on client and snapshot is the specified one |
| `TurnDriver.Driver.PumpOrFail` | backend/turn.rs:775-800 | the driver loop makes a pump that stopped a failure |
| `TurnDriver.PumpSees` | backend/turn.rs:1182-1334 | however calls and pumps alternate while the driver is not closing: after every pump it has been told of a failure, a pump that stopped included, or its state, and while READY relay and channel, are the client's |
| `TurnDriver.PumpSeesWhileClosing` | backend/turn.rs:1182-1334 | closing or not, while no pump stopped and no marker was drained the driver sees the client as it is |
| `TurnDriver.PumpFails` | backend/turn.rs:1182-1334 | a pump that took everything records a failure if and only if an event is fatal or announces the end of the allocation |
| `TurnDrains.ApplyDrains` | backend/turn_core.rs:555-557 | no call but the pulling of events takes events |
| `TurnTimers.GrantIsHalfway` | backend/turn_core.rs:1165-1170 | a grant expires after its lifetime, and its refresh is due after the configured interval or half the lifetime, whichever is sooner, but not within half a second; never later than halfway |
| `TurnTimers.PollLeavesFresh` | backend/turn_core.rs:474-535 | after a poll a client still READY holds an allocation that has not expired |
| `TurnTimers.PollDelay` | backend/turn_core.rs:1044-1055 | a poll that leaves the client READY asks to be called again within one keepalive interval |
| `TurnTimers.ExpiryIsNoticed` | backend/turn_core.rs:474-535 | under a driver that polls within the returned delay and after each input, no call finds the client READY later than one keepalive interval after its allocation expired, and a poll at or past expiry ends READY |
| `TurnUpkeep.PollRenews` | backend/turn_core.rs:488-519 | after a poll that finds maintenance due and leaves the client READY, Permission and Channel are both under way and the next maintenance is one interval ahead; otherwise maintenance stays as it was |
| `TurnUpkeep.MaintenanceIsTimely` | backend/turn_core.rs:488-519 | under a driver that polls within the returned delay and after each input, no call finds the client READY more than the maintenance interval and one keepalive interval after Permission, or Channel, was last under way or READY was entered |
| `TurnUpkeep.KeepaliveIsTimely` | backend/turn_core.rs:523-528 | under the same driver no call finds the client READY with a bound channel more than one keepalive interval and a millisecond after it last began a request or queued a keepalive, or came to be so |
| `TurnEntries.EntryStep` | backend/turn_core.rs:334-602 | what any call can do to the pending transaction of an operation: it goes, stays, is sent again, or is started anew, after a challenge as the next link of its chain and otherwise as a first |
| `TurnEntries.ExpireEntry` | backend/turn_core.rs:816-843 | the expiry loop leaves of each transaction nothing, or, if it does not time out, itself or itself sent again |
| `TurnTransactions.LookExactly` | backend/turn_core.rs:816-843 | while none times out, a look queues exactly the due packets again, in order, advances exactly their transactions and changes nothing else |
| `TurnTransactions.TimeoutIsLate` | backend/turn_core.rs:816-843 | a transaction that times out has been sent as often as it may be, and is at least 7.8 s (datagram) or 12 s (stream) old, under any polls |
| `TurnTransactions.NoEarlyTimeout` | backend/turn_core.rs:816-843 | while all pending transactions are younger than that, a look only sends the due ones again |
| `TurnTransactions.AllAhead` | backend/turn_core.rs:816-843 | after a look every pending transaction is due only later: the loop leaves nothing undone |
| `TurnTransactions.TimedOutPoll` | backend/turn_core.rs:474-535 | a poll that finds a transaction timed out takes it off and reports the time-out, or the allocation is given up as a whole |
| `TurnTransactions.PunctualTimeout` | backend/turn_core.rs:816-843 | in every run of a client polled at each deadline: no transaction is pending longer than 7.8 s (12 s over a stream); before that a poll ends none; at that instant it has been sent seven times (once), is taken off, and the time-out is reported, always for the first of several |
| `TurnTransactions.TransactionsEnd` | backend/turn_core.rs:474-535 | in every run under a driver that polls within the returned delay and within a slack of other calls, no call finds a transaction older than its lifetime plus, for each send, the larger of the slack and one millisecond |
| `TurnTransactions.ChainIsShort` | backend/turn_core.rs:436-454 | in every run, a chain of challenges of an operation uses at most max_nonce_retries + 1 transactions; at most four with the shipped profile |
| `TurnTimers.RetryDelays` | backend/turn_core.rs:996-1026 | retry delays are 1, 2, 4, 8, 16 and then always 30 s, and never shrink |
| `ReplayWindow.Window.Accept` | backend/session.rs:396-440 | the ring of 256 words answers and moves as the set of seen counters does, for every counter and shift |
| `ReplayWindow.AcceptExactly` | backend/session.rs:397-425 | a counter is accepted exactly when it is not older than highest - 16383 and was not accepted before |
| `ReplayWindow.AcceptedOnce` | backend/session.rs:397-425 | in every sequence of counters none is accepted twice |
| `RtpIndex.ExtendIsNearest` | backend/session.rs:442-455 | the extension is the candidate nearest to the highest index if and only if the saturated next candidate is not the nearer one, which is a closed condition on the pair |
| `RtpIndex.NearestBelowLastBlock` | backend/session.rs:442-455 | below the last block of indices the extension is the nearest candidate for every sequence number |
| `RtpIndex.LastBlockDiffers` | backend/session.rs:442-455 | a concrete pair for which it is not |
| `RtpIndex.ExtendRecovers` | backend/session.rs:442-455 | an index less than 2^15 from the highest is recovered from its low 16 bits |
| `RtpIndex.Receiver.AcceptRtp` | backend/session.rs:442-455 | verdict and window are those of the extended index over the set model |
| `RtpIndex.TraceRecovered` | backend/session.rs:442-466 | over whole traces, with losses, repeats, reordering below 2^15 and any number of wraps, each packet gets the verdict of its true index, counted from the block of the first packet |
| `RtpIndex.SenderCounters.Next` | backend/obfs.rs:87-94 | packet n carries s0 + n modulo 2^16, and likewise its transport number, however often the counters wrap |
| `RtpIndex.DeliveredExactly` | backend/session.rs:397-466 | sender to receiver: of the packets a sender numbers, delivered in any order with losses and repeats within reach, each is accepted if and only if it was not accepted before and none delivered before is more than 16383 ahead |
| `RtpIndex.DeliveredOnce` | backend/session.rs:397-466 | none is accepted twice |
| `Packets.PacketBuf.SetReadLen` | backend/packet.rs:139-145 | sets the range behind the headroom, or refuses more than 2240 bytes |
| `Packets.PacketBuf.Prepend` | backend/packet.rs:147-153 | moves the start into the headroom, or refuses; start <= end <= 2304 is kept |
| `Packets.PacketBuf.ExtendTail` | backend/packet.rs:155-165 | moves the end, or refuses to pass 2304 |
| `Packets.PacketBuf.TrimFront` | backend/packet.rs:167-173 | drops bytes at the front, or refuses |
| `Packets.PacketBuf.Truncate` | backend/packet.rs:175-181 | keeps a prefix, or refuses |
| `Packets.PacketBuf.SetRange` | backend/packet.rs:191-197 | takes a range within the capacity, or refuses |
| `Obfuscation.KeystreamTwice` | backend/obfs.rs:116-220 | the keystream undoes itself |
| `Obfuscation.HeaderParses` | backend/obfs.rs:222-303 | the header written by wrap is read back field by field by unwrap |
| `Obfuscation.UnwrapWire` | backend/obfs.rs:116-303 | unwrapping what was wrapped gives the sequence number and the payload, at the place where the payload lies, in both modes and for every padding draw |
| `Obfuscation.UnwrapExactly` | backend/obfs.rs:222-303 | for all bytes and both modes: a number and a payload come out if and only if the bytes are an accepted RTP header, text, the announced padding, and a tag or seal that holds of all they have to cover |
| `Obfuscation.VideoTagHolds` | backend/obfs.rs:241-258 | a video packet opens only if its last ten bytes are the tag of all before them |
| `Obfuscation.HeaderSays` | backend/obfs.rs:160-180 | the header is an RTP header with padding, marker and payload type of the mode, whose extension holds send time and transport number as elements 3 and 5 of RFC 8285 |
| `Obfuscation.NoncesDiffer` | backend/obfs.rs:353-367 | two packets of a sender fewer than 2^16 apart never share a nonce or a counter block, whatever the timestamps |
| `PacketPath.FrameRoundTrip` | backend/shared/flow_frame.rs:20-48 | a frame is read back as its header and payload |
| `PacketPath.FrameSays` | backend/shared/flow_frame.rs:20-48 | the bytes of a frame: the letters "CQF1", sender, flow and sequence in network byte order, payload |
| `PacketPath.UnframedRoundTrip` | backend/shared/flow_frame.rs:50-52 | a packet without frame comes back unchanged if and only if it does not look like a frame |
| `PacketPath.FrameOutbound` | backend/dispatcher.rs:88-96 | puts the frame before the payload in place, or refuses for lack of headroom |
| `PacketPath.WrapPacket` | backend/obfs.rs:116-220 | wraps in place to the specified wire bytes with the sender's next number, exactly when payload, headroom and tail room suffice; a counter is spent even when it is refused for room |
| `PacketPath.UnwrapPacket` | backend/obfs.rs:222-303 | reads the header, checks the tag or opens the seal, decrypts in place and narrows the range to the payload, exactly when the specification accepts; otherwise the range stays |
| `PacketPath.AuthenticateInbound` | backend/session.rs:457-467 | lets a packet through exactly when it authenticates and its index is new; one that does not authenticate leaves the window alone; window, verdict and payload are those of the value function |
| `Delivery.PayloadsArrive` | backend/session.rs:442-467 | byte by byte from one sender to the receiver, in any order, with losses, repeats and foreign packets, within reach of the index recovery: an arrival is let through if and only if it is genuine (foreign ones are bytes of which no header, padding and tag or seal fit), was not let through before and none more than 16383 ahead came before, and then with the payload that was wrapped |
| `Delivery.ForgedVideo` | backend/session.rs:457-467 | a video packet with any other tag than that of its bytes is refused and leaves the window alone |
| `PacketPath.ChannelHeaderExactly` | backend/turn.rs:1412-1428 | ChannelData is recognised exactly when it is channel, length, payload and at most three more bytes |
| `PacketPath.ChannelRoundTrip` | backend/turn.rs:1412-1463 | encoded ChannelData gives back channel and payload |
| `PacketPath.EncodeChannelData` | backend/turn.rs:1434-1463 | frames in place, exactly when channel, headroom and tail room allow it; otherwise changes nothing |
| `PacketPath.DecodeChannelData` | backend/turn.rs:1354-1361 | trims and truncates to the payload, or leaves the packet alone |
| `PacketPath.EndToEnd` | backend/turn.rs:1348-1463 | frame, wrap and ChannelData, then the inverses, restore the payload byte for byte, in both modes and for every draw, with the one exception stated as an equivalence |
| `PacketPath.SendPacket` | backend/dispatcher.rs:88-96 | a packet read at offset 64 passes frame, wrap and ChannelData in one buffer exactly when its length and the drawn tail keep within 2240 bytes, whether or not it is framed, and becomes the specified datagram |
| `PacketPath.EveryDrawFits` | backend/obfs.rs:130-155 | every draw passes exactly up to 2170 bytes in video and 2200 bytes in audio mode, so 2167 bytes always pass |
| `PacketPath.ReceivePacket` | backend/turn.rs:1348-1361 | the inbound path in one buffer yields what the specification of the inverse yields |
| `TcpReframing.StartStable` | backend/turn_stream.rs:223-260 | what the first bytes decide does not change when more arrive |
| `TcpReframing.DecodeBounds` | backend/turn_stream.rs:184-210 | an incomplete frame is shorter than the buffer limit, so the hard-limit error cannot occur, and a data frame fits a packet buffer |
| `TcpReframing.DecodeExactly` | backend/turn_stream.rs:184-210 | a frame is found at the front of the bytes if and only if a well-formed one is there |
| `TcpReframing.NeedMoreExactly` | backend/turn_stream.rs:184-260 | more bytes are awaited if and only if those at hand may still become a well-formed frame; the stream fails when they neither begin with one nor can |
| `TcpReframing.FramesComeBack` | backend/turn_stream.rs:159-210 | well-formed frames written one after the other come back exactly, and what follows is parsed as if alone |
| `TcpReframing.ParseIsFaithful` | backend/turn_stream.rs:159-260 | every stream is the frames parsed from it, all well formed, followed by a rest at which the decoder stops with the reported error |
| `TcpReframing.StreamReader.ReadFrame` | backend/turn_stream.rs:159-182 | the next frame or error depends only on the bytes not yet handed on, not on how reads cut them |
| `TcpReframing.StreamReader.ReadAll` | backend/turn_stream.rs:159-182 | for every way of cutting the stream into reads: the same frames in the same order, data frames dropped only when no buffer is free, and the same final error, never the hard limit |
| `EpochQueue.ForceKeepsNewest` | backend/dispatcher.rs:233-253 | however many packets are forced in, the newest are kept, in order |
| `EpochQueue.PacketQueue.TrySend` | backend/dispatcher.rs:219-253 | refused exactly when closed, suspended or full; without races this is the bounded FIFO |
| `EpochQueue.PacketQueue.ForceSend` | backend/dispatcher.rs:223-253 | refused only when closed or suspended; a full queue loses its oldest packet |
| `EpochQueue.PacketQueue.TryRecv` | backend/dispatcher.rs:260-268 | returns the oldest packet of the current epoch and throws away what lies before it |
| `EpochQueue.PacketQueue.Resume` | backend/dispatcher.rs:296-305 | a new epoch begins, empty and active |
| `EpochQueue.PacketQueue.Suspend` | backend/dispatcher.rs:307-314 | nothing is left and nothing gets in |
| `EpochQueue.RunKeeps` | backend/dispatcher.rs:233-318 | every interleaving of senders and the receiver keeps epochs, places and counts |
| `EpochQueue.ReturnedIsCurrent` | backend/dispatcher.rs:233-318 | under every interleaving a returned packet was sent by a call that read the state word after the latest resume completed; packets are returned in push order, each at most once; the queue keeps its capacity; every push is accounted for |
| `EpochQueue.DiscardIsStale` | backend/dispatcher.rs:260-268 | what the receiver throws away was sent before the latest resume, unless the queue is suspended |
| `EpochQueueAlone.SendAlone` | backend/dispatcher.rs:219-253 | the atomic steps of a send that nobody interrupts: refused, queued behind the others, or queued for the oldest, stamped with the epoch of the moment |
| `EpochQueueAlone.ReceiveAlone` | backend/dispatcher.rs:260-268 | the atomic steps of a receive alone return the oldest packet of the current epoch and throw away just what lies before it |
| `EpochQueueAlone.ResumeAlone` | backend/dispatcher.rs:296-305 | the atomic steps of a resume alone begin a new, empty, active epoch |
| `EpochQueueAlone.SuspendAlone` | backend/dispatcher.rs:307-314 | the atomic steps of a suspension alone leave the queue inactive and empty |
| `Scheduling.IssueAdvances` | backend/dispatcher.rs:140-166 | one ticket moves the cursor of its class from n to n + 1 tickets and no other cursor |
| `Scheduling.NthTicket` | backend/dispatcher.rs:140-166 | with the number of workers unchanged, ticket n of a class goes to slot (n / chunk) mod workers, however classes interleave |
| `Scheduling.ShareIsPortion` | backend/dispatcher.rs:140-166 | how many of the first n tickets each slot received, in closed form |
| `Scheduling.SharesAreEven` | backend/dispatcher.rs:140-166 | at every moment two workers differ by at most one chunk, and after whole rounds not at all |
| `Scheduling.FastPathScheduler.BeginForClass` | backend/dispatcher.rs:140-166 | ticket and cursors are those of the specification |
| `Scheduling.FastPathScheduler.Begin` | backend/dispatcher.rs:121-133 | a changed worker list is taken over at a chunk boundary of the class; under any changes the slot names a worker of the list in use |
| `WorkerList.InterleaveTurnPaths` | backend/dispatcher.rs:369-400 | the grouping and dealing loops yield the same workers, paths taking turns, ids ascending in each path |
| `WorkerList.PathsTakeTurns` | backend/dispatcher.rs:369-400 | in every prefix no path is more than one worker ahead of a path that has workers left |
| `WorkerList.OrderIsUnique` | backend/dispatcher.rs:369-400 | the list is determined by who is registered, not by how it came about |
| `WorkerList.Dispatcher.Register` | backend/dispatcher.rs:568-577 | the worker replaces any earlier incarnation, nobody else changes, ids stay distinct and paths keep taking turns |
| `WorkerList.Dispatcher.Unregister` | backend/dispatcher.rs:579-586 | removes only this incarnation; for a stale one the list stays exactly as it was |
| `PacketPool.Pool.TryAcquire` | backend/packet.rs:50-66 | reuses a free buffer before making one; fails exactly when the whole budget is in use; nobody else has the buffer |
| `PacketPool.Pool.Release` | backend/packet.rs:95-107 | the buffer goes to the free list, or its place in the budget is given up when the list is full |
| `PacketPool.BuffersAreConserved` | backend/packet.rs:35-107 | under every interleaving: packets in use within the budget, no buffer in two places, the free list within min(budget, 2048), and the budget counts free buffers, those in use and those being given up; at rest just the first two |
| `PacketPool.RefusedOnlyWhenUsedUp` | backend/packet.rs:50-66 | an acquire fails only when the budget is used up at that moment |
| `PacketPool.NothingIsWasted` | backend/packet.rs:35-107 | under every interleaving, with a budget of up to 2048 and storages returned whole, no more buffers than the budget are ever made: every dropped one is kept |
| `Logging.LaneQueue.ReplaceOldest` | backend/logging.rs:142-162 | alone, a producer always places its line, and a full lane loses and counts its oldest |
| `Logging.RunKeeps` | backend/logging.rs:142-466 | every interleaving of producers and writer keeps, in each lane, where every line is, what the counters owe, the order and the burst rule |
| `Logging.LinesAreConserved` | backend/logging.rs:142-162 | between calls, lines accepted = lines handed to the sink with repetitions + dropped + outstanding, and outstanding lines are exactly those queued or kept by the writer |
| `Logging.OutputIsWhatWasTaken` | backend/logging.rs:407-452 | at every moment the output, repetitions written out, is what the writer took, in push order, none twice, up to what it holds; no write stands for more than 64 lines |
| `Logging.DiagnosticsGetTheirTurn` | backend/logging.rs:415-452 | never more than 32 protocol lines are written while a diagnostic waits |
| `Logging.ProtocolGetsItsTurn` | backend/logging.rs:415-452 | never more than one diagnostic write is made while a protocol line waits |
| `Logging.EqualLinesAreJoined` | backend/logging.rs:426-446 | in every run, of two diagnostic writes in a row with the same text the first stands for 64 lines or the lane was empty when the writer last looked for more |
| `LoggingAlone.EqualLinesAlone` | backend/logging.rs:426-446 | with n equal diagnostics queued and nobody else at work the writer makes exactly (n + 63) / 64 writes of them, all full but the last |
| `LoggingAlone.EverythingIsWritten` | backend/logging.rs:407-452 | from any moment at which no producer is in the middle of a call the writer alone empties both lanes, and then every line accepted was written or counted as dropped |
| `LoggingAlone.ProducerAlone` | backend/logging.rs:142-162 | the atomic steps of a producer that nobody interrupts place its line behind the others, for the oldest when the lane is full, and count that |
| `Repair.RepairState.ApplyRepair` | backend/repair.rs:83-116 | a named worker is restarted once if the command is newer than all before, and gets new credentials if it never recovered; the results add up to what the counters gained |
| `Repair.RepairState.ApplyAlive` | backend/repair.rs:118-131 | named workers are ready up to the sequence at least |
| `Repair.RepairState.MarkReady` | backend/repair.rs:75-81 | the worker is ready up to its last sequence |
| `Repair.RunKeeps` | backend/repair.rs:75-131 | every interleaving of repair, alive and ready calls keeps the invariant |
| `Repair.AtMostOnce` | backend/repair.rs:83-116 | under every interleaving each slot takes strictly increasing sequences, each at most once, stands at the greatest one decided, and restarts and resets equal what calls have reported or will report |
| `Repair.QuietCounts` | backend/repair.rs:83-116 | when no call is under way: restarts = sequences installed, their sum = restarts reported, and credential resets stay below restarts unless both are zero |
| `Repair.CallAlone` | backend/repair.rs:83-116 | the atomic steps of a repair call that nobody interrupts do what the call in one go does, and report the restarts and resets made |
| `CommandLine.PlainStays` | backend/tun_win.rs:292-300 | an argument is written as it is if and only if it is not empty and holds no space, tab or quote |
| `CommandLine.QuoteArg` | backend/tun_win.rs:292-321 | the scanning loop with its backslash counter writes the specified text |
| `CommandLine.ScanEscaped` | backend/tun_win.rs:292-321 | inside quotes, escaped text is read back and the closing quote is recognised, for any run of backslashes and quotes |
| `CommandLine.SplitJoin` | backend/tun_win.rs:349-353 | splitting the joined quoted arguments gives the arguments, whatever a library makes of doubled quotes |
| `CommandLine.ArgumentsArrive` | backend/tun_win.rs:349-353 | handed over as a NUL-terminated string, the arguments arrive exactly when none contains a NUL |
| `CommandLine.LineArrives` | backend/tun_win.rs:349-353 | for every program name and all arguments: both arrive if and only if nothing contains a NUL and the name contains no quote and does not both need quotes and end in a backslash |
| `CommandLine.QuoteInName` | backend/tun_win.rs:349-353 | what a quote in the program name does to one concrete line |

## Left out

- Sockets, TUN devices, routes, TLS, batching of system calls, and the waiting and waking of threads: foreign calls and liveness; `recv` waits, what it returns is `TryRecv`.
- Which packets belong to which class and which carry a frame (packet inspection in `backend/shared/striped_scheduler.rs` and `backend/shared/flow_frame.rs`): class and frame header are parameters.
- The reassembly of flows behind the frame, forward error correction and the worker loop.
- VK authentication, captcha pages, profiles, name generation, DNS and URI parsing, and the user interface.
- Logger flush and shutdown acknowledgement, and the end of accepting lines: only conservation, order, joining and the burst rule are modelled. Cutting lines at 4096 bytes is left out.
- The monotony of the ready sequence in repair slots, which the code does not promise: `mark_ready` stores.
- Packets older than the block of the first accepted packet: outside the hypothesis of the index recovery.
- In the TURN client: the completion counters and log lines of the driver, scope ids and flow labels of IPv6 addresses, the peer destination of a queued packet (it is always the server), and the fixed layout of events.
- TurnLifecycle.RunSafe: the packets in the queue are found to belong to pending transactions or to be the keepalive; that a packet is sent at all is the driver's matter.
- TurnEvents.EventsRebuild: speaks of drained and waiting events together; for a driver that pumps see `TurnDriver.PumpSees`.
- TurnTimers.ExpiryIsNoticed: for profiles whose keepalive interval is at least one millisecond, the resolution of the returned delay; the shipped profile has ten seconds. Calls other than polls may be followed by a poll up to one keepalive interval later.
- TurnUpkeep.MaintenanceIsTimely: says that a transaction is under way, not that the relay answers it; how long one can stay under way is `TurnTransactions.TransactionsEnd`.
- TurnDriver.Driver.Pump: a pump is one atomic step with one value of `closing`. The source reads `closing` at each event, and other threads may call the client between two events.
- TurnDriver.PumpSees: calls come between pumps, not within one, for the same reason.
- EpochQueue.PacketQueue.Resume: the epoch is a natural number; the saturation of the 63-bit epoch is not modelled.
- WorkerList.InterleaveTurnPaths: paths are represented by their rank in the order of path names, and of two workers with the same path and id, which registration rules out, the order is that of one stable sort; the workers' queues are not part of the list's entries.
- Packets.PacketBuf.SetReadLen: the bytes of the storage are those written through the modelled operations; a caller that grows or shrinks the storage itself is not modelled, except that the pool's `Drop` step covers a storage of another length.
- PacketPath.SendPacket: the padding bytes, the marker and the timestamps are inputs; their distribution and the clock rates are left out.
