# Sesivo client verification

Sesivo is a low-latency audio client. This project models its protocol steps and stateful policies in
Dafny and proves properties of the model over every run, every interleaving or every input.
`dafny verify dfyconfig.toml` checks everything.

| file | component |
|---|---|
| `KeyHandoff.dfy`, `RoomAgreement.dfy`, `KeyAgent.dfy` | room-key handoff and rotation: the system of clients over a lossy network, when the room agrees, and one client's methods |
| `OutboundGuard.dfy`, `Connections.dfy` | endpoint and generation guard on sends, as threads interleaved at every atomic step; where datagrams go, and that they go |
| `Common.dfy` | small helpers |
| `SerialNumbers.dfy`, `ReplayWindow.dfy` | 32-bit serial numbers; the replay window of secure packets |
| `SequenceTracker.dfy`, `WordTracker.dfy` | the arrival tracker on counters, and as it is kept on 32-bit words |
| `DropRanges.dfy`, `PlayoutQueue.dfy`, `TimelyPackets.dfy`, `DropAccounting.dfy` | the receiver's own drops, the order of playout, what is owed to a packet in time and how drops are counted, on counters |
| `WordDrops.dfy`, `WordQueue.dfy`, `WordHistory.dfy`, `PlayoutProgress.dfy`, `FarPackets.dfy` | the same as they are kept on 32-bit words, whole runs of them, how soon a packet is handed out, and what happens beyond half the number space |
| `ReceivePipeline.dfy` | tracker and queue together |
| `PcmLedger.dfy`, `Resampler.dfy`, `PlayerModel.dfy`, `Playout.dfy`, `QueueScripts.dfy` | outcome ledger, fractional-rate resampling, the receive side of the audio callback as a model and as methods, and what the queue can hand it |
| `EndToEnd.dfy` | queue and callback together |
| `ClockOffset.dfy` | clock offset estimator |
| `DeliveryReports.dfy`, `RobustLoss.dfy` | delivery reports at both ends, and the loss rate drawn from them |
| `PacketDuration.dfy`, `Bitrate.dfy` | congestion controllers |
| `JitterPolicy.dfy`, `AutoJitter.dfy` | ms/packet arithmetic and the jitter target |
| `TxAccumulator.dfy`, `RateConversion.dfy` | transmit re-chunking; device and engine sample rates |
| `Metronome.dfy`, `ChatLog.dfy` | the shared metronome; the room chat |

Objects that change in place are classes whose methods are tied to functions of the old state; what is
promised over whole runs is proved about those functions. Phase, ratio and rate are `real`.

## What the code does not do

- A disconnect runs on the caller's thread and is not kept from overlapping a rebind on the io thread, which can misdirect a datagram (`OverlappingDisconnectMisdirects`). The guarantee holds with disconnects apart from other changes.
- Two clients may rotate to one epoch with different secrets and the room divides (`TwoRotationsSplitRoom`); it agrees exactly while one secret is brought in per epoch (`RoomAgreesIff`).
- A failed re-share or an unsealable rotation drops a participant from the pending set although nothing was acknowledged (`PendingUntil`).
- The ratio is read twice: the tail mixer can be entered at one ratio and mix at another, and then forgets a fraction of a frame unless the output spans whole frames (`TailKeepsPosition`, `TailCanSlip`).
- Frame count and reset flag of the transmitter are stored and loaded apart: a callback between the two can copy behind what waits, past the buffer if it does not fit (`OutOfFrameOnlyUnseen`, `OverrunRun`).
- The slots of recorded drops would overcount, and the split of abandoned numbers would wrap, if a number were recorded twice (`OverlapOvercounts`); that each number arrives once (`NeverQueuedAgain`) rules it out.
- With all 64 slots taken, recording a drop overwrites a range, whose numbers then count as lost on the way (`WithDropExact`, `RecordedIsCounted`).
- A drop that arrives for the number playout waits for makes it wait anew for the next one (`WithoutPacketAtMost`).
- Beyond half the 32-bit space, arrivals, reports and secure packets are misjudged: exactly when is `QueuedAgainIff`, `ImplausibleIff` and `PassesAgainIff`, with runs in `QueuedTwiceBeyond` and `ReplayedBeyondReach`.
- Beyond it the playout queue throws away packets that are in time (`InTimeErasedIff`, `StartKeepsAllIff`, `TimelyPacketLost`).
- A repeat of a chat message already pushed out counts as unread again (`UnreadIs`, `RepeatRaisesUnread`).
- The buffer that applies a tempo change counts beats in the old interval (`ApplyingFrameBeat`), and an unnumbered sync at the highest number wraps the order (`StepNumbered`).
- Packets to milliseconds and back is the identity exactly where the duration rounds down (`RoundTrip`), and a target under half a millisecond vanishes (`VanishesIff`).
- The automatic start of the jitter target, and a target that setters keep, ignore the age limit until the next window (`WithinAgeIff`, `StartIgnoresAgeLimit`).

## Model

| member | source | states |
|---|---|---|
| `KeyHandoff.EpochsWriteOnce` | src/client/client_runtime.cpp:2317-2336 | In every run with loss, duplication and reordering, each client's epoch never decreases, and once a secret is in force at an epoch no other secret replaces it at that epoch |
| `KeyHandoff.AckProvesInstall` | src/client/client_runtime.cpp:4313-4333 | If an acknowledgement takes a participant off the pending set, that participant had installed exactly the secret the sender holds now, at the sender's current epoch; no injectivity of the hash is assumed |
| `KeyHandoff.StaleAckNeverCancels` | src/client/client_runtime.cpp:4313-4333 | An acknowledgement sent while its addressee was at an older epoch changes nothing once the addressee has moved on |
| `KeyHandoff.PendingUntil` | src/client/client_runtime.cpp:2183-2272 | A participant leaves the pending set on a step if and only if the step is a matching acknowledgement, its removal, or a new handoff or rotation that cannot be sealed for it |
| `KeyHandoff.PendingFrom` | src/client/client_runtime.cpp:2249-2260 | A participant not pending becomes so on a step of the client if and only if the step shares the key with it or rotates, and an envelope can be sealed for it then |
| `KeyHandoff.RetryResends` | src/client/client_runtime.cpp:2262-2272 | In every run, from the step that made a participant pending until one of the ways out, every retry at which the client can seal for it puts the secret then in force on the wire for it |
| `KeyHandoff.ShareSends` | src/client/client_runtime.cpp:2183-2260 | Learning a participant's key and sharing sends it exactly one envelope with the current secret and makes it pending |
| `KeyHandoff.RotationTaken` | src/client/client_runtime.cpp:4842-4957 | A rotation packet that opens installs its secret exactly if it is for a later epoch, or for this one while the client waits for that secret; anything else changes nothing |
| `KeyHandoff.EnvelopeRefused` | src/client/client_runtime.cpp:4959-5031 | An envelope for someone else, sealed for another key, of two epochs, with a secret that is empty or over 128 bytes or a commitment that is not 64 hexadecimal digits changes nothing and is not answered |
| `KeyHandoff.HandoffCompletes` | src/client/client_runtime.cpp:4959-5031 | Retry, delivery and acknowledgement install the sender's secret, epoch and commitment at the receiver and clear the pending entry exactly when the receiver is at an older epoch or waits for, or has, that very secret; any other receiver keeps its state and stays silent |
| `KeyHandoff.RunInvariant` | src/client/client_runtime.cpp:2183-2403 | Along every run each message on the wire is justified by what its sender held, and participant ids belong to one client each |
| `KeyHandoff.HeldThenAdvances` | src/client/client_runtime.cpp:2317-2336 | Whoever held a secret at an epoch is at that epoch with that secret still, or at a later epoch |
| `RoomAgreement.RoomAgreesIff` | src/client/client_runtime.cpp:2317-2403 | In every run, all clients that are ever at an epoch with a secret hold the same one if and only if all newcomers and rotations that brought a secret in for that epoch brought the same; envelopes can make no difference |
| `RoomAgreement.HeldWasBrought` | src/client/client_runtime.cpp:4932-5031 | Every secret a client ever holds goes back to a client that joined with it or that rotated to it at that epoch |
| `RoomAgreement.TwoRotationsSplitRoom` | src/client/client_runtime.cpp:2338-2403 | From every reachable state in which two clients can rotate to an epoch, rotating to two secrets leaves the room divided |
| `RoomAgreement.SplitRoomRun` | src/client/client_runtime.cpp:2338-2403 | Such a run from the empty room |
| `KeyAgent.RoomKeyAgent.UpdateMediaKeyFromSecret` | src/client/client_runtime.cpp:284-325 | The session key after a change of secret is the one derived from the session's secret and room, or none |
| `KeyAgent.RoomKeyAgent.ApplyMediaSecretRotation` | src/client/client_runtime.cpp:2317-2336 | Installs exactly under the write-once-per-epoch rule and otherwise changes nothing |
| `KeyAgent.RoomKeyAgent.SendMediaKeyEnvelope` | src/client/client_runtime.cpp:2183-2247 | Hands out the envelope for a participant exactly if one can be sealed |
| `KeyAgent.RoomKeyAgent.QueueMediaKeyHandoff` | src/client/client_runtime.cpp:2249-2260 | A queued handoff is pending, a failed one drops the entry, as the protocol step says |
| `KeyAgent.RoomKeyAgent.RetryPendingKeyHandoffs` | src/client/client_runtime.cpp:2262-2272 | A retry pass sends the envelopes of exactly the pending participants that can be sealed for and keeps the pending set |
| `KeyAgent.RoomKeyAgent.SendKeyHandoffAck` | src/client/client_runtime.cpp:2274-2294 | Acknowledges the epoch and commitment received |
| `KeyAgent.RoomKeyAgent.HandleE2EKeyEnvelope` | src/client/client_runtime.cpp:4959-5031 | An envelope is opened, checked, installed and acknowledged as the protocol step says |
| `KeyAgent.RoomKeyAgent.HandleKeyHandoffAck` | src/client/client_runtime.cpp:4313-4333 | Removes the participant exactly if the acknowledgement matches target, epoch and commitment |
| `KeyAgent.RoomKeyAgent.HandleRotationPacket` | src/client/client_runtime.cpp:4842-4957 | A rotation packet that opens under the session key and passes the replay window is applied under the same rule; any other changes nothing |
| `KeyAgent.RoomKeyAgent.RotateMediaKey` | src/client/client_runtime.cpp:2338-2403 | A rotation broadcasts the sealed secret, installs it and queues a handoff to every known participant |
| `OutboundGuard.SendsReachCurrentEndpoint` | src/client/client_runtime.cpp:1753-1806 | With connects and rebinds serialised by the io thread, no disconnect overlapping another change, and any number of sender threads interleaved at every load, store, lock and unlock, every datagram handed to the socket is addressed to the endpoint current at that moment |
| `OutboundGuard.PlayKeepsInv` | src/client/client_runtime.cpp:2464-2520 | Every interleaving keeps: locks have one holder, a change between its disable and enable leaves sending disabled, and a sender past its checks holds the current endpoint and generation |
| `OutboundGuard.SocketKeepsChangesOut` | src/client/client_runtime.cpp:209-260 | While a sender holds the socket with sending enabled, no connection change can be past its own socket step |
| `OutboundGuard.SnapshotKept` | src/client/client_runtime.cpp:1753-1806 | The endpoint and generation a sender read stay consistent: if the generation is still current so is the endpoint, outside an endpoint swap |
| `OutboundGuard.IoStaysSerialised` | src/client/client_runtime.cpp:148-209 | The single io thread keeps connects and rebinds from overlapping each other |
| `OutboundGuard.OverlappingDisconnectMisdirects` | src/client/client_runtime.cpp:424-460 | A concrete interleaving in which a rebind enables sending in the middle of a disconnect and a datagram leaves for an endpoint that is not current: the condition on disconnects is necessary |
| `Connections.EndpointIsAskedFor` | src/client/client_runtime.cpp:424-460 | In every interleaving the endpoint in force is the target of the last connect that stored one, or none after a disconnect |
| `Connections.EachGoesWhereAsked` | src/client/client_runtime.cpp:1753-1806 | So every datagram handed to the socket goes to the target of the last connect |
| `Connections.ConnectEnables` | src/client/client_runtime.cpp:209-260 | A connect that runs to its end leaves sending enabled to its own target |
| `Connections.DisconnectDisconnects` | src/client/client_runtime.cpp:424-460 | A disconnect that runs to its end leaves no endpoint and sending disabled |
| `Connections.RebindEnables` | src/client/client_runtime.cpp:2667-2729 | A rebind that comes to its last step leaves sending enabled to the endpoint asked for last |
| `Connections.SendersDeliver` | src/client/client_runtime.cpp:1753-1806 | While no change gets in between, in any interleaving of any number of senders, exactly one datagram per sender that comes to its end on course goes out, to the endpoint in force |
| `Connections.ConnectedSendersDeliver` | src/client/client_runtime.cpp:1753-1806 | After a connect that got through and until the next change, exactly the senders that come to their end on course have had one datagram each handed over, to that connect's target |
| `Connections.NoDeadlock` | src/client/client_runtime.cpp:1753-1806 | In every reachable state some unfinished thread can move |
| `SerialNumbers.BeforeAgrees` | src/common/sequence_tracker.h:17-27 | Within half the number space the 32-bit comparison is the order of the counters |
| `SerialNumbers.RangeAgrees` | src/common/sequence_tracker.h:108-117 | The unsigned-offset range test is the plain one while numbers lie within half the number space |
| `SerialNumbers.WrapDistance` | src/common/sequence_tracker.h:17-27 | An older counter is taken for a newer one exactly when it is more than half the number space behind, modulo 2^32 |
| `SequenceTracker.RememberedCovers` | src/common/sequence_tracker.h:85-106 | Remembering a gap adds only that gap, and keeps everything else unless the list was full |
| `SequenceTracker.RememberedSlots` | src/common/sequence_tracker.h:85-106 | A gap that goes on where a range ends takes no new slot; any other takes one while there is one |
| `SequenceTracker.RemovedCovers` | src/common/sequence_tracker.h:119-164 | A late arrival removes exactly its number from the missing ones, whichever way its range shrinks or splits, and more only if the list was full |
| `SequenceTracker.OldestIs` | src/common/sequence_tracker.h:177-190 | The range given up is the one with the lowest first number among those not excluded |
| `WordTracker.RecordAgrees` | src/common/sequence_tracker.h:31-164 | On 32-bit words one arrival does exactly what it does on counters, all fields and the reported delta, while the arrival and the held ranges lie within half the number space of the next number |
| `WordTracker.RunsAgree` | src/common/sequence_tracker.h:31-199 | So does every run of such arrivals, so all that is proved on counters holds of the words |
| `WordTracker.NeverQueuedAgain` | src/common/sequence_tracker.h:31-62 | On words, in every such run, repeated and reordered at will and even when ranges are forgotten, a number that arrived before is never passed on again |
| `WordTracker.QueuedAtFirstArrival` | src/common/sequence_tracker.h:31-62 | If besides the 64 ranges do not fill up, an arrival is passed on if and only if it is the first of its number and not older than the first number seen |
| `WordTracker.MissingOnWords` | src/common/sequence_tracker.h:85-164 | In every such run what the ranges hold has not arrived, and while they do not fill up they hold exactly the numbers after the first arrival that have not arrived |
| `WordTracker.CountersOnWords` | src/common/sequence_tracker.h:31-199 | The unresolved counter is exactly what the ranges hold, so its saturating decrement never saturates; while they do not fill up, gaps detected equal gaps recovered plus unresolved |
| `WordTracker.QueuedAgainIff` | src/common/sequence_tracker.h:31-62 | Beyond that, a number behind the next is passed on if and only if it looks new modulo 2^32 or lies whole turns away from one still taken for missing |
| `WordTracker.QueuedTwiceBeyond` | src/common/sequence_tracker.h:31-62 | A concrete run in which a number is passed on twice that way |
| `WordTracker.ArrivalTracker.constructor` | src/common/sequence_tracker.h:192-199 | Starts with nothing seen and nothing missing |
| `WordTracker.ArrivalTracker.OldestIndex` | src/common/sequence_tracker.h:177-190 | The index loop finds the oldest range |
| `WordTracker.ArrivalTracker.EraseAt` | src/common/sequence_tracker.h:166-171 | The last range takes the erased one's place |
| `WordTracker.ArrivalTracker.RememberMissingRange` | src/common/sequence_tracker.h:85-106 | The array after remembering a gap, including extension and eviction |
| `WordTracker.ArrivalTracker.SplitWhenFull` | src/common/sequence_tracker.h:147-160 | Splitting a range with every slot taken gives up the oldest other range |
| `WordTracker.ArrivalTracker.RemoveMissing` | src/common/sequence_tracker.h:119-164 | The array and counter after a late arrival, in all five cases |
| `WordTracker.ArrivalTracker.RecordArrival` | src/common/sequence_tracker.h:31-62 | Whole new tracker state and the reported delta, on 32-bit words |
| `DropRanges.WithDropDisjoint` | src/client/participant_info.h:594-630 | Recording a number not yet held keeps the 64 slots disjoint |
| `DropRanges.WithDropCovers` | src/client/participant_info.h:594-630 | A recorded number is held, and nothing is invented |
| `DropRanges.TakenOutIs` | src/client/participant_info.h:632-663 | A consumed number is gone and nothing is invented; a middle number may give up the rest of its range |
| `DropRanges.ConsumedCounts` | src/client/participant_info.h:665-691 | Over disjoint slots the count given up for a stretch is the number of distinct numbers given up |
| `DropRanges.ConsumedWithin` | src/client/participant_info.h:665-691 | Over disjoint slots no more is given up than the stretch is long |
| `DropRanges.OverlapOvercounts` | src/client/participant_info.h:665-691 | With one number in two slots a stretch of three gives up four |
| `DropRanges.CutAllDisjoint` | src/client/participant_info.h:665-691 | Giving up a stretch keeps the slots disjoint |
| `WordDrops.WithDropAgrees` | src/client/participant_info.h:594-630 | On 32-bit words, recording a drop does exactly what it does on counters, absorbing, filling or overwriting the same slot, while numbers lie in one half of the number space and slots no further back than the other |
| `WordDrops.TakenOutAgrees` | src/client/participant_info.h:632-663 | Likewise consuming a number: whether it is found, and the slots afterwards |
| `WordDrops.CutAllAgrees` | src/client/participant_info.h:665-691 | Likewise giving up a stretch |
| `WordDrops.ConsumedAgrees` | src/client/participant_info.h:665-691 | Likewise the 32-bit count of what is given up |
| `WordDrops.OldSlotHoldsAgain` | src/client/participant_info.h:632-663 | Beyond that, a slot left a whole turn behind is taken to hold the number again |
| `WordDrops.ReceiverDroppedRanges.constructor` | src/client/participant_info.h:693-697 | All slots empty |
| `WordDrops.ReceiverDroppedRanges.Record` | src/client/participant_info.h:594-630 | The slots after recording a drop |
| `WordDrops.ReceiverDroppedRanges.Consume` | src/client/participant_info.h:632-663 | Found exactly if some slot holds the number; the slots afterwards |
| `WordDrops.ReceiverDroppedRanges.ConsumeRange` | src/client/participant_info.h:665-691 | The slots and the count after giving up a stretch |
| `WordHistory.EveryWordOnce` | src/client/participant_info.h:291-430 | On 32-bit words, in every run in which what is queued, recorded and arriving lies in one half of the number space, the numbers playout has passed since it started are consecutive modulo 2^32: each was played, concealed, skipped, abandoned or trimmed exactly once and in order; what was played had arrived, and what was counted as the receiver's drop had been dropped |
| `WordHistory.TimelyWordIsPlayed` | src/client/participant_info.h:291-430 | On words, in every such run, a packet that was in the list in time and was not recorded as dropped, trimmed before playout started or forgotten is played or trimmed at its own place: it is never concealed, skipped or abandoned |
| `WordHistory.StepAgrees` | src/client/participant_info.h:66-430 | One arrival, drop, take, trim or clear on words does exactly what it does on counters: list, position, gap wait, drop slots, counters and history |
| `WordHistory.RunsAgree` | src/client/participant_info.h:66-430 | So does every run |
| `WordQueue.DequeueAgrees` | src/client/participant_info.h:333-430 | What playout is handed on words, and the queue it leaves, are those on counters |
| `WordQueue.AdmitAgrees` | src/client/participant_info.h:291-331 | So is the list after a packet reaches it, late, known, overflowing or new |
| `WordQueue.FreshAgrees` | src/client/participant_info.h:527-536 | So is what is thrown away as stale |
| `FarPackets.InTimeErasedIff` | src/client/participant_info.h:527-536 | Beyond that, a packet not behind playout is thrown away as stale if and only if it is more than half the number space ahead, modulo 2^32 |
| `FarPackets.StartKeepsAllIff` | src/client/participant_info.h:344-352 | Playout starts without throwing a packet away if and only if one queued packet compares as before all the others |
| `FarPackets.TimelyPacketLost` | src/client/participant_info.h:333-430 | Runs of three packets round the number space, such as 0, 2^31 - 400 and 2^32 - 410, in which the last is played first and the middle one, in time and never dropped, is thrown away |
| `PlayoutQueue.AbandonedAddUp` | src/client/participant_info.h:380-408 | Whatever playout is handed accounts for every number it moves past; the unsigned subtraction splitting abandoned numbers into gaps and drops never wraps |
| `PlayoutQueue.SkipShrinks` | src/client/participant_info.h:362-377 | Every number skipped as a drop had been recorded as dropped |
| `DropAccounting.TakesAttribute` | src/client/participant_info.h:355-421 | In every run, at every take: what is skipped is recorded as the receiver's drop, what is concealed is not, the drops counted among numbers given up are exactly those recorded, and the record of everything ahead stays as it was |
| `DropAccounting.RecordedIsCounted` | src/client/participant_info.h:104-118 | In every run, a number recorded as dropped ahead of playout, its record not overwritten, is never concealed, played or trimmed: playout passes it as a skipped drop or among those given up |
| `DropAccounting.RecordsExactly` | src/client/participant_info.h:291-331 | Arrivals, refusals and trims record exactly the numbers they drop and lose no record, unless all 64 slots are taken: then the one overwritten |
| `DropAccounting.WithDropExact` | src/client/participant_info.h:594-630 | Recording loses nothing, except the range in slot n modulo 64 when no slot is empty and none can take the number in |
| `DropAccounting.ConsumedExact` | src/client/participant_info.h:665-691 | The drops counted for a stretch given up are the recorded numbers in it, with no range lying across playout |
| `DropAccounting.AlwaysInStep` | src/client/participant_info.h:291-430 | In every run no recorded range lies across playout and nothing queued is behind it |
| `TimelyPackets.ArrivalGetsIn` | src/client/participant_info.h:291-331 | A new number not behind playout gets into the list unless all 128 in it are lower; a full list gives up its highest number for it, and nothing else ever |
| `TimelyPackets.TrimRemovesLowest` | src/client/participant_info.h:160-196 | A trim that is not blocked removes the lowest number and nothing else |
| `PlayoutProgress.WithoutPacketAtMost` | src/client/participant_info.h:355-421 | On words, from a started queue that holds a packet in time, takes waiting at most g times at a gap go without a packet at most g + 2 times, and g times more for each drop that arrives for the number waited for |
| `PlayoutProgress.HandsOutWithin` | src/client/participant_info.h:355-430 | So one of any g + 3 takes hands out a packet, unless such a drop arrives |
| `PlayoutProgress.WaitsAndConcealments` | src/client/participant_info.h:383-421 | Playout waits only outside a run of concealments, at most as often as it may, and conceals at most two numbers in a row |
| `PlayoutProgress.HandsOutLowest` | src/client/participant_info.h:355-430 | On words, in one half of the number space, the packet handed out is a queued one and the lowest of those not behind playout |
| `PlayoutProgress.LowestOnCounters` | src/client/participant_info.h:503-511 | The same on counters |
| `WordQueue.EarliestAgrees` | src/client/participant_info.h:503-511 | The scan with 32-bit comparisons finds the lowest number |
| `WordQueue.LatestAgrees` | src/client/participant_info.h:513-521 | And the highest |
| `WordQueue.SkipAgrees` | src/client/participant_info.h:362-366 | The skip loop on words passes over the same drops |
| `WordQueue.GiveUpAgrees` | src/client/participant_info.h:383-408 | The unsigned split of abandoned numbers is the one on counters |
| `WordQueue.OpusPacketQueue.constructor` | src/client/participant_info.h:226-250 | An empty queue, not started |
| `WordQueue.OpusPacketQueue.EarliestIndex` | src/client/participant_info.h:503-511 | The scan for the packet that compares as earliest |
| `WordQueue.OpusPacketQueue.LatestIndex` | src/client/participant_info.h:513-521 | The scan for the packet that compares as latest |
| `WordQueue.OpusPacketQueue.HasSequence` | src/client/participant_info.h:432-439 | Found exactly if queued |
| `WordQueue.OpusPacketQueue.DiscardStale` | src/client/participant_info.h:527-536 | Leaves exactly the packets not behind playout |
| `WordQueue.OpusPacketQueue.RecordReceiverDrop` | src/client/participant_info.h:104-118 | Recorded unless already played |
| `WordQueue.OpusPacketQueue.AdmitPacket` | src/client/participant_info.h:291-331 | What one admitted packet does to the list: stale, duplicate, overflow or queued |
| `WordQueue.OpusPacketQueue.SkipDropped` | src/client/participant_info.h:362-366 | Passes over recorded drops up to the next packet |
| `WordQueue.OpusPacketQueue.ShouldWait` | src/client/participant_info.h:545-566 | Waits for at most the given number of callbacks per gap |
| `WordQueue.OpusPacketQueue.TakeAtGap` | src/client/participant_info.h:383-421 | Wait, abandon or conceal at a gap |
| `WordQueue.OpusPacketQueue.TakeMissing` | src/client/participant_info.h:358-421 | A missing number: skip recorded drops, then play or handle the gap |
| `WordQueue.OpusPacketQueue.TakeFresh` | src/client/participant_info.h:355-430 | In-order play or the missing-number path |
| `WordQueue.OpusPacketQueue.DequeueForPlayout` | src/client/participant_info.h:333-430 | Whole new queue and what playout gets |
| `WordQueue.OpusPacketQueue.DiscardOldest` | src/client/participant_info.h:160-196 | A latency trim gives up the earliest packet and advances playout or records the drop |
| `ReceivePipeline.PlayoutPassesEachNumberOnce` | src/client/client_runtime.cpp:5202-5272 | End to end, with tracker and queue on 32-bit words, whatever the network loses, repeats or reorders and whatever the queue refuses or trims: playout passes the sender's numbers one by one modulo 2^32, each exactly once; a number played was received, and a number counted as the receiver's drop was dropped |
| `ReceivePipeline.TimelyIsHeard` | src/client/client_runtime.cpp:5202-5272 | And a packet that reached the list in time is played, or trimmed at its place |
| `ReceivePipeline.FirstCopyGoesOn` | src/client/client_runtime.cpp:5202-5272 | While the tracker's ranges do not fill up, the queue is given the first copy of every number not older than the first received, as a packet if admitted and as its own drop if refused, and nothing else; a refused packet of a muted sender leaves no trace |
| `ReceivePipeline.FirstCopyIsQueued` | src/client/client_runtime.cpp:5202-5272 | So the first copy of a number, admitted while playout has not passed it, is in the list in time unless all 128 packets of a full list are lower |
| `ReceivePipeline.PassedOnIsNew` | src/common/sequence_tracker.h:13-15 | A number the arrival tracker passes on was never received before |
| `ReceivePipeline.AlwaysInv` | src/client/client_runtime.cpp:5202-5272 | For every run of events the tracker gives the queue each number once, and the queue knows only what was received |
| `ReplayWindow.AcceptedIff` | src/common/replay_window.h:9-38 | A packet is let through if and only if its number is not 0 on the wire, is newer than all before or fewer than 64 behind, and has not been let through |
| `ReplayWindow.AtMostOnce` | src/common/replay_window.h:9-38 | However packets are repeated and reordered, no number is let through twice |
| `ReplayWindow.AlwaysDescribes` | src/common/replay_window.h:22-37 | The 64 bits always say which of the last 64 numbers went through |
| `ReplayWindow.PassesAgainIff` | src/common/replay_window.h:9-43 | After any run in reach, a number that got through gets through again if and only if it is more than half the number space behind, or whole turns behind where one of the last 64 has not arrived |
| `ReplayWindow.AgainIff` | src/common/replay_window.h:9-43 | The same of one window, whatever its 64 bits |
| `ReplayWindow.PassesAgainBeyondReach` | src/common/replay_window.h:41-43 | Every number more than half the number space behind is let through again |
| `ReplayWindow.ReplayedBeyondReach` | src/common/replay_window.h:41-43 | Such a run |
| `ReplayWindow.Guard.AcceptNumber` | src/common/replay_window.h:9-38 | The answer and the whole new window |
| `PcmLedger.TakeConserves` | src/client/pcm_delivery_outcomes.h:60-77 | Consuming frames loses no packet: each received one is counted delivered or still in the ledger, and exactly the frames asked for leave |
| `PcmLedger.TakeInPieces` | src/client/pcm_delivery_outcomes.h:60-77 | Consuming in pieces counts the same packets as consuming at once |
| `PcmLedger.TakeIs` | src/client/pcm_delivery_outcomes.h:60-77 | A received packet counts as delivered exactly if its last frame lies within the frames consumed |
| `PcmLedger.PcmDeliveryOutcomes.constructor` | src/client/pcm_delivery_outcomes.h:111-115 | An empty ring |
| `PcmLedger.PcmDeliveryOutcomes.Append` | src/client/pcm_delivery_outcomes.h:45-58 | The ring holds the old chunks and the new one, or refuses when full |
| `PcmLedger.PcmDeliveryOutcomes.ConsumeOldest` | src/client/pcm_delivery_outcomes.h:64-75 | One turn of the consuming loop |
| `PcmLedger.PcmDeliveryOutcomes.Consume` | src/client/pcm_delivery_outcomes.h:60-77 | The ring and the delivered count after consuming frames are those of the plain queue |
| `PcmLedger.PcmDeliveryOutcomes.PendingReceived` | src/client/pcm_delivery_outcomes.h:89-96 | The number of received packets in the ring |
| `PcmLedger.PcmDeliveryOutcomes.Clear` | src/client/pcm_delivery_outcomes.h:98-101 | Empties the ring |
| `PcmLedger.PcmDeliveryOutcomes.DiscardAllAsLost` | src/client/pcm_delivery_outcomes.h:79-83 | Empties the ring and returns its received packets |
| `Resampler.RequiredInputIsExact` | src/client/client_runtime.cpp:3326-3336 | The required-input test holds if and only if no output frame reads past what is buffered |
| `Resampler.SampleAtIs` | src/client/client_runtime.cpp:3338-3377 | At a whole position the buffered frame itself, in between the straight line to the next |
| `Resampler.LineBetween` | src/client/client_runtime.cpp:3338-3377 | Interpolation stays between the two frames |
| `Resampler.MixKeepsPosition` | src/client/client_runtime.cpp:3338-3377 | The mixer keeps the exact stream position if and only if it does not run out or runs out on the dot; otherwise it forgets less than one ratio of a frame |
| `Resampler.TailDrains` | src/client/client_runtime.cpp:3379-3430 | When the required-input test fails, the tail mixer empties the buffer and zeroes the phase |
| `Resampler.TailKeepsPosition` | src/client/client_runtime.cpp:3379-3430 | Entered because the required-input test failed at the ratio read first, and mixing at the ratio read anew, the tail mixer keeps the stream position if and only if the output spans whole frames without running out, or it runs out on the dot |
| `Resampler.TailCanSlip` | src/client/client_runtime.cpp:3379-3430 | 481 buffered frames, 480 to play and a ratio that falls from 1.005 to 1.0005 between the readings: 0.24 of a frame is forgotten |
| `Resampler.TailIs` | src/client/client_runtime.cpp:3379-3430 | The tail plays the buffer, holds the last frame to its end, and from the first output frame beyond lets it fade by one more n-th per frame |
| `Resampler.FadeFalls` | src/client/client_runtime.cpp:3379-3430 | The fade falls in equal steps from one to zero over the callback |
| `Resampler.RunKeepsPosition` | src/client/client_runtime.cpp:3272-3377 | Over any run that never runs out, frames consumed plus phase equal the initial phase plus all output frames times their ratios |
| `Resampler.PcmBuffer.constructor` | src/client/participant_info.h:726-729 | An empty buffer at phase zero |
| `Resampler.PcmBuffer.Append` | src/client/client_runtime.cpp:5617-5630 | Decoded frames follow the buffered ones |
| `Resampler.PcmBuffer.Consume` | src/client/client_runtime.cpp:3272-3287 | Consuming moves the rest to the front, and zeroes the phase on a drain |
| `Resampler.PcmBuffer.MixResampled` | src/client/client_runtime.cpp:3338-3377 | Every output frame gains the linear interpolation at its exact position, and the position advances |
| `Resampler.PcmBuffer.MixAvailableWithTail` | src/client/client_runtime.cpp:3379-3430 | Every output frame gains the interpolated or faded sample, and the position advances |
| `Playout.ParticipantPlayout.RunCallback` | src/client/client_runtime.cpp:5419-5896 | For every script the queue can produce and every decode result, what is heard, what stays buffered, what is delivered and what is dropped are those of the playout model; packets taken off the queue, its drops and the trims all end delivered, dropped or in the ledger, each exactly once; packets lost in the network are counted once |
| `Playout.ParticipantPlayout.PlayFull` | src/client/client_runtime.cpp:5773-5786 | Every output frame gains the interpolated buffer; the frames consumed leave the ledger and are counted delivered |
| `Playout.ParticipantPlayout.PlayTail` | src/client/client_runtime.cpp:5787-5799 | Every output frame gains the rest of the buffer and its fade; the buffer and the ledger are settled |
| `Playout.ParticipantPlayout.DropBuffered` | src/client/client_runtime.cpp:3913-3920 | Everything buffered counts as receiver drops |
| `Playout.ParticipantPlayout.Decode` | src/client/client_runtime.cpp:5554-5608 | A failed decode is a drop, a concealment settles the packet it stands for |
| `Playout.ParticipantPlayout.Store` | src/client/client_runtime.cpp:5617-5643 | Decoded audio joins buffer and ledger, or everything is dropped on overflow |
| `Playout.ParticipantPlayout.TakeYoungPacket` | src/client/client_runtime.cpp:5500-5531 | The age-limit scan: each over-age packet is a drop, and no packet's abandoned counts are missed |
| `Playout.ParticipantPlayout.AddPacket` | src/client/client_runtime.cpp:5655-5751 | A packet taken after the scan is accounted for in full |
| `Playout.ParticipantPlayout.FillBuffer` | src/client/client_runtime.cpp:5645-5755 | Further packets are decoded while the buffer is short, and accounted for |
| `Playout.ParticipantPlayout.PlayOrDecode` | src/client/client_runtime.cpp:5466-5805 | Plays from the buffer if it holds enough, otherwise decodes; accounting holds on every branch |
| `Playout.ParticipantPlayout.PlayBuffered` | src/client/client_runtime.cpp:5773-5805 | Plays the buffer in full if it suffices, as a tail if it does not, and leaves the output alone if it is empty |
| `Playout.ParticipantPlayout.DecodePackets` | src/client/client_runtime.cpp:5500-5755 | The age scan, the first packet and the fill loop, as the model says |
| `Playout.WhatIsHeard` | src/client/client_runtime.cpp:5466-5805 | On the path that decodes, with no reset and nothing overflowing: what is played is exactly what was buffered followed by the audio of the packets taken, and the drops are exactly the packets over age and those the packets carry with them |
| `PlayerModel.DecodingIs` | src/client/client_runtime.cpp:5500-5755 | Packets over age, with what was abandoned before them, are drops; if a young packet comes, it and what follows are decoded; nothing is mixed if none comes |
| `PlayerModel.YoungLeads` | src/client/client_runtime.cpp:5500-5755 | From the first young packet on, what is buffered and waits in the ledger is the end of what was there followed by the audio and chunks of the packets taken, all of it unless a reset or an overflow came; the drops are those they carry and the received packets no longer buffered |
| `PlayerModel.FillsUp` | src/client/client_runtime.cpp:5645-5755 | Filling stops only with enough audio buffered, the budget spent, an empty queue or a packet that could not be used |
| `PlayerModel.BudgetSpent` | src/client/client_runtime.cpp:5645-5755 | Every packet the fill loop takes costs one of the work budget, and nothing else does |
| `PlayerModel.ResetStartsOver` | src/client/client_runtime.cpp:5554-5608 | A packet that resets the decoder leaves only its own audio, at the start of a frame, and every received packet still waiting is a drop |
| `PlayerModel.OverflowLosesAll` | src/client/client_runtime.cpp:5617-5643 | Audio that does not fit is dropped with everything buffered |
| `PlayerModel.DecodingAccounts` | src/client/client_runtime.cpp:5500-5755 | Each packet taken off the queue meanwhile is accounted for, dropped or waiting, exactly once, and those lost in the network are counted |
| `QueueScripts.ScriptsFromQueue` | src/client/participant_info.h:333-430 | Whatever arrives, is trimmed or forgotten between takes, what the queue hands out meets what the callback relies on: after a packet, the next carries no abandoned counts |
| `QueueScripts.PlayThenClean` | src/client/participant_info.h:380-430 | In every run of the queue the output after a packet abandons nothing |
| `EndToEnd.EachNumberReportedOnce` | src/client/client_runtime.cpp:5419-5896 | Queue and callback together, over whole sessions: what the callbacks report as delivered, dropped, waiting or lost, and the skipped drops still to be collected, are exactly the numbers playout has passed and the packets trimmed before it started |
| `EndToEnd.StepReports` | src/client/participant_info.h:160-430 | Each action of the queue lengthens the history by exactly what it hands out, skips as a drop or trims |
| `ClockOffset.PingBound` | src/client/client_runtime.cpp:4787-4796 | With non-negative one-way delays, an offset sample is off by at most half the round trip plus one nanosecond |
| `ClockOffset.EstimateWithinUncertainty` | src/client/clock_offset_estimator.h:20-46 | For every run of physical pings and a constant true offset, the estimate is off by at most the reported uncertainty plus 15 ns |
| `ClockOffset.BlendKeepsBound` | src/client/clock_offset_estimator.h:37-43 | One truncating integer average keeps that bound |
| `ClockOffset.EstimateWithinSamples` | src/client/clock_offset_estimator.h:20-46 | Whatever pings claim, the estimate stays within the range of their offsets, so products stay within 64 bits |
| `ClockOffset.GateIsExact` | src/client/clock_offset_estimator.h:31-35 | From the fifth accepted sample on, a sample is admitted exactly if its round trip is within half again plus 2 ms of every one of the last 32 |
| `ClockOffset.EstimateFollows` | src/client/clock_offset_estimator.h:20-46 | From any state, after 31 pings of one round trip and one offset each further one brings offset and uncertainty at least 1 ns closer to theirs, until within 7 ns, and there they stay |
| `ClockOffset.FirstFourAdmitted` | src/client/clock_offset_estimator.h:31-43 | The first four pings are let in whatever their round trip, and the first sets the estimate |
| `ClockOffset.Estimator.constructor` | src/client/clock_offset_estimator.h:60-73 | Starts like an estimator that has seen nothing |
| `ClockOffset.Estimator.Observe` | src/client/clock_offset_estimator.h:20-46 | The new state is the tracked average over the history; a negative round trip changes nothing |
| `ClockOffset.Estimator.WindowMinimum` | src/client/clock_offset_estimator.h:27-29 | The minimum over the ring is the minimum of the last 32 round trips |
| `ClockOffset.Estimator.Record` | src/client/clock_offset_estimator.h:24-26 | The ring holds the last 32 round trips |
| `ClockOffset.Estimator.HandlePing` | src/client/client_runtime.cpp:4787-4815 | Derives round trip and offset and feeds the estimator |
| `ClockOffset.Estimator.Reset` | src/client/clock_offset_estimator.h:48-56 | Back to having seen nothing |
| `DeliveryReports.TotalIsLifetimeSum` | src/client/delivery_report_feedback.h:35-49 | The running total is the sum of the last reading of every media lifetime, however often the counter restarts |
| `DeliveryReports.ReportsOrdered` | src/client/client_runtime.cpp:4548-4595 | Whatever is observed, torn down, dropped and recreated, reports leave with rising sequence, non-falling epoch and, within an epoch, strictly growing totals |
| `DeliveryReports.ImplausibleIff` | src/client/client_runtime.cpp:4842-4900 | Reports lost, repeated and reordered at will among other control packets, once through the replay window, are never judged implausible if and only if the reporter keeps every epoch within half the sequence space |
| `DeliveryReports.BeyondWindowImplausible` | src/client/delivery_report_feedback.h:81-118 | Outside that window some delivery order gets through the replay window and is judged implausible |
| `DeliveryReports.IncrementsTelescope` | src/client/delivery_report_feedback.h:81-118 | Between two points of one epoch, whatever arrives, increments add up to the difference of the reporter's totals |
| `DeliveryReports.AppliedFallsShort` | src/client/delivery_report_feedback.h:110-117 | What is applied adds up to the same if and only if no interval was too large to apply |
| `DeliveryReports.HeldIsHighest` | src/client/delivery_report_feedback.h:81-118 | For every delivery of a reporter's log, lossy, repeated and reordered, with its reports within half the number space of each other: the report held is the one with the highest counter that got through the replay window |
| `DeliveryReports.LaterIsTaken` | src/client/delivery_report_feedback.h:81-118 | With a report held, an earlier one is stale; a later one of the same epoch is taken and applied exactly if its totals exceed those held by at most 1024 together, and rebaselined otherwise; one of a later epoch becomes the new base |
| `DeliveryReports.EpochAddsUp` | src/client/delivery_report_feedback.h:81-118 | The increments since the first report of an epoch that got through add up to the totals of the highest one minus those of that first |
| `DeliveryReports.NeverBack` | src/client/delivery_report_feedback.h:81-118 | Whatever arrives, number and epoch held never go back, and a report without either changes nothing |
| `DeliveryReports.SentIff` | src/client/client_runtime.cpp:4548-4595 | A report leaves exactly if there is an accumulator and a total has changed since the last one, with the sums over all lifetimes and the next number |
| `DeliveryReports.NewAccumulatorReports` | src/client/client_runtime.cpp:4548-4595 | A new accumulator reports what it has seen under an unused epoch as soon as there is anything |
| `DeliveryReports.AppliedWithinGenerated` | src/client/client_runtime.cpp:4876-4928 | For every run of reports, true or made up, applied outcomes are at most the claims, which never fall and never exceed the packets generated |
| `DeliveryReports.ClaimsCoverApplied` | src/client/client_runtime.cpp:4876-4928 | One report raises the claims by at least what it applies and at most to what was generated |
| `DeliveryReports.JudgedIff` | src/client/client_runtime.cpp:4876-4928 | A first report is taken, its claims reckoned from 1024 packets back; increments are applied exactly if the claims still fit the packets generated; a new base is taken with as many claims as fit |
| `DeliveryReports.LifetimeCounter.constructor` | src/client/delivery_report_feedback.h:35-37 | Counts from zero |
| `DeliveryReports.ReportState.ObserveReport` | src/client/delivery_report_feedback.h:81-118 | The new state and the delta, in all cases |
| `DeliveryReports.Outcomes.HandleReport` | src/client/client_runtime.cpp:4876-4928 | The reporter's entry, feedback, pending flag and drop count after a report; other entries unchanged |
| `RobustLoss.RobustLossRate` | src/client/delivery_report_feedback.h:63-79 | No rate exactly if nobody has a say; otherwise the lower median of the eligible rates |
| `RobustLoss.OrderIrrelevant` | src/client/delivery_report_feedback.h:63-79 | The same reports in any order give the same rate |
| `RobustLoss.LowerMedianUnique` | src/client/delivery_report_feedback.h:63-79 | There is only one lower median |
| `RobustLoss.NotBelowHonest` | src/client/delivery_report_feedback.h:63-79 | With fewer altered than unaltered reporters the rate is no lower than some unaltered one |
| `RobustLoss.NotAboveHonest` | src/client/delivery_report_feedback.h:63-79 | With no more altered than unaltered reporters the rate is no higher than some unaltered one |
| `RobustLoss.MajorityDecides` | src/client/delivery_report_feedback.h:63-79 | Both bounds are the best possible |
| `RobustLoss.Sort` | src/client/delivery_report_feedback.h:77-77 | Sorted, and a permutation |
| `ChatLog.ShowsNewestAlways` | src/client/client_runtime.cpp:1982-2031 | After every run the list is ascending, at most 100 long, and misses a number taken since the last clear only if it is full of newer ones |
| `ChatLog.ListDetermined` | src/client/client_runtime.cpp:2013-2024 | Two lists with that property for the same numbers are the same list of numbers |
| `ChatLog.SameChatShown` | src/client/client_runtime.cpp:1982-2031 | Clients that took the same numbers, in any order and with repeats, show the same messages and last-seen number |
| `ChatLog.LastSeenIsHighest` | src/client/client_runtime.cpp:2002-2003 | Last-seen is the highest number taken |
| `ChatLog.OnlyCurrentEpoch` | src/client/client_runtime.cpp:2317-2336 | Every message shown carries the current access epoch |
| `ChatLog.NeverAskedNoHole` | src/client/client_runtime.cpp:1997-2001 | A client that never asked for history has every number from the first it took to the newest |
| `ChatLog.AskedIff` | src/client/client_runtime.cpp:1997-2001 | History is asked for exactly when a message not shown is taken and numbers between the highest taken before and it are missing, all of them; past the last 64-bit number, at any number but 0 |
| `ChatLog.UnreadIs` | src/client/client_runtime.cpp:1988-2028 | The unread count is the number of distinct new messages of others since the dialog was opened or the chat cleared, plus one for every repeat of a message already pushed out of the hundred; it counts distinct messages exactly if there was no such repeat |
| `ChatLog.PendingIs` | src/client/client_runtime.cpp:1940-2140 | A nonce is pending exactly if its message was sent and has since neither come back, nor been refused or given up, nor been cleared |
| `ChatLog.RecountIff` | src/client/client_runtime.cpp:1988-2028 | A repeat counts again if and only if it is older than everything shown |
| `ChatLog.RepeatRaisesUnread` | src/client/client_runtime.cpp:1988-2028 | Runs in which that happens, of any length over a hundred |
| `ChatLog.ChatState.constructor` | src/client/client_runtime.cpp:6185-6189 | An empty chat |
| `ChatLog.ChatState.ClearChatState` | src/client/client_runtime.cpp:1853-1862 | Nothing kept but the dialog state |
| `ChatLog.ChatState.FindNumber` | src/client/client_runtime.cpp:1988-1996 | Found exactly if shown |
| `ChatLog.ChatState.Insert` | src/client/client_runtime.cpp:2013-2024 | The message takes its place and what exceeds 100 goes |
| `ChatLog.ChatState.AcceptChatMessage` | src/client/client_runtime.cpp:1982-2033 | Whole new chat state and whether to ask for history |
| `ChatLog.ChatState.HandleChatEvent` | src/client/client_runtime.cpp:2036-2072 | Only readable events of the current epoch are taken |
| `Metronome.AlwaysNumbered` | src/client/client_metronome.cpp:94-110 | applied <= prepared <= pending in every run whose numbers do not run out |
| `Metronome.BeatsFillTheMinute` | src/client/client_metronome.cpp:174-179 | A beat interval is a minute's samples divided by the tempo, to within one sample |
| `Metronome.BeatClicks` | src/client/client_metronome.cpp:124-161 | Every beat of a timeline starts with its click, and every fourth beat is a downbeat |
| `Metronome.SyncWaits` | src/client/client_metronome.cpp:94-110 | A sync without a number or with a newer one waits in full, its signed tempo brought to between 30 and 240 beats a minute; any other changes nothing |
| `Metronome.TempoAlwaysInRange` | src/client/client_metronome.cpp:94-110 | In every run the tempo stays between 30 and 240 beats a minute |
| `Metronome.PlacedOnce` | src/client/client_metronome.cpp:181-196 | A schedule once placed in the sample stream is not moved by later callbacks |
| `Metronome.StepNumbered` | src/client/client_metronome.cpp:94-110 | One call breaks that order if and only if an unnumbered sync arrives at pending number 2^32 - 1 with something prepared |
| `Metronome.NumbersRunOut` | src/client/client_metronome.cpp:94-110 | A concrete run in which that happens |
| `Metronome.NewestApplied` | src/client/client_metronome.cpp:112-162 | A callback applies nothing but the newest accepted sync, all of it, and exactly by the buffer that reaches its sample |
| `Metronome.MixApplies` | src/client/client_metronome.cpp:198-218 | A buffer applies what is prepared exactly if it falls before the buffer's end; everything else stays |
| `Metronome.EffectiveIsExact` | src/client/client_metronome.cpp:168-196 | The effective sample is the exact instant rounded down if prepared before it and up if late, whichever buffer prepared it |
| `Metronome.BufferFollowsTimeline` | src/client/client_metronome.cpp:124-161 | The click at frame k of a buffer is the one the absolute sample position gives, up to the sample at which the next schedule takes effect |
| `Metronome.BufferStaysOnTimeline` | src/client/client_metronome.cpp:124-161 | A buffer before that ends on beat scheduled beat + 1 + floor((cursor - effective) / interval) and stays on the timeline |
| `Metronome.StreamFollowsTimeline` | src/client/client_metronome.cpp:94-162 | However the samples are cut into buffers and whatever syncs arrive between them, every click sounds where the timeline puts it until the sample at which the next schedule takes effect |
| `Metronome.ApplyingStartsTimeline` | src/client/client_metronome.cpp:198-218 | The buffer that applies a running sync leaves the metronome on its timeline |
| `Metronome.ApplyingFrameBeat` | src/client/client_metronome.cpp:118-138 | In the applying buffer an on-time change shows the right beat if and only if beats counted in the old interval have not drifted by a whole one |
| `Metronome.TempoChangeShowsWrongBeat` | src/client/client_metronome.cpp:118-138 | Runs from the start: changing from 120 to 60 beats a minute at beat 8, the applying frame shows beat 17 |
| `Metronome.ClientMetronome.constructor` | src/client/client_metronome.h:48-67 | Initial state |
| `Metronome.ClientMetronome.ScheduleSync` | src/client/client_metronome.cpp:94-110 | Whole new pending schedule, or none if not newer |
| `Metronome.ClientMetronome.PrepareSchedule` | src/client/client_metronome.cpp:181-196 | Effective sample and number prepared |
| `Metronome.ClientMetronome.ApplyDueSchedule` | src/client/client_metronome.cpp:198-218 | Everything a due schedule changes |
| `Metronome.ClientMetronome.MixFrame` | src/client/client_metronome.cpp:124-161 | One frame: beat, click and cursor |
| `Metronome.ClientMetronome.MixClick` | src/client/client_metronome.cpp:112-162 | Whole new state and the clicks of a buffer |
| `TxAccumulator.CallbackSizesIrrelevant` | src/client/client_runtime.cpp:3210-3263 | For any callback sizes between resets at a fixed target: emitted frames followed by what waits are the captured samples in order, each frame has the target length, and each carries its first sample's capture time |
| `TxAccumulator.RestLength` | src/client/client_runtime.cpp:3238-3262 | What waits is what is left over whole frames |
| `TxAccumulator.OutOfFrameOnlyUnseen` | src/client/client_runtime.cpp:944-958 | In every interleaving of setters with the callback, which store and load count and reset flag apart, the callback finds its frame overfull only if it has not seen a change whose reset is still to come |
| `TxAccumulator.OnlyAChangeResets` | src/client/client_runtime.cpp:944-958 | Storing the frame count already in force discards nothing; any other owes one reset |
| `TxAccumulator.LoweredBetweenReadings` | src/client/client_runtime.cpp:3217-3262 | Whenever the count is lowered below what waits between the two readings that happens, and the copy stays inside the buffer exactly if it fits |
| `TxAccumulator.OverrunRun` | src/client/client_runtime.cpp:3217-3262 | A run from the start in which it does not fit |
| `TxAccumulator.CutsInPieces` | src/client/client_runtime.cpp:3238-3262 | Cutting the stream can stop and go on anywhere |
| `TxAccumulator.Reassembles` | src/client/client_runtime.cpp:3238-3262 | The chunks followed by the rest are the stream |
| `TxAccumulator.OpusTransmitter.constructor` | src/client/client_runtime.cpp:6058-6064 | Empty accumulator |
| `TxAccumulator.OpusTransmitter.EnqueueSamples` | src/client/client_runtime.cpp:3210-3263 | Frames emitted, samples waiting, reset taken and drop counted for every target, also one below what waits; how much then waits, as in the store-by-store model; and exactly when the copy stays inside the buffer |
| `TxAccumulator.OpusTransmitter.FillAll` | src/client/client_runtime.cpp:3238-3262 | The copying loop emits the chunks of what waited followed by the input |
| `TxAccumulator.OpusTransmitter.Fill` | src/client/client_runtime.cpp:3240-3261 | One turn of the loop |
| `TxAccumulator.OpusTransmitter.SendDirect` | src/client/client_runtime.cpp:3231-3236 | A callback of exactly one frame leaves directly, with the same result |
| `TxAccumulator.OpusTransmitter.TakeReset` | src/client/client_runtime.cpp:3217-3220 | A requested reset discards what waits |
| `PacketDuration.RequestIff` | src/client/congestion_policy.h:45-67 | A path asks for larger packets if and only if two impaired intervals in a row occurred with no three healthy ones in a row since, for histories of any length |
| `PacketDuration.PathsIndependent` | src/client/congestion_policy.h:40-67 | Each path counts as if it were alone |
| `PacketDuration.SizeIff` | src/client/congestion_policy.h:69-79 | The configured size is kept if and only if no path asks or it is large enough anyway |
| `PacketDuration.State.constructor` | src/client/congestion_policy.h:22-31 | Nothing counted |
| `PacketDuration.State.Configure` | src/client/congestion_policy.h:33-38 | Everything forgotten |
| `PacketDuration.State.CountImpaired` | src/client/congestion_policy.h:45-54 | Counters of one path after an impaired interval; others unchanged |
| `PacketDuration.State.CountHealthy` | src/client/congestion_policy.h:55-67 | Counters of one path after a healthy interval; others unchanged |
| `PacketDuration.State.AnyRequested` | src/client/congestion_policy.h:69-74 | Whether any path asks |
| `PacketDuration.State.Update` | src/client/congestion_policy.h:40-80 | All counters and the size in force |
| `Bitrate.AlwaysSafe` | src/client/congestion_policy.h:90-122 | Over every run the target stays within [32000, maximum] and a duplicate is sent only while twice the target fits the maximum |
| `Bitrate.FirstUpdateSafe` | src/client/congestion_policy.h:90-95 | From arbitrary starting values, exactly when the first update is safe |
| `Bitrate.WorseIsNoHigher` | src/client/congestion_policy.h:90-122 | Worse feedback never yields a higher target |
| `Bitrate.DuplicateIff` | src/client/congestion_policy.h:98-121 | A duplicate is sent exactly after an impaired, not severe interval with under 3% loss whose new rate fits the maximum twice, or kept through two healthy ones |
| `Bitrate.SevereTakesAQuarter` | src/client/congestion_policy.h:98-121 | A severe interval takes the greater of 8000 and a quarter, down to the floor; only the third healthy one in a row adds |
| `Bitrate.ImpairedRun` | src/client/congestion_policy.h:98-113 | n impaired intervals lower the target by 8000 each, severe ones by at least that |
| `Bitrate.ReachesFloor` | src/client/congestion_policy.h:98-113 | Congestion reaches 32000 within ceil((target - 32000) / 8000) intervals and stays |
| `Bitrate.HealthyRun` | src/client/congestion_policy.h:115-121 | Exactly where n healthy intervals lead |
| `Bitrate.RestoresMaximum` | src/client/congestion_policy.h:115-121 | The maximum is back if and only if three healthy intervals per missing step have been earned |
| `RateConversion.NoDrift` | src/client/juce_audio_backend.cpp:398-424 | After any run of callbacks no larger than prepared for, engine frames are exactly floor(device frames * engine rate / device rate) and the remainder is the fraction, in [0, 1) |
| `RateConversion.ClampNeverBites` | src/client/juce_audio_backend.cpp:417-424 | The capacity clamp never bites |
| `RateConversion.QueueHoldsLatest` | src/client/juce_audio_backend.cpp:409-442 | Whatever the resampler claims, a queue fits its buffer and holds the latest samples pushed, in order |
| `RateConversion.NothingLost` | src/client/juce_audio_backend.cpp:409-442 | While every push fits, a queue holds exactly what was pushed and not yet used |
| `RateConversion.InputQueueMoves` | src/client/juce_audio_backend.cpp:400-440 | The input queue gains at most the prepared number of samples and loses what the resampler claims, but nothing while no engine frame is due |
| `RateConversion.OutputQueueMoves` | src/client/juce_audio_backend.cpp:462-484 | An output queue gains its channel of the interleaved block and loses what the resampler claims if the device offers the channel |
| `RateConversion.ForEachChunk` | src/client/audio_callback_policy.h:9-21 | Chunks partition the block, none larger than 960 frames |
| `RateConversion.Queue.constructor` | src/client/juce_audio_backend.cpp:690-693 | An empty queue |
| `RateConversion.Queue.Add` | src/client/juce_audio_backend.cpp:409-415 | Appends, after emptying if it would not fit |
| `RateConversion.Queue.Remove` | src/client/juce_audio_backend.cpp:429-440 | Drops what was used, between none and all, and moves the rest to the front |
| `RateConversion.Backend.constructor` | src/client/juce_audio_backend.cpp:696-711 | Buffers sized from the prepared callback |
| `RateConversion.Backend.TakeInput` | src/client/juce_audio_backend.cpp:400-440 | Input queue, remainder and engine frames after a callback |
| `RateConversion.Backend.GiveOutput` | src/client/juce_audio_backend.cpp:462-484 | One output queue after a callback |
| `RateConversion.Backend.DeviceCallback` | src/client/juce_audio_backend.cpp:398-487 | All queues, the remainder and the chunks after a callback |
| `JitterPolicy.RoundTrip` | src/client/jitter_policy.h:20-32 | For packets of at least half a millisecond, packets to ms and back gives p, or p + 1 capped; exactly p if and only if the duration rounds down or p is the maximum |
| `JitterPolicy.WholeMillisecondsExact` | src/client/jitter_policy.h:60-70 | Packets of whole milliseconds come back unchanged |
| `JitterPolicy.VanishesIff` | src/client/jitter_policy.h:20-32 | A target comes back as no packets if and only if it lasts less than half a millisecond |
| `JitterPolicy.PacketsForMsIsLeast` | src/client/jitter_policy.h:20-32 | The fewest packets lasting at least the time, up to the limit |
| `JitterPolicy.PacketsWithinMsIsMost` | src/client/jitter_policy.h:34-46 | The most packets lasting at most the time, up to the limit |
| `JitterPolicy.FloorAndCeilingClose` | src/client/jitter_policy.h:20-46 | The two conversions differ by at most one |
| `JitterPolicy.PlayoutRatioShape` | src/client/jitter_policy.h:107-127 | Within half a percent, nominal exactly in the dead band, at the limits exactly from 1.25 packets off, monotone and symmetric |
| `AutoJitter.AlwaysInRange` | src/client/client_runtime.cpp:1085-1123 | Through every setter, arrival and window the target and both floors stay in [0, 32] |
| `AutoJitter.WindowJudged` | src/client/client_runtime.cpp:3587-3652 | 200 callbacks are judged once, by the number of unstable ones |
| `AutoJitter.QuietWindows` | src/client/client_runtime.cpp:3643-3651 | k quiet windows lower an in-range target to max(floor, target - k) |
| `AutoJitter.UnstableWindows` | src/client/client_runtime.cpp:3621-3641 | k unstable windows raise it to min(age-limited maximum, max(target + k, k + 2)) |
| `AutoJitter.OtherWindows` | src/client/client_runtime.cpp:3612-3651 | One or two events leave an in-range target alone, and any window brings it within the age limit |
| `AutoJitter.ManualAnswers` | src/client/client_runtime.cpp:1239-1262 | A target set by hand is the fewest packets lasting the wished time, clamped to 250 ms and the age limit, unless 32 or the age limit cut it; playback goes on only if that many wait |
| `AutoJitter.ResetAnswers` | src/client/client_runtime.cpp:1264-1277 | Likewise a reset, for the global wish |
| `AutoJitter.GlobalAnswers` | src/client/client_runtime.cpp:1125-1166 | Likewise the floor after a global wish, for everyone not set by hand; the automatic start may only raise the target above it |
| `AutoJitter.SwitchAnswers` | src/client/client_runtime.cpp:1220-1291 | Switching the controller for one participant ends a manual target; off, the target is the global wish, on, a higher target stays; the default does the same to everyone not set by hand |
| `AutoJitter.ManualHolds` | src/client/client_runtime.cpp:3775-3834 | A wish set by hand survives every global change, arrival and window, and each arriving packet makes the target its number of packets |
| `AutoJitter.ArrivalAnswers` | src/client/client_runtime.cpp:3775-3834 | Otherwise each arriving packet makes the floor the number of packets of the global wish, and no target below it remains |
| `AutoJitter.LimitLowers` | src/client/client_runtime.cpp:1195-1217 | A new age limit lowers a target that does not fit to the most packets that do, with the floors, and touches no other |
| `AutoJitter.MaxTargetFits` | src/client/client_runtime.cpp:3612-3651 | The controller may go up to the most packets that fit the age limit |
| `AutoJitter.WithinAgeIff` | src/client/client_runtime.cpp:1085-1123 | After any setter or arrival the target respects the age limit if and only if the start or the target kept fits it |
| `AutoJitter.StartIgnoresAgeLimit` | src/client/client_runtime.cpp:1085-1123 | A run in which the controller starts at four packets where two may wait |
| `AutoJitter.Participant.constructor` | src/client/participant_info.h:755-763 | Initial fields |
| `AutoJitter.Participant.ApplyJitterPolicy` | src/client/client_runtime.cpp:1085-1123 | All fields after applying a policy |
| `AutoJitter.Participant.ApplyTargetMs` | src/client/client_runtime.cpp:995-1015 | All fields after applying a target in milliseconds |
| `AutoJitter.Participant.SetGlobalMs` | src/client/client_runtime.cpp:1125-1166 | All fields after a global target; a manual override keeps its own |
| `AutoJitter.Participant.SetAutoDefault` | src/client/client_runtime.cpp:1220-1234 | All fields after switching the automatic default |
| `AutoJitter.Participant.ResetOverride` | src/client/client_runtime.cpp:1264-1277 | All fields after dropping the manual target |
| `AutoJitter.Participant.SetAutoJitter` | src/client/client_runtime.cpp:1279-1291 | All fields after switching the controller for one participant |
| `AutoJitter.Participant.SetManualMs` | src/client/client_runtime.cpp:1239-1262 | All fields after a manual target |
| `AutoJitter.Participant.LimitPacketAge` | src/client/client_runtime.cpp:1195-1217 | All fields after an age limit |
| `AutoJitter.Participant.UpdateJitterFloor` | src/client/client_runtime.cpp:3775-3834 | All fields after a packet of some length |
| `AutoJitter.Participant.CompleteWindow` | src/client/client_runtime.cpp:3587-3652 | All fields after a window |
| `AutoJitter.Participant.ObserveCallback` | src/client/client_runtime.cpp:3654-3684 | All fields after one callback |

## Left out

- Sockets, resolver, timers, thread priorities, audio devices and the user interface: only the steps they trigger are modelled.
- Cryptography: sealing, opening and key derivation are ideal; the hash is any function. Opus coding and the Lagrange resampler are arbitrary results given to the model.
- Weak memory: atomics are sequentially consistent, the outbound generation is unbounded, and calls of the metronome, tracker, queue and jitter setters are atomic steps.
- WordDrops.ReceiverDroppedRanges.Record: one recorder at a time; the retry of a lost compare-and-swap is left out.
- WordDrops.ReceiverDroppedRanges.Consume: likewise an atomic step, without a recorder racing for the slot.
- WordDrops.ReceiverDroppedRanges.ConsumeRange: likewise an atomic step, without a recorder racing for the slots.
- WordQueue.OpusPacketQueue.DequeueForPlayout: leaves out packets without a sequence number and the lock-free queue in front; a concurrent publisher is the flag `blocked`.
- WordHistory.EveryWordOnce: takes each number to arrive once, which the tracker in front of the queue provides, and what is queued, recorded and arriving to lie in one half of the number space; beyond it `FarPackets` shows what fails.
- ReceivePipeline.PlayoutPassesEachNumberOnce: takes arrivals and missing ranges to lie within half the number space of the next number, and the queue's numbers in one half of the number space.
- EndToEnd.EachNumberReportedOnce: speaks of sessions in which the sender is not muted and the queue not cleared.
- Playout.ParticipantPlayout.RunCallback: leaves out level meters, recording, drift observation and rebuffering counters; the queue and decoder are a script of results.
- DeliveryReports.ReportsOrdered: the control sequence is not reset, as losing the media key would do; report epochs do not wrap, so fewer than 2^32 accumulators are created in a session; totals are unbounded.
- DeliveryReports.ImplausibleIff: the replay window is not cleared in between.
- DeliveryReports.HeldIsHighest: speaks of logs whose counters and epochs lie within half the number space of each other.
- DropAccounting.RecordedIsCounted: on counters; `WordHistory.RunsAgree` carries it to words in one half of the number space.
- Metronome.ClientMetronome.MixClick: returns which click sample sounds at each frame; the sine, envelope and clamping of the waveform are left out, and 64-bit overflow of sample positions.
- ChatLog.ChatState.AcceptChatMessage: leaves out display names, server times and status texts; the nonces of sent messages are kept, their retry texts are not.
- AutoJitter.Participant.CompleteWindow: leaves out the statistics of increases and decreases.
- TxAccumulator.OpusTransmitter.EnqueueSamples: a copy past the buffer is reported as `inside` being false; what it would overwrite is not modelled.
- RateConversion.NoDrift: sums in exact arithmetic, without the rounding of `double`.
- RobustLoss.RobustLossRate: rates are exact, and a reporter's two counts do not overflow when added.
- Tap tempo, recording, WAV playback, diagnostics, join reliability, packet codecs and preferences: easy members only.
