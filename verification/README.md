# Yoop: clipboard sync, transfers and migrations, modelled and proved

Yoop moves files and clipboard contents between two machines. This project models the parts of it
in which several pieces of code must agree, and proves what they promise each other for every
input, every schedule and every run. `dafny verify dfyconfig.toml` checks all of it.

| files | what they model |
|---|---|
| `Clipboard`, `Utf8` | clipboard contents, the payload of a content frame, what counts as text |
| `SyncProtocol`, `SyncPeer` | live clipboard sync: the two-peer transition system, and one peer's watcher, outbound loop and inbound loop as a class over shared state, proved to be steps of that system |
| `SyncProgress` | requests, answers, the crossed state, blocked tasks, termination, completion |
| `SyncHistory`, `SyncDelivery`, `SyncConvergence`, `SyncTwoWriters` | no echo, order and statistics of deliveries, what the clipboards hold at rest with one writer and with two |
| `SyncQueue`, `SyncWitness`, `SyncUnheard` | bursts of copies, when a copy is announced, and concrete runs that show where those results stop |
| `OneShot` | the share/receive exchange with its keep-alive phase |
| `Handshake` | the sync handshake: one host program, two client programs |
| `FileTransfer` | chunking, writing in order, resuming in any order |
| `Planner`, `Backup`, `BackupLaws`, `Migrations`, `MigrationLaws` | choice of migrations, backups and their manifest, run, restore, rollback |
| `Conflict` | conflict detection, resolution on two replicas, conflict names |

Programs that change state step by step are methods and classes here, each proved equal to a
specification function; the laws are about those functions. `SyncProtocol.Exec`, `OneShot.Exec` and
`Handshake.Exec` run any list of moves, so a statement about them is one about every interleaving.

## What live sync is assumed to do

- Frames arrive, once, in the order they were written.
- Reading the clipboard gives what was last written to it, and writes succeed.
- These are single steps: a poll (read, store the hash, queue the change); an outbound iteration
  (store the cache, write the notification); the handling of one inbound frame with its replies, in
  particular storing both hashes and writing the clipboard (`crates/yoop-core/src/clipboard/session.rs:2066-2070`), and reading
  the cache and writing the answer. Finer interleavings would break the no-echo, order and
  convergence results.
- The watcher's channel holds 16 changes and one more waits in its blocked send; polling stops
  meanwhile.
- Each session has one channel of 32 events, into which both tasks put one for every item, the
  inbound task before it acknowledges. Nobody takes events out while `run` runs: the receiving end
  stays in it until it returns (`crates/yoop-core/src/clipboard/session.rs:1870` and `:2223`).
- xxHash64 is a function of the bytes. Where a result needs more (one-writer convergence: distinct
  copies have distinct, non-zero hashes) it says so.

## What turned out

- Two peers that announce at the same time can block each other for good: each drops the other's
  request in its inner wait. `SyncProgress.CrossingStep` gives the exact step, `CrossedForever` that
  nothing leads out, `SyncWitness.CrossingHappens` a run.
- After 32 items sent and received a peer's tasks block one after the other, for good: the 33rd item
  stops the task that brought it, and no session of a peer gets past 34
  (`SyncProgress.BlockedBeyondTheSlots`, `BlockedForever`). A 34th copy is then never announced
  (`SyncUnheard.EventsRunOut`); up to 33 copies of one writer always
  arrive (`SyncConvergence.OneWriterConverges`). With the
  crossing these are the only ways to rest before every exchange is complete
  (`SyncProgress.ExchangesComplete`).
- Two writers can end with each other's content (`SyncTwoWriters.TwoWritersAgree` says when they
  agree, `SyncWitness.TwoWritersCanSwap` gives a run), and a writer who mixes text and images can leave
  the reader with the wrong kind (`SyncWitness.MixedTypesCanDiverge`).
- A user who copies again the content received last is not heard, even with other content announced
  in between, and the clipboards stay different (`SyncUnheard.RecopyIsNotAnnounced`).
- A client in code mode whose device the host's trust store already knows never gets its verdict:
  the host skips the code (`Handshake.DisagreementOutcome`).
- The host recognises a device in its store by id and key alone, without a signature
  (`Handshake.IdAndKeyAreEnough`).
- A resumed file longer than expected keeps its tail (`FileTransfer.ResumeInAnyOrder`), and offsets
  computed as index times chunk size (`crates/yoop-core/src/transfer/mod.rs:1570`) are right only if no read but the last
  was short (`FileTransfer.OffsetsNeedFullReads`).
- A failed `run` restores contents but removes nothing: files a migration created where there were
  none stay (`MigrationLaws.FailedRunRestoresExactly`), and a clock set back can make the
  clean-up delete the backup just made (`BackupLaws.FreshBackupSurvives`).
- The plan takes the first migration that fits, and reaches what some chain reaches exactly when
  that choice always leads on (`Planner.GreedyIsEnough`).
- A run records its target version even when the plan stops short of it
  (`MigrationLaws.RecordedVersionIsReached`).
- A conflict name can move a file to another directory, when the path's last dot is in a directory's
  name (`Conflict.StaysInDirectory`).
- With equal times last-write-wins leaves the two replicas different (`Conflict.ReplicasAgree`).

## Model

| member | source | states |
|---|---|---|
| `Clipboard.BigEndianRoundTrip` | crates/yoop-core/src/clipboard/session.rs:2019-2024 | a 32-bit dimension written as four big-endian bytes reads back as itself |
| `Clipboard.WireParts` | crates/yoop-core/src/clipboard/session.rs:2131-2142 | a content frame's payload is the content's bytes behind eight bytes of dimensions, zero for text |
| `Clipboard.UnwireWire` | crates/yoop-core/src/clipboard/mod.rs:102-132 | for every content and either type: decoding gives the content back if and only if it is read as its own type; it fails if and only if bytes that are no UTF-8 are read as text; bytes, hence size and hash, never change |
| `Clipboard.PayloadLayout` | crates/yoop-core/src/clipboard/session.rs:2131-2142 | the payload byte by byte: width and height as numbers, most significant byte first, then the data; for text eight zeros and the text |
| `Clipboard.Measures` | crates/yoop-core/src/clipboard/mod.rs:75-98 | type, size and hash of a content, the hash over its bytes alone |
| `Utf8.Utf8Exactly` | crates/yoop-core/src/clipboard/mod.rs:121-124 | bytes are accepted as text if and only if they encode some sequence of Unicode scalar values, the encoding given by arithmetic |
| `Utf8.TextIsDecodedExactly` | crates/yoop-core/src/clipboard/mod.rs:120-124 | bytes received as plain text give that text exactly when they encode scalar values, and nothing otherwise |
| `Utf8.AnyTextArrives` | crates/yoop-core/src/clipboard/mod.rs:102-132 | every text a peer can send is read back from its payload |
| `SyncProgress.Conservation` | crates/yoop-core/src/clipboard/session.rs:1995-2054 | in every reachable state, per direction: at most one request or answer is on its way, and only for a peer that waits; every notification or request on its way finds the announcer's cache filled, so no request is answered "no content" and no content reaches a peer that does not wait |
| `SyncProgress.WaitingIsServedOrCrossed` | crates/yoop-core/src/clipboard/session.rs:2006-2054 | in every reachable state a peer in the inner wait has its request or its answer on the way, unless the announcements have crossed |
| `SyncProgress.CrossingStep` | crates/yoop-core/src/clipboard/session.rs:1995-2011 | the only step into the crossed state: a peer at its outer read takes a notification while the other's request is still on its way (if and only if, on every invariant state) |
| `SyncProgress.CrossedStep` | crates/yoop-core/src/clipboard/session.rs:2006-2054 | no turn of either peer leaves the crossed state |
| `SyncProgress.CrossedForever` | crates/yoop-core/src/clipboard/session.rs:2006-2054 | nor does any run |
| `SyncProgress.StepDecreases` | crates/yoop-core/src/clipboard/session.rs:1913-2178 | every step other than a user's copy that changes anything lowers a weighted count of undetected and queued changes and frames on their way |
| `SyncProgress.FinitelyManyBusyTurns` | crates/yoop-core/src/clipboard/session.rs:1913-2178 | so once the users stop copying, at most that many further turns do anything, however scheduled |
| `SyncProgress.RestIsQuiet` | crates/yoop-core/src/clipboard/session.rs:1913-2178 | a state no turn changes is exactly one in which each peer has nothing queued or a blocked outbound task, nothing unread or an inbound task that does not read, and nothing undetected or a full change queue |
| `SyncProgress.RestIsReached` | crates/yoop-core/src/clipboard/session.rs:1913-2178 | from every state some continuation without copies comes to rest |
| `SyncProgress.BlockedBeyondTheSlots` | crates/yoop-core/src/clipboard/session.rs:1870-1870 | in every reachable state a peer has a task waiting in its event send if and only if it has sent and received more than 32 items, one task for each item beyond, so no peer gets past 34 in a session |
| `SyncProgress.BlockedForever` | crates/yoop-core/src/clipboard/session.rs:1962-1967 | no turn of either peer unblocks such a task, and its count stays where it is |
| `SyncProgress.ExchangesComplete` | crates/yoop-core/src/clipboard/session.rs:1988-2178 | at rest every exchange is complete if and only if the announcements have not crossed, no inbound task is blocked before an acknowledgement, and no outbound task is blocked with changes queued; within 32 events at each peer, if and only if they have not crossed |
| `SyncHistory.TraceIsExec` | crates/yoop-core/src/clipboard/session.rs:1869-2220 | keeping the history changes no run |
| `SyncHistory.OutboundKeepsOwn` | crates/yoop-core/src/clipboard/session.rs:1913-1970 | the outbound task announces or skips the oldest reported change; what is announced stays a subsequence of the user's copies |
| `SyncHistory.PollKeepsOwn` | crates/yoop-core/src/clipboard/watcher.rs:93-141 | a poll reports only what the local user copied, once |
| `SyncHistory.InboundReportsNothing` | crates/yoop-core/src/clipboard/session.rs:2056-2070 | an inbound step reports nothing, and a clipboard it writes has the watcher's hash |
| `SyncHistory.NoEcho` | crates/yoop-core/src/clipboard/session.rs:1882-2070 | over whole runs: the announcements of each peer are a subsequence of its own user's copies, each copy at most once, so announcements never outnumber copies and nothing received is announced back |
| `SyncDelivery.OutboundKeepsDir` | crates/yoop-core/src/clipboard/session.rs:1930-1960 | an announcement enters cache, statistics and channel together, in order |
| `SyncDelivery.InboundKeepsReceived` | crates/yoop-core/src/clipboard/session.rs:2056-2111 | an answer taken in the inner wait extends the receiver's deliveries by a newer version |
| `SyncDelivery.InboundKeepsAnnounced` | crates/yoop-core/src/clipboard/session.rs:2122-2149 | a request is answered with the newest announcement, and the notifications behind that answer are exactly the later ones |
| `SyncDelivery.RunKeepsGood` | crates/yoop-core/src/clipboard/session.rs:1913-2178 | all of these invariants hold in every reachable state |
| `SyncDelivery.ChainIncreases` | crates/yoop-core/src/clipboard/session.rs:1995-2054 | delivered versions strictly increase |
| `SyncDelivery.DeliveredWithinAnnounced` | crates/yoop-core/src/clipboard/session.rs:2056-2085 | the bytes received never exceed the bytes of the announcements up to the last one delivered |
| `SyncDelivery.DirDelivers` | crates/yoop-core/src/clipboard/session.rs:1930-2149 | one direction: order, freshness and statistics of its deliveries |
| `SyncDelivery.OrderedDelivery` | crates/yoop-core/src/clipboard/session.rs:1930-2149 | over whole runs, both directions: notifications on their way are exactly those announced and not yet read, in order; each delivery is at least as new as the notification it answers and newer than the delivery before; items and bytes received never exceed items and bytes sent |
| `SyncConvergence.LastDelivered` | crates/yoop-core/src/clipboard/session.rs:1995-2092 | a reader that has taken every notification and waits for nothing, or has received as many items as were sent, was last given the last announcement |
| `SyncConvergence.WriterIsHeard` | crates/yoop-core/src/clipboard/watcher.rs:93-141 | a sole writer with nothing queued or undetected has announced its last copy last |
| `SyncConvergence.ReaderHasAll` | crates/yoop-core/src/clipboard/session.rs:1870-2092 | with one writer at rest the reader has everything announced, even the item it could not acknowledge, and the writer has announced at most 33 |
| `SyncConvergence.OneWriterAtRest` | crates/yoop-core/src/clipboard/session.rs:2013-2070 | when only A's user copies, at rest after an announcement and however many items there were: A's clipboard is its user's last copy, the last delivery carried the last announcement, and B's clipboard is that announcement if, and for decodable content only if, the notification the delivery answered named its type |
| `SyncConvergence.OneWriterConverges` | crates/yoop-core/src/clipboard/session.rs:1913-2149 | with copies of one type the clipboards are then equal if and only if the last announcement is the last copy, whatever notifications B missed; it is when A's queue is empty, within 32 events at A, and for any run of at most 33 copies |
| `SyncConvergence.OneWriterNeverCrosses` | crates/yoop-core/src/clipboard/session.rs:1995-2054 | when only one user copies no run reaches the crossed state |
| `SyncTwoWriters.TwoWritersAtCompletion` | crates/yoop-core/src/clipboard/session.rs:1913-2149 | both users copying, every schedule, all exchanges complete, announcements of one type per side: each clipboard holds its own user's last copy if that user wrote last, else the other's last announcement, else what it held at the start |
| `SyncTwoWriters.RestedIsComplete` | crates/yoop-core/src/clipboard/session.rs:1988-2178 | at rest, not crossed and within 32 events at each peer, all exchanges are complete |
| `SyncTwoWriters.TwoWritersAgree` | crates/yoop-core/src/clipboard/session.rs:1913-2149 | in those runs, both sides having announced, when the two clipboards agree, as an if and only if: neither user wrote last and the last announcements are equal (each side holds the other's), or one did and its last copy is its last announcement, or both did and copied the same |
| `SyncWitness.CrossingHappens` | crates/yoop-core/src/clipboard/session.rs:1995-2054 | the crossed state is reachable: two simultaneous copies block both peers |
| `SyncWitness.TwoWritersCanSwap` | crates/yoop-core/src/clipboard/session.rs:1995-2149 | a run in which neither of two writers wrote last and they hold each other's content; SyncTwoWriters.TwoWritersAgree says when that is the outcome |
| `SyncWitness.MixedTypesCanDiverge` | crates/yoop-core/src/clipboard/session.rs:1995-2044 | one writer who mixes types can leave the reader with an image's bytes as text, or with nothing |
| `SyncUnheard.QueueIsServedInOrder` | crates/yoop-core/src/clipboard/watcher.rs:82-141 | whatever the turn, a queue loses its front at the own outbound turn, gains at most one change at its end at the own poll, and is touched by nothing else |
| `SyncUnheard.FrontIsHeardUnlessLastReceived` | crates/yoop-core/src/clipboard/session.rs:1913-1921 | so a queued change is decided about when it is in front, and is announced if and only if its hash is not that of the content received last |
| `SyncUnheard.CopyIsHeardUnlessLastReceived` | crates/yoop-core/src/clipboard/session.rs:1913-1967 | either side: a copy that is polled and has its outbound turn is announced if and only if it is not the content received last and the outbound task is not blocked |
| `SyncUnheard.RecopyIsNotAnnounced` | crates/yoop-core/src/clipboard/session.rs:1914-2070 | so even one exchange at a time can end with different clipboards: copying again what had last been received is not announced, since the stored remote hash is never cleared |
| `SyncUnheard.RoundsPlayed` | crates/yoop-core/src/clipboard/session.rs:1913-2178 | one writer, one exchange at a time: where any number of rounds up to 33 leads |
| `SyncUnheard.EventsRunOut` | crates/yoop-core/src/clipboard/session.rs:1870-2092 | any 34 such copies, each different from the one before: the 33rd arrives unacknowledged, the 34th is never announced, nothing has crossed, no turn does anything and the clipboards differ |
| `SyncQueue.BurstIsQueued` | crates/yoop-core/src/clipboard/watcher.rs:86-125 | from an empty queue up to 17 copies, each of a new non-zero hash and polled, with nothing taken out between, are all in the queue in order |
| `SyncQueue.SeventeenIsFull` | crates/yoop-core/src/clipboard/watcher.rs:86-128 | with 17 queued a poll takes nothing until an outbound turn has made room, and then takes what it finds |
| `SyncQueue.QueueIsAnnounced` | crates/yoop-core/src/clipboard/session.rs:1913-1967 | queued changes with room for their events, none of them received last, are announced by the next outbound turns, exactly and in order, each with its type, byte length and hash |
| `SyncQueue.BurstIsAnnounced` | crates/yoop-core/src/clipboard/session.rs:1913-1967 | so a burst of up to 17 copies is announced whole |
| `SyncQueue.SidesAreAlike` | crates/yoop-core/src/clipboard/session.rs:1869-2220 | neither peer has a part of its own: swapping the sides of a run swaps its result |
| `SyncPeer.Runner.constructor` | crates/yoop-core/src/clipboard/session.rs:1879-1884 | a peer starts with the watcher holding the hash of its clipboard |
| `SyncPeer.Runner.Poll` | crates/yoop-core/src/clipboard/watcher.rs:93-141 | one turn of the polling loop is the poll step of the transition system |
| `SyncPeer.Runner.Announce` | crates/yoop-core/src/clipboard/session.rs:1930-1967 | an announcement changes cache, statistics and event channel together, and blocks the task when the channel is full |
| `SyncPeer.Runner.RunOutbound` | crates/yoop-core/src/clipboard/session.rs:1912-1974 | the outbound loop over everything queued, up to an event it cannot put in, is the fold of outbound steps |
| `SyncPeer.Runner.ApplyContent` | crates/yoop-core/src/clipboard/session.rs:2056-2085 | content received: both hashes, clipboard and statistics together |
| `SyncPeer.Runner.WriteReceived` | crates/yoop-core/src/clipboard/session.rs:2056-2111 | and then the event, and then the acknowledgement, unless the event finds no room |
| `SyncPeer.Runner.AwaitContent` | crates/yoop-core/src/clipboard/session.rs:2006-2054 | the inner wait handles frames as the transition system does, until content, a cancel or the end of input |
| `SyncPeer.Runner.RunInbound` | crates/yoop-core/src/clipboard/session.rs:1988-2178 | the inbound loop with its nested wait is the fold of inbound steps, for every list of frames, up to a cancel or an event it cannot put in |
| `SyncPeer.OutboundTaskIsMoves` | crates/yoop-core/src/clipboard/session.rs:1912-1974 | that fold is a run of outbound turns of the two-peer system |
| `SyncPeer.InboundTaskIsMoves` | crates/yoop-core/src/clipboard/session.rs:1988-2178 | and this one a run of inbound turns |
| `SyncPeer.PingCostsOnePong` | crates/yoop-core/src/clipboard/session.rs:2039-2046 | a ping between any two frames, at either read, costs one pong and changes nothing else |
| `SyncPeer.NothingAfterCancel` | crates/yoop-core/src/clipboard/session.rs:2047-2051 | a cancel at either read ends the task with its replies so far and leaves the rest unread |
| `SyncPeer.RequestIsAnswered` | crates/yoop-core/src/clipboard/session.rs:2122-2166 | a request is answered with the last announcement, else the clipboard, in a form that reads back as that content, else with a failure |
| `SyncPeer.WithoutEffect` | crates/yoop-core/src/clipboard/session.rs:2052-2111 | frames neither read acts on change nothing; unreadable content is acknowledged as a success although nothing is written |
| `SyncPeer.ContentIsTaken` | crates/yoop-core/src/clipboard/session.rs:2056-2111 | readable content: clipboard, both hashes, statistics and event, then the acknowledgement while there is room for 32 events |
| `OneShot.DoClipboardTransfer` | crates/yoop-core/src/clipboard/session.rs:244-309 | the sender's loop and what follows it handle every list of frames as the sender's automaton does, behind a first frame that names type, byte length and hash of the content |
| `OneShot.AnswerReceiver` | crates/yoop-core/src/clipboard/session.rs:254-307 | the part of it after the metadata |
| `OneShot.ReceiveMetadata` | crates/yoop-core/src/clipboard/session.rs:997-1021 | the receiver's first read is its automaton's |
| `OneShot.KeepAliveTask` | crates/yoop-core/src/clipboard/session.rs:604-632 | the keep-alive loop over any number of ticks is the fold of ping and read |
| `OneShot.AcceptContent` | crates/yoop-core/src/clipboard/session.rs:635-702 | accept handles every list of frames as the receiver's automaton does, with each of its errors |
| `OneShot.Decline` | crates/yoop-core/src/clipboard/session.rs:811-825 | decline is the automaton's step |
| `OneShot.PongsKeepAlive` | crates/yoop-core/src/clipboard/session.rs:604-632 | as many pongs as ticks hand the stream back with nothing of them left on it |
| `OneShot.ProgramsFitTogether` | crates/yoop-core/src/clipboard/session.rs:244-702 | for any number of ticks: each program, fed what the other writes, ends with the content sent and received and nothing unread |
| `OneShot.AnyFrameKeepsAlive` | crates/yoop-core/src/clipboard/session.rs:604-632 | over any frames: the keep-alive task pings once a tick and takes whatever comes for the answer |
| `OneShot.SenderOutcome` | crates/yoop-core/src/clipboard/session.rs:254-307 | over any frames: the first that is no ping decides; what an acceptance, a refusal and anything else lead to, and the acknowledgement after it |
| `OneShot.AcceptedExactly` | crates/yoop-core/src/clipboard/session.rs:635-702 | over any frames: the receiver ends with a content if and only if the first frame holds it, readable and of the announced hash, and the second is the completion; it objects if and only if the hash is wrong; the other errors |
| `OneShot.PingsOnlyCostPongs` | crates/yoop-core/src/clipboard/session.rs:258-281 | any number of pings before the decision costs as many pongs and changes nothing else |
| `OneShot.RunStaysReachable` | crates/yoop-core/src/clipboard/session.rs:604-632 | every run stays within twelve joint states, whatever the number of pings |
| `OneShot.ExchangeIsSafe` | crates/yoop-core/src/clipboard/session.rs:587-702 | for any number of pings: no unexpected message; when the stream is handed back nothing is on its way; after an accept both sides finish with equal content; after a decline the sender is rejected and no content was sent |
| `OneShot.ExchangeCompletes` | crates/yoop-core/src/clipboard/session.rs:587-702 | program steps lower a bound on what is left until the user's next choice, and when none is possible the user is choosing or both sides are done |
| `Handshake.WaitForPeerWithTrust` | crates/yoop-core/src/clipboard/session.rs:1084-1215 | the host's program is its automaton, for every list of frames |
| `Handshake.ConnectWithOptions` | crates/yoop-core/src/clipboard/session.rs:1532-1593 | the same for the client in code mode |
| `Handshake.TrustedHandshakeClient` | crates/yoop-core/src/clipboard/session.rs:1382-1479 | the same for the client in trusted mode |
| `Handshake.RunStaysReachable` | crates/yoop-core/src/clipboard/session.rs:1084-1593 | every run of host against client stays within the listed joint states |
| `Handshake.Agreement` | crates/yoop-core/src/clipboard/session.rs:1124-1593 | both sides reach the sync phase only if the setup is agreeable (trusted mode, matching record and a host store that verifies the client; or code mode, a store that does not, and equal codes), and then always: nobody fails and every program step brings both closer |
| `Handshake.DisagreementOutcome` | crates/yoop-core/src/clipboard/session.rs:1124-1593 | how each other setup ends: who fails with what and who is left waiting |
| `Handshake.HostSyncsExactly` | crates/yoop-core/src/clipboard/session.rs:1124-1209 | over every sequence of frames from whatever peer: the host reaches the sync phase without the code if and only if the first frame is one it recognises, and otherwise if and only if the second is the right code |
| `Handshake.IdAndKeyAreEnough` | crates/yoop-core/src/clipboard/session.rs:1150-1176 | to be recognised takes the id and key of a device in the store, and no signature |
| `Handshake.HostRefuses` | crates/yoop-core/src/clipboard/session.rs:1126-1182 | the error for every other first frame, with nothing written |
| `Handshake.TrustingClientSyncsExactly` | crates/yoop-core/src/clipboard/session.rs:1382-1479 | over every sequence of frames from whatever host: a trusted client reaches the sync phase if and only if the first frame is the expected device's greeting with a valid signature, or a plain greeting that gives no other id and key; its answers and errors |
| `Handshake.CodeClientSyncsExactly` | crates/yoop-core/src/clipboard/session.rs:1532-1593 | over every sequence of frames: a client with a code answers any greeting and reaches the sync phase if and only if the next frame confirms the code; its answers and errors |
| `FileTransfer.ReadChunks` | crates/yoop-core/src/file/mod.rs:454-494 | under arbitrary short reads: the chunks concatenate to the file, indices are consecutive, none is empty or over size, checksums are of the data, only the final chunk is last; a chunk size of zero gives no chunks |
| `FileTransfer.FileWriter.New` | crates/yoop-core/src/file/mod.rs:565-584 | a new writer has an empty file and has counted nothing |
| `FileTransfer.FileWriter.NewResumable` | crates/yoop-core/src/file/mod.rs:601-632 | a resuming writer keeps the existing bytes, extends a shorter file with zeros, cuts nothing, and counts the resume offset |
| `FileTransfer.FileWriter.WriteChunk` | crates/yoop-core/src/file/mod.rs:641-664 | a chunk with a matching checksum goes to the current position, the running hash and the count; any other changes nothing |
| `FileTransfer.FileWriter.WriteChunkAt` | crates/yoop-core/src/file/mod.rs:679-701 | the same at an offset, without the running hash |
| `FileTransfer.FileWriter.FinalizeWithFullHash` | crates/yoop-core/src/file/mod.rs:729-752 | the digest of the whole file, however its reads come out |
| `FileTransfer.WrittenInOrder` | crates/yoop-core/src/file/mod.rs:641-664 | intact chunks written one after the other: file, position, count and absorbed bytes are those of their concatenation |
| `FileTransfer.ChunksRoundTrip` | crates/yoop-core/src/file/mod.rs:454-719 | cut under any short reads and written in order, the file comes back, the running hash is the whole file's, and the writer is complete after the last chunk and not before |
| `FileTransfer.HoldsOneMore` | crates/yoop-core/src/file/mod.rs:679-701 | writing chunk k at k times the chunk size keeps every other chunk and everything behind the file |
| `FileTransfer.ProgressIsKept` | crates/yoop-core/src/file/mod.rs:679-701 | after any distinct missing chunks in any order: all chunks written or held before are there, and their bytes are what is counted |
| `FileTransfer.ResumedIsStarted` | crates/yoop-core/src/file/mod.rs:601-632 | a resumed writer over any existing file whose extension holds some chunks starts with these counted |
| `FileTransfer.ExtendedAt` | crates/yoop-core/src/file/mod.rs:617-625 | byte by byte: an existing file is kept and a shorter one extended with zeros |
| `FileTransfer.OverwrittenAt` | crates/yoop-core/src/file/mod.rs:655-698 | byte by byte: data at its position, zeros in a gap before it, everything else as it was |
| `FileTransfer.ChecksumDecides` | crates/yoop-core/src/file/mod.rs:641-701 | a chunk whose checksum is not the hash of its data leaves no trace; one written in order after one at an offset lands right behind it |
| `FileTransfer.ResumeCompletesWithTheLastChunk` | crates/yoop-core/src/file/mod.rs:768-770 | a writer resumed at the offset the held chunks add up to, whichever they are, and given the others once each in any order: the count ends at the file's size, and it is complete after the last missing chunk and not before |
| `FileTransfer.ResumeInAnyOrder` | crates/yoop-core/src/file/mod.rs:601-701 | the result is the original, followed by what an over-long existing file had behind it; it is the original if and only if the existing file was not longer, and then the full-file hash is the original's, while the running hash has absorbed nothing |
| `FileTransfer.OffsetsNeedFullReads` | crates/yoop-core/src/file/mod.rs:463-491 | chunk i belongs at i times the chunk size for all chunks if and only if no read but the last was short |
| `FileTransfer.FullReadsGivePieces` | crates/yoop-core/src/file/mod.rs:463-491 | full reads cut the file into the chunks that resuming asks for |
| `FileTransfer.CutThenWrittenAt` | crates/yoop-core/src/file/mod.rs:454-701 | from end to end: a file cut with full reads and written at index times chunk size over whatever was there is that file, followed by what lay behind its end |
| `Planner.GetPending` | crates/yoop-core/src/migration/mod.rs:131-153 | the planning loop ends and computes the plan, when every migration raises the version |
| `Planner.Find` | crates/yoop-core/src/migration/mod.rs:140-145 | the first registered migration that starts at the current version and does not pass the target |
| `Planner.VersionsAreOrdered` | crates/yoop-core/src/update/mod.rs:76-92 | versions are totally ordered, by major, then minor, then patch number |
| `Planner.PendingIsChain` | crates/yoop-core/src/migration/mod.rs:131-153 | the plan is a contiguous chain of registered migrations from the start, never passes the target, is no longer than the list, and stops short only where nothing fits |
| `Planner.PlanHasNoRepeats` | crates/yoop-core/src/migration/mod.rs:131-153 | its source versions strictly increase, so no migration is planned twice |
| `Planner.OnlyChain` | crates/yoop-core/src/migration/mod.rs:131-153 | with one migration for each source version, any chain to the target is the plan itself |
| `Planner.PlanReachesIfAnyChainDoes` | crates/yoop-core/src/migration/mod.rs:131-153 | so the plan reaches the target if and only if some chain does |
| `Planner.GreedyIsEnough` | crates/yoop-core/src/migration/mod.rs:131-153 | for any raising migrations: the plan reaches, from every version to every version, whatever some chain reaches if and only if the migration found first always leads on to what another from its version leads to; unique sources are enough for that |
| `Planner.GreedyPlanCanMissAChain` | crates/yoop-core/src/migration/mod.rs:140-145 | two migrations from one version for which it does not, in one order, and does in the other |
| `Planner.RaisingEnds` | crates/yoop-core/src/migration/mod.rs:138-150 | turn k of the loop stands where the first k planned migrations lead, and there is no turn after the last |
| `Planner.CycleNeverEnds` | crates/yoop-core/src/migration/mod.rs:138-150 | a version that comes back keeps the loop running for ever |
| `Planner.StopsUnlessAVersionComesBack` | crates/yoop-core/src/migration/mod.rs:138-150 | for any migrations at all: the loop stops, within one turn more than there are migrations, if and only if no version comes back |
| `Backup.CopiedFile` | crates/yoop-core/src/migration/backup.rs:115-133 | copying the tracked files one after the other: a tracked file the source has is as in the source, every other is as it was in the target |
| `Backup.BackupManager.CreateBackup` | crates/yoop-core/src/migration/backup.rs:100-149 | the whole new disk: the copy directory, the manifest and the clean-up; an unreadable manifest fails after the files were copied |
| `Backup.BackupManager.RestoreBackup` | crates/yoop-core/src/migration/backup.rs:156-190 | the tracked files of the backup are copied back, or nothing changes when there is no such directory |
| `Backup.BackupManager.AddToManifest` | crates/yoop-core/src/migration/backup.rs:301-305 | the entry goes to the end of the manifest, or an unreadable manifest stays |
| `Backup.BackupManager.Cleanup` | crates/yoop-core/src/migration/backup.rs:217-246 | beyond five entries: sort by time, drop the oldest and their directories, save the rest |
| `Backup.BackupManager.LatestBackup` | crates/yoop-core/src/migration/backup.rs:207-210 | the manifest's last entry |
| `BackupLaws.SortIsStable` | crates/yoop-core/src/migration/backup.rs:224-226 | the sort orders by time and keeps the order of equal times, which determines it |
| `BackupLaws.FreshBackupSurvives` | crates/yoop-core/src/migration/backup.rs:100-246 | the clean-up inside create_backup spares the new backup if and only if fewer than five listed backups carry a later time |
| `BackupLaws.BackupHolds` | crates/yoop-core/src/migration/backup.rs:115-133 | a backup still there holds the tracked files as they were, besides what an earlier backup of the same id had left in the directory |
| `BackupLaws.InfoListsTheCopy` | crates/yoop-core/src/migration/backup.rs:115-133 | the manifest's file list names exactly the files a backup in a new directory holds |
| `BackupLaws.StampsTellApart` | crates/yoop-core/src/migration/backup.rs:100-107 | ids are equal if and only if version and whole second are |
| `BackupLaws.ListedInOrder` | crates/yoop-core/src/migration/backup.rs:60-65 | the manifest lists the tracked files that were there: config.toml, history.json, trust.json, migration_state.json |
| `BackupLaws.SecondBackupKeepsTheFirst` | crates/yoop-core/src/migration/backup.rs:100-149 | two backups a second or more apart, or of two versions, with room for both: two directories, each with the tracked files of its own moment |
| `BackupLaws.CreatedInOrder` | crates/yoop-core/src/migration/backup.rs:100-246 | one more backup with a new id and no earlier time goes to the end; a sixth pushes the oldest out of manifest and directory alike |
| `BackupLaws.KeepsTheNewest` | crates/yoop-core/src/migration/backup.rs:100-246 | over any sequence of backups at non-decreasing times, any two of different versions or in different seconds, from nothing: the directories are exactly the manifest's ids, they are the newest five, each entry and directory holds what its moment had, and the latest is the one just made |
| `Migrations.MigrationManager.constructor` | crates/yoop-core/src/migration/mod.rs:104-114 | a manager and its backup manager share one file system |
| `Migrations.MigrationManager.RunMigrations` | crates/yoop-core/src/migration/mod.rs:160-203 | run, with all its exits, is the function the laws are about: new disk and result |
| `Migrations.MigrationManager.RollbackTo` | crates/yoop-core/src/migration/mod.rs:210-221 | the same for rollback |
| `Migrations.MigrationManager.Migrate` | crates/yoop-core/src/migration/mod.rs:38-54 | the same for migrate_if_needed |
| `MigrationLaws.RestoredFile` | crates/yoop-core/src/migration/backup.rs:156-190 | what a restore of the backup just made does to each file, over arbitrary changes |
| `MigrationLaws.StopsAtTheFirstFailure` | crates/yoop-core/src/migration/mod.rs:177-187 | migrations run in order, each on what the one before left, up to the first that fails |
| `MigrationLaws.FailedRunRestores` | crates/yoop-core/src/migration/mod.rs:160-185 | for arbitrary effects of the migrations: after a failed run with a backup still there every tracked file that existed has its exact earlier contents; everything else is as the migrations left it (or as an earlier backup of the same id had it); without a backup everything is |
| `MigrationLaws.FailedRunRestoresExactly` | crates/yoop-core/src/migration/backup.rs:156-190 | the tracked files are exactly what they were if and only if the migrations left none where there had been none |
| `MigrationLaws.RunSucceedsExactly` | crates/yoop-core/src/migration/mod.rs:160-203 | when a run succeeds, as an if and only if over manifest, state file and migrations, and the error otherwise; before any migration has run no data has changed |
| `MigrationLaws.IdsInOrder` | crates/yoop-core/src/migration/mod.rs:84-92 | the ids recorded for a run: both versions without their patch numbers, in order |
| `MigrationLaws.RunRecordsItsTarget` | crates/yoop-core/src/migration/version.rs:111-125 | a successful run records its target version and one more history entry on top of the state recorded before, whatever the migrations wrote over the state file; its backup is then the latest_backup of the state |
| `MigrationLaws.LatestIsLastSuccess` | crates/yoop-core/src/migration/version.rs:117-125 | the latest backup of a state is that of the last entry that succeeded |
| `MigrationLaws.RecordedVersionIsReached` | crates/yoop-core/src/migration/mod.rs:189-200 | the recorded version is one the migrations reached if and only if some chain reaches it |
| `MigrationLaws.RollbackRestores` | crates/yoop-core/src/migration/mod.rs:210-221 | running with a backup under a fresh id and rolling back: the rollback succeeds if and only if the clean-up spared the backup, and then every tracked file that existed has its earlier contents; otherwise it changes nothing |
| `MigrationLaws.RollbackUndoesTheVersion` | crates/yoop-core/src/migration/mod.rs:210-221 | the recorded version is `from` again if and only if no other version had been recorded, whether or not the state file existed at backup time |
| `MigrationLaws.RollbackPastLaterRuns` | crates/yoop-core/src/migration/mod.rs:210-221 | a rollback after any number of further successful runs succeeds if and only if its backup is still there, and does what it would have done at once |
| `MigrationLaws.FindsTheFirst` | crates/yoop-core/src/migration/mod.rs:214-218 | the history entry rolled back to is the first with the backup's id |
| `MigrationLaws.NoneLaterSurvives` | crates/yoop-core/src/migration/backup.rs:217-229 | a clock that never goes back always spares the backup just made |
| `MigrationLaws.MigratesExactlyWhatIsOlder` | crates/yoop-core/src/migration/mod.rs:38-54 | with a recorded version older than the program's and something pending, that is run with a backup and the program's version recorded; otherwise, and without a state file, nothing is touched |
| `MigrationLaws.MigratingAgainChangesNothing` | crates/yoop-core/src/migration/mod.rs:38-54 | after a successful migrate_if_needed another one, at any later time, changes nothing |
| `MigrationLaws.FailedMigrationIsTriedAgain` | crates/yoop-core/src/migration/mod.rs:38-54 | a failed one with its backup still there leaves the recorded state as it was, so the next start plans the same migrations |
| `Conflict.RFindLast` | crates/yoop-core/src/sync/conflict.rs:124 | nothing after the found position is the character sought |
| `Conflict.DecimalRoundTrip` | crates/yoop-core/src/sync/conflict.rs:126-128 | the decimal timestamp reads back as itself |
| `Conflict.ConflictNameFacts` | crates/yoop-core/src/sync/conflict.rs:117-131 | a decoder gives path and second back from the generated name, for paths with and without dots |
| `Conflict.ConflictNameReads` | crates/yoop-core/src/sync/conflict.rs:117-131 | the name written out: .conflict. and the decimal whole seconds before the last dot, or at the end |
| `Conflict.DecimalDigits` | crates/yoop-core/src/sync/conflict.rs:126-128 | the decimal number as it is written, without leading zeros |
| `Conflict.ConflictNamesDistinct` | crates/yoop-core/src/sync/conflict.rs:117-131 | names are equal if and only if path and whole second are, and a name never is the path itself |
| `Conflict.StaysInDirectory` | crates/yoop-core/src/sync/conflict.rs:124-130 | the renamed file stays in its directory if and only if no slash follows the path's last dot |
| `Conflict.DetectionIsSymmetric` | crates/yoop-core/src/sync/conflict.rs:54-86 | detection means different hashes and a floored second difference below the window, and swapping the sides swaps the conflict |
| `Conflict.DetectsExactly` | crates/yoop-core/src/sync/conflict.rs:217-244 | a conflict is reported if and only if the hashes differ and the times are less than the window apart, in nanoseconds and likewise in floored seconds; what it reports |
| `Conflict.ReplicasAgree` | crates/yoop-core/src/sync/conflict.rs:150-185 | when both sides resolve by one strategy they agree on the path if and only if it is last-write-wins and the times differ, and then on the later version; what the other strategies leave on each side |
| `Conflict.KeepBothLosesNothing` | crates/yoop-core/src/sync/conflict.rs:181-185 | keep-both leaves the remote version at the path and the local one under its conflict name, and every other file alone if and only if that name was free (or held this very version) |

## Left out

- Planner.GetPending: requires every migration to raise the version, because the loop does not end otherwise; Planner.StopsUnlessAVersionComesBack says exactly when it ends.
- FileTransfer.FileWriter.WriteChunk: unbounded counters; `bytes_written` in the source is 64 bits wide, and a file is smaller than that.
- SyncDelivery.OrderedDelivery: unbounded counters for items and bytes, where the source's are 64 bits wide and wrap.
- OneShot.DoClipboardTransfer: a stream that ends early leaves it, like the receiver's methods beside it, waiting; the source returns a read error.
- SyncPeer.Runner.AwaitContent: likewise, the end of the given frames stands for a wait that goes on.
- Backup.BackupManager.CreateBackup: the sizes recorded in a manifest entry, the manifest's own version and its unused `max_backups` field are not modelled; an id is its version and second rather than their text.
- MigrationLaws.RollbackUndoesTheVersion: asks for a backup id not used before, in the directory, the manifest or the recorded history; ids are made of the version and the second, so two runs in one second share one.
- Conflict.ReplicasAgree: the files that carry out a resolution are a map, since the directory-sync engine that moves them is not part of this model.
- Sockets, TLS, frame encoding and JSON payloads: frames are values in FIFO sequences; a malformed payload is not modelled.
- Ed25519, HMAC, SHA-256 and xxHash64: parameters, with the assumptions each result names.
- Timeouts, sleeps and the clock: none in the clipboard protocols (timer ticks are free choices), parameters in backups and migrations.
- Timestamps in notifications and metadata, log output, and what the events say: only how many there are is modelled.
- Shutting a session down from outside, which ends `run` whatever its tasks wait for and only then hands out the events.
- A cancel ends the inbound task; what the outbound task and the watcher do in the moments after it is not followed. Neither modelled peer sends a cancel or a ping during live sync.
- The PNG re-encoding of clipboard images and the Linux holder process: the clipboard is a cell.
- The one-shot handshake and trusted receive, discovery, share codes, fallback connections.
- The choice of chunks to resume, parallel transfers and compression in the transfer engine.
- File permissions, symlinks and preview generation.
- The directory-sync engine, trust store and update installer, beyond the calls the modelled code makes.
- I/O failures other than a failing migration, and partial writes of the manifest or the state file.
- `Migration::down`, which nothing calls, and the operating system's choice of data directories (without one, `migrate_if_needed` does nothing).
- The text form of migration ids beyond the numbers it is made of.
- Parsing and printing of versions.
- The terminal interface, commands, configuration, history store, statistics and formatting helpers: they would only add easy members.
