# Verification of the TransferCore engine

`TransferCore` (`native/transfer_core/src`) sends files between two devices. The sender cuts every file into 4 MiB
chunks, queues the chunks the receiver does not have yet, and lets up to four data channels pull from that queue, each
prefetching one chunk ahead. The receiver checks, writes, marks, records and counts chunks concurrently, while its control
connection waits until nothing remains and then finalizes. A session that breaks off is resumed from the recorded chunks.

This project models that engine in Dafny 4.11 and proves its guarantees for all inputs, all interleavings and any number
of sessions. `dafny verify dfyconfig.toml` checks everything.

## How it is laid out

| file | what it holds |
|---|---|
| `Wrappers.dfy` | `Option`, `Result`, bytes, saturating addition, small set and sequence facts |
| `Chunks.dfy` | chunk plans: tiling, missing chunks, completed bytes |
| `ResumeMaps.dfy` | the bit-packed resume map as a class refining a set, and its bitmap form |
| `Storage.dfy` | short positioned reads and writes over one file, verification, interleaved writers |
| `Text.dfy` | splitting and joining paths, decimal numerals, UTF-8 lengths, sorting by a key |
| `Framing.dfy` | length-prefixed frames, control envelopes, the data channel's byte stream |
| `Manifests.dfy` | manifest validation, and paging over the control stream |
| `PathSafety.dfy` | fresh target names and the final paths of a manifest |
| `Jobs.dfy` | chunk jobs over all files of a transfer, and the two sums both sides keep about them |
| `Preparation.dfy` | how a session starts: reload, resume message, job list |
| `WorkQueue.dfy` | the sender's shared queue, channels and prefetch slots |
| `Session.dfy` | one transfer as a step system: sender, network, receiver, disk, table, crashes |
| `SessionSafety.dfy` | the invariant of that system, step by step, and over every run |
| `SessionProgress.dfy` | what error-free sessions keep on top of it |
| `SessionTheorems.dfy` | the guarantees |
| `SessionGivingUp.dfy` | when the receiver's control loop gives up on a session |
| `SessionWaking.dfy` | when it hears that the last channel has gone, and when it sleeps or finalizes |
| `SessionWitnesses.dfy` | concrete runs showing that the conditions in the guarantees are needed |
| `Sequential.dfy` | files without random access: reading and appending in index order, and when reading at the cursor is right |
| `Reception.dfy` | the receiver's chunk loop and its finalizing loop in their imperative form |
| `OneChannel.dfy` | a whole transfer over one channel, files with and without random access mixed |
| `Handshake.dfy` | the control connection up to the opening of the data channels, as two processes |
| `Lifecycle.dfy` | the state of one transfer over every history of mutators |
| `Core.dfy` | the core's transfers in memory and their rows: write-through, progress, restart |
| `Interleavings.dfy` | one transfer's row and snapshot when several threads work on it |

## The session model

A state of `Session.State` holds both sides' memory, the packets in flight, the part files and the table of recorded
chunks. A step is what the program does between two lock or atomic operations: a data channel pops or prefetches a job,
writes its packet, reports its bytes; a handler receives a packet, looks at the resume map, verifies, writes any number of
bytes of its chunk, marks under the file's lock, inserts the row, counts the bytes, decrements the counter; the control
loop loads the counter, begins to wait, takes a message, is woken, loads the counter again and the number of active channels,
gives up, starts finalizing, renames one file, clears the rows, completes, or sends its result. Channels and handlers may fail
at any point, payloads may be altered on the way, either side may stop, and at any time a new session may open over whatever
disk and table the last one left, which is how interruptions, retries and killed processes appear.

Some fields are history only and no step reads them: `lost` (files whose part file was renamed away under rows that were
still there when a session opened), `counted` and `subtracted` (the chunks whose bytes have been counted and which have been
subtracted from the counter), `clean` (nothing has failed in this session).

### What is assumed

- The hash function is a parameter. The only thing a session assumes of it is that no other bytes have the digest of one of the
  transfer's own source chunks (`NoSecondPreimage`); full injectivity would be unsatisfiable for 32-byte digests.
- In `OneChannel`, digests have 32 bytes and the header of every planned chunk fits a frame.
- The source bytes do not change during a transfer: the program checks a source revision before every read and is taken
  to be right about it.
- The protobuf codec is a parameter with `decode(encode(m)) == m` (`Inverse`); framing is proved around it.
- A crash ends the process, not the machine: chunks are recorded without being synced.
- One receiving context per transfer is alive at a time.
- Disks and databases may fail at any time, unless a contract is about one that is `healthy` or `dependable`.
- The total of an offer is the sum of its entry sizes, which is what the sender computes when it scans its sources.

## What the program does not guarantee

Six of the properties one would expect hold only under a condition. Each is proved with that condition, in both
directions, and has a concrete case without it.

1. *A completed transfer has delivered its files.* `finalize_incoming` renames the files one by one and clears the recorded
   chunks only after the last rename. A session opened in between finds every chunk of a renamed file recorded, re-creates
   its part file as zeros, has nothing to send, and delivers the zeros, under a new name since the old one is taken.
   `CompletedMeansDelivered` and `LostExactly` say that this is the only way: a file is delivered as zeros exactly when such
   a session was opened and none was opened later from cleared rows. `RetryAfterHalfFinalizeDeliversZeros` is such a run.
2. *An error-free session does not give up, or does so only with something missing.* Once notified, the control loop loads the
   counter, later the number of active channels, then waits up to 50 ms, and gives up without looking again. `GivesUpExactly`
   says when it can come to that: when at some moment of the session the loop had been notified, a channel had ended, none was
   attached, and a missing chunk sat on a channel yet to attach. What happens after that moment does not matter: in
   `CleanRunMayGiveUp` chunks are still missing, in `GivesUpWithNothingMissing` the late channel has delivered every chunk by
   then.
3. *When everything has arrived, or nobody is left to bring it, the control loop notices.* `notify_waiters` stores nothing, so a
   notification that comes before the loop waits, while it handles a message, or together with a message is lost.
   `LastEndIsHeardExactly` and `ZeroIsHeardExactly` say when the end of the last channel and the last chunk call the loop,
   `AsleepExactly` and `WaitsAtZeroExactly` when it waits with nobody left to call it or nothing left to come, and
   `FinalizesExactly` when a session with nothing missing finalizes without a message to help it (`AMessageHelps`).
   In `LostNotification` the loop sleeps over a gap, and cannot give up; in `SleepsWithNothingMissing` an error-free session
   has delivered every file and never finalizes by itself.
4. *The sender's progress ends at the total.* The result can arrive before the last chunk has been reported, and completes
   the transfer. `SenderProgressIsExact` says how far off it is, and `SenderMayEndShort` is such a run. The receiver's
   progress does end at the total (`CounterCovers`).
5. *What is sent is what the source holds.* A source without random access is read wherever it stands, whatever offset the
   chunk names, and the digest is taken of what was read. `ReadsRightExactly` says when that is right for every source: when
   it stands at the first missing chunk and the receiver has none between two missing ones. Otherwise the receiver is
   sent wrong bytes that it accepts, or the source ends early; `ResumedReadIsWrong` is the smallest case, one chunk of two
   already received. Under that condition a transfer over one channel delivers every file (`TransferInTurn`).
6. *A transfer's row tells the state of its snapshot.* A new offer writes the row before it takes the state lock, and
   deleting or clearing the history touches row and snapshot under separate locks. `NewSpoiledExactly`,
   `ResurrectedExactly` and `ClearedTogetherExactly` say which operations in between leave the two apart; ending the replaced
   transfer always does (`EndingSpoils`).
   `FailureInBetweenSpoils` is a new offer whose row ends up as the failure of the transfer it replaces, so that a restart
   finds it failed instead of interrupted; in `ReportInBetweenResurrects` a progress report brings a deleted row back.

The handshake works exactly when the two sides agree about trusting each other (`GoodExactlyWhenAgreed`). A terminal state is
left by a new offer under the same id, which always leaves it, and by nothing else (`TerminalLeftExactly`,
`TerminalIsAbsorbing`).

## Model

| member | source | states |
|---|---|---|
| SessionTheorems.CompletedMeansDelivered | native/transfer_core/src/outgoing.rs:785-792 | in every run, if the sender says completed then the receiver has completed and renamed every file, and a file equals its source byte for byte exactly unless its part file was renamed away under recorded chunks (or the source is all zeros) |
| SessionTheorems.LostExactly | native/transfer_core/src/incoming.rs:567-589 | a file is such an exception exactly when some session opened after its rename and before the rows were cleared, and no later session opened from cleared rows |
| SessionTheorems.CompletedDeliversEverything | native/transfer_core/src/lan.rs:456-467 | without such a session, sender completed means all finalized files are the sources |
| SessionTheorems.CompletedForGood | native/transfer_core/src/outgoing.rs:785-792 | once the sender has completed no session follows, and no later step, of handlers still at work included, changes what was delivered |
| SessionTheorems.RecordedIsOnDisk | native/transfer_core/src/incoming.rs:228-241 | over any number of sessions, a recorded chunk has its source bytes in the part file exactly unless the file was renamed away under recorded chunks by a session opened in between (then it holds zeros, which is right only for a chunk of zeros) |
| SessionTheorems.SessionResumes | native/transfer_core/src/incoming.rs:341-358 | a new session queues exactly the chunks not recorded, each once and in order; counter, job count and both sides' starting progress agree |
| SessionTheorems.SessionOpensChannels | native/transfer_core/src/lan.rs:327-335 | a session opens as many channels as it queues chunks, and at most four |
| SessionTheorems.CounterCovers | native/transfer_core/src/incoming.rs:229-241 | the counter is never below the number of unmarked chunks, zero means every file is complete, and the receiver's progress is exactly the counted bytes, the total when the counter is zero |
| SessionTheorems.SubtractionIsFresh | native/transfer_core/src/incoming.rs:230-241 | every decrement is for a chunk marked and never subtracted before, and finds the counter positive, however often the chunk was delivered |
| SessionTheorems.IncompleteBranchUnreachable | native/transfer_core/src/incoming.rs:567-577 | finalizing never meets an incomplete file |
| SessionTheorems.ExactBetweenLocks | native/transfer_core/src/incoming.rs:211-241 | in an error-free session with no resume lock held, the counter is exactly what is missing and the progress exactly the bytes of the marked chunks |
| SessionGivingUp.GivesUpExactly | native/transfer_core/src/lan.rs:386-449 | the control loop of an error-free session can come to give up as incomplete if and only if at some moment of the session it had been notified, a channel had ended, none was attached, and a missing chunk sat on a channel yet to attach; what arrived since does not matter |
| SessionGivingUp.GivesUpOnlyAfterAGap | native/transfer_core/src/lan.rs:433-449 | when an error-free session does give up, there was such a moment in it |
| SessionWaking.LastEndIsHeardExactly | native/transfer_core/src/incoming.rs:140-147 | the end of the last active channel calls the control loop if and only if the loop waits at that moment, or has been called before and not yet come round to it |
| SessionWaking.AsleepExactly | native/transfer_core/src/lan.rs:364-426 | over all runs, the loop waits with a channel ended and none attached if and only if it had begun to wait only after the last channel was gone, and neither a channel nor a message has come since |
| SessionWaking.ZeroIsHeardExactly | native/transfer_core/src/incoming.rs:239-241 | the decrement that brings the counter to zero calls the control loop if and only if the loop waits at that moment, or has been called before |
| SessionWaking.WaitsAtZeroExactly | native/transfer_core/src/lan.rs:364-426 | over all runs, the loop waits with nothing remaining if and only if the counter was already zero when it began to wait, and neither a message nor the end of the last channel has come since |
| SessionWaking.FinalizesExactly | native/transfer_core/src/lan.rs:364-433 | with the counter at zero, the loop gets to finalizing by its own steps if and only if it is not past looking at the counter: about to wait, waiting, or on its way to giving up |
| SessionWaking.NothingButFinalizing | native/transfer_core/src/lan.rs:366-429 | from where it can get to finalizing, the loop's own steps lead nowhere else |
| SessionWaking.AMessageHelps | native/transfer_core/src/lan.rs:386-426 | any message lets a loop that waits with nothing remaining get to finalizing |
| SessionWaking.StoppedForGood | native/transfer_core/src/lan.rs:449 | a session in which the receiver has given up or stopped never completes, whatever else happens in it |
| SessionTheorems.AllEndedMeansComplete | native/transfer_core/src/incoming.rs:134-148 | when every channel of an error-free session has ended, nothing remains and every file is complete |
| SessionTheorems.HandlersNeverFail | native/transfer_core/src/incoming.rs:149-228 | no handler of an error-free session rejects a header or payload |
| SessionTheorems.PacketsAreJudged | native/transfer_core/src/incoming.rs:171-228 | in every state with the invariant, a packet outside the plan or with any payload but the source's ends its handler with an error, marked chunks included; any other passes, to be skipped when marked and written when not |
| SessionTheorems.SenderProgressIsExact | native/transfer_core/src/outgoing.rs:876-921 | the sender's progress is the total minus the bytes queued, in hand, prefetched or written but unreported; it is the total once every channel has left its loop |
| SessionWitnesses.RetryAfterHalfFinalizeDeliversZeros | native/transfer_core/src/incoming.rs:567-589 | a run that ends with the sender completed and the delivered file zero instead of its source |
| SessionWitnesses.CleanRunMayGiveUp | native/transfer_core/src/lan.rs:427-449 | an error-free run in which the loop sees a counter of two, then no active channel, and gives up |
| SessionWitnesses.GivesUpWithNothingMissing | native/transfer_core/src/lan.rs:427-449 | an error-free run that gives up with the counter at zero and every file complete |
| SessionWitnesses.LostNotification | native/transfer_core/src/incoming.rs:140-147 | an error-free run in which the last attached channel goes just before the loop waits: the loop sleeps with chunks missing, and could not have come to give up |
| SessionWitnesses.SleepsWithNothingMissing | native/transfer_core/src/incoming.rs:239-241 | an error-free run in which the last chunk and the last end come after the loop has looked at the counter and before it waits: it sleeps with every file complete and cannot finalize by itself |
| SessionWitnesses.SenderMayEndShort | native/transfer_core/src/outgoing.rs:785-792 | an error-free run in which the sender completes with its own progress at zero |
| SessionSafety.RunKeepsInv | native/transfer_core/src/incoming.rs:116-280 | the invariant tying disk, marks, rows, counter, progress, locks and handlers together holds after every run |
| SessionSafety.WritePieceKeeps | native/transfer_core/src/incoming.rs:228 | any short write of a verified chunk keeps every marked chunk and every other half-written chunk intact |
| SessionSafety.LockAndMarkKeeps | native/transfer_core/src/incoming.rs:230-231 | marking under the lock keeps the invariant, whether the chunk was marked meanwhile or not |
| SessionSafety.SubtractKeeps | native/transfer_core/src/incoming.rs:239-241 | the decrement keeps the invariant and never wraps; when it calls the control loop is `SessionWaking.ZeroIsHeardExactly` |
| SessionSafety.BreakKeeps | native/transfer_core/src/incoming.rs:157-174 | a handler that fails anywhere, with or without the lock, keeps the invariant |
| SessionSafety.ZeroMeansAllDone | native/transfer_core/src/lan.rs:364-368 | the counter is zero if and only if every chunk has gone through all its steps |
| SessionSafety.ClearRowsKeeps | native/transfer_core/src/persistence.rs:430-437 | clearing the rows after the last rename keeps the invariant |
| SessionSafety.NewSessionKeeps | native/transfer_core/src/incoming.rs:332-358 | opening a session over any reachable disk and table re-establishes the invariant |
| SessionSafety.VerifiedIsSource | native/transfer_core/src/storage.rs:55-72 | a payload that passes verification under a planned header is the source chunk |
| SessionProgress.RunKeepsClean | native/transfer_core/src/outgoing.rs:868-921 | while nothing has failed, every unmarked chunk is in the queue, in a hand, in a slot, on a stream or before a handler, and every marked one is subtracted or on its way |
| SessionProgress.SendCarries | native/transfer_core/src/outgoing.rs:877-921 | no channel step drops a chunk |
| WorkQueue.RunConserves | native/transfer_core/src/outgoing.rs:876-921 | for any number of channels and any interleaving, queue, hands, slots and sent jobs together are a permutation of the job list |
| WorkQueue.CleanExitSendsEverything | native/transfer_core/src/outgoing.rs:886-890 | when every channel has left its loop, each job was sent exactly as often as it was queued and none is stranded in a slot |
| WorkQueue.SingleChannelInOrder | native/transfer_core/src/outgoing.rs:697-699 | a single channel writes the jobs in exactly the order of the list |
| Jobs.JobSums | native/transfer_core/src/outgoing.rs:686-691 | as many jobs as missing chunks, and job bytes plus completed bytes make up the job total |
| Jobs.JobsExactly | native/transfer_core/src/outgoing.rs:949-968 | the job list holds only missing (file, chunk) pairs, strictly ordered, so none twice |
| Jobs.EveryMissingIsAJob | native/transfer_core/src/outgoing.rs:949-968 | every missing pair is in the job list |
| Jobs.NothingRemains | native/transfer_core/src/incoming.rs:354-358 | the number of missing chunks is zero if and only if every file is complete |
| Jobs.MarkSums | native/transfer_core/src/incoming.rs:230-239 | marking one chunk takes one off what remains and adds its length to what is done |
| Preparation.PrepareIncoming | native/transfer_core/src/incoming.rs:313-390 | succeeds exactly when every size can be planned and the counter fits; then every file gets its reloaded resume map and a part file of the right size, nothing else is in the context, and counter and resumed bytes are those of the reloaded chunks |
| Preparation.Reload | native/transfer_core/src/incoming.rs:341-352 | the resume map holds exactly the recorded indices that are in range |
| Preparation.ResumeEnvelope | native/transfer_core/src/incoming.rs:94-113 | exactly one bitmap for every file, no id twice, sorted by id, each declaring exactly that file's completed chunks |
| Preparation.BuildChunkJobs | native/transfer_core/src/outgoing.rs:944-970 | succeeds exactly when every size and bitmap is acceptable, and then yields the missing chunks of every file in order |
| Preparation.LookupIsLast | native/transfer_core/src/outgoing.rs:949-953 | of several records for one item the last one counts |
| Preparation.AgreeOnJobs | native/transfer_core/src/outgoing.rs:679-691 | the jobs built from the receiver's own resume message are exactly its missing chunks, as many as its counter says |
| Preparation.PrepareAndBuild | native/transfer_core/src/incoming.rs:353-358 | from prepared context to job list: the counter the receiver starts with is the number of jobs the sender builds from that context's resume message; they are exactly the missing chunks, strictly ordered, and their bytes and the resumed ones make up the sizes of all files |
| Sequential.SingleChannelSendsInOrder | native/transfer_core/src/outgoing.rs:697-699 | on one channel starting from nothing, the chunks of every file are sent first to last without a gap, and all of them once the channel leaves |
| Sequential.TakeChunk | native/transfer_core/src/incoming.rs:243-276 | a chunk already marked is only verified, the next one is appended and marked, and a rejected one leaves file and marks alone |
| Sequential.ReceiveSequential | native/transfer_core/src/incoming.rs:243-276 | in index order, appending at the cursor leaves exactly what positioned writes would have left |
| Sequential.InOrderBuildsTheSource | native/transfer_core/src/storage.rs:39-53 | source chunks written in order into an empty file are the source so far, and the whole source at the end |
| Sequential.ReadSequential | native/transfer_core/src/storage.rs:28-37 | a fresh source read from its cursor in index order yields the chunks positioned reads would have yielded |
| Sequential.CopySequential | native/transfer_core/src/storage.rs:28-53 | one fresh file read in order and received in order: the target is the source, and on working files nothing fails |
| Sequential.ReadsRightExactly | native/transfer_core/src/storage.rs:28-37 | reading a file's missing chunks one after another at the cursor is right for every source if and only if the source stands at the first of them and the receiver has no chunk between two it misses |
| Sequential.ResumedReadIsWrong | native/transfer_core/src/outgoing.rs:829-836 | of two chunks the receiver has the first: the sender reads the first one's bytes for the second, under a digest that fits them |
| OneChannel.ExitedInTurn | native/transfer_core/src/outgoing.rs:697-699 | whatever a single channel prefetched, once it leaves its loop it has sent each file's missing chunks first to last, as many as the counter says |
| OneChannel.ReadAll | native/transfer_core/src/outgoing.rs:818-839 | up to the first read that fails, each job is read at its offset, or behind everything read before it from a source without random access |
| OneChannel.ReadIsSource | native/transfer_core/src/outgoing.rs:829-836 | where every source read in order stands right, what is read for a job is the source's chunk |
| OneChannel.TakeNext | native/transfer_core/src/incoming.rs:206-277 | with or without random access, the next chunk the channel delivers is written, marked, recorded and counted down; if that fails part-way, what is marked is still the source's |
| OneChannel.TransferInTurn | native/transfer_core/src/lan.rs:331-335 | for every run of a single channel that has left its loop, with any mix of access on both sides, chunks resumed where that is possible and rows of earlier sessions that were not reloaded: what is marked is the source's whatever fails; on working files and database nothing fails; and then every target equals its source, every map is full, every missing chunk recorded, and the counter at zero |
| Reception.TakePositioned | native/transfer_core/src/incoming.rs:211-242 | a marked chunk is only verified; any other is written, marked, recorded and taken off the counter in that order, and a failure leaves exactly what the earlier steps did; on a working file and database only an unsound chunk fails |
| Reception.TakeSource | native/transfer_core/src/incoming.rs:211-242 | whatever fails on the way, what is marked stays equal to the source |
| Reception.TakeAll | native/transfer_core/src/incoming.rs:149-243 | chunks in any order and repetition: the counter goes down once for each new chunk, and a full map makes the file the source |
| Reception.FinalizeIncoming | native/transfer_core/src/incoming.rs:562-592 | exactly the first complete parts are renamed, each to its own path with its own contents; nothing present is overwritten and nothing else appears; the rows are cleared if and only if everything was renamed, and everything is if the parts can be moved and nothing fails |
| Handshake.GoodExactlyWhenAgreed | native/transfer_core/src/lan.rs:271-305 | no run gets stuck or misreads a message if and only if both sides trust each other or neither does |
| Handshake.OpenedMeansAgreed | native/transfer_core/src/outgoing.rs:638-702 | whatever the trust, data channels are opened only if the receiver's user accepted and, when untrusted, the sender's user confirmed as well; `EndsAsAnswered` is the other direction |
| Handshake.EndsAsAnswered | native/transfer_core/src/outgoing.rs:638-702 | with agreeing trust, when nobody dies, a finished handshake has opened the channels if and only if every user asked said yes; the receiver has accepted or rejected accordingly, and the sender failed with the pairing refused when untrusted, the offer refused when trusted, unless it lost the connection first |
| Handshake.YesOpensChannels | native/transfer_core/src/outgoing.rs:675-724 | with agreeing trust, no death and only yes, nothing ever fails or is refused on the way, and where no step is left the channels are open |
| Handshake.NeverStuck | native/transfer_core/src/lan.rs:210-305 | with agreeing trust no reachable state is stuck or misreads a message, whoever says no and whoever dies |
| Handshake.AlwaysComesToItsEnd | native/transfer_core/src/outgoing.rs:617-702 | with agreeing trust and no crash the handshake ends within a bounded number of steps with both sides done |
| Handshake.DisagreementGoesWrong | native/transfer_core/src/lan.rs:271 | for each way to disagree and any number of pages, a run of yes-sayers that gets stuck or misreads |
| Handshake.RunKeepsInv | native/transfer_core/src/outgoing.rs:617-679 | every message ever written is the one its place in the script calls for, for each combination of trust and answers |
| Lifecycle.Transfer.TransitionTo | native/transfer_core/src/model.rs:130-139 | the state moves exactly where the table, read by target, leads, and a refused transition leaves it |
| Lifecycle.Transfer.ApplyCommand | native/transfer_core/src/model.rs:141-149 | which commands each state accepts, and where they lead |
| Lifecycle.TableExactly | native/transfer_core/src/model.rs:37-53 | which states lead to each state: completed is entered from verifying alone, verifying from transferring alone, failed from every active state but interrupted, and so on |
| Lifecycle.EnteredExactly | native/transfer_core/src/core.rs:884-1010 | by which mutations each state is entered, those that bypass the table included |
| Lifecycle.CompletesInThree | native/transfer_core/src/model.rs:37-53 | a new transfer completes by three transitions, and no history of fewer mutations of any kind completes it |
| Lifecycle.TerminalLeftExactly | native/transfer_core/src/model.rs:29-31 | a mutator changes Completed or Cancelled if and only if it is a new offer under the same id, which always leads to a state that is not terminal |
| Lifecycle.TerminalIsAbsorbing | native/transfer_core/src/model.rs:29-31 | between two moments of any history, with every mutator including those that bypass the table, a terminal state stays if and only if no new offer comes in between |
| Lifecycle.NewOfferLeavesCompleted | native/transfer_core/src/core.rs:692-701 | a completed and a cancelled transfer started over by an offer |
| Lifecycle.OnlyTerminalIsAbsorbing | native/transfer_core/src/model.rs:29-53 | the terminal states are exactly those every mutator leaves alone |
| Lifecycle.VerifyingCameFromTransferring | native/transfer_core/src/model.rs:37-53 | a verifying transfer was transferring before, with nothing in between |
| Lifecycle.CompletedWasVerified | native/transfer_core/src/core.rs:884-1010 | a completed transfer was verifying right before, and verifying was entered from transferring, over whole histories |
| Core.TransferCore.Put | native/transfer_core/src/core.rs:995-1010 | memory first, then the row; a failed save marks exactly that row as out of date |
| Core.TransferCore.SaveNew | native/transfer_core/src/core.rs:696 | the first half of a new transfer: its row is written, and counts as out of date until the snapshot is there |
| Core.TransferCore.InsertNew | native/transfer_core/src/core.rs:697-699 | the second half: the snapshot is inserted, and the row is up to date exactly if it agrees with it by then |
| Core.TransferCore.Send | native/transfer_core/src/core.rs:300-336 | with nobody else at work on the id: the row is written before the snapshot exists; a failure in between leaves only the row |
| Core.TransferCore.AddIncoming | native/transfer_core/src/core.rs:692-701 | with nobody else at work on the id: a new offer replaces the whole snapshot under its id, row first, and a failed save changes nothing |
| Core.TransferCore.TransitionTransfer | native/transfer_core/src/core.rs:703-716 | only that transfer's state and error change, by the table, and the row follows |
| Core.TransferCore.EndWith | native/transfer_core/src/core.rs:884-920 | failing, interrupting and cancelling bypass the table but stop at terminal states |
| Core.TransferCore.FromRemote | native/transfer_core/src/core.rs:935-993 | remote pause and cancel change and save any state but completed and cancelled, remote resume paused alone; everything else is left unsaved |
| Core.TransferCore.CommandTransfer | native/transfer_core/src/core.rs:359-427 | a command is refused exactly when the state does not accept it, and then nothing changes |
| Core.TransferCore.UpdateCompletedBytes | native/transfer_core/src/core.rs:718-769 | memory always advances; the row is written at the total, at first progress, or half a second after the last time, and then only, so a row never runs ahead, is less than half a second behind, and is exact at the total |
| Core.TransferCore.SetCompletedBytes | native/transfer_core/src/core.rs:771-796 | progress is clamped to the total and saved |
| Core.ReportsAddUp | native/transfer_core/src/core.rs:735 | any sequence of reports adds up exactly, up to the total: saturation and clamp lose nothing before it |
| Core.TransferCore.ClearHistory | native/transfer_core/src/core.rs:526-533 | with nobody else at work: finished transfers leave memory and database together |
| Core.TransferCore.DeleteHistory | native/transfer_core/src/core.rs:535-545 | with nobody else at work on the id: row and snapshot go together, and a snapshot without a row stays |
| Interleavings.NewAgreesExactly | native/transfer_core/src/core.rs:692-701 | whatever other threads do between row and snapshot, the row agrees with the new snapshot if and only if none of them wrote or removed it, or the last to do so left one that tells the same |
| Interleavings.NewSpoiledExactly | native/transfer_core/src/core.rs:692-701 | by operation: they end up in step if and only if every save of another state, direction, total or progress in between, and every removal of the row, is followed by a save that tells what the new snapshot tells |
| Interleavings.EndingSpoils | native/transfer_core/src/core.rs:884-920 | failing, interrupting or cancelling the replaced transfer in between spoils the row of an offer, whatever state it was in; so does saving any progress |
| Interleavings.UnknownAgrees | native/transfer_core/src/core.rs:323-336 | a transfer not yet in memory cannot be spoiled so, short of deleting its row or offering it again |
| Interleavings.FailureInBetweenSpoils | native/transfer_core/src/lan.rs:182 | the previous transfer under the id fails in between: memory waits for acceptance, the row says failed, and a restart restores failed |
| Interleavings.DeletedTogetherExactly | native/transfer_core/src/core.rs:538-541 | the snapshot goes; the row goes with it if and only if nobody wrote it again in between, or the last to do so removed it |
| Interleavings.ResurrectedExactly | native/transfer_core/src/core.rs:538-541 | by operation: a deleted row is back if and only if some save in between writes it and no removal comes after that |
| Interleavings.ReportInBetweenResurrects | native/transfer_core/src/core.rs:538-541 | a progress report between the halves leaves the row behind alone |
| Interleavings.ClearedTogetherExactly | native/transfer_core/src/core.rs:526-533 | clearing never leaves a snapshot without its row; the two go or stay together if and only if the transfer is still active in between or nobody saved it then |
| Core.TransferCore.Shutdown | native/transfer_core/src/core.rs:561-576 | every row whose save succeeds ends up equal to its snapshot, all of them with a database that takes every write, and rows without a snapshot stay |
| Core.TransferCore.Initialize | native/transfer_core/src/core.rs:206-222 | unfinished rows become interrupted, in memory and in the database; a start that fails half-way leads to the same result next time |
| Core.RestartKeeps | native/transfer_core/src/core.rs:206-222 | a restart yields exactly the states in memory with unfinished ones interrupted, at most their progress, and all of it at the total; finished rows come back as they are, unfinished ones with nothing but state and error changed |
| Chunks.PlanExists | native/transfer_core/src/chunk.rs:23-36 | a plan exists exactly for a non-zero chunk size and a file of at most u32::MAX chunks |
| Chunks.ChunksAbut | native/transfer_core/src/chunk.rs:42-58 | chunks follow one another without gap or overlap from zero to the end of the file, none is empty, none leaves u64 |
| Chunks.EveryByteHasOneChunk | native/transfer_core/src/chunk.rs:42-58 | every byte lies in exactly one planned chunk |
| Chunks.CompletedPlusMissingIsFileSize | native/transfer_core/src/chunk.rs:60-72 | for any resume map, completed bytes plus missing lengths are the file size |
| Chunks.MissingExactly | native/transfer_core/src/chunk.rs:60-72 | the missing chunks are exactly the planned ones outside the map, in index order |
| ResumeMaps.ResumeMap.constructor | native/transfer_core/src/chunk.rs:83-90 | a new map is empty |
| ResumeMaps.ResumeMap.MarkComplete | native/transfer_core/src/chunk.rs:92-109 | adds the index and says whether it was new; an index out of range is an error and changes nothing |
| ResumeMaps.ResumeMap.Contains | native/transfer_core/src/chunk.rs:111-117 | a bit is set exactly for the members of the set |
| ResumeMaps.ResumeMap.IsComplete | native/transfer_core/src/chunk.rs:119-121 | the count is full if and only if every index is in |
| ResumeMaps.ResumeMap.ToBitmapBytes | native/transfer_core/src/chunk.rs:123-132 | the bitmap declares exactly the set, with clear padding |
| ResumeMaps.BitmapLayout | native/transfer_core/src/chunk.rs:123-132 | chunk `i` is the binary digit `i % 8`, from the low end, of byte `i / 8` |
| ResumeMaps.ResumeMap.FromBitmapBytes | native/transfer_core/src/chunk.rs:134-149 | succeeds exactly for the right length, and reads the declared set, ignoring padding |
| ResumeMaps.ResumeMap.CompletedBytes | native/transfer_core/src/chunk.rs:151-166 | the total length of the completed chunks, or the mismatch of counts |
| ResumeMaps.ResumeMap.CountBelow | native/transfer_core/src/incoming.rs:526-530 | counting bit by bit gives the stored count and the cardinality of the set |
| ResumeMaps.RoundTripMap | native/transfer_core/src/chunk.rs:123-149 | export then import gives back the same words and count |
| ResumeMaps.RoundTripBytes | native/transfer_core/src/chunk.rs:123-149 | import then export gives back the same bytes if and only if the padding was clear |
| Storage.DiskFile.WriteAllAt | native/transfer_core/src/storage.rs:86-96 | for any sequence of short writes, exactly the buffer lands at the offset; an error leaves a written prefix and nothing else |
| Storage.DiskFile.ReadExactAt | native/transfer_core/src/storage.rs:74-84 | for any sequence of short reads, exactly the requested range, or an end of file only if the range leaves the file |
| Storage.DiskFile.ReadChunk | native/transfer_core/src/storage.rs:17-26 | the declared range with its digest |
| Storage.DiskFile.WriteVerifiedChunk | native/transfer_core/src/storage.rs:39-43 | nothing is written unless length and digest are right |
| Storage.DiskFile.ReadSequentialChunk | native/transfer_core/src/storage.rs:28-37 | the next bytes at the cursor, whatever offset the chunk names |
| Storage.DiskFile.WriteSequentialChunk | native/transfer_core/src/storage.rs:45-53 | a verified chunk is appended at the cursor, and a rejected one changes nothing |
| Storage.WritersDoNotDisturb | native/transfer_core/src/storage.rs:86-96 | however the short writes of distinct chunks interleave, each chunk ends up as if only its own writer had run |
| Framing.TakeFrameInverse | native/transfer_core/src/protocol.rs:13-45 | a frame read back is the frame written, and the rest of the stream is left alone |
| Framing.HighByteFirst | native/transfer_core/src/protocol.rs:13-45 | lengths travel with the high byte first |
| Framing.TakeFrameExactly | native/transfer_core/src/protocol.rs:13-45 | what is taken from a stream is a frame within the limit that the stream begins with, and nothing else |
| Framing.FrameRefusedExactly | native/transfer_core/src/protocol.rs:34-45 | a prefix that announces more than the limit, and only that, is refused as too large |
| Framing.EnvelopeRoundTrip | native/transfer_core/src/protocol.rs:13-58 | an envelope within the limit is read back as written |
| Framing.ReadEnvelope | native/transfer_core/src/protocol.rs:34-58 | consumes one frame, and fails on a large frame, an undecodable body or another major version |
| Framing.TakeEnvelopeExactly | native/transfer_core/src/protocol.rs:34-58 | an envelope is taken if and only if it came in a frame of at most 1 MiB, decodes, and is of major version 1 |
| Framing.OtherVersionRefused | native/transfer_core/src/protocol.rs:47-58 | an envelope of another major version is refused as such |
| Framing.HeaderAcceptedExactly | native/transfer_core/src/transfer.rs:119-149 | a chunk header is accepted if and only if it names a planned chunk of a known file of this transfer with a 32-byte digest |
| Framing.HeaderRefusedExactly | native/transfer_core/src/transfer.rs:119-149 | which error a refused header gets, by the first check it fails |
| Framing.ReceiveLoop | native/transfer_core/src/incoming.rs:149-205 | what the reading loop hands on from a byte stream, and how it ends |
| Framing.SendLoop | native/transfer_core/src/outgoing.rs:908-921 | header then payload, chunk after chunk |
| Framing.StreamRoundTrip | native/transfer_core/src/incoming.rs:149-205 | parsing what a channel wrote gives exactly the sent chunks, in order, and ends cleanly |
| Framing.TruncatedStream | native/transfer_core/src/incoming.rs:149-205 | a stream cut anywhere gives exactly the chunks that arrived whole, a prefix of those sent |
| Framing.ReceiveCut | native/transfer_core/src/incoming.rs:151-189 | a chunk cut in two ends the loop cleanly if and only if the cut is before its payload |
| Manifests.Validate | native/transfer_core/src/manifest.rs:53-69 | accepts exactly the manifests whose paths are valid and distinct and whose directories have no size |
| Manifests.SegmentsAcceptedExactly | native/transfer_core/src/manifest.rs:84-99 | segments are accepted exactly when each is a plain name |
| Manifests.PathAcceptedExactly | native/transfer_core/src/manifest.rs:71-108 | a path is accepted if and only if it is non-empty, at most 4096 bytes, without backslash, leading slash or drive prefix, and all its segments are accepted |
| Manifests.AcceptedPathIsConfined | native/transfer_core/src/manifest.rs:71-101 | an accepted path is relative, and no segment is empty, `.`, `..` or contains a separator |
| Manifests.WriteManifest | native/transfer_core/src/outgoing.rs:85-121 | writes the pages of at most 1000 entries one after another, and fails exactly when some page exceeds the frame limit |
| Manifests.LastFlagExactly | native/transfer_core/src/outgoing.rs:93-115 | the last-page flag stands on exactly the final page, exact multiples of 1000 included, and the pages hold all entries |
| Manifests.WireExactly | native/transfer_core/src/outgoing.rs:93-115 | what each field of an entry becomes on the wire |
| Manifests.ReadManifest | native/transfer_core/src/incoming.rs:635-679 | reads what `TakeManifest` says the stream holds, and then refuses a repeated id |
| Manifests.ManifestAcceptedExactly | native/transfer_core/src/incoming.rs:635-679 | a stream is accepted if and only if it holds pages of this transfer numbered from zero, the last of them and no other flagged as the last, with files and directories only; what is read are their entries in order |
| Manifests.ManifestRoundTrip | native/transfer_core/src/incoming.rs:635-679 | for every non-empty entry list, any number of full pages included, reading after writing gives the same entries in order |
| PathSafety.UniqueTargetName | native/transfer_core/src/path_safety.rs:4-25 | ends within as many candidates as names are taken plus one, with a name that is neither present nor reserved |
| PathSafety.SuffixedInjective | native/transfer_core/src/path_safety.rs:27-37 | different suffix numbers give different names |
| PathSafety.SuffixedForm | native/transfer_core/src/path_safety.rs:27-37 | the suffix goes between stem and extension, in parentheses |
| PathSafety.SuffixedWithoutExtension | native/transfer_core/src/path_safety.rs:27-37 | a name without stem or extension around its last dot gets the suffix at its end |
| PathSafety.AllocateFinalPaths | native/transfer_core/src/incoming.rs:594-633 | every entry gets the path of its root's chosen name; different roots get different names, none of them present before, each the first of its candidates that nothing stands in the way of |
| PathSafety.PlaceManifest | native/transfer_core/src/incoming.rs:594-633 | on a validated manifest every entry gets a path of its own, below the receive directory and under a first name not present before; with its own root put back in front it is the path the manifest says, and two entries share the first name if and only if they share their root |
| PathSafety.FinalPathsInjective | native/transfer_core/src/incoming.rs:594-633 | on a validated manifest no two entries share a final path |
| PathSafety.FinalPathsConfined | native/transfer_core/src/incoming.rs:602-631 | on a validated manifest every final path is the receive directory followed by plain names |
| PathSafety.FinalPathsHaveNoDots | native/transfer_core/src/path_safety.rs:39-46 | validated or not, no component of a final path is `.` or `..` |

## Left out

- TLS, certificates, pairing codes, discovery, the FFI and Android layers, SQL text and migrations, and the user interface
  are not modelled.
- Protobuf field encoding: the codec is a parameter assumed to be invertible.
- Waiting for pauses and results is not modelled, and steps are not assumed to be taken eventually: nothing is claimed about
  liveness beyond `SessionWaking`, which says what the control loop can reach by its own steps.
- `JobControl` pausing and cancelling appear only as a channel that does not move or that fails.
- A cancelled transfer, whose partial data is deleted, and part files deleted from outside are not part of the session
  model.
- Retryable and permanent errors: which of the two a failure becomes is left to the caller of
  `Core.TransferCore.EndWith`.
- Session: a directory is an entry without bytes; creating directories, a failed sync and a target that appears before the
  rename are the step `StopReceiver` there, and errors of `Reception.FinalizeIncoming`.
- Reception: the receiver's files are taken one at a time; the map of all files, which the source locks file by file, is in
  `Session`.
- Session: files without random access are modelled in `Sequential` and `OneChannel`, not inside the session's step system;
  `OneChannel.TransferInTurn` reads all chunks before the first is received, and receives what was read before a read that
  failed; on two devices this comes to the same.
- Handshake: a message that names another transfer id, another page number, or an undecodable body is not part of this
  model; `Manifests.ReadManifest` and `Framing.ReadEnvelope` cover those.
- Handshake: what the handshake needs of the manifest is at least one page, which an offer without entries would not have;
  the sender refuses to scan one.
- Core.TransferCore.AddIncoming: states what the two halves do with nothing in between; a restart that finds the transfer
  failed (a failure of its predecessor saved in between) is `Interleavings.FailureInBetweenSpoils`, and what exactly keeps
  the two in step is `Interleavings.NewSpoiledExactly`.
- Core.TransferCore.Send: likewise; `Interleavings.UnknownAgrees` says what else could come in between.
- Core.TransferCore.DeleteHistory: likewise; a row saved again in between stays behind, see
  `Interleavings.ResurrectedExactly`.
- Core.TransferCore.ClearHistory: likewise; the halves run under two separate locks, see
  `Interleavings.ClearedTogetherExactly`, which covers operations under the state lock in between.
- Core: timestamps, speed, peer names and the event queue are not modelled; ids are numbers.
- PathSafety.AllocateFinalPaths: the names present in the receive directory are a parameter, and names are those of a
  case-sensitive file system, so the Windows branches of sanitizing and comparing names are not covered.
- `unique_manifest_root` and the platform file tokens of the sender's source list are not modelled; they would only add easy
  members.
- The test-only pipeline `send_file_chunks` and `receive_file_chunks` repeats the loops modelled in `Framing` and `Storage`.
