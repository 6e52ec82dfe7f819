# AgentBridge connector and server: a verified model

This project models the parts of AgentBridge in which several steps, crashes or
connections have to fit together, and proves what they keep.

| file | what it models |
|---|---|
| `Common.dfy` | frames, streams, options and results |
| `Spool.dfy`, `SpoolStores.dfy` | the durable output spool: an abstract queue per stream, and the in-memory and the disk store as classes |
| `Sender.dfy`, `SenderProgress.dfy`, `WindowEffects.dfy`, `DeliveryWindow.dfy` | the supervisor's bounded delivery window and its scanning loop, as a step function with its safety, its progress and what each event does, and as a class |
| `Ipc.dfy` | the framing of the channel between supervisor and transport, and its size limit |
| `Transport.dfy` | the outstanding table of the transport, and the answers of the server end to end |
| `Recording.dfy`, `RecordingStore.dfy` | the server's frame ledger: classify, commit, answer, erase, expire |
| `Pipeline.dfy`, `PipelineSafety.dfy`, `PipelineProgress.dfy`, `PipelineBursts.dfy` | emitters, supervisor, transports, sockets and server as one step system, its safety over every run, delivery after a reconnect, and what changes when sends never suspend |
| `Journals.dfy`, `NativeWriter.dfy`, `Ownership.dfy` | the native-writer journal byte by byte, the lease, and at most one child over crashes |
| `Opens.dfy`, `OpensSafety.dfy`, `OpensEffects.dfy` | opening, resuming and closing sessions with suspension points: what no interleaving breaks, and what each step comes to |
| `Inputs.dfy` | at-most-once delivery of client input |
| `Turns.dfy` | the turn queue of a per-turn agent session |
| `Layout.dfy`, `LayoutEdits.dfy` | the split layout: geometry in exact reals, and editing |
| `SkillTrees.dfy`, `SkillBindings.dfy`, `SkillStore.dfy` | replacing installed skill trees, merging their destinations, collecting the store |
| `Limiter.dfy` | the fixed-window rate limiter |
| `Restore.dfy`, `Chat.dfy`, `ChatHistory.dfy` | the restored chat tail, the browser's fold, and what its rows say in terms of the events |

Code that updates objects step by step is a class whose methods are proved equal to a
specification function; protocols with concurrency are step functions over values, run
over arbitrary sequences of actions. `dafny verify dfyconfig.toml` checks everything.

## Where the code differs from its documentation

The model follows the code in each case.

- A fence deletes the acknowledged mark (connector/spool.py:391, connector/spool.py:705-708),
  so numbers start again at 1 although connector/spool.py:14-18 says they are never
  reused. `Spool.NumberRepeatsIffFenced` gives the exact condition. The end-to-end
  theorems are about runs in which nobody removes an agent; that the server never asks
  for a fence is part of the result.
- `_has_sendable` ignores the byte bound (connector/supervisor.py:268-278). When the
  bound stops the first unsent row while anything is in flight, the loop never awaits
  again: `Sender.PassOutcomes`, `Sender.SpinRepeats`, `Sender.TwoLargeFramesSpin`.
  `SenderProgress.SpinsIffTooLarge` says for which spools this can happen;
  `SenderProgress.EveryInterleavingDrains` is the progress of all others. The whole
  process of the supervisor hangs then, and only a restart gets it out:
  `PipelineProgress.ReconnectDelivers`, `PipelineProgress.RestartNeededIff`. Where `send` does not
  suspend (connector/ipc.py:276-280), the restarted loop may hang again before it reads
  anything: `PipelineBursts.RestartHelpsIff` says exactly when,
  `PipelineBursts.BurstsDeliver` when everything gets through.
- The spool takes any frame, but `send` raises for a delivery whose encoded text exceeds
  1 MiB (connector/ipc.py:51-60, connector/ipc.py:276-280, connector/ipc.py:312-316), and
  nobody looks at the task it ends (connector/client.py:192, connector/client.py:270). The
  row is booked and stays, and so does everything behind it on every stream, on each
  attach again: `PipelineSafety.NothingPastBlocked`,
  `PipelineProgress.ReconnectDeliversEverything`, `PipelineProgress.LargeFrameBlocks`. The
  bound is stricter than the server's (server/app/recording.py:199-200), whose refusal is
  therefore never reached: `Ipc.DeliverableIsAdmissible`, `PipelineSafety.OnlyAcknowledgements`.
- The scan iterates a snapshot over awaits (connector/supervisor.py:241-258), so a fence
  in mid-scan leaves an id in flight without a row: `Sender.FenceInScanLeaksASlot`.
  `SenderProgress.FenceGhosts` and `SenderProgress.RemovalGhosts` say exactly when.
- Removing agents frees slots of the window but, unlike a fence
  (connector/supervisor.py:310-323), never sets the event the loop waits for
  (connector/supervisor.py:345-371): with a full window the loop sleeps on over output of
  other agents until the next event. `SenderProgress.RemovalWakes` says exactly when,
  `SenderProgress.RemovalLosesWakeup` that it happens.
- `PersistResult.committed` is already true for a new row that is not stored
  (server/app/recording.py:82-85); only the result of a commit is backed by a stored row:
  `Recording.CommitBacked`.
- The binding of output to a generation that connector/supervisor.py:12-16 describes is
  not in `emit` or `attach`, and is not modelled.
- An error after a transcript has ended a turn reports the end a second time
  (connector/agent_session.py:763-782, connector/agent_session.py:994-1013):
  `Turns.LateFailureEndsTwice`; `Turns.OneBoundaryPerTurn` and `Turns.FailureEndsAgain`
  give the exact condition.
- A forced repair whose copy fails loses a store tree that another scope refers to
  (connector/skills.py:631-646): `SkillStore.StepKeepsReferenced` gives the exact condition.
- When removing a backup fails (connector/skills.py:434-436) the installation raises with
  every destination replaced: the outcome `CleanupFailed` of `SkillTrees.FileTrees.ReplaceAll`.
- An input whose write fails after its receipt is acknowledged on retry and never written
  (connector/supervisor.py:431-445): `Inputs.LostButAcknowledged`;
  `Inputs.DeliveredWasWritten` gives the exact condition.
- A cost above the limit gets a wait that does not help (server/app/security.py:156-166);
  `Limiter.RetryAfterSuffices` is for the costs within it.
- A recorded event with a lone surrogate makes the restore raise, although invalid rows
  are meant to be ignored (server/app/live.py:311, server/app/live.py:328): the error case
  of `Restore.EventRestore`. A `NaN`, which only the server's reader accepts, loses its
  event in the browser: `Restore.RestoreRoundTrip`.

## Assumptions

- SHA-256 is injective: a stored hash is modelled as the hashed text itself.
- Database operations are atomic; a failing one is a parameter and changes nothing.
- Channels and sockets are first-in first-out and lose a suffix when they break. Frames in
  the end-to-end model belong to a session the server knows and the devbox owns, so that
  only their size could be refused (`RecordingStores.RecordingStore.Refusal`), and carry no
  private routing override. Controls and acknowledgements are short enough for the channel.
- A supervisor that hangs runs nothing else of its process; transports go on, as they do
  in a process of their own.
- The OS lock is exclusive and is lost with its process; owner tokens are never drawn twice;
  a spawn that ends in an OSError left no child; an operator who recovers a journal tells
  the truth about the writer; one dispatcher per session starts a child only after it is
  done with the last one.
- Times, ratios and coordinates are exact reals.

## Model

| member | source | states |
|---|---|---|
| Spool.RunRefines | connector/spool.py:308-391 | Under any sequence of enqueues, acknowledgements (by identity or by `ord`, stale, duplicate, early or unknown) and fences, every stream of the table is an abstract queue of frames with a count of acknowledged ones, and numbers stay contiguous from that count |
| Spool.StepRefines | connector/spool.py:543-643 | One operation does to each stream what the abstract queue does: only the addressed head leaves, the other streams are untouched |
| Spool.NextNumber | connector/spool.py:543-560 | In any run from the empty spool the i-th enqueue of a stream since its last fence gets number i, whatever acknowledgements and other streams come between |
| Spool.NumberRepeatsIffFenced | connector/spool.py:691-715 | A number of a stream is handed out twice in a run if and only if a fence of that stream lies between two of its enqueues |
| SpoolStores.InMemorySpool.EnqueueOutput | connector/spool.py:315-333 | Refuses a frame without identity and otherwise appends one row to the table, with the cached byte count adjusted |
| SpoolStores.InMemorySpool.AckIdentity | connector/spool.py:344-359 | Removes exactly the head row of the stream when its number is the next one, and nothing otherwise |
| SpoolStores.InMemorySpool.AckByOrd | connector/spool.py:769-776 | Resolves an `ord` to its identity and acknowledges that |
| SpoolStores.InMemorySpool.FenceStream | connector/spool.py:384-391 | Drops a stream with its acknowledged mark, and leaves the others |
| SpoolStores.InMemorySpool.RecordInputOnce | connector/spool.py:377-382 | True for the first use of an input id only |
| SpoolStores.DiskSpool.EnqueueOutput | connector/spool.py:543-580 | Same table effect as in memory; a failing transaction changes nothing; cached counts equal the sums over the table |
| SpoolStores.DiskSpool.AckIdentity | connector/spool.py:601-643 | Same table effect as in memory, with the cached counts; a failing transaction changes nothing |
| SpoolStores.DiskSpool.AckByOrd | connector/spool.py:756-766 | Resolves an `ord` against the table and acknowledges that row |
| SpoolStores.DiskSpool.FenceStream | connector/spool.py:691-715 | Drops the rows and the acknowledged mark of one stream, with the cached counts |
| SpoolStores.DiskSpool.RecordInputOnce | connector/spool.py:671-689 | The primary key decides: true once per input id, over restarts of the supervisor |
| SpoolStores.SameBehaviour | connector/spool.py:219-256 | To any sequence of calls the two stores give the same answers and end with the same table and receipts |
| SpoolStores.SmallestIsHead | connector/spool.py:344-356 | The smallest pending number of a stream, which the code searches for, is the head of its queue |
| SpoolStores.MaxNumIsLast | connector/spool.py:308-313 | The highest pending number, which the next one is computed from, is the last of the queue |
| Ipc.EncodeDelivery | connector/ipc.py:51-60 | The text of a delivery as it is sent, or its refusal exactly when it is longer than 1 MiB |
| Ipc.DeliveryTextSize | connector/ipc.py:51-60 | That text is as long as the sum of its parts: 1 for a printable ASCII character, 2 for a short escape, 6 for any other of the basic plane and 12 above it, the digits of both numbers and the fixed text |
| Ipc.DeliverableIsAdmissible | server/app/recording.py:199-200 | Whatever the channel takes is within the limit of the server |
| Ipc.AdmissibleNotDeliverable | connector/ipc.py:51-60 | The converse fails: 1048570 plain characters, or 600000 quotes |
| Sender.WindowSafety | connector/supervisor.py:214-299 | Over all runs, fences inside a scan included: at most 64 distinct ids are in flight, the byte count is the sum of their sizes, it passes 512 KiB only with a single row in flight, and the rows in flight are a prefix of the pending rows |
| Sender.HandleAllInv | connector/supervisor.py:174-299 | Every event keeps the window invariant |
| Sender.PassOutcomes | connector/supervisor.py:225-278 | A pass takes a delivery exactly when something is sendable and the byte bound does not stop the first unsent row, and then ends the loop exactly when no control is left to send and that row is too large for the channel; it waits exactly when nothing is sendable, and goes round without awaiting exactly in the remaining case |
| Sender.SpinRepeats | connector/supervisor.py:259-265 | In that remaining case the next round is the same round: the loop never awaits again |
| Sender.TwoLargeFramesSpin | connector/supervisor.py:245-264 | Two frames over half the byte bound each reach it, unless they are too large to be sent at all: then the loop ends |
| SenderProgress.EveryInterleavingDrains | connector/supervisor.py:214-299 | From any sound state, asleep or in mid-scan, whose reachable runs of up to 64 pending rows fit the byte bound: every interleaving of the loop, its wake-ups and in-order acknowledgements has a bounded number of turns, a measure falling with each, and removes rows oldest first; where no turn is left, controls, rows and window are empty if every row can be sent, and otherwise the loop is over and the oldest row is one that cannot |
| SenderProgress.TurnOrDrained | connector/supervisor.py:225-266 | No sound state is stuck: the loop can run, wake up or be acknowledged, or everything is drained, or the loop ended and the oldest row cannot be sent |
| SenderProgress.TurnProgresses | connector/supervisor.py:225-266 | Each such turn keeps the state sound and lowers the measure, except the byte-blocked round, which a fitting spool never takes |
| SenderProgress.SpinsIffTooLarge | connector/supervisor.py:259-278 | After an attach some interleaving with in-order acknowledgements ends in the round that never awaits if and only if some run of up to 64 pending rows that the loop can come to exceeds the byte bound, two rows or more, or one beside a pending control |
| SenderProgress.InOrderAcks | connector/supervisor.py:472-494 | Acknowledging the oldest row or control in flight, in mid-scan too, removes it with its slot and wakes the loop |
| SenderProgress.NeverAsleepOverWork | connector/supervisor.py:174-323 | Over all runs, fences in mid-scan included, a loop that waits while something is sendable has its event set, as long as no removal of agents loses the wake-up |
| SenderProgress.RemovalWakes | connector/supervisor.py:345-371 | A removal of agents loses a wake-up if and only if the loop waits unwoken, a delivery in flight goes and something unsent stays |
| SenderProgress.RemovalLosesWakeup | connector/supervisor.py:345-371 | It happens: from the start some run reaches a full window of one agent, whose removal leaves the loop asleep over a row of another |
| Sender.FenceInScanLeaksASlot | connector/supervisor.py:241-258 | A fence in the middle of a scan leaves an id in flight with no row, and its acknowledgement does not release it |
| SenderProgress.FenceGhosts | connector/supervisor.py:311-323 | A fence leaves nothing in flight, now or by the suspended scan, without its row if and only if no suspended scan of rows holds a row of the stream |
| SenderProgress.RemovalGhosts | connector/supervisor.py:345-371 | The same for a removal of agents: if and only if no suspended scan holds a row of a fenced stream or a control of a removed agent |
| SenderProgress.HarmlessRunsStaySound | connector/supervisor.py:174-299 | Runs without such fences and removals keep every id in flight backed by its row, booked with its size, and the loop awake |
| Sender.ReconcileInv | connector/supervisor.py:287-299 | After a purge the window holds only ids that still exist, with the right byte count |
| Sender.RemoveAgentsInv | connector/supervisor.py:345-371 | Removing agents fences their streams and drops their controls without disturbing the window invariant |
| WindowEffects.AckReleases | connector/supervisor.py:472-494 | An acknowledgement counts if and only if its delivery is in flight and is the first control or the oldest pending row of its stream; it then removes exactly that delivery and wakes the loop |
| WindowEffects.FencePurges | connector/supervisor.py:311-323 | A fence drops exactly the rows of its stream and exactly the slots of what is gone, and wakes the loop |
| WindowEffects.RemovalPurges | connector/supervisor.py:345-371 | A removal drops exactly the streams with a pending row of a removed agent or registered for one, their controls and their slots |
| WindowEffects.AttachReplays | connector/supervisor.py:174-187 | Attaching offers everything pending again and arms the loop if anything is |
| WindowEffects.PassTakesFirst | connector/supervisor.py:225-266 | A fresh pass takes the first control not in flight, or without one the first such row, booked with its size |
| DeliveryWindow.Window.AttachChannel | connector/supervisor.py:174-187 | A new channel clears the window and replays from the first pending row |
| DeliveryWindow.Window.EmitOutputFrame | connector/supervisor.py:199-212 | Output goes to the spool and wakes the loop |
| DeliveryWindow.Window.ReleaseInflight | connector/supervisor.py:280-285 | Drops one id and its bytes from the window |
| DeliveryWindow.Window.ApplyDeliveryAck | connector/supervisor.py:472-494 | Only an id in flight counts; controls leave in order, rows as the spool permits |
| DeliveryWindow.Window.ReconcileInflight | connector/supervisor.py:287-299 | Keeps exactly the ids whose row or control is still there |
| DeliveryWindow.Window.HandleFence | connector/supervisor.py:311-323 | Fences the spool, reconciles the window and wakes the loop |
| DeliveryWindow.Window.DropAgents | connector/supervisor.py:350-371 | Removed agents take their pending and registered streams and their controls with them, and the window is reconciled |
| DeliveryWindow.Window.Continue | connector/supervisor.py:225-266 | One run of the drain loop up to its next suspension or its end: what it sends and the state it leaves |
| Transport.TransportSession.ForwardDelivery | connector/transport.py:109-131 | A delivery is recorded as outstanding under its identity before it is sent |
| Transport.TransportSession.HandleAck | connector/transport.py:144-157 | An acknowledgement releases exactly the delivery id of its identity, or nothing |
| Transport.TransportSession.HandleResend | connector/transport.py:173-190 | Resends the outstanding rows of the stream from the expected number on, in number order, or gives up when that one is not outstanding |
| Transport.TransportSession.HandleFence | connector/transport.py:192-211 | Afterwards no row of the fenced stream is outstanding, every row of another stream is, unchanged, and the supervisor is told once if and only if the stream had one |
| Transport.TransportSession.HandleError | connector/transport.py:158-170 | A rejection of output ends the connection and leaves the rows outstanding |
| Transport.OwnAnswerReleases | connector/transport.py:140-211 | Whatever else is answered, fences of other streams included, a row stays outstanding until its own answer, and its acknowledgement releases its own delivery id |
| Transport.FenceSparesOthers | connector/transport.py:140-211 | In the whole system, behind any acknowledgements of other rows and fences of other streams the acknowledgement of a row still reaches the supervisor |
| Transport.FenceArrives | connector/supervisor.py:311-323 | A fence goes all the way: the transport forgets the stream, and the spool loses its rows and its mark and nothing of the others |
| Transport.ServerAnswers | server/app/main.py:2213-2307 | What the server side of a connection answers to the frame it reads: an error if too large, acknowledged if stored, fenced if another payload is, asked back from the frontier if past it, nothing yet if next |
| Transport.ResendIsContiguous | connector/transport.py:173-190 | When the tail is outstanding, what is resent is the contiguous run the server asked for |
| Recording.FrontierUnique | server/app/recording.py:145-163 | The highest contiguous number is the only one with everything up to it stored and the next one missing |
| Recording.ClassifyExact | server/app/recording.py:263-304 | With exact ledgers: new exactly at frontier + 1, a gap exactly above, duplicate or conflict by stored hash at or below; the branch below the frontier is unreachable |
| Recording.CommitBacked | server/app/recording.py:306-338 | A commit result that permits an acknowledgement is backed by a stored row of that stream, number and hash |
| Recording.CommitGrows | server/app/recording.py:306-338 | A commit extends one stream by one number or changes nothing |
| Recording.InterleavedExact | server/app/recording.py:231-338 | However classifies and commits of any number of connections interleave with erasing and expiry, the stored numbers of each stream are exactly 1..F |
| Recording.AnswersExactly | server/app/recording.py:88-123 | At every point of every interleaving: acknowledged if and only if that very payload is stored, fenced if and only if another one is, asked back from frontier + 1 if and only if past it; a held row after its commit likewise |
| Recording.OnlyStoredIsAcknowledged | server/app/recording.py:88-123 | Whatever is acknowledged in a run answers a frame of that run whose own payload hash is stored under its stream and number from then on |
| Recording.RedactsExactly | server/app/recording.py:602-643 | A row loses its payload exactly when its session is erased, or its policy keeps nothing or is past its days; everything else leaves it as it is |
| Recording.RedactedIsBlank | server/app/recording.py:508-556 | In every interleaving a row marked as redacted holds no payload, nor does any row of a session right after its erasure |
| Recording.RedactionInvisible | server/app/recording.py:508-556 | A run with any erasing, expiry and hash-only retention gives the same answers and the same stream, number and hash of every row as the run without |
| Recording.EraseIdempotent | server/app/recording.py:508-556 | A second erase changes nothing |
| RecordingStores.HighestContiguous | server/app/recording.py:145-163 | The loop over the ordered numbers computes the frontier |
| RecordingStores.RecordingStore.ClassifyOutput | server/app/recording.py:231-304 | Validation errors in their order, then the specified verdict; reads only |
| RecordingStores.RecordingStore.CommitNew | server/app/recording.py:306-338 | New rows and verdict as specified, lost races reclassified from the row that won |
| RecordingStores.RecordingStore.PersistOutput | server/app/recording.py:215-229 | Both phases in one: a committed result is stored with that hash, and nothing changes otherwise |
| RecordingStores.RecordingStore.Answer | server/app/recording.py:88-123 | From a wire frame to the answer: unknown session fenced, other refusals an error, and otherwise acknowledged exactly with its payload stored, fenced exactly with another one, asked back from the frontier exactly if past it |
| RecordingStores.RecordingStore.SecureErase | server/app/recording.py:508-556 | Blanks the payloads of one session once, keeps every other field, counts what was redacted now and before, drops the snapshots |
| RecordingStores.RecordingStore.RedactExpired | server/app/recording.py:602-643 | Blanks exactly the payloads of sessions whose policy keeps nothing or is past its days, counts them, drops the snapshots of the sessions that lost one and keeps all others |
| RecordingStores.RecordingStore.Refusal | server/app/recording.py:181-213 | The reason a frame is refused; a well-formed frame of a known session of this devbox is refused exactly when its payload is too large |
| PipelineSafety.NothingLostDuplicatedOrReordered | server/app/main.py:2213-2307 | Over every run with disconnects, replacements, restarts, hangs, late messages and frames that cannot be sent: acknowledged <= stored <= emitted; the server holds exactly the first frames emitted, under 1..frontier, each number once; the spool holds exactly the frames after the acknowledged ones, in order |
| PipelineSafety.OnlyAcknowledgements | server/app/main.py:2213-2307 | In those runs the server answers neither resend, fence nor error, the supervisor is never told to fence, and no frame too large for the server gets there |
| PipelineSafety.NothingPastBlocked | connector/supervisor.py:245-257 | A frame too large for the channel and everything emitted behind it, on whatever stream, is never stored or acknowledged and stays in the spool |
| PipelineSafety.ArrivalsInOrder | server/app/recording.py:263-304 | A frame about to be read is at most one past the frontier, and a repeated number carries the stored payload |
| PipelineSafety.LeavesOnlyWhenStored | connector/supervisor.py:472-494 | A row leaves the spool only when the server has it, with its hash |
| PipelineProgress.ReconnectDelivers | connector/supervisor.py:174-187 | From every state any run can reach some continuation, one reconnect and answers in order, and a restart of the supervisor only if it hangs, stores exactly what was emitted before the first frame that cannot be sent and leaves only the rest in the spool |
| PipelineProgress.ReconnectDeliversEverything | connector/supervisor.py:174-187 | So it stores everything and empties the spool if and only if every emitted frame can be sent |
| PipelineProgress.LargeFrameBlocks | connector/ipc.py:51-60 | One emitted frame with 1048570 plain characters, or with 600000 quotes, is within the limit of the server and blocks itself and everything emitted behind it in every continuation |
| PipelineProgress.RestartNeededIff | connector/supervisor.py:225-266 | From a reachable state that much is stored without restarting the supervisor if and only if it does not hang in the round that never awaits, or nothing that can be sent waits |
| PipelineBursts.BurstsDeliver | connector/ipc.py:276-280 | Over a channel whose sends never suspend, a restart and a reconnect still store everything that can be sent, if the pending rows fit the byte bound |
| PipelineBursts.RestartHelpsIff | connector/ipc.py:276-280 | Over such a channel and without controls, a restarted supervisor ever acknowledges anything of what waits if and only if the oldest row can be sent and no run of up to 64 first rows exceeds the byte bound; otherwise every restart ends in the same round or on the same row |
| PipelineBursts.TwoLargeFramesHangAgain | connector/supervisor.py:245-265 | With two frames over the byte bound together at the head, nothing of what waits leaves in any such continuation |
| PipelineSafety.RunInv | connector/supervisor.py:174-266 | Every step of emitters, supervisor, transport, network and server keeps the invariant of the whole system |
| PipelineSafety.SentIsNext | connector/supervisor.py:241-258 | The row the loop takes carries the next number of its stream |
| PipelineSafety.SentIsClear | connector/supervisor.py:241-258 | A row that goes out has no frame before it, on whatever stream, that cannot be sent |
| PipelineSafety.CommitAnswer | server/app/main.py:2246-2258 | A commit after any interleaving stores the row or finds it stored, and acknowledges it |
| Journals.ReadHeld | connector/native_writer.py:187-218 | A journal written whole reads back as itself |
| Journals.ParseEncoded | connector/native_writer.py:221-224 | Parsing inverts encoding for flat objects of plain strings and numbers |
| Journals.ParsesExactly | connector/native_writer.py:178-198 | The reader takes exactly what the writer writes of plain members, and nothing else |
| Journals.ReadExact | connector/native_writer.py:187-218 | A file reads as idle exactly if it is new or carries the members of an idle journal, as active under an owner exactly if it carries those of an active one of that owner |
| Journals.CutWriteIsSafe | connector/native_writer.py:221-236 | A write from idle to active or back that is cut off anywhere leaves the old file, the new journal, or one that needs recovery |
| NativeWriter.LockFile.WriteJournal | connector/native_writer.py:221-236 | Every schedule of short writes ends with exactly the encoded journal, or fails having written a prefix |
| NativeWriter.NativeWriterLease.Acquire | connector/native_writer.py:259-272 | Succeeds exactly when nobody holds the lock and the journal is idle |
| NativeWriter.NativeWriterLease.BeginProcess | connector/native_writer.py:279-298 | Marks active before a launch; any failure leaves the lease unusable |
| NativeWriter.NativeWriterLease.ProcessReaped | connector/native_writer.py:300-308 | Marks idle again, or leaves the lease unusable |
| NativeWriter.NativeWriterLease.Release | connector/native_writer.py:314-320 | Unlocks without touching the journal |
| NativeWriter.RecoverNativeWriter | connector/native_writer.py:358-382 | Clears only a valid, unlocked, active journal of exactly the named owner |
| Ownership.AtMostOneChild | connector/agent_session.py:462-606 | Over all runs with crashes at any point, cancelled, failed and uncertain spawns, kills, failed waits and cut writes: at most one child is alive and the journal names it |
| Ownership.NoSecondLaunch | connector/agent_session.py:562-606 | While a child lives or is being started, no other session gets past its journal check |
| Ownership.OnlyRecoveryReopens | connector/native_writer.py:358-382 | An unlocked journal that is not idle stays as it is until it is cleared by hand |
| Ownership.ReapedHandsOver | connector/agent_session.py:477-489 | A child that was reaped with its journal cleared leaves the context free for the next session |
| Ownership.LaunchStarts | connector/agent_session.py:562-578 | In every reachable state a launch starts its spawn task, under a sound lease and a journal that names it, if and only if the session is open, its context in order, it holds an idle lease or finds lock and journal free, and the mark is written whole; otherwise it ends without a lease |
| Ownership.PrepareHolds | connector/agent_session.py:541-560 | Preparing leaves a lease if and only if one was or could be had, and it may be used or something still depends on it |
| Ownership.LaunchEnds | connector/agent_session.py:579-606 | A child is waited for; a definite failure clears its mark and gives the lease back, or keeps it if that fails; an uncertain one gives the lease back and leaves the mark |
| Ownership.AbortEnds | connector/agent_session.py:523-539 | The cleanup of a cancelled launch ends without the lease whatever became of the mark, unless a child came up |
| Ownership.ReapClears | connector/agent_session.py:469-489 | The first awaited exit of the child the lease is held for leaves journal and lease idle, or a closed session without a lease; any other wait touches neither |
| Ownership.RecoverClears | connector/native_writer.py:358-382 | A recovery clears the journal if and only if the owner is valid, nobody holds the lock and the journal names exactly that owner |
| Ownership.CrashLeavesMark | connector/native_writer.py:314-320 | A supervisor that dies leaves the journal as it is, nothing locked, and at most the child that was being started |
| Ownership.ChildAfterChild | connector/agent_session.py:562-606 | Of any two sessions one starts a child, awaits its end and closes, and the other starts the next; each lives while the journal names it |
| Ownership.SomeChildLives | connector/agent_session.py:562-606 | So the bound on children is attained |
| Ownership.LaunchedInv | connector/agent_session.py:562-578 | Preparing and marking keep the ownership invariant wherever they fail |
| Ownership.ReturnedInv | connector/agent_session.py:579-606 | So does the end of a launch, with a child, without one, or uncertain |
| Ownership.SettledInv | connector/agent_session.py:523-539 | So does the cleanup of a cancelled launch |
| Ownership.ReapedInv | connector/agent_session.py:469-489 | So does reaping, whether the journal could be cleared or not |
| Opens.OpenTable.Begin | connector/supervisor.py:512-527 | Accepted exactly if not shut down, the agent listed and no launch id dropped; joins the pending generation or replaces it, and is current afterwards |
| Opens.OpenTable.Leave | connector/supervisor.py:565-569 | The last opener under a lock clears its entry |
| Opens.OpenTable.InvalidateOpen | connector/supervisor.py:571-577 | Drops lock, count, request and generation of a key |
| Opens.OpenTable.CloseSession | connector/supervisor.py:461-468 | A close that addresses the present launch invalidates and unregisters its key |
| Opens.OpenTable.ApplyAgents | connector/supervisor.py:341-343 | A directory update is in force at once and names the agents it removed |
| Opens.OpenTable.RetireAgents | connector/supervisor.py:344-383 | After a suspension the opens of removed agents are invalidated, their sessions unregistered and returned to be stopped |
| Opens.OpenTable.ShutDown | connector/supervisor.py:940-959 | Clears everything once |
| Opens.OpenTable.SessionExited | connector/supervisor.py:732-744 | Only the registered session of a key unregisters it |
| OpensSafety.RegistrationNeverOverwrites | connector/supervisor.py:875-896 | An opener registers only while current and only where no session is registered; otherwise its child was told to stop |
| OpensEffects.RegistersIffCurrent | connector/supervisor.py:875-896 | In every run a start that returns registers its child, not stopping, under the launch id of the pending generation, if and only if nothing is shut down, the agent is in the directory, lock and request are the present ones and the child is alive; otherwise the child is told to stop |
| OpensEffects.SomeChildRegisters | connector/supervisor.py:875-896 | Some run registers a live child under its launch id |
| OpensEffects.OpenAdmits | connector/supervisor.py:508-533 | An open is admitted if and only if nothing is shut down, its agent is listed and it does not ask without a launch id for a key that has one; it is then current for the generation it asked for |
| OpensEffects.EnterDecides | connector/supervisor.py:579-626 | With the lock, a live session is adopted under the launch id of the present generation or left alone, a dead one is unregistered and stopped, and without one the opener goes on |
| OpensEffects.DrainDecides | connector/supervisor.py:611-626 | Once the dead session has closed the opener goes on exactly if it is still current |
| OpensEffects.ProbeCreates | connector/supervisor.py:627-700 | Exactly a current opener with its runtime there creates a session |
| OpensEffects.FailureStops | connector/supervisor.py:887-896 | A start that raises or is cancelled tells the child to stop |
| OpensEffects.LeavingClears | connector/supervisor.py:565-569 | An opener that leaves takes its entry along exactly if it was the last under the present lock |
| OpensEffects.CloseForgets | connector/supervisor.py:386-393 | A close that names the pending launch, or without one the registered launch, forgets the key and stops its session; any other is ignored |
| OpensEffects.RetireForgets | connector/supervisor.py:344-383 | Retiring agents drops exactly their keys and stops exactly the sessions registered there |
| OpensEffects.ShutdownForgets | connector/supervisor.py:940-959 | A shutdown stops exactly the registered sessions, forgets all keys and admits no more |
| OpensEffects.ExitUnregisters | connector/supervisor.py:732-744 | An exit unregisters exactly the session that exited |
| OpensSafety.SupersededNeverRegisters | connector/supervisor.py:529-532 | Once its request is superseded an opener never registers anything in any continuation, and when it is gone its children are dead or were told to stop |
| OpensSafety.WhatSupersedes | connector/supervisor.py:508-577 | In every run a step supersedes an opener that stays in flight if and only if it is the shutdown, a close that addresses its key, the retiring of its agent, or an accepted request for another generation of its key |
| OpensSafety.EverySessionAccounted | connector/supervisor.py:579-626 | Every live session not told to stop is registered under its key or still being started by the holder of the lock |
| OpensSafety.UsersAreOpenersInFlight | connector/supervisor.py:508-569 | The user count of a key is the number of openers in flight under its present lock |
| Inputs.InputDesk.HandleInput | connector/supervisor.py:409-445 | One input: ignored, rejected, acknowledged again, or written and acknowledged |
| Inputs.InputDecides | connector/supervisor.py:386-445 | What becomes of an input in terms of the registered launch, the pending generation, the health of the session, its receipt and what fails |
| Inputs.WrittenAtMostOnce | connector/supervisor.py:431-437 | Over all runs and restarts an input id is written to a session at most once |
| Inputs.DeliveredHasReceipt | connector/supervisor.py:438-445 | Every delivered acknowledgement has its receipt |
| Inputs.WritesToRegisteredLaunch | connector/supervisor.py:386-437 | Everything written in a run was written by one step of it, to the session registered at that moment under the launch registered there, with no other launch pending and no receipt yet |
| Inputs.DeliveredWasWritten | connector/supervisor.py:431-445 | In every run an input acknowledged as delivered was written if and only if no step stored its receipt and then failed |
| Inputs.LostButAcknowledged | connector/supervisor.py:431-437 | With such a failure the retry is acknowledged and never written |
| Turns.DispatchedInOrder | connector/agent_session.py:1031-1074 | Turns are dispatched in the order accepted, at most sixteen wait, and while the session lives none is lost or waits without a worker |
| Turns.OneBoundaryPerTurn | connector/agent_session.py:935-1014 | Every dispatched turn that finishes alive emitted two turn ends if something was raised after its transcript marked the end, and exactly one otherwise |
| Turns.FailureEndsAgain | connector/agent_session.py:994-1013 | A failure emits a turn end without looking at whether one was seen: the turn has two exactly when the boundary was seen before the failing step |
| Turns.LateFailureEndsTwice | connector/agent_session.py:763-782 | A turn with two ends is reached when handling a further line raises after the transcript marked the end |
| Turns.TurnQueue.Write | connector/agent_session.py:1031-1048 | Accepts exactly when alive with fewer than sixteen waiting, and makes sure a worker runs |
| Turns.TurnQueue.Next | connector/agent_session.py:1056-1074 | Takes the oldest turn, or ends the worker leaving nothing behind |
| Turns.EveryTurnDispatched | connector/agent_session.py:935-1014 | From any point of any run of a living session undisturbed steps dispatch and report every turn accepted so far |
| Turns.WriteAccepts | connector/agent_session.py:1031-1048 | In the step system too a turn is accepted exactly when alive with fewer than sixteen waiting |
| Layout.TilesUnitSquare | web/layout.js:25-46 | Every point of the unit square lies in exactly one pane |
| Layout.PushRects | web/layout.js:25-46 | The accumulating visit yields the rectangles in depth-first order |
| Layout.AdjacentIffInner | web/layout.js:48-73 | In a tree of up to four panes some pane is adjacent to a side exactly when the side is not on the outer boundary |
| Layout.Neighbor | web/layout.js:48-73 | Null for an unknown pane or direction and otherwise exactly at the outer boundary; else a pane that lies beside this one in that direction, nearest up to epsilon |
| Layout.Nearest | web/layout.js:56-73 | The running minimum is the nearest adjacent pane up to epsilon, and strictly nearer than every earlier one |
| Layout.PanesRoomy | web/layout.js:12-12 | Each pane keeps its share of both sides |
| LayoutEdits.RemoveUndoesSplit | web/layout.js:75-96 | Removing a freshly split pane restores the tree |
| LayoutEdits.SplitHalves | web/layout.js:75-87 | Refused for an unknown axis or invalid id, without effect where full, taken or missing, and otherwise the target and the new pane share the rectangle of the target in equal halves along the axis |
| LayoutEdits.RemoveKeepsOthers | web/layout.js:89-96 | Removing keeps the other panes in order |
| LayoutEdits.SplitMovesNobodyElse | web/layout.js:75-87 | Splitting leaves the rectangle of every other pane alone |
| LayoutEdits.SplitKeepsSane | web/layout.js:75-87 | A split of a sane layout is sane |
| LayoutEdits.ResizeChangesOneRatio | web/layout.js:98-110 | Only the ratio at the path changes, to a clamped value |
| LayoutEdits.WalkTo | web/layout.js:112-119 | The cursor finds the subtree at a path |
| LayoutEdits.SanitizeIsSane | web/layout.js:121-135 | Whatever comes in, the result has valid distinct ids, at most four panes and ratios in range |
| LayoutEdits.SanitizeExact | web/layout.js:121-135 | Something is left if and only if every node is complete, no id repeats and there are at most four panes; it is then that layout with ratios clamped |
| LayoutEdits.SanitizeKeepsExactlySane | web/layout.js:121-135 | A layout passes unchanged exactly when it is sane |
| LayoutEdits.SanitizeIdempotent | web/layout.js:121-135 | Sanitizing twice is sanitizing once |
| SkillTrees.FileTrees.ReplaceAll | connector/skills.py:395-437 | All or nothing: a failing staging, backup or replacement leaves everything as it was; otherwise every destination holds the new tree and nothing else changed, and the cleanup fails exactly when the backup of a replaced tree cannot be removed |
| SkillTrees.FileTrees.SwapAll | connector/skills.py:411-430 | The backup and replacement loop, with its undoing in reverse order |
| SkillTrees.UniqueMeans | connector/skills.py:397-404 | Destinations are taken once per place |
| SkillTrees.UniqueFirst | connector/skills.py:397-404 | Each place keeps its first spelling, and the places keep their order |
| SkillBindings.MergeBindingPaths | connector/skills.py:533-555 | The merge as specified, with the search for a free index |
| SkillBindings.OneAdds | connector/skills.py:533-555 | An uncovered place goes under its own key if free and otherwise under the first free index from two on; a covered one adds nothing |
| SkillBindings.MergeKeepsAll | connector/skills.py:533-555 | Nothing current changes, every recorded place stays covered for its family, nothing else appears |
| SkillBindings.MergeIdempotent | connector/skills.py:533-555 | Merging the same bindings with the recorded result changes nothing, in whatever order it is listed |
| SkillStore.ReferencedNeverCollected | connector/skills.py:557-560 | No run of installs, removals and drifts without a lossy install loses a store tree a record refers to |
| SkillStore.StepKeepsReferenced | connector/skills.py:590-667 | A step loses such a tree exactly when it is a lossy install: a forced repair that removes a drifted tree and then cannot replace it |
| SkillStore.InstallExact | connector/skills.py:590-667 | When an install goes through, what it records and stores, and which trees of the replaced digest it takes along |
| SkillStore.FailedRepairLosesTree | connector/skills.py:631-646 | Such a repair exists |
| SkillStore.Manager.Remove | connector/skills.py:719-746 | Exactly when the record is there, in order or forced, and nothing fails: removes it, and the trees of its digest unless another record refers to them |
| Limiter.AtMostTwiceTheLimit | server/app/security.py:136-175 | A key whose live window is neither evicted nor reset is granted at most twice the limit in any closed interval of one window length |
| Limiter.TwiceTheLimitIsReached | server/app/security.py:136-175 | That bound is reached |
| Limiter.RetryAfterSuffices | server/app/security.py:156-166 | After a refusal the next check of the key at or after the promised wait succeeds for any cost within the limit |
| Limiter.TableBounded | server/app/security.py:147-152 | The table never exceeds its bound |
| Limiter.EvictEffect | server/app/security.py:186-199 | Eviction makes room, and takes a live window only when all are live and none is older |
| Limiter.EvictMembers | server/app/security.py:186-199 | Eviction keeps exactly the windows that still run, or all of those but an oldest one where that alone leaves no room |
| Limiter.CheckedDecides | server/app/security.py:136-175 | Granted exactly if the present window has room; remaining, end of the window and the least whole wait as promised |
| Limiter.CheckedBooks | server/app/security.py:136-175 | The window of the key holds what was granted, the others are kept unless room was needed |
| Limiter.RateLimiter.Check | server/app/security.py:136-175 | The decision and the new table, as specified |
| Limiter.RateLimiter.EvictLocked | server/app/security.py:186-199 | The loops that drop expired windows and the oldest one |
| Limiter.RateLimiter.Reset | server/app/security.py:177-184 | Forgets one key or all |
| Restore.EventRestore | server/app/live.py:304-336 | The payload is the longest suffix, within the bound in bytes, of the events of exactly those rows that are event rows with readable data; text without a byte form raises when the walk reaches it |
| Restore.RestoreRoundTrip | web/chat.js:18-29 | The browser reads back exactly those events if and only if its reader inverts the writer on each of them |
| Restore.ParseConcat | web/chat.js:18-29 | Two payloads with a newline between them hold the events of both |
| Restore.ParseEventPayload | web/chat.js:18-29 | The loop over lines skips blank and unreadable ones |
| Chat.FoldPayloadConcat | web/chat.js:228-235 | Folding concatenated payloads is folding one after the other |
| Chat.FoldedPayloadInv | web/chat.js:46-226 | After any payload the open bubble is null or an assistant row, and turn rows are single and never adjacent |
| Chat.AppliedInv | web/chat.js:46-226 | Every event keeps this and keeps each earlier row in place, only growing its text |
| Chat.InterleavedInv | web/chat.js:46-226 | So does any interleaving of arriving events and turns typed here |
| Chat.TurnEndTwice | web/chat.js:155-182 | A repeated turn end counts once |
| Chat.EchoConfirms | web/chat.js:194-219 | The echo of an optimistic turn confirms its row instead of adding one |
| Chat.RestoredFold | web/chat.js:230-235 | A restored tail folds to what its events fold to |
| Chat.View.Apply | web/chat.js:46-226 | The update in place, event by event, equals the step that ChatHistory.ChangedRows, ChangedBubble and ChangedRest describe |
| ChatHistory.ChangedRows | web/chat.js:46-226 | A change adds exactly one row, rewrites exactly one, or neither, each in terms of the rows and the event: which row is addressed, and what it says then |
| ChatHistory.ChangedRest | web/chat.js:46-226 | Status, pending question, configuration and run follow the last event that sets them, and nothing else touches them |
| ChatHistory.TextIsSaid | web/chat.js:54-94 | In every run the text of an assistant or thinking row is what was said to it, in order of arrival: deltas of its message and turn or while its bubble was open, and a complete message only where there was nothing yet |
| ChatHistory.OpenIffSince | web/chat.js:50-96 | A bubble is open if and only if a delta opened it and nothing has closed or replaced it since |
| ChatHistory.ResultIsFirst | web/chat.js:123-150 | A tool row shows the content of the first result matched to it, and none before |
| ChatHistory.TurnRows | web/chat.js:156-180 | A turn row has the result of its turn end unless assistant text came since the last turn or user row |
| ChatHistory.RowOrigin | web/chat.js:46-226 | Every row was added by one change of the run and is still that row |
| ChatHistory.LocalUntilEcho | web/chat.js:191-218 | A typed turn stays unconfirmed exactly until an echo of it comes |
| ChatHistory.FoldSays | web/chat.js:46-226 | From an empty chat: each row of the fold says all this of the events |
| ChatHistory.StreamedAnswer | web/chat.js:65-79 | Pieces streamed one after the other make one row with all of them |
| Chat.View.FoldEvents | web/chat.js:230-235 | Folds onto the present state or, for a restore, onto an empty one |

## Left out

- The DeepOrca extension, credentials, URL canonicalization, the runtime adapters and their translators, terminal screens, audit, backup and configuration tooling.
- Server power loss of committed rows, hard delete of recordings and pruning of input receipts: they intentionally give up the ledger properties.
- The two legacy integer forms of the spool interface other than acknowledging by `ord`.
- Heartbeats and IPC handshakes; of the framing of sockets and pipes everything but the size limit of a delivery.
- Hub routing, keyboard leases and workspace roles: short case analyses.
- Browser rendering: only the reducer, the payload parser and the layout are modelled.
- SenderProgress.EveryInterleavingDrains: the turns add no output and no control, and acknowledgements come in order; the bound on turns is for what is pending at the start.
- PipelineBursts.RestartHelpsIff: the continuations emit no control; controls in flight take places of the window, which can keep a restarted loop from coming to the row that blocks it.
- SpoolStores.SameBehaviour: no transaction of the disk fails in the compared run; a failing one changes nothing, as the contracts of `DiskSpool` say.
- PipelineSafety.NothingLostDuplicatedOrReordered: the runs contain no agent removal, which fences streams on purpose; the effect of a fence on spool and window is in `Spool.RunRefines` and `Sender.WindowSafety`.
- RecordingStores.RecordingStore.RedactExpired: visits the rows once with the policies of all sessions, where the code goes session by session; rows and counts come out the same.
- Transport.TransportSession.HandleError: an error about the launch of a control, which the code passes over, is not part of the model.
- RecordingStores.RecordingStore.Answer: the answer to a frame without a text session id carries an empty one.
- Journals.ReadHeld: the reader accepts the flat objects that the program writes, without white space, escapes, signs and exponents, and decimal texts of up to 308 characters; other spellings of the same JSON are not modelled.
- Ownership.AtMostOneChild: sessions without a lease factory are not guarded by the code and are not part of the model.
- OpensSafety.RegistrationNeverOverwrites: `pty_instances` and `pty_surfaces` are updated together with the launch ids and are not kept apart in the model.
- SkillTrees.FileTrees.ReplaceAll: one step fails and undoing succeeds; a destination inside another destination, and a failing rollback, are not modelled.
- SkillStore.StepKeepsReferenced: a store tree is the digest of its content; the bound copies enter as the flag that lets an operation pass.
- Turns.OneBoundaryPerTurn: per-turn mode with output callbacks that do not fail; a worker cancelled by a kill reports nothing.
- Chat.AppliedInv: covers the fields the reducer decides on; attachments, usage, native details and the renderer contract are carried along by the code and left out.
- Limiter.AtMostTwiceTheLimit: the lock that serializes checks is not modelled; checks are a sequence.
