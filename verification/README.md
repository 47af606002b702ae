# Verified model of SuperSpace's synchronisation core

SuperSpace shares a clipboard and files between the devices of one person, and offers a launcher with a
calculator and a file index. This project models the parts whose correctness is hardest to see from any one
function, and proves what holds over every input and every run.

Run `dafny verify dfyconfig.toml` here.

## What is modelled

**Clipboard replication.** Each device has a hybrid logical clock, a bounded window of seen events, a current
winner, a replay queue for each peer and an edge-triggered clipboard monitor. `Ledger` and `Device` give every
operation as a state transformer; `Replication` and `Coordinator` are the mutable objects, each method proved to
take its object where the transformer does, and `HistoryStore` is the durable history with its pins, removals and
pruning. A path is its bytes, and `LossyText` is the conversion that stands in for it wherever it is hashed or
encoded. `Cluster` runs any number of devices over copies, polls, file shares, deliveries, listings,
acknowledgements, pins, removals and prunings: deliveries come in any order, repeated, late or never, with faults in
reading, writing and storage. `Orderly` is what every build keeps in every such run; `Convergence`, `Commit`,
`AtLeastOnce`, `History` and `Agreement` hold the whole-run theorems, and `Uncommitted` says for which builds those
that need the commit of applied events hold.

**Resumable transfer.** `Transfer` gives the receiver as functions that list their disk effects in order;
`TransferRuns` cuts any number of sessions between two effects or in the middle of a write and resumes them;
`TransferReceiver` is the object over its staging files; `Session` and `ReceiveSession` are the two sides of a
session, with the frames of the offer, the resume offsets, the chunks and the acknowledgement. `Blob`, `BlobSession` and
`BlobRuns` do the same for content-addressed blobs. `FreshName` is the name a finished transfer is published under, and
`Frame` is the framing of the byte stream.

**Calculator.** `Calculator` is the parser as functions of the remaining input, `CalculatorParser` the parser with
its moving offset. `Layering` shows that its binding-power loop parses a layered grammar, `Trees` that parsing is
building a tree and evaluating it, `Printer` that printed trees are read back, `Misread` what becomes of a modulo
printed without the parentheses it needs, and `DigitNames` which names can be called. Numbers and the character classes beyond ASCII are parameters.

**File index.** `IndexTables` is the refresh over its three tables, `FileIndex` the object, and `IndexRuns` the
theorems over runs of complete, cancelled and failed refreshes.

**Kernels.** `Workdays` is workday arithmetic, `Search` and `Ranking` are the launcher's matching and order.

## What the proofs found

- The commit of an applied event is the argument of `debug_assert_eq!` (crates/sync/src/lib.rs:313). Where debug
  assertions are compiled out it is skipped, and the event is applied again on redelivery
  (`Commit.AppliedAgainUnlessCommitted`). More than that is lost, with every event delivered and no failure:
  the winner is not the greatest handled event, devices that handled the same events disagree on it and show
  different values, a later event can have an earlier timestamp than one its origin had handled, and an event is
  applied twice. Each of these properties holds in all runs of a build if and only if the build executes the commit
  (`Uncommitted.MaximumIff`, `ConvergesIff`, `AgreesIff`, `ShownIff`, `CausalIff`, `OnceIff`).
- A superseded event is marked seen before it is stored (crates/sync/src/lib.rs:306-307). When storing fails, that
  is when the history refuses the row or the blob store the blob of a row that is not plain text, its redelivery is
  acknowledged as a duplicate although nothing was stored (`Commit.FailedSupersedeIsLost`). In any run this is the
  only way a handled event can be missing (`Commit.MissingIffLost`).
- Paths are hashed and encoded through a lossy conversion (crates/platform/src/clipboard.rs:83,
  crates/sync/src/lib.rs:546). Different file lists can have the same digest (`ClipboardValue.DigestConfuses`), and a
  stored list restores to itself exactly if every path is UTF-8 (`ClipboardCodec.PathsSurviveIff`,
  `History.StoredRestores`).
- An image over 128 MiB can be encoded and sent, but every receiver refuses it
  (`ClipboardCodec.DecodeInvertsEncode`).
- With an exhausted logical counter, a recorded local event can move the winner back
  (`Winner.RecordAdvancesCurrent`, `Winner.ExhaustedMovesBack`); runs of fewer than 2^32 - 1 clock operations never
  get there (`Convergence.NothingSaturates`).
- `log2` and `log10` can never be called: the name reader stops at the digit and reports the unknown name `log`
  (`Printer.DigitNamesUnreachable`), so no expression calls them (`DigitNames.NeverCalled`).
- A constant swallows the white space behind it, so a `%` after it is a percent sign. A modulo whose left operand
  ends with a bare constant fails if its right operand has no sign, as in `pi % 2`, and is silently a subtraction if
  it has a minus sign: `pi % -2` is `pi% - 2` (`Misread.ModuloReads`, `Misread.SignedExample`). Every other modulo is
  read as one (`Misread.ModuloIff`).
- A last chunk with wrong bytes leaves a full partial file behind, and every later session with that manifest then
  fails to begin (`TransferRuns.MismatchPoisons`, `TransferRuns.PoisonedForever`, and from an empty disk
  `TransferRuns.PoisonedExample`). Nothing else keeps a session from beginning where there is space
  (`TransferRuns.BeginsUnlessPoisoned`), and an honest sender never brings it about
  (`TransferRuns.HonestNeverPoisons`). Blob transfers delete such a file and recover (`Blob.HealsInTwo`), except from a
  partial file that is too long (`Blob.StuckIff`). A partial file is named by its hash alone, so one hash announced
  with two sizes leads there (`BlobRuns.TooLongExample`).
- The offer and the resume offsets of a transfer are single frames of at most 512 KiB, while a manifest may have
  100000 entries: a large folder fails before its first chunk. The condition is in `ReceiveSession.DeliverTransfer`;
  with a codec that writes at least the 32 bytes of each entry's hash, no offer of more than 16384 entries has a frame
  (`ReceiveSession.LargeOfferFails`, `ReceiveSession.LargeOfferExample`).
- After a cancelled refresh the next one uses the same generation again, so a complete refresh can keep rows of
  files that are gone (`IndexRuns.ExactIff`, `IndexRuns.StaleRowExample`); the one after it removes them
  (`IndexRuns.SecondRefreshExact`).
- A file that moves between nested scopes with unchanged metadata keeps the searchable path below its old root
  (`IndexRuns.NestedScopeExample`): the one below the root of the last refresh that found it with new metadata
  (`IndexRuns.SearchablePathExact`).

## Model

| member | source | states |
|---|---|---|
| Clock.TickAdvances | crates/protocol/src/clock.rs:25-33 | A tick never moves back, and moves strictly forward unless the 32-bit counter is used up and the wall clock has not passed it |
| Clock.ReceiveAdvances | crates/protocol/src/clock.rs:38-58 | A receipt never ends behind either input, and ends strictly after both unless an input that holds the winning time has used up its counter |
| Clock.OperationsStayBounded | crates/protocol/src/clock.rs:25-58 | One operation raises the largest counter by at most one and invents no physical time |
| LossyText.LossyIdentityIff | crates/sync/src/lib.rs:546-546 | The lossy conversion of a path leaves exactly UTF-8 text as it is |
| LossyText.TextsArePathsIff | crates/sync/src/lib.rs:540-552 | The texts of a file list are its paths exactly when all of them are UTF-8 |
| ClipboardValue.DigestIdentifies | crates/platform/src/clipboard.rs:45-91 | The hashed material is framed and domain-separated: two valid values hash the same bytes exactly when they are equal with their paths replaced by their texts |
| ClipboardValue.DigestInjective | crates/platform/src/clipboard.rs:45-91 | Among values whose paths are UTF-8 they hash the same bytes exactly when they are equal |
| ClipboardValue.DigestConfuses | crates/platform/src/clipboard.rs:79-87 | Two different file lists with one digest |
| ClipboardCodec.RichRoundTrip | crates/sync/src/lib.rs:479-509 | Encoding and decoding rich text are inverse in both directions, on every accepted byte string |
| ClipboardCodec.PathsRoundTrip | crates/sync/src/lib.rs:540-580 | A byte string is accepted as a file list exactly when it is the encoding of that list and all its paths are UTF-8 |
| ClipboardCodec.PathsSurviveIff | crates/sync/src/lib.rs:540-580 | An encoded file list decodes to the list of its texts: to itself exactly when all paths are UTF-8 |
| ClipboardCodec.EncodePaths | crates/sync/src/lib.rs:540-552 | The loop builds the records of the texts of the paths, which the round trip is about, and nothing for other values |
| ClipboardCodec.DecodePaths | crates/sync/src/lib.rs:554-580 | The loop accepts exactly the record lists of non-empty lists of absolute UTF-8 paths |
| ClipboardCodec.DecodeInvertsEncode | crates/sync/src/lib.rs:416-477 | What one device encodes another decodes to the same value, exactly unless it is an image over the receiver's limit |
| ClipboardCodec.DecodedIsValid | crates/sync/src/lib.rs:457-477 | Whatever is decoded has a digest and is not a file list |
| Events.StampsTotallyOrdered | crates/network/src/replication.rs:171-176 | Conflict resolution is a strict total order |
| Ledger.MarkSeenKeepsWindow | crates/network/src/replication.rs:158-168 | Marking keeps the window duplicate-free, equal to its set and within its capacity, and adds only the marked event |
| Ledger.OperationsKeepWindow | crates/network/src/replication.rs:67-109 | Recording and receiving keep the window so |
| Replication.ReplicationLedger.constructor | crates/network/src/replication.rs:50-61 | A new ledger has an empty window of 20000 events and no winner |
| Replication.ReplicationLedger.RecordLocal | crates/network/src/replication.rs:67-93 | Records a local event and queues one copy for each other peer, or refuses a foreign origin and changes nothing |
| Replication.ReplicationLedger.Receive | crates/network/src/replication.rs:98-109 | Decides as the preview does, merges the clock always, marks new events and replaces the winner only by a later one |
| Replication.ReplicationLedger.Preview | crates/network/src/replication.rs:117-131 | Classifies without changing anything |
| Replication.ReplicationLedger.PendingFor | crates/network/src/replication.rs:134-138 | Drops what expired and returns the rest in recording order |
| Replication.ReplicationLedger.Acknowledge | crates/network/src/replication.rs:142-149 | Removes every copy of the event, and says whether there was one |
| Replication.ReplicationLedger.NextTimestamp | crates/network/src/replication.rs:153-156 | Ticks the clock and returns it |
| Replication.ReplicationLedger.MarkSeen | crates/network/src/replication.rs:158-168 | The eviction loop keeps exactly the newest identities |
| ReplayQueue.QueueConservation | crates/network/src/replication.rs:67-149 | In every history, a peer's queue is exactly the copies recorded for it, in recording order, that were neither acknowledged nor listed after expiry since |
| ReplayQueue.NothingOwedToSelf | crates/network/src/replication.rs:81-91 | Nothing is ever queued for the device itself |
| Coordinator.ClipboardMonitor.Poll | crates/platform/src/clipboard.rs:355-367 | Reports a value only on an edge of its digest, and remembers it |
| Coordinator.ClipboardMonitor.ApplyRemote | crates/platform/src/clipboard.rs:374-379 | Writes a valid value and remembers its digest, or changes nothing |
| Coordinator.ClipboardSync.constructor | crates/sync/src/lib.rs:75-92 | A new coordinator is the fresh device of the run theorems, over the history and the blobs it is given |
| Coordinator.ClipboardSync.PollLocal | crates/sync/src/lib.rs:119-151 | Captures an edge, stores it, and queues it unless it is excluded or sensitive, with every error path |
| Coordinator.ClipboardSync.RecordLocalFiles | crates/sync/src/lib.rs:158-179 | Stores a file list and queues its transfer event |
| Coordinator.ClipboardSync.Receive | crates/sync/src/lib.rs:186-201 | Handles inline content and asks for a blob or a transfer |
| Coordinator.ClipboardSync.ReceiveBlob | crates/sync/src/lib.rs:209-222 | Refuses bytes of another size or hash, and handles the rest |
| Coordinator.ClipboardSync.ReceiveFiles | crates/sync/src/lib.rs:229-250 | Refuses a transfer that is not the announced one, and handles the rest |
| Coordinator.ClipboardSync.PendingFor | crates/sync/src/lib.rs:253-255 | Lists what is owed and touches nothing but the queue |
| Coordinator.ClipboardSync.Acknowledge | crates/sync/src/lib.rs:259-261 | Acknowledges, touches nothing but the queue, and says whether a copy was queued |
| Coordinator.ClipboardSync.ApplyReady | crates/sync/src/lib.rs:293-317 | Order of decision, write, storage and commit, with every fault |
| Coordinator.ClipboardSync.Persist | crates/sync/src/lib.rs:319-377 | Stores the blob a row needs before the row, and inserts a row once |
| Winner.ReceiveTracks | crates/network/src/replication.rs:98-131 | A receipt keeps the winner the maximum of what was handled, also when the event is superseded or left the window |
| Winner.RecordTracks | crates/network/src/replication.rs:67-93 | A recorded local event is the maximum, because its timestamp was drawn just before |
| Winner.RecordAdvancesCurrent | crates/network/src/replication.rs:76-80 | Exactly when recording moves the winner forward |
| Winner.ExhaustedMovesBack | crates/network/src/replication.rs:76-80 | A ledger that gets there: its winner moves back |
| Cluster.RunSound | crates/sync/src/lib.rs:119-317 | Every reachable state of any number of devices keeps window, winner, clock bound and causality |
| Convergence.CurrentIsMaximum | crates/network/src/replication.rs:98-176 | In every run each device's winner is the greatest event it handled, and absent exactly when it handled none |
| Convergence.Converges | crates/network/src/replication.rs:98-176 | Devices that handled the same events agree on the winner |
| Convergence.WindowExact | crates/network/src/replication.rs:158-168 | In every run of every build, however long, and for every capacity the window is duplicate-free and bounded |
| Convergence.CausalityRespected | crates/protocol/src/clock.rs:25-58 | Timestamps increase along every causal chain of events |
| Convergence.CountersBounded | crates/protocol/src/clock.rs:25-58 | In every run of every build counters are at most the number of clock operations, physical parts at most the largest reading |
| Convergence.NothingSaturates | crates/protocol/src/clock.rs:25-58 | Within 2^32 - 2 clock operations no counter saturates at any point of a run, and every next tick moves strictly forward |
| Convergence.AppliedAtMostOnce | crates/network/src/replication.rs:98-131 | However often an event is redelivered, a device applies it at most once |
| Convergence.RemoteApplicationsNeverEcho | crates/platform/src/clipboard.rs:355-379 | Events created by polling, plus one for a change still to be seen, never exceed the copies made on the device |
| Commit.DeliveryOutcome | crates/sync/src/lib.rs:186-317 | What a delivery does to history and window, by guards on the content, the conflict decision and the faults |
| Commit.MissingIffLost | crates/sync/src/lib.rs:293-317 | In every run of every build a handled event is missing exactly when its insertion as a superseded event failed and no delivery has stored it since |
| Commit.AcknowledgedIsDurable | crates/sync/src/lib.rs:293-317 | While storage works on a device, every event it recorded or acknowledged is in its history until its user deletes it, whatever happens on the others |
| Commit.FailedSupersedeIsLost | crates/sync/src/lib.rs:305-309 | A superseded event is acknowledged on redelivery all the same, and is in history exactly if the history, and for a format with a blob the blob store, worked at its first delivery |
| Commit.AppliedAgainUnlessCommitted | crates/sync/src/lib.rs:310-315 | A redelivered event is applied again exactly where the debug assertion is compiled out |
| Uncommitted.MaximumIff | crates/sync/src/lib.rs:310-315 | In all clean runs of a build the winner is the greatest handled event, exactly if the build executes the commit |
| Uncommitted.ConvergesIff | crates/sync/src/lib.rs:310-315 | Devices that handled the same events have the same winner in all clean runs, exactly if the build executes the commit |
| Uncommitted.AgreesIff | crates/sync/src/lib.rs:310-315 | Settled devices that handled the same events hold the same value in all clean runs, exactly if the build executes the commit |
| Uncommitted.ShownIff | crates/sync/src/lib.rs:310-315 | A settled device shows its winner in all clean runs, exactly if the build executes the commit |
| Uncommitted.CausalIff | crates/sync/src/lib.rs:310-315 | Timestamps increase along every causal chain in all clean runs, exactly if the build executes the commit |
| Uncommitted.OnceIff | crates/sync/src/lib.rs:310-315 | No event is applied twice on a device in any clean run, exactly if the build executes the commit |
| AtLeastOnce.DeliveredOrOwed | crates/sync/src/lib.rs:119-317 | In every run in which peers acknowledge only what they handled, each event recorded for a peer is still queued, was listed after expiry, or was handled by the peer and, while storage works there, is in its history |
| History.CaptureRestores | crates/sync/src/lib.rs:28-62 | A captured copy restores from history to the same value, exactly unless it is an image over the decoding limit |
| History.ReceivedRestores | crates/sync/src/lib.rs:293-377 | In every build, an applied or superseded event restores from history to what it carries, which is what an applied one put on the clipboard |
| History.StoredRestores | crates/sync/src/lib.rs:319-377 | Whatever is stored restores to the value it stands for with its paths as texts: to that value exactly if its paths are UTF-8 |
| HistoryStore.ClipboardStore.Insert | crates/storage/src/clipboard.rs:209-231 | Inserts a row with content once, and leaves a present one alone |
| HistoryStore.ClipboardStore.SetPinned | crates/storage/src/clipboard.rs:345-350 | Changes the pin of a present row, and nothing else |
| HistoryStore.ClipboardStore.Remove | crates/storage/src/clipboard.rs:357-371 | Removes the row and returns its blob |
| HistoryStore.ClipboardStore.Prune | crates/storage/src/clipboard.rs:378-388 | Deletes exactly the unpinned rows from before the cutoff |
| History.SurvivesIff | crates/storage/src/clipboard.rs:345-388 | An action deletes an entry exactly if it removes it, or prunes past it while it is not pinned; other actions keep it as it is |
| History.RestoresUntilDeleted | crates/sync/src/lib.rs:319-377 | In every run, until its user deletes it, an entry is kept but for its pin and restores to the same value |
| History.PinnedSpared | crates/storage/src/clipboard.rs:378-388 | A pinned entry survives every pruning, until it is removed or unpinned |
| History.NewerSpared | crates/storage/src/clipboard.rs:378-388 | An entry no older than any cutoff survives every pruning |
| Agreement.ShowsTheWinner | crates/sync/src/lib.rs:119-317 | A settled device that handled anything shows the content of its winner |
| Agreement.ClipboardsAgree | crates/sync/src/lib.rs:119-317 | Two settled devices that handled the same events hold the same clipboard value |
| Agreement.PollSettles | crates/platform/src/clipboard.rs:355-367 | A successful poll of a clipboard with content settles it |
| Agreement.StaysSettled | crates/sync/src/lib.rs:293-317 | Only a further copy on the device itself unsettles it |
| CalculatorParser.Parser.Parse | crates/calculator/src/expression.rs:140-147 | Consumes the whole input or reports where it stopped |
| CalculatorParser.Parser.Expression | crates/calculator/src/expression.rs:149-185 | The loop and its recursion stop, at the place and with the value or error of the grammar |
| CalculatorParser.Parser.Prefix | crates/calculator/src/expression.rs:187-217 | Signs, parentheses and postfix percents, as the grammar has them |
| CalculatorParser.Parser.Number | crates/calculator/src/expression.rs:219-254 | Reads the longest literal with at most one exponent |
| CalculatorParser.Parser.RadixNumber | crates/calculator/src/expression.rs:256-277 | Reads a radix literal, and refuses an empty, too large or inexact one |
| CalculatorParser.Parser.Name | crates/calculator/src/expression.rs:279-349 | Constants and calls, with unknown names and wrong arities |
| CalculatorParser.Parser.OperatorHere | crates/calculator/src/expression.rs:351-373 | Recognises the operators, and `of` only as a word |
| CalculatorParser.Parser.ConsumeOperator | crates/calculator/src/expression.rs:375-385 | Steps over one character, or two for `of` |
| Layering.BindingPowerIsLayered | crates/calculator/src/expression.rs:149-217 | On every input the binding-power loop gives the value or the error of the layered grammar |
| Layering.LevelsAreLayers | crates/calculator/src/expression.rs:149-217 | At each of its levels the loop consumes the same input as that layer, with the same value or error |
| Trees.ParsingEvaluates | crates/calculator/src/expression.rs:140-217 | Parsing is building the tree and evaluating it: an input with a tree gives its value and one without fails as its tree does, except for DivisionByZero, exactly if an operation completed before the end or the failing position has a zero divisor |
| Printer.PrintThenBuild | crates/calculator/src/expression.rs:140-349 | A tree printed with parentheses only where precedence or a bare constant asks for them is read back as that tree, with each ratio as the division it is |
| Printer.PrintParseEvaluate | crates/calculator/src/expression.rs:140-349 | And with numbers gives the value of the printed tree, ratios included, or DivisionByZero |
| Printer.DigitNamesUnreachable | crates/calculator/src/expression.rs:279-290 | `log2(` and `log10(` are the unknown name `log`, whatever follows |
| DigitNames.NeverCalled | crates/calculator/src/expression.rs:279-290 | No tree built from any input calls `log2` or `log10` |
| Misread.ModuloReads | crates/calculator/src/expression.rs:187-293 | What every unparenthesised modulo is read as: the modulo, or after a bare constant an error before an unsigned operand and a subtraction from a percentage before a signed one |
| Misread.ModuloIff | crates/calculator/src/expression.rs:187-293 | An unparenthesised modulo is read as one if and only if its left operand does not end with a bare constant |
| Misread.SignedExample | crates/calculator/src/expression.rs:187-293 | `pi % -2` is `pi% - 2` |
| Transfer.AcceptConsistent | crates/network/src/transfer.rs:339-370 | Whatever chunk arrives, complete entries stay verified final files and open entries stay as long as their partial file |
| Transfer.OpenFromAgrees | crates/network/src/transfer.rs:236-332 | Opening makes memory agree with the disk, and leaves other entries' files alone |
| TransferReceiver.Begin | crates/network/src/transfer.rs:236-332 | The opening loop has the effects and the result of the specification, in order, also when it fails part way |
| TransferReceiver.Receiver.Accept | crates/network/src/transfer.rs:339-370 | Appends, verifies and renames as specified, with every error |
| TransferReceiver.Receiver.ResumeOffsets | crates/network/src/transfer.rs:374-376 | Offers what was received of each entry |
| TransferReceiver.Receiver.Progress | crates/network/src/transfer.rs:380-395 | Counts bytes and files, and names the first incomplete file exactly until all are complete |
| TransferReceiver.Receiver.Finish | crates/network/src/transfer.rs:402-423 | Publishes exactly when all entries are complete: only verified files, under the first free name, and nothing else in the incoming directory changes |
| TransferRuns.StepSound | crates/network/src/transfer.rs:236-423 | Every call, cut off anywhere, keeps final files verified and partial files prefixes, and loses no durable byte |
| TransferRuns.CrashSafeDelivery | crates/network/src/transfer.rs:236-423 | Over any run of sessions, whatever is published has the announced sizes and hashes, and equals the source of an honest sender |
| TransferRuns.FreshDelivery | crates/network/src/transfer.rs:236-423 | So from an empty staging disk everything that is ever published is exact |
| TransferRuns.OffsetsNeverDecrease | crates/network/src/transfer.rs:236-376 | Resume offsets never decrease before publication |
| TransferRuns.SessionOffersDurableBytes | crates/network/src/transfer.rs:236-376 | A session offers exactly the durable bytes it found |
| TransferRuns.BeginSucceedsIff | crates/network/src/transfer.rs:236-332 | Exactly when a session can begin, from the manifest, the disk and the free space |
| TransferRuns.BeginsUnlessPoisoned | crates/network/src/transfer.rs:236-332 | On every disk that sessions leave, a session that fits begins exactly if no entry is poisoned and no empty file is announced with a wrong hash |
| TransferRuns.HonestNeverPoisons | crates/network/src/transfer.rs:236-423 | With an honest sender no run of sessions poisons an entry, and the next session begins exactly if there is something to transfer that fits |
| TransferRuns.MismatchPoisons | crates/network/src/transfer.rs:339-370 | A chunk is answered with a hash mismatch, and poisons an entry, exactly if it is the right next and last one of an entry and completes content with another hash |
| TransferRuns.PoisonedForever | crates/network/src/transfer.rs:283-310 | No later session with that manifest begins |
| TransferRuns.PoisonedExample | crates/network/src/transfer.rs:283-369 | A session from an empty staging disk that ends so |
| Session.ReadTransferChunk | crates/network/src/transfer.rs:509-523 | A short read returns at least one byte of the source before its end |
| Session.SendEntries | crates/network/src/session.rs:540-621 | With an unchanged source the loops end, the chunks lead from the resume offsets to the sizes, the state and the reports are those of the chunks, and progress is monotone and ends at the total; every early end has its reason |
| Session.SentSound | crates/network/src/session.rs:560-621 | The counters and reports of the chunks are right: bytes are the sum of the offsets, files the number of complete entries, and each report is the progress at its chunk |
| Session.SendTransfer | crates/network/src/session.rs:517-627 | With an unchanged source a session ends well only after an offer that has a frame, resume offsets for this transfer, the whole stream and the acknowledgement; otherwise the error says which of them stopped it |
| ReceiveSession.ReceiveMessages | crates/network/src/session.rs:159-185 | The receive loop does what was specified message by message, reports the progress after each chunk, which is monotone, and ends without an error exactly when every entry is complete |
| ReceiveSession.ReceiveTransfer | crates/network/src/session.rs:139-202 | Against any sender, publishes exactly when the session begins, the resume offsets have a frame and every entry is final, and then only verified files under a free name; succeeds if the acknowledgement has a frame too |
| ReceiveSession.CarriedIsReceived | crates/network/src/session.rs:159-185 | Chunks that lead to the sizes are all accepted, and the receiver stops exactly after the last |
| ReceiveSession.CarriedPartway | crates/network/src/session.rs:159-185 | Chunks that stop short are all accepted too, and leave the receiver waiting where they lead |
| ReceiveSession.DeliverTransfer | crates/network/src/session.rs:139-202 | From any durable state of earlier sessions, a full session publishes exactly when the offer, the resume offsets and the chunks read from the sources have frames: every source byte for byte, under the first free name, with the same progress on both sides; it is acknowledged exactly if that has a frame too |
| ReceiveSession.LargeOfferFails | crates/network/src/frame.rs:14-24 | With a codec that writes at least 32 bytes for each entry, no offer of more than 16384 entries has a frame |
| ReceiveSession.LargeOfferExample | crates/network/src/session.rs:529-529 | A folder of 16385 empty files that a receiver could begin, and whose offer has no frame |
| FreshName.AvailableDestination | crates/network/src/transfer.rs:553-575 | The suffix search returns the first free name after at most as many candidates as there are names, with the same extension |
| FreshName.FirstFreeUnique | crates/network/src/transfer.rs:553-575 | That name is determined by what exists, and is free |
| FreshName.CandidatesDistinct | crates/network/src/transfer.rs:564-568 | Numbered candidates are pairwise distinct |
| Blob.ConsumeExact | crates/network/src/session.rs:429-442 | Against a server with the right content every chunk is accepted, both sides see the end at the same chunk, and the outcome depends only on what was held |
| Blob.PrefixAttemptExact | crates/network/src/blob.rs:32-142 | From any correct prefix one attempt ends with exactly the content |
| Blob.HealsInTwo | crates/network/src/blob.rs:114-178 | From any partial file no longer than the blob at most one attempt fails, and the next one ends with exactly the content |
| Blob.StuckIff | crates/network/src/blob.rs:43-67 | With any free space, exactly which files make an attempt fail for good |
| BlobRuns.BlobRunSound | crates/network/src/blob.rs:32-178 | Over any requests to any servers, cut off anywhere, the final file is absent or verified, and never changes |
| BlobRuns.RunThenHeals | crates/network/src/blob.rs:32-178 | After any such run two full requests to a right server leave a verified file |
| BlobRuns.TooLongExample | crates/network/src/blob.rs:43-67 | One hash announced with two sizes leaves a partial file that no later request changes |
| BlobSession.BlobReceiver.Accept | crates/network/src/blob.rs:114-142 | Appends and finalizes as specified, with every error |
| BlobSession.BlobReceiver.FinalizePartial | crates/network/src/blob.rs:157-177 | Renames a verified partial file, or deletes it and starts over |
| BlobSession.BlobReceiver.Finish | crates/network/src/blob.rs:149-155 | Yields the verified content, or reports it incomplete |
| BlobSession.BeginReceiver | crates/network/src/blob.rs:32-89 | Opens or resumes as specified, with every error |
| BlobSession.ReadBlobChunk | crates/network/src/blob.rs:185-210 | Marks a chunk complete exactly when it reaches the end |
| BlobSession.Serve | crates/network/src/session.rs:210-231 | The serving loop ends, having streamed the content from the offset with only the last chunk marked |
| BlobSession.RequestBlob | crates/network/src/session.rs:411-443 | Succeeds only with verified content; against a right server it succeeds from every correct prefix |
| IndexRuns.RefreshExact | crates/files/src/lib.rs:132-251 | After a complete refresh a path is in the scope exactly when the walk found it or a cancelled refresh had stamped it |
| IndexRuns.ExactIff | crates/files/src/lib.rs:132-251 | The scope is exactly the walk if and only if the walk found all that cancelled refreshes had stamped |
| IndexRuns.StaleRowExample | crates/files/src/lib.rs:132-251 | A cancelled refresh and a complete one after which a deleted file is still in the scope |
| IndexRuns.IndexExact | crates/files/src/lib.rs:132-251 | In every run, what is in the scope without being found was found by a cancelled refresh since the last complete one |
| IndexRuns.SecondRefreshExact | crates/files/src/lib.rs:132-251 | A second complete refresh is exact, whatever came before and whatever other scopes did between |
| IndexRuns.RunAgrees | crates/files/src/lib.rs:194-239 | In every run `file_search` has exactly one row for each indexed path, under its name |
| IndexRuns.Untouched | crates/files/src/lib.rs:160-251 | A refresh leaves alone what it did not find, unless it completes the scope the row belongs to |
| IndexRuns.ReportCounts | crates/files/src/lib.rs:159-249 | The report counts what the walk showed, and cancelled refreshes remove nothing |
| IndexRuns.SearchablePathIff | crates/files/src/lib.rs:194-225 | Exactly when the searchable path is the one below the new root |
| IndexRuns.SearchablePathExact | crates/files/src/lib.rs:194-239 | In every run the searchable path is the one below the root of the last refresh that found the file with new metadata; it is out of date exactly if that root gives another path than the scope the file is in |
| IndexRuns.NestedScopeExample | crates/files/src/lib.rs:194-225 | A refresh of a nested scope after which it is not |
| FileIndex.Index.Refresh | crates/files/src/lib.rs:122-252 | The loop over the walk has the tables, the report and the errors of the specification, those of the database included, and commits all or nothing |
| FileIndex.DeleteStale | crates/files/src/lib.rs:228-249 | Deletes from both tables exactly the rows of the scope that were not stamped |
| Frame.DecodesIff | crates/network/src/frame.rs:32-52 | The accepted byte strings are exactly the frames of their messages |
| Frame.FrameRoundTrip | crates/network/src/frame.rs:14-52 | Decoding inverts encoding |
| Frame.ReadsOne | crates/network/src/frame.rs:71-87 | Reading takes exactly one frame off the stream |
| Frame.StreamDelivers | crates/network/src/frame.rs:71-87 | Whatever part of a stream arrives, the reader gets the messages in order, none altered and none invented |
| Frame.EncodedIsRead | crates/network/src/frame.rs:14-87 | Any concatenation of encoded frames is read back as exactly the messages |
| Frame.ReadIsFramed | crates/network/src/frame.rs:71-87 | A stream read to its end is the frames of what was read |
| Frame.Stream.WriteFrame | crates/network/src/frame.rs:59-64 | Writes one frame, or nothing on an error |
| Frame.Stream.ReadFrameFrom | crates/network/src/frame.rs:71-87 | The two exact reads do what reading one frame was specified to do |
| Workdays.AddWorkdays | crates/calculator/src/temporal.rs:273-285 | The day-by-day loop ends with the closed form, and fails exactly when that date is not representable |
| Workdays.ShiftedIsNearest | crates/calculator/src/temporal.rs:273-285 | The result is the nearest date with exactly that many workdays passed |
| Workdays.NearestUnique | crates/calculator/src/temporal.rs:273-285 | No other date is |
| Workdays.ClosedForm | crates/calculator/src/temporal.rs:273-285 | From a workday it is the div-5 and mod-5 formula, in both directions |
| Workdays.ReturnsIff | crates/calculator/src/temporal.rs:273-285 | Adding and taking away returns exactly from workdays |
| Workdays.StepsAdd | crates/calculator/src/temporal.rs:273-285 | Steps in one direction add up, from any date |
| Search.ComputeFuzzyScore | crates/core/src/search.rs:75-101 | The one-pass loop computes the score of the leftmost match |
| Search.FuzzyIff | crates/core/src/search.rs:75-101 | There is a score exactly when the query is a subsequence of the text |
| Search.FuzzyBest | crates/core/src/search.rs:75-101 | The greedy score is the best of all ways to find the query in the text |
| Search.GreedyLeast | crates/core/src/search.rs:83-99 | No way to find the query has any character further left |
| Search.ScoredIff | crates/core/src/search.rs:55-73 | A candidate is scored exactly when its title or a keyword contains the query |
| Search.ScoreTiers | crates/core/src/search.rs:55-73 | Which scores exact titles, prefixes, other titles and keywords can have |
| Ranking.TiersRank | crates/core/src/search.rs:34-51 | With equal usage signals exact titles come before prefixes, and those before all other matches |
| Ranking.FavoritesLead | crates/core/src/search.rs:34-51 | On an empty query favorites lead, then frequency decides |
| Ranking.RankCandidates | crates/core/src/search.rs:28-53 | The ranking is the stable sort of exactly the candidates that contain the query |
| Ranking.ScoredIsContaining | crates/core/src/search.rs:34-43 | Filtering by score keeps exactly those candidates, in their order |
| Ranking.StableSortUnique | crates/core/src/search.rs:44-51 | Sortedness and stability determine the ranking |

## Left out

- Transport, discovery, pairing, identities and signatures: streams are taken as reliable queues that may be cut, and deliveries as coming from the event's origin.
- Hashing: a clipboard digest and a clipboard blob's hash are the hashed bytes themselves, so collisions do not occur there; in transfers and blob requests the hash is any function of the bytes, and collisions are allowed.
- PNG and CBOR: two functions each, of which only the round trip of what they encode is assumed, where a theorem needs it.
- Convergence.Converges: speaks of runs in which the commit inside `debug_assert_eq!` is executed and that have at most 2^32 - 1 clock operations; the `Iff` lemmas of `Uncommitted` and `Winner.RecordAdvancesCurrent` say what becomes of it outside of them.
- Commit.AcknowledgedIsDurable: speaks of runs without storage faults on that device; `Commit.MissingIffLost` says for all runs what faults can lose.
- Agreement.ClipboardsAgree: speaks of runs without sensitive, excluded, file or failed operations; a native clipboard that writes only the plain text of rich values is not part of this model.
- Garbage collection of blobs and the privacy policy: blobs are never deleted, and the policy's decision is an input of a poll. Queries of the history are not modelled.
- Windows paths: a path is absolute if it starts with a slash, and its bytes are what the file system has.
- Error values: `UnexpectedEvent` stands for the coordinator's `UnexpectedContent`; foreign errors are one value for each service.
- File paths in transfers: one slot of staged files for each entry stands for its partial and final file, so entries have distinct, non-nested paths that collide with no staging name; path validation, symbolic links and permissions are not modelled.
- Writes that a crash loses although the call returned: a cut write keeps a prefix, and finished calls are durable.
- TransferReceiver.Receiver.Finish: moving the staged files is one step that succeeds, and the incoming directory has fewer than 2^32 - 1 entries. Publishing a single file has two effects on disk; a crash between them leaves an empty staging directory, which the next session finds as the empty slots it starts from.
- The frames of blob requests and blob chunks: their messages arrive as they were sent, whatever their size.
- Identities: a new event's identity is unlike any drawn before, and unlike those in the histories a run starts with.
- Messages a sender writes when it is cancelled, and their frames; the name, entry-count and path checks of a manifest.
- BlobSession.BlobReceiver.FinalizePartial: renaming and deleting succeed; the race with another process that creates the final file first is not modelled.
- File sizes: at most the signed 64-bit limit of the operating systems.
- Error offsets of the calculator: counted in characters where the program counts bytes; units and currency conversion are not modelled, and numbers are abstract, so rounding and overflow are not either.
- FileIndex.Index.Refresh: a root that is no directory, a bad ignore pattern and a database that fails before the walk are not modelled; they return before anything is changed. Neither are the full-text query and its ranking.
- Search.ComputeFuzzyScore: 64-bit overflow for texts of more than 10^16 characters is not modelled.
- Ranking.RankCandidates: the library's sort is modelled by insertion; lower-casing and trimming are parameters.
- Workdays.AddWorkdays: a date is its day number, and the calendar's range is a parameter; parsing, time zones and time spans are not modelled.
- Launcher shell, themes, emoji and currency tables, plug-in sandbox, preferences: presentation or single checks that would add only easy members.
