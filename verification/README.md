# Verified models of ai-memory

Dafny models of the parts of ai-memory where a claim spans several functions or a whole
state machine, with proofs of those claims for all inputs and all runs. `dafny verify
dfyconfig.toml` checks the project.

**The relay** (`companions/ai-memory-relay`) is a durable queue that delivers events to a
server that may answer anything or nothing. `RelayTables` holds the three tables and their
invariant, `RelayEnqueue` and `RelaySelect` the two operations with loops, `RelayQueue` the
queue itself as a class whose methods are its transactions, and `RelayAck` the gate every
release passes through. `RelayWorld` is every order in which a host can run those
transactions: one flush at a time, enqueues by other processes between any two of its steps,
a crash at any point, and an arbitrary reply or none. `RelayDelivery` proves the delivery
guarantees of all such runs, and `RelayOrigin` that what is sent was offered and whose a session
is. `RelayFlush` and `RelayFlushLoop` are the flush loop; `RelayPassMeaning` states from the
reply itself what one pass does to every row, receipt, session and counter, `RelayPass` proves
that a pass conserves events and that the loop ends by itself,
`RelayDrain` that a refused event holds nothing but its own session, `RelayPassRuns` that the
loop is one of the runs of `RelayWorld` and puts exactly its requests on the wire, and
`RelayFlushWire` what that guarantees of every request of a flush. `RelaySender` is the retry
loop on two clocks, `RelayRequests` the proof that its requests are those `RelayWorld` allows,
and `RelayPinsFull` a run to a queue that refuses a duplicate.

**Redaction** (`companions/ai-memory-client/src/scrub.rs`): `HiddenText` is the pass that
removes hidden characters, `Redact` the rewrite that finds matches in a text with its
invisible characters removed and maps them back through byte offsets.

**JSON extraction** (`evals/src/ab.rs`): `JsonScan` is the byte machine, proved to find
exactly the balanced blocks; `JsonText` is the grammar of RFC 8259, sections 2 to 7, as concrete
syntax trees with their printer.

**The child reader** (`companions/ai-memory-desktop/src/lib.rs`): `PipeDrain` is a child
writing to two bounded pipes, a thread draining one and a loop reading the other, under any
interleaving.

**The changelog** (`scripts/changelog_sections.py`): `TextLines` is splitting and joining,
`Changelog` the parser, the archiver and the comparison, `ChangelogSplit` their round trip,
`ChangelogNote` and `ChangelogPreamble` the rewritten preamble, `ChangelogCollect` how files read one after the other,
`ChangelogArchive` exactly when archiving keeps what is read, `ChangelogFailures` trees for which it
does not, and `ChangelogCheckout` the files as an object rewritten in place.

**The importer** (`companions/ai-memory-importer`): `ImportHash` is length-framed hashing,
`ImportPlan` the planner, `ImportMeaning` what a plan says of the conversation it was made from,
`ImportStable` what its ingest keys mean; `XmlText` is the streaming text extractor, `XmlTree` the
tree it is proved equal to, and `XmlMarks` where its lines and cells end.

Everything read from outside is a parameter: clock readings, what the server answers, pipe
capacities and schedules, the matches of a pattern, hash functions, sanitizers. A hash is
assumed to have no collision among the inputs a statement names, and nothing else.

## Where the code and its own description differ

- The comment at `companions/ai-memory-relay/src/queue.rs:337` says a duplicate is recognized
  while the queue is full. It is not when the pin table is full and the pin of the
  duplicate's session has been pruned: `RelayPinsFull.DuplicateRefusedWhenPinsFull` is a run to
  such a queue, `RelayEnqueue.KnownFileNeedsPins` the exact condition.
- The comment at `companions/ai-memory-relay/src/relay.rs:568` says no attempt puts an event on
  the wire after its retry window closed. The window is measured from a wall-clock reading
  truncated to milliseconds and run on a clock started later, so a request can be admitted
  after it by less than that difference (`RelaySender.OvershootBounded`).
  `RelaySender.InsideWindowIff` is the exact condition on a call, `RelaySender.AdmittedAfterWindow`
  a call with the full budget and five milliseconds of window left that goes past it.
- `prune` keeps a receipt one millisecond longer than `is_expired` asks
  (`RelayTables.PruneIsStricterThanExpiry`).
- `archive` can change what is read back: when it leaves a released section at the end of a file
  that ends in a link or blank line; when it overwrites an archive file of the same major that
  holds something no other file does; when a version that moves stands with another text in the
  overwritten file or in an archive file read before it, which was read for it so far; and when
  a link that is still needed was in the overwritten file, or in a changelog left without
  sections, and stands nowhere else. `ChangelogArchive.FrozenPassesIff` and
  `ChangelogArchive.VerdictIff` are the exact condition for every tree,
  `ChangelogArchive.DistinctStand` and `ChangelogArchive.WellEndedLinks` what it comes to when no
  version is in two places and both files end well. `ChangelogFailures` has trees for it.
- The skip counter of `xml_text` is not looked at by its text arms, so characters of a skipped
  element inside a `t` are kept (`XmlTree.SkipsExactlyWhenQuiet`, `XmlTree.DeletionInsideText`).

## Model

| member | source | states |
|---|---|---|
| `RelayAck.ValidateIffConsistent` | companions/ai-memory-relay/src/ack.rs:85-155 | an acknowledgement is accepted with a list of indexes if and only if that list is in range, ascending, agrees with `accepted` as its longest 0,1,2,… prefix, stops short of `failed_index`, and matches `results` position by position |
| `RelayAck.ConsistentPasses` | companions/ai-memory-relay/src/ack.rs:85-155 | every acknowledgement that meets those conditions for some list is accepted with that list |
| `RelayAck.AcceptedIsAbsent` | companions/ai-memory-relay/src/ack.rs:99-109 | the index `accepted` is itself never among the accepted ones |
| `RelayAck.OutcomePerIndex` | companions/ai-memory-relay/src/ack.rs:157-164 | after validation, the outcome of the k-th accepted index is the k-th reported one, normalised, or unknown |
| `RelayTables.TtlZeroIffExpired` | companions/ai-memory-relay/src/relay.rs:558-562 | no window is left if and only if the event is expired, for all 64-bit times with saturation |
| `RelayTables.CountedExpiredIffExpired` | companions/ai-memory-relay/src/queue.rs:661-666 | the events counted as expired are those `is_expired` refuses to resend, if and only if not for a first attempt at the smallest 64-bit time read within a window of it |
| `RelayTables.SessionIdDecides` | companions/ai-memory-relay/src/queue.rs:345-383 | grouping by agent and session is grouping by session, because of the pins |
| `RelayTables.OneInFlightPerSession` | companions/ai-memory-relay/src/queue.rs:463-470 | two pending events of a session that both carry a first attempt are the same event |
| `RelayTables.ConfirmedMeaning` | companions/ai-memory-relay/src/queue.rs:567-605 | exactly the listed pending keys leave, each becomes one receipt with its own clock, time and outcome, no receipt already held changes (the conflict branch never runs), and the capacity used is unchanged |
| `RelayTables.MovedCount` | companions/ai-memory-relay/src/queue.rs:574-604 | the reported count is the number of rows that left |
| `RelayTables.StampedInv` | companions/ai-memory-relay/src/queue.rs:545-560 | stamping heads keeps the table invariant, in particular that only heads carry a first attempt |
| `RelayTables.StampedCounts` | companions/ai-memory-relay/src/queue.rs:545-560 | a row counts one more attempt for each time its key is listed, gets a first attempt if it is listed and has none, and is otherwise unchanged |
| `RelayTables.NotedMeaning` | companions/ai-memory-relay/src/queue.rs:609-616 | a failure labels the row of the key, and no other row or field changes |
| `RelayTables.LabelMeaning` | companions/ai-memory-relay/src/queue.rs:609-616 | a label has at most 80 characters, none a control, and is the class itself or its beginning if the class has none |
| `RelayTables.PrunedMeaning` | companions/ai-memory-relay/src/queue.rs:619-635 | a receipt goes if and only if its first attempt is longer ago than the window, and is then expired; a pin goes if and only if its session was last seen longer ago than the window and has no pending row; nothing else changes |
| `RelayTables.PruneIsStricterThanExpiry` | companions/ai-memory-relay/src/queue.rs:620-627 | a receipt is forgotten exactly when its key is expired and the boundary millisecond has passed |
| `RelayEnqueue.AcceptsIffAdmissible` | companions/ai-memory-relay/src/queue.rs:344-451 | the loop accepts a file event by event if and only if the whole file meets a condition stated without the loop: one agent per session, one body per key, and all caps |
| `RelayEnqueue.FreshAtMeaning` | companions/ai-memory-relay/src/queue.rs:393-411 | the events taken are exactly the first occurrences of keys the queue does not know, in file order |
| `RelayEnqueue.FreshKeys` | companions/ai-memory-relay/src/queue.rs:393-411 | no key is taken twice and none that is pending or has a receipt |
| `RelayEnqueue.NewRowsMeaning` | companions/ai-memory-relay/src/queue.rs:433-450 | old rows stay; behind them each new event has a row that equals it in every field, seen now, never attempted, with no attempts and no error, numbered on |
| `RelayEnqueue.KnownShaMeaning` | companions/ai-memory-relay/src/queue.rs:393-401 | a key stands for the body hash of its pending row or of its receipt |
| `RelayEnqueue.SessionReason` | companions/ai-memory-relay/src/queue.rs:349-383 | a session is refused for want of a pin if and only if neither pins nor earlier events know it and all pins are used, as a conflict if and only if its pin or an earlier event names another agent |
| `RelayEnqueue.KeyReason` | companions/ai-memory-relay/src/queue.rs:385-432 | a key is refused for each reason if and only if: an earlier event has it with another body; else the queue has it with another body; it is new and its row does not fit; it and its row would, but no receipt is left |
| `RelayEnqueue.PinsMeaning` | companions/ai-memory-relay/src/queue.rs:452-458 | afterwards exactly the sessions of the file and those pinned before are pinned; old pins keep their agent, those of the file are seen now, the others are unchanged |
| `RelayEnqueue.EnqueuedInv` | companions/ai-memory-relay/src/queue.rs:323-461 | an accepted file keeps the table invariant |
| `RelayEnqueue.ReplayAddsNothing` | companions/ai-memory-relay/src/queue.rs:402-411 | a file whose keys and pins are recorded is admitted, accepts nothing and changes neither rows nor receipts, however full the queue is |
| `RelayEnqueue.KnownFileNeedsPins` | companions/ai-memory-relay/src/queue.rs:360-369 | a file of known keys is admitted if and only if its agents agree and its sessions fit the pin table |
| `RelayPinsFull.DuplicateRefusedWhenPinsFull` | companions/ai-memory-relay/src/queue.rs:332-369 | some run, of events with short session names and small JSON bodies, ends in a queue that has a receipt for an event with the same body and refuses the event, unchanged, because the pin table is full |
| `RelaySelect.HeadsMeaning` | companions/ai-memory-relay/src/queue.rs:505-515 | the rows the pass considers are exactly the oldest rows of sessions that are not held |
| `RelaySelect.SelectionMeaning` | companions/ai-memory-relay/src/queue.rs:463-529 | the batch holds heads of distinct sessions in order, none held or expired, within the item limit and the byte budget unless it is one item, and is empty if and only if every head is held or expired |
| `RelaySelect.LeftOutMeaning` | companions/ai-memory-relay/src/queue.rs:516-520 | a workable head is left out only when the batch was full or the older items left no room for it |
| `RelaySelect.CountsMeaning` | companions/ai-memory-relay/src/queue.rs:505-525 | of the rows read before the batch was full, the counts are those of the expired heads and of the workable heads left out, of sessions not held |
| `RelayQueue.Queue.Enqueue` | companions/ai-memory-relay/src/queue.rs:323-461 | succeeds if and only if the file is admissible; success appends exactly the new events with accepted + recognized = length, failure changes nothing and names the first refusal |
| `RelayQueue.Queue.Transaction` | companions/ai-memory-relay/src/queue.rs:324-460 | the loop over the file with running counts computes that outcome without touching the queue |
| `RelayQueue.Queue.SelectBatch` | companions/ai-memory-relay/src/queue.rs:471-529 | the single pass with a `seen` set equals the selection described by `RelaySelect` |
| `RelayQueue.Queue.StampAttempt` | companions/ai-memory-relay/src/queue.rs:545-560 | stamps exactly the listed rows and keeps the invariant when they are heads |
| `RelayQueue.Queue.Confirm` | companions/ai-memory-relay/src/queue.rs:567-605 | moves exactly the listed rows to receipts, keeps the invariant, and returns how many rows left |
| `RelayQueue.Queue.RecordFailure` | companions/ai-memory-relay/src/queue.rs:609-616 | labels the row of the key and changes nothing else |
| `RelayQueue.Queue.Prune` | companions/ai-memory-relay/src/queue.rs:619-635 | forgets exactly those receipts and pins, keeps the invariant, returns how many went |
| `RelayDelivery.StepKeeps` | companions/ai-memory-relay/src/relay.rs:301-504 | every step of every interleaving keeps the table, wire and window invariants |
| `RelayDelivery.ReachableGood` | companions/ai-memory-relay/src/relay.rs:281-504 | so they hold in every reachable state, crashes and lost or hostile replies included |
| `RelayDelivery.FifoOnWire` | companions/ai-memory-relay/src/queue.rs:463-470 | whenever an event is sent, no older event of its session is pending, so a session end never overtakes |
| `RelayDelivery.WireNeverGoesBack` | companions/ai-memory-relay/src/queue.rs:463-470 | per session, the sequence numbers on the wire never decrease |
| `RelayDelivery.OneUnacknowledged` | companions/ai-memory-relay/src/queue.rs:463-470 | at most one event of a session has been sent and not released |
| `RelayDelivery.NoResendInWindow` | companions/ai-memory-relay/src/queue.rs:393-411 | a released key is on the wire again only after its retry window, and never while its receipt exists |
| `RelayDelivery.SentInsideWindow` | companions/ai-memory-relay/src/relay.rs:354-375 | every request is admitted after the durable first attempt of each event it carries and no later than that attempt plus the window, up to the lag between two clock readings |
| `RelayDelivery.ReceiptsAreFixed` | companions/ai-memory-relay/src/queue.rs:587-635 | no step changes a receipt; only a prune that finds it expired removes it |
| `RelayDelivery.NothingIsLost` | companions/ai-memory-relay/src/relay.rs:378-480 | an accepted event is, in every later state, still pending, or has a receipt, or was released with a first attempt more than the window ago |
| `RelayDelivery.ReplayIsRecognized` | companions/ai-memory-relay/src/queue.rs:337-411 | enqueueing the same file again after any steps but a prune succeeds with nothing accepted and changes neither rows nor receipts |
| `RelayDelivery.TtlLeftIsSomeones` | companions/ai-memory-relay/src/relay.rs:366-371 | the window of a batch is the remaining window of one of its rows |
| `RelayOrigin.NothingInvented` | companions/ai-memory-relay/src/relay.rs:301-375 | every row of every request of a run carries, in every field, an event that an earlier step accepted as new, with the time it was accepted |
| `RelayOrigin.PinGoesIff` | companions/ai-memory-relay/src/queue.rs:452-458 | a step forgets a session if and only if it prunes one last seen longer ago than the window with no pending row; no step changes an agent, and only an accepted file of the session moves the time it was seen |
| `RelayOrigin.SessionKeepsAgent` | companions/ai-memory-relay/src/queue.rs:628-632 | while no prune finds it idle a session keeps its agent, and a file that claims it for another is refused |
| `RelayOrigin.SeenSessionIsKept` | companions/ai-memory-relay/src/queue.rs:628-632 | so it is for a whole window after a file with an event of the session was accepted |
| `RelayPass.RoundConserves` | companions/ai-memory-relay/src/relay.rs:318-480 | a pass removes exactly the locally unsafe keys and those of a usable acknowledgement; all other rows stay in place and order |
| `RelayPass.SettledReceipts` | companions/ai-memory-relay/src/relay.rs:462-475 | each released row gets a receipt with its own clock and the outcome reported for its own index |
| `RelayPass.ScreenedReceipts` | companions/ai-memory-relay/src/relay.rs:341-349 | each locally unsafe row gets a policy-drop receipt |
| `RelayPass.RoundDecreases` | companions/ai-memory-relay/src/relay.rs:301-503 | a pass that goes on strictly reduces the pending rows of sessions not held, whatever valid acknowledgement came |
| `RelayPass.FlushEndsByItself` | companions/ai-memory-relay/src/relay.rs:301-353 | with one pass more than such rows the limit on batches changes nothing |
| `RelayPassMeaning.RestMeaning` | companions/ai-memory-relay/src/relay.rs:312-352 | what is sent are safe selected rows, stored heads of sessions not held, not expired, at most 256 and within 8 MiB unless one; only unsafe rows are left out of the batch |
| `RelayPassMeaning.OtherReply` | companions/ai-memory-relay/src/relay.rs:376-460 | a reply that is not a 200 or 429 within size with a consistent acknowledgement is refused for the one reason that fits it |
| `RelayPassMeaning.AcceptedLeaves` | companions/ai-memory-relay/src/relay.rs:462-475 | a request answered by a usable 200 or 429 removes exactly the unsafe rows and the rows at the released indexes |
| `RelayPassMeaning.OtherwiseLeaves` | companions/ai-memory-relay/src/relay.rs:341-460 | any other reply, or none asked for, removes exactly the unsafe rows |
| `RelayPassMeaning.AcceptedGoesOn` | companions/ai-memory-relay/src/relay.rs:500-503 | a usable 429 ends the flush, backing off and without a failure; a usable 200 goes on |
| `RelayPassMeaning.RefusedStops` | companions/ai-memory-relay/src/relay.rs:376-460 | any other reply ends the flush with the failure that fits it |
| `RelayPassMeaning.SilentGoesOn` | companions/ai-memory-relay/src/relay.rs:301-375 | a pass without a request goes on if and only if it had rows to drop and none to send, and reports no failure |
| `RelayPassMeaning.AcceptedRows` | companions/ai-memory-relay/src/relay.rs:353-486 | row by row after a usable reply: the rows sent and not released count one more attempt and have a first attempt, the one reported as failed is labelled so, nothing else changes |
| `RelayPassMeaning.RefusedRows` | companions/ai-memory-relay/src/relay.rs:376-460 | row by row after any other reply: exactly the rows sent are stamped, count one more attempt and are labelled with the failure |
| `RelayPassMeaning.SilentRows` | companions/ai-memory-relay/src/relay.rs:353-375 | row by row without a request: at most stamped, when only the time to send was lacking |
| `RelayPassMeaning.ClassTells` | companions/ai-memory-relay/src/relay.rs:376-460 | different failures have different labels, and a label tells the status |
| `RelayPassMeaning.AcceptedReceipts` | companions/ai-memory-relay/src/relay.rs:341-475 | a usable reply adds exactly the receipts of the unsafe rows, as policy drops, and of the released rows, with their own first attempt and the outcome at their own position |
| `RelayPassMeaning.OtherwiseReceipts` | companions/ai-memory-relay/src/relay.rs:341-460 | otherwise exactly the unsafe rows get receipts |
| `RelayPassMeaning.AcceptedHolds` | companions/ai-memory-relay/src/relay.rs:487-499 | a usable reply holds exactly the sessions of rows not released that stand at or before the failed one, or anywhere if none is reported |
| `RelayPassMeaning.OtherwiseHolds` | companions/ai-memory-relay/src/relay.rs:487-499 | nothing else holds a session |
| `RelayPassMeaning.AcceptedCounts` | companions/ai-memory-relay/src/relay.rs:345-475 | a usable reply counts its released rows as delivered, one by one, the unsafe ones as dropped, and one batch |
| `RelayPassMeaning.OtherwiseCounts` | companions/ai-memory-relay/src/relay.rs:345-353 | nothing else counts as delivered; a batch counts once its rows are stamped |
| `RelayPassMeaning.FlushBalance` | companions/ai-memory-relay/src/relay.rs:281-504 | over a whole flush, what is counted as delivered and dropped is exactly what left the queue |
| `RelayPassMeaning.ReportExplained` | companions/ai-memory-relay/src/relay.rs:281-504 | a flush that reports a failure, or that it backed off, ended in a pass whose reply was refused for that reason, or was a usable 429 |
| `RelayPassMeaning.BlockedMeaning` | companions/ai-memory-relay/src/relay.rs:312-318 | the sessions reported as blocked are those with an expired head and not held, of the rows the last selection read |
| `RelayDrain.AnswerFailsFast` | companions/ai-memory-relay/src/ack.rs:133-142 | there is a server that works in order and stops at the first refused event |
| `RelayDrain.HealthyEventsAreDelivered` | companions/ai-memory-relay/src/relay.rs:487-498 | against such a server, at a fixed clock and with enough passes, an event stays pending if and only if an event at or before it in its session is refused or expired; all others have receipts |
| `RelayPassRuns.PassIsRun` | companions/ai-memory-relay/src/relay.rs:301-504 | one pass of the loop is a sequence of steps of the state machine that ends in its tables and puts on the wire exactly its requests, refused and unanswered ones and retries included |
| `RelayPassRuns.FlushIsRun` | companions/ai-memory-relay/src/relay.rs:301-504 | so is the whole loop, with the requests of all its passes in order |
| `RelayFlushWire.RunGoesOn` | companions/ai-memory-relay/src/relay.rs:281-504 | a run followed by steps played from where it ends is a run |
| `RelayFlushWire.FlushExtends` | companions/ai-memory-relay/src/relay.rs:281-504 | after any run, a flush makes it a longer run that ends in the tables the loop computes and has put exactly the loop's requests on the wire |
| `RelayFlushWire.FlushNeverGoesBack` | companions/ai-memory-relay/src/queue.rs:463-470 | per session the requests of a flush never go back, neither among themselves nor behind anything sent before |
| `RelayFlushWire.FlushKeepsWindows` | companions/ai-memory-relay/src/relay.rs:354-375 | every request of a flush is admitted inside the window of every event it carries, and outside the window of every release of such an event made before the request, earlier in the same flush included |
| `RelayFlushWire.FlushSendsOldest` | companions/ai-memory-relay/src/queue.rs:463-470 | no event a flush has sent is newer than one it leaves pending in that session |
| `RelayFlushWire.PassFifo` | companions/ai-memory-relay/src/relay.rs:310-375 | when a pass sends an event, no older event of its session is pending |
| `RelayFlushLoop.RunPass` | companions/ai-memory-relay/src/relay.rs:304-503 | the loop body on the queue object ends in the tables and report the pass describes |
| `RelayFlushLoop.FlushLocked` | companions/ai-memory-relay/src/relay.rs:281-504 | the loop on the queue object ends in the tables and report of the passes run one after another |
| `RelaySender.BatchTimeoutBounds` | companions/ai-memory-relay/src/relay.rs:617-627 | the timeout is the least of the per-event timeout times the items, the cap and the time left, or a millisecond if less than that is left |
| `RelaySender.SendWithRetries` | companions/ai-memory-relay/src/relay.rs:571-610 | the loop computes the call described turn by turn, within its bounds |
| `RelaySender.CallBounded` | companions/ai-memory-relay/src/relay.rs:564-610 | at most three requests, every one admitted before the tighter deadline with a timeout measured against what was left, spaced by the backoff, a return within that deadline plus a millisecond up to the host's own delays, and when each outcome is returned |
| `RelaySender.RequestsApart` | companions/ai-memory-relay/src/relay.rs:594-606 | between a failed request and the next a quarter of a second passes, then half a second, in full |
| `RelaySender.ExactSleeps` | companions/ai-memory-relay/src/relay.rs:564-610 | on a host without delays a call returns within the tighter deadline plus one millisecond and starts no request after it |
| `RelaySender.InsideWindowIff` | companions/ai-memory-relay/src/relay.rs:354-375 | whatever the host does, all requests of a call are admitted inside the retry window, if and only if there is no window or no budget left, or the tighter of the two counted from the sender's start ends inside the window |
| `RelaySender.OvershootBounded` | companions/ai-memory-relay/src/relay.rs:362-375 | a request is admitted past the window by less than the time between the reported millisecond and the sender's start |
| `RelaySender.AdmittedAfterWindow` | companions/ai-memory-relay/src/relay.rs:354-590 | a call with the whole flush budget and five milliseconds of window left, whose request is admitted after the window |
| `RelayRequests.CallAdmits` | companions/ai-memory-relay/src/relay.rs:571-610 | whatever the host does, a call admits its requests at times, in milliseconds, at which the state machine allows transmissions |
| `RelayRequests.CallIsPlayed` | companions/ai-memory-relay/src/relay.rs:365-375 | the requests of a call are transmissions that can be played from an armed state |
| `HiddenText.EmojiTagRunLen` | companions/ai-memory-client/src/scrub.rs:131-143 | the byte length of the run of tag letters closed by the cancel tag, or zero |
| `HiddenText.RemoveHidden` | companions/ai-memory-client/src/scrub.rs:15-37 | the pass over byte offsets keeps exactly the characters of a recursive definition |
| `HiddenText.CleanedTwice` | companions/ai-memory-client/src/scrub.rs:15-37 | removing hidden characters again changes nothing |
| `HiddenText.PlainSurvives` | companions/ai-memory-client/src/scrub.rs:25-35 | every other character survives, all and in order |
| `HiddenText.NothingHidden` | companions/ai-memory-client/src/scrub.rs:15-37 | of the characters that are removed, given by code point, only a byte order mark at the very start and the closed tag runs of flags are left |
| `HiddenText.FirstMarkStays` | companions/ai-memory-client/src/scrub.rs:115-118 | a byte order mark at the very start stays |
| `HiddenText.TagRunMeaning` | companions/ai-memory-client/src/scrub.rs:131-143 | a tag run counts if and only if it is one or more tag letters closed by the cancel tag |
| `Redact.BuildShadow` | companions/ai-memory-client/src/scrub.rs:79-86 | every byte of the stripped text is mapped to the byte of the text it came from |
| `Redact.SpanOf` | companions/ai-memory-client/src/scrub.rs:93-97 | the byte span looked up for a match runs from its first visible character to just after its last |
| `Redact.RedactThroughInvisibles` | companions/ai-memory-client/src/scrub.rs:78-110 | the loop over matches with `copied` computes the rewrite, for any ascending list of matches |
| `Redact.StripCommutes` | companions/ai-memory-client/src/scrub.rs:76-110 | stripping the output equals replacing the matches in the stripped text |
| `Redact.UntouchedOutside` | companions/ai-memory-client/src/scrub.rs:99-108 | outside the replaced spans everything survives unchanged and in order, kept matches included; each span is its match with visible characters at both ends |
| `JsonScan.ExtractFirstBalancedObject` | evals/src/ab.rs:703-734 | the byte loop with its 32-bit depth returns the first block, for any text with fewer than 2^31 opening braces |
| `JsonScan.FindsExactly` | evals/src/ab.rs:703-734 | a block is returned if and only if it is a balanced block, braces in strings ignored and escapes respected, at the first opening brace |
| `JsonScan.NothingFound` | evals/src/ab.rs:703-734 | nothing is returned if and only if no balanced block starts there |
| `JsonText.ExtractsTheObject` | evals/src/ab.rs:702-734 | from any text without a brace, a printed JSON object and any trailing bytes, exactly the printed object is returned |
| `PipeDrain.AlwaysAStep` | companions/ai-memory-desktop/src/lib.rs:250-261 | no reachable unfinished state is stuck, for any capacities of at least one |
| `PipeDrain.StepWorks` | companions/ai-memory-desktop/src/lib.rs:250-261 | every step uses up work |
| `PipeDrain.StepCarries` | companions/ai-memory-desktop/src/lib.rs:250-261 | no step loses, adds or reorders a byte of either stream |
| `PipeDrain.LinesReadBack` | companions/ai-memory-desktop/src/lib.rs:256-259 | whatever lines are written, with or without carriage returns, are the lines handed over, and an unterminated rest is one more |
| `PipeDrain.RunsReturn` | companions/ai-memory-desktop/src/lib.rs:228-261 | every maximal run returns with a prefix of the lines handed over, and with all lines in order and all of stderr when no line fails |
| `PipeDrain.ReadOutput` | companions/ai-memory-desktop/src/lib.rs:244-261 | under any scheduler that picks enabled steps the reader returns |
| `PipeDrain.LateReaderDeadlocksIff` | companions/ai-memory-desktop/src/lib.rs:232-239 | reading stderr only after stdout deadlocks on a script if and only if it writes more to stderr than the pipe holds |
| `TextLines.LinesOfJoin` | scripts/changelog_sections.py:28-45 | splitting a joined text gives its lines back |
| `TextLines.JoinOfLines` | scripts/changelog_sections.py:28-45 | joining the lines of a text gives it back |
| `Changelog.Split` | scripts/changelog_sections.py:26-47 | the three loops compute the parts of a recursive definition |
| `ChangelogCheckout.Checkout.Archive` | scripts/changelog_sections.py:59-87 | rewrites the two files as the value-level archiving describes; of a tidy checkout the changelog keeps exactly the other sections and links, and if the archive file is new the checkout stays tidy and all versions, texts and links read back stay the same; of any checkout the text around the archive note stays |
| `Changelog.Collect` | scripts/changelog_sections.py:127-134 | the loop over texts computes the version map, later sections winning, and the link set |
| `Changelog.Frozen` | scripts/changelog_sections.py:156-200 | compares only when the head has the base's newest release; then it reports exactly the sections removed or changed and the needed links lost, and passes exactly when there is none |
| `ChangelogSplit.SplitYields` | scripts/changelog_sections.py:26-47 | the parts of any text can be printed and read back: sections start with their heading and hold no other, links are link lines, the preamble has no heading |
| `ChangelogSplit.SplitCovers` | scripts/changelog_sections.py:26-47 | the lines of any text are those above the first heading, the blocks from each heading to the next, of which the sections are, and the longest tail of link and blank lines, of which the links are |
| `ChangelogSplit.SplitPrinted` | scripts/changelog_sections.py:26-81 | what a printed file splits into: its sections, the last one cut at its trailing link and blank lines, and those links before its own |
| `ChangelogSplit.SplitUndoesPrint` | scripts/changelog_sections.py:26-81 | with a well ended last section, splitting undoes printing |
| `ChangelogSplit.AtEndDiffers` | scripts/changelog_sections.py:30-34 | a badly ended section comes back from the end of a file with a different text |
| `ChangelogNote.HeadPlain` | scripts/changelog_sections.py:73-77 | the head of an archive file has no section heading |
| `ChangelogNote.WithNotePlain` | scripts/changelog_sections.py:87-107 | rewriting or adding the archive note never creates a section heading in a preamble without one |
| `ChangelogPreamble.ThreeKinds` | scripts/changelog_sections.py:87-107 | every preamble has a first note closed by a blank line, or one that runs to the end, or none |
| `ChangelogPreamble.WithNoteIs` | scripts/changelog_sections.py:104-107 | rewriting replaces the note between an unchanged beginning and an unchanged rest, or adds one behind the stripped preamble |
| `ChangelogPreamble.NoteReads` | scripts/changelog_sections.py:99-104 | the links of the note are one to the directory and one to the archive file of each major line given, in order |
| `ChangelogPreamble.RewrittenAgain` | scripts/changelog_sections.py:80-107 | written back, read again and rewritten, the opening differs in the listed links only, and not at all for the same major lines |
| `ChangelogPreamble.ArchivedPreamble` | scripts/changelog_sections.py:80-107 | the archived changelog starts with what stood before the note, a note that links to exactly the archived major lines, newest first, and what stood behind it up to newlines at its end |
| `ChangelogPreamble.ArchiveOpening` | scripts/changelog_sections.py:73-79 | the preamble read back from the archive file is the title and paragraph that name the major line |
| `ChangelogPreamble.PreambleReadBack` | scripts/changelog_sections.py:26-107 | and that, with an empty line, is the preamble read back from it |
| `ChangelogNote.MajorsMeaning` | scripts/changelog_sections.py:92-96 | the majors listed in the note are exactly those of the archive files, newest first |
| `ChangelogNote.TargetIsMajor` | scripts/changelog_sections.py:71-95 | the file archiving writes counts as one of its own major line |
| `ChangelogArchive.MovedByVersion` | scripts/changelog_sections.py:61-70 | a section or link moves if and only if its version starts with the major and a dot |
| `ChangelogArchive.ArchivePlaces` | scripts/changelog_sections.py:59-84 | read back, the archive file has exactly the moved sections and links and the changelog exactly the kept ones, in their old order |
| `ChangelogCollect.MapsPart` | scripts/changelog_sections.py:62-70 | moved and kept sections share no version and together are all |
| `ChangelogArchive.SectionsSurviveIff` | scripts/changelog_sections.py:59-84 | for every tree, archiving keeps every released text if and only if nothing moves, or the kept, the moved and the overwritten sections read elsewhere what they read before |
| `ChangelogArchive.LinksSurviveIff` | scripts/changelog_sections.py:69-83 | for every tree, the link lines stay the same if and only if nothing moves, or the overwritten ones and those of a changelog without sections are held elsewhere and no line of a section becomes a new link |
| `ChangelogArchive.DistinctStand` | scripts/changelog_sections.py:59-84 | with no version in two places, the sections stand if and only if both files end well and the overwritten file holds nothing that another archive file does not |
| `ChangelogArchive.ArchiveKeepsAll` | scripts/changelog_sections.py:59-84 | for well-formed files the collection of versions, texts and links is the same before and after |
| `ChangelogArchive.FrozenPassesIff` | scripts/changelog_sections.py:174-188 | for every tree, the comparison after archiving has no problem to report if and only if nothing moves, or the sections stand and the links they need are held |
| `ChangelogArchive.ComparedAfter` | scripts/changelog_sections.py:163-172 | a changelog with a release is always compared with what archiving makes of it |
| `ChangelogArchive.VerdictIff` | scripts/changelog_sections.py:156-200 | the verdict on an archived changelog with a release is that nothing was modified, if and only if that condition holds |
| `ChangelogArchive.WellEndedLinks` | scripts/changelog_sections.py:69-83 | with well ended files the links are held if and only if every needed link that was overwritten, or was left to a changelog without sections, is among the kept, the moved or the other archived links |
| `ChangelogFailures.EndingLost` | scripts/changelog_sections.py:30-34 | a tree for which the comparison runs and reports a changed section, left last in the changelog with a link line at its end |
| `ChangelogFailures.ArchiveOverwritten` | scripts/changelog_sections.py:71-79 | a tree for which it runs and reports a removed section, of the overwritten archive file |
| `ChangelogFailures.EarlierOverridden` | scripts/changelog_sections.py:127-133 | a tree for which it runs and reports a changed section, which an earlier archive file holds with another text |
| `ChangelogFailures.LinkWithoutFile` | scripts/changelog_sections.py:81-83 | a tree for which it runs and reports a lost link, left to a changelog without sections |
| `ChangelogArchive.ArchiveStaysTidy` | scripts/changelog_sections.py:59-84 | a tidy tree stays tidy, so the next archiving is safe too |
| `ChangelogArchive.HistoryKeepsAll` | scripts/changelog_sections.py:59-84 | over any sequence of archivings of different new major lines no released text and no link changes |
| `ImportHash.FramedInjective` | companions/ai-memory-importer/src/main.rs:871-882 | framing by eight-byte little-endian lengths is uniquely decodable |
| `ImportHash.Hasher.HashParts` | companions/ai-memory-importer/src/main.rs:871-882 | the loop feeds the hasher the framed parts |
| `ImportHash.DigestDecidesParts` | companions/ai-memory-importer/src/main.rs:871-882 | without a collision two digests agree if and only if the lists of parts do |
| `ImportPlan.Truncate` | companions/ai-memory-importer/src/main.rs:900-915 | the backwards search for a character boundary computes the longest whole-character prefix within the cap, less a cut redaction marker |
| `ImportMeaning.TruncationMeaning` | companions/ai-memory-importer/src/main.rs:900-915 | a text that is too long is cut at the last character boundary that fits, or, if an unclosed redaction marker stands last before it, before that marker |
| `ImportPlan.CheckMessages` | companions/ai-memory-importer/src/main.rs:591-619 | the loop that sanitizes, cuts and counts messages computes the checked prefix or the first refusal |
| `ImportMeaning.CheckedMeaning` | companions/ai-memory-importer/src/main.rs:591-619 | messages pass if and only if their original texts are within a mebibyte and none is blank once sanitized and cut; each is then the beginning of its sanitized text, and the counts are those of user messages and of sanitized texts that do not fit |
| `ImportMeaning.RefusalMeaning` | companions/ai-memory-importer/src/main.rs:594-619 | a refusal is that of the first message that does not pass: too large if the texts up to it exceed the mebibyte, else empty, naming it |
| `ImportPlan.ConversationFingerprint` | companions/ai-memory-importer/src/main.rs:848-859 | feeding the hasher part by part hashes the framed list of header and messages |
| `ImportPlan.StableSessionId` | companions/ai-memory-importer/src/main.rs:832-846 | hashing the parts one after the other gives the session id |
| `ImportPlan.PlanConversation` | companions/ai-memory-importer/src/main.rs:545-727 | the planner returns the plan or the first refusal of its value-level definition |
| `ImportMeaning.ReadyIff` | companions/ai-memory-importer/src/main.rs:545-625 | a conversation passes if and only if its names do, it has 1 to 128 messages, one of them a user's, and the messages pass |
| `ImportMeaning.PlannedIff` | companions/ai-memory-importer/src/main.rs:627-727 | and is planned if and only if each of its events can be sent |
| `ImportMeaning.PlanTells` | companions/ai-memory-importer/src/main.rs:545-727 | the k-th message event carries the role of the k-th message and the whole-character beginning of its sanitized text, at most 16 KiB of a user and 2000 bytes of others, all of it if it fits; start and end carry the source, the external id and the fingerprint of exactly these messages; the truncated count is that of texts that did not fit |
| `ImportStable.KeysAgreeIff` | companions/ai-memory-importer/src/main.rs:861-869 | two ingest keys agree if and only if session, position, event name and body do |
| `ImportStable.SessionsAgreeIff` | companions/ai-memory-importer/src/main.rs:832-846 | two session ids agree if and only if workspace, project, source and external id do, unless the kept halves of the digests collide |
| `ImportStable.FingerprintDecides` | companions/ai-memory-importer/src/main.rs:848-859 | fingerprints agree if and only if the conversations are equal, every role and every byte |
| `ImportStable.PlanIs` | companions/ai-memory-importer/src/main.rs:632-712 | a plan is a start, one event a message named after its role, and an end, each at its own position under its own key |
| `ImportMeaning.MessagesAreSent` | companions/ai-memory-importer/src/main.rs:653-692 | the k-th message event is a prompt or a titled message with the content, role and session of the k-th message, cleaned, at a URL of its own name, key and source event |
| `ImportStable.KeysDistinct` | companions/ai-memory-importer/src/main.rs:861-869 | no key occurs twice in a plan |
| `ImportStable.ReplayStable` | companions/ai-memory-importer/src/main.rs:545-727 | when messages are added, all planned events before the old end stay identical |
| `ImportStable.OldEndIsNew` | companions/ai-memory-importer/src/main.rs:694-712 | the key of the old end is the key of no event of the longer plan |
| `ImportStable.GrownConversation` | companions/ai-memory-importer/src/main.rs:545-727 | of the longer plan exactly the start and the old messages carry keys of the shorter one |
| `XmlText.ExtractText` | companions/ai-memory-importer/src/document.rs:1208-1263 | the event loop with its two counters computes the fold of its arms, or the first failure |
| `XmlTree.NodeRun` | companions/ai-memory-importer/src/document.rs:1214-1262 | the events of a node push its text and leave both counters as they were |
| `XmlTree.StreamingIsRecursive` | companions/ai-memory-importer/src/document.rs:1208-1290 | on any document the loop ends with both counters at zero and the recursive text as output, or fails: exactly when a reference does not resolve or the text exceeds the limit |
| `XmlTree.SkipsExactlyWhenQuiet` | companions/ai-memory-importer/src/document.rs:1219-1243 | the output is the text with skipped elements left out if and only if no skipped element inside a `t` holds characters |
| `XmlTree.DeletionInsideText` | companions/ai-memory-importer/src/document.rs:1216-1240 | a deletion inside a `t` whose characters come out |
| `XmlMarks.LineEnds` | companions/ai-memory-importer/src/document.rs:1254-1255 | a paragraph and a table row show their text and one line feed, at any depth |
| `XmlMarks.CellEnds` | companions/ai-memory-importer/src/document.rs:1256 | a table cell shows its text and one tab |
| `XmlMarks.Breaks` | companions/ai-memory-importer/src/document.rs:1247-1251 | a break shows a line feed and a tab a tab, as an empty tag or before what the element holds |
| `XmlMarks.OthersAddNothing` | companions/ai-memory-importer/src/document.rs:1229-1258 | other elements show what they hold and nothing of their own |
| `XmlMarks.OnlyInsideText` | companions/ai-memory-importer/src/document.rs:1233-1238 | characters show only inside a `t` |
| `XmlMarks.Paragraphs` | companions/ai-memory-importer/src/document.rs:1208-1263 | the text of a document of paragraphs is theirs, each followed by a line feed |

## Left out

- SQLite, its journal, file locks, permissions and schema migration: a transaction is a method that commits or leaves the object as it was, and the flush lock is the single flush of `RelayWorld`.
- HTTP, URLs, tokens, TLS, and parsing of acknowledgements: a reply is any status, size verdict and parsed or unparsable body.
- Binding a queue to a server (`bind`), queue statistics other than the comparison with expiry, and the text of reports and errors: they would only add easy members.
- Concurrent flushes and clocks that run backwards, which the code excludes or disclaims.
- RelayFlushLoop.FlushLocked: does not interleave enqueues of other processes; `RelayWorld` does, for every step. Its report has the counters but not the count per outcome.
- The patterns, what they match, `replacement`, and the plain replacement pass after each rule: matches are any ascending list of spans with replacements; whether a pattern catches a credential is not a theorem.
- JsonScan.ExtractFirstBalancedObject: texts with 2^31 opening braces and more, on which the depth could overflow, are not described.
- PipeDrain.ReadOutput: stderr that is not UTF-8, which the code reads to its end and then discards, and reads of stdout that fail for another reason than decoding.
- Git, file listing order beyond name order, version names with line breaks, and newline translation: texts are those Python has already read.
- Archive file names whose major has digits other than 0 to 9.
- File reading, label and source-name checks, credential checks, sanitizing, titles, JSON and URL building of the importer: parameters of `ImportPlan.Env`, any functions at all.
- SHA-256: any function; the statements assume no collision among the inputs they name.
- XmlText.ExtractText: stops before `normalize_text`; the XML parser and entity resolution supply the events.
- PDF, ZIP, spreadsheets, YAML, the claude-mem reader, the TypeScript SDK, the frontend, the desktop shell, build scripts and eval reporting.
