# Verified model of review-agent

review-agent takes a requester's draft through a review: it scans the material, asks the requester
about one finding after the other, merges the answers into a revised draft, puts that draft before a
final gate and delivers a summary. This project models the parts of it that keep state over time and
proves, in Dafny, what those parts promise and where a promise does not hold.

Verify everything with `dafny verify dfyconfig.toml`.

## What is modelled

**The review session.** `Models.dfy` and `Scan.dfy` hold the value types, the `Cursor` object and the
ranking of findings. `Protocol.dfy` gives every handler of the dispatcher as a *trace*: the list of
session values it persists, one per write to the session row, cursor.json, annotations.jsonl,
normalized.md or the llm_calls table. `Dispatcher.dfy` is the dispatcher itself, an object whose methods
update those stores; each method is proved to write exactly its trace. A run (`Protocol.Exec`) is a
sequence of messages, each with the answers of the language model. Such an answer may be usable, be a
terminal failure, which the dispatcher records, or make the handler raise, before or after its call is
logged. A handler may also be *cut* after any number of writes, because the process dies or a storage
operation raises. Unless a lemma says otherwise its claims hold over all such runs.

- `GateSafety.dfy`, `Verdicts.dfy`, `Partials.dfy`: gate, verdict and summary, and where FORCED_PARTIAL
  comes from.
- `Coverage.dfy`, `Losses.dfy`, `RescanCuts.dfy`: cursor and budget, when a finding is lost, and what
  becomes of new material whose handler is cut.
- `Answers.dfy`, `Unanswered.dfy`: what replies do to findings, and when a question counts as done.
- `Wedges.dfy`, `WedgeWrites.dfy`, `Progress.dfy`: which sessions are out of reach, how they get there,
  and that replies make progress.
- `Gaps.dfy`, `Redriven.dfy`: when questions are in line and none is on screen, and what it helps that
  a message is delivered again after a crash.
- `Outcomes.dfy`: which model calls each reply logs, what may fail a session, and that each write changes
  one store only.
- `Unreadable.dfy`: a session whose findings file can no longer be read.
- `Walkthrough.dfy` follows a whole review to its end, `Sessions.dfy` is about all requesters' sessions,
  and `Annotations.dfy` about the findings file.

**The task queue.** `TaskQueue.dfy` is the queue object with its tasks table, and the steps of enqueuer,
consumer, crash and restart; `TaskQueueRuns.dfy` proves what holds after any sequence of steps and
`TaskQueueOrder.dfy` when a waiting task is served. `QueueDeliveries.dfy` puts queue and session together.

**Delivery.** `Deliver.dfy` is the fan-out with the outbound log, `DeliverRows.dfy` what one target adds to
it, `DeliverClosing.dfy` when a run closes the session, and `DeliverRetries.dfy` and `DeliverBounds.dfy` are
about retried runs, each of which may be cut between two targets.

**Small cores.** `Dedup.dfy` (the Slack message cache), `Mrkdwn*.dfy` (placeholders of the Markdown
converter), `EnvFile.dfy` over `PyStrings.dfy` (the env-file editor and its reader) and `Ulid.dfy`.

## Where the code and its promises differ

Each of these is a lemma; the exact condition under which the promise holds is proved with it.

- A session in SCANNING, MERGING, FINAL_GATING or CLOSING whose model call was logged before answers
  "still busy" for ever, a session whose process died during ingest can never be merged, and the requester
  of either can never open another session (`Wedges.StuckIffWedged`, `Sessions.WedgedRequesterBlocked`).
  `Wedges.WedgeIff` says which messages lead there without a cut: one whose scan, merge, gate or summary
  raises after its call is logged (such as a gate answer that is a list), a restarted gate that answers
  FAIL, and an incomplete delivery, so that the "retry" of the delivery docstring has no caller in the
  dispatcher. `WedgeWrites.WriteWedgesIff` says after which write of which reply a cut leads there,
  `WedgeWrites.WedgedExecIff` lifts both to all runs, and `Sessions.IngestDeathIff` says which deaths during
  ingest lead there.
- New material during Q&A empties the cursor before it is scanned. If the handler is cut, or the scan
  fails or raises, before there is a new cursor, the findings of the last scan are no longer asked about
  (`Losses.LossIff`, `Losses.StepLossIff`). In all other runs, and only in those, no finding is lost
  (`Losses.NoFindingLostIff`). The same text, sent again, is no longer new and is read as a reply: after a
  cut before the cursor was emptied it answers the question on screen, and the material is never scanned;
  after a cut right then it proposes to close; during the scan it finds the session out of reach
  (`RescanCuts.SentAgain`, `RescanCuts.UnscannedAccepts`, `RescanCuts.WipedProposesClose`).
- A forced close that is cut after the merge and before the verdict, and sent again, is resumed as an
  unforced one. These are exactly two of its writes (`Partials.ForcedInQaIff`,
  `Partials.ForcedAtPromptIff`). It may then get FAIL and be stuck (`Partials.ForcedCloseForgotten`), and
  it never gets FORCED_PARTIAL (`Partials.NeverForced`).
- If the gate call fails terminally the session is marked FAILED and then delivered all the same,
  without a verdict (`Verdicts.UnjudgedDeliveryIff`), and ends CLOSED (`Verdicts.ChainOutcome`).
- `more` at the close prompt advances past the question on screen, which `done` leaves there. So `done` and
  then `more` record that question as done without an answer, even an open BLOCKER, whenever there is
  something to pull, without any cut (`Unanswered.DoneThenMore`). No other reply does that
  (`Unanswered.UnansweredIff`, and over runs `Unanswered.DoneRuns`).
- `more` at the close prompt stores the cursor before it leaves that stage. If it is cut and delivered
  again it may leave the questions it pulled at the close prompt (`Redriven.StrandedIff`) or pass over one
  question more (`Redriven.DoneAfterMore`, `Redriven.SkippedIff`).
- A `more` in Q&A that finds nothing on screen stores a cursor with questions in line and none on screen
  before it stores the next one (`Gaps.GapIff`). A process that dies there does no harm, since the message
  is delivered again (`Redriven.RedrivingHidesNothing`, and for every run of the queue
  `QueueDeliveries.QueueHidesNothing`); a storage operation that raises there does, if
  another one did so in the answer before (`Redriven.RaisingHidesQuestions`).
- A finding whose text, or the reply stored with it, holds U+0085, U+2028 or U+2029, which JSON does not
  escape, is written to one line but read back as several (`Annotations.EditsReadIff`). From then on every
  handler raises where it reads the findings: no answer is stored any more, the session is never CLOSED
  (`Unreadable.NeverClosed`), and it is out of reach as soon as it is in MERGING (`Unreadable.SightlessIff`).
- An answered list is complete only if the scan gave distinct ids (`Scan.AllAnsweredIff`).
- tasks/queue.py says that one user's backlog never starves another and calls the consumer round-robin;
  `next` always starts at the first queue, so a task is taken exactly when all earlier queues are empty
  (`TaskQueueOrder.LookIff`), after everything that is queued ahead of it
  (`TaskQueueOrder.ServedAfterExactly`), and never while a backlog there does not run dry
  (`TaskQueueRuns.BacklogStarves`).
- pipeline/deliver.py says that targets already sent are skipped on retry. A retry gets no URL from a
  doc that it skips, so the DM's text, and hence its hash, changes, and the DM is sent again exactly if no
  ok row has the text without URL (`DeliverRetries.RetriedDmIff`). At most one ok row of it more than there
  are docs is logged (`DeliverBounds.DmsPerDocs`), and this bound is reached (`DeliverBounds.BoundReached`).
- The dedup cache keeps its size bound only from 10 keys on (`Dedup.SmallCacheGrows`).
- The Markdown converter garbles a message that spells out a key between two protected spans
  (`MrkdwnExpand.GarbledExample`). It restores everything exactly when no turn of its loop meets such a
  text, and otherwise leaves a NUL in the result (`MrkdwnExpand.PlaceholderRestore`).
- An edit of the env file is lost when a later line sets the same key, even when the first line is the
  bare key and only one line sets it (`EnvFile.UpsertTakesEffectIff`, `EnvFile.BareNameExample`).
- ULIDs sort by time modulo 2^50 milliseconds (`Ulid.UlidOrderExact`, `Ulid.OrderBreaksAtWrap`).

## Model

| member | source | states |
|---|---|---|
| Models.Cursor.Advance | review_agent/core/models.py:125-130 | moves the current id to done once, takes the next pending one, and leaves the presentation order done, current, pending, deferred as it was when all ids are distinct |
| Models.Cursor.PullDeferred | review_agent/core/models.py:132-136 | moves the first n deferred ids behind the pending ones, or all if there are fewer, or for a negative n all but the last -n; reports how many, and never changes the presentation order |
| Models.Cursor.IsEmpty | review_agent/core/models.py:138-139 | true exactly when nothing but deferred ids remains to be asked |
| Models.Cursor.FromDict | review_agent/core/models.py:112-123 | loading what was saved gives the same cursor back |
| Models.AdvancedKeepsOrder | review_agent/core/models.py:125-130 | advancing keeps a presentation of distinct ids exactly |
| Models.AdvancedKeepsIds | review_agent/core/models.py:125-130 | advancing neither loses nor invents an id, repeated ids included |
| Models.PulledKeepsOrder | review_agent/core/models.py:132-136 | pulling deferred ids keeps the presentation exactly |
| Models.PulledExactly | review_agent/core/models.py:132-136 | the same in numbers: min(n, deferred) ids for n >= 0, max(0, deferred + n) for n < 0, and which |
| Scan.SortByRankSorts | review_agent/pipeline/scan.py:118-125 | the ranking is a sorted permutation of the findings |
| Scan.RankedMeans | review_agent/pipeline/scan.py:118-125 | for an earlier and a later finding: BLOCKER before all others and NICE-TO-HAVE last, within a severity Intent first, then priorities that do not fall, none or 0 counting as 99, then ids that do not fall |
| Scan.StringLeMeans | review_agent/pipeline/scan.py:118-125 | ids are compared as Python compares strings: a prefix, or the smaller character where they first differ |
| Scan.PrioritizeIsPermutation | review_agent/pipeline/scan.py:121-125 | the ids offered are those of the findings, each as often as it was found |
| Scan.FirstCursorPresentsAll | review_agent/pipeline/scan.py:71-79 | the cursor after a scan presents the whole prioritised list in order, for every top_n, and shows a question unless nothing is to be shown |
| Scan.DeferredNeverOutranksShown | review_agent/pipeline/scan.py:71-77 | no deferred finding ranks before a shown one, and a BLOCKER is deferred only if every shown finding is a BLOCKER |
| Scan.FirstCursorSplitsRanked | review_agent/pipeline/scan.py:71-79 | the shown and the deferred ids are those of the two parts of the ranked list |
| Scan.ShownExactly | review_agent/pipeline/scan.py:71-79 | in numbers: min(top_n, found) findings are on screen or in line and the rest deferred |
| Scan.AllAnsweredIff | review_agent/core/models.py:125-130 | answering everything records the whole list exactly when its ids are distinct |
| Dispatching.Dispatcher.constructor | review_agent/core/storage.py:100-140 | a new session starts ACTIVE at intake with round 1, no failures, no verdict, no material and an empty cursor |
| Dispatching.Dispatcher.UpdateFindingStatus | review_agent/core/storage.py:244-256 | one write, in which every row with the id, and no other, gets the status |
| Dispatching.Dispatcher.StoreFindings | review_agent/pipeline/scan.py:66-79 | findings are appended one by one, then the split cursor is saved, then Q&A opens |
| Dispatching.Dispatcher.ScanRun | review_agent/pipeline/scan.py:27-79 | the writes of a scan for each way it can end: a terminal failure before, between or after its two calls, another exception there or once the findings are stored, or success |
| Dispatching.Dispatcher.HandleReply | review_agent/pipeline/qa_loop.py:65-137 | for every intent the writes to findings and cursor, and the action returned |
| Dispatching.Dispatcher.DoMerge | review_agent/core/dispatcher.py:881-894 | a merge leads to FINAL_GATING; a terminal failure is recorded and swallowed; without material, and on any other exception, the method raises, with the call logged or not |
| Dispatching.Dispatcher.DoFinalGate | review_agent/pipeline/final_gate.py:43-87 | the gate call is logged before its answer is read; FAIL counts a failure and keeps the stage, any other verdict moves to CLOSING; an answer of the wrong shape raises and leaves the call logged |
| Dispatching.Dispatcher.EnqueueCloseChain | review_agent/core/dispatcher.py:938-988 | the writes of merge, gate and what follows are made in this order; a terminal failure does not stop them, any other exception of merge or gate does |
| Dispatching.Dispatcher.HandleBusy | review_agent/core/dispatcher.py:656-677 | a busy stage is run again exactly when its call was never logged, and the gate then unforced |
| Dispatching.Dispatcher.HandleRequesterInSession | review_agent/core/dispatcher.py:599-683 | one message in any stage writes exactly the trace on which all session claims are proved, also when it raises |
| GateSafety.ExecGate | review_agent/core/dispatcher.py:938-988 | the gate invariant holds after any run that starts in it |
| GateSafety.GateFailureCap | review_agent/core/dispatcher.py:656-677 | over all runs: at most max(1, M) gate failures, fewer before a gate, a failure implies a logged gate call, so a restarted gate never exceeds the cap |
| GateSafety.SummaryBuiltOnce | review_agent/core/dispatcher.py:912-935 | over all runs the summary is built, and delivery attempted, at most once |
| GateSafety.ActiveClosingHasVerdict | review_agent/core/dispatcher.py:986-988 | an ACTIVE session in CLOSING always has a verdict other than FAIL |
| Verdicts.ChainUnjudged | review_agent/core/dispatcher.py:945-988 | the close chain puts up an unjudged session for delivery exactly when merge gets through, the gate fails terminally, and the close is forced or no gate failed before |
| Verdicts.UnjudgedDeliveryIff | review_agent/core/dispatcher.py:909-910 | exactly which replies can put a session without a proper verdict up for delivery |
| Verdicts.VerdictSafety | review_agent/core/dispatcher.py:949-988 | in runs in which no gate fails terminally, whatever else fails, raises or is cut short, CLOSING or CLOSED implies READY, READY_WITH_OPEN_ITEMS or FORCED_PARTIAL |
| Verdicts.ForcedPartialOrigin | review_agent/pipeline/final_gate.py:59-86 | at the end of a close FORCED_PARTIAL stands exactly after a forced close, a FAIL without open BLOCKER, or the last failure allowed |
| Verdicts.OtherOrigins | review_agent/pipeline/final_gate.py:55-86 | exactly when a close ends with READY, READY_WITH_OPEN_ITEMS or FAIL, and how the failure count changes |
| Verdicts.ChainOutcome | review_agent/core/dispatcher.py:938-988 | where a close ends, for every way each of its calls can end: where merge or gate raised, reopened, delivered and CLOSED, stuck in CLOSING, or FAILED |
| Outcomes.LedgerExact | review_agent/core/dispatcher.py:599-683 | for every reply that is not cut, exactly which model calls it logs, in which order, for each way the calls can end |
| Outcomes.FailuresNamed | review_agent/core/dispatcher.py:1022-1031 | every write that fails a session does so for a call that failed terminally and records the stage of that call |
| Outcomes.WritesAreStepwise | review_agent/core/dispatcher.py:599-683 | every write of every reply changes one store only: the row, the cursor, the findings, or the log by one call |
| Outcomes.MaterialOutcome | review_agent/core/dispatcher.py:263-301 | the material gate: cancelled, started or left waiting, and nothing else changed |
| Outcomes.SubjectOutcome | review_agent/core/dispatcher.py:607-626 | the choice of the subject: asked again, scanned or left waiting, and when the session fails there |
| Outcomes.ScanStoresFound | review_agent/pipeline/scan.py:66-69 | a scan adds its findings in order, as it found them but open, also if it raises after that |
| Outcomes.RescanOutcome | review_agent/core/dispatcher.py:734-749 | new material in Q&A starts a new round with nothing answered, keeping verdict, failures and findings |
| Partials.PartialIff | review_agent/core/dispatcher.py:938-988 | per reply and write: some write gives FORCED_PARTIAL to a session without it exactly when the reply starts a close that gets through merge and gate and was forced, or failed with no open BLOCKER or for the last time |
| Partials.PartialRuns | review_agent/pipeline/final_gate.py:59-86 | over all runs, cuts included: FORCED_PARTIAL only after a message that was such a cause |
| Partials.PartialRunIff | review_agent/pipeline/final_gate.py:59-86 | over runs in which no handler is cut short: exactly after such a message, at whatever point of the run |
| Partials.ForcedInQaIff | review_agent/core/dispatcher.py:685-687 | a forced close in Q&A that is cut after k writes and sent again ends FORCED_PARTIAL exactly when k is neither 3 nor 4 |
| Partials.ForcedAtPromptIff | review_agent/core/dispatcher.py:776-778 | the same at the close prompt: exactly when k is neither 2 nor 3 |
| Partials.ForcedCloseForgotten | review_agent/core/dispatcher.py:656-687 | cut right after the merge, it is resumed unforced and may get FAIL, after which the session is out of reach |
| Partials.NeverForced | review_agent/core/dispatcher.py:656-687 | a session that rests in FINAL_GATING or later without FORCED_PARTIAL gets it in no run |
| Coverage.ExecInv | review_agent/core/dispatcher.py:599-683 | the invariant of cursor, findings and budget holds after any run that starts in it |
| Coverage.OpenBlockersExact | review_agent/core/dispatcher.py:990-994 | an id is a regression exactly when a stored open BLOCKER has it |
| Coverage.OpenBlockersInOrder | review_agent/core/dispatcher.py:990-994 | the regressions are the ids of the stored open BLOCKERs, each as often as it has rows, in stored order |
| Coverage.OpenBlockersSnoc | review_agent/core/dispatcher.py:990-994 | a new open BLOCKER is the last regression, and any other finding is none |
| Coverage.ReopenShowsFirst | review_agent/pipeline/qa_loop.py:140-152 | reopening with an empty line shows the first stored open BLOCKER and has the others next, in stored order |
| Coverage.ReopenedCursor | review_agent/pipeline/qa_loop.py:140-152 | reopening loses no id, adds as many questions as there are regressions, and has one on screen |
| Coverage.BoundedWork | review_agent/core/dispatcher.py:945-988 | over all runs, rescans and crashes included, at most max(1, M) questions per finding are advanced past |
| Coverage.OnlyStoredFindings | review_agent/pipeline/qa_loop.py:72-152 | over all runs the cursor names stored findings only |
| Coverage.ReopenCompleteness | review_agent/core/dispatcher.py:950-978 | a reopened session has a question on screen, which is emitted unless that call raises, and every open BLOCKER is on screen or next |
| Losses.LossIff | review_agent/core/dispatcher.py:734-749 | per reply and write: a finding of the latest scan is missing from the cursor exactly at the writes of a rescan between the emptying of the cursor and the new one, if that scan had found any |
| Losses.StepLossIff | review_agent/core/dispatcher.py:734-749 | a message leaves findings lost exactly when it is new material whose handler ends there, because it is cut short or its scan fails or raises |
| Losses.NoFindingLostIff | review_agent/pipeline/qa_loop.py:72-137 | over any run every finding of the latest scan is after each message done, on screen, next or deferred exactly when the run has no such message |
| Losses.ExactPresentationOrder | review_agent/pipeline/scan.py:71-79 | in those runs, until the first reopening after a scan with distinct ids, done, current, pending and deferred are together the prioritised list |
| RescanCuts.CutRescan | review_agent/core/dispatcher.py:734-749 | for every k, the session that new material leaves behind if its handler is cut after k writes |
| RescanCuts.SentAgain | review_agent/core/dispatcher.py:688-749 | and what the same text does when it is sent again: for k up to 1 it answers the question on screen, for 2 it proposes to close, during the scan it changes nothing, and after it the first new question is on screen |
| RescanCuts.UnscannedAccepts | review_agent/core/dispatcher.py:688-732 | so for k up to 1 new material that reads as accept accepts the findings with the id on screen, unscanned |
| RescanCuts.WipedProposesClose | review_agent/core/dispatcher.py:734-749 | cut right after the cursor was emptied, Q&A stays open with nothing to ask, and every reply but a forced close proposes to close |
| Answers.RepliesOnlyAnswer | review_agent/pipeline/qa_loop.py:103-137 | every single write of every reply keeps all findings, except that the one on screen may get the status answered; new ones are open |
| Answers.AnswerStored | review_agent/pipeline/qa_loop.py:108-127 | accept, reject and modify reach exactly the findings with the id on screen; no other reply to a question changes a finding |
| Answers.FindingsEndure | review_agent/core/storage.py:227-256 | over all runs findings are only appended, keep id, pillar, severity and priority, and are never open again once decided |
| Unanswered.DoneIff | review_agent/core/models.py:125-130 | per reply and write: a question becomes done exactly when it is on screen and the reply answers it, from the cursor write on, or is a `more` at the close prompt with something to pull |
| Unanswered.UnansweredIff | review_agent/core/dispatcher.py:764-774 | a reply that is no answer makes a question done exactly when it is such a `more` |
| Unanswered.DoneThenMore | review_agent/pipeline/qa_loop.py:82-83 | `done` and then `more`, neither of them cut, make the question on screen done, with no finding changed, exactly when there is something to pull |
| Unanswered.DoneRuns | review_agent/core/dispatcher.py:751-787 | over all runs, cuts included, no question is done that was not on screen when a message answered it or passed it over |
| Annotations.AnnotationsFile.Load | review_agent/core/storage.py:233-242 | the stripped lines that are not blank, in order |
| Annotations.AnnotationsFile.UpdateStatus | review_agent/core/storage.py:244-256 | the file is written back with every row of the id patched |
| Annotations.AppendRoundTripIff | review_agent/core/storage.py:227-242 | findings appended one by one are read back exactly when none holds a character at which splitlines cuts |
| Annotations.RewriteRoundTripIff | review_agent/core/storage.py:244-255 | the same for findings written back in one go, the empty list included |
| Annotations.EditsReadIff | review_agent/core/storage.py:227-256 | over any sequence of appends and status updates the file reads as the list of findings after every edit exactly when no row ever holds such a character |
| Annotations.UpdateRoundTrip | review_agent/core/storage.py:244-255 | after a status update the file reads as before with every row of the id replaced |
| Unreadable.SightlessIff | review_agent/core/storage.py:233-242 | an ACTIVE session whose findings cannot be read is out of reach of every message exactly when it is wedged, or in MERGING or CLOSING, or still at intake |
| Unreadable.NeverClosed | review_agent/core/storage.py:233-256 | over all runs, cuts included, such a session is never CLOSED and no answer is ever stored |
| Wedges.WedgedForever | review_agent/core/dispatcher.py:656-677 | a session in a busy stage with its call logged, or at intake without material, never changes again |
| Wedges.StuckIffWedged | review_agent/core/dispatcher.py:599-683 | an ACTIVE session is out of reach of every message exactly when it is in that state |
| Wedges.WedgeIff | review_agent/core/dispatcher.py:599-683 | exactly which messages, handled to their end or to where they raise, put a session out of reach |
| Wedges.WedgedRunIff | review_agent/core/dispatcher.py:656-677 | over runs in which no handler is cut short a session ends out of reach exactly when one of the messages was such |
| WedgeWrites.WriteWedgesIff | review_agent/core/dispatcher.py:599-683 | exactly which writes of which reply leave a session out of reach that was not |
| WedgeWrites.WedgedExecIff | review_agent/core/dispatcher.py:656-677 | over all runs, cuts included, a session ends out of reach exactly when the last write of one of the messages was such |
| Wedges.RestsIff | review_agent/core/dispatcher.py:599-683 | exactly in which of the stages SCANNING, MERGING, FINAL_GATING and CLOSING a message leaves a session that was in none |
| Progress.ReplyProgress | review_agent/core/dispatcher.py:625-654 | every reply in Q&A or at the close prompt, after any cuts before it, is a named stutter that changes at most the reopened stage and the log, or lowers the lexicographic measure, or ends the dialogue; and it makes no gap |
| Progress.WritesNotMore | review_agent/core/dispatcher.py:625-654 | and no write of it, wherever it is cut short, exceeds the measure |
| Progress.DialogueEnds | review_agent/pipeline/qa_loop.py:65-152 | over any run without new material, cuts included, the replies that are not stutters and not cut short number at most the initial effort, and one more |
| Progress.EffectiveRepliesBounded | review_agent/pipeline/qa_loop.py:65-152 | in numbers: 3 * Cap for each finding and 2 * Cap + 2 more |
| Gaps.GapIff | review_agent/pipeline/qa_loop.py:72-80 | exactly which write of which reply leaves questions in line and none on screen: the first cursor write of a `more` that finds nothing on screen and something deferred |
| Gaps.NoGapWithoutThatCrash | review_agent/pipeline/qa_loop.py:65-152 | no run ends with such a gap unless some message is cut short after exactly two writes |
| Redriven.RedrivingHidesNothing | review_agent/core/storage.py:366-372 | wherever the process dies, if the message is delivered again before the next one, questions are never in line with none on screen, and between messages Q&A has a question on screen unless none can be pulled |
| Redriven.StrandedIff | review_agent/core/dispatcher.py:764-774 | exactly when a `more` at the close prompt that is cut and delivered again leaves questions behind at that prompt |
| Redriven.DoneAfterMore | review_agent/core/dispatcher.py:764-774 | for every cursor with something to pull: which questions are done after a `more` at the close prompt that is cut after k writes and delivered again |
| Redriven.SkippedIff | review_agent/core/dispatcher.py:764-774 | so with nothing on screen it passes over the first question in line exactly when it was cut right after it had stored the cursor and there is more to pull |
| Redriven.RaisingHidesQuestions | review_agent/pipeline/qa_loop.py:72-80 | a handler that raises is not delivered again: two of them can leave questions in line with none on screen, and the next answer proposes to close |
| Walkthrough.AcceptedAll | review_agent/pipeline/qa_loop.py:103-137 | accepting one question after the other finishes exactly those on screen and in line, in order, accepts their findings and no other, and then proposes to close |
| Walkthrough.AcceptingClosesSession | review_agent/core/dispatcher.py:599-683 | from the material gate to delivery, for every list of findings with distinct ids: accepting all that is shown closes the session READY in one round, with exactly those findings accepted and the rest deferred |
| Sessions.HandleKeepsRows | review_agent/core/dispatcher.py:99-117 | a message touches at most the ACTIVE session of its sender, or adds one row |
| Sessions.SingleActiveSession | review_agent/core/storage.py:150-156 | no requester ever has two ACTIVE sessions, and a session that left ACTIVE keeps its row for good |
| Sessions.WedgedRequesterBlocked | review_agent/core/dispatcher.py:110-117 | the requester of a stuck session can neither move it nor open another one |
| Sessions.IngestDeathIff | review_agent/core/storage.py:100-140 | a new session is out of reach from the start exactly when the process dies after its row was inserted and before its material was stored |
| Sessions.IngestOutcome | review_agent/core/dispatcher.py:190-236 | material taken in waits to be confirmed, a refusal cancels the session and an error fails it; without responder there is none |
| Sessions.EveryRowSafe | review_agent/core/dispatcher.py:190-236 | from an empty table every row of every requester meets all invariants of its session |
| TaskQueues.TaskQueue.Enqueue | review_agent/tasks/queue.py:29-33 | the row is inserted with the requester, or _global for none, its id put at the end of that queue and the flag set |
| TaskQueues.TaskQueue.ReplayPending | review_agent/tasks/queue.py:35-44 | running rows become pending and every pending row is queued, oldest first |
| TaskQueues.TaskQueue.TryNext | review_agent/tasks/queue.py:46-55 | takes the head of the first queue that has one and marks it running, or clears the flag and takes nothing |
| TaskQueues.TaskQueue.MarkDone | review_agent/tasks/queue.py:57-58 | ends the task and touches no other row |
| TaskQueues.TaskQueue.MarkFailed | review_agent/tasks/queue.py:60-61 | ends the task for good, as the worker asks, and touches no other row |
| TaskQueues.OwnQueue | review_agent/tasks/queue.py:26-33 | a task of a requester carries the requester and goes to the end of that requester's queue and no other |
| TaskQueues.QueuesApart | review_agent/tasks/queue.py:26-27 | two requesters never share a queue; None and the empty string share _global |
| TaskQueues.LookParks | review_agent/tasks/queue.py:46-55 | a consumer that finds nothing waits, and only a set after its look wakes it |
| TaskQueues.EndRecorded | review_agent/tasks/queue.py:57-61 | the end of a task is recorded as what it was, in its row alone |
| TaskQueues.CrashAndRestart | review_agent/tasks/queue.py:35-44 | a crash keeps the table and loses the rest; a restart makes running rows pending and sets the flag exactly if some row is pending |
| TaskQueueRuns.NextKeeps | review_agent/tasks/queue.py:29-55 | every step of enqueuer, consumer, crash and restart keeps the queue invariant |
| TaskQueueRuns.QueueRefinement | review_agent/core/storage.py:318-372 | while the process is up each queue is that requester's pending rows in id order, and at most one row runs: the one the consumer holds |
| TaskQueueRuns.CrashTolerantFifo | review_agent/tasks/worker.py:17-35 | over all runs each requester's dispatched ids never go down, and each is dispatched once plus once for every crash it was running at |
| TaskQueueRuns.OnlyCrashesRepeat | review_agent/core/storage.py:366-372 | a task dispatched twice was running at a crash |
| TaskQueueRuns.WakeupNeverLost | review_agent/tasks/queue.py:46-55 | a parked consumer with the flag clear means empty queues or an enqueuer about to set it |
| TaskQueueRuns.PendingGetsDispatched | review_agent/tasks/queue.py:46-55 | once the sets are done, a waiting task makes the consumer dispatch one after one wake-up and one look |
| TaskQueueRuns.RowsEndure | review_agent/core/storage.py:318-372 | no row disappears or changes hands, and a finished or failed task stays as it is |
| TaskQueueRuns.BacklogStarves | review_agent/tasks/queue.py:46-55 | while the first queue never runs dry a task in another queue is not reached, however many tasks run |
| TaskQueueOrder.LookIff | review_agent/tasks/queue.py:46-55 | a look dispatches a task exactly when it heads its queue and all queues earlier in the order are empty |
| TaskQueueOrder.ServedAfterExactly | review_agent/tasks/queue.py:46-55 | while nobody enqueues ahead, a waiting task is dispatched after exactly as many others as there are in the queues before its own and before it in its own |
| QueueDeliveries.HandlingsAreLog | review_agent/tasks/worker.py:17-35 | the dispatches of a requester that have ended, and the one that is running, are what was dispatched for that requester, in order |
| QueueDeliveries.AgainBeforeNext | review_agent/core/storage.py:366-372 | over all runs of the queue a message whose handling a crash ended is the next one of its requester to be handled, and one that was handled to the end is never handled again |
| QueueDeliveries.QueueHidesNothing | review_agent/tasks/worker.py:17-35 | for every run of the queue, the session it feeds never has questions in line with none on screen, whenever the process dies |
| Delivering.Delivery.DeliverOne | review_agent/pipeline/deliver.py:90-128 | a missing backend fails, a dedup hit counts as ok and adds no row or URL, any other attempt adds one row |
| Delivering.Delivery.Run | review_agent/pipeline/deliver.py:59-87 | docs first, each able to set the URL of the rest, and CLOSED exactly when every result is ok |
| Delivering.DeliveredAtMostOnce | review_agent/pipeline/deliver.py:102-113 | over any sequence of runs, whole or cut between two targets, the log has at most one ok row for each recipient and content of a Lark target |
| Delivering.ResentIffUnprotected | review_agent/pipeline/deliver.py:102-111 | a target delivered once is sent again exactly when it has no hash or no open id |
| DeliverRows.SkippedIff | review_agent/pipeline/deliver.py:102-111 | for each kind of target, by which row it is recognised and skipped |
| DeliverRows.RowAdded | review_agent/pipeline/deliver.py:90-128 | otherwise it adds one row: recipient, kind, hash or dash, and ok exactly if it was delivered; without backend a row that is not ok |
| DeliverRows.JoinMeans | review_agent/pipeline/deliver.py:102-109 | the parts of a payload are joined by commas |
| DeliverClosing.ClosesIff | review_agent/pipeline/deliver.py:76-87 | a whole run closes the session exactly when every target has a backend and at its turn is recorded already or is delivered |
| DeliverClosing.RetryCloses | review_agent/pipeline/deliver.py:84-111 | so a retry whose docs are recorded and whose other targets are recorded or delivered closes it |
| DeliverClosing.CutGrows | review_agent/pipeline/deliver.py:76-84 | a run cut after n targets has dealt with the first n of them, docs first |
| DeliverRetries.ClosedMeansDelivered | review_agent/pipeline/deliver.py:84-87 | a run that closes the session leaves an ok row for every one of its targets |
| DeliverRetries.DmSentIff | review_agent/pipeline/deliver.py:76-113 | for any log and targets, other backends with the same recipient included: after the docs a DM gets a new row exactly when there is no ok row with its recipient and the hash of its text, with the URL that the docs left |
| DeliverRetries.RetriedDmIff | review_agent/pipeline/deliver.py:76-113 | a retry whose docs are all in the log sends a DM again, without URL, exactly when no ok row has that plain text |
| DeliverRetries.RetryResendsIff | review_agent/pipeline/deliver.py:76-111 | from this, after doc and DM arrived and another DM failed, the retry sends the DM again exactly when the doc has a URL |
| DeliverBounds.DmsPerDocs | review_agent/pipeline/deliver.py:59-128 | however often delivery is retried, and cut between two targets, the log has at most one more ok row of the DM for a recipient than there are docs |
| DeliverBounds.BoundReached | review_agent/pipeline/deliver.py:76-113 | for every number of docs there are runs with that many rows |
| DeliverBounds.AtMostTwoDms | review_agent/pipeline/deliver.py:59-128 | with one doc at most two |
| Dedup.MessageDedup.SeenBefore | review_agent/slack/adapter.py:65-75 | the answer and the cache after a call, with the eviction of the oldest tenth, in place |
| Dedup.SeenConsistent | review_agent/slack/adapter.py:65-75 | with max at least 10 a call keeps the size bound, never evicts the key it records, and forgets a record only when enough other keys were recorded no earlier |
| Dedup.SeenMeans | review_agent/slack/adapter.py:65-75 | seen exactly if the record of the key has not expired, and then nothing changes; otherwise recorded with its new expiry, in its place or as the newest |
| Dedup.FullCacheEvicts | review_agent/slack/adapter.py:70-74 | a new key in a full cache evicts a tenth of the bound, none of which expires after any that stays |
| Dedup.AgainstPerfectLog | review_agent/slack/adapter.py:59-75 | against a log that forgets nothing: "seen" only for a key recorded less than ttl ago, and a live key missed only after max + 1 - max/10 others |
| Dedup.JustRecordedStays | review_agent/slack/adapter.py:70-74 | the key just recorded is never among those evicted, ties in expiry included |
| Dedup.SmallCacheGrows | review_agent/slack/adapter.py:70-74 | below ten nothing is evicted and every new key makes the cache grow |
| Mrkdwn.Converter.Protect | review_agent/slack/mrkdwn.py:30-35 | a fresh key for every fragment, numbered upwards |
| Mrkdwn.Converter.Pass | review_agent/slack/mrkdwn.py:37-122 | every match becomes one placeholder, numbered left to right, and its fragment is stored |
| Mrkdwn.Converter.Restore | review_agent/slack/mrkdwn.py:124-127 | keys are replaced from the latest to the first, on strings |
| MrkdwnKeys.FragmentKeepsKeys | review_agent/slack/mrkdwn.py:37-122 | a fragment holds exactly the keys of the span it stands for |
| MrkdwnKeys.PassKeepsEachOnce | review_agent/slack/mrkdwn.py:37-122 | after every pass each key occurs once in text and fragments together, and fragments refer to earlier keys only |
| MrkdwnRestore.ReplaceIff | review_agent/slack/mrkdwn.py:124-127 | replacing a key in the string is replacing its placeholder exactly when the text does not spell out that key between two placeholders |
| MrkdwnCuts.FragmentSealed | review_agent/slack/mrkdwn.py:37-122 | every fragment starts with digits at most and then a character that is neither a digit nor NUL |
| MrkdwnCuts.CutMade | review_agent/slack/mrkdwn.py:124-127 | a turn that meets a false key cuts another key and leaves its opening NUL |
| MrkdwnCuts.CutKept | review_agent/slack/mrkdwn.py:124-127 | no later turn completes such a key again |
| MrkdwnExpand.InStepIff | review_agent/slack/mrkdwn.py:124-127 | the whole loop follows the placeholders at every turn exactly when no turn meets a false key |
| MrkdwnExpand.TokensExpanded | review_agent/slack/mrkdwn.py:124-127 | restoring latest first computes the recursive expansion and leaves no placeholder |
| MrkdwnExpand.UncleanLeavesNul | review_agent/slack/mrkdwn.py:124-127 | after the first false key a NUL stays to the end |
| MrkdwnExpand.RestoredIff | review_agent/slack/mrkdwn.py:124-127 | the loop on any sealed fragments yields the full expansion exactly when it meets no false key, and otherwise leaves a NUL |
| MrkdwnExpand.PlaceholderRestore | review_agent/slack/mrkdwn.py:22-129 | for NUL-free input every key occurs once, and the result is the full expansion exactly when no turn meets a false key, which is exactly when no NUL is left in it |
| MrkdwnExpand.SafeInputs | review_agent/slack/mrkdwn.py:22-129 | a message without capital P or without capital H is always converted in full |
| MrkdwnExpand.GarbledExample | review_agent/slack/mrkdwn.py:48-53 | a message of two code spans with the text of a key between them is not |
| MrkdwnExpand.PassAll | review_agent/slack/mrkdwn.py:37-122 | all passes in a row, each on the text the one before left |
| MrkdwnExpand.MarkdownToSlack | review_agent/slack/mrkdwn.py:22-129 | the function itself, imperatively: empty input unchanged, otherwise passes and restore, fully expanded exactly without false keys |
| MrkdwnSpans.MarksChange | review_agent/slack/mrkdwn.py:48-53 | in strings, with any text around: **x** becomes *x*, *x* becomes _x_, ~~x~~ becomes ~x~, and `x` stays |
| MrkdwnSpans.LinesChange | review_agent/slack/mrkdwn.py:71-102 | a heading becomes *x*, a list item a bullet, and numbers and the quote mark stay |
| MrkdwnSpans.LinksChange | review_agent/slack/mrkdwn.py:55-87 | [caption](url) becomes <url|caption>, a URL stays and a rule becomes 32 dashes |
| MrkdwnSpans.FenceChanges | review_agent/slack/mrkdwn.py:40-46 | a fenced block loses its language and the white space at its end |
| PyStrings.SplitJoined | review_agent/secrets.py:118-129 | splitting what was joined and closed by a line feed gives the same lines |
| PyStrings.RTrimJoin | review_agent/secrets.py:129 | stripping the end of the joined text drops blank last lines and trims the last other one |
| PyStrings.StripMeans | review_agent/secrets.py:46-51 | stripping removes all of the given characters at both ends and nothing else |
| PyStrings.SplitMeans | review_agent/secrets.py:44 | at each line break a line ends, and a last line needs none |
| PyStrings.OneLineIff | review_agent/core/storage.py:227-242 | text without control characters is one line exactly if it has none of U+0085, U+2028 and U+2029 |
| EnvFile.Env.Read | review_agent/secrets.py:40-52 | the dictionary of the settings on the lines, a later line replacing an earlier one |
| EnvFile.Env.Upsert | review_agent/secrets.py:107-130 | the first line named by the key is overwritten, or a line appended, and the end trimmed |
| EnvFile.QuotedReads | review_agent/secrets.py:40-52 | with white space around, key = v reads as v whether it is bare or in quotes of either kind |
| EnvFile.QuotesWithinQuotes | review_agent/secrets.py:51 | double quotes are stripped before single ones, so within single ones they stay |
| EnvFile.NoSetting | review_agent/secrets.py:45-50 | blank lines, comments and lines without = hold no setting |
| EnvFile.EntryParses | review_agent/secrets.py:121 | the reader takes key and cleaned value from the line the editor writes |
| EnvFile.ReadAfterUpsert | review_agent/secrets.py:107-130 | reading after an edit gives the old settings with the key set to the cleaned value, or the old settings when a later line overrules it |
| EnvFile.UpsertTakesEffectIff | review_agent/secrets.py:122-128 | an edit that changes a setting takes effect exactly when no later line sets the key |
| EnvFile.OneLineEach | review_agent/secrets.py:122-128 | with at most one line named by the key nothing is overruled |
| EnvFile.UpsertTwice | review_agent/secrets.py:107-130 | repeating an edit leaves the identical file |
| EnvFile.BareNameExample | review_agent/secrets.py:122-128 | a file with one setting of the key below a line that is the bare key loses the edit |
| Ulid.Digits | review_agent/util/ids.py:12-22 | the shift-and-mask loop and the reversal yield the fixed-width base-32 digits, most significant first |
| Ulid.MakeUlid | review_agent/util/ids.py:9-24 | ten digits of the time stamp, then sixteen of the random value |
| Ulid.UlidRoundTrip | review_agent/util/ids.py:9-24 | both parts can be decoded, modulo 2^50 and 2^80 |
| Ulid.UlidEqualIff | review_agent/util/ids.py:9-24 | two ids are equal exactly when both parts agree in the bits that are kept |
| Ulid.UlidOrderExact | review_agent/util/ids.py:9-24 | string order is the order of (time stamp mod 2^50, random value mod 2^80), for all values |
| Ulid.UlidOrder | review_agent/util/ids.py:9-24 | so it is the order of (time stamp, random value) below these widths |
| Ulid.OrderBreaksAtWrap | review_agent/util/ids.py:9-24 | at 2^50 milliseconds the order breaks |

## Left out

- Language model calls, prompts and the extraction of their JSON: verdicts, findings, failures and exceptions are inputs (`Env`).
- The reading of reply texts (intent, URL and supplement detection) and of chosen subjects: inputs (`Reply`).
- Ingestion, OCR, audio, web and Lark documents, and the text of appended material: only whether it succeeded, and whether normalized.md exists.
- The Lark and Slack clients, webhooks, message formatting, the CLI and the dashboard; sent messages are not modelled, except for delivery, and a client that raises while a handler sends one counts as a cut at that point.
- Automatic registration of unknown senders, and administrators without the requester role: a message whose sender is no requester changes no session.
- SQLite and the file system: a table is a sequence, and each UPDATE, append or file replacement is one step that happens or does not.
- Task kinds other than `incoming_message`, which nothing enqueues.
- The JSON format itself: a finding is its JSON text in `Annotations.dfy` and a value elsewhere.
- Columns and files without influence on the control flow: time stamps, texts of findings, dissent notes, conversation log, token counts, verdict.json with its aggregated counts.
- The file of the revised draft; the gate that reads it, or the normalized material instead, is an input.
- Severity REGRESSION and status UNRESOLVABLE, which no code path assigns.
- tasks/queue.py: `scheduled_at` is taken to order rows as their ids do; terminal failure only, as the worker calls it; the worker's lock table, idle with one consumer; `stop`.
- TaskQueues.TaskQueue.TryNext: one pass of the loop; waiting on the flag is a step of the model.
- Delivering.DeliveredAtMostOnce: counts ok rows of the log; a message that arrived before the process died or the client raised, and so was not logged as ok, is sent again.
- DeliverBounds.DmsPerDocs: counts ok rows likewise, of DMs whose text does not change between attempts.
- QueueDeliveries.QueueHidesNothing: handlers are cut by crashes only; a handler that raises is not dispatched again, for which see `Redriven.RaisingHidesQuestions`.
- Whether a session's findings can be read is not a field of it: `Unreadable.dfy` takes up such a session where `Annotations.EditsReadIff` says that it fails.
- Which spans the Markdown patterns match: a pass may cut the text into any pieces of its form, so the claims hold for every choice.
- Carriage returns before line feeds in the env file, which Python's text mode removes before the code sees them; file permissions and the temporary file.
- Clocks and randomness: the time of a dedup call and the two parts of a ULID are parameters.
- Fairness between requesters, which the queue does not implement.
