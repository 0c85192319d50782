# NXT edge and field services: a verified model

This project models five parts of the NXT range system in Dafny and proves what they are for.

1. **The Edge and robot task exchange.** A robot executor and an Edge service each fold their own append-only
   journal into a view, decide batches of records from it, and exchange requests, events and statuses over a channel
   that may lose, repeat and reorder. A process may die with any line prefix of a batch persisted. `Robot*.dfy` model
   the executor, `Edge*.dfy` the Edge, `Agreement*.dfy` the two joined by the channel, `Journals.dfy` the
   file below them and `EdgeDisks.dfy` the Edge's runs on its bytes.
2. **Human-intervention cases and notification delivery** (`Intervention*.dfy`, `NotificationDelivery.dfy`): a
   reconciler that repairs torn batches through owed intents, a retrying sender and a deduplicating receiver.
3. **The Agent Runtime evaluation lifecycle** (`Agent*.dfy`): prepare, ledger, journal, complete, acknowledge over four
   stores that may fail between any two operations.
4. **Exact geometry and terrain** (`Elevation.dfy`, `ClearanceRoots.dfy`, `FirstContact.dfy`, `Segments.dfy`,
   `SegmentMeetings.dfy`, `Ring*.dfy`): first contact of a descent with a surface, and the ring predicates up to the
   documented promise that the overlap decision holds exactly if two rings share interior area; on the way, that a valid
   ring divides the plane in two and that its signed area tells on which side of an edge the inner part is.
5. **Projections and channel coverage** (`StockProjections.dfy`, `StockoutEstimates.dfy`, `Channel*.dfy`).

## How the model is built

- A journal is a sequence of records and a view the fold of it. Each decision function returns the batch of records
  the source would append. Each object that updates its fields is a class whose methods are proved to have exactly the
  effect of the fold (`RobotView`, `RobotCore`, `EdgeView`, `EdgeCore`, `InterventionView`, `ReceiverLedger`,
  `JsonlJournal`, `EvaluationJournal`, `AgentRuntime`, `Collector`).
- A run is a sequence of choices: which step, and how many lines of its batch became durable. A torn robot batch ends
  the process; its next step is a start. The central device is a legality relation between a state and a record: every
  decided batch is a chain of legal records, so every prefix of it is too, and each safety property is a property of legal
  journals.
- Digests are injective (task ids stand for request contents), time is an integer number of microseconds, a boot id is the
  pair of incarnation and boot number, and a robot behaviour is an arbitrary parameter of each boot.
- Geometry, terrain and projections are over the reals. A square root is a parameter known only by its defining property.
- The Site Runtime is an environment that publishes sequence s, redelivers it with the same envelope until it is
  acknowledged, and then publishes s + 1; evaluator and ledger are deterministic ports.

## Where the code and its descriptions differ

- A comment says that incarnation identity is compared on every event (simulation/nxt_edge_task/cases.py:1005-1010). For a
  replay of a key already seen no SESSION_REGRESSION record is appended; `EdgeBatches.AdmittedEventShape` follows the
  code. A replay with other content is still flagged and closes the gate.
- "Two kinds of terminal iff CONFLICT" does not hold: an unexpected rejection adds a terminal without CONFLICT.
  `EdgeTwoKinds.RunWithoutConflict` gives a run, `EdgeLatch.TwoKindsIffConflictExactly` the exact condition, and
  `EdgeLatch.TwoKindsCloseGate` what does hold.
- "A query can never attribute a hole the point is not actually in" (simulation/nxt_course_world_model/model.py:257-263) does
  not follow from the check: a feature edge between two boundary points of a notched hole crosses nothing properly and runs
  outside. `RingChains.NotchIsMissed` gives such a feature, `RingChains.StaysExactly` and `RingChains.SurfaceWithinExactly`
  the exact condition for paths and for surfaces.
- "A crash before the anchor write is accepted" holds only for a journal that was anchored before: a crash inside the very
  first append is refused. `Journals.TornAppendExactly` states both sides.

## Model

| member | source | states |
|---|---|---|
| Agreement.DeliveredResultIsReported | simulation/nxt_edge_task/cases.py:541-608 | Over every world run (robot steps with tearing and crashes, sends, Edge steps with tearing and crashes, any loss, repetition and reordering), once the terminal event of an unregressed robot has been delivered, the Edge's state and effective result are the robot's own terminal, without conflict. |
| Agreement.ReportedResultIsTrue | simulation/nxt_edge_task/cases.py:541-608 | A finished task at the Edge has the robot's recorded terminal; reported SUCCEEDED means exactly one execution start in the robot's journal, reported REJECTED none. |
| Agreement.GateStaysOpen | simulation/nxt_edge_task/cases.py:385-402 | Whatever is lost, repeated or reordered, an unregressed robot's own evidence never closes its authorization gate. |
| Agreement.CompleteDeliveryHasNoGap | simulation/nxt_edge_task/cases.py:269-274 | Once every event of the robot's history was delivered, in any order, no sequence number is missing. |
| Agreement.OrderAndRepetitionDoNotMatter | simulation/nxt_edge_task/cases.py:1090-1166 | Two sites that received the same set of events of a task agree on state, applied maximum, observed acceptance, terminals, effective result and missing sequences. |
| Agreement.EdgeAgrees | simulation/nxt_edge_task/cases.py:529-608 | In every reachable world, everything the Edge holds about a task of an unregressed robot is determined by the delivered part of the robot's history. |
| Agreement.WorldFaithful | simulation/nxt_edge_task/cases.py:959-1166 | The channel invents nothing: what the Edge journal records from the robot was sent, and what was sent is in the robot's journal. |
| AgreementEvidence.DeliveryAgrees | simulation/nxt_edge_task/cases.py:1090-1166 | Classifying any event of a well-formed history, new or repeated, keeps the agreement with the delivered set and raises neither conflict nor flag. |
| AgreementEvidence.SameSetSameConclusion | simulation/nxt_edge_task/cases.py:269-274 | Evidence that agrees with one delivered set is unique in all its conclusions. |
| AgreementEvidence.WholeHistoryMissesNothing | simulation/nxt_edge_task/cases.py:269-274 | With the whole history delivered the missing list is empty. |
| RobotRuns.RunSound | simulation/nxt_edge_task/executor.py:464-776 | Main invariant of the executor: any run of restarts, requests, ticks, confirmations and resets, each batch torn after any line, leaves a journal in which every record is legal, and a whole batch leaves a process fit to work. |
| RobotSafety.AtMostOneStart | simulation/nxt_edge_task/executor.py:700-730 | At most once: over any run with repeated requests, torn batches and restarts, a task id has at most one EXECUTION_STARTED. |
| RobotSafety.AtMostOneStartEver | simulation/nxt_edge_task/executor.py:634-650 | Across all re-provisionings of one robot identity a task id starts at most once in total, given that ids digest contents and tokens are distinct. |
| RobotSafety.NoStartAfterRestart | simulation/nxt_edge_task/executor.py:464-562 | A task decided before a boot record never starts after it. |
| RobotSafety.StartFollowsAcceptance | simulation/nxt_edge_task/executor.py:700-730 | Every execution start follows an acceptance decided in the same boot. |
| RobotSafety.OneDecisionPerTask | simulation/nxt_edge_task/executor.py:666-694 | No task is decided twice. |
| RobotSafety.OneActiveTask | simulation/nxt_edge_task/executor.py:209-251 | At every durable prefix at most one accepted task is unfinished, and it is the current one. |
| RobotSafety.ProtectedStep | simulation/nxt_edge_task/executor.py:255-302 | While awaiting a human: no acceptance, no start, no success; only SIMULATE_RESET ends it. |
| RobotSafety.ProtectionLasts | simulation/nxt_edge_task/executor.py:255-302 | Between two prefixes of any run without a reset, protection lasts. |
| RobotSafety.HistoryShape | simulation/nxt_edge_task/executor.py:416-437 | Each persisted history has strictly increasing keys, is contiguous from 1 in each boot, and has at most one terminal, which comes last; SUCCEEDED means one start, REJECTED none. |
| RobotSafety.ReplayNeverRaises | simulation/nxt_edge_task/executor.py:194-251 | Replaying any reachable journal never meets a record about an unknown task. |
| RobotSafety.ReplayedWasPersisted | simulation/nxt_edge_task/executor.py:583-664 | The history re-published for a duplicate request holds only events of the journal. |
| RobotLegality.NextSequenceMeaning | simulation/nxt_edge_task/executor.py:416-419 | The next sequence number exceeds every number used in the boot by exactly one over the largest. |
| RobotLegality.HistoryKeysIncrease | simulation/nxt_edge_task/executor.py:416-437 | Appending the next event keeps the order keys strictly increasing. |
| RobotLegality.HistoryContiguous | simulation/nxt_edge_task/executor.py:416-437 | Below any sequence number of a history every number of the same boot was used, earlier. |
| RobotLegality.LegalKeepsState | simulation/nxt_edge_task/executor.py:194-302 | Every legal record keeps the whole invariant: history, decision and outcome facts, one counted execution, one current task, protection. |
| RobotLegality.EventKeepsProtection | simulation/nxt_edge_task/executor.py:255-294 | A new event frees the slot, protects or clears so that a protected robot's current task is always blocked. |
| RobotRestart.StartLegal | simulation/nxt_edge_task/executor.py:464-562 | The boot batch, torn or whole before it, is legal record by record; at its end no interrupted, unannounced or undecided task is left. What it reports of each is RobotOutcomes.RestartSettles. |
| RobotOutcomes.RestartSettles | simulation/nxt_edge_task/executor.py:497-545 | In every run, a whole start ends each accepted task it finds open, by what the journal recorded of it before: SUCCEEDED or FAILED / cannot_continue by its recorded completion, FAILED / not_started_after_restart iff it never started, and INCONCLUSIVE / interrupted_execution_unknown_outcome iff it started and did not complete. |
| RobotOutcomes.ReportsAreRecorded | simulation/nxt_edge_task/executor.py:516-559 | In every run each event of a task's history is borne out by the whole journal: acceptance and rejection by the decision recorded, help and progress by a start, success by one start and a recorded success, failure by a recorded failure or by no start ever, inconclusive by a start without completion; so a task reported as never started never starts. |
| RobotOutcomes.EventsAreOwn | simulation/nxt_edge_task/executor.py:421-440 | In every run each journaled event names this robot and its site, deployment and environment. |
| RobotAnswers.ProtectedExactly | simulation/nxt_edge_task/executor.py:255-302 | In every run the robot waits for a human exactly while a help request, failure or inconclusive end stands in its journal that no reset has cleared, and declares want of energy exactly while an energy report stands that no unknown fault has blurred. |
| RobotAnswers.RequestAnswered | simulation/nxt_edge_task/executor.py:583-694 | In every run a running robot turns a decoded request away exactly if it is misaddressed (by the first thing wrong) or contradicts a known one, repeats its history exactly if it knows the request, and otherwise accepts it iff no alarm stands in its journal, it holds no task, the request is in time and its type is supported, the refusals ranked in that order. |
| RobotAnswers.UnreadableRefused | simulation/nxt_edge_task/executor.py:583-630 | What cannot be read is refused with its code, outside every history, and names the task only if one could be made out. |
| RobotAnswers.StartsExactly | simulation/nxt_edge_task/executor.py:444-500 | In every run the robot starts exactly with initialization and a nonce while its journal holds no provisioning, and without initialization once it does; the boot record counts the boots and names the provisioned identity. |
| RobotBatches.RequestLegal | simulation/nxt_edge_task/executor.py:583-694 | Any request delivery, malformed, foreign, duplicate or new, yields a legal batch that leaves the process fit. |
| RobotBatches.DecisionLegal | simulation/nxt_edge_task/executor.py:666-694 | Deciding a request yields its decision and its event, touches no other task and is legal in every state. |
| RobotBatches.TickLegal | simulation/nxt_edge_task/executor.py:700-761 | Every tick's records are legal: a start only of a confirmed, unprotected acceptance of this boot, success only unblocked. |
| RobotBatches.ResetLegal | simulation/nxt_edge_task/executor.py:763-776 | A reset reports the abandoned task before the record that clears protection. |
| RobotViews.RobotView.ApplyRecord | simulation/nxt_edge_task/executor.py:194-251 | The method that changes the view's fields has exactly the effect of one record. |
| RobotViews.RobotView.DeriveConditionFor | simulation/nxt_edge_task/executor.py:255-269 | The condition, terminal and current slot after an event equal the derived ones. |
| RobotViews.RobotView.ProtectFor | simulation/nxt_edge_task/executor.py:272-294 | The protective condition for each reason, an existing fault surviving weaker reasons. |
| RobotProgress.AcceptedGetsUnderWay | simulation/nxt_edge_task/executor.py:666-694 | A new request in time and of a supported type, to a robot that is free, waits for no human and is not on standby, is accepted and, once confirmed, is the current unblocked task at its first step. |
| RobotProgress.UndisturbedSucceeds | simulation/nxt_edge_task/executor.py:700-761 | Undisturbed and confirmed, an accepted request starts, proceeds and succeeds within three ticks, and leaves the robot clear with a free slot. |
| RobotProgress.TroubleProtects | simulation/nxt_edge_task/executor.py:700-761 | The failing and help-seeking behaviours end protected at the second tick: failed with a free slot, or blocked and still current. |
| RobotProgress.SilentGoesQuiet | simulation/nxt_edge_task/executor.py:700-740 | A silent robot starts the task, reports nothing and never does anything again. |
| RobotProgress.CrashesLeave | simulation/nxt_edge_task/executor.py:712-724 | A robot that dies on acceptance leaves without a record of the tick, one that dies on starting leaves the start behind. |
| RobotProgress.HoldsUntilConfirmed | simulation/nxt_edge_task/executor.py:700-720 | Nothing goes on while a report is unconfirmed, on standby, or without a task. |
| RobotProgress.ExitsExactly | simulation/nxt_edge_task/executor.py:712-761 | With an active unblocked task a robot leaves of its own accord exactly on acceptance, on a confirmed start or on the recorded result, as its crash behaviour says. |
| RobotProgress.BlockedWaits | simulation/nxt_edge_task/executor.py:700-715 | No tick moves a blocked task, whatever the behaviour. |
| RobotCores.RobotCore.OnStart | simulation/nxt_edge_task/executor.py:464-562 | The boot batch built on a scratch copy, pass by pass, is the specified batch or error, and the live view is untouched. |
| RobotCores.RobotCore.RunPass | simulation/nxt_edge_task/executor.py:497-562 | One restart pass over the ordered tasks: each decision sees the records before it. |
| RobotCores.RobotCore.Tick | simulation/nxt_edge_task/executor.py:700-761 | A tick returns the decided records, or nothing once an exit was requested, and requests exits as decided. |
| EdgeRuns.RunLegal | simulation/nxt_edge_task/cases.py:406-608 | Main invariant of the Edge: any run of deliveries, ticks, creations and publications, each batch torn after any line, is a chain of legal records over consistent tasks. |
| EdgeBatches.EventLegal | simulation/nxt_edge_task/cases.py:959-1166 | Every event delivery, refused, request-level or classified, yields a legal batch: conflicts announced are real and gate-closing flags restate recorded reasons. What each batch holds is EdgeAnswers.EveryEventAnswered. |
| EdgeMeaning.EventMeaning | simulation/nxt_edge_task/cases.py:529-608 | From the fields of the task and the event alone: what the state, the applied maximum, the held keys, the terminals, the first and the effective result, the observed acceptance and the blocking event are after any event, new, late, repeated, contradictory or from a regressed robot. |
| EdgeMeaning.ReasonsMeaning | simulation/nxt_edge_task/cases.py:541-608 | From the fields alone: after any event a reason stands iff the event gives it or it stood before and is not answered; presence is answered by any word, progress only by an event that moves the task. |
| EdgeMeaning.RecordsMeaning | simulation/nxt_edge_task/cases.py:1068-1166 | The records that follow the evidence record are exactly the flags the event gives and the conflict it makes. |
| EdgeGates.EvidenceOfRun | simulation/nxt_edge_task/cases.py:529-608 | In every run each evidence record changes its task's evidence and reasons exactly as the fields of the event call for. |
| EdgeGates.GateExactly | simulation/nxt_edge_task/cases.py:385-402 | In every run a robot's gate is closed at a prefix iff the journal up to there holds a lost continuity of the robot or an anomalous event of one of its tasks: other content under a known key, activity after the end, a second opening, a late rejection, or a second kind of result. |
| EdgeAnswers.EveryEventAnswered | simulation/nxt_edge_task/cases.py:959-1166 | In every run: a misaddressed event is refused, a foreign incarnation is exposed first, and every addressed event is written down with exactly its announcements. |
| EdgeAnswers.AlarmClosesGate | simulation/nxt_edge_task/cases.py:1010-1166 | In every run, when an addressed event is anomalous or the first from another incarnation, the robot's gate is closed as soon as the first line of its batch is durable. |
| EdgeAnswers.EveryStatusAnswered | simulation/nxt_edge_task/cases.py:782-940 | Each status, from the fields: refused, regressed (exposed once, rejected at most once per half window), repeated, or accepted with exactly one device record or none, and exactly the questions about open tasks that a new session or an idle robot raises. |
| EdgeAnswers.EveryCreationAnswered | simulation/nxt_edge_task/cases.py:677-741 | In every run a request is idempotent iff its task exists, created iff it fits the commissioned facts, is in time and names the incarnation last seen of a robot without open task whose journal holds no alarm, and refused otherwise. |
| EdgeBatches.StatusLegal | simulation/nxt_edge_task/cases.py:782-940 | Every status delivery yields a legal batch. |
| EdgeBatches.TickLegal | simulation/nxt_edge_task/cases.py:1193-1238 | Every tick yields a legal batch. |
| EdgeBatches.CreateLegal | simulation/nxt_edge_task/cases.py:677-741 | Every creation decision yields a legal batch. |
| EdgeLegality.ConflictIsReal | simulation/nxt_edge_task/cases.py:1090-1143 | A conflict is announced only for an event whose kind differs from a recorded terminal. |
| EdgeLegality.EventKeepsTerminal | simulation/nxt_edge_task/cases.py:541-608 | Whatever arrives, a finished task keeps its state and first terminal. |
| EdgeLegality.EventKeepsConflict | simulation/nxt_edge_task/cases.py:541-608 | CONFLICT survives every classified event. |
| EdgeLegality.EventAnswersTwoKinds | simulation/nxt_edge_task/cases.py:1158-1164 | When an event brings a second terminal kind, CONFLICT is set or the unexpected rejection is flagged. |
| EdgeLatch.TerminalNeverChanges | simulation/nxt_edge_task/cases.py:541-608 | Between any two prefixes of any run a finished task keeps its state and first terminal. |
| EdgeLatch.ConflictNeverOverwritten | simulation/nxt_edge_task/cases.py:541-608 | Between any two prefixes of any run CONFLICT stays. |
| EdgeLatch.GateNeverReopens | simulation/nxt_edge_task/cases.py:385-402 | A closed authorization gate is closed in every later state of every run. |
| EdgeLatch.TwoKindsCloseGate | simulation/nxt_edge_task/cases.py:393-401 | Two different recorded terminal kinds close the robot's gate. |
| EdgeLatch.ConflictHasTwoKinds | simulation/nxt_edge_task/cases.py:1068-1143 | CONFLICT always stands over two recorded terminal kinds. |
| EdgeLatch.TwoKindsIffConflictExactly | simulation/nxt_edge_task/cases.py:1158-1164 | "Two kinds iff CONFLICT" is kept by one event iff the event is not a fresh rejection above everything applied of an accepted, unfinished task with another kind on record and no CONFLICT. |
| EdgeLatch.TwoKindsWithoutConflict | simulation/nxt_edge_task/cases.py:1158-1164 | Three concrete events after which two kinds are recorded and no CONFLICT is reported. |
| EdgeTwoKinds.RunWithoutConflict | simulation/nxt_edge_task/cases.py:1158-1164 | Wherever a task can be created there is a run of the Edge after which two terminal kinds are on record, no CONFLICT is reported, and the gate is closed all the same. |
| EdgeTornBatches.TornBatchHarmless | simulation/nxt_edge_task/cases.py:1010-1143 | For every event batch and every torn prefix of it, redelivering the message gives the tasks, evidence, reasons, sessions and gates of the whole batch. |
| EdgeTornBatches.HeardAgain | simulation/nxt_edge_task/cases.py:1068-1143 | Redelivering a message whose evidence record is durable changes nothing but clocks and counters. |
| EdgeDispatch.OneOpenTaskPerRobot | simulation/nxt_edge_task/cases.py:677-741 | At every durable prefix each robot has at most one non-terminal task. |
| EdgeDispatch.CreatedOnce | simulation/nxt_edge_task/cases.py:708-741 | No task id is created twice. |
| EdgeDispatch.BoundedAttempts | simulation/nxt_edge_task/cases.py:1293-1331 | At most the configured number of publications of a task, at most one of them after expiry. |
| EdgeDispatch.AttemptsSpaced | simulation/nxt_edge_task/cases.py:1293-1331 | Two publications of one task are at least the minimum interval apart. |
| EdgeDispatch.OnlyPublishableAttempts | simulation/nxt_edge_task/cases.py:1293-1331 | Every publication meets an open, ungated task whose own incarnation is the bound one. |
| EdgePublishing.ListedExactly | simulation/nxt_edge_task/cases.py:1293-1331 | In every run, from the journal: a task is listed iff it may go out (open, unblocked, ungated, bound, reachable, within attempts, expiry and interval) and it was never confirmed or the journal holds a presence or progress question about it, later than its last answer and not cleared since; and it is listed with exactly those questions and its next attempt. |
| EdgeDispatch.ClosedGateStopsDispatch | simulation/nxt_edge_task/cases.py:385-402 | After a gate closes, neither a creation nor a publication for that robot follows. |
| EdgeDispatch.FinishedNeverPublished | simulation/nxt_edge_task/cases.py:1293-1331 | After a task finishes it is never published. |
| EdgeTiming.ProbesSpaced | simulation/nxt_edge_task/cases.py:221-241 | Within one progress epoch two progress-type flags of a task are at least one window apart. |
| EdgeTiming.RunPaced | simulation/nxt_edge_task/cases.py:502-510 | Every run keeps the probe pacing recorded in the task's clocks. |
| EdgeAlerts.SilentRobotsAreFlagged | simulation/nxt_edge_task/cases.py:1193-1238 | A tick drops exactly the robots silent for the configured time: ONLINE to STALE, STALE to OFFLINE, and never heard since a restart to OFFLINE. |
| EdgeAlerts.OverdueTasksAreFlagged | simulation/nxt_edge_task/cases.py:1193-1238 | A tick flags exactly the open tasks whose expiry, progress or acceptance is overdue, each with its own reason, told from the task's and the device's fields. |
| EdgeAlerts.SilenceIsReported | simulation/nxt_edge_task/cases.py:1193-1238 | In every run, a robot whose last journaled receipt is a stale window old is out of ONLINE from the next whole tick until the journal records a status that brought it back. |
| EdgeAlerts.ExpiryIsReported | simulation/nxt_edge_task/cases.py:1193-1238 | In every run, a task still unanswered at its expiry is reported expired by the next whole tick, and stays so for good. |
| EdgeLiveness.FirstAnswerAnchorsProbe | simulation/nxt_edge_task/cases.py:221-250 | A probe re-arms one window after the first answer; duplicates after that cannot postpone it. |
| EdgeLiveness.HeardRobotNeverStale | simulation/nxt_edge_task/cases.py:910-939 | A robot heard at most half a stale window ago is never flagged STALE, although unchanged heartbeats are thinned. |
| EdgeLiveness.RunKeepsUp | simulation/nxt_edge_task/cases.py:910-939 | In every run the journaled receipt of an ONLINE robot lags its last accepted status by less than half a window. |
| EdgeGaps.AnnouncedGapsAreReal | simulation/nxt_edge_task/cases.py:1169-1185 | In every run the gap a record announces in advance lists exactly the numbers never received up to the applied maximum. |
| EdgeGaps.AnnouncedGap | simulation/nxt_edge_task/cases.py:1169-1185 | The gap and the acceptance announced before a record applies equal those derived afterwards. |
| EdgeViews.MissingFrom | simulation/nxt_edge_task/cases.py:269-274 | The missing list holds exactly the unseen sequence numbers of the boot up to the applied maximum, strictly increasing. |
| EdgeCores.EdgeView.ApplyRecord | simulation/nxt_edge_task/cases.py:410-527 | The method that changes the view's fields, maps and clocks in place has exactly the effect of one record. |
| EdgeCores.EdgeView.ApplyEventRecord | simulation/nxt_edge_task/cases.py:529-608 | Applying a received event in place, branch by disposition, equals the specified evidence step. |
| EdgeCores.EdgeView.RegressTasks | simulation/nxt_edge_task/cases.py:410-527 | A lost session marks the device and asks about each of its open tasks again. |
| EdgeCores.EdgeCore.Sync | simulation/nxt_edge_task/cases.py:1343-1349 | Synchronising refuses a shorter or diverged journal and otherwise ends with the replay of the whole journal. |
| EdgeCores.EdgeCore.AppendVia | simulation/nxt_edge_task/cases.py:1351-1363 | A batch is decided on the replay of the full journal it extends; after a whole batch the view is the replay of the extended journal, and a process that dies among its lines leaves a line prefix of that batch. |
| EdgeCores.Interleave | simulation/nxt_edge_task/cases.py:1343-1363 | Any number of processes, writing in any order and dying among the lines of any batch, leave the journal of one run, and each view is the replay of a prefix of it. |
| EdgeCores.Turn | simulation/nxt_edge_task/cases.py:1343-1363 | A process that appends a whole batch has replayed the whole journal, whoever wrote before it; the other processes still stand on a prefix. |
| EdgeDisks.DiskRunIsEdgeRun | simulation/nxt_edge_task/journal.py:339-406 | On the bytes of the journal file, with a crash after any byte of any append: as long as the file can be read, it tells exactly the run of the Edge whose steps kept the whole lines left behind. |
| EdgeDisks.ReadableExactly | simulation/nxt_edge_task/journal.py:192-206 | The file stays readable iff every crash left nothing, or whole lines of a journal that was anchored before; from the first other crash on every read fails. |
| Journals.AppendThenRead | simulation/nxt_edge_task/journal.py:339-406 | What was appended is read back after everything that was there, and the new anchor covers it. |
| Journals.RollbackExactly | simulation/nxt_edge_task/journal.py:192-206 | Cutting an anchored file is accepted iff it ends with a whole line and still holds the anchored number of records; it then reads as that prefix. |
| Journals.TornAppendExactly | simulation/nxt_edge_task/journal.py:192-199 | A crash inside an append, before the anchor moves, is accepted iff nothing was written, or whole lines were and an anchor existed; a torn line is refused as truncated, a first append without anchor as unanchored. |
| Journals.ParseSplit | simulation/nxt_edge_task/journal.py:279-333 | Verifying a prefix and then continuing is verifying the whole, errors included. |
| Journals.PrefixVerifies | simulation/nxt_edge_task/journal.py:279-333 | A whole-line prefix of a verified file verifies to the records of its lines. |
| Journals.ParsedCount | simulation/nxt_edge_task/journal.py:279-333 | A verified file holds one record per terminated line. |
| Journals.RenderedParses | simulation/nxt_edge_task/journal.py:279-333 | Rendered records parse back to themselves. |
| Journals.JsonlJournal.Parse | simulation/nxt_edge_task/journal.py:279-333 | The line loop returns exactly the specified records or the first bad line's error. |
| Journals.JsonlJournal.Verify | simulation/nxt_edge_task/journal.py:256-277 | With any cache state, cached verification returns what full verification of the bytes returns. |
| Journals.JsonlJournal.VerifiedRead | simulation/nxt_edge_task/journal.py:235-254 | Reading returns the verified, anchor-covered records or the specified error. |
| Journals.JsonlJournal.AppendVia | simulation/nxt_edge_task/journal.py:339-406 | The batch is decided on all verified records; a refused or disallowed batch leaves the disk unchanged; otherwise the lines and then the anchor are written. |
| InterventionRuns.RunLegal | simulation/nxt_edge_interventions/cases.py:259-356 | Main invariant of the service: every run, each batch torn after any line, is a chain of legal records over a consistent view. |
| InterventionReconcile.TornReconcileSameRecords | simulation/nxt_edge_interventions/cases.py:536-615 | A reconcile batch torn after any line and reconciled again journals, in order, exactly the records of the whole batch, and then nothing. |
| InterventionReconcile.TornReconcileConverges | simulation/nxt_edge_interventions/cases.py:536-615 | The cases, severities, notification ids and owed intents after repair equal those of the uninterrupted batch, and the next call returns nothing. |
| InterventionCoverage.ReconciledMirrors | simulation/nxt_edge_interventions/cases.py:536-615 | After any torn reconciliation and its repair every observed condition has its open case at no lower severity, or was resolved by a human on the same evidence, and no open case is active without its condition. |
| InterventionCoverage.SilenceMirrors | simulation/nxt_edge_interventions/cases.py:536-615 | Reconciliation is silent only when the cases already mirror the observation in that sense. |
| InterventionReconcile.TornRepairIsExact | simulation/nxt_edge_interventions/cases.py:315-332 | Owed intents torn anywhere are completed with the same records and times. |
| InterventionConvergence.FreshHead | simulation/nxt_edge_interventions/cases.py:536-615 | Applying the first record(s) of any batch leaves exactly the rest to say. |
| InterventionRuns.OneCasePerCondition | simulation/nxt_edge_interventions/cases.py:229-241 | At every durable prefix a condition has at most one unresolved case. |
| InterventionRuns.IntendedOnce | simulation/nxt_edge_interventions/cases.py:505-533 | No notification id is ever intended twice. |
| InterventionRuns.RemindersSpaced | simulation/nxt_edge_interventions/cases.py:641-666 | Two reminders of a case are a full interval apart, and each meets a case nobody has taken. |
| InterventionRuns.RemindersBounded | simulation/nxt_edge_interventions/cases.py:641-666 | A case gets at most the configured number of reminders. |
| InterventionRuns.SettledAbsorbs | simulation/nxt_edge_interventions/cases.py:333-352 | A DELIVERED or EXHAUSTED notification is the same in every later state. |
| InterventionObservation.ObservedOnce | simulation/nxt_edge_interventions/cases.py:385-502 | One observation holds at most one item per condition and subject; which ones is InterventionFacts.ObservedExactly. |
| InterventionFacts.ObservedExactly | simulation/nxt_edge_interventions/cases.py:385-502 | Observed is exactly what the Edge's fields say: assistance iff the task is blocked with that blocking event, critical iff its reason is unknown; conflict iff its result is CONFLICT or contradictory evidence stands; unconfirmed iff it is open with attempts spent or expiry reported; unreachable iff the robot is OFFLINE, critical iff it holds an open task; regression iff the session is lost. |
| InterventionFacts.FactsHaveCases | simulation/nxt_edge_interventions/cases.py:536-615 | After any torn reconciliation and its repair each fact of the Edge's view has its case, and each open active case its fact. |
| InterventionFacts.BlockedTaskIsCalledOut | simulation/nxt_edge_interventions/cases.py:395-417 | After any torn and repaired reconciliation a blocked task has its open, active case on the very event that blocks it, critical if the reason is unknown, unless a human already resolved that occurrence. |
| InterventionNotices.CalledOrOwed | simulation/nxt_edge_interventions/cases.py:505-533 | In every run each opening and each escalation is owed its own notice until the journal holds it, with that severity, evidence and time. |
| InterventionNotices.ReconcileCaused | simulation/nxt_edge_interventions/cases.py:536-615 | Reconciliation says nothing without a cause: each record is one an observed condition calls for, with its severity, key, evidence and previous case, or clears an open case whose condition is gone. |
| InterventionNotices.TickExactly | simulation/nxt_edge_interventions/cases.py:641-666 | A tick journals exactly a reminder for each open case unanswered for an interval within its budget, the end of its reminders beyond it, and the end of each notification whose attempts are spent, its open attempt answered as unknown. |
| InterventionNotices.OperatorsExactly | simulation/nxt_edge_interventions/cases.py:680-710 | An operator takes exactly an open case and closes exactly a taken one; everything else is refused and changes no case. |
| InterventionObservation.ClosedGateIsReported | simulation/nxt_edge_interventions/cases.py:385-502 | A closed gate is always observed as a critical conflict condition of that robot. |
| InterventionCores.InterventionView.ApplyRecord | simulation/nxt_edge_interventions/cases.py:259-356 | The method that changes cases, notifications and owed intents in place has exactly the effect of one record. |
| InterventionNotices.DueExactly | simulation/nxt_edge_interventions/notify.py:53-74 | Settled and spent notifications are never due, new ones at once, and any other from exactly the retry interval after the open attempt or else the last result. |
| InterventionNotices.LatestListedLast | simulation/nxt_edge_interventions/cases.py:235-241 | Of the cases of one condition the one opened last counts, and of several opened at the same time the one listed last. |
| NotificationDelivery.DeliveredWasReceived | simulation/nxt_edge_interventions/notify.py:136-172 | Over any lossy, repeating channel, DELIVERED implies a persisted receipt, the very one the sender holds. |
| NotificationDelivery.OneReceiptPerNotification | simulation/nxt_edge_interventions/notify.py:98-110 | However often a notification arrives, one receipt is issued for it. |
| NotificationDelivery.ReceiptsUnchanging | simulation/nxt_edge_interventions/notify.py:136-172 | Handling any message keeps every receipt already given. |
| NotificationDelivery.AttemptsBounded | simulation/nxt_edge_interventions/notify.py:53-74 | Journaled attempts never exceed the budget. |
| NotificationDelivery.ReceiverLedger.ApplyAll | simulation/nxt_edge_interventions/notify.py:98-110 | Catching up applies only new records and equals the fold of the whole journal. |
| AgentCrashSafety.RunConsistent | simulation/nxt_agent_runtime/runtime.py:406-523 | Main invariant: after any number of cycles, each cut off after any number of store operations, the four stores are consistent. |
| AgentCrashSafety.CycleKeeps | simulation/nxt_agent_runtime/runtime.py:665-837 | One cycle interrupted anywhere keeps the stores consistent and never fails closed. |
| AgentCrashSafety.AcknowledgedExactlyOnce | simulation/nxt_agent_runtime/runtime.py:665-837 | Every acknowledged sequence has exactly one journal record, its own, and records are contiguous. |
| AgentCrashSafety.CompletedIsJournaled | simulation/nxt_agent_runtime/checkpoints.py:195-208 | The completed checkpoint is always journaled under the same evaluation id. |
| AgentCrashSafety.RecommendationsLedgeredOnce | simulation/nxt_agent_runtime/runtime.py:839-854 | Each journaled recommendation stands in the ledger exactly once. |
| AgentCrashSafety.RecoverAcceptsEveryCrash | simulation/nxt_agent_runtime/runtime.py:294-404 | Recovery accepts every state that crashes and outages alone can leave. |
| AgentCrashSafety.RecoverNoticesLostEvidence | simulation/nxt_agent_runtime/runtime.py:294-404 | A journal cut to its first k records is accepted iff the completed evaluation is still among them. |
| AgentCrashSafety.UninterruptedCycleProgresses | simulation/nxt_agent_runtime/runtime.py:406-523 | After any past, one uninterrupted cycle acknowledges the next sequence. |
| AgentGuards.PrepareExactly | simulation/nxt_agent_runtime/checkpoints.py:158-193 | Preparing is refused exactly if it would replace another pending evaluation or leave a gap after the last completed one; otherwise only the pending part changes, a repeated attempt being counted. |
| AgentGuards.CompleteExactly | simulation/nxt_agent_runtime/checkpoints.py:195-208 | Completing needs something pending, and what was prepared then stands as the last evaluation. |
| AgentGuards.RecoverExactly | simulation/nxt_agent_runtime/runtime.py:294-404 | For any stores whose journal verified, recovery gives each verdict exactly when its disagreement is the first: a foreign journal record, a foreign ledger record, checkpoints out of step with publication, a journal beyond the checkpoint or without the completed evaluation. |
| AgentGuards.UnexpectedStops | simulation/nxt_agent_runtime/runtime.py:665-760 | An envelope other than the expected one, or whose evaluation is, changes no store, and each cause has its own answer. |
| AgentGuards.ExpectedIsDone | simulation/nxt_agent_runtime/runtime.py:665-837 | With operations enough, the expected envelope is listed, journaled and completed exactly if its record fits the journal, which otherwise stays as it was. |
| AgentRuntimes.AgentRuntime.RunOnce | simulation/nxt_agent_runtime/runtime.py:406-523 | The cycle method with its lifecycle fields: it refuses when stopped or failed, fails closed for good on a failed recovery, goes on when recovery meets an outage, reports an exhausted or unreachable source with the stores unchanged, and otherwise equals the specified cycle. |
| AgentRuntimes.AnsweredCycleIsACycle | simulation/nxt_agent_runtime/runtime.py:406-460 | Whatever the source answers, the stores are left as some cycle of a crash-safe run leaves them, so every store guarantee covers exhausted sources and outages. |
| AgentRuntimes.AgentRuntime.RecoverStores | simulation/nxt_agent_runtime/runtime.py:294-404 | Recovery only reads: it is refused when the runtime may not run, put off without failing when a store is away, and otherwise gives the specified verdict, failing closed on a disagreement. |
| AgentRuntimes.AgentRuntime.RecordEvaluation | simulation/nxt_agent_runtime/runtime.py:811-837 | Ledger event, journal record and completed checkpoint happen in that order, each only after the one before. |
| AgentRuntimes.DeferredAcknowledgement.Commit | simulation/nxt_agent_runtime/runtime.py:178-184 | A commit with nothing held does nothing; otherwise the held acknowledgement reaches the source exactly once, and stays held on an outage. |
| AgentRuntimes.Stores.CompareAndSave | simulation/nxt_agent_runtime/checkpoints.py:260-279 | A save succeeds only against the expected checkpoint and changes nothing otherwise. |
| AgentJournals.EvaluationJournal.VerifySuffix | simulation/nxt_agent_runtime/journal.py:208-244 | For every file: a shorter one or a changed tail line is refused; otherwise the verdict is that of the lines adopted before followed by the new ones, and errors change nothing. |
| AgentJournals.EvaluationJournal.VerifyMore | simulation/nxt_agent_runtime/journal.py:208-244 | The line loop extends a verified cache line by line, or returns the error of the whole sequence. |
| AgentJournals.EvaluationJournal.Append | simulation/nxt_agent_runtime/journal.py:280-335 | For every file: a shorter one or a changed tail is refused untouched; otherwise an append is idempotent for an identical record, refused for a bad line, other content, another identity or a gap, and else adds one verified line. |
| AgentJournals.EvaluationJournal.Read | simulation/nxt_agent_runtime/journal.py:248-268 | Reading verifies the whole file, returns its records or the first error, and adopts the file only on success. |
| AgentJournals.SeenExactly | simulation/nxt_agent_runtime/journal.py:208-225 | What an instance has seen is the whole file iff the file still begins with the adopted lines; an unnoticed difference lies strictly below the last adopted line. |
| AgentJournals.PrefixVerifies | simulation/nxt_agent_runtime/journal.py:208-244 | A prefix of a verified file verifies to the prefix of its records. |
| AgentJournals.IndexMeaning | simulation/nxt_agent_runtime/journal.py:270-274 | The sequence index knows a sequence iff a record of it is stored, under that record's id. |
| FirstContact.FirstDescentCrossing | simulation/nxt_course_world_model/elevation.py:235-307 | For a covered segment strictly above terrain at its start: None iff clearance is positive on (0, 1]; otherwise the least u with clearance at or below zero. |
| FirstContact.PieceContact | simulation/nxt_course_world_model/elevation.py:272-306 | On one piece the least root of its polynomial is the first contact there. |
| FirstContact.PieceClearance | simulation/nxt_course_world_model/elevation.py:271-304 | Between neighbouring crossings the clearance is one cell's quadratic. |
| FirstContact.PieceIsQuadratic | simulation/nxt_course_world_model/elevation.py:277-297 | The computed coefficients give exactly segment height minus the bilinear patch. |
| FirstContact.StaysInCell | simulation/nxt_course_world_model/elevation.py:271-276 | A piece without crossings never leaves the closed cell of its midpoint. |
| FirstContact.AxisBreakpoints | simulation/nxt_course_world_model/elevation.py:259-270 | The breakpoints are exactly the grid-line crossings strictly inside the segment. |
| ClearanceRoots.SmallestClearanceRoot | simulation/nxt_course_world_model/elevation.py:38-94 | For every quadratic, line or constant, the result is None iff the clearance stays positive on the interval, otherwise the first point at or below zero. |
| Elevation.AnyCellGivesElevation | simulation/nxt_course_world_model/elevation.py:187-221 | Every closed cell holding a covered point gives the same elevation: the surface is continuous across cell edges. |
| Elevation.NodesAreExact | simulation/nxt_course_world_model/elevation.py:209-221 | At a node the elevation is the node's height. |
| Elevation.CellContains | simulation/nxt_course_world_model/elevation.py:187-196 | A covered coordinate lies in the closed cell chosen for it, the far edge included. |
| SegmentMeetings.IntersectExactly | simulation/nxt_course_world_model/geometry.py:136-157 | For all segments, those of length zero included, the test holds iff the closed segments share a point. |
| SegmentMeetings.ParamsExactly | simulation/nxt_course_world_model/geometry.py:423-452 | A parameter lies in the returned stretch iff its point is shared, also when the other segment is one point. |
| SegmentMeetings.IntersectAgreesWithParams | simulation/nxt_course_world_model/geometry.py:423-452 | The intersection test holds iff there is an intersection parameter. |
| SegmentMeetings.OverlapExactly | simulation/nxt_course_world_model/geometry.py:455-476 | An overlap interval exists iff two different points are shared. |
| SegmentMeetings.OverlapIsSymmetric | simulation/nxt_course_world_model/geometry.py:455-476 | Overlap of positive length is mutual. |
| Segments.OnSegmentExactly | simulation/nxt_course_world_model/geometry.py:379-384 | A point is on the closed segment iff it is collinear and inside the box, for segments of length zero as well. |
| Rings.ProperCrossExactly | simulation/nxt_course_world_model/geometry.py:387-397 | The strict test holds iff the segments cross, not parallel, at a point interior to both. |
| Rings.RingsInteriorsOverlap | simulation/nxt_course_world_model/geometry.py:519-580 | The nested edge scans with early exits decide exactly the specified disjunction of crossing, containment, shared side and split-edge conditions. |
| RingSharing.OverlapExactlyShared | simulation/nxt_course_world_model/geometry.py:519-580 | For every two valid rings the decision holds iff they share interior area, that is iff all points of some box lie strictly inside both: the documented promise, both ways. |
| RingSharing.SharedIsFound | simulation/nxt_course_world_model/geometry.py:519-534 | The decision is complete: if any point lies strictly inside both valid rings, then edges cross, or a boundary point of one lies strictly inside the other, or edges run side by side. |
| RingSharing.SideBySideShares | simulation/nxt_course_world_model/geometry.py:455-496 | Edges that share a piece with both inward normals on the same side do bound shared interior. |
| RingSharing.NormalPointsInside | simulation/nxt_course_world_model/geometry.py:479-496 | The normal chosen by the sign of the signed area points inward: from every inner point of an edge all short enough steps along it lead strictly inside and all short enough steps against it do not. |
| RingCorners.InnerSideIsTurn | simulation/nxt_course_world_model/geometry.py:479-487 | On every edge of every valid ring the inner side is the left one iff the signed area is positive. |
| RingCorners.NeighboursAgree | simulation/nxt_course_world_model/geometry.py:400-420 | Around a corner of a valid ring, turning either way or straight on, the inner side stays on the same hand. |
| RingArea.AreaFromAnywhere | simulation/nxt_course_world_model/geometry.py:222-233 | The signed area is the same summed from any origin. |
| RingArea.UnderGrows | simulation/nxt_course_world_model/geometry.py:222-233 | Swept upwards, the signed area below a height never falls if the left sides are the inner ones, and never rises if the right sides are. |
| RingSides.SideTold | simulation/nxt_course_world_model/geometry.py:400-420 | Beside any inner point of an edge, reached without touching another edge, a point is strictly inside iff it is on that edge's inner hand, the same hand along the whole edge. |
| RingValidation.Validate | simulation/nxt_course_world_model/geometry.py:198-211 | The constructor accepts exactly the valid rings, and otherwise names the first failed check: too few vertices, a repeated one, the last repeating the first, an intersection of edges that are no neighbours, no area. |
| RingValidation.TwiceSignedArea | simulation/nxt_course_world_model/geometry.py:222-233 | The loop over offsets from the first vertex computes the signed area. |
| RingValidation.Contains | simulation/nxt_course_world_model/geometry.py:267-287 | The closed test with its early exit by bounds holds iff the point is on the boundary or strictly inside. |
| RingChains.ChainProperlyCrossesRing | simulation/nxt_course_world_model/geometry.py:583-609 | The nested scan finds exactly whether some edge of an open or closed chain properly crosses an edge of the ring. |
| RingChains.RequireWithinDeclaredHole | simulation/nxt_course_world_model/model.py:249-279 | An unknown hole, the first uncovered vertex or a crossing is reported, in that order; otherwise the feature is accepted. |
| RingChains.CrossingLeaves | simulation/nxt_course_world_model/geometry.py:590-597 | A segment that properly crosses an edge of a valid ring has a point strictly inside and a point not even on the boundary. |
| RingChains.StaysExactly | simulation/nxt_course_world_model/model.py:257-263 | A feature lies within its hole with every point of every edge iff the check accepts it and no part into which the ring splits an edge has its middle outside. |
| RingChains.SurfaceWithinExactly | simulation/nxt_course_world_model/model.py:257-263 | A whole surface, inner points included, lies within its hole iff the check accepts it and no part of its boundary has its middle outside. |
| RingChains.InsideCovered | simulation/nxt_course_world_model/model.py:257-263 | If the hole covers the boundary of a surface it covers every point inside it. |
| RingChains.NotchIsMissed | simulation/nxt_course_world_model/model.py:257-263 | The check alone does not suffice: an accepted feature across the notch of a valid ring has points outside it. |
| RingChains.SegmentStaysExactly | simulation/nxt_course_world_model/model.py:257-263 | A segment stays within a ring iff its ends and the middles of the parts the ring splits it into do. |
| RingOverlap.FoundOverlapIsReal | simulation/nxt_course_world_model/geometry.py:519-580 | For valid simple rings a proper crossing, a strictly contained vertex or a strictly contained part of an edge is never a false alarm: every point of some small box lies strictly inside both rings. |
| RingOverlap.ApartBoundsShareNothing | simulation/nxt_course_world_model/geometry.py:536-552 | The early exit is right: rings whose bounds are separate share no strictly inner point and no area. |
| RingDecision.DecisionExactly | simulation/nxt_course_world_model/geometry.py:519-580 | For valid simple rings the whole decision holds iff a boundary point of one ring lies strictly inside the other, or edges run side by side. |
| RingDecision.PartExactly | simulation/nxt_course_world_model/geometry.py:498-516 | The test of the split edge's middles holds iff some inner point of the edge lies strictly inside the ring. |
| RingDecision.BoundaryExactly | simulation/nxt_course_world_model/geometry.py:554-580 | The vertex test and the split-edge test together find exactly the boundary points that lie strictly inside the other ring. |
| RingDecision.SameSideMeaning | simulation/nxt_course_world_model/geometry.py:455-496 | Two edges count as side by side iff they share a piece and head the same way just when the rings turn the same way. |
| RingOverlap.InnerPointsOnOneEdge | simulation/nxt_course_world_model/geometry.py:198-247 | In a ring that passes validation an inner point of an edge lies on no other edge, neighbours included. |
| RingOverlap.BesideEdge | simulation/nxt_course_world_model/geometry.py:400-420 | Within any distance of an inner point of an edge, of the two points reached by a step across it exactly one is strictly inside the ring. |
| Rings.OverlapDecisionIsSymmetric | simulation/nxt_course_world_model/geometry.py:519-580 | The decision does not depend on the order of the two rings. |
| Rings.RingContainsStrictly | simulation/nxt_course_world_model/geometry.py:400-420 | The boundary scan and the crossing loop decide strictly-inside as defined: not on the boundary and odd parity of crossings of the ray to the right; the RingParity rows say what that means. |
| RingRegions.TwoRegions | simulation/nxt_course_world_model/geometry.py:400-420 | A valid ring divides the plane in exactly two: two points off it are joined by a path that touches no edge iff the test gives both the same verdict. |
| RingRegions.InsideIsEnclosedExactly | simulation/nxt_course_world_model/geometry.py:400-420 | The strict containment test is exact for every valid ring: off the boundary a point is inside iff every path from it to a point beside all vertices touches an edge. |
| RingParity.RayCrossesIsCrossing | simulation/nxt_course_world_model/geometry.py:412-418 | The quotient test of one edge holds iff the point is at the height of the half-open edge and strictly left of it walked upwards. |
| RingParity.CrossingsFlipParity | simulation/nxt_course_world_model/geometry.py:400-420 | A step in any direction between two points, touching no edge except by crossing it properly, changes the parity iff it crosses an odd number of edges. |
| RingParity.PathStays | simulation/nxt_course_world_model/geometry.py:400-420 | Along any path that touches no edge the strictly-inside verdict is the same at both ends. |
| RingParity.InsideIsEnclosed | simulation/nxt_course_world_model/geometry.py:400-420 | Every path from a strictly contained point to a point beside all vertices touches an edge of the ring. |
| RingParity.InsideMeansOddCrossings | simulation/nxt_course_world_model/geometry.py:400-420 | Off the boundary, strictly inside holds iff the way to any point beside the ring, in any direction that touches no vertex, crosses an odd number of edges: the direction of the ray does not matter. |
| StockProjections.ProjectStockout | simulation/nxt_pilot_ops/projection.py:23-90 | Errors in the source's order; otherwise the answer is the first instant, among all real instants up to the horizon, at which stock is used up and demand goes on, or drains exactly with no arrival; None iff there is none. |
| StockProjections.Pass | simulation/nxt_pilot_ops/projection.py:70-90 | The pass over the event times finds that first instant. |
| StockProjections.ProjectionIsUnique | simulation/nxt_pilot_ops/projection.py:31-37 | At most one answer fits a plan. |
| StockProjections.DemandIsMetUntil | simulation/nxt_pilot_ops/projection.py:70-90 | Cumulative demand never exceeds initial stock plus arrivals up to the answer, or up to the horizon for None. |
| StockProjections.DemandIsMissedAfter | simulation/nxt_pilot_ops/projection.py:79-82 | Unless the answer is an exact drain, demand exceeds supply at every later instant before the next arrival. |
| StockProjections.MoreSupplyLastsLonger | simulation/tests/pilot_ops/test_properties.py:16-60 | More initial balls or more committed batches never bring a stock-out in or forward. |
| StockoutEstimates.EstimateStockout | simulation/nxt_facility/analysis.py:63-98 | The walk returns the exact first zero of the piecewise-linear stock curve, None iff the curve stays positive, and names what limits washing in that bucket. |
| StockoutEstimates.StockoutIsUnique | simulation/nxt_facility/analysis.py:63-98 | At most one answer fits a snapshot. |
| StockoutEstimates.BetterSuppliedLastsLonger | simulation/nxt_facility/analysis.py:63-98 | The ETA never decreases when clean stock, washable supply or throughput grows and never increases when demand grows, None counting as infinite. |
| StockoutEstimates.NextBucketWashed | simulation/nxt_facility/analysis.py:83-96 | Washing bucket by bucket at the average feasible rate adds up to the smaller of supply and capacity; supply never goes below zero. |
| ChannelGuarantees.EveryChannelIsCovered | simulation/nxt_edge_observation/adapters.py:1100-1196 | For every batch the conversion yields exactly one observation per commissioned channel, none on another, each with a value iff it is not missing. |
| ChannelGuarantees.DiagnosticsAreHonest | simulation/nxt_edge_observation/adapters.py:121-222 | The accepted channels are exactly those not missing, and every missing one is named by a rejection. |
| ChannelGuarantees.ReadingStandsIff | simulation/nxt_edge_observation/adapters.py:121-222 | A channel carries a reading iff exactly one sample act publishes one there and no other act claims or demotes the channel; it is then that reading. |
| ChannelReadings.ReadingExactly | simulation/nxt_edge_observation/adapters.py:328-1016 | A commissioned channel carries a reading iff exactly one raw reading of the batch is addressed to it and that one is in order, calibrated and allowed; and it then carries that sample's value, time and freshness. |
| ChannelValues.RobotJudged | simulation/nxt_edge_observation/adapters.py:925-1016 | Channel robot.<id>.<field> may carry exactly that field of the sample: the same text within its vocabulary, the same flag, the same non-negative count, the battery as a fraction to six places. |
| ChannelValues.InputJudged | simulation/nxt_edge_observation/adapters.py:600-763 | A digital input may carry exactly its raw state under the declared polarity, as a flag or as one or none, unless an impossible pair is asserted. |
| ChannelValues.LoadCellJudged | simulation/nxt_edge_observation/adapters.py:338-526 | A load cell may carry exactly the number of balls that weigh raw minus tare, rounded to a whole count or to six places, within the capacity and under the commissioned calibration. |
| ChannelValues.CalibrationRefusals | simulation/nxt_edge_observation/adapters.py:402-445 | A load-cell sample without its required calibration is refused as missing it, and one with another calibration, or with one where none belongs, as a mismatch. |
| ChannelAdapters.LoadCellReadingIsEarned | simulation/nxt_edge_observation/adapters.py:338-526 | A trusted load-cell reading has a non-negative amount within capacity, a whole number on count channels, and the commissioned calibration. |
| ChannelAdapters.RoundsToNearest | simulation/nxt_edge_observation/adapters.py:500-508 | Rounding goes to a nearest whole number, halves to the even one. |
| ChannelCoverage.Convert | simulation/nxt_edge_observation/adapters.py:1100-1146 | The kit's loops over samples, devices and robots perform exactly the specified acts, then close the gaps. |
| ChannelCoverage.ConvertSnapshot | simulation/nxt_edge_observation/adapters.py:544-763 | The digital adapter rejects impossible pairs first, then each input in order, a repeated sensor being rejected and demoted. |
| ChannelCoverage.ConvertRobot | simulation/nxt_edge_observation/adapters.py:781-875 | The robot adapter publishes its nine fields in order; which value each channel carries is ChannelReadings.ReadingExactly. |
| ChannelCoverage.ReconcileSilentDevices | simulation/nxt_edge_observation/adapters.py:1148-1196 | Every unclaimed commissioned channel gets one missing observation, with a NO_SAMPLE rejection unless a rejection already names it. |
| ChannelCollectors.Collector.Emit | simulation/nxt_edge_observation/adapters.py:121-171 | A first claim is recorded; a second one is rejected and demotes the channel. |
| ChannelCollectors.Collector.DemoteToMissing | simulation/nxt_edge_observation/adapters.py:200-222 | Only the named channel loses its value and its acceptance. |
| ChannelCollectors.EmittingKeepsSound | simulation/nxt_edge_observation/adapters.py:121-222 | Claims, observations, acceptances and rejections stay in step for every channel. |

## Left out

- Transport, processes, wall clocks, randomness, file locks and fsync: steps are atomic inside the lock, crashes keep a line prefix, times and nonces are supplied.
- JSON decoding, field-shape validation, regular expressions, timestamp text, message templates and display summaries: messages are typed values or marked undecodable; a codec is known only by its round trip.
- Record ids and hash chaining: the journal model compares records by content and sequence.
- The order of the `reasons` list of a task and its `applied` list: reasons are a set, the list is not kept.
- `events_by_boot`, the total execution counter and other summaries that are functions of what is modelled.
- The text of the status heartbeat a robot publishes; its declared condition is modelled.
- `result_verification` and other labels that copy a value of the record.
- RobotCores.RobotCore.OnStart: task views are values, so aliasing between the scratch copy and the live view cannot arise and is not modelled.
- Operator ids and note texts: validation is a flag of the decision.
- Mid-line torn writes of the evaluation journal file: a line is sound or corrupt there; byte-level tearing is modelled for the task journal in Journals.
- AgentRuntimes.AgentRuntime.RunOnce: ManagerDecisionQueue, status objects and the bounded run loop with its failure policies are not part of the model; the ledger accepts fresh events.
- AgentRuntimes.AgentRuntime.RecoverStores: stores hold typed records, so the `evidence_verification_failed` outcome of an unreadable ledger or journal file does not arise there; verification of the journal file is modelled in AgentJournals.
- AgentJournals.EvaluationJournal.Append: the file is a sequence of lines, so a rewrite that moves line boundaries under the verified byte offset is not modelled.
- Concurrent use of one checkpoint store by several runtimes: the compare-and-save method is modelled, interleavings of two runtimes are not.
- Floating-point rounding, and the bisection fallback of the root search: in exact arithmetic the closed-form candidates always suffice, which is what ClearanceRoots proves.
- `slope_at` and the map query wrappers: they would add only easy members.
- Distances, polylines, the coordinate magnitude limit and the decimal reading of coordinates in the geometry module, and the rest of the world model's constructor: they would add only easy members.
- StockProjections.ProjectStockout: type errors and non-finite numbers are not modelled, and the grouping of arrivals in a dictionary is a function of the batch list; the unreachable check that events move backward is left out.
- Facility classification thresholds and indicators: one-branch expressions.
- ChannelCoverage.Convert: the samples of a batch are taken in the order given instead of sorted by id, and the report's sorting is not modelled; every theorem holds for any order.
- ChannelAdapters.LoadCellReadingIsEarned: a quotient that overflows to infinity cannot arise over the reals, so that one rejection is not modelled.
- Channel kinds are a field of the binding; the table of channel-name patterns, source types, source ids, confidences and detail texts are not part of this model.
- Site Runtime, guardian, ledger, assembler and simulator internals, `nxt_memory`, briefings, the replay and demo user interfaces and the TypeScript index are not part of this model.
