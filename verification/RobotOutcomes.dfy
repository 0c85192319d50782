/** What a robot reports of a task is what its journal records of it: in every run, and of work a restart interrupted. */
module RobotOutcomes {
  import opened Common
  import opened TaskContracts
  import opened RobotViews
  import opened RobotExecutor
  import opened RobotLegality
  import opened RobotBatches
  import opened RobotRestart
  import opened RobotRuns
  import opened RobotSafety

  // -- the facts the journal holds about a task

  /** The outcome the journal records last for the task's execution. */
  function Completion(journal: seq<RobotRecord>, id: TaskId): Option<Outcome> {
    if journal == [] then None
    else
      var r := journal[|journal| - 1];
      if r.ExecutionCompleted? && r.completedTask == id then Some(r.outcome) else Completion(journal[..|journal| - 1], id)
  }

  /** The view's facts about a task are the journal's. */
  ghost predicate FactsKept(journal: seq<RobotRecord>, s: RobotState, id: TaskId) {
    && (id !in s.tasks ==> Completion(journal, id) == None)
    && (id in s.tasks ==>
          && s.tasks[id].outcome == Completion(journal, id)
          && (s.tasks[id].decision.Some? ==> TaskDecision(id, s.tasks[id].decision.value, s.tasks[id].reason) in journal))
  }

  lemma FactsStep(journal: seq<RobotRecord>, d: Durable, r: RobotRecord, id: TaskId)
    requires Legal(d, r) && FactsKept(journal, d.view, id)
    ensures FactsKept(journal + [r], Advance(d, r).view, id)
  {
    hide LegalEvent;
    assert (journal + [r])[..|journal|] == journal;
    forall x | x in journal ensures x in journal + [r] {}
    assert r in journal + [r];
  }

  lemma {:induction false} FactsAt(journal: seq<RobotRecord>, n: nat, id: TaskId)
    requires LegalJournal(journal) && n <= |journal|
    ensures FactsKept(journal[..n], At(journal, n).view, id)
    decreases n
  {
    hide Legal, Advance, LegalJournal, StateOk;
    if n == 0 {
      NothingAtStart(journal);
      assert journal[..0] == [];
    } else {
      hide At, FactsKept;
      FactsAt(journal, n - 1, id);
      StepAt(journal, n - 1);
      FactsStep(journal[..n - 1], At(journal, n - 1), journal[n - 1], id);
      assert journal[..n] == journal[..n - 1] + [journal[n - 1]];
    }
  }

  /** The journal's start count is the view's. */
  lemma StartsAt(journal: seq<RobotRecord>, n: nat, id: TaskId)
    requires LegalJournal(journal) && n <= |journal| && id in At(journal, n).view.tasks
    ensures Starts(journal[..n], id) == if At(journal, n).view.tasks[id].executionStarted then 1 else 0
  {
    StartsCounted(journal, n, id);
    InitiallySound();
    LegalPrefix(EMPTY, journal, n);
    LegalBatchKeepsState(EMPTY, journal[..n]);
    hide TasksOk, ProtectionOk, Starts, Executions, AdvanceAll;
  }

  // -- nothing happens to a finished task

  ghost predicate Finished(s: RobotState, id: TaskId) { id in s.tasks && s.tasks[id].IsTerminal() }

  lemma FinishedStep(d: Durable, r: RobotRecord, id: TaskId)
    requires StateOk(d.view) && Legal(d, r) && Finished(d.view, id)
    ensures Finished(Advance(d, r).view, id) && r != ExecutionStarted(id) && !(r.ExecutionCompleted? && r.completedTask == id)
  {
    hide TasksOk, CountsOk, TrueReason;
  }

  /** Its starts and its recorded outcome are final. */
  lemma {:induction false} FinishedIsFinal(journal: seq<RobotRecord>, m: nat, n: nat, id: TaskId)
    requires LegalJournal(journal) && m <= n <= |journal| && Finished(At(journal, m).view, id)
    ensures Finished(At(journal, n).view, id)
    ensures Starts(journal[..n], id) == Starts(journal[..m], id) && Completion(journal[..n], id) == Completion(journal[..m], id)
    decreases n
  {
    hide *;
    if m < n {
      FinishedIsFinal(journal, m, n - 1, id);
      StepAt(journal, n - 1);
      FinishedStep(At(journal, n - 1), journal[n - 1], id);
      NoWorkAdded(journal, n, id);
    }
  }

  lemma NoWorkAdded(journal: seq<RobotRecord>, n: nat, id: TaskId)
    requires 0 < n <= |journal| && journal[n - 1] != ExecutionStarted(id)
    requires !(journal[n - 1].ExecutionCompleted? && journal[n - 1].completedTask == id)
    ensures Starts(journal[..n], id) == Starts(journal[..n - 1], id) && Completion(journal[..n], id) == Completion(journal[..n - 1], id)
  {
    assert journal[..n][..n - 1] == journal[..n - 1];
  }

  lemma {:induction false} StartsGrow(journal: seq<RobotRecord>, m: nat, n: nat, id: TaskId)
    requires m <= n <= |journal|
    ensures Starts(journal[..m], id) <= Starts(journal[..n], id)
    decreases n
  {
    if m < n {
      StartsGrow(journal, m, n - 1, id);
      StartsSnoc(journal, n, id);
    }
  }

  // -- every report is borne out

  /** The journal's own facts about the task are the ones the event reports. */
  ghost predicate BorneOut(journal: seq<RobotRecord>, e: TaskEvent) {
    var id := e.taskId;
    match e.kind
    case Accepted => e.reason.None? && exists reason :: TaskDecision(id, true, reason) in journal
    case Rejected => TaskDecision(id, false, e.reason) in journal && Starts(journal, id) == 0 && Completion(journal, id).None?
    case Progress => e.reason.None? && Starts(journal, id) == 1
    case AssistanceRequired => HelpReason(e.reason) && Starts(journal, id) == 1
    case Succeeded => e.reason.None? && Starts(journal, id) == 1 && Completion(journal, id) == Some(OutcomeSucceeded)
    case Failed =>
      || (e.reason == Some(NotStartedAfterRestart) && Starts(journal, id) == 0 && Completion(journal, id).None?)
      || (e.reason == Some(CannotContinue) && Completion(journal, id) == Some(OutcomeFailed))
    case Inconclusive => e.reason == Some(InterruptedUnknownOutcome) && Starts(journal, id) == 1 && Completion(journal, id).None?
  }

  /** What the view must say of the task an event is about. */
  ghost predicate ViewBearsOut(t: RobotTask, e: TaskEvent) {
    && (t.decision == Some(false) <==> e.kind.Rejected?) && t.decision.Some?
    && match e.kind
       case Accepted => e.reason.None?
       case Rejected => e.reason == t.reason && !t.executionStarted && t.outcome.None?
       case Progress => e.reason.None? && t.executionStarted
       case AssistanceRequired => HelpReason(e.reason) && t.executionStarted
       case Succeeded => e.reason.None? && t.executionStarted && t.outcome == Some(OutcomeSucceeded)
       case Failed =>
         || (e.reason == Some(NotStartedAfterRestart) && !t.executionStarted && t.outcome.None?)
         || (e.reason == Some(CannotContinue) && t.outcome == Some(OutcomeFailed))
       case Inconclusive => e.reason == Some(InterruptedUnknownOutcome) && t.executionStarted && t.outcome.None?
  }

  lemma LegalReport(d: Durable, e: TaskEvent)
    requires StateOk(d.view) && Legal(d, TaskEventPersisted(e)) && e.eventSequence >= 1
    ensures e.taskId in d.view.tasks && ViewBearsOut(d.view.tasks[e.taskId], e)
  {
    assert TaskOk(d.view.token, d.view.bootSequence, e.taskId, d.view.tasks[e.taskId]);
    hide CountsOk, ProtectionOk, EventsOk;
  }

  lemma TerminalFinishes(d: Durable, e: TaskEvent)
    requires Legal(d, TaskEventPersisted(e)) && e.eventSequence >= 1 && IsTerminalKind(e.kind)
    ensures Finished(Advance(d, TaskEventPersisted(e)).view, e.taskId)
  {
    hide LegalEvent, DeriveCondition;
  }

  /** After a terminal event nothing adds to what the journal holds of the task. */
  lemma FinalWhenWritten(journal: seq<RobotRecord>, i: nat, id: TaskId)
    requires LegalJournal(journal) && i < |journal| && journal[i].TaskEventPersisted? && Finished(At(journal, i + 1).view, id)
    ensures Starts(journal, id) == Starts(journal[..i], id) && Completion(journal, id) == Completion(journal[..i], id)
  {
    hide *;
    FinishedIsFinal(journal, i + 1, |journal|, id);
    NoWorkAdded(journal, i + 1, id);
    assert journal[..|journal|] == journal;
  }

  lemma StartsSoFar(journal: seq<RobotRecord>, i: nat, id: TaskId)
    requires LegalJournal(journal) && i <= |journal|
    ensures Starts(journal[..i], id) <= Starts(journal, id) <= 1
  {
    hide *;
    StartsGrow(journal, i, |journal|, id);
    assert journal[..|journal|] == journal;
    StartsAtMostOnce(journal, id);
  }

  /** The event's facts at the moment it was written are the facts of the whole journal. */
  lemma ReportBorneOut(journal: seq<RobotRecord>, i: nat)
    requires LegalJournal(journal) && i < |journal| && journal[i].TaskEventPersisted? && journal[i].event.eventSequence >= 1
    ensures BorneOut(journal, journal[i].event)
  {
    var e := journal[i].event;
    hide *;
    StepAt(journal, i);
    var d := At(journal, i);
    LegalReport(d, e);
    FactsAt(journal, i, e.taskId);
    StartsAt(journal, i, e.taskId);
    StartsSoFar(journal, i, e.taskId);
    if IsTerminalKind(e.kind) { TerminalFinishes(d, e); FinalWhenWritten(journal, i, e.taskId); }
    KeptInWhole(journal, i);
    BornOutByFacts(journal, i, d.view, e);
  }

  lemma StartsAtMostOnce(journal: seq<RobotRecord>, id: TaskId)
    requires LegalJournal(journal)
    ensures Starts(journal, id) <= 1
  {
    FinalState(journal);
    StartsCounted(journal, |journal|, id);
    assert journal[..|journal|] == journal;
    hide TasksOk, ProtectionOk, At, DurableOf;
  }

  lemma KeptInWhole(journal: seq<RobotRecord>, i: nat)
    requires i <= |journal|
    ensures forall r :: r in journal[..i] ==> r in journal
  {
  }

  lemma BornOutByFacts(journal: seq<RobotRecord>, i: nat, s: RobotState, e: TaskEvent)
    requires i < |journal| && e.taskId in s.tasks && ViewBearsOut(s.tasks[e.taskId], e) && FactsKept(journal[..i], s, e.taskId)
    requires Starts(journal[..i], e.taskId) == if s.tasks[e.taskId].executionStarted then 1 else 0
    requires Starts(journal[..i], e.taskId) <= Starts(journal, e.taskId) <= 1
    requires IsTerminalKind(e.kind) ==>
               Starts(journal, e.taskId) == Starts(journal[..i], e.taskId) && Completion(journal, e.taskId) == Completion(journal[..i], e.taskId)
    requires forall r :: r in journal[..i] ==> r in journal
    ensures BorneOut(journal, e)
  {
    hide Starts, Completion;
  }

  /** In every run each report of a task's history is borne out by the journal; so a task reported as never started never starts. */
  lemma ReportsAreRecorded(cfg: RobotConfig, choices: seq<Choice>, i: nat)
    requires i < |Run(cfg, choices).journal|
    requires Run(cfg, choices).journal[i].TaskEventPersisted? && Run(cfg, choices).journal[i].event.eventSequence >= 1
    ensures BorneOut(Run(cfg, choices).journal, Run(cfg, choices).journal[i].event)
    ensures Run(cfg, choices).journal[i].event.reason == Some(NotStartedAfterRestart) ==>
              Starts(Run(cfg, choices).journal, Run(cfg, choices).journal[i].event.taskId) == 0
  {
    RunIsLegal(cfg, choices);
    hide Run, LegalJournal, Starts, Completion;
    ReportBorneOut(Run(cfg, choices).journal, i);
  }

  // -- a whole restart settles interrupted work

  /** A record of a decision or of an event; no execution step. */
  predicate NoWork(r: RobotRecord) { !r.ExecutionStarted? && !r.ExecutionProgress? && !r.ExecutionCompleted? }

  lemma {:induction false} PassWritesNoWork(pass: nat, s: RobotState, cfg: RobotConfig, behavior: Behavior, ids: seq<TaskId>, now: Time)
    requires 1 <= pass <= 3
    ensures forall r :: r in Pass(pass, s, cfg, behavior, ids, now) ==> NoWork(r)
    decreases |ids|
  {
    if ids != [] {
      var first := PassRecords(pass, s, cfg, behavior, ids[0], now);
      assert forall r :: r in first ==> NoWork(r) by { hide RefusalReason, RecoveryEvent, Event; }
      hide PassRecords, NoWork;
      PassWritesNoWork(pass, ApplyAll(s, first), cfg, behavior, ids[1..], now);
    }
  }

  /** A start batch holds a boot record and records no work. */
  lemma StartWritesNoWork(d: Durable, cfg: RobotConfig, behavior: Behavior, now: Time, initialize: bool, nonce: string)
    requires StartBatch(d.view, cfg, behavior, now, initialize, nonce).Ok?
    ensures var batch := StartBatch(d.view, cfg, behavior, now, initialize, nonce).value;
            (forall r :: r in batch ==> NoWork(r)) && exists r :: r in batch && r.RobotStarted?
  {
    var boot := BootRecords(d.view, cfg, now, initialize, nonce);
    assert forall r :: r in boot ==> NoWork(r);
    assert boot[|boot| - 1].RobotStarted?;
    hide NoWork, BootRecords, StartBatch;
    var d0 := AdvanceAll(d, boot);
    var ids := Ascending(d0.view.tasks.Keys);
    var p1 := Pass(1, d0.view, cfg, behavior, ids, now);
    var d1 := AdvanceAll(d0, p1);
    var p2 := Pass(2, d1.view, cfg, behavior, ids, now);
    var d2 := AdvanceAll(d1, p2);
    StartBatchParts(d, cfg, behavior, now, initialize, nonce);
    PassWritesNoWork(1, d0.view, cfg, behavior, ids, now);
    PassWritesNoWork(2, d1.view, cfg, behavior, ids, now);
    PassWritesNoWork(3, d2.view, cfg, behavior, ids, now);
  }

  lemma {:induction false} QuietFacts(before: seq<RobotRecord>, batch: seq<RobotRecord>, id: TaskId)
    requires forall r :: r in batch ==> NoWork(r)
    ensures Starts(before + batch, id) == Starts(before, id) && Completion(before + batch, id) == Completion(before, id)
    decreases |batch|
  {
    if batch == [] {
      assert before + batch == before;
    } else {
      var front, last := batch[..|batch| - 1], batch[|batch| - 1];
      assert before + batch == (before + front) + [last];
      assert last in batch && forall r :: r in front ==> r in batch;
      QuietFacts(before, front, id);
      assert (before + batch)[..|before + batch| - 1] == before + front;
    }
  }

  /** A decision is never undone. */
  lemma DecisionValueKept(d: Durable, r: RobotRecord, id: TaskId)
    requires Legal(d, r) && id in d.view.tasks && d.view.tasks[id].decision.Some?
    ensures id in Advance(d, r).view.tasks && Advance(d, r).view.tasks[id].decision == d.view.tasks[id].decision
  {
    hide LegalEvent;
  }

  lemma {:induction false} DecisionStays(journal: seq<RobotRecord>, m: nat, n: nat, id: TaskId)
    requires LegalJournal(journal) && m <= n <= |journal| && id in At(journal, m).view.tasks && At(journal, m).view.tasks[id].decision.Some?
    ensures id in At(journal, n).view.tasks && At(journal, n).view.tasks[id].decision == At(journal, m).view.tasks[id].decision
    decreases n
  {
    hide *;
    if m < n {
      DecisionStays(journal, m, n - 1, id);
      StepAt(journal, n - 1);
      DecisionValueKept(At(journal, n - 1), journal[n - 1], id);
    }
  }

  /** The record ends the task this way. */
  predicate Ends(r: RobotRecord, id: TaskId, kind: EventKind) {
    r.TaskEventPersisted? && r.event.taskId == id && r.event.eventSequence >= 1 && r.event.kind == kind && IsTerminalKind(kind)
  }

  predicate EndedAs(s: RobotState, id: TaskId, kind: EventKind) { id in s.tasks && s.tasks[id].terminal == Some(kind) }

  /** Only a terminal event of the task itself sets how it ended. */
  lemma TerminalStep(d: Durable, r: RobotRecord, id: TaskId)
    requires Legal(d, r) && id in Advance(d, r).view.tasks
    ensures Advance(d, r).view.tasks[id].terminal ==
              if r.TaskEventPersisted? && r.event.eventSequence >= 1 && r.event.taskId == id && IsTerminalKind(r.event.kind) then Some(r.event.kind)
              else if id in d.view.tasks then d.view.tasks[id].terminal else None
  {
    hide LegalEvent, DeriveCondition;
  }

  lemma EventOfOpenTask(d: Durable, e: TaskEvent)
    requires StateOk(d.view) && Legal(d, TaskEventPersisted(e)) && e.eventSequence >= 1
    ensures !Finished(d.view, e.taskId)
  {
    assert TaskOk(d.view.token, d.view.bootSequence, e.taskId, d.view.tasks[e.taskId]);
    hide CountsOk, ProtectionOk, EventsOk, TrueReason;
  }

  lemma EndStep(d: Durable, r: RobotRecord, id: TaskId, kind: EventKind)
    requires StateOk(d.view) && Legal(d, r) && EndedAs(Advance(d, r).view, id, kind)
    ensures EndedAs(d.view, id, kind) || (Ends(r, id, kind) && !Finished(d.view, id))
  {
    hide StateOk, Legal, Advance;
    TerminalStep(d, r, id);
    if r.TaskEventPersisted? && r.event.eventSequence >= 1 { EventOfOpenTask(d, r.event); }
  }

  lemma {:induction false} EndsAt(journal: seq<RobotRecord>, m: nat, n: nat, id: TaskId, kind: EventKind) returns (k: nat)
    requires LegalJournal(journal) && m < n <= |journal| && !EndedAs(At(journal, m).view, id, kind) && EndedAs(At(journal, n).view, id, kind)
    ensures m <= k < n && Ends(journal[k], id, kind)
    decreases n
  {
    hide *;
    StepAt(journal, n - 1);
    var d := At(journal, n - 1);
    EndStep(d, journal[n - 1], id, kind);
    if EndedAs(d.view, id, kind) { k := EndsAt(journal, m, n - 1, id, kind); } else { k := n - 1; }
  }

  /** How work the restart interrupted must be reported, from what the journal recorded of it before. */
  predicate RestartReport(journal: seq<RobotRecord>, id: TaskId, e: TaskEvent) {
    match Completion(journal, id)
    case Some(OutcomeSucceeded) => e.kind.Succeeded? && e.reason.None?
    case Some(OutcomeFailed) => e.kind.Failed? && e.reason == Some(CannotContinue)
    case None =>
      if Starts(journal, id) == 0 then e.kind.Failed? && e.reason == Some(NotStartedAfterRestart)
      else e.kind.Inconclusive? && e.reason == Some(InterruptedUnknownOutcome)
  }

  lemma ReportOfRestart(before: seq<RobotRecord>, journal: seq<RobotRecord>, e: TaskEvent)
    requires BorneOut(journal, e) && IsTerminalKind(e.kind) && !e.kind.Rejected?
    requires Starts(journal, e.taskId) == Starts(before, e.taskId) && Completion(journal, e.taskId) == Completion(before, e.taskId)
    ensures RestartReport(before, e.taskId, e)
  {
    hide Starts, Completion;
  }

  /** After a whole start nothing accepted before it is still open. */
  lemma NothingLeftOpen(before: seq<RobotRecord>, batch: seq<RobotRecord>, id: TaskId)
    requires var journal := before + batch;
             && LegalJournal(journal) && LegalJournal(before) && Booted(DurableOf(journal))
             && exists r :: r in batch && r.RobotStarted?
    requires id in DurableOf(before).view.tasks && DurableOf(before).view.tasks[id].decision.Some?
    ensures id in DurableOf(before + batch).view.tasks ==> !DurableOf(before + batch).view.tasks[id].Active()
  {
    var journal := before + batch;
    if id in DurableOf(journal).view.tasks && DurableOf(journal).view.tasks[id].Active() {
      assert id in DurableOf(journal).acceptedThisBoot;
      hide *;
      AtEnd(journal);
      var p := AcceptedThisBootMeaning(journal, |journal|, id);
      var r :| r in batch && r.RobotStarted?;
      var b :| 0 <= b < |batch| && batch[b] == r;
      assert journal[|before| + b] == r;
      BootLiesAfter(journal, p, |before| + b);
      AtEnd(before);
      FactsAt(before, |before|, id);
      assert before[..|before|] == before;
      DecisionOnRecord(before, id);
      var q :| 0 <= q < |before| && before[q].TaskDecision? && before[q].decidedTask == id;
      assert journal[q] == before[q];
      OneDecisionPerTask(journal, p, q, id);
    }
  }

  lemma AtEnd(journal: seq<RobotRecord>)
    ensures At(journal, |journal|) == DurableOf(journal)
  {
    assert journal[..|journal|] == journal;
  }

  lemma BootLiesAfter(journal: seq<RobotRecord>, p: nat, b: nat)
    requires p < |journal| && b < |journal| && journal[b].RobotStarted? && NoBootBetween(journal, p, |journal|)
    ensures b < p
  {
  }

  lemma DecisionOnRecord(before: seq<RobotRecord>, id: TaskId)
    requires FactsKept(before, DurableOf(before).view, id) && id in DurableOf(before).view.tasks && DurableOf(before).view.tasks[id].decision.Some?
    ensures exists q :: 0 <= q < |before| && before[q].TaskDecision? && before[q].decidedTask == id
  {
    hide Completion, DurableOf;
  }

  /** The step is a whole start after this run: it was not refused and every line of its batch was kept. */
  ghost predicate WholeStart(cfg: RobotConfig, choices: seq<Choice>, c: Choice) {
    var robot := Run(cfg, choices);
    && c.step.Boot? && robot.process.Down?
    && StartBatch(DurableOf(robot.journal).view, cfg, c.step.behavior, c.step.now, c.step.initialize, c.step.nonce).Ok?
    && c.persisted >= |Batch(cfg, robot, c.step)|
  }

  lemma WholeStartTaken(cfg: RobotConfig, choices: seq<Choice>, c: Choice)
    requires WholeStart(cfg, choices, c)
    ensures var before, after := Run(cfg, choices).journal, Run(cfg, choices + [c]).journal;
            var batch := Batch(cfg, Run(cfg, choices), c.step);
            && after == before + batch && LegalJournal(before) && LegalJournal(after) && Booted(DurableOf(after))
            && batch != [] && (forall r :: r in batch ==> NoWork(r)) && exists r :: r in batch && r.RobotStarted?
  {
    var robot := Run(cfg, choices);
    assert (choices + [c])[..|choices|] == choices;
    RunIsLegal(cfg, choices);
    RunIsLegal(cfg, choices + [c]);
    FinalState(robot.journal);
    var d := DurableOf(robot.journal);
    hide LegalJournal, StartBatch, StateOk, Booted, LegalBatch, AdvanceAll, NoWork;
    StartWritesNoWork(d, cfg, c.step.behavior, c.step.now, c.step.initialize, c.step.nonce);
    StartLegal(d, cfg, c.step.behavior, c.step.now, c.step.initialize, c.step.nonce);
    LegalConcat(EMPTY, robot.journal, Batch(cfg, robot, c.step));
  }

  lemma AtPrefix(before: seq<RobotRecord>, batch: seq<RobotRecord>)
    ensures At(before + batch, |before|) == DurableOf(before) && At(before + batch, |before + batch|) == DurableOf(before + batch)
  {
    assert (before + batch)[..|before|] == before;
    AtEnd(before + batch);
  }

  lemma OpenTask(s: RobotState, id: TaskId)
    requires id in s.tasks && s.tasks[id].Active()
    ensures (forall kind :: !EndedAs(s, id, kind)) && s.tasks[id].decision == Some(true)
  {
  }

  lemma ClosedAccepted(s: RobotState, id: TaskId) returns (kind: EventKind)
    requires id in s.tasks && !s.tasks[id].Active() && s.tasks[id].decision == Some(true)
    ensures EndedAs(s, id, kind)
  {
    kind := s.tasks[id].terminal.value;
  }

  lemma NoRejectionOfAccepted(journal: seq<RobotRecord>, m: nat, k: nat, id: TaskId)
    requires LegalJournal(journal) && m <= k < |journal| && id in At(journal, m).view.tasks && At(journal, m).view.tasks[id].decision == Some(true)
    requires journal[k].TaskEventPersisted? && journal[k].event.taskId == id && journal[k].event.eventSequence >= 1
    ensures !journal[k].event.kind.Rejected?
  {
    hide *;
    DecisionStays(journal, m, k, id);
    StepAt(journal, k);
    LegalReport(At(journal, k), journal[k].event);
    NoRejection(At(journal, k).view.tasks[id], journal[k].event);
  }

  lemma NoRejection(t: RobotTask, e: TaskEvent)
    requires ViewBearsOut(t, e) && t.decision == Some(true)
    ensures !e.kind.Rejected?
  {
  }

  lemma EndsFacts(r: RobotRecord, id: TaskId, kind: EventKind)
    requires Ends(r, id, kind)
    ensures r.TaskEventPersisted? && r.event.taskId == id && r.event.eventSequence >= 1 && r.event.kind == kind && IsTerminalKind(kind)
  {
  }

  lemma EndedFacts(s: RobotState, id: TaskId, kind: EventKind)
    requires EndedAs(s, id, kind)
    ensures id in s.tasks && s.tasks[id].terminal == Some(kind)
  {
  }

  /** A whole start ends every accepted task it finds open, with the report its journal calls for. */
  lemma RestartSettles(cfg: RobotConfig, choices: seq<Choice>, c: Choice, id: TaskId) returns (k: nat)
    requires WholeStart(cfg, choices, c)
    requires id in DurableOf(Run(cfg, choices).journal).view.tasks && DurableOf(Run(cfg, choices).journal).view.tasks[id].Active()
    ensures var before, after := Run(cfg, choices).journal, Run(cfg, choices + [c]).journal;
            && |before| <= k < |after| && after[k].TaskEventPersisted? && after[k].event.taskId == id
            && RestartReport(before, id, after[k].event)
            && id in DurableOf(after).view.tasks && DurableOf(after).view.tasks[id].terminal == Some(after[k].event.kind)
  {
    var before, after := Run(cfg, choices).journal, Run(cfg, choices + [c]).journal;
    var batch := Batch(cfg, Run(cfg, choices), c.step);
    hide *;
    WholeStartTaken(cfg, choices, c);
    OpenTask(DurableOf(before).view, id);
    AtPrefix(before, batch);
    DecisionStays(after, |before|, |after|, id);
    NothingLeftOpen(before, batch, id);
    var kind := ClosedAccepted(DurableOf(after).view, id);
    k := EndsAt(after, |before|, |after|, id, kind);
    EndsFacts(after[k], id, kind);
    EndedFacts(DurableOf(after).view, id, kind);
    ReportBorneOut(after, k);
    QuietFacts(before, batch, id);
    NoRejectionOfAccepted(after, |before|, k, id);
    ReportOfRestart(before, after, after[k].event);
  }

  // -- every event is the robot's own

  predicate FromHere(cfg: RobotConfig, r: RobotRecord) {
    r.TaskEventPersisted? ==> r.event.scope == cfg.scope && r.event.robotId == cfg.robotId
  }

  ghost predicate AllFromHere(cfg: RobotConfig, rs: seq<RobotRecord>) { forall r :: r in rs ==> FromHere(cfg, r) }

  lemma DecisionFromHere(s: RobotState, cfg: RobotConfig, behavior: Behavior, request: TaskRequest, now: Time)
    ensures AllFromHere(cfg, DecideNewTask(s, cfg, behavior, request, now))
  {
    hide RefusalReason;
  }

  lemma {:induction false} PassFromHere(pass: nat, s: RobotState, cfg: RobotConfig, behavior: Behavior, ids: seq<TaskId>, now: Time)
    requires 1 <= pass <= 3
    ensures AllFromHere(cfg, Pass(pass, s, cfg, behavior, ids, now))
    decreases |ids|
  {
    if ids != [] {
      var first := PassRecords(pass, s, cfg, behavior, ids[0], now);
      assert AllFromHere(cfg, first) by {
        if ids[0] in s.tasks { DecisionFromHere(s, cfg, behavior, s.tasks[ids[0]].request, now); }
        hide DecideNewTask;
      }
      hide PassRecords, FromHere;
      PassFromHere(pass, ApplyAll(s, first), cfg, behavior, ids[1..], now);
    }
  }

  lemma StartFromHere(d: Durable, cfg: RobotConfig, behavior: Behavior, now: Time, initialize: bool, nonce: string)
    requires StartBatch(d.view, cfg, behavior, now, initialize, nonce).Ok?
    ensures AllFromHere(cfg, StartBatch(d.view, cfg, behavior, now, initialize, nonce).value)
  {
    var boot := BootRecords(d.view, cfg, now, initialize, nonce);
    assert AllFromHere(cfg, boot);
    hide FromHere, BootRecords, StartBatch;
    var d0 := AdvanceAll(d, boot);
    var ids := Ascending(d0.view.tasks.Keys);
    var p1 := Pass(1, d0.view, cfg, behavior, ids, now);
    var d1 := AdvanceAll(d0, p1);
    var p2 := Pass(2, d1.view, cfg, behavior, ids, now);
    var d2 := AdvanceAll(d1, p2);
    StartBatchParts(d, cfg, behavior, now, initialize, nonce);
    PassFromHere(1, d0.view, cfg, behavior, ids, now);
    PassFromHere(2, d1.view, cfg, behavior, ids, now);
    PassFromHere(3, d2.view, cfg, behavior, ids, now);
  }

  lemma RequestFromHere(s: RobotState, cfg: RobotConfig, behavior: Behavior, delivery: RequestDelivery, now: Time)
    ensures AllFromHere(cfg, OnRequest(s, cfg, behavior, delivery, now))
  {
    if delivery.Decoded? { DecisionFromHere(s, cfg, behavior, delivery.request, now); }
    hide DecideNewTask, IdentityRefusal;
  }

  lemma WorkFromHere(s: RobotState, cfg: RobotConfig, behavior: Behavior, now: Time)
    ensures AllFromHere(cfg, DecideTick(s, cfg, behavior, now).records) && AllFromHere(cfg, DecideReset(s, cfg, now))
  {
    hide NextSequence;
  }

  lemma BatchFromHere(cfg: RobotConfig, robot: Robot, step: Step)
    ensures AllFromHere(cfg, Batch(cfg, robot, step))
  {
    var d := DurableOf(robot.journal);
    hide StartBatch, OnRequest, DecideTick, DecideReset, DurableOf;
    match step
    case Boot(behavior, now, initialize, nonce) =>
      if StartBatch(d.view, cfg, behavior, now, initialize, nonce).Ok? { StartFromHere(d, cfg, behavior, now, initialize, nonce); }
    case Receive(delivery, now) => if robot.process.Up? { RequestFromHere(d.view, cfg, robot.process.behavior, delivery, now); }
    case Tick(now) => if robot.process.Up? { WorkFromHere(d.view, cfg, robot.process.behavior, now); }
    case Reset(now) => if robot.process.Up? { WorkFromHere(d.view, cfg, robot.process.behavior, now); }
    case Confirm(_) =>
    case Crash =>
  }

  /** In every run each event names this robot and its site, deployment and environment. */
  lemma {:induction false} EventsAreOwn(cfg: RobotConfig, choices: seq<Choice>)
    ensures AllFromHere(cfg, Run(cfg, choices).journal)
  {
    if choices != [] {
      var robot := Run(cfg, choices[..|choices| - 1]);
      hide Batch, FromHere;
      EventsAreOwn(cfg, choices[..|choices| - 1]);
      BatchFromHere(cfg, robot, choices[|choices| - 1].step);
    }
  }
}
