/** Every batch the robot decides is a chain of legal records, whatever its behaviour. */
module RobotBatches {
  import opened Common
  import opened TaskContracts
  import opened RobotViews
  import opened RobotExecutor
  import opened RobotLegality

  /** A running process: its boot batch is whole, so nothing from before the boot is still open. */
  ghost predicate Booted(d: Durable) {
    && d.view.token.Some? && d.view.bootSequence >= 1
    && forall id :: id in d.view.tasks ==> BootedTask(d, id, d.view.tasks[id])
  }

  ghost predicate BootedTask(d: Durable, id: TaskId, t: RobotTask) {
    && t.decision.Some?
    && (t.events != [])
    && (t.Active() ==> t.events[0].kind.Accepted? && !t.executionCompleted && id in d.acceptedThisBoot)
  }

  /** Only one task changed, and it is still fit for a running process. */
  ghost predicate Refitted(d: Durable, after: Durable, id: TaskId) {
    && id in after.view.tasks && BootedTask(after, id, after.view.tasks[id])
    && after.view.token == d.view.token && after.view.bootSequence == d.view.bootSequence
    && (forall x :: x in after.view.tasks && x != id ==> x in d.view.tasks && after.view.tasks[x] == d.view.tasks[x])
    && d.acceptedThisBoot <= after.acceptedThisBoot
  }

  lemma BootedReplaced(d: Durable, after: Durable, id: TaskId)
    requires Booted(d) && Refitted(d, after, id)
    ensures Booted(after)
  {
    forall x | x in after.view.tasks ensures BootedTask(after, x, after.view.tasks[x]) {
      if x != id { assert BootedTask(d, x, d.view.tasks[x]); }
    }
  }

  lemma TwoLegal(d: Durable, a: RobotRecord, b: RobotRecord)
    requires Legal(d, a) && Legal(Advance(d, a), b)
    ensures LegalBatch(d, [a, b]) && AdvanceAll(d, [a, b]) == Advance(Advance(d, a), b)
  {
    hide Legal, Advance;
    assert [a, b][1..] == [b] && [b][1..] == [];
    assert LegalBatch(Advance(d, a), [b]);
    assert AdvanceAll(Advance(d, a), [b]) == AdvanceAll(Advance(Advance(d, a), b), []);
  }

  lemma OneLegal(d: Durable, a: RobotRecord)
    requires Legal(d, a)
    ensures LegalBatch(d, [a]) && AdvanceAll(d, [a]) == Advance(d, a)
  {
    hide Legal, Advance;
    assert [a][1..] == [];
  }

  // -- the decision on a new or undecided request

  lemma DecisionRecordLegal(d: Durable, cfg: RobotConfig, behavior: Behavior, id: TaskId, now: Time)
    requires StateOk(d.view) && id in d.view.tasks && d.view.tasks[id].decision.None?
    ensures var batch := DecideNewTask(d.view, cfg, behavior, d.view.tasks[id].request, now);
            && |batch| == 2 && Legal(d, batch[0]) && batch[0].TaskDecision? && batch[0].decidedTask == id
            && (batch[0].accepted ==> batch[0].reason.None?)
            && batch[1] == TaskEventPersisted(
                 Event(d.view, cfg, id, if batch[0].accepted then EventKind.Accepted else EventKind.Rejected, batch[0].reason, None, 1, now))
  {
    hide EventsOk, EvidenceOk, CountsOk;
  }

  lemma DecisionEventLegal(d: Durable, cfg: RobotConfig, r: RobotRecord, now: Time)
    requires StateOk(d.view) && d.view.bootSequence >= 1
    requires r.TaskDecision? && r.decidedTask in d.view.tasks && d.view.tasks[r.decidedTask].decision.None?
    requires r.accepted ==> r.reason.None?
    ensures Legal(Advance(d, r), TaskEventPersisted(
              Event(d.view, cfg, r.decidedTask, if r.accepted then EventKind.Accepted else EventKind.Rejected, r.reason, None, 1, now)))
  {
    hide CountsOk, EvidenceOk, ProtectionOk, HistoryOk;
    var t := d.view.tasks[r.decidedTask];
    assert TaskOk(d.view.token, d.view.bootSequence, r.decidedTask, t);
    assert t.events == [];
  }

  /** Deciding leaves every other task alone and closes this one's decision. */
  ghost predicate DecidedOnly(d: Durable, after: Durable, id: TaskId) {
    && id in d.view.tasks
    && after.view.tasks.Keys == d.view.tasks.Keys
    && (forall x :: x in d.view.tasks && x != id ==> after.view.tasks[x] == d.view.tasks[x])
    && after.view.token == d.view.token && after.view.bootSequence == d.view.bootSequence
    && d.acceptedThisBoot <= after.acceptedThisBoot
    && BootedTask(after, id, after.view.tasks[id])
  }

  lemma DecisionEffect(d: Durable, cfg: RobotConfig, r: RobotRecord, now: Time)
    requires r.TaskDecision? && r.decidedTask in d.view.tasks && d.view.tasks[r.decidedTask].decision.None?
    requires d.view.tasks[r.decidedTask].events == [] && !d.view.tasks[r.decidedTask].executionCompleted
    ensures var e := TaskEventPersisted(
              Event(d.view, cfg, r.decidedTask, if r.accepted then EventKind.Accepted else EventKind.Rejected, r.reason, None, 1, now));
            DecidedOnly(d, Advance(Advance(d, r), e), r.decidedTask)
  {
  }

  lemma DecisionLegal(d: Durable, cfg: RobotConfig, behavior: Behavior, id: TaskId, now: Time)
    requires StateOk(d.view) && d.view.bootSequence >= 1
    requires id in d.view.tasks && d.view.tasks[id].decision.None?
    ensures var batch := DecideNewTask(d.view, cfg, behavior, d.view.tasks[id].request, now);
            |batch| == 2 && LegalBatch(d, batch) && DecidedOnly(d, AdvanceAll(d, batch), id)
  {
    var batch := DecideNewTask(d.view, cfg, behavior, d.view.tasks[id].request, now);
    assert TaskOk(d.view.token, d.view.bootSequence, id, d.view.tasks[id]);
    assert d.view.tasks[id].events == [] && !d.view.tasks[id].executionCompleted;
    hide Legal, Advance, AdvanceAll, LegalBatch, StateOk, TaskOk, DecidedOnly;
    DecisionRecordLegal(d, cfg, behavior, id, now);
    DecisionEventLegal(d, cfg, batch[0], now);
    DecisionEffect(d, cfg, batch[0], now);
    TwoLegal(d, batch[0], batch[1]);
    assert batch == [batch[0], batch[1]];
  }

  // -- requests

  lemma RequestLegal(d: Durable, cfg: RobotConfig, behavior: Behavior, delivery: RequestDelivery, now: Time)
    requires StateOk(d.view) && Booted(d)
    ensures var batch := OnRequest(d.view, cfg, behavior, delivery, now);
            LegalBatch(d, batch) && Booted(AdvanceAll(d, batch))
  {
    var batch := OnRequest(d.view, cfg, behavior, delivery, now);
    var admitted := delivery.Decoded? && IdentityRefusal(d.view, cfg, delivery.topicSite, delivery.topicRobot, delivery.request).None?;
    if admitted && delivery.request.taskId !in d.view.tasks {
      NewRequestLegal(d, cfg, behavior, delivery.request, now);
    } else if admitted && d.view.tasks[delivery.request.taskId].request == delivery.request {
      QuietRecordKeepsBooted(d, batch[0]);
      OneLegal(d, batch[0]);
    } else {
      RefusalLegal(d, batch);
    }
  }

  lemma NewRequestLegal(d: Durable, cfg: RobotConfig, behavior: Behavior, request: TaskRequest, now: Time)
    requires StateOk(d.view) && Booted(d)
    requires request.taskId !in d.view.tasks && Some(request.targetIncarnation) == d.view.token
    ensures var batch := [RequestReceived(request, false)] + DecideNewTask(d.view, cfg, behavior, request, now);
            LegalBatch(d, batch) && Booted(AdvanceAll(d, batch))
  {
    var arrival := RequestReceived(request, false);
    var decision := DecideNewTask(d.view, cfg, behavior, request, now);
    var d1 := Advance(d, arrival);
    ArrivalLegal(d, cfg, behavior, request, now);
    hide *;
    OneLegal(d, arrival);
    LegalKeepsState(d, arrival);
    DecisionLegal(d1, cfg, behavior, request.taskId, now);
    LegalConcat(d, [arrival], decision);
    DecidedKeepsBooted(d, d1, AdvanceAll(d1, decision), request);
  }

  lemma DecidedKeepsBooted(d: Durable, d1: Durable, after: Durable, request: TaskRequest)
    requires Booted(d) && DecidedOnly(d1, after, request.taskId)
    requires d1.view.tasks == d.view.tasks[request.taskId := NewTask(request)]
    requires d1.view.bootSequence == d.view.bootSequence && d1.view.token == d.view.token
    requires d1.acceptedThisBoot == d.acceptedThisBoot
    ensures Booted(after)
  {
    hide BootedTask;
    BootedReplaced(d, after, request.taskId);
  }

  lemma ArrivalLegal(d: Durable, cfg: RobotConfig, behavior: Behavior, request: TaskRequest, now: Time)
    requires StateOk(d.view) && Booted(d)
    requires request.taskId !in d.view.tasks && Some(request.targetIncarnation) == d.view.token
    ensures var arrival := RequestReceived(request, false);
            var d1 := Advance(d, arrival);
            && Legal(d, arrival)
            && d1.view.tasks == d.view.tasks[request.taskId := NewTask(request)]
            && d1.view.bootSequence == d.view.bootSequence >= 1 && d1.view.token == d.view.token
            && d1.acceptedThisBoot == d.acceptedThisBoot
            && DecideNewTask(d1.view, cfg, behavior, request, now) == DecideNewTask(d.view, cfg, behavior, request, now)
  {
    hide StateOk, BootedTask;
  }

  /** Records that change no task. */
  predicate Quiet(r: RobotRecord) {
    || r.RequestRejected? || r.RejectionPublishConfirmed? || (r.RequestReceived? && r.knownDuplicate)
    || (r.TaskEventPersisted? && r.event.eventSequence == 0)
  }

  lemma QuietRecordKeepsBooted(d: Durable, r: RobotRecord)
    requires Booted(d) && Quiet(r)
    ensures Booted(Advance(d, r))
  {
    forall x | x in d.view.tasks ensures BootedTask(Advance(d, r), x, d.view.tasks[x]) {
      assert BootedTask(d, x, d.view.tasks[x]);
    }
  }

  lemma RefusalLegal(d: Durable, batch: seq<RobotRecord>)
    requires Booted(d)
    requires 1 <= |batch| <= 2 && batch[0].RequestRejected?
    requires |batch| == 2 ==> batch[1].TaskEventPersisted? && batch[1].event.eventSequence == 0 && batch[1].event.kind.Rejected?
    ensures LegalBatch(d, batch) && Booted(AdvanceAll(d, batch))
  {
    QuietRecordKeepsBooted(d, batch[0]);
    assert Legal(d, batch[0]);
    if |batch| == 1 {
      OneLegal(d, batch[0]);
      assert batch == [batch[0]];
    } else {
      QuietRecordKeepsBooted(Advance(d, batch[0]), batch[1]);
      assert Legal(Advance(d, batch[0]), batch[1]);
      TwoLegal(d, batch[0], batch[1]);
      assert batch == [batch[0], batch[1]];
    }
  }

  // -- execution steps and the operator reset

  /** The task a running process may work on: accepted in this boot, announced, unfinished, not blocked. */
  ghost predicate Workable(d: Durable, id: TaskId) {
    && d.view.current == Some(id) && id in d.view.tasks
    && var t := d.view.tasks[id];
    && t.Active() && t.events != [] && t.events[0].kind.Accepted? && !t.executionCompleted
    && t.outcome.None?
    && id in d.acceptedThisBoot && d.view.bootSequence >= 1 && d.view.bootId.Some?
  }

  lemma CurrentIsWorkable(d: Durable)
    requires StateOk(d.view) && Booted(d) && d.view.current.Some?
    ensures Workable(d, d.view.current.value)
    ensures !d.view.tasks[d.view.current.value].Blocked() ==> !d.view.condition.awaitingHuman
    ensures d.view.tasks[d.view.current.value].executionStarted <==> d.view.tasks[d.view.current.value].step >= 1
  {
    var id := d.view.current.value;
    assert BootedTask(d, id, d.view.tasks[id]);
    assert TaskOk(d.view.token, d.view.bootSequence, id, d.view.tasks[id]);
    hide EventsOk, CountsOk;
  }

  predicate Work(r: RobotRecord, id: TaskId) {
    || (r.ExecutionStarted? && r.startedTask == id)
    || (r.ExecutionProgress? && r.progressTask == id)
    || (r.ExecutionCompleted? && r.completedTask == id)
  }

  /** One execution record then one event of the same task: only that task changes. */
  lemma WorkEffect(d: Durable, id: TaskId, r: RobotRecord, e: TaskEvent)
    requires id in d.view.tasks && Work(r, id) && e.taskId == id && e.eventSequence >= 1
    ensures var after := Advance(Advance(d, r), TaskEventPersisted(e));
            && after.view.tasks == d.view.tasks[id := TaskAfterEvent(TaskAfterRecord(d.view.tasks[id], r), e)]
            && after.view.token == d.view.token && after.view.bootSequence == d.view.bootSequence
            && after.acceptedThisBoot == d.acceptedThisBoot
  {
  }

  lemma WorkEventLegal(d: Durable, cfg: RobotConfig, id: TaskId, r: RobotRecord, kind: EventKind, reason: Option<Reason>, phase: Option<string>, now: Time)
    requires Workable(d, id) && Work(r, id)
    requires kind.Progress? || kind.Succeeded? || kind.Failed?
    requires if kind.Failed? then reason == Some(CannotContinue) && r.ExecutionCompleted? && r.outcome == OutcomeFailed else reason.None?
    requires kind.Progress? ==> !r.ExecutionCompleted? && !d.view.tasks[id].Blocked() && (r.ExecutionStarted? || d.view.tasks[id].executionStarted)
    requires kind.Succeeded? ==> r.ExecutionCompleted? && r.outcome == OutcomeSucceeded && !d.view.condition.awaitingHuman
    ensures Legal(Advance(d, r), TaskEventPersisted(NextEvent(d.view, cfg, id, kind, reason, phase, now)))
  {
    NextSequencePositive(d.view.tasks[id].events, d.view.bootSequence);
    var t' := Advance(d, r).view.tasks[id];
    assert t' == TaskAfterRecord(d.view.tasks[id], r);
    assert t'.Blocked() == d.view.tasks[id].Blocked();
  }

  lemma NextSequencePositive(events: seq<TaskEvent>, boot: nat)
    ensures NextSequence(events, boot) >= 1
  {
  }

  lemma WorkPairKeepsBooted(d: Durable, id: TaskId, r: RobotRecord, e: TaskEvent)
    requires Booted(d) && Workable(d, id) && Work(r, id) && e.taskId == id && e.eventSequence >= 1
    requires r.ExecutionCompleted? ==> IsTerminalKind(e.kind)
    ensures Booted(Advance(Advance(d, r), TaskEventPersisted(e)))
  {
    WorkEffect(d, id, r, e);
    var after := Advance(Advance(d, r), TaskEventPersisted(e));
    hide Advance, Workable;
    assert after.view.tasks[id].events[0] == d.view.tasks[id].events[0];
    BootedReplaced(d, after, id);
  }

  /** Start or progress or completion, followed by its event. */
  lemma WorkPairLegal(d: Durable, cfg: RobotConfig, id: TaskId, r: RobotRecord, kind: EventKind, reason: Option<Reason>, phase: Option<string>, now: Time)
    requires StateOk(d.view) && Booted(d) && Workable(d, id) && Work(r, id) && Legal(d, r)
    requires kind.Progress? || kind.Succeeded? || kind.Failed?
    requires if kind.Failed? then reason == Some(CannotContinue) && r.ExecutionCompleted? && r.outcome == OutcomeFailed else reason.None?
    requires kind.Progress? ==> !r.ExecutionCompleted? && !d.view.tasks[id].Blocked() && (r.ExecutionStarted? || d.view.tasks[id].executionStarted)
    requires kind.Succeeded? ==> r.ExecutionCompleted? && r.outcome == OutcomeSucceeded && !d.view.condition.awaitingHuman
    ensures var batch := [r, TaskEventPersisted(NextEvent(d.view, cfg, id, kind, reason, phase, now))];
            LegalBatch(d, batch) && Booted(AdvanceAll(d, batch))
  {
    var e := NextEvent(d.view, cfg, id, kind, reason, phase, now);
    NextSequencePositive(d.view.tasks[id].events, d.view.bootSequence);
    WorkEventLegal(d, cfg, id, r, kind, reason, phase, now);
    assert e.taskId == id && e.eventSequence >= 1 && e.kind == kind;
    assert r.ExecutionCompleted? ==> IsTerminalKind(e.kind);
    hide *;
    TwoLegal(d, r, TaskEventPersisted(e));
    WorkPairKeepsBooted(d, id, r, e);
  }

  /** Why a working robot asks for help: its energy, or a fault of its own. */
  predicate HelpReason(reason: Option<Reason>) { reason.Some? && (reason.value.EnergyInsufficient? || reason.value.UnknownReason?) }

  lemma HelpLegal(d: Durable, cfg: RobotConfig, id: TaskId, reason: Option<Reason>, now: Time)
    requires StateOk(d.view) && Booted(d) && Workable(d, id) && d.view.tasks[id].executionStarted && HelpReason(reason)
    ensures var batch := [TaskEventPersisted(NextEvent(d.view, cfg, id, AssistanceRequired, reason, None, now))];
            LegalBatch(d, batch) && Booted(AdvanceAll(d, batch))
  {
    var e := NextEvent(d.view, cfg, id, AssistanceRequired, reason, None, now);
    HelpIsLegal(d, cfg, id, reason, now);
    HelpShape(d, cfg, id, reason, now);
    hide *;
    OneLegal(d, TaskEventPersisted(e));
    BootedReplaced(d, Advance(d, TaskEventPersisted(e)), id);
  }

  lemma HelpIsLegal(d: Durable, cfg: RobotConfig, id: TaskId, reason: Option<Reason>, now: Time)
    requires StateOk(d.view) && Booted(d) && Workable(d, id) && d.view.tasks[id].executionStarted && HelpReason(reason)
    ensures Legal(d, TaskEventPersisted(NextEvent(d.view, cfg, id, AssistanceRequired, reason, None, now)))
  {
    NextSequencePositive(d.view.tasks[id].events, d.view.bootSequence);
    assert BootedTask(d, id, d.view.tasks[id]);
  }

  lemma HelpShape(d: Durable, cfg: RobotConfig, id: TaskId, reason: Option<Reason>, now: Time)
    requires Booted(d) && Workable(d, id) && d.view.tasks[id].executionStarted
    ensures var e := NextEvent(d.view, cfg, id, AssistanceRequired, reason, None, now);
            Refitted(d, Advance(d, TaskEventPersisted(e)), id)
  {
    var e := NextEvent(d.view, cfg, id, AssistanceRequired, reason, None, now);
    NextSequencePositive(d.view.tasks[id].events, d.view.bootSequence);
    assert BootedTask(d, id, d.view.tasks[id]);
    assert TaskAfterEvent(d.view.tasks[id], e).events[0] == d.view.tasks[id].events[0];
  }

  lemma StartExecutionLegal(d: Durable, cfg: RobotConfig, id: TaskId)
    requires StateOk(d.view) && Booted(d) && Workable(d, id)
    requires !d.view.condition.awaitingHuman && !d.view.tasks[id].executionStarted && d.view.tasks[id].AllConfirmed()
    ensures Legal(d, ExecutionStarted(id))
    ensures LegalBatch(d, [ExecutionStarted(id)]) && Booted(AdvanceAll(d, [ExecutionStarted(id)]))
  {
    var r := ExecutionStarted(id);
    StartIsLegal(d, id);
    StartShape(d, id);
    hide *;
    OneLegal(d, r);
    BootedReplaced(d, Advance(d, r), id);
  }

  lemma StartIsLegal(d: Durable, id: TaskId)
    requires Booted(d) && Workable(d, id)
    requires !d.view.condition.awaitingHuman && !d.view.tasks[id].executionStarted && d.view.tasks[id].AllConfirmed()
    ensures Legal(d, ExecutionStarted(id))
  {
    assert BootedTask(d, id, d.view.tasks[id]);
  }

  lemma StartShape(d: Durable, id: TaskId)
    requires Booted(d) && Workable(d, id)
    ensures Refitted(d, Advance(d, ExecutionStarted(id)), id)
  {
    assert BootedTask(d, id, d.view.tasks[id]);
  }

  lemma TickLegal(d: Durable, cfg: RobotConfig, behavior: Behavior, now: Time)
    requires StateOk(d.view) && Booted(d)
    ensures var batch := DecideTick(d.view, cfg, behavior, now).records;
            LegalBatch(d, batch) && Booted(AdvanceAll(d, batch))
  {
    hide StateOk, Booted, Legal;
    var batch := DecideTick(d.view, cfg, behavior, now).records;
    if batch != [] {
      var id := d.view.current.value;
      CurrentIsWorkable(d);
      hide Workable;
      var t := d.view.tasks[id];
      match batch[0]
      case ExecutionStarted(_) =>
        StartExecutionLegal(d, cfg, id);
        if |batch| == 2 { WorkPairLegal(d, cfg, id, batch[0], Progress, None, Some("traveling"), now); }
      case ExecutionProgress(_, _) =>
        ContinueLegal(d, id, batch[0]);
        WorkPairLegal(d, cfg, id, batch[0], Progress, None, Some("collecting"), now);
      case ExecutionCompleted(_, outcome) =>
        ContinueLegal(d, id, batch[0]);
        if outcome == OutcomeSucceeded { WorkPairLegal(d, cfg, id, batch[0], Succeeded, None, None, now); }
        else { WorkPairLegal(d, cfg, id, batch[0], Failed, Some(CannotContinue), None, now); }
      case TaskEventPersisted(e) => HelpLegal(d, cfg, id, e.reason, now);
      case _ => assert false;
    }
  }

  lemma ContinueLegal(d: Durable, id: TaskId, r: RobotRecord)
    requires Workable(d, id) && Work(r, id) && !r.ExecutionStarted?
    requires d.view.tasks[id].executionStarted || (r.ExecutionCompleted? && r.outcome == OutcomeFailed)
    requires !d.view.tasks[id].Blocked() || (r.ExecutionCompleted? && r.outcome == OutcomeFailed)
    requires !d.view.condition.awaitingHuman || (r.ExecutionCompleted? && r.outcome == OutcomeFailed)
    ensures Legal(d, r)
  {
  }

  lemma ResetLegal(d: Durable, cfg: RobotConfig, now: Time)
    requires StateOk(d.view) && Booted(d)
    ensures var batch := DecideReset(d.view, cfg, now);
            LegalBatch(d, batch) && Booted(AdvanceAll(d, batch))
  {
    if d.view.current.Some? {
      CurrentIsWorkable(d);
      AbandonLegal(d, cfg, d.view.current.value, now);
    } else {
      ClearLegal(d);
      OneLegal(d, SimulateReset);
    }
  }

  lemma ClearLegal(d: Durable)
    requires d.view.current.None? && Booted(d)
    ensures Legal(d, SimulateReset) && Booted(Advance(d, SimulateReset))
  {
    forall x | x in d.view.tasks ensures BootedTask(Advance(d, SimulateReset), x, d.view.tasks[x]) {
      assert BootedTask(d, x, d.view.tasks[x]);
    }
  }

  lemma AbandonLegal(d: Durable, cfg: RobotConfig, id: TaskId, now: Time)
    requires StateOk(d.view) && Booted(d) && Workable(d, id)
    ensures var batch := DecideReset(d.view, cfg, now);
            LegalBatch(d, batch) && Booted(AdvanceAll(d, batch))
  {
    var r := ExecutionCompleted(id, OutcomeFailed);
    var e := NextEvent(d.view, cfg, id, Failed, Some(CannotContinue), None, now);
    var pair := [r, TaskEventPersisted(e)];
    assert DecideReset(d.view, cfg, now) == pair + [SimulateReset];
    ContinueLegal(d, id, r);
    NextSequencePositive(d.view.tasks[id].events, d.view.bootSequence);
    AbandonFreesSlot(d, id, r, e);
    hide *;
    WorkEventLegal(d, cfg, id, r, Failed, Some(CannotContinue), None, now);
    TwoLegal(d, r, TaskEventPersisted(e));
    WorkPairLegal(d, cfg, id, r, Failed, Some(CannotContinue), None, now);
    var d2 := AdvanceAll(d, pair);
    ClearLegal(d2);
    OneLegal(d2, SimulateReset);
    LegalConcat(d, pair, [SimulateReset]);
  }

  lemma AbandonFreesSlot(d: Durable, id: TaskId, r: RobotRecord, e: TaskEvent)
    requires Workable(d, id) && r == ExecutionCompleted(id, OutcomeFailed)
    requires e.taskId == id && e.eventSequence >= 1 && e.kind.Failed?
    ensures Advance(Advance(d, r), TaskEventPersisted(e)).view.current.None?
  {
  }

  lemma ConfirmationLegal(d: Durable, r: RobotRecord)
    requires StateOk(d.view) && Booted(d)
    requires (r.EventPublishConfirmed? && r.confirmedTask in d.view.tasks && KeyPersisted(d.view.tasks[r.confirmedTask].events, r.key))
          || (r.RejectionPublishConfirmed? && r.recordSequence in d.view.rejections)
    ensures LegalBatch(d, [r]) && Booted(AdvanceAll(d, [r]))
  {
    assert Legal(d, r);
    var after := Advance(d, r);
    if r.EventPublishConfirmed? {
      assert BootedTask(d, r.confirmedTask, d.view.tasks[r.confirmedTask]);
      BootedReplaced(d, after, r.confirmedTask);
    } else {
      QuietRecordKeepsBooted(d, r);
    }
    OneLegal(d, r);
  }
}
