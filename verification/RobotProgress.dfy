/** What becomes of an accepted request when nothing disturbs the robot: each behaviour's fate, tick by tick. */
module RobotProgress {
  import opened Common
  import opened TaskContracts
  import opened RobotViews
  import opened RobotExecutor
  import RobotBatches

  /** The transport confirms these events, one record each. */
  function Confirmed(s: RobotState, id: TaskId, events: seq<TaskEvent>): RobotState {
    if events == [] then s
    else Apply(Confirmed(s, id, events[..|events| - 1]), EventPublishConfirmed(id, events[|events| - 1].OrderKey()))
  }

  /** One tick, its records made durable, and everything published so far confirmed. */
  function Round(s: RobotState, cfg: RobotConfig, behavior: Behavior, id: TaskId, now: Time): RobotState {
    var after := ApplyAll(s, DecideTick(s, cfg, behavior, now).records);
    if id in after.tasks then Confirmed(after, id, after.tasks[id].events) else after
  }

  /** The current task is under way at this step, unprotected and fully confirmed. */
  ghost predicate UnderWay(s: RobotState, id: TaskId, step: nat) {
    && id in s.tasks && s.current == Some(id) && !s.condition.awaitingHuman
    && var t := s.tasks[id];
    && t.Active() && !t.Blocked() && t.step == step && t.AllConfirmed()
  }

  /** One confirmation adds its key and changes nothing else. */
  lemma ConfirmsOne(s: RobotState, id: TaskId, key: Key)
    requires id in s.tasks
    ensures var after := Apply(s, EventPublishConfirmed(id, key));
            && id in after.tasks && after.current == s.current && after.condition == s.condition
            && after.tasks[id] == s.tasks[id].(confirmed := s.tasks[id].confirmed + {key})
  {
  }

  lemma {:induction false} ConfirmsAll(s: RobotState, id: TaskId, events: seq<TaskEvent>)
    requires id in s.tasks
    ensures var after := Confirmed(s, id, events);
            && id in after.tasks && after.current == s.current && after.condition == s.condition
            && after.tasks[id] == s.tasks[id].(confirmed := after.tasks[id].confirmed)
            && forall e :: e in events ==> e.OrderKey() in after.tasks[id].confirmed
  {
    if events != [] {
      hide Apply;
      var front, last := events[..|events| - 1], events[|events| - 1];
      ConfirmsAll(s, id, front);
      ConfirmsOne(Confirmed(s, id, front), id, last.OrderKey());
      assert events == front + [last];
    }
  }

  lemma RoundConfirms(s: RobotState, cfg: RobotConfig, behavior: Behavior, id: TaskId, now: Time)
    requires id in ApplyAll(s, DecideTick(s, cfg, behavior, now).records).tasks
    ensures var ticked, after := ApplyAll(s, DecideTick(s, cfg, behavior, now).records), Round(s, cfg, behavior, id, now);
            && id in after.tasks && after.current == ticked.current && after.condition == ticked.condition
            && after.tasks[id] == ticked.tasks[id].(confirmed := after.tasks[id].confirmed) && after.tasks[id].AllConfirmed()
  {
    var ticked := ApplyAll(s, DecideTick(s, cfg, behavior, now).records);
    ConfirmsAll(ticked, id, ticked.tasks[id].events);
  }

  lemma TwoRecords(s: RobotState, a: RobotRecord, b: RobotRecord)
    ensures ApplyAll(s, [a, b]) == Apply(Apply(s, a), b)
  {
    assert [a, b][1..] == [b] && [b][1..] == [];
    assert ApplyAll(Apply(s, a), [b]) == ApplyAll(Apply(Apply(s, a), b), []);
  }

  lemma OneRecord(s: RobotState, a: RobotRecord)
    ensures ApplyAll(s, [a]) == Apply(s, a)
  {
    assert [a][1..] == [];
  }

  lemma BlockedOnlyByRequest(t: RobotTask, e: TaskEvent)
    requires t.Active() && !t.Blocked()
    ensures TaskAfterEvent(t, e).Blocked() <==> e.kind.AssistanceRequired?
  {
    var after := t.events + [e];
    assert after[|t.events|] == e;
    assert forall i :: 0 <= i < |t.events| ==> after[i] == t.events[i];
  }

  lemma ConfirmingKeepsBlocked(t: RobotTask, keys: set<Key>)
    ensures t.(confirmed := keys).Blocked() == t.Blocked() && t.(confirmed := keys).Active() == t.Active()
  {
  }

  predicate StartsAndReports(behavior: Behavior) {
    behavior.AcceptAndSucceed? || behavior.CrashAfterResultPersisted? || behavior.FailCannotContinue?
    || behavior.HelpNeedsManualRecharge? || behavior.HelpUnknownFault?
  }

  /** An execution record and a progress event keep the task under way at the step recorded. */
  lemma StepThenProgress(s: RobotState, id: TaskId, r: RobotRecord, e: TaskEvent, step: nat)
    requires id in s.tasks && s.current == Some(id) && s.tasks[id].Active() && !s.tasks[id].Blocked()
    requires (r == ExecutionStarted(id) && s.tasks[id].step == 0 && step == 1)
          || (r == RobotRecord.ExecutionProgress(id, step) && s.tasks[id].step < step)
    requires e.taskId == id && e.kind.Progress? && e.eventSequence >= 1
    ensures var after := Apply(Apply(s, r), TaskEventPersisted(e));
            && id in after.tasks && after.current == Some(id) && after.condition == s.condition
            && after.tasks[id].Active() && !after.tasks[id].Blocked() && after.tasks[id].step == step
            && after.tasks[id].executionStarted == (s.tasks[id].executionStarted || r.ExecutionStarted?)
  {
    var t := Apply(s, r).tasks[id];
    assert t.events == s.tasks[id].events && t.terminal == s.tasks[id].terminal;
    BlockedOnlyByRequest(t, e);
  }

  /** A completion and its terminal event end the task and decide the robot's condition. */
  lemma CompleteThenEnd(s: RobotState, id: TaskId, outcome: Outcome, e: TaskEvent)
    requires id in s.tasks && s.current == Some(id) && s.tasks[id].Active()
    requires e.taskId == id && IsTerminalKind(e.kind) && e.eventSequence >= 1
    ensures var after := Apply(Apply(s, ExecutionCompleted(id, outcome)), TaskEventPersisted(e));
            && id in after.tasks && after.current == None && after.condition == DeriveCondition(s.condition, e)
            && after.tasks[id].terminal == Some(e.kind) && after.tasks[id].executionStarted == s.tasks[id].executionStarted
  {
  }

  /** What an accepting decision leaves: the task current, unblocked and with one event, not yet confirmed. */
  lemma {:induction false} AcceptanceApplied(s: RobotState, id: TaskId, e: TaskEvent)
    requires id in s.tasks && s.tasks[id] == NewTask(s.tasks[id].request) && s.current == None && !s.condition.awaitingHuman
    requires e.taskId == id && e.kind.Accepted? && e.eventSequence >= 1
    ensures var decided := Apply(Apply(s, TaskDecision(id, true, None)), TaskEventPersisted(e));
            && id in decided.tasks && decided.current == Some(id) && !decided.condition.awaitingHuman
            && decided.tasks[id].events == [e] && decided.tasks[id].Active() && !decided.tasks[id].Blocked() && decided.tasks[id].step == 0
  {
  }

  lemma {:induction false} ConfirmedIsUnderWay(s: RobotState, id: TaskId)
    requires id in s.tasks && s.current == Some(id) && !s.condition.awaitingHuman
    requires s.tasks[id].Active() && !s.tasks[id].Blocked()
    ensures UnderWay(Confirmed(s, id, s.tasks[id].events), id, s.tasks[id].step)
  {
    hide Apply;
    ConfirmsAll(s, id, s.tasks[id].events);
    ConfirmingKeepsBlocked(s.tasks[id], Confirmed(s, id, s.tasks[id].events).tasks[id].confirmed);
  }

  /** Nothing speaks against the request: the robot is free, waits for no human, is not on standby and supports the type, in time. */
  predicate Welcome(s: RobotState, cfg: RobotConfig, behavior: Behavior, request: TaskRequest, now: Time) {
    && !s.condition.awaitingHuman && s.condition.availability !in {Faulted, EStopped, AwaitingHuman}
    && s.current.None? && behavior != Standby && request.taskType in cfg.taskTypes && now < request.expiresAt
  }

  /** A new request that nothing speaks against is accepted and, once confirmed, under way. */
  lemma {:induction false} AcceptedGetsUnderWay(s: RobotState, cfg: RobotConfig, behavior: Behavior, id: TaskId, now: Time)
    requires id in s.tasks && s.tasks[id].request.taskId == id && s.tasks[id] == NewTask(s.tasks[id].request)
    requires Welcome(s, cfg, behavior, s.tasks[id].request, now)
    ensures var decided := ApplyAll(s, DecideNewTask(s, cfg, behavior, s.tasks[id].request, now));
            id in decided.tasks && UnderWay(Confirmed(decided, id, decided.tasks[id].events), id, 0)
  {
    hide Apply, ApplyAll, Confirmed;
    var decision := TaskDecision(id, true, None);
    var e := Event(s, cfg, id, EventKind.Accepted, None, None, 1, now);
    assert DecideNewTask(s, cfg, behavior, s.tasks[id].request, now) == [decision, TaskEventPersisted(e)];
    TwoRecords(s, decision, TaskEventPersisted(e));
    AcceptanceApplied(s, id, e);
    hide DecideNewTask, RefusalReason;
    ConfirmedIsUnderWay(Apply(Apply(s, decision), TaskEventPersisted(e)), id);
  }

  /** First round: execution starts and is reported. */
  lemma {:induction false} FirstRound(s: RobotState, cfg: RobotConfig, behavior: Behavior, id: TaskId, now: Time)
    requires UnderWay(s, id, 0) && StartsAndReports(behavior)
    ensures UnderWay(Round(s, cfg, behavior, id, now), id, 1) && Round(s, cfg, behavior, id, now).tasks[id].executionStarted
  {
    var e := NextEvent(s, cfg, id, Progress, None, Some("traveling"), now);
    RobotBatches.NextSequencePositive(s.tasks[id].events, s.bootSequence);
    assert DecideTick(s, cfg, behavior, now).records == [ExecutionStarted(id), TaskEventPersisted(e)];
    TwoRecords(s, ExecutionStarted(id), TaskEventPersisted(e));
    StepThenProgress(s, id, ExecutionStarted(id), e, 1);
    hide DecideTick, Apply, ApplyAll;
    RoundConfirms(s, cfg, behavior, id, now);
    ConfirmingKeepsBlocked(ApplyAll(s, DecideTick(s, cfg, behavior, now).records).tasks[id], Round(s, cfg, behavior, id, now).tasks[id].confirmed);
    hide Round;
  }

  /** Second round of a robot that goes on: its progress is recorded and reported. */
  lemma {:induction false} SecondRound(s: RobotState, cfg: RobotConfig, behavior: Behavior, id: TaskId, now: Time)
    requires UnderWay(s, id, 1) && (behavior.AcceptAndSucceed? || behavior.CrashAfterResultPersisted?)
    ensures UnderWay(Round(s, cfg, behavior, id, now), id, 2)
    ensures Round(s, cfg, behavior, id, now).tasks[id].executionStarted == s.tasks[id].executionStarted
  {
    var e := NextEvent(s, cfg, id, Progress, None, Some("collecting"), now);
    RobotBatches.NextSequencePositive(s.tasks[id].events, s.bootSequence);
    var r := RobotRecord.ExecutionProgress(id, 2);
    assert DecideTick(s, cfg, behavior, now).records == [r, TaskEventPersisted(e)];
    TwoRecords(s, r, TaskEventPersisted(e));
    StepThenProgress(s, id, r, e, 2);
    hide DecideTick, Apply, ApplyAll;
    RoundConfirms(s, cfg, behavior, id, now);
    ConfirmingKeepsBlocked(ApplyAll(s, DecideTick(s, cfg, behavior, now).records).tasks[id], Round(s, cfg, behavior, id, now).tasks[id].confirmed);
    hide Round;
  }

  /** Third round: the result is recorded, the slot is free and the robot is clear. */
  lemma {:induction false} ThirdRound(s: RobotState, cfg: RobotConfig, behavior: Behavior, id: TaskId, now: Time)
    requires UnderWay(s, id, 2) && (behavior.AcceptAndSucceed? || behavior.CrashAfterResultPersisted?)
    ensures var after := Round(s, cfg, behavior, id, now);
            && id in after.tasks && after.tasks[id].terminal == Some(EventKind.Succeeded) && after.current == None && after.condition == CLEAR
            && after.tasks[id].executionStarted == s.tasks[id].executionStarted && after.tasks[id].AllConfirmed()
  {
    var e := NextEvent(s, cfg, id, EventKind.Succeeded, None, None, now);
    RobotBatches.NextSequencePositive(s.tasks[id].events, s.bootSequence);
    assert DecideTick(s, cfg, behavior, now).records == [ExecutionCompleted(id, OutcomeSucceeded), TaskEventPersisted(e)];
    TwoRecords(s, ExecutionCompleted(id, OutcomeSucceeded), TaskEventPersisted(e));
    CompleteThenEnd(s, id, OutcomeSucceeded, e);
    hide DecideTick, Apply, ApplyAll;
    RoundConfirms(s, cfg, behavior, id, now);
    hide Round;
  }

  /** A robot that cannot go on fails in its second round and protects itself. */
  lemma {:induction false} FailingRound(s: RobotState, cfg: RobotConfig, id: TaskId, now: Time)
    requires UnderWay(s, id, 1)
    ensures var after := Round(s, cfg, FailCannotContinue, id, now);
            && id in after.tasks && after.tasks[id].terminal == Some(EventKind.Failed) && after.current == None
            && after.condition.awaitingHuman && after.condition.canContinue == Some(false) && after.tasks[id].AllConfirmed()
  {
    var e := NextEvent(s, cfg, id, EventKind.Failed, Some(CannotContinue), None, now);
    RobotBatches.NextSequencePositive(s.tasks[id].events, s.bootSequence);
    assert DecideTick(s, cfg, FailCannotContinue, now).records == [ExecutionCompleted(id, OutcomeFailed), TaskEventPersisted(e)];
    TwoRecords(s, ExecutionCompleted(id, OutcomeFailed), TaskEventPersisted(e));
    CompleteThenEnd(s, id, OutcomeFailed, e);
    assert DeriveCondition(s.condition, e).awaitingHuman && DeriveCondition(s.condition, e).canContinue == Some(false);
    hide DecideTick, Apply, ApplyAll, DeriveCondition, NextEvent;
    RoundConfirms(s, cfg, FailCannotContinue, id, now);
    hide Round;
  }

  /** A robot that needs help asks for it in its second round, keeps the task and waits. */
  lemma {:induction false} AskingRound(s: RobotState, cfg: RobotConfig, behavior: Behavior, id: TaskId, now: Time)
    requires UnderWay(s, id, 1) && (behavior.HelpNeedsManualRecharge? || behavior.HelpUnknownFault?)
    ensures var after := Round(s, cfg, behavior, id, now);
            && id in after.tasks && after.tasks[id].Active() && after.tasks[id].Blocked() && after.current == Some(id)
            && after.condition.awaitingHuman && after.tasks[id].AllConfirmed()
  {
    var e := NextEvent(s, cfg, id, AssistanceRequired,
                       Some(if behavior.HelpUnknownFault? then UnknownReason(behavior.code) else EnergyInsufficient), None, now);
    RobotBatches.NextSequencePositive(s.tasks[id].events, s.bootSequence);
    assert DecideTick(s, cfg, behavior, now).records == [TaskEventPersisted(e)];
    OneRecord(s, TaskEventPersisted(e));
    BlockedOnlyByRequest(s.tasks[id], e);
    var ticked := Apply(s, TaskEventPersisted(e));
    assert ticked.tasks[id] == TaskAfterEvent(s.tasks[id], e) && ticked.current == Some(id) && ticked.condition.awaitingHuman;
    hide DecideTick, Apply, ApplyAll;
    RoundConfirms(s, cfg, behavior, id, now);
    ConfirmingKeepsBlocked(ApplyAll(s, DecideTick(s, cfg, behavior, now).records).tasks[id], Round(s, cfg, behavior, id, now).tasks[id].confirmed);
    hide Round;
  }

  /** A blocked task waits: no tick moves it. */
  lemma {:induction false} BlockedWaits(s: RobotState, cfg: RobotConfig, behavior: Behavior, now: Time)
    requires s.current.Some? && s.current.value in s.tasks && s.tasks[s.current.value].Blocked()
    ensures DecideTick(s, cfg, behavior, now) == IDLE
  {
  }

  /** Undisturbed and confirmed, an accepted request is executed once and succeeds within three rounds. */
  lemma {:induction false} UndisturbedSucceeds(s: RobotState, cfg: RobotConfig, behavior: Behavior, id: TaskId, t1: Time, t2: Time, t3: Time)
    requires UnderWay(s, id, 0) && (behavior.AcceptAndSucceed? || behavior.CrashAfterResultPersisted?)
    ensures var after := Round(Round(Round(s, cfg, behavior, id, t1), cfg, behavior, id, t2), cfg, behavior, id, t3);
            && id in after.tasks && after.tasks[id].terminal == Some(EventKind.Succeeded) && after.tasks[id].executionStarted
            && after.current == None && after.condition == CLEAR
  {
    hide Round;
    FirstRound(s, cfg, behavior, id, t1);
    SecondRound(Round(s, cfg, behavior, id, t1), cfg, behavior, id, t2);
    ThirdRound(Round(Round(s, cfg, behavior, id, t1), cfg, behavior, id, t2), cfg, behavior, id, t3);
  }

  /** With a failing or help-seeking behaviour the second round ends in a protected robot, failed or asking. */
  lemma {:induction false} TroubleProtects(s: RobotState, cfg: RobotConfig, behavior: Behavior, id: TaskId, t1: Time, t2: Time)
    requires UnderWay(s, id, 0) && StartsAndReports(behavior) && !behavior.AcceptAndSucceed? && !behavior.CrashAfterResultPersisted?
    ensures var after := Round(Round(s, cfg, behavior, id, t1), cfg, behavior, id, t2);
            && after.condition.awaitingHuman && id in after.tasks
            && (if behavior.FailCannotContinue? then after.tasks[id].terminal == Some(EventKind.Failed) && after.current == None
                else after.tasks[id].Blocked() && after.current == Some(id))
  {
    hide Round;
    FirstRound(s, cfg, behavior, id, t1);
    if behavior.FailCannotContinue? {
      FailingRound(Round(s, cfg, behavior, id, t1), cfg, id, t2);
    } else {
      AskingRound(Round(s, cfg, behavior, id, t1), cfg, behavior, id, t2);
    }
  }

  // -- the behaviours that go no further

  /** A robot that dies on acceptance leaves without a record, one that dies on starting leaves the start behind. */
  lemma {:induction false} CrashesLeave(s: RobotState, cfg: RobotConfig, id: TaskId, now: Time)
    requires UnderWay(s, id, 0)
    ensures DecideTick(s, cfg, CrashAfterAccept, now) == TickDecision([], true)
    ensures DecideTick(s, cfg, CrashAfterExecutionStarted, now) == TickDecision([ExecutionStarted(id)], true)
  {
  }

  /** A silent robot starts, reports nothing and does nothing ever after. */
  lemma {:induction false} SilentGoesQuiet(s: RobotState, cfg: RobotConfig, id: TaskId, t1: Time, t2: Time)
    requires UnderWay(s, id, 0)
    ensures var after := Round(s, cfg, SilentAfterAccept, id, t1);
            && UnderWay(after, id, 1) && after.tasks[id].executionStarted && after.tasks[id].events == s.tasks[id].events
            && DecideTick(after, cfg, SilentAfterAccept, t2) == IDLE
  {
    assert DecideTick(s, cfg, SilentAfterAccept, t1).records == [ExecutionStarted(id)];
    OneRecord(s, ExecutionStarted(id));
    var ticked := Apply(s, ExecutionStarted(id));
    assert ticked.tasks[id].events == s.tasks[id].events && ticked.tasks[id].terminal == s.tasks[id].terminal;
    hide Apply, ApplyAll;
    RoundConfirms(s, cfg, SilentAfterAccept, id, t1);
    ConfirmingKeepsBlocked(ticked.tasks[id], Round(s, cfg, SilentAfterAccept, id, t1).tasks[id].confirmed);
    hide Round;
  }

  /** Nothing goes on while a report is unconfirmed, on standby, or without a task. */
  lemma {:induction false} HoldsUntilConfirmed(s: RobotState, cfg: RobotConfig, behavior: Behavior, now: Time)
    requires s.current.None? || behavior == Standby
          || (behavior != CrashAfterAccept && s.current.value in s.tasks && !s.tasks[s.current.value].AllConfirmed())
    ensures DecideTick(s, cfg, behavior, now) == IDLE
  {
  }

  /** A robot leaves of its own accord exactly as its crash behaviour says: on acceptance, on starting, or on the recorded result. */
  lemma {:induction false} ExitsExactly(s: RobotState, cfg: RobotConfig, behavior: Behavior, now: Time)
    requires s.current.Some? && s.current.value in s.tasks && s.tasks[s.current.value].Active() && !s.tasks[s.current.value].Blocked()
    ensures var t := s.tasks[s.current.value];
            DecideTick(s, cfg, behavior, now).exits <==>
              || behavior == CrashAfterAccept
              || (behavior == CrashAfterExecutionStarted && t.AllConfirmed() && t.step == 0)
              || (behavior == CrashAfterResultPersisted && t.AllConfirmed() && t.step == 2)
  {
  }
}
