/** What the robot persists for a boot, a received request, a clock tick and an operator reset. */
module RobotExecutor {
  import opened Common
  import opened TaskContracts
  import opened RobotViews

  datatype RobotConfig = RobotConfig(scope: Scope, robotId: RobotId, taskTypes: set<string>)

  datatype Behavior =
    | AcceptAndSucceed | FailCannotContinue | HelpNeedsManualRecharge | HelpUnknownFault(code: string)
    | SilentAfterAccept | CrashAfterAccept | CrashAfterExecutionStarted | CrashAfterResultPersisted | Standby

  /** A request delivery as the decoding layer hands it over. */
  datatype RequestDelivery =
    | RefusedTransport(transportCode: Reason)
    | WrongTopic
    | Undecodable(peekedTask: Option<TaskId>, contentConflict: bool)
    | Decoded(topicSite: string, topicRobot: RobotId, request: TaskRequest)

  datatype StartError = RobotStateLost | RobotAlreadyProvisioned | NonceMissing

  // -- events

  /** One more than the largest sequence the task already used in this boot. */
  function NextSequence(events: seq<TaskEvent>, boot: nat): nat {
    if events == [] then 1
    else
      var rest := NextSequence(events[..|events| - 1], boot);
      var e := events[|events| - 1];
      if e.bootSequence == boot && e.eventSequence >= rest then e.eventSequence + 1 else rest
  }

  function Event(s: RobotState, cfg: RobotConfig, id: TaskId, kind: EventKind, reason: Option<Reason>,
                 phase: Option<string>, sequence: nat, now: Time): TaskEvent
  {
    TaskEvent(cfg.scope, id, cfg.robotId, s.bootId.GetOr(Unprovisioned), s.bootSequence, sequence, kind, reason, now, phase)
  }

  /** The next event of a task the view knows. */
  function NextEvent(s: RobotState, cfg: RobotConfig, id: TaskId, kind: EventKind, reason: Option<Reason>,
                     phase: Option<string>, now: Time): TaskEvent
    requires id in s.tasks
  {
    Event(s, cfg, id, kind, reason, phase, NextSequence(s.tasks[id].events, s.bootSequence), now)
  }

  // -- requests

  /** A request-level refusal: sequence 0, part of no task's history. */
  function Seq0Rejection(s: RobotState, cfg: RobotConfig, task: Option<TaskId>, code: Reason, now: Time): seq<RobotRecord> {
    var refused := RequestRejected(task, code);
    if task.None? then [refused]
    else
      var boot := if s.bootSequence < 1 then 1 else s.bootSequence;
      [refused, TaskEventPersisted(TaskEvent(cfg.scope, task.value, cfg.robotId, s.bootId.GetOr(Unprovisioned), boot, 0,
                                             EventKind.Rejected, Some(code), now, None))]
  }

  function TaskLevelReject(s: RobotState, cfg: RobotConfig, id: TaskId, reason: Reason, now: Time): seq<RobotRecord> {
    [TaskDecision(id, false, Some(reason)),
     TaskEventPersisted(Event(s, cfg, id, EventKind.Rejected, Some(reason), None, 1, now))]
  }

  /** Why an undecided request is refused, if it is. */
  function RefusalReason(s: RobotState, cfg: RobotConfig, behavior: Behavior, request: TaskRequest, now: Time): Option<Reason> {
    var c := s.condition;
    if c.awaitingHuman || c.availability.Faulted? || c.availability.EStopped? || c.availability.AwaitingHuman? then
      if c.availability.EStopped? then Some(EstopLatched)
      else if c.canContinue == Some(false) && c.needsManualRecharge == Some(true) then Some(EnergyInsufficient)
      else Some(RobotFaulted)
    else if now >= request.expiresAt then Some(TaskExpired)
    else if s.current.Some? then Some(RobotBusy)
    else if behavior.Standby? || request.taskType !in cfg.taskTypes then Some(UnsupportedTaskType)
    else None
  }

  function DecideNewTask(s: RobotState, cfg: RobotConfig, behavior: Behavior, request: TaskRequest, now: Time): seq<RobotRecord> {
    var refusal := RefusalReason(s, cfg, behavior, request, now);
    if refusal.Some? then TaskLevelReject(s, cfg, request.taskId, refusal.value, now)
    else
      [TaskDecision(request.taskId, true, None),
       TaskEventPersisted(Event(s, cfg, request.taskId, EventKind.Accepted, None, None, 1, now))]
  }

  /** The first identity check a decoded request fails. */
  function IdentityRefusal(s: RobotState, cfg: RobotConfig, topicSite: string, topicRobot: RobotId, request: TaskRequest): Option<Reason> {
    if request.scope.site != cfg.scope.site || topicSite != cfg.scope.site then Some(SiteMismatch)
    else if request.scope.deployment != cfg.scope.deployment then Some(DeploymentMismatch)
    else if request.scope.simulationEnv != cfg.scope.simulationEnv then Some(SimulationEnvMismatch)
    else if request.targetRobot != cfg.robotId || topicRobot != cfg.robotId then Some(TargetMismatch)
    else if Some(request.targetIncarnation) != s.token then Some(Reason.IncarnationMismatch)
    else None
  }

  function OnRequest(s: RobotState, cfg: RobotConfig, behavior: Behavior, delivery: RequestDelivery, now: Time): seq<RobotRecord> {
    match delivery
    case RefusedTransport(code) => [RequestRejected(None, code)]
    case WrongTopic => Seq0Rejection(s, cfg, None, UnknownReason("invalid_topic"), now)
    case Undecodable(peeked, conflict) =>
      Seq0Rejection(s, cfg, peeked, if conflict then TaskIdContentConflict else InvalidRequest, now)
    case Decoded(topicSite, topicRobot, request) =>
      var refusal := IdentityRefusal(s, cfg, topicSite, topicRobot, request);
      if refusal.Some? then Seq0Rejection(s, cfg, Some(request.taskId), refusal.value, now)
      else if request.taskId in s.tasks then
        if s.tasks[request.taskId].request == request then [RequestReceived(request, true)]
        else Seq0Rejection(s, cfg, Some(request.taskId), TaskIdContentConflict, now)
      else [RequestReceived(request, false)] + DecideNewTask(s, cfg, behavior, request, now)
  }

  /** The persisted history re-published for a duplicate request; nothing for any other delivery. */
  function ReplayedHistory(s: RobotState, cfg: RobotConfig, delivery: RequestDelivery): seq<TaskEvent> {
    if delivery.Decoded? && IdentityRefusal(s, cfg, delivery.topicSite, delivery.topicRobot, delivery.request).None?
       && delivery.request.taskId in s.tasks && s.tasks[delivery.request.taskId].request == delivery.request
    then s.tasks[delivery.request.taskId].events
    else []
  }

  // -- simulated execution: at most one step per tick

  datatype TickDecision = TickDecision(records: seq<RobotRecord>, exits: bool)

  const IDLE := TickDecision([], false)

  function DecideTick(s: RobotState, cfg: RobotConfig, behavior: Behavior, now: Time): TickDecision {
    if s.current.None? || s.current.value !in s.tasks then IDLE
    else
      var id := s.current.value;
      var t := s.tasks[id];
      if t.IsTerminal() || t.Blocked() || behavior.Standby? then IDLE
      else if behavior.CrashAfterAccept? then TickDecision([], true)
      else if !t.AllConfirmed() then IDLE
      else if t.step == 0 then
        if behavior.CrashAfterExecutionStarted? then TickDecision([ExecutionStarted(id)], true)
        else if behavior.SilentAfterAccept? then TickDecision([ExecutionStarted(id)], false)
        else TickDecision([ExecutionStarted(id),
                           TaskEventPersisted(NextEvent(s, cfg, id, Progress, None, Some("traveling"), now))], false)
      else if behavior.SilentAfterAccept? then IDLE
      else if t.step == 1 then FirstStepResult(s, cfg, behavior, id, now)
      else if t.step == 2 && (behavior.AcceptAndSucceed? || behavior.CrashAfterResultPersisted?) then
        TickDecision([ExecutionCompleted(id, OutcomeSucceeded),
                      TaskEventPersisted(NextEvent(s, cfg, id, Succeeded, None, None, now))],
                     behavior.CrashAfterResultPersisted?)
      else IDLE
  }

  function FirstStepResult(s: RobotState, cfg: RobotConfig, behavior: Behavior, id: TaskId, now: Time): TickDecision
    requires id in s.tasks
  {
    match behavior
    case AcceptAndSucceed => Collecting(s, cfg, id, now)
    case CrashAfterResultPersisted => Collecting(s, cfg, id, now)
    case FailCannotContinue =>
      TickDecision([ExecutionCompleted(id, OutcomeFailed),
                    TaskEventPersisted(NextEvent(s, cfg, id, Failed, Some(CannotContinue), None, now))], false)
    case HelpNeedsManualRecharge =>
      TickDecision([TaskEventPersisted(NextEvent(s, cfg, id, AssistanceRequired, Some(EnergyInsufficient), None, now))], false)
    case HelpUnknownFault(code) =>
      TickDecision([TaskEventPersisted(NextEvent(s, cfg, id, AssistanceRequired, Some(UnknownReason(code)), None, now))], false)
    case _ => IDLE
  }

  function Collecting(s: RobotState, cfg: RobotConfig, id: TaskId, now: Time): TickDecision
    requires id in s.tasks
  {
    TickDecision([RobotRecord.ExecutionProgress(id, 2),
                  TaskEventPersisted(NextEvent(s, cfg, id, Progress, None, Some("collecting"), now))], false)
  }

  /** Operator reset: the abandoned task fails first, the record that clears protection is last. */
  function DecideReset(s: RobotState, cfg: RobotConfig, now: Time): seq<RobotRecord> {
    if s.current.Some? && s.current.value in s.tasks && !s.tasks[s.current.value].IsTerminal() then
      var id := s.current.value;
      [ExecutionCompleted(id, OutcomeFailed),
       TaskEventPersisted(NextEvent(s, cfg, id, Failed, Some(CannotContinue), None, now)),
       SimulateReset]
    else [SimulateReset]
  }

  // -- start and restart

  function AssertStartable(s: RobotState, initialize: bool): Option<StartError> {
    if s.bootSequence == 0 && s.token.None? then
      if initialize then None else Some(RobotStateLost)
    else if initialize then Some(RobotAlreadyProvisioned)
    else if s.token.None? then Some(RobotStateLost)
    else None
  }

  /** How an accepted task interrupted by a restart is reported; nothing is resumed. */
  function RecoveryEvent(s: RobotState, cfg: RobotConfig, id: TaskId, now: Time): TaskEvent
    requires id in s.tasks
  {
    var t := s.tasks[id];
    if t.executionCompleted then
      if t.outcome == Some(OutcomeSucceeded) then NextEvent(s, cfg, id, Succeeded, None, None, now)
      else NextEvent(s, cfg, id, Failed, Some(CannotContinue), None, now)
    else if !t.executionStarted then NextEvent(s, cfg, id, Failed, Some(NotStartedAfterRestart), None, now)
    else NextEvent(s, cfg, id, Inconclusive, Some(InterruptedUnknownOutcome), None, now)
  }

  /** The records one task contributes to one restart pass. */
  function PassRecords(pass: nat, s: RobotState, cfg: RobotConfig, behavior: Behavior, id: TaskId, now: Time): seq<RobotRecord>
    requires 1 <= pass <= 3
  {
    if id !in s.tasks then []
    else
      var t := s.tasks[id];
      if pass == 1 then
        if t.Active() then [TaskEventPersisted(RecoveryEvent(s, cfg, id, now))] else []
      else if pass == 2 then
        if t.decision == Some(false) && t.events == [] then
          [TaskEventPersisted(Event(s, cfg, id, EventKind.Rejected, t.reason, None, 1, now))]
        else []
      else
        if t.decision.None? then DecideNewTask(s, cfg, behavior, t.request, now) else []
  }

  function Pass(pass: nat, s: RobotState, cfg: RobotConfig, behavior: Behavior, ids: seq<TaskId>, now: Time): seq<RobotRecord>
    requires 1 <= pass <= 3
    decreases |ids|
  {
    if ids == [] then []
    else
      var first := PassRecords(pass, s, cfg, behavior, ids[0], now);
      first + Pass(pass, ApplyAll(s, first), cfg, behavior, ids[1..], now)
  }

  /** The provisioning (if any) and boot records that open every start batch. */
  function BootRecords(s: RobotState, cfg: RobotConfig, now: Time, initialize: bool, nonce: string): seq<RobotRecord> {
    var token := if initialize then Incarnation(cfg.robotId, now, nonce) else s.token.GetOr(Unprovisioned);
    (if initialize then [RobotProvisioned(token)] else []) + [RobotStarted(s.bootSequence + 1, token)]
  }

  function StartBatch(s: RobotState, cfg: RobotConfig, behavior: Behavior, now: Time, initialize: bool, nonce: string)
    : Result<seq<RobotRecord>, StartError>
  {
    var refusal := AssertStartable(s, initialize);
    if refusal.Some? then Err(refusal.value)
    else if initialize && nonce == "" then Err(NonceMissing)
    else
      var boot := BootRecords(s, cfg, now, initialize, nonce);
      var s0 := ApplyAll(s, boot);
      var ids := Ascending(s0.tasks.Keys);
      var interrupted := Pass(1, s0, cfg, behavior, ids, now);
      var s1 := ApplyAll(s0, interrupted);
      var rejections := Pass(2, s1, cfg, behavior, ids, now);
      var s2 := ApplyAll(s1, rejections);
      Ok(boot + interrupted + rejections + Pass(3, s2, cfg, behavior, ids, now))
  }
}
