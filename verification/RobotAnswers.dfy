/** Whom the robot turns away, told from its journal: when it waits for a human, and what each delivery is answered. */
module RobotAnswers {
  import opened Common
  import opened TaskContracts
  import opened RobotViews
  import opened RobotExecutor
  import opened RobotLegality
  import opened RobotRuns
  import opened RobotSafety

  // -- protection, read from the journal

  /** A report after which the robot waits for a human. */
  predicate Alarming(r: RobotRecord) {
    r.TaskEventPersisted? && r.event.eventSequence >= 1 && r.event.kind in {AssistanceRequired, EventKind.Failed, Inconclusive}
  }

  predicate EnergyAlarm(r: RobotRecord) {
    Alarming(r) && r.event.reason in {Some(EnergyInsufficient), Some(NeedsManualRecharge)}
  }

  predicate UnknownAlarm(r: RobotRecord) { Alarming(r) && r.event.reason.Some? && r.event.reason.value.UnknownReason? }

  /** An alarm stands that no reset has cleared. */
  ghost predicate AlarmStands(journal: seq<RobotRecord>) {
    exists i :: 0 <= i < |journal| && Alarming(journal[i]) && forall j :: i < j < |journal| ==> !journal[j].SimulateReset?
  }

  /** An energy alarm stands that no unknown fault has blurred since. */
  ghost predicate EnergyStands(journal: seq<RobotRecord>) {
    exists i :: 0 <= i < |journal| && EnergyAlarm(journal[i])
      && forall j :: i < j < |journal| ==> !journal[j].SimulateReset? && !UnknownAlarm(journal[j])
  }

  lemma AlarmStandsAfter(journal: seq<RobotRecord>, r: RobotRecord)
    ensures AlarmStands(journal + [r]) <==> Alarming(r) || (AlarmStands(journal) && !r.SimulateReset?)
  {
    var longer := journal + [r];
    assert longer[|journal|] == r;
    if AlarmStands(longer) && !Alarming(r) {
      var i :| 0 <= i < |longer| && Alarming(longer[i]) && forall j :: i < j < |longer| ==> !longer[j].SimulateReset?;
      assert longer[i] == journal[i];
      forall j | i < j < |journal| ensures !journal[j].SimulateReset? { assert longer[j] == journal[j]; }
    }
    if AlarmStands(journal) && !r.SimulateReset? {
      var i :| 0 <= i < |journal| && Alarming(journal[i]) && forall j :: i < j < |journal| ==> !journal[j].SimulateReset?;
      assert Alarming(longer[i]);
    }
    if Alarming(r) { assert Alarming(longer[|journal|]); }
  }

  lemma EnergyStandsAfter(journal: seq<RobotRecord>, r: RobotRecord)
    ensures EnergyStands(journal + [r]) <==> EnergyAlarm(r) || (EnergyStands(journal) && !r.SimulateReset? && !UnknownAlarm(r))
  {
    hide EnergyAlarm, UnknownAlarm;
    var longer := journal + [r];
    assert longer[|journal|] == r;
    if EnergyStands(longer) && !EnergyAlarm(r) {
      var i :| 0 <= i < |longer| && EnergyAlarm(longer[i]) && forall j :: i < j < |longer| ==> !longer[j].SimulateReset? && !UnknownAlarm(longer[j]);
      assert longer[i] == journal[i];
      forall j | i < j < |journal| ensures !journal[j].SimulateReset? && !UnknownAlarm(journal[j]) { assert longer[j] == journal[j]; }
    }
    if EnergyStands(journal) && !r.SimulateReset? && !UnknownAlarm(r) {
      var i :| 0 <= i < |journal| && EnergyAlarm(journal[i]) && forall j :: i < j < |journal| ==> !journal[j].SimulateReset? && !UnknownAlarm(journal[j]);
      assert EnergyAlarm(longer[i]);
    }
    if EnergyAlarm(r) { assert EnergyAlarm(longer[|journal|]); }
  }

  /** The robot declares that it cannot go on for want of energy. */
  predicate NeedsEnergy(c: Condition) { c.canContinue == Some(false) && c.needsManualRecharge == Some(true) }

  /** What the declared condition and the journal say of each other. */
  ghost predicate ConditionTold(journal: seq<RobotRecord>, c: Condition) {
    && (c.awaitingHuman <==> AlarmStands(journal))
    && (NeedsEnergy(c) <==> EnergyStands(journal))
    && (c.needsManualRecharge == Some(true) ==> c.canContinue == Some(false) && c.awaitingHuman)
  }

  lemma ConditionStep(d: Durable, r: RobotRecord)
    requires StateOk(d.view) && Legal(d, r)
    ensures var (c, after) := (d.view.condition, Advance(d, r).view.condition);
            && (after.awaitingHuman <==> Alarming(r) || (c.awaitingHuman && !r.SimulateReset?))
            && ((c.needsManualRecharge == Some(true) ==> c.canContinue == Some(false) && c.awaitingHuman) ==>
                  && (NeedsEnergy(after) <==> EnergyAlarm(r) || (NeedsEnergy(c) && !r.SimulateReset? && !UnknownAlarm(r)))
                  && (after.needsManualRecharge == Some(true) ==> after.canContinue == Some(false) && after.awaitingHuman))
  {
    hide StateOk, TrueReason;
  }

  lemma {:induction false} ConditionAt(journal: seq<RobotRecord>, n: nat)
    requires LegalJournal(journal) && n <= |journal|
    ensures ConditionTold(journal[..n], At(journal, n).view.condition)
    decreases n
  {
    hide AlarmStands, EnergyStands, NeedsEnergy, Legal, Advance, StateOk, Alarming, EnergyAlarm, UnknownAlarm, LegalJournal;
    if n == 0 {
      assert journal[..0] == [];
      NothingStands();
    } else {
      hide At;
      ConditionAt(journal, n - 1);
      StepAt(journal, n - 1);
      ConditionStep(At(journal, n - 1), journal[n - 1]);
      AlarmStandsAfter(journal[..n - 1], journal[n - 1]);
      EnergyStandsAfter(journal[..n - 1], journal[n - 1]);
      assert journal[..n] == journal[..n - 1] + [journal[n - 1]];
    }
  }

  lemma NothingStands()
    ensures !AlarmStands([]) && !EnergyStands([]) && !NeedsEnergy(CLEAR)
  {
  }

  /** In every run the robot waits for a human exactly while an alarm stands, and for energy exactly while an energy alarm does. */
  lemma ProtectedExactly(cfg: RobotConfig, choices: seq<Choice>, n: nat)
    requires n <= |Run(cfg, choices).journal|
    ensures var (journal, c) := (Run(cfg, choices).journal[..n], At(Run(cfg, choices).journal, n).view.condition);
            && (c.awaitingHuman <==> AlarmStands(journal))
            && (c.canContinue == Some(false) && c.needsManualRecharge == Some(true) <==> EnergyStands(journal))
  {
    RunIsLegal(cfg, choices);
    hide Run, AlarmStands, EnergyStands, LegalJournal, At;
    ConditionAt(Run(cfg, choices).journal, n);
  }

  // -- the decision on a new request

  /** Some accepted task has no terminal yet. */
  ghost predicate HoldsTask(s: RobotState) { exists id :: id in s.tasks && s.tasks[id].decision == Some(true) && s.tasks[id].terminal.None? }

  /** Why a new request is refused, by precedence; None is an acceptance. */
  ghost predicate Verdict(journal: seq<RobotRecord>, s: RobotState, cfg: RobotConfig, behavior: Behavior, request: TaskRequest, now: Time,
                          refusal: Option<Reason>)
  {
    && (refusal == Some(EnergyInsufficient) <==> AlarmStands(journal) && EnergyStands(journal))
    && (refusal == Some(RobotFaulted) <==> AlarmStands(journal) && !EnergyStands(journal))
    && (refusal == Some(TaskExpired) <==> !AlarmStands(journal) && request.expiresAt <= now)
    && (refusal == Some(RobotBusy) <==> !AlarmStands(journal) && now < request.expiresAt && HoldsTask(s))
    && (refusal == Some(UnsupportedTaskType) <==>
          !AlarmStands(journal) && now < request.expiresAt && !HoldsTask(s) && (behavior == Standby || request.taskType !in cfg.taskTypes))
    && (refusal.None? <==>
          !AlarmStands(journal) && now < request.expiresAt && !HoldsTask(s) && behavior != Standby && request.taskType in cfg.taskTypes)
  }

  lemma HoldsCurrent(s: RobotState)
    requires StateOk(s)
    ensures s.current.Some? <==> HoldsTask(s)
    ensures s.condition.awaitingHuman <==> s.condition.availability.Faulted? || s.condition.availability.AwaitingHuman?
    ensures !s.condition.availability.EStopped?
  {
    hide TasksOk, CountsOk;
    if s.current.Some? { assert s.tasks[s.current.value].Active(); }
  }

  lemma RefusalVerdict(journal: seq<RobotRecord>, cfg: RobotConfig, behavior: Behavior, request: TaskRequest, now: Time)
    requires LegalJournal(journal)
    ensures var s := DurableOf(journal).view; Verdict(journal, s, cfg, behavior, request, now, RefusalReason(s, cfg, behavior, request, now))
  {
    hide StateOk, LegalJournal, AlarmStands, EnergyStands, HoldsTask;
    FinalState(journal);
    HoldsCurrent(DurableOf(journal).view);
    ConditionAt(journal, |journal|);
    hide At, DurableOf;
    assert journal[..|journal|] == journal;
  }

  // -- deliveries

  /** The request is for this robot, in this incarnation, at this site, and came on this robot's topic. */
  predicate Addressed(cfg: RobotConfig, s: RobotState, topicSite: string, topicRobot: RobotId, request: TaskRequest) {
    && request.scope == cfg.scope && topicSite == cfg.scope.site
    && request.targetRobot == cfg.robotId && topicRobot == cfg.robotId && Some(request.targetIncarnation) == s.token
  }

  /** The first thing that is wrong with the address, in the order it is checked. */
  ghost predicate Misaddressed(cfg: RobotConfig, s: RobotState, topicSite: string, topicRobot: RobotId, request: TaskRequest, code: Reason) {
    var site := request.scope.site == cfg.scope.site && topicSite == cfg.scope.site;
    var deployment := site && request.scope.deployment == cfg.scope.deployment;
    var env := deployment && request.scope.simulationEnv == cfg.scope.simulationEnv;
    var robot := env && request.targetRobot == cfg.robotId && topicRobot == cfg.robotId;
    && (code == SiteMismatch <==> !site)
    && (code == DeploymentMismatch <==> site && !deployment)
    && (code == SimulationEnvMismatch <==> deployment && !env)
    && (code == TargetMismatch <==> env && !robot)
    && (code == Reason.IncarnationMismatch <==> robot && Some(request.targetIncarnation) != s.token)
    && code in {SiteMismatch, DeploymentMismatch, SimulationEnvMismatch, TargetMismatch, Reason.IncarnationMismatch}
  }

  /** An event of this robot in its present boot. */
  predicate OwnEvent(cfg: RobotConfig, s: RobotState, e: TaskEvent, id: TaskId, now: Time) {
    e.scope == cfg.scope && e.robotId == cfg.robotId && e.taskId == id && Some(e.incarnation) == s.bootId && e.bootSequence == s.bootSequence
    && e.reportedAt == now && e.phase.None?
  }

  /** Turned away at the door: one refusal, and an event outside every history. */
  predicate TurnedAway(cfg: RobotConfig, s: RobotState, rs: seq<RobotRecord>, id: TaskId, code: Reason, now: Time) {
    && |rs| == 2 && rs[0] == RequestRejected(Some(id), code) && rs[1].TaskEventPersisted? && OwnEvent(cfg, s, rs[1].event, id, now)
    && rs[1].event.eventSequence == 0 && rs[1].event.kind == EventKind.Rejected && rs[1].event.reason == Some(code)
  }

  /** Received and decided: the request, the decision, and the first event of the task's history. */
  predicate Decided(cfg: RobotConfig, s: RobotState, rs: seq<RobotRecord>, request: TaskRequest, refusal: Option<Reason>, now: Time) {
    && |rs| == 3 && rs[0] == RequestReceived(request, false) && rs[1] == TaskDecision(request.taskId, refusal.None?, refusal)
    && rs[2].TaskEventPersisted? && OwnEvent(cfg, s, rs[2].event, request.taskId, now) && rs[2].event.eventSequence == 1
    && rs[2].event.kind == (if refusal.None? then EventKind.Accepted else EventKind.Rejected) && rs[2].event.reason == refusal
  }

  lemma AddressMeaning(cfg: RobotConfig, s: RobotState, topicSite: string, topicRobot: RobotId, request: TaskRequest)
    ensures var refusal := IdentityRefusal(s, cfg, topicSite, topicRobot, request);
            && (refusal.None? <==> Addressed(cfg, s, topicSite, topicRobot, request))
            && (refusal.Some? ==> Misaddressed(cfg, s, topicSite, topicRobot, request, refusal.value))
  {
  }

  lemma DecisionShape(s: RobotState, cfg: RobotConfig, behavior: Behavior, request: TaskRequest, now: Time)
    requires s.bootId.Some?
    ensures Decided(cfg, s, [RequestReceived(request, false)] + DecideNewTask(s, cfg, behavior, request, now), request,
                    RefusalReason(s, cfg, behavior, request, now), now)
  {
    hide RefusalReason;
  }

  lemma Seq0Shape(s: RobotState, cfg: RobotConfig, id: TaskId, code: Reason, now: Time)
    requires s.bootSequence >= 1 && s.bootId.Some?
    ensures TurnedAway(cfg, s, Seq0Rejection(s, cfg, Some(id), code, now), id, code, now)
  {
  }

  /** What a running robot does with a decoded request: it is turned away exactly when it is not addressed or contradicts a known
      one, repeated exactly when it is known, and otherwise decided as the journal calls for. */
  ghost predicate Answered(journal: seq<RobotRecord>, cfg: RobotConfig, behavior: Behavior, topicSite: string, topicRobot: RobotId,
                           request: TaskRequest, now: Time, rs: seq<RobotRecord>, replayed: seq<TaskEvent>)
  {
    var s := DurableOf(journal).view;
    if !Addressed(cfg, s, topicSite, topicRobot, request) then
      replayed == [] && exists code :: TurnedAway(cfg, s, rs, request.taskId, code, now) && Misaddressed(cfg, s, topicSite, topicRobot, request, code)
    else if request.taskId !in s.tasks then
      replayed == [] && exists refusal :: Decided(cfg, s, rs, request, refusal, now) && Verdict(journal, s, cfg, behavior, request, now, refusal)
    else if s.tasks[request.taskId].request == request then
      replayed == s.tasks[request.taskId].events && rs == [RequestReceived(request, true)]
    else replayed == [] && TurnedAway(cfg, s, rs, request.taskId, TaskIdContentConflict, now)
  }

  lemma RequestCases(journal: seq<RobotRecord>, cfg: RobotConfig, behavior: Behavior, topicSite: string, topicRobot: RobotId,
                     request: TaskRequest, now: Time)
    requires LegalJournal(journal) && DurableOf(journal).view.bootSequence >= 1 && DurableOf(journal).view.bootId.Some?
    ensures var s := DurableOf(journal).view;
            var delivery := Decoded(topicSite, topicRobot, request);
            Answered(journal, cfg, behavior, topicSite, topicRobot, request, now,
                     OnRequest(s, cfg, behavior, delivery, now), ReplayedHistory(s, cfg, delivery))
  {
    var s := DurableOf(journal).view;
    hide DurableOf, Addressed, Misaddressed, IdentityRefusal, Verdict, Decided, TurnedAway, DecideNewTask, RefusalReason, Seq0Rejection, LegalJournal;
    AddressMeaning(cfg, s, topicSite, topicRobot, request);
    var refusal := IdentityRefusal(s, cfg, topicSite, topicRobot, request);
    if refusal.Some? {
      Seq0Shape(s, cfg, request.taskId, refusal.value, now);
    } else if request.taskId !in s.tasks {
      DecisionShape(s, cfg, behavior, request, now);
      RefusalVerdict(journal, cfg, behavior, request, now);
    } else {
      Seq0Shape(s, cfg, request.taskId, TaskIdContentConflict, now);
    }
  }

  /** In every run, a running robot answers each decoded request by that table. */
  lemma RequestAnswered(cfg: RobotConfig, choices: seq<Choice>, topicSite: string, topicRobot: RobotId, request: TaskRequest, now: Time)
    requires Run(cfg, choices).process.Up?
    ensures var robot := Run(cfg, choices);
            var delivery := Decoded(topicSite, topicRobot, request);
            Answered(robot.journal, cfg, robot.process.behavior, topicSite, topicRobot, request, now,
                     Batch(cfg, robot, Receive(delivery, now)), ReplayedHistory(DurableOf(robot.journal).view, cfg, delivery))
  {
    RunIsLegal(cfg, choices);
    RunningIsBooted(cfg, choices);
    hide Run, DurableOf, Answered, OnRequest, ReplayedHistory, LegalJournal;
    RequestCases(Run(cfg, choices).journal, cfg, Run(cfg, choices).process.behavior, topicSite, topicRobot, request, now);
  }

  /** What cannot be read is refused without touching any task: with the sender's task id if one could be made out. */
  lemma UnreadableRefused(cfg: RobotConfig, choices: seq<Choice>, delivery: RequestDelivery, now: Time)
    requires Run(cfg, choices).process.Up? && !delivery.Decoded?
    ensures var robot := Run(cfg, choices);
            var rs := Batch(cfg, robot, Receive(delivery, now));
            match delivery
            case RefusedTransport(code) => rs == [RequestRejected(None, code)]
            case WrongTopic => rs == [RequestRejected(None, UnknownReason("invalid_topic"))]
            case Undecodable(peeked, conflict) =>
              var code := if conflict then TaskIdContentConflict else InvalidRequest;
              if peeked.Some? then TurnedAway(cfg, DurableOf(robot.journal).view, rs, peeked.value, code, now) else rs == [RequestRejected(None, code)]
            case Decoded(_, _, _) => true
  {
    RunningIsBooted(cfg, choices);
    hide Run, DurableOf, TurnedAway;
    if delivery.Undecodable? && delivery.peekedTask.Some? {
      var code := if delivery.contentConflict then TaskIdContentConflict else InvalidRequest;
      Seq0Shape(DurableOf(Run(cfg, choices).journal).view, cfg, delivery.peekedTask.value, code, now);
      hide Seq0Rejection;
    }
  }

  lemma RunningIsBooted(cfg: RobotConfig, choices: seq<Choice>)
    requires Run(cfg, choices).process.Up?
    ensures var s := DurableOf(Run(cfg, choices).journal).view; s.bootSequence >= 1 && s.bootId.Some?
  {
    RunSound(cfg, choices);
    hide Run, CountsOk, ProtectionOk, DurableOf;
  }

  // -- starting

  /** The journal tells who the robot is. */
  ghost predicate Provisioned(journal: seq<RobotRecord>, token: Incarnation) { RobotProvisioned(token) in journal }

  ghost predicate EverProvisioned(journal: seq<RobotRecord>) { exists token :: Provisioned(journal, token) }

  /** How many times the robot booted. */
  function Boots(journal: seq<RobotRecord>): nat {
    if journal == [] then 0 else Boots(journal[..|journal| - 1]) + if journal[|journal| - 1].RobotStarted? then 1 else 0
  }

  ghost predicate IdentityTold(journal: seq<RobotRecord>, s: RobotState) {
    && s.bootSequence == Boots(journal)
    && (s.token.Some? ==> Provisioned(journal, s.token.value))
    && (s.token.None? ==> !EverProvisioned(journal))
  }

  lemma BootsSnoc(journal: seq<RobotRecord>, r: RobotRecord)
    ensures Boots(journal + [r]) == Boots(journal) + if r.RobotStarted? then 1 else 0
  {
    assert (journal + [r])[..|journal|] == journal;
  }

  lemma IdentityStep(journal: seq<RobotRecord>, d: Durable, r: RobotRecord)
    requires Legal(d, r) && IdentityTold(journal, d.view)
    ensures IdentityTold(journal + [r], Advance(d, r).view)
  {
    hide LegalEvent, DeriveCondition, TrueReason;
    BootsSnoc(journal, r);
    hide Boots;
    forall x ensures x in journal + [r] <==> x in journal || x == r {}
    if d.view.token.None? && !r.RobotProvisioned? {
      forall token ensures !Provisioned(journal + [r], token) { assert !Provisioned(journal, token); }
    }
  }

  lemma {:induction false} IdentityAt(journal: seq<RobotRecord>, n: nat)
    requires LegalJournal(journal) && n <= |journal|
    ensures IdentityTold(journal[..n], At(journal, n).view)
    decreases n
  {
    hide Legal, Advance, StateOk, LegalJournal;
    if n == 0 {
      assert journal[..0] == [];
    } else {
      hide At, IdentityTold;
      IdentityAt(journal, n - 1);
      StepAt(journal, n - 1);
      IdentityStep(journal[..n - 1], At(journal, n - 1), journal[n - 1]);
      assert journal[..n] == journal[..n - 1] + [journal[n - 1]];
    }
  }

  /** The batch opens with the records that say who started, and which start it is. */
  predicate OpensWith(batch: seq<RobotRecord>, records: seq<RobotRecord>) { records <= batch }

  ghost predicate StartTold(journal: seq<RobotRecord>, cfg: RobotConfig, now: Time, initialize: bool, nonce: string,
                            start: Result<seq<RobotRecord>, StartError>)
  {
    match start
    case Err(RobotStateLost) => !initialize && !EverProvisioned(journal)
    case Err(RobotAlreadyProvisioned) => initialize && EverProvisioned(journal)
    case Err(NonceMissing) => initialize && !EverProvisioned(journal) && nonce == ""
    case Ok(batch) =>
      if initialize then
        var token := Incarnation(cfg.robotId, now, nonce);
        !EverProvisioned(journal) && nonce != "" && OpensWith(batch, [RobotProvisioned(token)] + [RobotStarted(Boots(journal) + 1, token)])
      else exists token :: Provisioned(journal, token) && OpensWith(batch, [RobotStarted(Boots(journal) + 1, token)])
  }

  lemma BatchOpens(s: RobotState, cfg: RobotConfig, behavior: Behavior, now: Time, initialize: bool, nonce: string)
    requires StartBatch(s, cfg, behavior, now, initialize, nonce).Ok?
    ensures OpensWith(StartBatch(s, cfg, behavior, now, initialize, nonce).value, BootRecords(s, cfg, now, initialize, nonce))
  {
    hide BootRecords, AssertStartable, Pass, ApplyAll, Ascending;
  }

  lemma StartCases(journal: seq<RobotRecord>, s: RobotState, cfg: RobotConfig, behavior: Behavior, now: Time, initialize: bool, nonce: string)
    requires IdentityTold(journal, s) && (s.token.None? ==> s.bootSequence == 0)
    ensures StartTold(journal, cfg, now, initialize, nonce, StartBatch(s, cfg, behavior, now, initialize, nonce))
  {
    hide IdentityTold, OpensWith, EverProvisioned, Boots, StartBatch, BootRecords;
    KnownIdentity(journal, s);
    StartRefusals(s, cfg, behavior, now, initialize, nonce);
    var start := StartBatch(s, cfg, behavior, now, initialize, nonce);
    if start.Ok? {
      BatchOpens(s, cfg, behavior, now, initialize, nonce);
      StartedTold(journal, s, cfg, now, initialize, nonce, start.value);
    }
  }

  lemma StartedTold(journal: seq<RobotRecord>, s: RobotState, cfg: RobotConfig, now: Time, initialize: bool, nonce: string, batch: seq<RobotRecord>)
    requires IdentityTold(journal, s) && OpensWith(batch, BootRecords(s, cfg, now, initialize, nonce))
    requires if initialize then s.token.None? && nonce != "" else s.token.Some?
    ensures StartTold(journal, cfg, now, initialize, nonce, Ok(batch))
  {
    KnownIdentity(journal, s);
    BootRecordsAre(s, cfg, now, initialize, nonce);
    hide OpensWith, EverProvisioned, Provisioned, Boots, BootRecords;
  }

  lemma KnownIdentity(journal: seq<RobotRecord>, s: RobotState)
    requires IdentityTold(journal, s)
    ensures s.token.Some? <==> EverProvisioned(journal)
  {
    hide Boots;
  }

  lemma StartRefusals(s: RobotState, cfg: RobotConfig, behavior: Behavior, now: Time, initialize: bool, nonce: string)
    requires s.token.None? ==> s.bootSequence == 0
    ensures match StartBatch(s, cfg, behavior, now, initialize, nonce)
            case Err(RobotStateLost) => !initialize && s.token.None?
            case Err(RobotAlreadyProvisioned) => initialize && s.token.Some?
            case Err(NonceMissing) => initialize && s.token.None? && nonce == ""
            case Ok(_) => if initialize then s.token.None? && nonce != "" else s.token.Some?
  {
    hide Pass, ApplyAll, Ascending, BootRecords;
  }

  lemma BootRecordsAre(s: RobotState, cfg: RobotConfig, now: Time, initialize: bool, nonce: string)
    requires !initialize ==> s.token.Some?
    ensures var token := if initialize then Incarnation(cfg.robotId, now, nonce) else s.token.value;
            BootRecords(s, cfg, now, initialize, nonce) ==
              (if initialize then [RobotProvisioned(token)] else []) + [RobotStarted(s.bootSequence + 1, token)]
  {
  }

  /** In every run the robot starts exactly with initialization and a nonce while its journal holds no provisioning, and without
      initialization once it does; its boot record counts the boots and names the provisioned identity. */
  lemma StartsExactly(cfg: RobotConfig, choices: seq<Choice>, behavior: Behavior, now: Time, initialize: bool, nonce: string)
    ensures var journal := Run(cfg, choices).journal;
            StartTold(journal, cfg, now, initialize, nonce, StartBatch(DurableOf(journal).view, cfg, behavior, now, initialize, nonce))
  {
    var journal := Run(cfg, choices).journal;
    RunIsLegal(cfg, choices);
    FinalState(journal);
    assert DurableOf(journal).view.token.None? ==> DurableOf(journal).view.bootSequence == 0;
    hide Run, LegalJournal, At, DurableOf, StateOk, StartBatch, IdentityTold, StartTold;
    IdentityAt(journal, |journal|);
    assert journal[..|journal|] == journal;
    StartCases(journal, DurableOf(journal).view, cfg, behavior, now, initialize, nonce);
  }
}
