/** What the Edge writes down for each delivery and each creation request, told from the fields, and that nothing anomalous gets by. */
module EdgeAnswers {
  import opened Common
  import opened TaskContracts
  import opened EdgeViews
  import opened EdgeDecisions
  import opened EdgeLegality
  import opened EdgeRuns
  import opened EdgeMeaning
  import opened EdgeGates
  import EdgeAlerts

  function DeviceOf(s: EdgeState, robot: RobotId): DeviceView { if robot in s.devices then s.devices[robot] else NEW_DEVICE }

  // -- events

  /** The event is of this deployment, came on its robot's own topic, and is about a task that was given to that robot. */
  predicate EventAddressed(cfg: EdgeConfig, s: EdgeState, site: string, robot: RobotId, e: TaskEvent) {
    && site == cfg.scope.site && e.scope == cfg.scope && robot == e.robotId && e.robotId in cfg.robotIds
    && e.taskId in s.tasks && s.tasks[e.taskId].request.targetRobot == e.robotId
  }

  /** The first word from another incarnation of the robot than the one last seen. */
  predicate FirstForeign(s: EdgeState, robot: RobotId, incarnation: Incarnation) {
    var d := DeviceOf(s, robot);
    !d.sessionRegression && d.boot.Some? && d.boot.value.incarnation != incarnation
  }

  /** The evidence record of the event comes first; what it announces follows, and nothing else. */
  ghost predicate Recorded(t: TaskView, e: TaskEvent, regressed: bool, rs: seq<EdgeRecord>) {
    rs != [] && rs[0].TaskEventReceived? && rs[0].event == e && Announces(t, e, regressed, rs)
    && (forall i :: 0 < i < |rs| ==> !rs[i].TaskEventReceived?)
  }

  /** An event that cannot be read or is not addressed is refused; a foreign one exposes the lost continuity first; and every
      addressed one is written down. */
  ghost predicate EventAnswered(cfg: EdgeConfig, s: EdgeState, delivery: EventDelivery, rs: seq<EdgeRecord>) {
    match delivery
    case UndecodableEvent => rs == [TaskEventRejected(None)]
    case EventMessage(site, robot, e) =>
      if !EventAddressed(cfg, s, site, robot, e) then rs == [TaskEventRejected(Some(e.taskId))]
      else if e.eventSequence == 0 then
        rs == (if FirstForeign(s, e.robotId, e.incarnation) then [SessionRegression(e.robotId)] else []) + [RobotRequestRejected(e.taskId)]
      else
        var t := s.tasks[e.taskId];
        if Fresh(t.evidence, e) && FirstForeign(s, e.robotId, e.incarnation) then
          rs != [] && rs[0] == SessionRegression(e.robotId) && Recorded(t, e, true, rs[1..])
        else Recorded(t, e, DeviceOf(s, e.robotId).sessionRegression, rs)
  }

  lemma RecordedShape(t: TaskView, e: TaskEvent, regressed: bool)
    requires EvidenceOk(t.evidence) && FinishedAnswered(t.evidence) && e.eventSequence >= 1
    ensures Recorded(t, e, regressed, EventRecords(t, e, Classify(t.evidence, e, regressed)))
  {
    RecordsMeaning(t, e, regressed);
    hide Announces, Classify, EvidenceOk, FinishedAnswered;
  }

  lemma AddressMeaning(cfg: EdgeConfig, s: EdgeState, site: string, robot: RobotId, e: TaskEvent)
    ensures EventRefusal(s, cfg, EventMessage(site, robot, e)) == if EventAddressed(cfg, s, site, robot, e) then None else Some(Some(e.taskId))
  {
  }

  /** A key already held is judged alike, regressed or not, up to what it announces. */
  lemma HeldKey(t: TaskView, e: TaskEvent, a: bool, b: bool)
    requires !Fresh(t.evidence, e)
    ensures Classify(t.evidence, e, a) == Classify(t.evidence, e, b)
  {
    hide Differs;
  }

  lemma EventCases(cfg: EdgeConfig, s: EdgeState, delivery: EventDelivery)
    requires forall id :: id in s.tasks ==> Settled(s.tasks[id])
    ensures EventAnswered(cfg, s, delivery, DecideEventRecords(s, cfg, delivery))
  {
    if delivery.EventMessage? {
      var e := delivery.event;
      AddressMeaning(cfg, s, delivery.topicSite, delivery.topicRobot, e);
      hide EventRefusal, EventAddressed, Settled, EventRecords, Recorded;
      if EventAddressed(cfg, s, delivery.topicSite, delivery.topicRobot, e) {
        AddressedIsKnown(cfg, s, delivery.topicSite, delivery.topicRobot, e);
        if e.eventSequence >= 1 { TaskEventCase(cfg, s, e, s.tasks[e.taskId], DecideEventRecords(s, cfg, delivery)); }
      }
    }
  }

  lemma TaskEventCase(cfg: EdgeConfig, s: EdgeState, e: TaskEvent, t: TaskView, rs: seq<EdgeRecord>)
    requires Settled(t) && e.eventSequence >= 1
    requires var exposes := ExposesRegression(s, e);
             rs == (if e.OrderKey() in t.evidence.seen || !exposes then [] else [SessionRegression(e.robotId)])
                   + EventRecords(t, e, Classify(t.evidence, e, exposes || Regressed(s, e.robotId)))
    ensures if Fresh(t.evidence, e) && FirstForeign(s, e.robotId, e.incarnation) then
              rs != [] && rs[0] == SessionRegression(e.robotId) && Recorded(t, e, true, rs[1..])
            else Recorded(t, e, DeviceOf(s, e.robotId).sessionRegression, rs)
  {
    var regressed := ExposesRegression(s, e) || Regressed(s, e.robotId);
    SettledFacts(t);
    RecordedShape(t, e, regressed);
    RecordedShape(t, e, Regressed(s, e.robotId));
    if !Fresh(t.evidence, e) { HeldKey(t, e, regressed, Regressed(s, e.robotId)); }
    hide Recorded, EventRecords, Classify, Settled;
    var records := EventRecords(t, e, Classify(t.evidence, e, regressed));
    assert ([SessionRegression(e.robotId)] + records)[1..] == records;
    assert [] + records == records;
  }

  lemma AddressedIsKnown(cfg: EdgeConfig, s: EdgeState, site: string, robot: RobotId, e: TaskEvent)
    requires EventAddressed(cfg, s, site, robot, e)
    ensures e.taskId in s.tasks && s.tasks[e.taskId].request.targetRobot == e.robotId
  {
  }

  lemma SettledFacts(t: TaskView)
    requires Settled(t)
    ensures EvidenceOk(t.evidence) && FinishedAnswered(t.evidence)
  {
    hide EvidenceOk;
  }

  lemma RunSettled(cfg: EdgeConfig, choices: seq<EdgeChoice>)
    ensures LegalJournal(cfg, EdgeRun(cfg, choices))
    ensures forall id :: id in ViewOf(cfg, EdgeRun(cfg, choices)).tasks ==> Settled(ViewOf(cfg, EdgeRun(cfg, choices)).tasks[id])
  {
    var journal := EdgeRun(cfg, choices);
    RunLegal(cfg, choices);
    FinalAt(cfg, journal);
    hide EdgeRun, LegalJournal, ViewOf, At, TasksOk, Settled;
    forall id | id in ViewOf(cfg, journal).tasks ensures Settled(ViewOf(cfg, journal).tasks[id]) { SettledAt(cfg, journal, |journal|, id); }
  }

  /** In every run each delivered event is answered by that table. */
  lemma EveryEventAnswered(cfg: EdgeConfig, choices: seq<EdgeChoice>, delivery: EventDelivery)
    ensures var s := ViewOf(cfg, EdgeRun(cfg, choices)); EventAnswered(cfg, s, delivery, DecideEventRecords(s, cfg, delivery))
  {
    RunSettled(cfg, choices);
    hide EdgeRun, ViewOf, Settled, EventAnswered, DecideEventRecords, LegalJournal;
    EventCases(cfg, ViewOf(cfg, EdgeRun(cfg, choices)), delivery);
  }

  // -- an anomaly closes the gate as soon as its first line is durable

  ghost predicate Alarming(cfg: EdgeConfig, s: EdgeState, delivery: EventDelivery) {
    delivery.EventMessage? &&
    var e := delivery.event;
    && EventAddressed(cfg, s, delivery.topicSite, delivery.topicRobot, e) && e.eventSequence >= 1
    && (Anomalous(s.tasks[e.taskId].evidence, e) || (Fresh(s.tasks[e.taskId].evidence, e) && FirstForeign(s, e.robotId, e.incarnation)))
  }

  lemma FirstLine(cfg: EdgeConfig, s: EdgeState, delivery: EventDelivery, rs: seq<EdgeRecord>)
    requires EventAnswered(cfg, s, delivery, rs) && Alarming(cfg, s, delivery)
    ensures rs != []
    ensures || rs[0] == SessionRegression(delivery.event.robotId)
            || (rs[0].TaskEventReceived? && rs[0].event == delivery.event && Anomalous(s.tasks[delivery.event.taskId].evidence, delivery.event))
  {
    hide Anomalous, Announces;
  }

  lemma NextJournal(cfg: EdgeConfig, choices: seq<EdgeChoice>, delivery: EventDelivery, now: Time, persisted: nat)
    requires persisted >= 1 && DecideEventRecords(ViewOf(cfg, EdgeRun(cfg, choices)), cfg, delivery) != []
    ensures var journal := EdgeRun(cfg, choices);
            var longer := EdgeRun(cfg, choices + [EdgeChoice(EventArrives(delivery, now), persisted)]);
            && |journal| < |longer| && longer[..|journal|] == journal
            && longer[|journal|].record == DecideEventRecords(ViewOf(cfg, journal), cfg, delivery)[0]
  {
    var c := EdgeChoice(EventArrives(delivery, now), persisted);
    assert (choices + [c])[..|choices|] == choices;
    var journal := EdgeRun(cfg, choices);
    FirstKept(DecideEventRecords(ViewOf(cfg, journal), cfg, delivery), now, persisted);
    assert EdgeRun(cfg, choices + [c]) == journal + Kept(StepBatch(cfg, ViewOf(cfg, journal), c.step), c.persisted);
    hide DecideEventRecords, ViewOf, Kept, Stamp, EdgeRun;
  }

  lemma FirstKept(rs: seq<EdgeRecord>, now: Time, persisted: nat)
    requires rs != [] && persisted >= 1
    ensures var kept := Kept(Stamp(rs, now), persisted); kept != [] && kept[0].record == rs[0]
  {
  }

  /** Whenever an addressed event is anomalous or from another incarnation, the robot's gate is closed once its first line is durable. */
  lemma AlarmClosesGate(cfg: EdgeConfig, choices: seq<EdgeChoice>, delivery: EventDelivery, now: Time, persisted: nat)
    requires persisted >= 1 && Alarming(cfg, ViewOf(cfg, EdgeRun(cfg, choices)), delivery)
    ensures GateClosed(ViewOf(cfg, EdgeRun(cfg, choices + [EdgeChoice(EventArrives(delivery, now), persisted)])), delivery.event.robotId)
  {
    var journal := EdgeRun(cfg, choices);
    var more := choices + [EdgeChoice(EventArrives(delivery, now), persisted)];
    var longer := EdgeRun(cfg, more);
    var s := ViewOf(cfg, journal);
    AlarmingAddressed(cfg, s, delivery);
    hide *;
    EveryEventAnswered(cfg, choices, delivery);
    FirstLine(cfg, s, delivery, DecideEventRecords(s, cfg, delivery));
    NextJournal(cfg, choices, delivery, now, persisted);
    AtPrefix(cfg, journal, longer);
    IsCulprit(cfg, longer, |journal|, s, delivery.event);
    GateExactly(cfg, more, |longer|, delivery.event.robotId);
    FinalAt(cfg, longer);
    OneCulprit(cfg, longer, |journal|, delivery.event.robotId);
  }

  lemma AlarmingAddressed(cfg: EdgeConfig, s: EdgeState, delivery: EventDelivery)
    requires Alarming(cfg, s, delivery)
    ensures delivery.EventMessage? && delivery.event.taskId in s.tasks
    ensures s.tasks[delivery.event.taskId].request.targetRobot == delivery.event.robotId
  {
    hide Anomalous;
  }

  lemma AtPrefix(cfg: EdgeConfig, journal: seq<Stamped>, longer: seq<Stamped>)
    requires |journal| <= |longer| && longer[..|journal|] == journal
    ensures At(cfg, longer, |journal|) == ViewOf(cfg, journal)
  {
  }

  lemma IsCulprit(cfg: EdgeConfig, longer: seq<Stamped>, i: nat, s: EdgeState, e: TaskEvent)
    requires i < |longer| && At(cfg, longer, i) == s
    requires e.taskId in s.tasks && s.tasks[e.taskId].request.targetRobot == e.robotId
    requires longer[i].record == SessionRegression(e.robotId)
          || (longer[i].record.TaskEventReceived? && longer[i].record.event == e && Anomalous(s.tasks[e.taskId].evidence, e))
    ensures Culprit(cfg, longer, i, e.robotId)
  {
    hide At, Anomalous;
  }

  lemma OneCulprit(cfg: EdgeConfig, journal: seq<Stamped>, i: nat, robot: RobotId)
    requires i < |journal| && Culprit(cfg, journal, i, robot)
    ensures AnyCulprit(cfg, journal, |journal|, robot)
  {
    hide Culprit;
  }

  // -- creation

  /** The robot has an unfinished task. */
  ghost predicate HoldsTask(s: EdgeState, robot: RobotId) {
    exists id :: id in s.tasks && s.tasks[id].request.targetRobot == robot
              && s.tasks[id].evidence.state in {Created, AcceptedState, Running, BlockedAwaitingHuman}
  }

  /** The request fits this deployment, what is commissioned, and the task vocabulary. */
  predicate Fits(cfg: EdgeConfig, facts: AdmissionFacts, request: TaskRequest) {
    && request.scope == cfg.scope && facts.site == cfg.scope.site && facts.deployment == cfg.scope.deployment
    && request.targetRobot in facts.robotIds && request.targetRobot in cfg.robotIds
    && request.zone in facts.zones && request.taskType in facts.taskTypes
  }

  /** A new task may be given: in time, to the incarnation last seen of a robot that holds none and never gave cause for alarm. */
  ghost predicate MayCreate(cfg: EdgeConfig, journal: seq<Stamped>, request: TaskRequest, now: Time) {
    var s := ViewOf(cfg, journal);
    var d := DeviceOf(s, request.targetRobot);
    && request.taskId !in s.tasks && now < request.expiresAt
    && d.boot.Some? && d.boot.value.incarnation == request.targetIncarnation
    && !AnyCulprit(cfg, journal, |journal|, request.targetRobot) && !HoldsTask(s, request.targetRobot)
  }

  ghost predicate CreationAnswered(cfg: EdgeConfig, journal: seq<Stamped>, facts: AdmissionFacts, request: TaskRequest, now: Time,
                                   answer: (CreateOutcome, seq<Stamped>))
  {
    if !Fits(cfg, facts, request) then answer == (Refused, [Stamped(TaskCreateRejected(request.taskId), now)])
    else if request.taskId in ViewOf(cfg, journal).tasks then answer == (Idempotent, [])
    else if MayCreate(cfg, journal, request, now) then answer == (CreatedTask, [Stamped(TaskCreated(request), now)])
    else answer == (Refused, [Stamped(TaskCreateRejected(request.taskId), now)])
  }

  lemma HoldsMeaning(s: EdgeState, robot: RobotId)
    ensures HoldsTask(s, robot) <==> HasActiveTask(s, robot)
  {
  }

  lemma FitsMeaning(cfg: EdgeConfig, facts: AdmissionFacts, request: TaskRequest)
    ensures Fits(cfg, facts, request) <==> Admissible(cfg, facts, request)
  {
  }

  /** In every run each creation request is answered by that table. */
  lemma EveryCreationAnswered(cfg: EdgeConfig, choices: seq<EdgeChoice>, facts: AdmissionFacts, request: TaskRequest, now: Time)
    ensures var journal := EdgeRun(cfg, choices);
            CreationAnswered(cfg, journal, facts, request, now, DecideCreate(ViewOf(cfg, journal), cfg, facts, request, now))
  {
    var journal := EdgeRun(cfg, choices);
    FinalAt(cfg, journal);
    hide EdgeRun, ViewOf, At, AnyCulprit, GateClosed, HoldsTask, HasActiveTask, Fits, Admissible;
    GateExactly(cfg, choices, |journal|, request.targetRobot);
    HoldsMeaning(ViewOf(cfg, journal), request.targetRobot);
    FitsMeaning(cfg, facts, request);
  }

  // -- statuses

  predicate StatusAddressed(cfg: EdgeConfig, site: string, robot: RobotId, m: StatusMessage) {
    site == cfg.scope.site && m.scope == cfg.scope && robot == m.robotId && m.robotId in cfg.robotIds
  }

  /** The robot's persisted continuity is gone: an older boot than the one seen, or another incarnation. */
  predicate Discontinuous(d: DeviceView, m: StatusMessage) {
    d.boot.Some? && (m.bootSequence < d.boot.value.sequence || d.boot.value.incarnation != m.incarnation)
  }

  /** A message of the same boot that does not come after the last one accepted. */
  predicate Repeated(d: DeviceView, m: StatusMessage) {
    && d.boot.Some? && m.bootSequence == d.boot.value.sequence
    && d.lastStatusSequence.Some? && m.statusSequence <= d.lastStatusSequence.value
  }

  predicate NewSession(d: DeviceView, m: StatusMessage) { d.boot.None? || d.boot.value.sequence < m.bootSequence }

  /** Nothing but the sequence and the report time differs from the last accepted status. */
  predicate Unchanged(d: DeviceView, m: StatusMessage) {
    && d.lastStatus.Some?
    && var last := d.lastStatus.value;
    && last.scope == m.scope && last.robotId == m.robotId && last.incarnation == m.incarnation && last.bootSequence == m.bootSequence
    && last.available == m.available && last.currentTask == m.currentTask && last.rest == m.rest
  }

  /** Half the stale window, or more, since then. */
  predicate HalfWindowPassed(cfg: EdgeConfig, since: Option<Time>, now: Time) { since.None? || cfg.staleAfter <= 2 * (now - since.value) }

  /** What an accepted status leaves about the device: one record, or none for an unchanged heartbeat within the half window. */
  predicate ReceiptOf(cfg: EdgeConfig, d: DeviceView, m: StatusMessage, now: Time, r: EdgeRecord) {
    if d.connectivity != Online then r == DeviceLivenessChanged(m.robotId, Online, Some(m))
    else if NewSession(d, m) || !Unchanged(d, m) then r == DeviceStatusChanged(m.robotId, m)
    else HalfWindowPassed(cfg, d.lastReceivedAt, now) && r == DeviceHeartbeat(m.robotId, m.statusSequence)
  }

  /** What an accepted status asks about an unfinished task of its robot: what became of it in a new session; or why an idle robot
      reports no task, when nothing has moved it for a stale window. */
  predicate AskedBy(cfg: EdgeConfig, d: DeviceView, t: TaskView, m: StatusMessage, now: Time, reason: FlagReason) {
    && t.request.targetRobot == m.robotId && t.evidence.state in {Created, AcceptedState, Running, BlockedAwaitingHuman}
    && (if NewSession(d, m) && NewBootSession !in t.clocks.flaggedSinceEvent then reason == NewBootSession
        else
          && reason == HeartbeatMismatch && t.evidence.state in {AcceptedState, Running} && m.currentTask.None? && m.available
          && EdgeAlerts.MayRaise(t, HeartbeatMismatch, now)
          && t.clocks.lastProgressAt.Some? && now >= t.clocks.lastProgressAt.value + cfg.staleAfter)
  }

  ghost predicate StatusAnswered(cfg: EdgeConfig, s: EdgeState, delivery: StatusDelivery, now: Time, rs: seq<EdgeRecord>) {
    match delivery
    case UndecodableStatus => rs == [DeviceStatusRejected(None, false)]
    case StatusReceived(site, robot, m) =>
      var d := DeviceOf(s, m.robotId);
      if !StatusAddressed(cfg, site, robot, m) then rs == [DeviceStatusRejected(Some(m.robotId), false)]
      else if Discontinuous(d, m) then
        rs == (if d.sessionRegression then [] else [SessionRegression(m.robotId)])
              + (if HalfWindowPassed(cfg, d.lastRegressionRejectionAt, now) then [DeviceStatusRejected(Some(m.robotId), true)] else [])
      else if Repeated(d, m) then rs == [DeviceStatusRejected(Some(m.robotId), false)]
      else
        forall r :: r in rs <==>
          || ReceiptOf(cfg, d, m, now, r)
          || (r.TaskReconciliationFlagged? && r.flagged in s.order && r.flagged in s.tasks && AskedBy(cfg, d, s.tasks[r.flagged], m, now, r.reason))
  }

  lemma ReceiptMeaning(cfg: EdgeConfig, d: DeviceView, m: StatusMessage, now: Time, r: EdgeRecord)
    ensures r in ReceiptRecords(d, cfg, m, NewSession(d, m), now) <==> ReceiptOf(cfg, d, m, now, r)
  {
  }

  lemma FlagMeaning(cfg: EdgeConfig, d: DeviceView, t: TaskView, m: StatusMessage, now: Time, reason: FlagReason)
    ensures StatusFlag(t, cfg, m, NewSession(d, m), now) == Some(reason) <==> AskedBy(cfg, d, t, m, now, reason)
  {
  }

  lemma {:induction false} FlagsMeaning(cfg: EdgeConfig, s: EdgeState, d: DeviceView, m: StatusMessage, now: Time, ids: seq<TaskId>, r: EdgeRecord)
    ensures r in StatusFlags(s, cfg, m, NewSession(d, m), now, ids) <==>
              r.TaskReconciliationFlagged? && r.flagged in ids && r.flagged in s.tasks && AskedBy(cfg, d, s.tasks[r.flagged], m, now, r.reason)
    decreases |ids|
  {
    hide NewSession, AskedBy, StatusFlag;
    if ids != [] {
      FlagsMeaning(cfg, s, d, m, now, ids[1..], r);
      if ids[0] in s.tasks && r.TaskReconciliationFlagged? { FlagMeaning(cfg, d, s.tasks[ids[0]], m, now, r.reason); }
      assert forall x :: x in ids <==> x == ids[0] || x in ids[1..];
    }
  }

  /** In every state each delivered status is answered by that table. */
  lemma EveryStatusAnswered(cfg: EdgeConfig, s: EdgeState, delivery: StatusDelivery, now: Time)
    ensures StatusAnswered(cfg, s, delivery, now, DecideStatusRecords(s, cfg, delivery, now))
  {
    if delivery.StatusReceived? {
      var m := delivery.message;
      var d := DeviceOf(s, m.robotId);
      forall r
        ensures r in ReceiptRecords(d, cfg, m, NewSession(d, m), now) + StatusFlags(s, cfg, m, NewSession(d, m), now, s.order) <==>
          || ReceiptOf(cfg, d, m, now, r)
          || (r.TaskReconciliationFlagged? && r.flagged in s.order && r.flagged in s.tasks && AskedBy(cfg, d, s.tasks[r.flagged], m, now, r.reason))
      {
        ReceiptMeaning(cfg, d, m, now, r);
        FlagsMeaning(cfg, s, d, m, now, s.order, r);
        hide ReceiptRecords, StatusFlags, ReceiptOf, AskedBy, NewSession;
      }
      assert NewSession(d, m) <==> d.boot.None? || m.bootSequence > d.boot.value.sequence;
    }
    hide ReceiptRecords, StatusFlags, ReceiptOf, AskedBy, NewSession;
  }
}
