/** A run of the Edge that records two terminal kinds and never reports CONFLICT: the gate closes through the sticky reason. */
module EdgeTwoKinds {
  import opened Common
  import opened TaskContracts
  import opened EdgeViews
  import opened EdgeDecisions
  import opened EdgeLegality
  import opened EdgeRuns
  import opened EdgeLatch

  /** The request may be created here and now, once its robot was heard. */
  predicate Suits(cfg: EdgeConfig, facts: AdmissionFacts, request: TaskRequest, now: Time) {
    Admissible(cfg, facts, request) && now < request.expiresAt
  }

  function HelloOf(request: TaskRequest, now: Time): StatusMessage {
    StatusMessage(request.scope, request.targetRobot, request.targetIncarnation, 1, 1, now, true, None, "")
  }

  /** An event of the task, from the robot and incarnation it was created for. */
  function EventOf(request: TaskRequest, n: nat, kind: EventKind, now: Time): TaskEvent {
    TaskEvent(request.scope, request.taskId, request.targetRobot, request.targetIncarnation, 1, n, kind, None, now, None)
  }

  function Delivery(request: TaskRequest, e: TaskEvent): EventDelivery { EventMessage(request.scope.site, request.targetRobot, e) }

  /** No batch below is longer than two records. */
  function Whole(step: EdgeStep): EdgeChoice { EdgeChoice(step, 2) }

  function Hello(request: TaskRequest, now: Time): EdgeChoice {
    Whole(StatusArrives(StatusReceived(request.scope.site, request.targetRobot, HelloOf(request, now)), now))
  }

  function Hears(request: TaskRequest, n: nat, kind: EventKind, now: Time): EdgeChoice {
    Whole(EventArrives(Delivery(request, EventOf(request, n, kind, now)), now))
  }

  /** The robot is heard and the task created. */
  function Opening(facts: AdmissionFacts, request: TaskRequest, now: Time): seq<EdgeChoice> {
    [] + [Hello(request, now)] + [Whole(Create(facts, request, now))]
  }

  /** Then three events arrive: progress, a late failure, a rejection. */
  function Steps(facts: AdmissionFacts, request: TaskRequest, now: Time): seq<EdgeChoice> {
    Opening(facts, request, now)
    + [Hears(request, 5, EventKind.Progress, now)] + [Hears(request, 2, Failed, now)] + [Hears(request, 6, EventKind.Rejected, now)]
  }

  /** The robot is known in its first boot, without regression, and the task holds this evidence. */
  predicate Stands(s: EdgeState, request: TaskRequest, v: TaskEvidence) {
    && Heard(s, request)
    && request.taskId in s.tasks && s.tasks[request.taskId].request == request && s.tasks[request.taskId].evidence == v
  }

  predicate Heard(s: EdgeState, request: TaskRequest) {
    && request.targetRobot in s.devices && !s.devices[request.targetRobot].sessionRegression
    && s.devices[request.targetRobot].boot == Some(Boot(request.targetIncarnation, 1))
  }

  lemma HelloHeard(cfg: EdgeConfig, facts: AdmissionFacts, request: TaskRequest, now: Time)
    requires Suits(cfg, facts, request, now)
    ensures var s := InitialEdge(cfg.robotIds);
            var batch := StepBatch(cfg, s, StatusArrives(StatusReceived(request.scope.site, request.targetRobot, HelloOf(request, now)), now));
            |batch| == 1 && ApplyAll(s, batch).tasks == map[] && Heard(ApplyAll(s, batch), request)
  {
    var s := InitialEdge(cfg.robotIds);
    var r := DeviceLivenessChanged(request.targetRobot, Online, Some(HelloOf(request, now)));
    assert DecideStatusRecords(s, cfg, StatusReceived(request.scope.site, request.targetRobot, HelloOf(request, now)), now) == [r];
    assert Stamp([r], now) == [Stamped(r, now)];
    ApplyOne(s, Stamped(r, now));
  }

  lemma CreatedStands(cfg: EdgeConfig, s: EdgeState, facts: AdmissionFacts, request: TaskRequest, now: Time)
    requires Suits(cfg, facts, request, now) && s.tasks == map[] && Heard(s, request)
    ensures var batch := StepBatch(cfg, s, Create(facts, request, now));
            |batch| == 1 && Stands(ApplyAll(s, batch), request, NO_EVIDENCE)
  {
    assert !GateClosed(s, request.targetRobot) && !HasActiveTask(s, request.targetRobot);
    ApplyOne(s, Stamped(TaskCreated(request), now));
    hide GateClosed, HasActiveTask, Admissible;
  }

  function Flagged(id: TaskId, c: Verdict): seq<EdgeRecord> { if c.flag.Some? then [TaskReconciliationFlagged(id, c.flag.value)] else [] }

  /** An event that is no conflict is recorded, with its flag if it has one. */
  lemma EventBatch(cfg: EdgeConfig, s: EdgeState, request: TaskRequest, v: TaskEvidence, e: TaskEvent, now: Time)
    requires request.scope == cfg.scope && request.targetRobot in cfg.robotIds && Stands(s, request, v)
    requires e == EventOf(request, e.eventSequence, e.kind, now) && e.eventSequence >= 1 && e.OrderKey() !in v.seen
    requires !Classify(v, e, false).conflict
    ensures var c := Classify(v, e, false);
            DecideEventRecords(s, cfg, Delivery(request, e)) == [Received(v, e, c)] + Flagged(e.taskId, c)
  {
    hide Classify, Received;
  }

  lemma ReceivedStands(s: EdgeState, request: TaskRequest, v: TaskEvidence, e: TaskEvent, c: Verdict, now: Time)
    requires Stands(s, request, v) && e.taskId == request.taskId && !c.conflict
    ensures Stands(Apply(s, Stamped(Received(v, e, c), now)), request, EvidenceStep(v, e, c.disposition, c.stateAfter, false))
  {
    hide EvidenceStep, ReasonsStep, ClocksStep, ProspectiveGap;
  }

  lemma FlagStands(s: EdgeState, request: TaskRequest, v: TaskEvidence, reason: FlagReason, now: Time)
    requires Stands(s, request, v)
    ensures Stands(Apply(s, Stamped(TaskReconciliationFlagged(request.taskId, reason), now)), request, v)
  {
  }

  lemma BatchStands(s: EdgeState, request: TaskRequest, v: TaskEvidence, e: TaskEvent, c: Verdict, now: Time)
    requires Stands(s, request, v) && e.taskId == request.taskId && !c.conflict
    ensures var batch := Stamp([Received(v, e, c)] + Flagged(e.taskId, c), now);
            |batch| <= 2 && Stands(ApplyAll(s, batch), request, EvidenceStep(v, e, c.disposition, c.stateAfter, false))
  {
    hide Stands, Received, EvidenceStep, Apply, ApplyAll;
    var first := Stamped(Received(v, e, c), now);
    ReceivedStands(s, request, v, e, c, now);
    ApplyOne(s, first);
    if c.flag.Some? {
      var second := Stamped(TaskReconciliationFlagged(e.taskId, c.flag.value), now);
      assert Stamp([Received(v, e, c)] + Flagged(e.taskId, c), now) == [first] + [second];
      ApplyConcat(s, [first], [second]);
      ApplyOne(Apply(s, first), second);
      FlagStands(Apply(s, first), request, EvidenceStep(v, e, c.disposition, c.stateAfter, false), c.flag.value, now);
    } else {
      assert Stamp([Received(v, e, c)] + Flagged(e.taskId, c), now) == [first];
    }
  }

  // -- the run, step by step

  function After(cfg: EdgeConfig, choices: seq<EdgeChoice>): EdgeState { ViewOf(cfg, EdgeRun(cfg, choices)) }

  lemma Onward(cfg: EdgeConfig, choices: seq<EdgeChoice>, step: EdgeStep)
    requires |StepBatch(cfg, After(cfg, choices), step)| <= 2
    ensures After(cfg, choices + [Whole(step)]) == ApplyAll(After(cfg, choices), StepBatch(cfg, After(cfg, choices), step))
  {
    assert (choices + [Whole(step)])[..|choices|] == choices;
    hide StepBatch, InitialEdge, ApplyAll;
    ApplyConcat(InitialEdge(cfg.robotIds), EdgeRun(cfg, choices), StepBatch(cfg, After(cfg, choices), step));
  }

  lemma Opened(cfg: EdgeConfig, facts: AdmissionFacts, request: TaskRequest, now: Time)
    requires Suits(cfg, facts, request, now)
    ensures Stands(After(cfg, Opening(facts, request, now)), request, NO_EVIDENCE)
  {
    NothingYet(cfg);
    hide After, StepBatch, ApplyAll, InitialEdge, Stands, Heard, HelloOf, Suits;
    HelloHeard(cfg, facts, request, now);
    Onward(cfg, [], Hello(request, now).step);
    CreatedStands(cfg, After(cfg, [] + [Hello(request, now)]), facts, request, now);
    Onward(cfg, [] + [Hello(request, now)], Create(facts, request, now));
  }

  lemma NothingYet(cfg: EdgeConfig)
    ensures After(cfg, []) == InitialEdge(cfg.robotIds)
  {
  }

  lemma Hearing(cfg: EdgeConfig, choices: seq<EdgeChoice>, request: TaskRequest, v: TaskEvidence, n: nat, kind: EventKind, now: Time)
    requires request.scope == cfg.scope && request.targetRobot in cfg.robotIds && n >= 1 && Key(1, n) !in v.seen
    requires Stands(After(cfg, choices), request, v) && !Classify(v, EventOf(request, n, kind, now), false).conflict
    ensures var e := EventOf(request, n, kind, now);
            var c := Classify(v, e, false);
            Stands(After(cfg, choices + [Hears(request, n, kind, now)]), request, EvidenceStep(v, e, c.disposition, c.stateAfter, false))
  {
    var e := EventOf(request, n, kind, now);
    var s := After(cfg, choices);
    EventBatch(cfg, s, request, v, e, now);
    hide After, ApplyAll, Stands, Classify, EvidenceStep, Received, DecideEventRecords, Flagged, Stamp;
    BatchStands(s, request, v, e, Classify(v, e, false), now);
    Onward(cfg, choices, EventArrives(Delivery(request, e), now));
  }

  lemma GateOfTwoKinds(cfg: EdgeConfig, choices: seq<EdgeChoice>, id: TaskId)
    requires id in After(cfg, choices).tasks && TwoKinds(After(cfg, choices).tasks[id].evidence)
    ensures GateClosed(After(cfg, choices), After(cfg, choices).tasks[id].request.targetRobot)
  {
    hide EdgeRun, ViewOf, TwoKinds, GateClosed, LegalJournal, TasksOk, At;
    RunLegal(cfg, choices);
    FinalAt(cfg, EdgeRun(cfg, choices));
    TwoKindsCloseGate(cfg, choices, |EdgeRun(cfg, choices)|, id);
  }

  /** Wherever a task can be created at all there is a run after which two terminal kinds stand on record without CONFLICT;
      the gate is closed all the same. */
  lemma RunWithoutConflict(cfg: EdgeConfig, facts: AdmissionFacts, request: TaskRequest, now: Time)
    requires Suits(cfg, facts, request, now)
    ensures var s := ViewOf(cfg, EdgeRun(cfg, Steps(facts, request, now)));
            && request.taskId in s.tasks && TwoKinds(s.tasks[request.taskId].evidence)
            && !s.tasks[request.taskId].AuthorizationConflict()
            && GateClosed(s, request.targetRobot)
  {
    var v1 := EvidenceStep(NO_EVIDENCE, EventOf(request, 5, EventKind.Progress, now), Applied, Running, false);
    var v2 := EvidenceStep(v1, EventOf(request, 2, Failed, now), LateEvidence, Running, false);
    TwoKindsWithoutConflict(EventOf(request, 1, EventKind.Progress, now));
    assert Key(1, 5) !in NO_EVIDENCE.seen && Key(1, 2) !in v1.seen && Key(1, 6) !in v2.seen;
    var c0 := Opening(facts, request, now);
    var c1 := c0 + [Hears(request, 5, EventKind.Progress, now)];
    var c2 := c1 + [Hears(request, 2, Failed, now)];
    hide ViewOf, EdgeRun, Classify, EvidenceStep, TwoKinds, GateClosed, Opening, Hears;
    Opened(cfg, facts, request, now);
    Hearing(cfg, c0, request, NO_EVIDENCE, 5, EventKind.Progress, now);
    Hearing(cfg, c1, request, v1, 2, Failed, now);
    Hearing(cfg, c2, request, v2, 6, EventKind.Rejected, now);
    GateOfTwoKinds(cfg, Steps(facts, request, now), request.taskId);
  }
}
