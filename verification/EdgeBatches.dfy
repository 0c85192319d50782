/** Every batch an Edge decision returns is a chain of legal records. */
module EdgeBatches {
  import opened TaskContracts
  import opened EdgeViews
  import opened EdgeDecisions
  import opened EdgeLegality

  /** Records whose legality asks only that their task exists. */
  predicate Plain(s: EdgeState, r: EdgeRecord) {
    match r
    case TaskReconciliationFlagged(id, reason) => id in s.tasks && !ClosesGate(reason) && !reason.ConflictingTerminalReason?
    case TaskPublishConfirmed(id, _) => id in s.tasks
    case RobotRequestRejected(id) => id in s.tasks
    case TaskCreated(_) => false
    case TaskPublishAttempted(_, _) => false
    case TaskEventReceived(_, _, _, _, _, _, _) => false
    case ConflictingTerminal(_) => false
    case _ => true
  }

  predicate AllPlain(s: EdgeState, rs: seq<EdgeRecord>) {
    forall r :: r in rs ==> Plain(s, r)
  }

  lemma PlainStep(cfg: EdgeConfig, s: EdgeState, st: Stamped)
    requires Plain(s, st.record)
    ensures Legal(cfg, s, st)
    ensures Apply(s, st).tasks.Keys == s.tasks.Keys
  {
    hide DevicesAfter, TaskStep;
  }

  lemma PlainKept(s: EdgeState, after: EdgeState, r: EdgeRecord)
    requires Plain(s, r) && after.tasks.Keys == s.tasks.Keys
    ensures Plain(after, r)
  {
  }

  lemma {:induction false} PlainBatchLegal(cfg: EdgeConfig, s: EdgeState, rs: seq<EdgeRecord>, now: Time)
    requires AllPlain(s, rs)
    ensures LegalBatch(cfg, s, Stamp(rs, now))
    decreases |rs|
  {
    hide Legal, Apply, Plain;
    if rs != [] {
      var st := Stamped(rs[0], now);
      PlainStep(cfg, s, st);
      assert rs[0] in rs;
      forall r | r in rs[1..] ensures Plain(Apply(s, st), r) { assert r in rs; PlainKept(s, Apply(s, st), r); }
      PlainBatchLegal(cfg, Apply(s, st), rs[1..], now);
      assert Stamp(rs, now)[1..] == Stamp(rs[1..], now);
    }
  }

  lemma {:induction false} StatusFlagsPlain(s: EdgeState, cfg: EdgeConfig, m: StatusMessage, newSession: bool, now: Time, ids: seq<TaskId>)
    ensures AllPlain(s, StatusFlags(s, cfg, m, newSession, now, ids))
    decreases |ids|
  {
    if ids != [] {
      StatusFlagsPlain(s, cfg, m, newSession, now, ids[1..]);
      hide ReprobeDue;
    }
  }

  lemma StatusLegal(cfg: EdgeConfig, s: EdgeState, delivery: StatusDelivery, now: Time)
    ensures LegalBatch(cfg, s, DecideStatus(s, cfg, delivery, now))
  {
    var rs := DecideStatusRecords(s, cfg, delivery, now);
    if delivery.StatusReceived? {
      var m := delivery.message;
      var d := if m.robotId in s.devices then s.devices[m.robotId] else NEW_DEVICE;
      StatusFlagsPlain(s, cfg, m, d.boot.None? || m.bootSequence > d.boot.value.sequence, now, s.order);
    }
    hide StatusFlags, HalfStale, ContentKey, LegalBatch;
    PlainBatchLegal(cfg, s, rs, now);
  }

  lemma {:induction false} LivenessPlain(s: EdgeState, cfg: EdgeConfig, now: Time, robots: seq<RobotId>)
    ensures AllPlain(s, LivenessRecords(s, cfg, now, robots))
    decreases |robots|
  {
    if robots != [] {
      LivenessPlain(s, cfg, now, robots[1..]);
      hide LivenessMove;
    }
  }

  lemma {:induction false} TickFlagsPlain(s: EdgeState, now: Time, ids: seq<TaskId>)
    ensures AllPlain(s, TaskTickRecords(s, now, ids))
    decreases |ids|
  {
    if ids != [] {
      TickFlagsPlain(s, now, ids[1..]);
      hide ProgressOverdue, AcceptanceOverdue;
    }
  }

  lemma TickLegal(cfg: EdgeConfig, s: EdgeState, robots: seq<RobotId>, now: Time)
    ensures LegalBatch(cfg, s, DecideTick(s, cfg, robots, now))
  {
    LivenessPlain(s, cfg, now, robots);
    TickFlagsPlain(s, now, s.order);
    hide LivenessRecords, TaskTickRecords, LegalBatch;
    PlainBatchLegal(cfg, s, LivenessRecords(s, cfg, now, robots) + TaskTickRecords(s, now, s.order), now);
  }

  // -- events

  /** The state in which the evidence record of an event batch is applied. */
  function AfterRegression(s: EdgeState, e: TaskEvent, now: Time): EdgeState {
    if ExposesRegression(s, e) && !(e.taskId in s.tasks && e.OrderKey() in s.tasks[e.taskId].evidence.seen)
    then Apply(s, Stamped(SessionRegression(e.robotId), now)) else s
  }

  lemma RegressionKeepsEvidence(s: EdgeState, robot: RobotId, now: Time)
    ensures var after := Apply(s, Stamped(SessionRegression(robot), now));
            && after.tasks.Keys == s.tasks.Keys
            && (forall id :: id in s.tasks ==> after.tasks[id].evidence == s.tasks[id].evidence && after.tasks[id].request == s.tasks[id].request)
            && Regressed(after, robot)
            && (forall x :: x != robot ==> Regressed(after, x) == Regressed(s, x))
  {
  }

  lemma ReplayIgnoresRegression(v: TaskEvidence, e: TaskEvent, a: bool, b: bool)
    requires e.OrderKey() in v.seen
    ensures Classify(v, e, a) == Classify(v, e, b)
  {
  }

  predicate AcceptsEvent(s: EdgeState, e: TaskEvent) {
    e.taskId in s.tasks && e.robotId == s.tasks[e.taskId].request.targetRobot && e.eventSequence >= 1
  }

  lemma ReceivedLegal(cfg: EdgeConfig, s: EdgeState, e: TaskEvent, now: Time)
    requires AcceptsEvent(s, e)
    ensures var v := s.tasks[e.taskId].evidence;
            Legal(cfg, s, Stamped(Received(v, e, Classify(v, e, Regressed(s, e.robotId))), now))
  {
    hide Classify, ProspectiveGap;
  }

  /** The evidence record sets the conflict it names and brings the flag it names as a reason. */
  lemma ReceivedAnswers(t: TaskView, e: TaskEvent, regressed: bool, n: nat, now: Time)
    requires EvidenceOk(t.evidence) && e.eventSequence >= 1
    ensures var c := Classify(t.evidence, e, regressed);
            var u := EventStep(t, Received(t.evidence, e, c), n, now);
            && (c.conflict ==> u.AuthorizationConflict())
            && (c.flag.Some? ==> ClosesGate(c.flag.value) && c.flag.value in u.reasons)
  {
    ConflictIsReal(t.evidence, e, regressed);
    hide EvidenceOk, ProspectiveGap, ClocksStep, Differs, KeyLess, AddTerminal;
  }

  /** After the evidence record: the conflict is set, and the flags that follow are already reasons. */
  lemma ReceivedEffect(cfg: EdgeConfig, s: EdgeState, e: TaskEvent, now: Time)
    requires AcceptsEvent(s, e) && EvidenceOk(s.tasks[e.taskId].evidence)
    ensures var v := s.tasks[e.taskId].evidence;
            var c := Classify(v, e, Regressed(s, e.robotId));
            var st := Stamped(Received(v, e, c), now);
            var after := Apply(s, st);
            && Legal(cfg, s, st)
            && e.taskId in after.tasks
            && (c.conflict ==> after.tasks[e.taskId].AuthorizationConflict())
            && (c.flag.Some? ==> ClosesGate(c.flag.value) && c.flag.value in after.tasks[e.taskId].reasons)
  {
    var t := s.tasks[e.taskId];
    var c := Classify(t.evidence, e, Regressed(s, e.robotId));
    var st := Stamped(Received(t.evidence, e, c), now);
    ReceivedLegal(cfg, s, e, now);
    assert st.record.TaskEventReceived? && st.record.event == e by { hide Classify, ProspectiveGap; }
    hide Legal, Apply, EventStep, TaskStep, Classify, Received, EvidenceOk, ClosesGate, Regressed;
    KnownStep(cfg, s, st, e.taskId);
    OwnEventStep(cfg, s, st, e.taskId);
    ReceivedAnswers(t, e, Regressed(s, e.robotId), s.applied + 1, now);
  }

  /** The flags after a conflict or an anomaly repeat what the evidence record already says. */
  ghost predicate Restates(s: EdgeState, id: TaskId, r: EdgeRecord) {
    id in s.tasks &&
    (|| (r == ConflictingTerminal(id) && s.tasks[id].AuthorizationConflict())
     || (r == TaskReconciliationFlagged(id, ConflictingTerminalReason) && s.tasks[id].AuthorizationConflict())
     || (r.TaskReconciliationFlagged? && r.flagged == id && ClosesGate(r.reason) && r.reason in s.tasks[id].reasons))
  }

  ghost predicate AllRestate(s: EdgeState, id: TaskId, rs: seq<EdgeRecord>) { forall i :: 0 <= i < |rs| ==> Restates(s, id, rs[i]) }

  lemma RestatingIsLegal(cfg: EdgeConfig, s: EdgeState, id: TaskId, r: EdgeRecord, later: EdgeRecord, now: Time)
    requires Restates(s, id, r)
    ensures Legal(cfg, s, Stamped(r, now))
    ensures Restates(s, id, later) ==> Restates(Apply(s, Stamped(r, now)), id, later)
  {
    hide DevicesAfter;
  }

  lemma {:induction false} FollowUpLegal(cfg: EdgeConfig, s: EdgeState, id: TaskId, rs: seq<EdgeRecord>, now: Time)
    requires AllRestate(s, id, rs)
    ensures LegalBatch(cfg, s, Stamp(rs, now))
    decreases |rs|
  {
    hide Legal, Apply, Restates;
    if rs != [] {
      var after := Apply(s, Stamped(rs[0], now));
      forall i | 0 <= i < |rs| ensures Legal(cfg, s, Stamped(rs[0], now)) && Restates(after, id, rs[i]) {
        RestatingIsLegal(cfg, s, id, rs[0], rs[i], now);
      }
      FollowUpLegal(cfg, after, id, rs[1..], now);
      assert Stamp(rs, now)[1..] == Stamp(rs[1..], now);
    }
  }

  lemma FollowUpsRestate(t: TaskView, e: TaskEvent, c: Verdict, after: EdgeState)
    requires e.taskId in after.tasks && (c.conflict ==> after.tasks[e.taskId].AuthorizationConflict())
    requires c.flag.Some? ==> ClosesGate(c.flag.value) && c.flag.value in after.tasks[e.taskId].reasons
    ensures EventRecords(t, e, c)[0] == Received(t.evidence, e, c) && AllRestate(after, e.taskId, EventRecords(t, e, c)[1..])
  {
    hide Received, ClosesGate;
  }

  lemma EventRecordsLegal(cfg: EdgeConfig, s: EdgeState, e: TaskEvent, now: Time)
    requires AcceptsEvent(s, e) && EvidenceOk(s.tasks[e.taskId].evidence)
    ensures var t := s.tasks[e.taskId];
            LegalBatch(cfg, s, Stamp(EventRecords(t, e, Classify(t.evidence, e, Regressed(s, e.robotId))), now))
  {
    var t := s.tasks[e.taskId];
    var c := Classify(t.evidence, e, Regressed(s, e.robotId));
    var rs := EventRecords(t, e, c);
    var st := Stamped(rs[0], now);
    hide Legal, Apply, Classify, Received, EvidenceOk, Regressed, AcceptsEvent, ClosesGate;
    ReceivedEffect(cfg, s, e, now);
    FollowUpsRestate(t, e, c, Apply(s, st));
    hide EventRecords, AllRestate;
    FollowUpLegal(cfg, Apply(s, st), e.taskId, rs[1..], now);
    assert Stamp(rs, now)[1..] == Stamp(rs[1..], now) && Stamp(rs, now)[0] == st;
  }

  /** The records of one event depend on its task's evidence and conflict only. */
  lemma EventRecordsSame(t: TaskView, u: TaskView, e: TaskEvent, c: Verdict)
    requires t.evidence == u.evidence
    ensures EventRecords(t, e, c) == EventRecords(u, e, c)
  {
  }

  /** An admitted event: an optional regression record, then the classified records. */
  lemma AdmittedEventShape(s: EdgeState, cfg: EdgeConfig, delivery: EventDelivery, now: Time)
    requires EventRefusal(s, cfg, delivery).None? && !delivery.event.IsRequestLevelRejection()
    ensures var e := delivery.event;
            var s1 := AfterRegression(s, e, now);
            && AcceptsEvent(s1, e) && AcceptsEvent(s, e)
            && s1.tasks[e.taskId].evidence == s.tasks[e.taskId].evidence
            && DecideEventRecords(s, cfg, delivery)
               == (if s1 == s then [] else [SessionRegression(e.robotId)])
                  + EventRecords(s1.tasks[e.taskId], e, Classify(s1.tasks[e.taskId].evidence, e, Regressed(s1, e.robotId)))
            && (s1 == s || s1 == Apply(s, Stamped(SessionRegression(e.robotId), now)))
  {
    var e := delivery.event;
    var t := s.tasks[e.taskId];
    var s1 := AfterRegression(s, e, now);
    RegressionKeepsEvidence(s, e.robotId, now);
    var c := Classify(t.evidence, e, ExposesRegression(s, e) || Regressed(s, e.robotId));
    if e.OrderKey() in t.evidence.seen {
      ReplayIgnoresRegression(t.evidence, e, ExposesRegression(s, e) || Regressed(s, e.robotId), Regressed(s1, e.robotId));
    }
    if ExposesRegression(s, e) && e.OrderKey() !in t.evidence.seen {
      assert s1.applied == s.applied + 1;
    }
    hide Apply, Classify, EventRecords;
    EventRecordsSame(t, s1.tasks[e.taskId], e, c);
  }

  lemma LegalThen(cfg: EdgeConfig, s: EdgeState, r: EdgeRecord, rest: seq<EdgeRecord>, now: Time)
    requires Legal(cfg, s, Stamped(r, now)) && LegalBatch(cfg, Apply(s, Stamped(r, now)), Stamp(rest, now))
    ensures LegalBatch(cfg, s, Stamp([r] + rest, now))
  {
    hide Legal, Apply;
    assert Stamp([r] + rest, now)[1..] == Stamp(rest, now) && Stamp([r] + rest, now)[0] == Stamped(r, now);
  }

  lemma RefusedEventLegal(cfg: EdgeConfig, s: EdgeState, delivery: EventDelivery, now: Time)
    requires EventRefusal(s, cfg, delivery).Some? || delivery.event.IsRequestLevelRejection()
    ensures LegalBatch(cfg, s, Stamp(DecideEventRecords(s, cfg, delivery), now))
  {
    hide LegalBatch, Classify, EventRecords, Stamp;
    PlainBatchLegal(cfg, s, DecideEventRecords(s, cfg, delivery), now);
  }

  lemma {:induction false} AdmittedEventLegal(cfg: EdgeConfig, s: EdgeState, delivery: EventDelivery, now: Time)
    requires TasksOk(s) && EventRefusal(s, cfg, delivery).None? && !delivery.event.IsRequestLevelRejection()
    ensures LegalBatch(cfg, s, Stamp(DecideEventRecords(s, cfg, delivery), now))
  {
    var e := delivery.event;
    var s1 := AfterRegression(s, e, now);
    AdmittedEventShape(s, cfg, delivery, now);
    EvidenceIsOk(s, s1, e);
    hide *;
    EventRecordsLegal(cfg, s1, e, now);
    var tail := EventRecords(s1.tasks[e.taskId], e, Classify(s1.tasks[e.taskId].evidence, e, Regressed(s1, e.robotId)));
    if s1 == s {
      assert DecideEventRecords(s, cfg, delivery) == [] + tail;
      assert [] + tail == tail;
    } else {
      RegressionIsLegal(cfg, s, e.robotId, now);
      LegalThen(cfg, s, SessionRegression(e.robotId), tail, now);
    }
  }

  lemma RegressionIsLegal(cfg: EdgeConfig, s: EdgeState, robot: RobotId, now: Time)
    ensures Legal(cfg, s, Stamped(SessionRegression(robot), now))
  {
    PlainStep(cfg, s, Stamped(SessionRegression(robot), now));
  }

  lemma EvidenceIsOk(s: EdgeState, s1: EdgeState, e: TaskEvent)
    requires TasksOk(s) && AcceptsEvent(s, e) && AcceptsEvent(s1, e)
    requires s1.tasks[e.taskId].evidence == s.tasks[e.taskId].evidence
    ensures EvidenceOk(s1.tasks[e.taskId].evidence)
    ensures e.taskId in s1.tasks
  {
    assert TaskOk(e.taskId, s.tasks[e.taskId]);
    hide EvidenceOk;
  }

  lemma EventLegal(cfg: EdgeConfig, s: EdgeState, delivery: EventDelivery, now: Time)
    requires TasksOk(s)
    ensures LegalBatch(cfg, s, DecideEvent(s, cfg, delivery, now))
  {
    hide LegalBatch, Stamp, DecideEventRecords, TasksOk;
    if EventRefusal(s, cfg, delivery).Some? || delivery.event.IsRequestLevelRejection() {
      RefusedEventLegal(cfg, s, delivery, now);
    } else {
      AdmittedEventLegal(cfg, s, delivery, now);
    }
  }

  lemma CreateLegal(cfg: EdgeConfig, s: EdgeState, facts: AdmissionFacts, request: TaskRequest, now: Time)
    ensures LegalBatch(cfg, s, DecideCreate(s, cfg, facts, request, now).1)
  {
    var sts := DecideCreate(s, cfg, facts, request, now).1;
    hide GateClosed, HasActiveTask, Admissible;
    if sts != [] {
      assert Legal(cfg, s, sts[0]);
      hide Legal, Apply;
      assert sts[1..] == [];
    }
  }
}
