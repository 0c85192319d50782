/** A crash inside an event batch is harmless: redelivering the message completes what was lost. */
module EdgeTornBatches {
  import opened Common
  import opened TaskContracts
  import opened EdgeViews
  import opened EdgeDecisions
  import opened EdgeLegality
  import opened EdgeBatches

  predicate AlikeTask(t: TaskView, u: TaskView) {
    t.request == u.request && t.evidence == u.evidence && t.reasons == u.reasons
  }

  predicate AlikeDevice(d: DeviceView, c: DeviceView) {
    d.boot == c.boot && d.sessionRegression == c.sessionRegression
  }

  /** Same tasks, evidence and reasons, same robot sessions: only clocks and counters may differ. */
  ghost predicate Alike(s: EdgeState, u: EdgeState) {
    && s.tasks.Keys == u.tasks.Keys && s.devices.Keys == u.devices.Keys
    && (forall id :: id in s.tasks ==> AlikeTask(s.tasks[id], u.tasks[id]))
    && (forall x :: x in s.devices ==> AlikeDevice(s.devices[x], u.devices[x]))
  }

  /** The records an event batch is made of. */
  predicate EventKindOfRecord(r: EdgeRecord) {
    || r.SessionRegression? || r.TaskEventReceived? || r.ConflictingTerminal? || r.TaskReconciliationFlagged?
    || r.RobotRequestRejected? || r.TaskEventRejected?
  }

  lemma AlikeTaskStep(id: TaskId, t: TaskView, u: TaskView, r: EdgeRecord, n: nat, m: nat, at: Time, later: Time)
    requires AlikeTask(t, u) && EventKindOfRecord(r)
    ensures AlikeTask(TaskStep(id, t, r, n, at), TaskStep(id, u, r, m, later))
  {
    hide EvidenceStep, ReasonsStep, ClocksStep, NoteEvidence;
  }

  lemma TasksAfterEach(s: EdgeState, r: EdgeRecord, at: Time)
    requires EventKindOfRecord(r)
    ensures TasksAfter(s, Stamped(r, at)).Keys == s.tasks.Keys
    ensures forall id :: id in s.tasks ==> TasksAfter(s, Stamped(r, at))[id] == TaskStep(id, s.tasks[id], r, s.applied + 1, at)
  {
    hide TaskStep;
  }

  lemma {:induction false} AlikeTasksStep(s: EdgeState, u: EdgeState, r: EdgeRecord, at: Time, later: Time)
    requires Alike(s, u) && EventKindOfRecord(r)
    ensures var t', u' := TasksAfter(s, Stamped(r, at)), TasksAfter(u, Stamped(r, later));
            t'.Keys == u'.Keys && forall id :: id in t' ==> AlikeTask(t'[id], u'[id])
  {
    TasksAfterEach(s, r, at);
    TasksAfterEach(u, r, later);
    hide TaskStep, AlikeTask, AlikeDevice, TasksAfter;
    forall id | id in s.tasks
      ensures AlikeTask(TaskStep(id, s.tasks[id], r, s.applied + 1, at), TaskStep(id, u.tasks[id], r, u.applied + 1, later))
    {
      AlikeTaskStep(id, s.tasks[id], u.tasks[id], r, s.applied + 1, u.applied + 1, at, later);
    }
  }

  lemma AlikeDevicesStep(s: EdgeState, u: EdgeState, r: EdgeRecord, at: Time, later: Time)
    requires Alike(s, u) && EventKindOfRecord(r)
    ensures var d', c' := DevicesAfter(s, Stamped(r, at)), DevicesAfter(u, Stamped(r, later));
            d'.Keys == c'.Keys && forall x :: x in d' ==> AlikeDevice(d'[x], c'[x])
  {
    var d, c := DevicesWith(s.devices, r), DevicesWith(u.devices, r);
    AlikeNamed(s, u, r);
    hide AlikeTask, Alike, DevicesWith, AlikeDevice, DeviceStep;
    forall x | x in d ensures AlikeDevice(DeviceStep(x, d[x], r, at), DeviceStep(x, c[x], r, later)) {
      AlikeDeviceStep(x, d[x], c[x], r, at, later);
    }
  }

  lemma AlikeNamed(s: EdgeState, u: EdgeState, r: EdgeRecord)
    requires Alike(s, u)
    ensures var d, c := DevicesWith(s.devices, r), DevicesWith(u.devices, r);
            d.Keys == c.Keys && forall x :: x in d ==> AlikeDevice(d[x], c[x])
  {
    hide AlikeTask;
  }

  lemma AlikeDeviceStep(x: RobotId, d: DeviceView, c: DeviceView, r: EdgeRecord, at: Time, later: Time)
    requires AlikeDevice(d, c) && EventKindOfRecord(r)
    ensures AlikeDevice(DeviceStep(x, d, r, at), DeviceStep(x, c, r, later))
  {
  }

  lemma AlikeStep(s: EdgeState, u: EdgeState, r: EdgeRecord, at: Time, later: Time)
    requires Alike(s, u) && EventKindOfRecord(r)
    ensures Alike(Apply(s, Stamped(r, at)), Apply(u, Stamped(r, later)))
  {
    AlikeTasksStep(s, u, r, at, later);
    AlikeDevicesStep(s, u, r, at, later);
    hide TasksAfter, DevicesAfter, AlikeTask, AlikeDevice;
  }

  lemma {:induction false} AlikeBatch(s: EdgeState, u: EdgeState, rs: seq<EdgeRecord>, at: Time, later: Time)
    requires Alike(s, u) && forall r :: r in rs ==> EventKindOfRecord(r)
    ensures Alike(ApplyAll(s, Stamp(rs, at)), ApplyAll(u, Stamp(rs, later)))
    decreases |rs|
  {
    hide Alike, Apply;
    if rs != [] {
      assert rs[0] in rs;
      AlikeStep(s, u, rs[0], at, later);
      assert forall r :: r in rs[1..] ==> r in rs;
      AlikeBatch(Apply(s, Stamped(rs[0], at)), Apply(u, Stamped(rs[0], later)), rs[1..], at, later);
      assert Stamp(rs, at)[1..] == Stamp(rs[1..], at) && Stamp(rs, later)[1..] == Stamp(rs[1..], later);
    }
  }

  lemma AlikeTransitive(s: EdgeState, u: EdgeState, w: EdgeState)
    requires Alike(s, u) && Alike(u, w)
    ensures Alike(s, w) && Alike(w, s)
  {
  }

  lemma AlikeSelf(s: EdgeState)
    ensures Alike(s, s)
  {
  }

  lemma AlikeGate(s: EdgeState, u: EdgeState, robot: RobotId)
    requires Alike(s, u) && GateClosed(s, robot)
    ensures GateClosed(u, robot)
  {
    hide ClosesGate;
    if !(robot in s.devices && s.devices[robot].sessionRegression) {
      var id :| id in s.tasks && s.tasks[id].request.targetRobot == robot && TaskClosesGate(s.tasks[id]);
      assert AlikeTask(s.tasks[id], u.tasks[id]);
      assert TaskClosesGate(u.tasks[id]);
    }
  }

  lemma DecisionKinds(s: EdgeState, cfg: EdgeConfig, delivery: EventDelivery)
    ensures forall r :: r in DecideEventRecords(s, cfg, delivery) ==> EventKindOfRecord(r)
  {
    hide Classify, ProspectiveGap, ExposesRegression;
  }

  lemma AlikeDecision(s: EdgeState, u: EdgeState, cfg: EdgeConfig, delivery: EventDelivery)
    requires Alike(s, u)
    ensures DecideEventRecords(s, cfg, delivery) == DecideEventRecords(u, cfg, delivery)
  {
    hide Classify, ProspectiveGap;
    assert EventRefusal(s, cfg, delivery) == EventRefusal(u, cfg, delivery);
    if delivery.EventMessage? {
      var e := delivery.event;
      assert ExposesRegression(s, e) == ExposesRegression(u, e);
      hide EventRefusal, ExposesRegression;
      if e.taskId in s.tasks {
        assert AlikeTask(s.tasks[e.taskId], u.tasks[e.taskId]);
      }
    }
  }

  // -- records that change nothing that matters

  /** A record that leaves every task alike and every session alone. */
  lemma QuietStep(s: EdgeState, r: EdgeRecord, at: Time)
    requires r.RobotRequestRejected? || r.TaskEventRejected?
          || (r.ConflictingTerminal? && r.conflicted in s.tasks && s.tasks[r.conflicted].AuthorizationConflict())
          || (r.TaskReconciliationFlagged? && r.flagged in s.tasks && r.reason in s.tasks[r.flagged].reasons)
    ensures Alike(s, Apply(s, Stamped(r, at)))
  {
    hide NoteEvidence;
    if r.ConflictingTerminal? {
      assert s.tasks[r.conflicted].evidence.(effective := Some(Conflict)) == s.tasks[r.conflicted].evidence;
    }
    if r.TaskReconciliationFlagged? {
      assert s.tasks[r.flagged].reasons + {r.reason} == s.tasks[r.flagged].reasons;
    }
  }

  predicate FollowUp(t: TaskView, id: TaskId, r: EdgeRecord) {
    || (r == ConflictingTerminal(id) && t.AuthorizationConflict())
    || (r.TaskReconciliationFlagged? && r.flagged == id && r.reason in t.reasons)
  }

  lemma FollowUpKept(t: TaskView, u: TaskView, id: TaskId, r: EdgeRecord)
    requires AlikeTask(t, u) && FollowUp(t, id, r)
    ensures FollowUp(u, id, r)
  {
  }

  ghost predicate AllFollowUp(t: TaskView, id: TaskId, rs: seq<EdgeRecord>) { forall r :: r in rs ==> FollowUp(t, id, r) }

  lemma FirstFollowsUp(t: TaskView, id: TaskId, rs: seq<EdgeRecord>)
    requires rs != [] && AllFollowUp(t, id, rs)
    ensures FollowUp(t, id, rs[0])
  {
    assert rs[0] in rs;
  }

  lemma FollowUpsKept(t: TaskView, u: TaskView, id: TaskId, rs: seq<EdgeRecord>)
    requires AlikeTask(t, u) && rs != [] && AllFollowUp(t, id, rs)
    ensures AllFollowUp(u, id, rs[1..])
  {
    hide AlikeTask, FollowUp;
    forall r | r in rs[1..] ensures FollowUp(u, id, r) {
      assert r in rs;
      FollowUpKept(t, u, id, r);
    }
  }

  lemma AlikeHasTask(s: EdgeState, next: EdgeState, id: TaskId)
    requires Alike(s, next) && id in s.tasks
    ensures id in next.tasks && AlikeTask(s.tasks[id], next.tasks[id])
  {
  }

  lemma {:induction false} FollowUpsQuiet(s: EdgeState, id: TaskId, rs: seq<EdgeRecord>, at: Time)
    requires id in s.tasks && AllFollowUp(s.tasks[id], id, rs)
    ensures Alike(s, ApplyAll(s, Stamp(rs, at)))
    decreases |rs|
  {
    hide Alike, Apply, AlikeTask, FollowUp, AllFollowUp;
    if rs == [] {
      AlikeSelf(s);
    } else {
      FirstFollowsUp(s.tasks[id], id, rs);
      QuietStep(s, rs[0], at);
      var next := Apply(s, Stamped(rs[0], at));
      AlikeHasTask(s, next, id);
      FollowUpsKept(s.tasks[id], next.tasks[id], id, rs);
      FollowUpsQuiet(next, id, rs[1..], at);
      AlikeTransitive(s, next, ApplyAll(next, Stamp(rs[1..], at)));
      assert Stamp(rs, at)[1..] == Stamp(rs[1..], at);
    }
  }

  // -- after the evidence record

  /** Once the evidence record is durable: the event is known, presence is answered, follow-ups add nothing. */
  ghost predicate Heard(t: TaskView, e: TaskEvent) {
    && e.OrderKey() in t.evidence.seen
    && (t.evidence.seen[e.OrderKey()] == e || e in t.evidence.conflicting)
    && t.reasons !! PRESENCE
  }

  lemma StepHeard(t: TaskView, e: TaskEvent, regressed: bool, n: nat, at: Time)
    requires e.eventSequence >= 1
    ensures var c := Classify(t.evidence, e, regressed);
            var u := EventStep(t, Received(t.evidence, e, c), n, at);
            && Heard(u, e)
            && (c.conflict ==> u.AuthorizationConflict() && ConflictingTerminalReason in u.reasons)
            && (c.flag.Some? ==> c.flag.value in u.reasons)
  {
    hide ProspectiveGap, ClocksStep, Differs, KeyLess, AddTerminal;
    ConflictNeedsTerminal(t.evidence, e, regressed);
    FlagsAreSticky(t.evidence, e, regressed);
  }

  lemma FlagsAreSticky(v: TaskEvidence, e: TaskEvent, regressed: bool)
    ensures var c := Classify(v, e, regressed);
            && (c.flagReason.Some? ==> c.flagReason.value !in PRESENCE && c.flagReason.value !in PROGRESS)
            && (c.flag.Some? ==> c.flag.value !in PRESENCE && (c.disposition.ConflictingReplay? || (Counts(c.disposition) && c.flagReason == c.flag)))
  {
    hide Differs, KeyLess;
  }

  lemma ConflictNeedsTerminal(v: TaskEvidence, e: TaskEvent, regressed: bool)
    requires e.eventSequence >= 1
    ensures Classify(v, e, regressed).conflict ==> e.IsTerminal() && !Classify(v, e, regressed).disposition.Duplicate?
  {
    hide Differs, KeyLess;
  }

  /** Redelivering a message that was already heard leaves everything alike. */
  lemma HeardAgain(s: EdgeState, cfg: EdgeConfig, delivery: EventDelivery, later: Time)
    requires delivery.EventMessage? && EventRefusal(s, cfg, delivery).None?
    requires !delivery.event.IsRequestLevelRejection()
    requires Heard(s.tasks[delivery.event.taskId], delivery.event)
    ensures Alike(s, ApplyAll(s, DecideEvent(s, cfg, delivery, later)))
  {
    var e := delivery.event;
    var t := s.tasks[e.taskId];
    var r := Received(t.evidence, e, Verdict(Duplicate, t.evidence.state, false, None, None));
    HeardRecords(s, cfg, delivery);
    HeardStep(s, e, later);
    hide *;
    OneRecord(s, [r], later);
    DecidedStamp(s, cfg, delivery, later);
  }

  lemma DecidedStamp(s: EdgeState, cfg: EdgeConfig, delivery: EventDelivery, now: Time)
    ensures DecideEvent(s, cfg, delivery, now) == Stamp(DecideEventRecords(s, cfg, delivery), now)
  {
    hide DecideEventRecords, Stamp;
  }

  lemma HeardRecords(s: EdgeState, cfg: EdgeConfig, delivery: EventDelivery)
    requires delivery.EventMessage? && EventRefusal(s, cfg, delivery).None?
    requires !delivery.event.IsRequestLevelRejection()
    requires Heard(s.tasks[delivery.event.taskId], delivery.event)
    ensures var t := s.tasks[delivery.event.taskId];
            DecideEventRecords(s, cfg, delivery)
            == [Received(t.evidence, delivery.event, Verdict(Duplicate, t.evidence.state, false, None, None))]
  {
    hide ProspectiveGap;
  }

  lemma HeardStep(s: EdgeState, e: TaskEvent, later: Time)
    requires e.taskId in s.tasks && Heard(s.tasks[e.taskId], e)
    ensures var t := s.tasks[e.taskId];
            Alike(s, Apply(s, Stamped(Received(t.evidence, e, Verdict(Duplicate, t.evidence.state, false, None, None)), later)))
  {
    var t := s.tasks[e.taskId];
    hide ProspectiveGap, ClocksStep;
    assert t.reasons - PRESENCE == t.reasons;
  }

  // -- the theorem

  lemma {:induction false} SplitBatch(s: EdgeState, rs: seq<EdgeRecord>, k: nat, now: Time)
    requires k <= |rs|
    ensures Stamp(rs, now)[..k] == Stamp(rs[..k], now)
    ensures ApplyAll(s, Stamp(rs, now)) == ApplyAll(ApplyAll(s, Stamp(rs[..k], now)), Stamp(rs[k..], now))
  {
    assert Stamp(rs, now) == Stamp(rs[..k], now) + Stamp(rs[k..], now);
    assert Stamp(rs, now)[..k] == Stamp(rs[..k], now);
    hide Apply;
    ApplyConcat(s, Stamp(rs[..k], now), Stamp(rs[k..], now));
  }

  /** The part of an event batch from the evidence record on, torn after k >= 1 of its lines. */
  lemma TornAfterEvidence(s: EdgeState, cfg: EdgeConfig, delivery: EventDelivery, k: nat, now: Time, later: Time)
    requires delivery.EventMessage? && EventRefusal(s, cfg, delivery).None? && !delivery.event.IsRequestLevelRejection()
    requires var e := delivery.event;
             var t := s.tasks[e.taskId];
             1 <= k <= |EventRecords(t, e, Classify(t.evidence, e, Regressed(s, e.robotId)))|
    ensures var e := delivery.event;
            var t := s.tasks[e.taskId];
            var rs := EventRecords(t, e, Classify(t.evidence, e, Regressed(s, e.robotId)));
            var torn := ApplyAll(s, Stamp(rs[..k], now));
            Alike(ApplyAll(s, Stamp(rs, now)), ApplyAll(torn, DecideEvent(torn, cfg, delivery, later)))
  {
    var e := delivery.event;
    var t := s.tasks[e.taskId];
    var c := Classify(t.evidence, e, Regressed(s, e.robotId));
    var rs := EventRecords(t, e, c);
    var first := ApplyAll(s, Stamp(rs[..1], now));
    EvidenceLine(s, e, c, now);
    StepHeard(t, e, Regressed(s, e.robotId), s.applied + 1, now);
    FollowUpsOf(t, first.tasks[e.taskId], e, c);
    RefusalDependsOnTasks(s, first, cfg, delivery);
    var torn := ApplyAll(s, Stamp(rs[..k], now));
    assert rs[..k][..1] == rs[..1] && rs[..k][1..] == rs[1..k];
    assert forall r :: r in rs[1..k] ==> r in rs[1..];
    assert first.tasks.Keys == s.tasks.Keys;
    hide *;
    // the whole batch and the torn one both look like the state after the evidence line
    FollowUpsQuiet(first, e.taskId, rs[1..], now);
    SplitBatch(s, rs, 1, now);
    SplitBatch(s, rs[..k], 1, now);
    FollowUpsQuiet(first, e.taskId, rs[1..k], now);
    AlikeHeard(first, torn, cfg, delivery);
    HeardAgain(torn, cfg, delivery, later);
    var again := ApplyAll(torn, DecideEvent(torn, cfg, delivery, later));
    AlikeTransitive(first, torn, again);
    var whole := ApplyAll(s, Stamp(rs, now));
    AlikeSelf(first);
    AlikeTransitive(first, first, whole);
    AlikeTransitive(whole, first, again);
  }

  /** Every line after the evidence line restates what the evidence line already derived. */
  lemma FollowUpsOf(t: TaskView, u: TaskView, e: TaskEvent, c: Verdict)
    requires c.conflict ==> u.AuthorizationConflict() && ConflictingTerminalReason in u.reasons
    requires c.flag.Some? ==> c.flag.value in u.reasons
    ensures forall r :: r in EventRecords(t, e, c)[1..] ==> FollowUp(u, e.taskId, r)
  {
    hide ProspectiveGap;
  }

  lemma EvidenceLine(s: EdgeState, e: TaskEvent, c: Verdict, now: Time)
    requires e.taskId in s.tasks
    ensures var t := s.tasks[e.taskId];
            var rs := EventRecords(t, e, c);
            var first := ApplyAll(s, Stamp(rs[..1], now));
            && first.tasks.Keys == s.tasks.Keys
            && first.tasks[e.taskId] == EventStep(t, Received(t.evidence, e, c), s.applied + 1, now)
            && (forall id :: id in s.tasks ==> first.tasks[id].request == s.tasks[id].request)
            && rs[0] == Received(t.evidence, e, c)
  {
    var t := s.tasks[e.taskId];
    var r := Received(t.evidence, e, c);
    var rs := EventRecords(t, e, c);
    assert rs[0] == r && rs[..1] == [r];
    ReceivedLine(s, e, c, now);
    hide *;
    OneRecord(s, [r], now);
  }

  lemma ReceivedLine(s: EdgeState, e: TaskEvent, c: Verdict, now: Time)
    requires e.taskId in s.tasks
    ensures var t := s.tasks[e.taskId];
            var first := Apply(s, Stamped(Received(t.evidence, e, c), now));
            && first.tasks.Keys == s.tasks.Keys
            && first.tasks[e.taskId] == EventStep(t, Received(t.evidence, e, c), s.applied + 1, now)
            && forall id :: id in s.tasks ==> first.tasks[id].request == s.tasks[id].request
  {
    var t := s.tasks[e.taskId];
    var r := Received(t.evidence, e, c);
    TasksAfterEach(s, r, now);
    forall id | id in s.tasks ensures TaskStep(id, s.tasks[id], r, s.applied + 1, now).request == s.tasks[id].request {
      RequestKept(id, s.tasks[id], r, s.applied + 1, now);
    }
    hide EventStep, ProspectiveGap, TasksAfter, DevicesAfter;
    assert Apply(s, Stamped(r, now)).tasks == TasksAfter(s, Stamped(r, now));
  }

  lemma RequestKept(id: TaskId, t: TaskView, r: EdgeRecord, n: nat, at: Time)
    requires EventKindOfRecord(r)
    ensures TaskStep(id, t, r, n, at).request == t.request
  {
    hide EvidenceStep, ReasonsStep, ClocksStep, NoteEvidence;
  }

  lemma RefusalDependsOnTasks(s: EdgeState, u: EdgeState, cfg: EdgeConfig, delivery: EventDelivery)
    requires s.tasks.Keys == u.tasks.Keys && forall id :: id in s.tasks ==> u.tasks[id].request == s.tasks[id].request
    ensures EventRefusal(s, cfg, delivery) == EventRefusal(u, cfg, delivery)
  {
  }

  lemma AlikeHeard(s: EdgeState, u: EdgeState, cfg: EdgeConfig, delivery: EventDelivery)
    requires Alike(s, u) && delivery.EventMessage? && EventRefusal(s, cfg, delivery).None?
    requires Heard(s.tasks[delivery.event.taskId], delivery.event)
    ensures EventRefusal(u, cfg, delivery).None? && Heard(u.tasks[delivery.event.taskId], delivery.event)
  {
    RefusalDependsOnTasks(s, u, cfg, delivery);
    assert AlikeTask(s.tasks[delivery.event.taskId], u.tasks[delivery.event.taskId]);
  }

  /** Batches with no evidence record: a refusal, or a request-level rejection with its regression. */
  lemma TornQuietBatch(s: EdgeState, cfg: EdgeConfig, delivery: EventDelivery, k: nat, now: Time, later: Time)
    requires EventRefusal(s, cfg, delivery).Some? || delivery.event.IsRequestLevelRejection()
    requires k <= |DecideEventRecords(s, cfg, delivery)|
    ensures var rs := DecideEventRecords(s, cfg, delivery);
            var torn := ApplyAll(s, Stamp(rs[..k], now));
            Alike(ApplyAll(s, Stamp(rs, now)), ApplyAll(torn, DecideEvent(torn, cfg, delivery, later)))
  {
    var rs := DecideEventRecords(s, cfg, delivery);
    var torn := ApplyAll(s, Stamp(rs[..k], now));
    if EventRefusal(s, cfg, delivery).None? && ExposesRegression(s, delivery.event) {
      RequestLevelRegression(s, cfg, delivery, k, now, later);
    } else {
      assert |rs| == 1 && (rs[0].TaskEventRejected? || rs[0].RobotRequestRejected?);
      var whole := ApplyAll(s, Stamp(rs, now));
      QuietStep(s, rs[0], now);
      OneRecord(s, rs, now);
      NoRecords(s, rs, now);
      hide Apply, DecideEventRecords, EventRefusal, ExposesRegression, Alike;
      AlikeSelf(s);
      assert k == 0 || (k == 1 && rs[..1] == rs);
      assert Alike(s, torn);
      AlikeDecision(s, torn, cfg, delivery);
      QuietStep(torn, rs[0], later);
      OneRecord(torn, rs, later);
      var again := ApplyAll(torn, DecideEvent(torn, cfg, delivery, later));
      AlikeTransitive(s, torn, again);
      AlikeTransitive(s, s, whole);
      AlikeTransitive(whole, s, again);
    }
  }

  lemma OneRecord(s: EdgeState, rs: seq<EdgeRecord>, now: Time)
    requires |rs| == 1
    ensures ApplyAll(s, Stamp(rs, now)) == Apply(s, Stamped(rs[0], now))
  {
    hide Apply;
    assert Stamp(rs, now) == [Stamped(rs[0], now)] && [Stamped(rs[0], now)][1..] == [];
  }

  lemma NoRecords(s: EdgeState, rs: seq<EdgeRecord>, now: Time)
    ensures ApplyAll(s, Stamp(rs[..0], now)) == s
  {
    assert Stamp(rs[..0], now) == [];
  }

  lemma {:induction false} RequestLevelRegression(s: EdgeState, cfg: EdgeConfig, delivery: EventDelivery, k: nat, now: Time, later: Time)
    requires EventRefusal(s, cfg, delivery).None? && delivery.event.IsRequestLevelRejection() && ExposesRegression(s, delivery.event)
    requires k <= 2
    ensures var rs := DecideEventRecords(s, cfg, delivery);
            var torn := ApplyAll(s, Stamp(rs[..k], now));
            |rs| == 2 && Alike(ApplyAll(s, Stamp(rs, now)), ApplyAll(torn, DecideEvent(torn, cfg, delivery, later)))
  {
    var e := delivery.event;
    RequestLevelRecords(s, cfg, delivery, now);
    hide *;
    TornPair(s, Apply(s, Stamped(SessionRegression(e.robotId), now)), cfg, delivery,
             [SessionRegression(e.robotId), RobotRequestRejected(e.taskId)], k, now, later);
  }

  lemma {:induction false} TornPair(s: EdgeState, s1: EdgeState, cfg: EdgeConfig, delivery: EventDelivery, rs: seq<EdgeRecord>, k: nat, now: Time, later: Time)
    requires |rs| == 2 && k <= 2 && rs[1].RobotRequestRejected? && s1 == Apply(s, Stamped(rs[0], now))
    requires DecideEventRecords(s, cfg, delivery) == rs && DecideEventRecords(s1, cfg, delivery) == [rs[1]]
    ensures var torn := ApplyAll(s, Stamp(rs[..k], now));
            Alike(ApplyAll(s, Stamp(rs, now)), ApplyAll(torn, DecideEvent(torn, cfg, delivery, later)))
  {
    hide *;
    if k == 0 {
      TornAtNothing(s, cfg, delivery, rs, now, later);
    } else {
      assert rs[..1] == [rs[0]] && rs[1..] == [rs[1]];
      SplitBatch(s, rs, 1, now);
      OneRecord(s, [rs[0]], now);
      OneRecord(s1, [rs[1]], now);
      if k == 2 { assert rs[..2] == rs; }
      TornAtQuietRecord(s1, ApplyAll(s, Stamp(rs[..k], now)), cfg, delivery, rs[1], now, later);
    }
  }

  /** Nothing persisted: redelivery decides the same batch. */
  lemma {:induction false} TornAtNothing(s: EdgeState, cfg: EdgeConfig, delivery: EventDelivery, rs: seq<EdgeRecord>, now: Time, later: Time)
    requires rs == DecideEventRecords(s, cfg, delivery)
    ensures var torn := ApplyAll(s, Stamp(rs[..0], now));
            Alike(ApplyAll(s, Stamp(rs, now)), ApplyAll(torn, DecideEvent(torn, cfg, delivery, later)))
  {
    DecisionKinds(s, cfg, delivery);
    hide *;
    NoRecords(s, rs, now);
    AlikeSelf(s);
    AlikeBatch(s, s, rs, now, later);
    DecidedStamp(s, cfg, delivery, later);
  }

  /** From the regression record on, redelivery only says again what changes nothing. */
  lemma {:induction false} TornAtQuietRecord(s1: EdgeState, torn: EdgeState, cfg: EdgeConfig, delivery: EventDelivery, r: EdgeRecord, now: Time, later: Time)
    requires r.RobotRequestRejected? && DecideEventRecords(s1, cfg, delivery) == [r]
    requires torn == s1 || torn == Apply(s1, Stamped(r, now))
    ensures Alike(Apply(s1, Stamped(r, now)), ApplyAll(torn, DecideEvent(torn, cfg, delivery, later)))
  {
    var s2 := Apply(s1, Stamped(r, now));
    QuietStep(s1, r, now);
    hide *;
    AlikeSelf(s1);
    AlikeDecision(s1, torn, cfg, delivery);
    DecidedStamp(torn, cfg, delivery, later);
    QuietStep(torn, r, later);
    OneRecord(torn, [r], later);
    var again := Apply(torn, Stamped(r, later));
    AlikeTransitive(s1, torn, again);
    AlikeTransitive(s1, s1, s2);
    AlikeTransitive(s2, s1, again);
  }

  lemma RequestLevelRecords(s: EdgeState, cfg: EdgeConfig, delivery: EventDelivery, now: Time)
    requires EventRefusal(s, cfg, delivery).None? && delivery.event.IsRequestLevelRejection() && ExposesRegression(s, delivery.event)
    ensures var rs := [SessionRegression(delivery.event.robotId), RobotRequestRejected(delivery.event.taskId)];
            && DecideEventRecords(s, cfg, delivery) == rs
            && DecideEventRecords(Apply(s, Stamped(rs[0], now)), cfg, delivery) == [rs[1]]
  {
    var s1 := Apply(s, Stamped(SessionRegression(delivery.event.robotId), now));
    RegressionKeepsEvidence(s, delivery.event.robotId, now);
    RefusalDependsOnTasks(s, s1, cfg, delivery);
    hide Apply, EventRefusal;
  }

  /** Torn after only the regression record of an evidence batch. */
  lemma TornAtRegression(s: EdgeState, cfg: EdgeConfig, delivery: EventDelivery, now: Time, later: Time)
    requires EventRefusal(s, cfg, delivery).None? && !delivery.event.IsRequestLevelRejection()
    requires AfterRegression(s, delivery.event, now) != s
    ensures var s1 := AfterRegression(s, delivery.event, now);
            && EventRefusal(s1, cfg, delivery).None?
            && DecideEventRecords(s1, cfg, delivery)
               == EventRecords(s1.tasks[delivery.event.taskId], delivery.event,
                               Classify(s1.tasks[delivery.event.taskId].evidence, delivery.event, Regressed(s1, delivery.event.robotId)))
  {
    var s1 := AfterRegression(s, delivery.event, now);
    AdmittedEventShape(s, cfg, delivery, now);
    RegressionKeepsEvidence(s, delivery.event.robotId, now);
    RefusalDependsOnTasks(s, s1, cfg, delivery);
    hide Apply, Classify, EventRecords, EventRefusal;
  }

  /** Any torn prefix of an event batch, then the same message again: the same outcome as the whole batch. */
  lemma TornBatchHarmless(s: EdgeState, cfg: EdgeConfig, delivery: EventDelivery, k: nat, now: Time, later: Time)
    requires k <= |DecideEvent(s, cfg, delivery, now)|
    ensures var batch := DecideEvent(s, cfg, delivery, now);
            var whole := ApplyAll(s, batch);
            var torn := ApplyAll(s, batch[..k]);
            var again := ApplyAll(torn, DecideEvent(torn, cfg, delivery, later));
            && Alike(whole, again)
            && (forall robot :: GateClosed(whole, robot) <==> GateClosed(again, robot))
  {
    var rs := DecideEventRecords(s, cfg, delivery);
    var torn := ApplyAll(s, Stamp(rs[..k], now));
    SplitBatch(s, rs, k, now);
    hide Apply;
    if EventRefusal(s, cfg, delivery).Some? || delivery.event.IsRequestLevelRejection() {
      TornQuietBatch(s, cfg, delivery, k, now, later);
    } else {
      TornEvidenceBatch(s, cfg, delivery, k, now, later);
    }
    var whole := ApplyAll(s, Stamp(rs, now));
    var again := ApplyAll(torn, DecideEvent(torn, cfg, delivery, later));
    hide DecideEventRecords, EventRefusal, Alike, GateClosed, ApplyAll;
    AlikeSelf(whole);
    AlikeTransitive(whole, whole, again);
    forall robot ensures GateClosed(whole, robot) <==> GateClosed(again, robot) {
      if GateClosed(whole, robot) { AlikeGate(whole, again, robot); }
      if GateClosed(again, robot) { AlikeGate(again, whole, robot); }
    }
  }

  lemma {:induction false} TornEvidenceBatch(s: EdgeState, cfg: EdgeConfig, delivery: EventDelivery, k: nat, now: Time, later: Time)
    requires EventRefusal(s, cfg, delivery).None? && !delivery.event.IsRequestLevelRejection()
    requires k <= |DecideEventRecords(s, cfg, delivery)|
    ensures var rs := DecideEventRecords(s, cfg, delivery);
            var torn := ApplyAll(s, Stamp(rs[..k], now));
            Alike(ApplyAll(s, Stamp(rs, now)), ApplyAll(torn, DecideEvent(torn, cfg, delivery, later)))
  {
    var e := delivery.event;
    var rs := DecideEventRecords(s, cfg, delivery);
    var s1 := AfterRegression(s, e, now);
    AdmittedEventShape(s, cfg, delivery, now);
    if s1 != s { TornAtRegression(s, cfg, delivery, now, later); }
    assert e.taskId in s1.tasks && delivery.EventMessage?;
    hide *;
    var tail := EventRecords(s1.tasks[e.taskId], e, Classify(s1.tasks[e.taskId].evidence, e, Regressed(s1, e.robotId)));
    if k == 0 {
      TornAtNothing(s, cfg, delivery, rs, now, later);
    } else if s1 == s {
      assert rs == [] + tail == tail;
      TornAfterEvidence(s, cfg, delivery, k, now, later);
    } else {
      TornPastRegression(s, s1, cfg, delivery, rs, tail, k, now, later);
    }
  }

  lemma {:induction false} TornPastRegression(s: EdgeState, s1: EdgeState, cfg: EdgeConfig, delivery: EventDelivery, rs: seq<EdgeRecord>, tail: seq<EdgeRecord>,
                                             k: nat, now: Time, later: Time)
    requires delivery.EventMessage? && delivery.event.taskId in s1.tasks
    requires 1 <= k <= |rs| && rs == [SessionRegression(delivery.event.robotId)] + tail
    requires s1 == Apply(s, Stamped(SessionRegression(delivery.event.robotId), now))
    requires EventRefusal(s1, cfg, delivery).None? && !delivery.event.IsRequestLevelRejection()
    requires var e := delivery.event;
             && tail == EventRecords(s1.tasks[e.taskId], e, Classify(s1.tasks[e.taskId].evidence, e, Regressed(s1, e.robotId)))
             && DecideEventRecords(s1, cfg, delivery) == tail
    ensures var torn := ApplyAll(s, Stamp(rs[..k], now));
            Alike(ApplyAll(s, Stamp(rs, now)), ApplyAll(torn, DecideEvent(torn, cfg, delivery, later)))
  {
    hide *;
    var regression := SessionRegression(delivery.event.robotId);
    assert rs[..1] == [regression] && rs[1..] == tail;
    SplitBatch(s, rs, 1, now);
    OneRecord(s, [regression], now);
    assert rs[..k][..1] == rs[..1] && rs[..k][1..] == tail[..k - 1];
    SplitBatch(s, rs[..k], 1, now);
    if k == 1 {
      TornAtNothing(s1, cfg, delivery, tail, now, later);
    } else {
      TornAfterEvidence(s1, cfg, delivery, k - 1, now, later);
    }
  }
}
