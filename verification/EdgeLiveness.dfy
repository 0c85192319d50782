/** Receipt clocks: probes re-arm from the first answer, and thinned heartbeats never look STALE. */
module EdgeLiveness {
  import opened Common
  import opened TaskContracts
  import opened EdgeViews
  import opened EdgeDecisions
  import opened EdgeLegality
  import opened EdgeRuns

  // -- the first answer to a probe

  /** Any robot evidence about the task, duplicates and request-level rejections included. */
  predicate Answers(st: Stamped, id: TaskId) {
    (st.record.TaskEventReceived? && st.record.event.taskId == id) || (st.record.RobotRequestRejected? && st.record.requestRejected == id)
  }

  predicate Flags(st: Stamped, id: TaskId, reason: FlagReason) { st.record == TaskReconciliationFlagged(id, reason) }

  /** The flag appended as record n is unanswered. */
  predicate Pending(s: EdgeState, id: TaskId, reason: FlagReason, n: nat) {
    && id in s.tasks && s.applied >= n
    && reason in s.tasks[id].clocks.flagRecord && s.tasks[id].clocks.flagRecord[reason] == n
    && s.tasks[id].clocks.lastEventRecord < n
  }

  /** The flag appended as record n was first answered at this time. */
  predicate Anchored(s: EdgeState, id: TaskId, reason: FlagReason, n: nat, answer: Time) {
    && id in s.tasks && s.applied >= n
    && reason in s.tasks[id].clocks.flagRecord && s.tasks[id].clocks.flagRecord[reason] == n
    && s.tasks[id].clocks.lastEventRecord >= n
    && reason in s.tasks[id].clocks.answeredAt && s.tasks[id].clocks.answeredAt[reason] == answer
  }

  ghost predicate EventRecordsPast(s: EdgeState) {
    forall id :: id in s.tasks ==> s.tasks[id].clocks.lastEventRecord <= s.applied
  }

  lemma PastStep(s: EdgeState, st: Stamped)
    requires EventRecordsPast(s)
    ensures EventRecordsPast(Apply(s, st))
  {
    hide DevicesAfter, EvidenceStep, ReasonsStep;
  }

  lemma FlagStarts(cfg: EdgeConfig, s: EdgeState, st: Stamped, id: TaskId, reason: FlagReason)
    requires Legal(cfg, s, st) && EventRecordsPast(s) && Flags(st, id, reason)
    ensures Pending(Apply(s, st), id, reason, s.applied + 1)
  {
    hide DevicesAfter;
  }

  /** The clock of a reason after one record: evidence answers an unanswered flag, nothing else moves it. */
  predicate ClockMoves(c: Clocks, c': Clocks, reason: FlagReason, answers: bool, n: nat, at: Time) {
    && (reason in c.flagRecord <==> reason in c'.flagRecord)
    && (reason in c.flagRecord ==> c'.flagRecord[reason] == c.flagRecord[reason])
    && c'.lastEventRecord == (if answers then n else c.lastEventRecord)
    && (if reason in c.flagRecord && c.flagRecord[reason] > c.lastEventRecord && answers
        then reason in c'.answeredAt && c'.answeredAt[reason] == at
        else reason in c.answeredAt ==> reason in c'.answeredAt && c'.answeredAt[reason] == c.answeredAt[reason])
  }

  lemma EvidenceClock(c: Clocks, d: Disposition, n: nat, at: Time, reason: FlagReason)
    ensures ClockMoves(c, NoteEvidence(c, n, at), reason, true, n, at)
    ensures ClockMoves(c, ClocksStep(c, d, n, at), reason, true, n, at)
  {
  }

  lemma ClockStep(id: TaskId, t: TaskView, st: Stamped, n: nat, reason: FlagReason)
    requires reason in PROGRESS && !Flags(st, id, reason)
    ensures ClockMoves(t.clocks, TaskStep(id, t, st.record, n, st.at).clocks, reason, Answers(st, id), n, st.at)
  {
    if Answers(st, id) {
      EvidenceClock(t.clocks, if st.record.TaskEventReceived? then st.record.disposition else Duplicate, n, st.at, reason);
      hide NoteEvidence, ClocksStep, ClockMoves;
    }
    hide EvidenceStep, ReasonsStep, NoteEvidence, ClocksStep;
  }

  lemma PendingStep(cfg: EdgeConfig, s: EdgeState, st: Stamped, id: TaskId, reason: FlagReason, n: nat)
    requires Legal(cfg, s, st) && Pending(s, id, reason, n) && reason in PROGRESS && !Flags(st, id, reason)
    ensures if Answers(st, id) then Anchored(Apply(s, st), id, reason, n, st.at) else Pending(Apply(s, st), id, reason, n)
  {
    KnownStep(cfg, s, st, id);
    ClockStep(id, s.tasks[id], st, s.applied + 1, reason);
    hide Legal, Apply, TaskStep, Answers, Flags;
  }

  lemma AnchoredStep(cfg: EdgeConfig, s: EdgeState, st: Stamped, id: TaskId, reason: FlagReason, n: nat, answer: Time)
    requires Legal(cfg, s, st) && Anchored(s, id, reason, n, answer) && reason in PROGRESS && !Flags(st, id, reason)
    ensures Anchored(Apply(s, st), id, reason, n, answer)
  {
    KnownStep(cfg, s, st, id);
    ClockStep(id, s.tasks[id], st, s.applied + 1, reason);
    hide Legal, Apply, TaskStep, Answers, Flags;
  }

  lemma AppliedStep(s: EdgeState, st: Stamped)
    ensures Apply(s, st).applied == s.applied + 1
  {
  }

  lemma {:induction false} CountedAt(cfg: EdgeConfig, journal: seq<Stamped>, n: nat)
    requires LegalJournal(cfg, journal) && n <= |journal|
    ensures At(cfg, journal, n).applied == n && EventRecordsPast(At(cfg, journal, n))
    decreases n
  {
    if n == 0 {
      assert journal[..0] == [];
    } else {
      hide *;
      CountedAt(cfg, journal, n - 1);
      StepAt(cfg, journal, n - 1);
      AppliedStep(At(cfg, journal, n - 1), journal[n - 1]);
      PastStep(At(cfg, journal, n - 1), journal[n - 1]);
    }
  }

  lemma {:induction false} PendingUntilAnswer(cfg: EdgeConfig, journal: seq<Stamped>, i: nat, n: nat, id: TaskId, reason: FlagReason)
    requires LegalJournal(cfg, journal) && i < n <= |journal| && Flags(journal[i], id, reason) && reason in PROGRESS
    requires forall q :: i < q < n ==> !Answers(journal[q], id) && !Flags(journal[q], id, reason)
    ensures Pending(At(cfg, journal, n), id, reason, i + 1)
    decreases n
  {
    hide *;
    CountedAt(cfg, journal, n - 1);
    StepAt(cfg, journal, n - 1);
    if i == n - 1 {
      FlagStarts(cfg, At(cfg, journal, i), journal[i], id, reason);
    } else {
      PendingUntilAnswer(cfg, journal, i, n - 1, id, reason);
      PendingStep(cfg, At(cfg, journal, n - 1), journal[n - 1], id, reason, i + 1);
    }
  }

  lemma {:induction false} AnchoredAfterAnswer(cfg: EdgeConfig, journal: seq<Stamped>, i: nat, k: nat, n: nat, id: TaskId, reason: FlagReason)
    requires LegalJournal(cfg, journal) && i < k < n <= |journal| && Flags(journal[i], id, reason) && reason in PROGRESS
    requires forall q :: i < q < k ==> !Answers(journal[q], id)
    requires Answers(journal[k], id)
    requires forall q :: i < q < n ==> !Flags(journal[q], id, reason)
    ensures Anchored(At(cfg, journal, n), id, reason, i + 1, journal[k].at)
    decreases n
  {
    hide *;
    StepAt(cfg, journal, n - 1);
    if k == n - 1 {
      PendingUntilAnswer(cfg, journal, i, k, id, reason);
      PendingStep(cfg, At(cfg, journal, k), journal[k], id, reason, i + 1);
    } else {
      AnchoredAfterAnswer(cfg, journal, i, k, n - 1, id, reason);
      AnchoredStep(cfg, At(cfg, journal, n - 1), journal[n - 1], id, reason, i + 1, journal[k].at);
    }
  }

  /** A probe re-arms one window after its first answer: later duplicates cannot postpone it. */
  lemma FirstAnswerAnchorsProbe(cfg: EdgeConfig, choices: seq<EdgeChoice>, i: nat, k: nat, n: nat, id: TaskId, reason: FlagReason, now: Time)
    requires i < k < n <= |EdgeRun(cfg, choices)| && reason in PROGRESS
    requires Flags(EdgeRun(cfg, choices)[i], id, reason) && Answers(EdgeRun(cfg, choices)[k], id)
    requires forall q :: i < q < k ==> !Answers(EdgeRun(cfg, choices)[q], id)
    requires forall q :: i < q < n ==> !Flags(EdgeRun(cfg, choices)[q], id, reason)
    ensures id in At(cfg, EdgeRun(cfg, choices), n).tasks
    ensures var t := At(cfg, EdgeRun(cfg, choices), n).tasks[id];
            reason in t.clocks.flaggedSinceProgress ==>
              (ReprobeDue(t, reason, now, Window(t)) <==>
                 && (t.clocks.lastProbeAt.Some? ==> now - t.clocks.lastProbeAt.value >= Window(t))
                 && now - EdgeRun(cfg, choices)[k].at >= Window(t))
  {
    RunLegal(cfg, choices);
    AnchoredAfterAnswer(cfg, EdgeRun(cfg, choices), i, k, n, id, reason);
    hide EdgeRun, At, LegalJournal, TasksOk, Answers, Flags;
  }

  // -- thinned receipts

  predicate AcceptedStatus(cfg: EdgeConfig, s: EdgeState, delivery: StatusDelivery, robot: RobotId) {
    !StatusRefused(cfg, delivery) && delivery.message.robotId == robot &&
    var m := delivery.message;
    var d := if robot in s.devices then s.devices[robot] else NEW_DEVICE;
    && !StatusRegressed(d, m)
    && !(d.boot.Some? && d.boot.value.sequence == m.bootSequence && d.lastStatusSequence.Some? && m.statusSequence <= d.lastStatusSequence.value)
  }

  /** The receipt an accepted status leaves, if it leaves one. */
  function Receipt(cfg: EdgeConfig, s: EdgeState, m: StatusMessage, now: Time): seq<EdgeRecord> {
    var d := if m.robotId in s.devices then s.devices[m.robotId] else NEW_DEVICE;
    ReceiptRecords(d, cfg, m, d.boot.None? || m.bootSequence > d.boot.value.sequence, now)
  }

  /** The step heard a valid status of this robot, and its receipt (if any) became durable. */
  predicate Hears(cfg: EdgeConfig, s: EdgeState, c: EdgeChoice, robot: RobotId) {
    && c.step.StatusArrives? && AcceptedStatus(cfg, s, c.step.status, robot)
    && c.persisted >= |Receipt(cfg, s, c.step.status.message, c.step.now)|
  }

  /** When this robot was last heard, journaled or not. */
  function LastHeard(cfg: EdgeConfig, choices: seq<EdgeChoice>, robot: RobotId): Option<Time> {
    if choices == [] then None
    else
      var front := choices[..|choices| - 1];
      var c := choices[|choices| - 1];
      if Hears(cfg, ViewOf(cfg, EdgeRun(cfg, front)), c, robot) then Some(c.step.now) else LastHeard(cfg, front, robot)
  }

  predicate OnlineSince(s: EdgeState, robot: RobotId, received: Option<Time>) {
    robot in s.devices && s.devices[robot].connectivity.Online? && s.devices[robot].lastReceivedAt == received
  }

  predicate NoReceipt(r: EdgeRecord, robot: RobotId) {
    match r
    case DeviceStatusChanged(x, _) => x != robot
    case DeviceHeartbeat(x, _) => x != robot
    case DeviceLivenessChanged(x, to, _) => x != robot || !to.Online?
    case _ => true
  }

  predicate NoReceipts(rs: seq<EdgeRecord>, robot: RobotId) {
    forall r :: r in rs ==> NoReceipt(r, robot)
  }

  lemma NoReceiptStep(s: EdgeState, st: Stamped, robot: RobotId, received: Option<Time>)
    requires NoReceipt(st.record, robot) && OnlineSince(Apply(s, st), robot, received)
    ensures OnlineSince(s, robot, received)
  {
    hide TasksAfter;
  }

  lemma {:induction false} NoReceiptBatch(s: EdgeState, sts: seq<Stamped>, robot: RobotId, received: Option<Time>)
    requires forall i :: 0 <= i < |sts| ==> NoReceipt(sts[i].record, robot)
    requires OnlineSince(ApplyAll(s, sts), robot, received)
    ensures OnlineSince(s, robot, received)
    decreases |sts|
  {
    hide Apply, NoReceipt, OnlineSince;
    if sts != [] {
      NoReceiptBatch(Apply(s, sts[0]), sts[1..], robot, received);
      NoReceiptStep(s, sts[0], robot, received);
    }
  }

  lemma {:induction false} LivenessNoReceipt(s: EdgeState, cfg: EdgeConfig, now: Time, robots: seq<RobotId>, robot: RobotId)
    ensures NoReceipts(LivenessRecords(s, cfg, now, robots), robot)
    decreases |robots|
  {
    if robots != [] { LivenessNoReceipt(s, cfg, now, robots[1..], robot); }
  }

  lemma {:induction false} TaskTickFlags(s: EdgeState, now: Time, ids: seq<TaskId>, robot: RobotId)
    ensures NoReceipts(TaskTickRecords(s, now, ids), robot)
    decreases |ids|
  {
    if ids != [] {
      TaskTickFlags(s, now, ids[1..], robot);
      hide TickFlags;
    }
  }

  lemma {:induction false} StatusFlagsNoReceipt(s: EdgeState, cfg: EdgeConfig, m: StatusMessage, newSession: bool, now: Time, ids: seq<TaskId>, robot: RobotId)
    ensures NoReceipts(StatusFlags(s, cfg, m, newSession, now, ids), robot)
    decreases |ids|
  {
    if ids != [] {
      StatusFlagsNoReceipt(s, cfg, m, newSession, now, ids[1..], robot);
      hide StatusFlag;
    }
  }

  lemma EventNoReceipt(s: EdgeState, cfg: EdgeConfig, delivery: EventDelivery, robot: RobotId)
    ensures NoReceipts(DecideEventRecords(s, cfg, delivery), robot)
  {
    if EventRefusal(s, cfg, delivery).None? && !delivery.event.IsRequestLevelRejection() {
      var e := delivery.event;
      var t := s.tasks[e.taskId];
      ClassifiedNoReceipt(t, e, Classify(t.evidence, e, ExposesRegression(s, e) || (e.robotId in s.devices && s.devices[e.robotId].sessionRegression)), robot);
    }
    hide Classify, ExposesRegression, EventRefusal, EventRecords;
  }

  lemma ClassifiedNoReceipt(t: TaskView, e: TaskEvent, c: Verdict, robot: RobotId)
    ensures NoReceipts(EventRecords(t, e, c), robot)
  {
    hide ProspectiveGap;
  }

  /** An accepted status leaves its receipt first, then flags. */
  lemma AcceptedShape(cfg: EdgeConfig, s: EdgeState, delivery: StatusDelivery, now: Time, robot: RobotId)
    requires AcceptedStatus(cfg, s, delivery, robot)
    ensures var receipt := Receipt(cfg, s, delivery.message, now);
            var rs := DecideStatusRecords(s, cfg, delivery, now);
            && |receipt| <= 1 && |receipt| <= |rs| && rs[..|receipt|] == receipt && NoReceipts(rs[|receipt|..], robot)
  {
    var m := delivery.message;
    var d := if m.robotId in s.devices then s.devices[m.robotId] else NEW_DEVICE;
    var newSession := d.boot.None? || m.bootSequence > d.boot.value.sequence;
    var receipt := ReceiptRecords(d, cfg, m, newSession, now);
    var flags := StatusFlags(s, cfg, m, newSession, now, s.order);
    StatusFlagsNoReceipt(s, cfg, m, newSession, now, s.order, robot);
    assert DecideStatusRecords(s, cfg, delivery, now) == receipt + flags;
    assert (receipt + flags)[..|receipt|] == receipt && (receipt + flags)[|receipt|..] == flags;
    hide StatusFlags, StatusRegressed, HalfStale, DecideStatusRecords, NoReceipts;
  }

  lemma OtherStatusNoReceipt(cfg: EdgeConfig, s: EdgeState, delivery: StatusDelivery, now: Time, robot: RobotId)
    requires !AcceptedStatus(cfg, s, delivery, robot)
    ensures NoReceipts(DecideStatusRecords(s, cfg, delivery, now), robot)
  {
    if !StatusRefused(cfg, delivery) {
      var m := delivery.message;
      var d := if m.robotId in s.devices then s.devices[m.robotId] else NEW_DEVICE;
      StatusFlagsNoReceipt(s, cfg, m, d.boot.None? || m.bootSequence > d.boot.value.sequence, now, s.order, robot);
    }
    hide StatusFlags, HalfStale;
  }

  lemma OtherStepNoReceipt(cfg: EdgeConfig, s: EdgeState, step: EdgeStep, robot: RobotId, i: nat)
    requires !(step.StatusArrives? && AcceptedStatus(cfg, s, step.status, robot))
    requires i < |StepBatch(cfg, s, step)|
    ensures NoReceipt(StepBatch(cfg, s, step)[i].record, robot)
  {
    match step
    case StatusArrives(delivery, now) =>
      OtherStatusNoReceipt(cfg, s, delivery, now, robot);
      hide DecideStatusRecords, AcceptedStatus;
      assert DecideStatusRecords(s, cfg, delivery, now)[i] in DecideStatusRecords(s, cfg, delivery, now);
    case Tick(robots, now) =>
      LivenessNoReceipt(s, cfg, now, robots, robot);
      TaskTickFlags(s, now, s.order, robot);
      hide LivenessRecords, TaskTickRecords;
      assert (LivenessRecords(s, cfg, now, robots) + TaskTickRecords(s, now, s.order))[i]
          in LivenessRecords(s, cfg, now, robots) + TaskTickRecords(s, now, s.order);
    case EventArrives(delivery, now) =>
      EventNoReceipt(s, cfg, delivery, robot);
      hide DecideEventRecords;
      assert DecideEventRecords(s, cfg, delivery)[i] in DecideEventRecords(s, cfg, delivery);
    case Create(facts, request, now) => hide Admissible, GateClosed, HasActiveTask;
    case _ => hide Candidate;
  }

  /** An online robot's journaled receipt lags its last heard status by less than half a stale window. */
  predicate KeepsUp(cfg: EdgeConfig, s: EdgeState, robot: RobotId, heard: Option<Time>) {
    robot in s.devices && s.devices[robot].connectivity.Online? ==>
      heard.Some? && s.devices[robot].lastReceivedAt.Some? && 2 * (heard.value - s.devices[robot].lastReceivedAt.value) < cfg.staleAfter
  }

  lemma ReceiptKeepsUp(cfg: EdgeConfig, s: EdgeState, delivery: StatusDelivery, now: Time, robot: RobotId)
    requires AcceptedStatus(cfg, s, delivery, robot) && cfg.staleAfter > 0
    ensures KeepsUp(cfg, ApplyAll(s, Stamp(Receipt(cfg, s, delivery.message, now), now)), robot, Some(now))
  {
    var receipt := Receipt(cfg, s, delivery.message, now);
    hide TasksAfter, StatusRegressed, StatusRefused;
    if receipt == [] {
      assert Stamp(receipt, now) == [];
    } else {
      assert Stamp(receipt, now) == [Stamped(receipt[0], now)];
      ApplyOne(s, Stamped(receipt[0], now));
      hide ApplyAll;
    }
  }

  /** Records without a receipt of this robot cannot make its receipts lag further. */
  lemma QuietKeepsUp(cfg: EdgeConfig, s: EdgeState, sts: seq<Stamped>, robot: RobotId, heard: Option<Time>)
    requires KeepsUp(cfg, s, robot, heard)
    requires forall i :: 0 <= i < |sts| ==> NoReceipt(sts[i].record, robot)
    ensures KeepsUp(cfg, ApplyAll(s, sts), robot, heard)
  {
    var after := ApplyAll(s, sts);
    if robot in after.devices && after.devices[robot].connectivity.Online? {
      assert OnlineSince(after, robot, after.devices[robot].lastReceivedAt);
      hide ApplyAll, NoReceipt;
      NoReceiptBatch(s, sts, robot, after.devices[robot].lastReceivedAt);
    }
  }

  /** An accepted status whose receipt is durable: whatever flags follow, the receipt is recent. */
  /** The lines kept of an accepted status are its receipt and quiet records after it. */
  lemma KeptShape(cfg: EdgeConfig, s: EdgeState, c: EdgeChoice, robot: RobotId) returns (tail: seq<Stamped>)
    requires Hears(cfg, s, c, robot)
    ensures Kept(StepBatch(cfg, s, c.step), c.persisted) == Stamp(Receipt(cfg, s, c.step.status.message, c.step.now), c.step.now) + tail
    ensures forall i :: 0 <= i < |tail| ==> NoReceipt(tail[i].record, robot)
  {
    var now := c.step.now;
    var receipt := Receipt(cfg, s, c.step.status.message, now);
    var rs := DecideStatusRecords(s, cfg, c.step.status, now);
    AcceptedShape(cfg, s, c.step.status, now, robot);
    assert StepBatch(cfg, s, c.step) == Stamp(rs, now);
    hide AcceptedStatus, Receipt, DecideStatusRecords, StepBatch, NoReceipts, Stamp;
    tail := KeptAfter(rs, |receipt|, now, c.persisted, robot);
  }

  lemma KeptAfter(rs: seq<EdgeRecord>, n: nat, now: Time, persisted: nat, robot: RobotId) returns (tail: seq<Stamped>)
    requires n <= |rs| && n <= persisted && NoReceipts(rs[n..], robot)
    ensures Kept(Stamp(rs, now), persisted) == Stamp(rs[..n], now) + tail
    ensures forall i :: 0 <= i < |tail| ==> NoReceipt(tail[i].record, robot)
  {
    hide NoReceipt;
    var kept := Kept(Stamp(rs, now), persisted);
    tail := kept[n..];
    forall i | 0 <= i < |tail| ensures NoReceipt(tail[i].record, robot) {
      assert tail[i].record == rs[n..][i] && rs[n..][i] in rs[n..];
    }
    assert kept[..n] == Stamp(rs[..n], now);
  }

  lemma HeardKeepsUp(cfg: EdgeConfig, s: EdgeState, c: EdgeChoice, robot: RobotId)
    requires Hears(cfg, s, c, robot) && cfg.staleAfter > 0
    ensures KeepsUp(cfg, ApplyAll(s, Kept(StepBatch(cfg, s, c.step), c.persisted)), robot, Some(c.step.now))
  {
    var now := c.step.now;
    var receipt := Receipt(cfg, s, c.step.status.message, now);
    assert AcceptedStatus(cfg, s, c.step.status, robot);
    hide AcceptedStatus, Receipt, StepBatch, ApplyAll, KeepsUp, Hears, NoReceipt, Stamp;
    var tail := KeptShape(cfg, s, c, robot);
    ReceiptKeepsUp(cfg, s, c.step.status, now, robot);
    ApplyConcat(s, Stamp(receipt, now), tail);
    QuietKeepsUp(cfg, ApplyAll(s, Stamp(receipt, now)), tail, robot, Some(now));
  }

  /** A torn accepted status keeps nothing at all: its receipt is its first line. */
  lemma UnheardKeepsNothing(cfg: EdgeConfig, s: EdgeState, c: EdgeChoice, robot: RobotId)
    requires c.step.StatusArrives? && AcceptedStatus(cfg, s, c.step.status, robot) && !Hears(cfg, s, c, robot)
    ensures ApplyAll(s, Kept(StepBatch(cfg, s, c.step), c.persisted)) == s
  {
    AcceptedShape(cfg, s, c.step.status, c.step.now, robot);
    assert |StepBatch(cfg, s, c.step)| == |DecideStatusRecords(s, cfg, c.step.status, c.step.now)|;
    hide AcceptedStatus, Receipt, DecideStatusRecords, StepBatch;
    assert Kept(StepBatch(cfg, s, c.step), c.persisted) == [];
  }

  /** One step, torn anywhere: its kept lines are a durable receipt and quiet lines, or no receipt at all. */
  lemma StepKeepsUp(cfg: EdgeConfig, s: EdgeState, c: EdgeChoice, robot: RobotId, heard: Option<Time>)
    requires KeepsUp(cfg, s, robot, heard) && cfg.staleAfter > 0
    ensures KeepsUp(cfg, ApplyAll(s, Kept(StepBatch(cfg, s, c.step), c.persisted)), robot,
                    if Hears(cfg, s, c, robot) then Some(c.step.now) else heard)
  {
    var kept := Kept(StepBatch(cfg, s, c.step), c.persisted);
    assert Hears(cfg, s, c, robot) ==> c.step.StatusArrives? && AcceptedStatus(cfg, s, c.step.status, robot);
    hide AcceptedStatus, StepBatch, ApplyAll, KeepsUp, NoReceipt, Hears;
    if Hears(cfg, s, c, robot) {
      HeardKeepsUp(cfg, s, c, robot);
    } else if c.step.StatusArrives? && AcceptedStatus(cfg, s, c.step.status, robot) {
      UnheardKeepsNothing(cfg, s, c, robot);
    } else {
      forall i | 0 <= i < |kept| ensures NoReceipt(kept[i].record, robot) { OtherStepNoReceipt(cfg, s, c.step, robot, i); }
      QuietKeepsUp(cfg, s, kept, robot, heard);
    }
  }

  lemma {:induction false} RunKeepsUp(cfg: EdgeConfig, choices: seq<EdgeChoice>, robot: RobotId)
    requires cfg.staleAfter > 0
    ensures KeepsUp(cfg, ViewOf(cfg, EdgeRun(cfg, choices)), robot, LastHeard(cfg, choices, robot))
  {
    if choices != [] {
      var front := choices[..|choices| - 1];
      RunKeepsUp(cfg, front, robot);
      var c := choices[|choices| - 1];
      var s := ViewOf(cfg, EdgeRun(cfg, front));
      var kept := Kept(StepBatch(cfg, s, c.step), c.persisted);
      assert ViewOf(cfg, EdgeRun(cfg, choices)) == ApplyAll(s, kept) by {
        ApplyConcat(InitialEdge(cfg.robotIds), EdgeRun(cfg, front), kept);
        hide StepBatch, ApplyAll, Hears;
      }
      hide StepBatch, ApplyAll, KeepsUp, Hears, EdgeRun, ViewOf;
      StepKeepsUp(cfg, s, c, robot, LastHeard(cfg, front, robot));
    }
  }

  lemma {:induction false} LivenessMoves(s: EdgeState, cfg: EdgeConfig, now: Time, robots: seq<RobotId>, robot: RobotId, i: nat)
    requires i < |LivenessRecords(s, cfg, now, robots)|
    requires LivenessRecords(s, cfg, now, robots)[i].DeviceLivenessChanged? && LivenessRecords(s, cfg, now, robots)[i].livenessRobot == robot
    ensures robot in s.devices && LivenessMove(s.devices[robot], cfg, now) == Some(LivenessRecords(s, cfg, now, robots)[i].to)
    decreases |robots|
  {
    var move := if robots[0] in s.devices then LivenessMove(s.devices[robots[0]], cfg, now) else None;
    var skip := if move.Some? then 1 else 0;
    hide LivenessMove;
    if i >= skip { LivenessMoves(s, cfg, now, robots[1..], robot, i - skip); }
  }

  lemma NoStaleMove(cfg: EdgeConfig, s: EdgeState, robot: RobotId, heard: Time, now: Time)
    requires cfg.staleAfter > 0 && KeepsUp(cfg, s, robot, Some(heard)) && 2 * (now - heard) <= cfg.staleAfter
    ensures robot in s.devices ==> LivenessMove(s.devices[robot], cfg, now) != Some(Stale)
  {
  }

  lemma NeverFlagged(cfg: EdgeConfig, choices: seq<EdgeChoice>, robots: seq<RobotId>, robot: RobotId, now: Time, m: Option<StatusMessage>)
    requires cfg.staleAfter > 0 && LastHeard(cfg, choices, robot).Some?
    requires KeepsUp(cfg, ViewOf(cfg, EdgeRun(cfg, choices)), robot, LastHeard(cfg, choices, robot))
    requires 2 * (now - LastHeard(cfg, choices, robot).value) <= cfg.staleAfter
    ensures DeviceLivenessChanged(robot, Stale, m) !in LivenessRecords(ViewOf(cfg, EdgeRun(cfg, choices)), cfg, now, robots)
  {
    hide *;
    var s := ViewOf(cfg, EdgeRun(cfg, choices));
    var rs := LivenessRecords(s, cfg, now, robots);
    NoStaleMove(cfg, s, robot, LastHeard(cfg, choices, robot).value, now);
    if DeviceLivenessChanged(robot, Stale, m) in rs {
      var i :| 0 <= i < |rs| && rs[i] == DeviceLivenessChanged(robot, Stale, m);
      LivenessMoves(s, cfg, now, robots, robot, i);
    }
  }

  /** A robot heard at most half a stale window ago is never flagged STALE, although its heartbeats are thinned. */
  lemma HeardRobotNeverStale(cfg: EdgeConfig, choices: seq<EdgeChoice>, robots: seq<RobotId>, robot: RobotId, now: Time)
    requires cfg.staleAfter > 0
    requires LastHeard(cfg, choices, robot).Some? && 2 * (now - LastHeard(cfg, choices, robot).value) <= cfg.staleAfter
    ensures forall m :: DeviceLivenessChanged(robot, Stale, m) !in LivenessRecords(ViewOf(cfg, EdgeRun(cfg, choices)), cfg, now, robots)
  {
    RunKeepsUp(cfg, choices, robot);
    hide EdgeRun, ViewOf, LastHeard, LivenessRecords;
    forall m ensures DeviceLivenessChanged(robot, Stale, m) !in LivenessRecords(ViewOf(cfg, EdgeRun(cfg, choices)), cfg, now, robots) {
      NeverFlagged(cfg, choices, robots, robot, now, m);
    }
  }
}
