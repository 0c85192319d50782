/** Timed bounds: paced probes, probes anchored on the first answer, and no false STALE. */
module EdgeTiming {
  import opened Common
  import opened TaskContracts
  import opened EdgeViews
  import opened EdgeDecisions
  import opened EdgeLegality
  import opened EdgeRuns

  // -- every progress-type flag is due when it is appended

  predicate Due(s: EdgeState, st: Stamped) {
    && st.record.TaskReconciliationFlagged? && st.record.flagged in s.tasks
    && var t := s.tasks[st.record.flagged];
    ReprobeDue(t, st.record.reason, st.at, Window(t))
  }

  predicate Paced(s: EdgeState, st: Stamped) {
    st.record.TaskReconciliationFlagged? && st.record.reason in PROGRESS ==> Due(s, st)
  }

  predicate PacedBatch(s: EdgeState, sts: seq<Stamped>)
    decreases |sts|
  {
    sts == [] || (Paced(s, sts[0]) && PacedBatch(Apply(s, sts[0]), sts[1..]))
  }

  lemma {:induction false} PacedPrefix(s: EdgeState, sts: seq<Stamped>, k: nat)
    requires PacedBatch(s, sts) && k <= |sts|
    ensures PacedBatch(s, sts[..k])
    decreases k
  {
    hide Paced, Apply;
    if k > 0 {
      PacedPrefix(Apply(s, sts[0]), sts[1..], k - 1);
      assert sts[..k][1..] == sts[1..][..k - 1];
    }
  }

  lemma {:induction false} PacedConcat(s: EdgeState, a: seq<Stamped>, b: seq<Stamped>)
    requires PacedBatch(s, a) && PacedBatch(ApplyAll(s, a), b)
    ensures PacedBatch(s, a + b)
    decreases |a|
  {
    hide Paced, Apply;
    if a == [] {
      assert a + b == b;
    } else {
      PacedConcat(Apply(s, a[0]), a[1..], b);
      assert (a + b)[1..] == a[1..] + b;
    }
  }

  lemma {:induction false} LastPaced(s: EdgeState, front: seq<Stamped>, last: Stamped)
    requires PacedBatch(s, front + [last])
    ensures Paced(ApplyAll(s, front), last)
    decreases |front|
  {
    hide Paced, Apply;
    if front == [] {
      assert front + [last] == [last];
    } else {
      assert (front + [last])[1..] == front[1..] + [last];
      LastPaced(Apply(s, front[0]), front[1..], last);
    }
  }

  predicate Unprobing(rs: seq<EdgeRecord>) {
    forall r :: r in rs ==> !(r.TaskReconciliationFlagged? && r.reason in PROGRESS)
  }

  lemma {:induction false} UnprobingPaced(s: EdgeState, rs: seq<EdgeRecord>, now: Time)
    requires Unprobing(rs)
    ensures PacedBatch(s, Stamp(rs, now))
    decreases |rs|
  {
    if rs != [] {
      var st := Stamped(rs[0], now);
      assert rs[0] in rs && Paced(s, st);
      assert Unprobing(rs[1..]) by { assert forall r :: r in rs[1..] ==> r in rs; }
      hide Paced, Apply, Unprobing;
      UnprobingPaced(Apply(s, st), rs[1..], now);
      assert Stamp(rs, now)[1..] == Stamp(rs[1..], now);
    }
  }

  /** Tasks are listed once each. */
  ghost predicate OrderOk(s: EdgeState) {
    && (forall id :: id in s.order ==> id in s.tasks)
    && (forall i, j :: 0 <= i < j < |s.order| ==> s.order[i] != s.order[j])
  }

  lemma OrderStep(s: EdgeState, st: Stamped)
    requires OrderOk(s)
    ensures OrderOk(Apply(s, st))
  {
    hide TaskStep, DevicesAfter;
  }

  lemma {:induction false} OrderBatch(s: EdgeState, sts: seq<Stamped>)
    requires OrderOk(s)
    ensures OrderOk(ApplyAll(s, sts))
    decreases |sts|
  {
    hide OrderOk, Apply;
    if sts != [] {
      OrderStep(s, sts[0]);
      OrderBatch(Apply(s, sts[0]), sts[1..]);
    }
  }

  // -- a batch that flags each listed task at most once stays due throughout

  /** The task's probe pacing is the same in both states, for progress-type reasons. */
  predicate SamePace(t: TaskView, u: TaskView) {
    && t.request == u.request && t.clocks.lastProbeAt == u.clocks.lastProbeAt
    && t.clocks.answeredAt == u.clocks.answeredAt && t.clocks.lastEventRecord == u.clocks.lastEventRecord
    && (forall r :: r in PROGRESS ==> (r in t.clocks.flaggedSinceProgress <==> r in u.clocks.flaggedSinceProgress))
    && (forall r :: r in PROGRESS ==> (r in t.clocks.flagRecord <==> r in u.clocks.flagRecord))
    && (forall r :: r in PROGRESS && r in t.clocks.flagRecord ==> t.clocks.flagRecord[r] == u.clocks.flagRecord[r])
  }

  lemma SamePaceDue(t: TaskView, u: TaskView, reason: FlagReason, now: Time)
    requires SamePace(t, u) && reason in PROGRESS
    ensures ReprobeDue(t, reason, now, Window(t)) == ReprobeDue(u, reason, now, Window(u))
  {
  }

  /** The records of a status or tick batch. */
  predicate StatusOrTick(r: EdgeRecord) {
    || r.TaskReconciliationFlagged? || r.DeviceStatusChanged? || r.DeviceHeartbeat?
    || r.DeviceLivenessChanged? || r.DeviceStatusRejected? || r.SessionRegression?
  }

  predicate Probes(r: EdgeRecord, id: TaskId) { r.TaskReconciliationFlagged? && r.flagged == id && r.reason in PROGRESS }

  lemma UnrelatedStep(s: EdgeState, st: Stamped, id: TaskId)
    requires StatusOrTick(st.record) && !Probes(st.record, id) && id in s.tasks
    ensures id in Apply(s, st).tasks && SamePace(s.tasks[id], Apply(s, st).tasks[id])
  {
    hide DevicesAfter;
  }

  /** Every probe of the batch is due in the state the batch was decided on, and no task is probed twice. */
  ghost predicate DueFrom(s: EdgeState, rs: seq<EdgeRecord>, now: Time) {
    && (forall i :: 0 <= i < |rs| ==> StatusOrTick(rs[i]) && Paced(s, Stamped(rs[i], now)))
    && (forall i, j, id :: 0 <= i < j < |rs| && Probes(rs[j], id) ==> !Probes(rs[i], id))
  }

  lemma StillPaced(s: EdgeState, st: Stamped, later: Stamped)
    requires StatusOrTick(st.record) && Paced(s, later)
    requires forall id :: Probes(later.record, id) ==> !Probes(st.record, id)
    ensures Paced(Apply(s, st), later)
  {
    if later.record.TaskReconciliationFlagged? && later.record.reason in PROGRESS {
      var id := later.record.flagged;
      assert Probes(later.record, id);
      UnrelatedStep(s, st, id);
      hide Apply, SamePace, ReprobeDue, Window;
      SamePaceDue(s.tasks[id], Apply(s, st).tasks[id], later.record.reason, later.at);
    }
  }

  lemma {:induction false} DueBatchPaced(s: EdgeState, rs: seq<EdgeRecord>, now: Time)
    requires DueFrom(s, rs, now)
    ensures PacedBatch(s, Stamp(rs, now))
    decreases |rs|
  {
    if rs != [] {
      var st := Stamped(rs[0], now);
      hide Paced, Apply, Probes, StatusOrTick;
      forall i | 1 <= i < |rs| ensures Paced(Apply(s, st), Stamped(rs[i], now)) {
        StillPaced(s, st, Stamped(rs[i], now));
      }
      DueBatchPaced(Apply(s, st), rs[1..], now);
      assert Stamp(rs, now)[1..] == Stamp(rs[1..], now);
    }
  }

  predicate FlagsOnly(rs: seq<EdgeRecord>, ids: seq<TaskId>) {
    forall r :: r in rs ==> r.TaskReconciliationFlagged? && r.flagged in ids
  }

  predicate Distinct(ids: seq<TaskId>) {
    forall i, j :: 0 <= i < j < |ids| ==> ids[i] != ids[j]
  }

  /** Batches about different tasks, one after the other. */
  lemma DueJoin(s: EdgeState, a: seq<EdgeRecord>, b: seq<EdgeRecord>, id: TaskId, ids: seq<TaskId>, now: Time)
    requires DueFrom(s, a, now) && FlagsOnly(a, [id]) && DueFrom(s, b, now) && FlagsOnly(b, ids) && id !in ids
    ensures DueFrom(s, a + b, now) && FlagsOnly(a + b, [id] + ids)
  {
    forall i, j, x | 0 <= i < j < |a + b| && Probes((a + b)[j], x) ensures !Probes((a + b)[i], x) {
      if i < |a| && j >= |a| { assert a[i] in a && b[j - |a|] in b; }
    }
    hide Paced;
  }

  lemma DueNothing(s: EdgeState, ids: seq<TaskId>, now: Time)
    ensures DueFrom(s, [], now) && FlagsOnly([], ids)
  {
  }

  lemma {:induction false} StatusFlagsDue(s: EdgeState, cfg: EdgeConfig, m: StatusMessage, newSession: bool, now: Time, ids: seq<TaskId>)
    requires Distinct(ids)
    ensures DueFrom(s, StatusFlags(s, cfg, m, newSession, now, ids), now)
    ensures FlagsOnly(StatusFlags(s, cfg, m, newSession, now, ids), ids)
    decreases |ids|
  {
    DueNothing(s, ids, now);
    if ids != [] {
      StatusFlagsDue(s, cfg, m, newSession, now, ids[1..]);
      var first := OneStatusFlag(s, cfg, m, newSession, now, ids[0]);
      OneStatusFlagDue(s, cfg, m, newSession, now, ids[0]);
      assert StatusFlags(s, cfg, m, newSession, now, ids) == first + StatusFlags(s, cfg, m, newSession, now, ids[1..]);
      hide StatusFlag, DueFrom, StatusFlags, OneStatusFlag;
      DueJoin(s, first, StatusFlags(s, cfg, m, newSession, now, ids[1..]), ids[0], ids[1..], now);
      assert ids == [ids[0]] + ids[1..];
    }
  }

  function OneStatusFlag(s: EdgeState, cfg: EdgeConfig, m: StatusMessage, newSession: bool, now: Time, id: TaskId): seq<EdgeRecord> {
    var flag := if id in s.tasks then StatusFlag(s.tasks[id], cfg, m, newSession, now) else None;
    if flag.Some? then [TaskReconciliationFlagged(id, flag.value)] else []
  }

  lemma OneStatusFlagDue(s: EdgeState, cfg: EdgeConfig, m: StatusMessage, newSession: bool, now: Time, id: TaskId)
    ensures DueFrom(s, OneStatusFlag(s, cfg, m, newSession, now, id), now) && FlagsOnly(OneStatusFlag(s, cfg, m, newSession, now, id), [id])
  {
    hide ReprobeDue, Window;
  }

  lemma TickFlagsDue(s: EdgeState, now: Time, id: TaskId)
    requires id in s.tasks
    ensures DueFrom(s, FlagRecords(id, TickFlags(s, s.tasks[id], now)), now)
    ensures FlagsOnly(FlagRecords(id, TickFlags(s, s.tasks[id], now)), [id])
  {
    hide ReprobeDue, Window, Reachable;
    var flags := TickFlags(s, s.tasks[id], now);
    assert |flags| <= 1;
    assert forall i :: 0 <= i < |flags| && flags[i] in PROGRESS ==> ReprobeDue(s.tasks[id], flags[i], now, Window(s.tasks[id]));
    hide TickFlags, ProgressOverdue, AcceptanceOverdue;
  }

  lemma {:induction false} TaskTickDue(s: EdgeState, now: Time, ids: seq<TaskId>)
    requires Distinct(ids)
    ensures DueFrom(s, TaskTickRecords(s, now, ids), now) && FlagsOnly(TaskTickRecords(s, now, ids), ids)
    decreases |ids|
  {
    DueNothing(s, ids, now);
    if ids != [] {
      TaskTickDue(s, now, ids[1..]);
      DueNothing(s, [ids[0]], now);
      if ids[0] in s.tasks { TickFlagsDue(s, now, ids[0]); }
      hide DueFrom, TickFlags, FlagRecords;
      DueJoin(s, if ids[0] in s.tasks then FlagRecords(ids[0], TickFlags(s, s.tasks[ids[0]], now)) else [],
              TaskTickRecords(s, now, ids[1..]), ids[0], ids[1..], now);
      assert ids == [ids[0]] + ids[1..];
    }
  }

  predicate DeviceRecords(rs: seq<EdgeRecord>) {
    forall r :: r in rs ==> StatusOrTick(r) && !r.TaskReconciliationFlagged?
  }

  lemma DueAfterDevices(s: EdgeState, a: seq<EdgeRecord>, b: seq<EdgeRecord>, now: Time)
    requires DeviceRecords(a) && DueFrom(s, b, now)
    ensures DueFrom(s, a + b, now)
  {
    forall i | 0 <= i < |a| ensures StatusOrTick(a[i]) && Paced(s, Stamped(a[i], now)) && forall id :: !Probes(a[i], id) {
      assert a[i] in a;
    }
    hide Paced, Probes;
  }

  lemma {:induction false} LivenessDevices(s: EdgeState, cfg: EdgeConfig, now: Time, robots: seq<RobotId>)
    ensures DeviceRecords(LivenessRecords(s, cfg, now, robots))
    decreases |robots|
  {
    if robots != [] {
      LivenessDevices(s, cfg, now, robots[1..]);
      hide LivenessMove;
    }
  }

  lemma TickPaced(cfg: EdgeConfig, s: EdgeState, robots: seq<RobotId>, now: Time)
    requires OrderOk(s)
    ensures PacedBatch(s, DecideTick(s, cfg, robots, now))
  {
    LivenessDevices(s, cfg, now, robots);
    TaskTickDue(s, now, s.order);
    hide LivenessRecords, TaskTickRecords, DueFrom, DeviceRecords;
    DueAfterDevices(s, LivenessRecords(s, cfg, now, robots), TaskTickRecords(s, now, s.order), now);
    DueBatchPaced(s, LivenessRecords(s, cfg, now, robots) + TaskTickRecords(s, now, s.order), now);
  }

  /** Is the session new to the device? */
  function NewSession(s: EdgeState, m: StatusMessage): bool {
    var d := if m.robotId in s.devices then s.devices[m.robotId] else NEW_DEVICE;
    d.boot.None? || m.bootSequence > d.boot.value.sequence
  }

  /** A status batch is device records, followed by the flags of an accepted status. */
  lemma StatusShape(s: EdgeState, cfg: EdgeConfig, delivery: StatusDelivery, now: Time) returns (devices: seq<EdgeRecord>, flags: seq<EdgeRecord>)
    ensures DecideStatusRecords(s, cfg, delivery, now) == devices + flags && DeviceRecords(devices)
    ensures flags != [] ==> delivery.StatusReceived? && flags == StatusFlags(s, cfg, delivery.message, NewSession(s, delivery.message), now, s.order)
  {
    hide StatusRegressed, HalfStale, StatusFlags;
    devices, flags := DecideStatusRecords(s, cfg, delivery, now), [];
    if !StatusRefused(cfg, delivery) {
      var m := delivery.message;
      var d := if m.robotId in s.devices then s.devices[m.robotId] else NEW_DEVICE;
      var receipt := ReceiptRecords(d, cfg, m, NewSession(s, m), now);
      var all := StatusFlags(s, cfg, m, NewSession(s, m), now, s.order);
      if DecideStatusRecords(s, cfg, delivery, now) == receipt + all { devices, flags := receipt, all; }
    }
  }

  lemma StatusPaced(cfg: EdgeConfig, s: EdgeState, delivery: StatusDelivery, now: Time)
    requires OrderOk(s)
    ensures PacedBatch(s, DecideStatus(s, cfg, delivery, now))
  {
    hide DecideStatusRecords, StatusFlags, DueFrom, DeviceRecords, PacedBatch, NewSession;
    var devices, flags := StatusShape(s, cfg, delivery, now);
    DueNothing(s, [], now);
    if flags != [] { StatusFlagsDue(s, cfg, delivery.message, NewSession(s, delivery.message), now, s.order); }
    DueAfterDevices(s, devices, flags, now);
    DueBatchPaced(s, devices + flags, now);
  }

  lemma EventUnprobing(s: EdgeState, cfg: EdgeConfig, delivery: EventDelivery)
    ensures Unprobing(DecideEventRecords(s, cfg, delivery))
  {
    if EventRefusal(s, cfg, delivery).None? && !delivery.event.IsRequestLevelRejection() {
      var e := delivery.event;
      var t := s.tasks[e.taskId];
      var regressed := ExposesRegression(s, e) || (e.robotId in s.devices && s.devices[e.robotId].sessionRegression);
      var c := Classify(t.evidence, e, regressed);
      FlagsClose(t.evidence, e, regressed);
      hide Classify, Received;
    }
  }

  lemma FlagsClose(v: TaskEvidence, e: TaskEvent, regressed: bool)
    ensures var c := Classify(v, e, regressed); c.flag.Some? ==> ClosesGate(c.flag.value)
  {
    hide Differs, KeyLess;
  }

  lemma StepPaced(cfg: EdgeConfig, s: EdgeState, step: EdgeStep)
    requires OrderOk(s)
    ensures PacedBatch(s, StepBatch(cfg, s, step))
  {
    match step
    case StatusArrives(delivery, now) => StatusPaced(cfg, s, delivery, now);
    case Tick(robots, now) => TickPaced(cfg, s, robots, now);
    case EventArrives(delivery, now) =>
      EventUnprobing(s, cfg, delivery);
      hide DecideEventRecords;
      UnprobingPaced(s, DecideEventRecords(s, cfg, delivery), now);
    case Create(facts, request, now) =>
      hide Admissible, GateClosed, HasActiveTask, Apply;
    case _ =>
      hide Candidate, Apply;
  }

  /** Every run keeps the pacing of progress-type flags, and lists each task once. */
  lemma {:induction false} RunPaced(cfg: EdgeConfig, choices: seq<EdgeChoice>)
    ensures PacedBatch(InitialEdge(cfg.robotIds), EdgeRun(cfg, choices)) && OrderOk(ViewOf(cfg, EdgeRun(cfg, choices)))
  {
    var s0 := InitialEdge(cfg.robotIds);
    if choices != [] {
      var front := choices[..|choices| - 1];
      RunPaced(cfg, front);
      var journal := EdgeRun(cfg, front);
      var c := choices[|choices| - 1];
      var s := ViewOf(cfg, journal);
      var batch := StepBatch(cfg, s, c.step);
      hide StepBatch, PacedBatch, ApplyAll, OrderOk, InitialEdge;
      StepPaced(cfg, s, c.step);
      if c.persisted < |batch| { PacedPrefix(s, batch, c.persisted); }
      PacedConcat(s0, journal, Kept(batch, c.persisted));
      ApplyConcat(s0, journal, Kept(batch, c.persisted));
      OrderBatch(s, Kept(batch, c.persisted));
    }
  }

  lemma AtIsApplied(cfg: EdgeConfig, journal: seq<Stamped>, i: nat)
    requires i <= |journal|
    ensures At(cfg, journal, i) == ApplyAll(InitialEdge(cfg.robotIds), journal[..i])
  {
  }

  lemma PacedAt(cfg: EdgeConfig, choices: seq<EdgeChoice>, i: nat)
    requires i < |EdgeRun(cfg, choices)|
    ensures Paced(At(cfg, EdgeRun(cfg, choices), i), EdgeRun(cfg, choices)[i])
  {
    hide *;
    var journal := EdgeRun(cfg, choices);
    var s0 := InitialEdge(cfg.robotIds);
    AtIsApplied(cfg, journal, i);
    RunPaced(cfg, choices);
    PacedPrefix(s0, journal, i + 1);
    assert journal[..i + 1] == journal[..i] + [journal[i]];
    LastPaced(s0, journal[..i], journal[i]);
  }

  // -- at most one probe per window

  /** Trusted progress of a task starts a new probe epoch. */
  predicate NewEpoch(st: Stamped, id: TaskId) {
    st.record.TaskEventReceived? && st.record.event.taskId == id && st.record.disposition.Applied?
  }

  predicate LastProbeSince(s: EdgeState, id: TaskId, request: TaskRequest, from: Time) {
    && id in s.tasks && s.tasks[id].request == request
    && s.tasks[id].clocks.lastProbeAt.Some? && s.tasks[id].clocks.lastProbeAt.value >= from
  }

  lemma ProbeStep(cfg: EdgeConfig, s: EdgeState, st: Stamped, id: TaskId)
    requires Legal(cfg, s, st) && id in s.tasks && !NewEpoch(st, id)
    ensures id in Apply(s, st).tasks && Apply(s, st).tasks[id].request == s.tasks[id].request
    ensures Apply(s, st).tasks[id].clocks.lastProbeAt == if Probes(st.record, id) then Some(st.at) else s.tasks[id].clocks.lastProbeAt
  {
    hide DevicesAfter, EvidenceStep, ReasonsStep, Classify, Received;
  }

  lemma DueGap(s: EdgeState, st: Stamped, id: TaskId, request: TaskRequest, from: Time)
    requires Paced(s, st) && Probes(st.record, id) && LastProbeSince(s, id, request, from)
    ensures st.at - from >= request.progressWindow * SECOND
  {
  }

  lemma MemoryStep(cfg: EdgeConfig, s: EdgeState, st: Stamped, id: TaskId, request: TaskRequest, from: Time)
    requires Legal(cfg, s, st) && Paced(s, st) && !NewEpoch(st, id) && request.progressWindow >= 0
    requires LastProbeSince(s, id, request, from)
          || (id in s.tasks && s.tasks[id].request == request && Probes(st.record, id) && st.at == from)
    ensures LastProbeSince(Apply(s, st), id, request, from)
  {
    ProbeStep(cfg, s, st, id);
    if Probes(st.record, id) && LastProbeSince(s, id, request, from) { DueGap(s, st, id, request, from); }
    hide Legal, Apply, Paced;
  }

  lemma {:induction false} ProbeRemembered(cfg: EdgeConfig, choices: seq<EdgeChoice>, i: nat, n: nat, id: TaskId, request: TaskRequest)
    requires i < n <= |EdgeRun(cfg, choices)| && Probes(EdgeRun(cfg, choices)[i].record, id)
    requires forall k :: i < k < n ==> !NewEpoch(EdgeRun(cfg, choices)[k], id)
    requires id in At(cfg, EdgeRun(cfg, choices), i).tasks && At(cfg, EdgeRun(cfg, choices), i).tasks[id].request == request
    requires request.progressWindow >= 0
    ensures LastProbeSince(At(cfg, EdgeRun(cfg, choices), n), id, request, EdgeRun(cfg, choices)[i].at)
    decreases n
  {
    var journal := EdgeRun(cfg, choices);
    hide *;
    RunLegal(cfg, choices);
    StepAt(cfg, journal, n - 1);
    PacedAt(cfg, choices, n - 1);
    if i < n - 1 {
      ProbeRemembered(cfg, choices, i, n - 1, id, request);
    } else {
      ProbeIsNoEpoch(journal[i], id);
    }
    MemoryStep(cfg, At(cfg, journal, n - 1), journal[n - 1], id, request, journal[i].at);
  }

  lemma ProbeIsNoEpoch(st: Stamped, id: TaskId)
    requires Probes(st.record, id)
    ensures !NewEpoch(st, id)
  {
  }

  /** Within one progress epoch any two progress-type flags of a task are at least one window apart. */
  lemma ProbesSpaced(cfg: EdgeConfig, choices: seq<EdgeChoice>, i: nat, j: nat, id: TaskId)
    requires i < j < |EdgeRun(cfg, choices)|
    requires Probes(EdgeRun(cfg, choices)[i].record, id) && Probes(EdgeRun(cfg, choices)[j].record, id)
    requires forall k :: i < k < j ==> !NewEpoch(EdgeRun(cfg, choices)[k], id)
    requires id in At(cfg, EdgeRun(cfg, choices), i).tasks && At(cfg, EdgeRun(cfg, choices), i).tasks[id].request.progressWindow >= 0
    ensures EdgeRun(cfg, choices)[j].at - EdgeRun(cfg, choices)[i].at
         >= At(cfg, EdgeRun(cfg, choices), i).tasks[id].request.progressWindow * SECOND
  {
    var journal := EdgeRun(cfg, choices);
    var request := At(cfg, journal, i).tasks[id].request;
    hide *;
    ProbeRemembered(cfg, choices, i, j, id, request);
    PacedAt(cfg, choices, j);
    DueGap(At(cfg, journal, j), journal[j], id, request, journal[i].at);
  }
}
