/** The clock misses nothing: a tick flags exactly the robots that fell silent and the tasks that are overdue. */
module EdgeAlerts {
  import opened Common
  import opened TaskContracts
  import opened EdgeViews
  import opened EdgeDecisions
  import opened EdgeRuns

  /** How long a robot may stay silent before its connectivity drops, and to what. */
  ghost predicate Silent(d: DeviceView, cfg: EdgeConfig, now: Time, to: Connectivity) {
    || (to.Stale? && d.connectivity.Online? && d.lastReceivedAt.Some? && now - d.lastReceivedAt.value >= cfg.staleAfter)
    || (to.Offline? && d.connectivity.Stale? && d.lastReceivedAt.Some? && now - d.lastReceivedAt.value >= cfg.offlineAfter)
    || (to.Offline? && d.connectivity.ConnUnknown? && d.since.Some? && now - d.since.value >= cfg.restartGrace)
  }

  lemma {:induction false} MovesExactly(s: EdgeState, cfg: EdgeConfig, now: Time, robots: seq<RobotId>, robot: RobotId, to: Connectivity)
    ensures DeviceLivenessChanged(robot, to, None) in LivenessRecords(s, cfg, now, robots)
       <==> robot in robots && robot in s.devices && Silent(s.devices[robot], cfg, now, to)
    decreases |robots|
  {
    if robots != [] {
      MovesExactly(s, cfg, now, robots[1..], robot, to);
      assert forall x :: x in robots <==> x == robots[0] || x in robots[1..];
    }
  }

  /** The robot was heard lately enough not to count as offline. */
  predicate InReach(s: EdgeState, robot: RobotId) { robot in s.devices && s.devices[robot].connectivity in {Online, Stale} }

  /** The task's progress window has passed since then. */
  predicate WindowPassed(t: TaskView, since: Time, now: Time) { now >= since + t.request.progressWindow * 1_000_000 }

  /** The reason may be raised: no probe of the task within a window, and if this one was raised since the last progress, then it was
      answered, a window ago. */
  predicate MayRaise(t: TaskView, reason: FlagReason, now: Time) {
    var c := t.clocks;
    && (c.lastProbeAt.None? || WindowPassed(t, c.lastProbeAt.value, now))
    && (reason !in c.flaggedSinceProgress
        || (&& (reason !in c.flagRecord || c.flagRecord[reason] <= c.lastEventRecord)
            && reason in c.answeredAt && WindowPassed(t, c.answeredAt[reason], now)))
  }

  /** What makes a tick flag a task. */
  predicate Overdue(s: EdgeState, t: TaskView, now: Time, reason: FlagReason) {
    match reason
    case ExpiredUnconfirmed => t.evidence.state == Created && t.request.expiresAt <= now && !t.expiredUnconfirmed
    case ProgressWindowElapsed =>
      && t.evidence.state in {AcceptedState, Running} && InReach(s, t.request.targetRobot) && MayRaise(t, reason, now)
      && WindowPassed(t, if t.clocks.lastProgressAt.Some? then t.clocks.lastProgressAt.value else t.createdAt, now)
    case AcceptanceWindowElapsed =>
      && t.evidence.state == Created && t.publishing.confirmations > 0 && now < t.request.expiresAt
      && InReach(s, t.request.targetRobot) && MayRaise(t, reason, now)
      && t.publishing.lastConfirmedAt.Some? && WindowPassed(t, t.publishing.lastConfirmedAt.value, now)
    case _ => false
  }

  lemma TickFlagsExactly(s: EdgeState, t: TaskView, now: Time, reason: FlagReason)
    ensures reason in TickFlags(s, t, now) <==> Overdue(s, t, now, reason)
  {
  }

  lemma FlagsOf(s: EdgeState, id: TaskId, t: TaskView, now: Time, other: TaskId, reason: FlagReason)
    ensures TaskReconciliationFlagged(other, reason) in FlagRecords(id, TickFlags(s, t, now)) <==> other == id && Overdue(s, t, now, reason)
  {
    TickFlagsExactly(s, t, now, reason);
    hide TickFlags, Overdue;
    var reasons := TickFlags(s, t, now);
    if other == id && reason in reasons {
      var i :| 0 <= i < |reasons| && reasons[i] == reason;
      assert FlagRecords(id, reasons)[i] == TaskReconciliationFlagged(other, reason);
    }
  }

  lemma {:induction false} FlagsExactly(s: EdgeState, now: Time, ids: seq<TaskId>, id: TaskId, reason: FlagReason)
    ensures TaskReconciliationFlagged(id, reason) in TaskTickRecords(s, now, ids)
       <==> id in ids && id in s.tasks && Overdue(s, s.tasks[id], now, reason)
    decreases |ids|
  {
    hide Overdue, TickFlags;
    if ids != [] {
      FlagsExactly(s, now, ids[1..], id, reason);
      if ids[0] in s.tasks { FlagsOf(s, ids[0], s.tasks[ids[0]], now, id, reason); }
      assert forall x :: x in ids <==> x == ids[0] || x in ids[1..];
    }
  }

  /** A tick drops exactly the robots that have been silent for the configured time. */
  lemma {:induction false} SilentRobotsAreFlagged(s: EdgeState, cfg: EdgeConfig, robots: seq<RobotId>, now: Time, robot: RobotId, to: Connectivity)
    ensures Stamped(DeviceLivenessChanged(robot, to, None), now) in DecideTick(s, cfg, robots, now)
       <==> robot in robots && robot in s.devices && Silent(s.devices[robot], cfg, now, to)
  {
    var rs := LivenessRecords(s, cfg, now, robots) + TaskTickRecords(s, now, s.order);
    InStamp(rs, DeviceLivenessChanged(robot, to, None), now);
    OnlyFlags(s, now, s.order);
    MovesExactly(s, cfg, now, robots, robot, to);
    hide LivenessRecords, TaskTickRecords, Silent;
  }

  /** A tick flags exactly the open tasks whose expiry, progress or acceptance is overdue, each with its reason. */
  lemma {:induction false} OverdueTasksAreFlagged(s: EdgeState, cfg: EdgeConfig, robots: seq<RobotId>, now: Time, id: TaskId, reason: FlagReason)
    ensures Stamped(TaskReconciliationFlagged(id, reason), now) in DecideTick(s, cfg, robots, now)
       <==> id in s.order && id in s.tasks && Overdue(s, s.tasks[id], now, reason)
  {
    var rs := LivenessRecords(s, cfg, now, robots) + TaskTickRecords(s, now, s.order);
    InStamp(rs, TaskReconciliationFlagged(id, reason), now);
    OnlyMoves(s, cfg, now, robots);
    FlagsExactly(s, now, s.order, id, reason);
    hide LivenessRecords, TaskTickRecords, Overdue;
  }

  lemma InStamp(rs: seq<EdgeRecord>, r: EdgeRecord, now: Time)
    ensures Stamped(r, now) in Stamp(rs, now) <==> r in rs
  {
    if r in rs {
      var i :| 0 <= i < |rs| && rs[i] == r;
      assert Stamp(rs, now)[i] == Stamped(r, now);
    }
  }

  lemma {:induction false} OnlyFlags(s: EdgeState, now: Time, ids: seq<TaskId>)
    ensures forall r :: r in TaskTickRecords(s, now, ids) ==> r.TaskReconciliationFlagged?
    decreases |ids|
  {
    hide TickFlags;
    if ids != [] { OnlyFlags(s, now, ids[1..]); }
  }

  lemma {:induction false} OnlyMoves(s: EdgeState, cfg: EdgeConfig, now: Time, robots: seq<RobotId>)
    ensures forall r :: r in LivenessRecords(s, cfg, now, robots) ==> r.DeviceLivenessChanged?
    decreases |robots|
  {
    hide LivenessMove;
    if robots != [] { OnlyMoves(s, cfg, now, robots[1..]); }
  }

  // -- over whole runs: silence and expiry are reported by the next tick, and stay reported

  /** A status was accepted and its receipt journaled. */
  predicate IsReceipt(r: EdgeRecord, robot: RobotId) {
    || (r.DeviceStatusChanged? && r.statusRobot == robot)
    || (r.DeviceHeartbeat? && r.heartbeatRobot == robot)
    || (r.DeviceLivenessChanged? && r.livenessRobot == robot && r.to.Online? && r.livenessStatus.Some?)
  }

  /** When the journal last recorded a receipt from the robot. */
  function LastReceipt(journal: seq<Stamped>, robot: RobotId): Option<Time> {
    if journal == [] then None
    else if IsReceipt(journal[|journal| - 1].record, robot) then Some(journal[|journal| - 1].at)
    else LastReceipt(journal[..|journal| - 1], robot)
  }

  function HeardAt(s: EdgeState, robot: RobotId): Option<Time> { if robot in s.devices then s.devices[robot].lastReceivedAt else None }

  lemma HeardStep(s: EdgeState, st: Stamped, robot: RobotId)
    ensures HeardAt(Apply(s, st), robot) == if IsReceipt(st.record, robot) then Some(st.at) else HeardAt(s, robot)
  {
    hide TasksAfter;
  }

  /** The view's receipt clock is the journal's last receipt. */
  lemma {:induction false} LastReceiptIsHeld(cfg: EdgeConfig, journal: seq<Stamped>, robot: RobotId)
    ensures HeardAt(ViewOf(cfg, journal), robot) == LastReceipt(journal, robot)
    decreases |journal|
  {
    if journal != [] {
      var front, last := journal[..|journal| - 1], journal[|journal| - 1];
      LastReceiptIsHeld(cfg, front, robot);
      assert journal == front + [last];
      hide ApplyAll, Apply, InitialEdge, IsReceipt;
      ApplyConcat(InitialEdge(cfg.robotIds), front, [last]);
      ApplyOne(ViewOf(cfg, front), last);
      HeardStep(ViewOf(cfg, front), last, robot);
    }
  }

  predicate IsOnline(s: EdgeState, robot: RobotId) { robot in s.devices && s.devices[robot].connectivity.Online? }

  predicate BringsOnline(r: EdgeRecord, robot: RobotId) {
    (r.DeviceStatusChanged? && r.statusRobot == robot) || (r.DeviceLivenessChanged? && r.livenessRobot == robot && r.to.Online?)
  }

  ghost predicate BringsNoneOnline(sts: seq<Stamped>, robot: RobotId) { forall i :: 0 <= i < |sts| ==> !BringsOnline(sts[i].record, robot) }

  lemma OfflineStep(s: EdgeState, st: Stamped, robot: RobotId)
    requires !BringsOnline(st.record, robot)
    requires !IsOnline(s, robot) || (st.record.DeviceLivenessChanged? && st.record.livenessRobot == robot)
    ensures !IsOnline(Apply(s, st), robot)
  {
    hide TasksAfter;
  }

  /** A robot that is, or falls, out of ONLINE stays out of it until a status brings it back. */
  lemma {:induction false} StaysOffline(s: EdgeState, sts: seq<Stamped>, robot: RobotId)
    requires BringsNoneOnline(sts, robot)
    requires !IsOnline(s, robot) || exists i :: 0 <= i < |sts| && sts[i].record.DeviceLivenessChanged? && sts[i].record.livenessRobot == robot
    ensures !IsOnline(ApplyAll(s, sts), robot)
    decreases |sts|
  {
    hide Apply, IsOnline, BringsOnline;
    if sts != [] {
      if !IsOnline(s, robot) || (sts[0].record.DeviceLivenessChanged? && sts[0].record.livenessRobot == robot) {
        OfflineStep(s, sts[0], robot);
      } else {
        var i :| 0 <= i < |sts| && sts[i].record.DeviceLivenessChanged? && sts[i].record.livenessRobot == robot;
        assert sts[1..][i - 1] == sts[i];
      }
      StaysOffline(Apply(s, sts[0]), sts[1..], robot);
    }
  }

  lemma {:induction false} MovesNeverUp(s: EdgeState, cfg: EdgeConfig, now: Time, robots: seq<RobotId>, robot: RobotId)
    ensures forall r :: r in LivenessRecords(s, cfg, now, robots) ==> !BringsOnline(r, robot)
    decreases |robots|
  {
    if robots != [] { MovesNeverUp(s, cfg, now, robots[1..], robot); }
  }

  lemma TickBringsNoneOnline(s: EdgeState, cfg: EdgeConfig, robots: seq<RobotId>, now: Time, robot: RobotId)
    ensures BringsNoneOnline(DecideTick(s, cfg, robots, now), robot)
  {
    var rs := LivenessRecords(s, cfg, now, robots) + TaskTickRecords(s, now, s.order);
    MovesNeverUp(s, cfg, now, robots, robot);
    OnlyFlags(s, now, s.order);
    hide LivenessRecords, TaskTickRecords;
    forall i | 0 <= i < |rs| ensures !BringsOnline(rs[i], robot) { assert rs[i] in rs; }
  }

  /** A tick at which a robot was last heard a stale window ago leaves it out of ONLINE. */
  lemma TickDropsSilent(s: EdgeState, cfg: EdgeConfig, robots: seq<RobotId>, now: Time, robot: RobotId)
    requires robot in robots && HeardAt(s, robot).Some? && now - HeardAt(s, robot).value >= cfg.staleAfter
    ensures !IsOnline(ApplyAll(s, DecideTick(s, cfg, robots, now)), robot)
  {
    var batch := DecideTick(s, cfg, robots, now);
    TickBringsNoneOnline(s, cfg, robots, now, robot);
    SilentRobotsAreFlagged(s, cfg, robots, now, robot, Stale);
    hide DecideTick, ApplyAll, BringsNoneOnline;
    if IsOnline(s, robot) {
      var i :| 0 <= i < |batch| && batch[i] == Stamped(DeviceLivenessChanged(robot, Stale, None), now);
      assert batch[i].record.livenessRobot == robot;
    }
    StaysOffline(s, batch, robot);
  }

  /** A whole tick, and then any further journal lines. */
  lemma TickThen(cfg: EdgeConfig, choices: seq<EdgeChoice>, tick: EdgeChoice, later: seq<Stamped>)
    requires tick.persisted >= |StepBatch(cfg, ViewOf(cfg, EdgeRun(cfg, choices)), tick.step)|
    ensures var s := ViewOf(cfg, EdgeRun(cfg, choices));
            ViewOf(cfg, EdgeRun(cfg, choices + [tick]) + later) == ApplyAll(ApplyAll(s, StepBatch(cfg, s, tick.step)), later)
  {
    assert (choices + [tick])[..|choices|] == choices;
    hide StepBatch, InitialEdge, ApplyAll;
    var s0, journal := InitialEdge(cfg.robotIds), EdgeRun(cfg, choices);
    ApplyConcat(s0, EdgeRun(cfg, choices + [tick]), later);
    ApplyConcat(s0, journal, StepBatch(cfg, ViewOf(cfg, journal), tick.step));
  }

  /** In every run: a robot whose last journaled receipt is a stale window old is out of ONLINE from the next whole tick
      until the journal records that a status brought it back. */
  lemma SilenceIsReported(cfg: EdgeConfig, choices: seq<EdgeChoice>, robots: seq<RobotId>, now: Time, persisted: nat,
                          later: seq<Stamped>, robot: RobotId)
    requires robot in robots && persisted >= |DecideTick(ViewOf(cfg, EdgeRun(cfg, choices)), cfg, robots, now)|
    requires var last := LastReceipt(EdgeRun(cfg, choices), robot); last.Some? && now - last.value >= cfg.staleAfter
    requires BringsNoneOnline(later, robot)
    ensures !IsOnline(ViewOf(cfg, EdgeRun(cfg, choices + [EdgeChoice(Tick(robots, now), persisted)]) + later), robot)
  {
    var s := ViewOf(cfg, EdgeRun(cfg, choices));
    hide DecideTick, ApplyAll, BringsNoneOnline, ViewOf, EdgeRun, LastReceipt, HeardAt, IsOnline;
    LastReceiptIsHeld(cfg, EdgeRun(cfg, choices), robot);
    TickDropsSilent(s, cfg, robots, now, robot);
    TickThen(cfg, choices, EdgeChoice(Tick(robots, now), persisted), later);
    StaysOffline(ApplyAll(s, DecideTick(s, cfg, robots, now)), later, robot);
  }

  // -- expiry

  /** Every task of the view is listed for the tick. */
  ghost predicate AllListed(s: EdgeState) { forall id :: id in s.tasks ==> id in s.order }

  lemma ListedStep(s: EdgeState, st: Stamped)
    requires AllListed(s)
    ensures AllListed(Apply(s, st))
  {
    hide TaskStep, DevicesAfter;
  }

  lemma {:induction false} ListedBatch(s: EdgeState, sts: seq<Stamped>)
    requires AllListed(s)
    ensures AllListed(ApplyAll(s, sts))
    decreases |sts|
  {
    hide AllListed, Apply;
    if sts != [] {
      ListedStep(s, sts[0]);
      ListedBatch(Apply(s, sts[0]), sts[1..]);
    }
  }

  predicate ExpiryReported(s: EdgeState, id: TaskId) { id in s.tasks && s.tasks[id].expiredUnconfirmed }

  predicate ReportsExpiry(r: EdgeRecord, id: TaskId) { r == TaskReconciliationFlagged(id, ExpiredUnconfirmed) }

  /** No record of the list creates this task again. */
  ghost predicate CreatesNot(sts: seq<Stamped>, id: TaskId) {
    forall i :: 0 <= i < |sts| ==> !(sts[i].record.TaskCreated? && sts[i].record.request.taskId == id)
  }

  lemma ReportStep(s: EdgeState, st: Stamped, id: TaskId)
    requires id in s.tasks && !(st.record.TaskCreated? && st.record.request.taskId == id)
    ensures id in Apply(s, st).tasks
    ensures ExpiryReported(s, id) || ReportsExpiry(st.record, id) ==> ExpiryReported(Apply(s, st), id)
  {
    hide DevicesAfter, EvidenceStep, ReasonsStep, ClocksStep, NoteEvidence;
  }

  lemma {:induction false} StaysReported(s: EdgeState, sts: seq<Stamped>, id: TaskId)
    requires id in s.tasks && CreatesNot(sts, id)
    requires ExpiryReported(s, id) || exists i :: 0 <= i < |sts| && ReportsExpiry(sts[i].record, id)
    ensures ExpiryReported(ApplyAll(s, sts), id)
    decreases |sts|
  {
    hide Apply, ExpiryReported, ReportsExpiry;
    if sts != [] {
      ReportStep(s, sts[0], id);
      if !ExpiryReported(s, id) && !ReportsExpiry(sts[0].record, id) {
        var i :| 0 <= i < |sts| && ReportsExpiry(sts[i].record, id);
        assert sts[1..][i - 1] == sts[i];
      }
      StaysReported(Apply(s, sts[0]), sts[1..], id);
    }
  }

  lemma TickCreatesNothing(s: EdgeState, cfg: EdgeConfig, robots: seq<RobotId>, now: Time, id: TaskId)
    ensures CreatesNot(DecideTick(s, cfg, robots, now), id)
  {
    var rs := LivenessRecords(s, cfg, now, robots) + TaskTickRecords(s, now, s.order);
    OnlyMoves(s, cfg, now, robots);
    OnlyFlags(s, now, s.order);
    hide LivenessRecords, TaskTickRecords;
    forall i | 0 <= i < |rs| ensures !rs[i].TaskCreated? { assert rs[i] in rs; }
  }

  lemma TickReportsExpiry(s: EdgeState, cfg: EdgeConfig, robots: seq<RobotId>, now: Time, id: TaskId)
    requires AllListed(s) && id in s.tasks && s.tasks[id].evidence.state.Created? && now >= s.tasks[id].request.expiresAt
    ensures ExpiryReported(ApplyAll(s, DecideTick(s, cfg, robots, now)), id)
  {
    var batch := DecideTick(s, cfg, robots, now);
    TickCreatesNothing(s, cfg, robots, now, id);
    OverdueTasksAreFlagged(s, cfg, robots, now, id, ExpiredUnconfirmed);
    hide DecideTick, ApplyAll, CreatesNot, ProgressOverdue, AcceptanceOverdue;
    if !s.tasks[id].expiredUnconfirmed {
      var i :| 0 <= i < |batch| && batch[i] == Stamped(TaskReconciliationFlagged(id, ExpiredUnconfirmed), now);
      assert ReportsExpiry(batch[i].record, id);
    }
    StaysReported(s, batch, id);
  }

  lemma RunListed(cfg: EdgeConfig, journal: seq<Stamped>)
    ensures AllListed(ViewOf(cfg, journal))
  {
    ListedBatch(InitialEdge(cfg.robotIds), journal);
    hide ApplyAll;
  }

  /** In every run: a task unanswered at its expiry is reported as such by the next whole tick, for good. */
  lemma ExpiryIsReported(cfg: EdgeConfig, choices: seq<EdgeChoice>, robots: seq<RobotId>, now: Time, persisted: nat,
                         later: seq<Stamped>, id: TaskId)
    requires var s := ViewOf(cfg, EdgeRun(cfg, choices));
             && persisted >= |DecideTick(s, cfg, robots, now)|
             && id in s.tasks && s.tasks[id].evidence.state.Created? && now >= s.tasks[id].request.expiresAt
    requires CreatesNot(later, id)
    ensures ExpiryReported(ViewOf(cfg, EdgeRun(cfg, choices + [EdgeChoice(Tick(robots, now), persisted)]) + later), id)
  {
    var s := ViewOf(cfg, EdgeRun(cfg, choices));
    hide DecideTick, ApplyAll, CreatesNot, ViewOf, EdgeRun, AllListed;
    RunListed(cfg, EdgeRun(cfg, choices));
    TickReportsExpiry(s, cfg, robots, now, id);
    TickThen(cfg, choices, EdgeChoice(Tick(robots, now), persisted), later);
    StaysReported(ApplyAll(s, DecideTick(s, cfg, robots, now)), later, id);
  }
}
