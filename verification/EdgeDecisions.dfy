/** What the Edge journals for a received event or status, a tick, a creation request and a publication. */
module EdgeDecisions {
  import opened Common
  import opened TaskContracts
  import opened EdgeViews

  datatype EdgeConfig = EdgeConfig(
    scope: Scope, robotIds: set<RobotId>,
    staleAfter: Time, offlineAfter: Time, restartGrace: Time,
    minRepublishInterval: Time, maxRepublishAttempts: nat)

  datatype EventDelivery =
    | UndecodableEvent
    | EventMessage(topicSite: string, topicRobot: RobotId, event: TaskEvent)

  datatype StatusDelivery =
    | UndecodableStatus
    | StatusReceived(topicSite: string, topicRobot: RobotId, message: StatusMessage)

  // -- classifying one event against the evidence held so far

  /** Disposition, state after, terminal conflict, the reason carried by the record and the flag beside it. */
  datatype Verdict = Verdict(
    disposition: Disposition, stateAfter: TaskState, conflict: bool,
    flagReason: Option<FlagReason>, flag: Option<FlagReason>)

  predicate Differs(v: TaskEvidence, e: TaskEvent) {
    exists i :: 0 <= i < |v.terminals| && v.terminals[i].kind != e.kind
  }

  predicate Above(v: TaskEvidence, e: TaskEvent) {
    v.appliedMax.None? || KeyLess(v.appliedMax.value, e.OrderKey())
  }

  function StateOf(k: EventKind): TaskState {
    match k
    case Accepted => AcceptedState
    case Rejected => RejectedState
    case Progress => Running
    case AssistanceRequired => BlockedAwaitingHuman
    case Succeeded => SucceededState
    case Failed => FailedState
    case Inconclusive => InconclusiveState
  }

  function ReplayVerdict(v: TaskEvidence, e: TaskEvent): Verdict
    requires e.OrderKey() in v.seen
  {
    if v.seen[e.OrderKey()] == e || e in v.conflicting then Verdict(Duplicate, v.state, false, None, None)
    else Verdict(ConflictingReplay, v.state, e.IsTerminal() && Differs(v, e), None, Some(ConflictingReplayReason))
  }

  function FinishedVerdict(v: TaskEvidence, e: TaskEvent): Verdict {
    var late := if Above(v, e) then Evidence else LateEvidence;
    if e.IsTerminal() then
      Verdict(late, v.state, v.first.Some? && e.kind != v.first.value.kind, None, None)
    else if !Above(v, e) then Verdict(LateEvidence, v.state, false, None, None)
    else Verdict(Evidence, v.state, false, Some(PostTerminalActivity), Some(PostTerminalActivity))
  }

  function AppliedVerdict(v: TaskEvidence, e: TaskEvent): Verdict {
    match e.kind
    case Accepted =>
      if v.state.Created? then Verdict(Applied, AcceptedState, false, None, None)
      else Verdict(UnexpectedAcceptance, v.state, false, Some(UnexpectedAcceptanceReason), Some(UnexpectedAcceptanceReason))
    case Progress => Verdict(Applied, Running, false, None, None)
    case AssistanceRequired => Verdict(Applied, BlockedAwaitingHuman, false, None, None)
    case Rejected =>
      if v.state.Created? then Verdict(Applied, RejectedState, Differs(v, e), None, None)
      else Verdict(UnexpectedRejection, v.state, false, Some(UnexpectedRejectionReason), Some(UnexpectedRejectionReason))
    case _ => Verdict(Applied, StateOf(e.kind), Differs(v, e), None, None)
  }

  /** How one received event of a known task is classified; `regressed` says its robot lost continuity. */
  function Classify(v: TaskEvidence, e: TaskEvent, regressed: bool): Verdict {
    if e.OrderKey() in v.seen then ReplayVerdict(v, e)
    else if regressed then Verdict(Evidence, v.state, e.IsTerminal() && Differs(v, e), Some(SessionRegressionReason), None)
    else if IsTerminalState(v.state) then FinishedVerdict(v, e)
    else if !Above(v, e) then Verdict(LateEvidence, v.state, e.IsTerminal() && Differs(v, e), None, None)
    else AppliedVerdict(v, e)
  }

  // -- what the record announces about gaps, computed before it applies

  function ProspectiveGap(v: TaskEvidence, e: TaskEvent, d: Disposition): (seq<nat>, bool) {
    if d.Duplicate? || d.ConflictingReplay? then (Missing(v), v.acceptanceObserved)
    else
      var seen := v.seen.Keys + {e.OrderKey()};
      var max := if d.Applied? then Some(e.OrderKey()) else v.appliedMax;
      (if max.None? then [] else MissingFrom(seen, max.value.boot, 1, max.value.sequence),
       v.acceptanceObserved || (e.kind.Accepted? && (d.Applied? || d.LateEvidence?)))
  }

  function Received(v: TaskEvidence, e: TaskEvent, verdict: Verdict): EdgeRecord {
    var gap := ProspectiveGap(v, e, verdict.disposition);
    TaskEventReceived(e, verdict.disposition, verdict.stateAfter, verdict.conflict, verdict.flagReason, gap.0, gap.1)
  }

  // -- events

  function Stamp(rs: seq<EdgeRecord>, now: Time): seq<Stamped> {
    seq(|rs|, i requires 0 <= i < |rs| => Stamped(rs[i], now))
  }

  /** An event from another incarnation than the one the device was last seen with. */
  predicate ExposesRegression(s: EdgeState, e: TaskEvent) {
    e.robotId in s.devices &&
    var d := s.devices[e.robotId];
    !d.sessionRegression && d.boot.Some? && e.incarnation != d.boot.value.incarnation
  }

  /** The event is refused before any task is looked at; the task it names, if it was decoded. */
  function EventRefusal(s: EdgeState, cfg: EdgeConfig, delivery: EventDelivery): Option<Option<TaskId>> {
    match delivery
    case UndecodableEvent => Some(None)
    case EventMessage(site, robot, e) =>
      if site != cfg.scope.site || e.scope != cfg.scope || robot != e.robotId || e.robotId !in cfg.robotIds
         || e.taskId !in s.tasks || e.robotId != s.tasks[e.taskId].request.targetRobot
      then Some(Some(e.taskId))
      else None
  }

  /** The records for one classified event, the evidence record first. */
  function EventRecords(t: TaskView, e: TaskEvent, verdict: Verdict): seq<EdgeRecord> {
    [Received(t.evidence, e, verdict)]
    + (if verdict.conflict then
         (if t.AuthorizationConflict() then [] else [ConflictingTerminal(e.taskId)])
         + [TaskReconciliationFlagged(e.taskId, ConflictingTerminalReason)]
       else [])
    + (if verdict.flag.Some? then [TaskReconciliationFlagged(e.taskId, verdict.flag.value)] else [])
  }

  function DecideEventRecords(s: EdgeState, cfg: EdgeConfig, delivery: EventDelivery): seq<EdgeRecord> {
    var refusal := EventRefusal(s, cfg, delivery);
    if refusal.Some? then [TaskEventRejected(refusal.value)]
    else
      var e := delivery.event;
      var exposes := ExposesRegression(s, e);
      var regression := if exposes then [SessionRegression(e.robotId)] else [];
      if e.IsRequestLevelRejection() then regression + [RobotRequestRejected(e.taskId)]
      else
        var t := s.tasks[e.taskId];
        var regressed := exposes || (e.robotId in s.devices && s.devices[e.robotId].sessionRegression);
        // a key already held is judged as a replay, before any regression is recorded
        (if e.OrderKey() in t.evidence.seen then [] else regression)
        + EventRecords(t, e, Classify(t.evidence, e, regressed))
  }

  function DecideEvent(s: EdgeState, cfg: EdgeConfig, delivery: EventDelivery, now: Time): seq<Stamped> {
    Stamp(DecideEventRecords(s, cfg, delivery), now)
  }

  // -- probes

  /** May a progress-type reason be flagged (again) now? */
  predicate ReprobeDue(t: TaskView, reason: FlagReason, now: Time, window: Time) {
    var c := t.clocks;
    && (c.lastProbeAt.Some? ==> now - c.lastProbeAt.value >= window)
    && (reason in c.flaggedSinceProgress ==>
          !t.Unanswered(reason) && reason in c.answeredAt && now - c.answeredAt[reason] >= window)
  }

  const SECOND := 1_000_000

  function Window(t: TaskView): Time { t.request.progressWindow * SECOND }

  // -- status

  predicate StatusRegressed(d: DeviceView, m: StatusMessage) {
    d.boot.Some? && (m.bootSequence < d.boot.value.sequence || m.incarnation != d.boot.value.incarnation)
  }

  predicate StatusRefused(cfg: EdgeConfig, delivery: StatusDelivery) {
    match delivery
    case UndecodableStatus => true
    case StatusReceived(site, robot, m) =>
      site != cfg.scope.site || m.scope != cfg.scope || robot != m.robotId || m.robotId !in cfg.robotIds
  }

  /** Half a stale window has passed since the last journaled receipt. */
  predicate HalfStale(cfg: EdgeConfig, last: Option<Time>, now: Time) {
    last.None? || 2 * (now - last.value) >= cfg.staleAfter
  }

  function StatusFlag(t: TaskView, cfg: EdgeConfig, m: StatusMessage, newSession: bool, now: Time): Option<FlagReason> {
    if t.request.targetRobot != m.robotId || t.IsTerminal() then None
    else if newSession && NewBootSession !in t.clocks.flaggedSinceEvent then Some(NewBootSession)
    else if (t.evidence.state.AcceptedState? || t.evidence.state.Running?) && m.currentTask.None? && m.available
         && ReprobeDue(t, HeartbeatMismatch, now, Window(t))
         && t.clocks.lastProgressAt.Some? && now - t.clocks.lastProgressAt.value >= cfg.staleAfter
    then Some(HeartbeatMismatch)
    else None
  }

  function StatusFlags(s: EdgeState, cfg: EdgeConfig, m: StatusMessage, newSession: bool, now: Time, ids: seq<TaskId>): seq<EdgeRecord> {
    if ids == [] then []
    else
      var flag := if ids[0] in s.tasks then StatusFlag(s.tasks[ids[0]], cfg, m, newSession, now) else None;
      (if flag.Some? then [TaskReconciliationFlagged(ids[0], flag.value)] else [])
      + StatusFlags(s, cfg, m, newSession, now, ids[1..])
  }

  /** The device record an accepted status leaves; an unchanged heartbeat only once per half stale window. */
  function ReceiptRecords(d: DeviceView, cfg: EdgeConfig, m: StatusMessage, newSession: bool, now: Time): seq<EdgeRecord> {
    if !d.connectivity.Online? then [DeviceLivenessChanged(m.robotId, Online, Some(m))]
    else if d.lastStatus.None? || ContentKey(d.lastStatus.value) != ContentKey(m) || newSession then [DeviceStatusChanged(m.robotId, m)]
    else if HalfStale(cfg, d.lastReceivedAt, now) then [DeviceHeartbeat(m.robotId, m.statusSequence)]
    else []
  }

  function DecideStatusRecords(s: EdgeState, cfg: EdgeConfig, delivery: StatusDelivery, now: Time): seq<EdgeRecord> {
    if StatusRefused(cfg, delivery) then
      [DeviceStatusRejected(if delivery.StatusReceived? then Some(delivery.message.robotId) else None, false)]
    else
      var m := delivery.message;
      var d := if m.robotId in s.devices then s.devices[m.robotId] else NEW_DEVICE;
      if StatusRegressed(d, m) then
        (if d.sessionRegression then [] else [SessionRegression(m.robotId)])
        + (if HalfStale(cfg, d.lastRegressionRejectionAt, now) then [DeviceStatusRejected(Some(m.robotId), true)] else [])
      else if d.boot.Some? && d.boot.value.sequence == m.bootSequence && d.lastStatusSequence.Some?
              && m.statusSequence <= d.lastStatusSequence.value then
        [DeviceStatusRejected(Some(m.robotId), false)]
      else
        var newSession := d.boot.None? || m.bootSequence > d.boot.value.sequence;
        ReceiptRecords(d, cfg, m, newSession, now) + StatusFlags(s, cfg, m, newSession, now, s.order)
  }

  function DecideStatus(s: EdgeState, cfg: EdgeConfig, delivery: StatusDelivery, now: Time): seq<Stamped> {
    Stamp(DecideStatusRecords(s, cfg, delivery, now), now)
  }

  // -- tick

  function LivenessMove(d: DeviceView, cfg: EdgeConfig, now: Time): Option<Connectivity> {
    match d.connectivity
    case ConnUnknown => if d.since.Some? && now - d.since.value >= cfg.restartGrace then Some(Offline) else None
    case Online => if d.lastReceivedAt.Some? && now - d.lastReceivedAt.value >= cfg.staleAfter then Some(Stale) else None
    case Stale => if d.lastReceivedAt.Some? && now - d.lastReceivedAt.value >= cfg.offlineAfter then Some(Offline) else None
    case Offline => None
  }

  function LivenessRecords(s: EdgeState, cfg: EdgeConfig, now: Time, robots: seq<RobotId>): seq<EdgeRecord> {
    if robots == [] then []
    else
      var move := if robots[0] in s.devices then LivenessMove(s.devices[robots[0]], cfg, now) else None;
      (if move.Some? then [DeviceLivenessChanged(robots[0], move.value, None)] else [])
      + LivenessRecords(s, cfg, now, robots[1..])
  }

  predicate Reachable(s: EdgeState, robot: RobotId) {
    robot in s.devices && (s.devices[robot].connectivity.Online? || s.devices[robot].connectivity.Stale?)
  }

  predicate ProgressOverdue(s: EdgeState, t: TaskView, now: Time) {
    && (t.evidence.state.AcceptedState? || t.evidence.state.Running?)
    && Reachable(s, t.request.targetRobot)
    && ReprobeDue(t, ProgressWindowElapsed, now, Window(t))
    && now - t.clocks.lastProgressAt.GetOr(t.createdAt) >= Window(t)
  }

  predicate AcceptanceOverdue(s: EdgeState, t: TaskView, now: Time) {
    && t.evidence.state.Created?
    && t.publishing.confirmations > 0
    && now < t.request.expiresAt
    && Reachable(s, t.request.targetRobot)
    && ReprobeDue(t, AcceptanceWindowElapsed, now, Window(t))
    && t.publishing.lastConfirmedAt.Some?
    && now - t.publishing.lastConfirmedAt.value >= Window(t)
  }

  function TickFlags(s: EdgeState, t: TaskView, now: Time): seq<FlagReason> {
    if t.IsTerminal() then []
    else
      (if t.evidence.state.Created? && now >= t.request.expiresAt && !t.expiredUnconfirmed then [ExpiredUnconfirmed] else [])
      + (if ProgressOverdue(s, t, now) then [ProgressWindowElapsed] else [])
      + (if AcceptanceOverdue(s, t, now) then [AcceptanceWindowElapsed] else [])
  }

  function FlagRecords(id: TaskId, reasons: seq<FlagReason>): seq<EdgeRecord> {
    seq(|reasons|, i requires 0 <= i < |reasons| => TaskReconciliationFlagged(id, reasons[i]))
  }

  function TaskTickRecords(s: EdgeState, now: Time, ids: seq<TaskId>): seq<EdgeRecord> {
    if ids == [] then []
    else (if ids[0] in s.tasks then FlagRecords(ids[0], TickFlags(s, s.tasks[ids[0]], now)) else [])
         + TaskTickRecords(s, now, ids[1..])
  }

  /** Liveness transitions in device order, then timer flags in creation order. */
  function DecideTick(s: EdgeState, cfg: EdgeConfig, robots: seq<RobotId>, now: Time): seq<Stamped> {
    Stamp(LivenessRecords(s, cfg, now, robots) + TaskTickRecords(s, now, s.order), now)
  }

  // -- creation

  datatype AdmissionFacts = AdmissionFacts(site: string, deployment: string, robotIds: set<RobotId>, zones: set<string>, taskTypes: set<string>)

  datatype CreateOutcome = CreatedTask | Idempotent | Refused

  predicate Admissible(cfg: EdgeConfig, facts: AdmissionFacts, request: TaskRequest) {
    && request.scope == cfg.scope && request.scope.site == facts.site && request.scope.deployment == facts.deployment
    && request.targetRobot in facts.robotIds && request.targetRobot in cfg.robotIds
    && request.zone in facts.zones && request.taskType in facts.taskTypes
  }

  predicate HasActiveTask(s: EdgeState, robot: RobotId) {
    exists id :: id in s.tasks && s.tasks[id].request.targetRobot == robot && !s.tasks[id].IsTerminal()
  }

  function DecideCreate(s: EdgeState, cfg: EdgeConfig, facts: AdmissionFacts, request: TaskRequest, now: Time): (CreateOutcome, seq<Stamped>) {
    var refused := (Refused, [Stamped(TaskCreateRejected(request.taskId), now)]);
    if !Admissible(cfg, facts, request) then refused
    else if request.taskId in s.tasks then (Idempotent, [])
    else if now >= request.expiresAt then refused
    else if request.targetRobot !in s.devices || s.devices[request.targetRobot].boot.None? then refused
    else if request.targetIncarnation != s.devices[request.targetRobot].boot.value.incarnation then refused
    else if GateClosed(s, request.targetRobot) then refused
    else if HasActiveTask(s, request.targetRobot) then refused
    else (CreatedTask, [Stamped(TaskCreated(request), now)])
  }

  // -- publication

  predicate HasPending(t: TaskView) {
    exists r :: r in t.reasons && (r in PRESENCE || r in PROGRESS) && t.Unanswered(r)
  }

  /** May the task's byte-identical request be published now? */
  predicate Candidate(s: EdgeState, cfg: EdgeConfig, id: TaskId, now: Time) {
    id in s.tasks &&
    var t := s.tasks[id];
    && !t.IsTerminal() && !t.IsBlocked() && !t.AuthorizationConflict()
    && !GateClosed(s, t.request.targetRobot)
    && Reachable(s, t.request.targetRobot)
    && s.devices[t.request.targetRobot].boot.Some?
    && s.devices[t.request.targetRobot].boot.value.incarnation == t.request.targetIncarnation
    && t.publishing.attempts < cfg.maxRepublishAttempts
    && (now >= t.request.expiresAt ==> t.publishing.postExpiryAttempts < 1)
    && (t.publishing.lastAttemptAt.Some? ==> now - t.publishing.lastAttemptAt.value >= cfg.minRepublishInterval)
    && (t.publishing.confirmations == 0 || HasPending(t))
  }

  /** Why a request goes out: for the first time, or for reasons the robot has not answered. */
  datatype Cause = Initial | Reconcile(reasons: set<FlagReason>)

  /** A task whose request may go out, why, and as which attempt. */
  datatype Republish = Republish(id: TaskId, cause: Cause, attempt: nat)

  function Unanswered(t: TaskView): set<FlagReason> { set r | r in t.reasons && (r in PRESENCE || r in PROGRESS) && t.Unanswered(r) }

  function OfferOf(t: TaskView, id: TaskId): Republish {
    Republish(id, if t.publishing.confirmations == 0 then Initial else Reconcile(Unanswered(t)), t.publishing.attempts + 1)
  }

  function Candidates(s: EdgeState, cfg: EdgeConfig, now: Time, ids: seq<TaskId>): seq<Republish> {
    if ids == [] then []
    else (if Candidate(s, cfg, ids[0], now) then [OfferOf(s.tasks[ids[0]], ids[0])] else []) + Candidates(s, cfg, now, ids[1..])
  }

  /** The tasks whose request may be published now, in creation order. */
  function RepublishCandidates(s: EdgeState, cfg: EdgeConfig, now: Time): seq<Republish> { Candidates(s, cfg, now, s.order) }

  lemma {:induction false} CandidatesExactly(s: EdgeState, cfg: EdgeConfig, now: Time, ids: seq<TaskId>)
    ensures forall x :: x in Candidates(s, cfg, now, ids) <==> x.id in ids && Candidate(s, cfg, x.id, now) && x == OfferOf(s.tasks[x.id], x.id)
    decreases |ids|
  {
    hide Candidate, Unanswered;
    if ids != [] { CandidatesExactly(s, cfg, now, ids[1..]); }
  }

  function AttemptRecord(s: EdgeState, id: TaskId, now: Time): Stamped
    requires id in s.tasks
  {
    Stamped(TaskPublishAttempted(id, now >= s.tasks[id].request.expiresAt), now)
  }

  function ConfirmRecord(s: EdgeState, id: TaskId, now: Time): Stamped
    requires id in s.tasks
  {
    Stamped(TaskPublishConfirmed(id, now >= s.tasks[id].request.expiresAt), now)
  }
}
