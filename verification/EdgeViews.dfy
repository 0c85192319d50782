/** The Edge's journal vocabulary and the task and device views it derives from its own records. */
module EdgeViews {
  import opened Common
  import opened TaskContracts

  datatype TaskState =
    | Created | AcceptedState | Running | BlockedAwaitingHuman
    | SucceededState | FailedState | InconclusiveState | RejectedState

  predicate IsTerminalState(s: TaskState) {
    s.SucceededState? || s.FailedState? || s.InconclusiveState? || s.RejectedState?
  }

  datatype Disposition =
    | Applied | LateEvidence | Duplicate | ConflictingReplay | Evidence | UnexpectedAcceptance | UnexpectedRejection

  datatype FlagReason =
    // presence: does the robot still hold this task?
    | NewBootSession | ExpiredUnconfirmed | EdgeRestart | TransportSessionLost
    // progress: no trusted progress arrived
    | HeartbeatMismatch | ProgressWindowElapsed | AcceptanceWindowElapsed
    // sticky: never cleared by robot evidence
    | ConflictingTerminalReason | ConflictingReplayReason | PostTerminalActivity
    | UnexpectedAcceptanceReason | UnexpectedRejectionReason | SessionRegressionReason

  const PRESENCE: set<FlagReason> := {NewBootSession, ExpiredUnconfirmed, EdgeRestart, TransportSessionLost}
  const PROGRESS: set<FlagReason> := {HeartbeatMismatch, ProgressWindowElapsed, AcceptanceWindowElapsed}

  /** Sticky evidence conflicts that close the authorization gate by themselves. */
  predicate ClosesGate(r: FlagReason) {
    r.PostTerminalActivity? || r.UnexpectedAcceptanceReason? || r.UnexpectedRejectionReason? || r.ConflictingReplayReason?
  }

  datatype Effective = Reported(kind: EventKind) | Conflict

  datatype TerminalRef = TerminalRef(kind: EventKind, key: Key, reason: Option<Reason>)

  function RefOf(e: TaskEvent): TerminalRef { TerminalRef(e.kind, e.OrderKey(), e.reason) }

  /** What robot events established about a task. The keys of `seen` are also its events by boot. */
  datatype TaskEvidence = TaskEvidence(
    state: TaskState,
    appliedMax: Option<Key>,
    seen: map<Key, TaskEvent>,
    conflicting: set<TaskEvent>,
    acceptanceObserved: bool,
    terminals: seq<TerminalRef>,
    first: Option<TerminalRef>,
    effective: Option<Effective>,
    blocking: Option<TaskEvent>)

  const NO_EVIDENCE := TaskEvidence(Created, None, map[], {}, false, [], None, None, None)

  datatype Publishing = Publishing(
    attempts: nat, lastAttemptAt: Option<Time>, postExpiryAttempts: nat,
    confirmations: nat, lastConfirmedAt: Option<Time>, postExpiryPublishes: nat)

  datatype Clocks = Clocks(
    lastEventAt: Option<Time>,
    lastEventRecord: nat,
    lastProgressAt: Option<Time>,
    flaggedSinceEvent: set<FlagReason>,
    flaggedSinceProgress: set<FlagReason>,
    flagRecord: map<FlagReason, nat>,
    lastProbeAt: Option<Time>,
    answeredAt: map<FlagReason, Time>)

  datatype TaskView = TaskView(
    request: TaskRequest,
    createdAt: Time,
    evidence: TaskEvidence,
    reasons: set<FlagReason>,
    publishing: Publishing,
    clocks: Clocks,
    expiredUnconfirmed: bool,
    exceptions: nat)
  {
    predicate IsTerminal() { IsTerminalState(evidence.state) }
    predicate IsBlocked() { evidence.state.BlockedAwaitingHuman? }
    predicate AuthorizationConflict() { evidence.effective == Some(Conflict) }
    predicate Unanswered(r: FlagReason) { r in clocks.flagRecord && clocks.flagRecord[r] > clocks.lastEventRecord }
  }

  function NewTaskView(request: TaskRequest, at: Time): TaskView {
    TaskView(request, at, NO_EVIDENCE, {}, Publishing(0, None, 0, 0, None, 0),
             Clocks(None, 0, None, {}, {}, map[], None, map[]), false, 0)
  }

  // -- device status

  datatype StatusMessage = StatusMessage(
    scope: Scope, robotId: RobotId, incarnation: Incarnation, bootSequence: nat,
    statusSequence: nat, reportedAt: Time, available: bool, currentTask: Option<TaskId>, rest: string)

  /** Everything but the sequence and the report time. */
  function ContentKey(m: StatusMessage): StatusMessage { m.(statusSequence := 0, reportedAt := 0) }

  datatype Connectivity = ConnUnknown | Online | Stale | Offline

  datatype Boot = Boot(incarnation: Incarnation, sequence: nat)

  datatype DeviceView = DeviceView(
    connectivity: Connectivity,
    since: Option<Time>,
    boot: Option<Boot>,
    lastStatusSequence: Option<nat>,
    lastStatus: Option<StatusMessage>,
    lastReceivedAt: Option<Time>,
    sessionRegression: bool,
    lastRegressionRejectionAt: Option<Time>)

  const NEW_DEVICE := DeviceView(ConnUnknown, None, None, None, None, None, false, None)

  // -- records

  datatype EdgeRecord =
    | EdgeStarted
    | TransportSession(lost: bool)
    | TaskCreated(request: TaskRequest)
    | TaskCreateRejected(createRejected: TaskId)
    | TaskPublishAttempted(attempted: TaskId, attemptPostExpiry: bool)
    | TaskPublishConfirmed(confirmed: TaskId, confirmPostExpiry: bool)
    | DeviceStatusChanged(statusRobot: RobotId, status: StatusMessage)
    | DeviceHeartbeat(heartbeatRobot: RobotId, statusSequence: nat)
    | DeviceStatusRejected(rejectedRobot: Option<RobotId>, regression: bool)
    | DeviceLivenessChanged(livenessRobot: RobotId, to: Connectivity, livenessStatus: Option<StatusMessage>)
    | SessionRegression(regressedRobot: RobotId)
    | TaskEventReceived(event: TaskEvent, disposition: Disposition, stateAfter: TaskState, conflict: bool,
                        flagReason: Option<FlagReason>, missingAfter: seq<nat>, acceptanceAfter: bool)
    | TaskEventRejected(eventRejectedTask: Option<TaskId>)
    | RobotRequestRejected(requestRejected: TaskId)
    | TaskReconciliationFlagged(flagged: TaskId, reason: FlagReason)
    | ConflictingTerminal(conflicted: TaskId)

  /** A record and the time it was recorded at. */
  datatype Stamped = Stamped(record: EdgeRecord, at: Time)

  datatype EdgeState = EdgeState(
    tasks: map<TaskId, TaskView>,
    order: seq<TaskId>,
    devices: map<RobotId, DeviceView>,
    startedAt: Option<Time>,
    applied: nat)

  function InitialEdge(robots: set<RobotId>): EdgeState {
    EdgeState(map[], [], map r | r in robots :: NEW_DEVICE, None, 0)
  }

  // -- one task, one record

  function NoteEvidence(c: Clocks, n: nat, at: Time): Clocks {
    c.(answeredAt := map r | r in c.answeredAt.Keys + c.flagRecord.Keys
                       && (r in c.answeredAt || c.flagRecord[r] > c.lastEventRecord) ::
                       if r in c.flagRecord && c.flagRecord[r] > c.lastEventRecord then at else c.answeredAt[r],
       lastEventAt := Some(at),
       lastEventRecord := n)
  }

  predicate Counts(d: Disposition) { d.Evidence? || d.UnexpectedAcceptance? || d.UnexpectedRejection? }

  function AddTerminal(v: TaskEvidence, e: TaskEvent): seq<TerminalRef> {
    if e.IsTerminal() then v.terminals + [RefOf(e)] else v.terminals
  }

  function EvidenceStep(v: TaskEvidence, e: TaskEvent, d: Disposition, stateAfter: TaskState, conflict: bool): TaskEvidence {
    match d
    case Duplicate => v
    case ConflictingReplay =>
      v.(conflicting := v.conflicting + {e}, terminals := AddTerminal(v, e),
         effective := if conflict then Some(Conflict) else v.effective)
    case Applied =>
      v.(seen := v.seen[e.OrderKey() := e],
         acceptanceObserved := v.acceptanceObserved || e.kind.Accepted?,
         appliedMax := Some(e.OrderKey()),
         state := stateAfter,
         blocking := if e.kind.AssistanceRequired? then Some(e) else if stateAfter.BlockedAwaitingHuman? then v.blocking else None,
         terminals := AddTerminal(v, e),
         first := if e.IsTerminal() && v.first.None? then Some(RefOf(e)) else v.first,
         effective := if !e.IsTerminal() then v.effective
                      else if conflict then Some(Conflict)
                      else if v.first.None? then Some(Reported(e.kind)) else v.effective)
    case _ =>
      v.(seen := v.seen[e.OrderKey() := e],
         acceptanceObserved := v.acceptanceObserved || (e.kind.Accepted? && d.LateEvidence?),
         terminals := AddTerminal(v, e),
         effective := if conflict then Some(Conflict) else v.effective)
  }

  /** Robot evidence answers presence; only an applied event clears progress; the rest sticks. */
  function ReasonsStep(reasons: set<FlagReason>, e: TaskEvent, d: Disposition, conflict: bool, flag: Option<FlagReason>): set<FlagReason> {
    (reasons - PRESENCE - (if d.Applied? then PROGRESS else {}))
    + (if d.ConflictingReplay? then {ConflictingReplayReason} else {})
    + (if Counts(d) && flag.Some? then {flag.value} else {})
    + (if conflict && !d.Duplicate? && (!d.Applied? || e.IsTerminal()) then {ConflictingTerminalReason} else {})
  }

  function ClocksStep(c: Clocks, d: Disposition, n: nat, at: Time): Clocks {
    var noted := NoteEvidence(c, n, at).(flaggedSinceEvent := {});
    if d.Applied? then noted.(lastProgressAt := Some(at), lastProbeAt := None, flaggedSinceProgress := {}) else noted
  }

  function EventStep(t: TaskView, r: EdgeRecord, n: nat, at: Time): TaskView
    requires r.TaskEventReceived?
  {
    t.(evidence := EvidenceStep(t.evidence, r.event, r.disposition, r.stateAfter, r.conflict),
       reasons := ReasonsStep(t.reasons, r.event, r.disposition, r.conflict, r.flagReason),
       clocks := ClocksStep(t.clocks, r.disposition, n, at))
  }

  function FlagStep(t: TaskView, reason: FlagReason, n: nat, at: Time): TaskView {
    t.(reasons := t.reasons + {reason},
       clocks := t.clocks.(flaggedSinceEvent := t.clocks.flaggedSinceEvent + {reason},
                           flaggedSinceProgress := t.clocks.flaggedSinceProgress + {reason},
                           flagRecord := t.clocks.flagRecord[reason := n],
                           lastProbeAt := if reason in PROGRESS then Some(at) else t.clocks.lastProbeAt),
       expiredUnconfirmed := t.expiredUnconfirmed || reason.ExpiredUnconfirmed?)
  }

  /** A restart or a lost session: every open task is asked about again. */
  function AskAgain(t: TaskView, reason: FlagReason, n: nat): TaskView {
    if t.IsTerminal() then t
    else t.(reasons := t.reasons + {reason}, clocks := t.clocks.(flagRecord := t.clocks.flagRecord[reason := n]))
  }

  function TaskStep(id: TaskId, t: TaskView, r: EdgeRecord, n: nat, at: Time): TaskView {
    match r
    case EdgeStarted => AskAgain(t, EdgeRestart, n)
    case TransportSession(lost) => if lost then AskAgain(t, TransportSessionLost, n) else t
    case TaskPublishAttempted(x, post) =>
      if x != id then t
      else t.(publishing := t.publishing.(attempts := t.publishing.attempts + 1, lastAttemptAt := Some(at),
                                          postExpiryAttempts := t.publishing.postExpiryAttempts + if post then 1 else 0))
    case TaskPublishConfirmed(x, post) =>
      if x != id then t
      else t.(publishing := t.publishing.(confirmations := t.publishing.confirmations + 1, lastConfirmedAt := Some(at),
                                          postExpiryPublishes := t.publishing.postExpiryPublishes + if post then 1 else 0))
    case SessionRegression(robot) =>
      if t.request.targetRobot == robot && !t.IsTerminal() then t.(reasons := t.reasons + {SessionRegressionReason}) else t
    case TaskEventReceived(e, _, _, _, _, _, _) => if e.taskId == id then EventStep(t, r, n, at) else t
    case RobotRequestRejected(x) =>
      if x == id then t.(clocks := NoteEvidence(t.clocks, n, at), exceptions := t.exceptions + 1) else t
    case TaskReconciliationFlagged(x, reason) => if x == id then FlagStep(t, reason, n, at) else t
    case ConflictingTerminal(x) =>
      if x == id then t.(evidence := t.evidence.(effective := Some(Conflict))) else t
    case TaskCreateRejected(x) => if x == id then t.(exceptions := t.exceptions + 1) else t
    case TaskEventRejected(x) => if x == Some(id) then t.(exceptions := t.exceptions + 1) else t
    case _ => t
  }

  // -- one device, one record

  function ForgetSession(d: DeviceView, at: Time): DeviceView {
    d.(connectivity := ConnUnknown, since := Some(at), lastStatusSequence := None)
  }

  function Adopt(d: DeviceView, m: StatusMessage, at: Time): DeviceView {
    d.(boot := Some(Boot(m.incarnation, m.bootSequence)), lastStatusSequence := Some(m.statusSequence),
       lastStatus := Some(m), lastReceivedAt := Some(at))
  }

  function DeviceStep(robot: RobotId, d: DeviceView, r: EdgeRecord, at: Time): DeviceView {
    match r
    case EdgeStarted => ForgetSession(d, at)
    case TransportSession(lost) => if lost then ForgetSession(d, at) else d
    case DeviceStatusChanged(x, m) =>
      if x != robot then d
      else if d.connectivity.Online? then Adopt(d, m, at)
      else Adopt(d, m, at).(connectivity := Online, since := Some(at))
    case DeviceHeartbeat(x, n) => if x == robot then d.(lastStatusSequence := Some(n), lastReceivedAt := Some(at)) else d
    case DeviceLivenessChanged(x, to, m) =>
      if x != robot then d
      else
        var moved := d.(connectivity := to, since := Some(at));
        if to.Online? && m.Some? then Adopt(moved, m.value, at) else moved
    case SessionRegression(x) => if x == robot then d.(sessionRegression := true) else d
    case DeviceStatusRejected(x, regression) =>
      if x == Some(robot) && regression then d.(lastRegressionRejectionAt := Some(at)) else d
    case _ => d
  }

  /** The device a record creates when it is the first to name it. */
  function NamedDevice(r: EdgeRecord): Option<RobotId> {
    match r
    case DeviceStatusChanged(x, _) => Some(x)
    case DeviceHeartbeat(x, _) => Some(x)
    case DeviceLivenessChanged(x, _, _) => Some(x)
    case SessionRegression(x) => Some(x)
    case DeviceStatusRejected(x, regression) => if regression then x else None
    case _ => None
  }

  function DevicesWith(devices: map<RobotId, DeviceView>, r: EdgeRecord): map<RobotId, DeviceView> {
    var named := NamedDevice(r);
    if named.Some? && named.value !in devices then devices[named.value := NEW_DEVICE] else devices
  }

  // -- the whole view

  function TasksAfter(s: EdgeState, st: Stamped): map<TaskId, TaskView> {
    var stepped := map id | id in s.tasks :: TaskStep(id, s.tasks[id], st.record, s.applied + 1, st.at);
    if st.record.TaskCreated? then stepped[st.record.request.taskId := NewTaskView(st.record.request, st.at)] else stepped
  }

  function DevicesAfter(s: EdgeState, st: Stamped): map<RobotId, DeviceView> {
    var known := DevicesWith(s.devices, st.record);
    map x | x in known :: DeviceStep(x, known[x], st.record, st.at)
  }

  function Apply(s: EdgeState, st: Stamped): EdgeState {
    EdgeState(TasksAfter(s, st),
              if st.record.TaskCreated? && st.record.request.taskId !in s.tasks then s.order + [st.record.request.taskId] else s.order,
              DevicesAfter(s, st),
              if st.record.EdgeStarted? then Some(st.at) else s.startedAt,
              s.applied + 1)
  }

  function ApplyAll(s: EdgeState, sts: seq<Stamped>): EdgeState
    decreases |sts|
  {
    if sts == [] then s else ApplyAll(Apply(s, sts[0]), sts[1..])
  }

  lemma {:induction false} ApplyConcat(s: EdgeState, a: seq<Stamped>, b: seq<Stamped>)
    ensures ApplyAll(s, a + b) == ApplyAll(ApplyAll(s, a), b)
    decreases |a|
  {
    hide Apply;
    if a == [] {
      assert a + b == b;
    } else {
      ApplyConcat(Apply(s, a[0]), a[1..], b);
      assert (a + b)[1..] == a[1..] + b;
    }
  }

  // -- queries

  /** Sequence numbers of the current boot, up to the applied maximum, that never arrived. */
  function MissingFrom(seen: set<Key>, boot: nat, from: nat, top: nat): (missing: seq<nat>)
    ensures forall n :: n in missing <==> from <= n <= top && Key(boot, n) !in seen
    ensures forall i, j :: 0 <= i < j < |missing| ==> missing[i] < missing[j]
    decreases top + 1 - from
  {
    if from > top then []
    else
      var later := MissingFrom(seen, boot, from + 1, top);
      if Key(boot, from) in seen then later
      else
        assert forall i :: 0 <= i < |later| ==> later[i] in later;
        [from] + later
  }

  function Missing(v: TaskEvidence): seq<nat> {
    if v.appliedMax.None? then [] else MissingFrom(v.seen.Keys, v.appliedMax.value.boot, 1, v.appliedMax.value.sequence)
  }

  /** The task holds evidence that closes its robot's gate. */
  predicate TaskClosesGate(t: TaskView) {
    t.AuthorizationConflict() || exists r :: r in t.reasons && ClosesGate(r)
  }

  /** No new authorization for this robot: a regressed session or a task with unexplained evidence. */
  predicate GateClosed(s: EdgeState, robot: RobotId) {
    || (robot in s.devices && s.devices[robot].sessionRegression)
    || exists id :: id in s.tasks && s.tasks[id].request.targetRobot == robot && TaskClosesGate(s.tasks[id])
  }
}
