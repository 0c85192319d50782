/** What the intervention service journals: reconciliation, clock ticks, operator actions, attempts. */
module InterventionDecisions {
  import opened Common
  import opened TaskContracts
  import opened EdgeViews
  import opened InterventionViews

  datatype InterventionConfig = InterventionConfig(
    maxRepublishAttempts: nat,
    reminderInterval: Time,
    maxReminders: nat,
    notifyMaxAttempts: nat,
    notifyRetryInterval: Time)

  // -- conditions the Edge evidence supports right now

  datatype Observed = Observed(
    kind: CaseKind, subject: Subject, robotId: RobotId, severity: Severity, key: EvidenceKey, evidence: Evidence)

  predicate EvidenceConflictReason(r: FlagReason) { ClosesGate(r) || r.ConflictingTerminalReason? }

  /** The last open task of a robot, in creation order. */
  function OpenTaskOf(s: EdgeState, ids: seq<TaskId>, robot: RobotId): Option<TaskId> {
    if ids == [] then None
    else
      var last := ids[|ids| - 1];
      if last in s.tasks && s.tasks[last].request.targetRobot == robot && !s.tasks[last].IsTerminal() then Some(last)
      else OpenTaskOf(s, ids[..|ids| - 1], robot)
  }

  function BlockedItem(id: TaskId, t: TaskView): seq<Observed> {
    if t.evidence.state.BlockedAwaitingHuman? && t.evidence.blocking.Some? then
      var e := t.evidence.blocking.value;
      [Observed(AssistanceCase, TaskSubject(id), t.request.targetRobot,
                if e.reason.Some? && e.reason.value.UnknownReason? then Critical else Warning,
                EventKey(e.bootSequence, e.eventSequence), AssistanceEvidence(e, t.evidence.state))]
    else []
  }

  function ConflictReasons(t: TaskView): set<FlagReason> { set r | r in t.reasons && EvidenceConflictReason(r) }

  function ConflictItem(id: TaskId, t: TaskView): seq<Observed> {
    var reasons := ConflictReasons(t);
    if t.AuthorizationConflict() || reasons != {} then
      [Observed(ConflictCase, TaskSubject(id), t.request.targetRobot, Critical,
                ConflictKey(reasons, t.evidence.effective), ConflictEvidence(reasons, t.evidence.effective, t.evidence.state))]
    else []
  }

  function UnconfirmedItem(cfg: InterventionConfig, id: TaskId, t: TaskView): seq<Observed> {
    var exhausted := !t.IsTerminal() && t.publishing.attempts >= cfg.maxRepublishAttempts;
    if !t.IsTerminal() && (exhausted || t.expiredUnconfirmed) then
      [Observed(UnconfirmedCase, TaskSubject(id), t.request.targetRobot, Warning,
                BudgetKey(exhausted, t.publishing.attempts),
                UnconfirmedEvidence(t.evidence.state, t.publishing.attempts, t.request.expiresAt, exhausted))]
    else []
  }

  function TaskItems(cfg: InterventionConfig, id: TaskId, t: TaskView): seq<Observed> {
    BlockedItem(id, t) + ConflictItem(id, t) + UnconfirmedItem(cfg, id, t)
  }

  function DeviceItems(s: EdgeState, robot: RobotId, d: DeviceView): seq<Observed> {
    var task := OpenTaskOf(s, s.order, robot);
    (if d.connectivity.Offline? then
       [Observed(UnreachableCase, DeviceSubject(robot), robot, if task.Some? then Critical else Warning,
                 OfflineKey(d.since, task), OfflineEvidence(d.since, d.lastReceivedAt, d.lastStatus, task))]
     else [])
    + (if d.sessionRegression then
         [Observed(ConflictCase, DeviceSubject(robot), robot, Critical, RegressionKey, RegressionEvidence)]
       else [])
  }

  function ObserveTasks(cfg: InterventionConfig, s: EdgeState, ids: seq<TaskId>): seq<Observed> {
    if ids == [] then []
    else (if ids[0] in s.tasks then TaskItems(cfg, ids[0], s.tasks[ids[0]]) else []) + ObserveTasks(cfg, s, ids[1..])
  }

  function ObserveDevices(s: EdgeState, robots: seq<RobotId>): seq<Observed> {
    if robots == [] then []
    else (if robots[0] in s.devices then DeviceItems(s, robots[0], s.devices[robots[0]]) else []) + ObserveDevices(s, robots[1..])
  }

  /** Tasks in creation order, then devices in the Edge's order. */
  function Observe(cfg: InterventionConfig, s: EdgeState, robots: seq<RobotId>): seq<Observed> {
    ObserveTasks(cfg, s, s.order) + ObserveDevices(s, robots)
  }

  // -- reconciliation

  /** A condition of one kind on one subject has at most one unresolved case. */
  datatype Slot = Slot(kind: CaseKind, subject: Subject)

  function SlotOf(id: CaseId): Slot { Slot(id.kind, id.subject) }

  function ItemSlot(item: Observed): Slot { Slot(item.kind, item.subject) }

  function Local(cases: seq<CaseView>, slot: Slot): seq<CaseView> {
    if cases == [] then []
    else if SlotOf(cases[0].id) == slot then [cases[0]] + Local(cases[1..], slot)
    else Local(cases[1..], slot)
  }

  /** The first unresolved case. */
  function FirstOpen(cases: seq<CaseView>): Option<CaseView> {
    if cases == [] then None
    else if !cases[0].human.Resolved? then Some(cases[0])
    else FirstOpen(cases[1..])
  }

  /** The case opened last; of several opened at the same time, the last listed. */
  function Latest(cases: seq<CaseView>): Option<CaseView> {
    if cases == [] then None
    else
      var last := cases[|cases| - 1];
      var before := Latest(cases[..|cases| - 1]);
      if before.None? || last.openedAt >= before.value.openedAt then Some(last) else before
  }

  /** Evidence a human already resolved is no recurrence. */
  predicate SameEvidence(c: CaseView, item: Observed) {
    if item.kind.UnreachableCase? && item.evidence.OfflineEvidence? && c.evidence.OfflineEvidence? then
      c.evidence.since == item.evidence.since && (item.evidence.openTask.None? || item.evidence.openTask == c.evidence.openTask)
    else c.key == item.key
  }

  function Opening(cases: seq<CaseView>, item: Observed): seq<InterventionRecord> {
    var id := CaseId(item.kind, item.subject, item.key);
    var previous := Latest(cases);
    if (previous.Some? && previous.value.human.Resolved? && SameEvidence(previous.value, item)) || Known(cases, id) then []
    else
      [CaseOpened(id, item.robotId, item.severity, item.evidence, if previous.Some? then Some(previous.value.id) else None),
       NotificationIntended(Notice(NotificationId(id, OpenedIntent, 0), item.severity, item.robotId, Open, item.evidence))]
  }

  /** What is new about an open case: a returned condition, a severity rise with its notification, or other evidence. */
  function Updating(c: CaseView, item: Observed): seq<InterventionRecord> {
    var returned := if c.active then [] else [CaseConditionReturned(c.id, item.key, item.evidence)];
    if Rank(item.severity) > Rank(c.severity) then
      returned + [CaseEscalated(c.id, item.severity, item.key, item.evidence),
                  IntentFor(c, EscalationIntent, item.severity, item.evidence)]
    else if c.active && item.key != c.key then [CaseEvidenceAdded(c.id, item.key, item.evidence)]
    else returned
  }

  /** The records one observed condition calls for, from the cases of its slot alone. */
  function Group(cases: seq<CaseView>, item: Observed): seq<InterventionRecord> {
    var current := FirstOpen(cases);
    if current.None? then Opening(cases, item) else Updating(current.value, item)
  }

  function Groups(cases: seq<CaseView>, items: seq<Observed>): seq<InterventionRecord> {
    if items == [] then []
    else Group(Local(cases, ItemSlot(items[0])), items[0]) + Groups(cases, items[1..])
  }

  /** The open cases the items met. */
  function SeenOpen(cases: seq<CaseView>, items: seq<Observed>): set<CaseId> {
    if items == [] then {}
    else
      var current := FirstOpen(Local(cases, ItemSlot(items[0])));
      (if current.Some? then {current.value.id} else {}) + SeenOpen(cases, items[1..])
  }

  function Clears(cases: seq<CaseView>, seen: set<CaseId>): seq<InterventionRecord> {
    if cases == [] then []
    else if !cases[0].human.Resolved? && cases[0].id !in seen && cases[0].active then
      [CaseConditionCleared(cases[0].id)] + Clears(cases[1..], seen)
    else Clears(cases[1..], seen)
  }

  function Stamp(rs: seq<InterventionRecord>, now: Time): seq<Timed> {
    seq(|rs|, i requires 0 <= i < |rs| => Timed(rs[i], now))
  }

  function FreshRecords(cases: seq<CaseView>, items: seq<Observed>): seq<InterventionRecord> {
    Groups(cases, items) + Clears(cases, SeenOpen(cases, items))
  }

  /** Intents owed by a torn batch come first, alone and unchanged; otherwise what the snapshot calls for. */
  function Reconcile(v: InterventionState, items: seq<Observed>, now: Time): seq<Timed> {
    if v.pending != [] then v.pending else Stamp(FreshRecords(v.cases, items), now)
  }

  // -- the clock

  function CaseTick(cfg: InterventionConfig, c: CaseView, now: Time): seq<InterventionRecord> {
    if !c.human.Open? || c.remindersExhausted || c.lastIntentAt.None? || now - c.lastIntentAt.value < cfg.reminderInterval then []
    else if c.reminders >= cfg.maxReminders then [RemindersExhausted(c.id)]
    else [IntentFor(c, ReminderIntent, c.severity, c.evidence)]
  }

  function CaseTicks(cfg: InterventionConfig, cases: seq<CaseView>, now: Time): seq<InterventionRecord> {
    if cases == [] then [] else CaseTick(cfg, cases[0], now) + CaseTicks(cfg, cases[1..], now)
  }

  /** No budget left: an open attempt is answered "unknown" first, never "delivered". */
  function DeliveryTick(cfg: InterventionConfig, id: NotificationId, n: NotificationView): seq<InterventionRecord> {
    if n.state.Delivered? || n.state.Exhausted? || n.state.Pending? || n.attempts < cfg.notifyMaxAttempts then []
    else (if n.state.Attempting? then [NotificationResult(id, ResultUnknown)] else []) + [NotificationExhausted(id)]
  }

  function DeliveryTicks(cfg: InterventionConfig, v: InterventionState, ids: seq<NotificationId>): seq<InterventionRecord> {
    if ids == [] then []
    else
      (if ids[0] in v.notifications then DeliveryTick(cfg, ids[0], v.notifications[ids[0]]) else [])
      + DeliveryTicks(cfg, v, ids[1..])
  }

  function DecideTick(cfg: InterventionConfig, v: InterventionState, ids: seq<NotificationId>, now: Time): seq<Timed> {
    Stamp(CaseTicks(cfg, v.cases, now) + DeliveryTicks(cfg, v, ids), now)
  }

  // -- operators

  /** `valid` says that the operator id and the text passed validation. */
  function DecideAcknowledge(v: InterventionState, id: CaseId, operator: string, note: string, valid: bool): (bool, seq<InterventionRecord>) {
    if !valid || !Known(v.cases, id) || !Find(v.cases, id).human.Open? then (false, [OperatorActionRejected])
    else (true, [CaseAcknowledged(id, operator, note)])
  }

  function DecideResolve(v: InterventionState, id: CaseId, operator: string, resolution: string, valid: bool): (bool, seq<InterventionRecord>) {
    if !valid || !Known(v.cases, id) || !Find(v.cases, id).human.Acknowledged? then (false, [OperatorActionRejected])
    else (true, [CaseResolved(id, operator, resolution)])
  }

  // -- delivery attempts

  /** May the sender attempt this notification now? */
  predicate Due(cfg: InterventionConfig, n: NotificationView, now: Time) {
    && !n.state.Delivered? && !n.state.Exhausted? && n.attempts < cfg.notifyMaxAttempts
    && (n.state.Pending?
        || var anchor := if n.state.Attempting? then n.lastAttemptAt else n.lastResultAt;
           anchor.None? || now - anchor.value >= cfg.notifyRetryInterval)
  }
}
