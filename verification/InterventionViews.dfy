/** Human-handling cases and notifications, derived from the intervention service's own journal. */
module InterventionViews {
  import opened Common
  import opened TaskContracts
  import opened EdgeViews

  datatype CaseKind = AssistanceCase | UnreachableCase | UnconfirmedCase | ConflictCase

  datatype Subject = TaskSubject(task: TaskId) | DeviceSubject(device: RobotId)

  /** What identifies one occurrence of a condition. */
  datatype EvidenceKey =
    | EventKey(boot: nat, sequence: nat)
    | ConflictKey(reasons: set<FlagReason>, effective: Option<Effective>)
    | BudgetKey(exhausted: bool, attempts: nat)
    | OfflineKey(since: Option<Time>, openTask: Option<TaskId>)
    | RegressionKey

  /** Case ids digest exactly these three. */
  datatype CaseId = CaseId(kind: CaseKind, subject: Subject, key: EvidenceKey)

  datatype Evidence =
    | AssistanceEvidence(event: TaskEvent, state: TaskState)
    | ConflictEvidence(reasons: set<FlagReason>, effective: Option<Effective>, state: TaskState)
    | UnconfirmedEvidence(state: TaskState, attempts: nat, expiresAt: Time, exhausted: bool)
    | OfflineEvidence(since: Option<Time>, lastReceived: Option<Time>, lastStatus: Option<StatusMessage>, openTask: Option<TaskId>)
    | RegressionEvidence

  datatype Severity = Warning | Critical

  function Rank(s: Severity): nat { if s.Critical? then 2 else 1 }

  datatype HumanState = Open | Acknowledged | Resolved

  datatype Intent = OpenedIntent | ReminderIntent | EscalationIntent

  /** Notification ids digest the case, the intent and the ordinal within the case. */
  datatype NotificationId = NotificationId(caseId: CaseId, intent: Intent, ordinal: nat)

  /** What is sent to the receiver; the message text is rendered from these. */
  datatype Notice = Notice(id: NotificationId, severity: Severity, robotId: RobotId, human: HumanState, evidence: Evidence)

  /** The person, the time and the text of an operator action. */
  datatype Action = Action(operator: string, at: Time, text: string)

  datatype CaseView = CaseView(
    id: CaseId,
    robotId: RobotId,
    severity: Severity,
    key: EvidenceKey,
    evidence: Evidence,
    openedAt: Time,
    human: HumanState,
    active: bool,
    history: nat,
    acknowledged: Option<Action>,
    resolved: Option<Action>,
    recurrenceOf: Option<CaseId>,
    notices: seq<NotificationId>,
    reminders: nat,
    remindersExhausted: bool,
    lastIntentAt: Option<Time>)

  datatype DeliveryState = Pending | Attempting | UnknownOutcome | Delivered | FailedAttempt | Exhausted

  datatype ReceiptId = ReceiptId(receiver: string, notification: NotificationId)

  datatype AttemptResult = ResultDelivered(receipt: ReceiptId) | ResultUnknown | ResultFailed

  datatype NotificationView = NotificationView(
    notice: Notice,
    intendedAt: Time,
    attempts: nat,
    lastAttemptAt: Option<Time>,
    lastResult: Option<AttemptResult>,
    lastResultAt: Option<Time>,
    receipt: Option<ReceiptId>,
    state: DeliveryState)

  datatype InterventionRecord =
    | ServiceStarted
    | CaseOpened(openedCase: CaseId, robotId: RobotId, severity: Severity, evidence: Evidence, recurrenceOf: Option<CaseId>)
    | CaseEvidenceAdded(added: CaseId, key: EvidenceKey, evidence: Evidence)
    | CaseEscalated(escalated: CaseId, severity: Severity, key: EvidenceKey, evidence: Evidence)
    | CaseConditionCleared(cleared: CaseId)
    | CaseConditionReturned(returned: CaseId, key: EvidenceKey, evidence: Evidence)
    | CaseAcknowledged(acknowledged: CaseId, operator: string, text: string)
    | CaseResolved(resolved: CaseId, operator: string, text: string)
    | OperatorActionRejected
    | NotificationIntended(notice: Notice)
    | NotificationAttempted(attempted: NotificationId, attempt: nat)
    | NotificationResult(answered: NotificationId, result: AttemptResult)
    | NotificationExhausted(exhausted: NotificationId)
    | RemindersExhausted(reminded: CaseId)

  datatype Timed = Timed(record: InterventionRecord, at: Time)

  datatype InterventionState = InterventionState(
    cases: seq<CaseView>,
    notifications: map<NotificationId, NotificationView>,
    pending: seq<Timed>,
    startedAt: Option<Time>,
    applied: nat)

  const NO_CASES := InterventionState([], map[], [], None, 0)

  // -- cases, in the order they were first opened

  predicate Known(cases: seq<CaseView>, id: CaseId) { exists i :: 0 <= i < |cases| && cases[i].id == id }

  function Find(cases: seq<CaseView>, id: CaseId): (c: CaseView)
    requires Known(cases, id)
    ensures c in cases && c.id == id
  {
    if cases[0].id == id then cases[0]
    else
      assert Known(cases[1..], id) by { var i :| 0 <= i < |cases| && cases[i].id == id; assert cases[1..][i - 1].id == id; }
      Find(cases[1..], id)
  }

  /** The case a record is about. */
  function About(r: InterventionRecord): Option<CaseId> {
    match r
    case CaseOpened(id, _, _, _, _) => Some(id)
    case CaseEvidenceAdded(id, _, _) => Some(id)
    case CaseEscalated(id, _, _, _) => Some(id)
    case CaseConditionCleared(id) => Some(id)
    case CaseConditionReturned(id, _, _) => Some(id)
    case CaseAcknowledged(id, _, _) => Some(id)
    case CaseResolved(id, _, _) => Some(id)
    case NotificationIntended(n) => Some(n.id.caseId)
    case RemindersExhausted(id) => Some(id)
    case _ => None
  }

  function NewCase(r: InterventionRecord, at: Time): CaseView
    requires r.CaseOpened?
  {
    CaseView(r.openedCase, r.robotId, r.severity, r.openedCase.key, r.evidence, at, Open, true, 1, None, None, r.recurrenceOf, [], 0, false, None)
  }

  function Later(last: Option<Time>, at: Time): Option<Time> {
    if last.Some? && last.value > at then last else Some(at)
  }

  /** The effect of a record on the case it is about. */
  function CaseEffect(c: CaseView, r: InterventionRecord, at: Time): CaseView {
    match r
    case CaseOpened(_, _, _, _, _) => NewCase(r, at)
    case CaseEvidenceAdded(_, key, evidence) => c.(key := key, evidence := evidence, history := c.history + 1)
    case CaseEscalated(_, severity, key, evidence) =>
      c.(severity := severity, key := key, evidence := evidence, history := c.history + 1)
    case CaseConditionCleared(_) => c.(active := false)
    case CaseConditionReturned(_, key, evidence) =>
      c.(active := true, key := key, evidence := evidence, history := c.history + 1)
    case CaseAcknowledged(_, operator, text) => c.(human := Acknowledged, acknowledged := Some(Action(operator, at, text)))
    case CaseResolved(_, operator, text) => c.(human := Resolved, resolved := Some(Action(operator, at, text)))
    case NotificationIntended(n) =>
      c.(notices := c.notices + [n.id], lastIntentAt := Later(c.lastIntentAt, at),
         reminders := c.reminders + if n.id.intent.ReminderIntent? then 1 else 0)
    case RemindersExhausted(_) => c.(remindersExhausted := true)
    case _ => c
  }

  function Stepped(cases: seq<CaseView>, r: InterventionRecord, at: Time): (after: seq<CaseView>)
    ensures |after| == |cases|
  {
    if cases == [] then []
    else [if About(r) == Some(cases[0].id) then CaseEffect(cases[0], r, at) else cases[0]] + Stepped(cases[1..], r, at)
  }

  function CasesAfter(cases: seq<CaseView>, r: InterventionRecord, at: Time): seq<CaseView> {
    Stepped(cases, r, at) + if r.CaseOpened? && !Known(cases, r.openedCase) then [NewCase(r, at)] else []
  }

  // -- intents owed but not yet journaled

  /** The intent a case is owed, built from the case as it stands. */
  function IntentFor(c: CaseView, intent: Intent, severity: Severity, evidence: Evidence): InterventionRecord {
    NotificationIntended(Notice(NotificationId(c.id, intent, |c.notices|), severity, c.robotId, c.human, evidence))
  }

  predicate SameIntent(t: Timed, id: CaseId, intent: Intent) {
    t.record.NotificationIntended? && t.record.notice.id.caseId == id && t.record.notice.id.intent == intent
  }

  /** Dictionary update: a known key keeps its place. */
  function Put(pending: seq<Timed>, t: Timed): seq<Timed>
    requires t.record.NotificationIntended?
  {
    if pending == [] then [t]
    else if SameIntent(pending[0], t.record.notice.id.caseId, t.record.notice.id.intent) then [t] + pending[1..]
    else [pending[0]] + Put(pending[1..], t)
  }

  function Drop(pending: seq<Timed>, id: CaseId, intent: Intent): seq<Timed> {
    if pending == [] then []
    else if SameIntent(pending[0], id, intent) then pending[1..]
    else [pending[0]] + Drop(pending[1..], id, intent)
  }

  /** `cases` are the cases after the record. */
  function PendingAfter(pending: seq<Timed>, cases: seq<CaseView>, r: InterventionRecord, at: Time): seq<Timed> {
    match r
    case CaseOpened(id, _, severity, evidence, _) =>
      if Known(cases, id) then Put(pending, Timed(IntentFor(Find(cases, id), OpenedIntent, severity, evidence), at)) else pending
    case CaseEscalated(id, severity, _, evidence) =>
      if Known(cases, id) then Put(pending, Timed(IntentFor(Find(cases, id), EscalationIntent, severity, evidence), at)) else pending
    case NotificationIntended(n) => Drop(pending, n.id.caseId, n.id.intent)
    case _ => pending
  }

  // -- notifications

  function NotificationEffect(n: NotificationView, r: InterventionRecord, at: Time): NotificationView {
    match r
    case NotificationAttempted(_, attempt) => n.(attempts := attempt, lastAttemptAt := Some(at), state := Attempting)
    case NotificationResult(_, result) =>
      n.(lastResult := Some(result), lastResultAt := Some(at),
         state := match result case ResultDelivered(_) => Delivered case ResultUnknown => UnknownOutcome case ResultFailed => FailedAttempt,
         receipt := if result.ResultDelivered? then Some(result.receipt) else n.receipt)
    case NotificationExhausted(_) => n.(state := Exhausted)
    case _ => n
  }

  /** The notification whose delivery a record is about. */
  function Delivers(r: InterventionRecord): Option<NotificationId> {
    match r
    case NotificationAttempted(id, _) => Some(id)
    case NotificationResult(id, _) => Some(id)
    case NotificationExhausted(id) => Some(id)
    case _ => None
  }

  function NotificationsAfter(notifications: map<NotificationId, NotificationView>, r: InterventionRecord, at: Time)
    : map<NotificationId, NotificationView>
  {
    if r.NotificationIntended? then
      notifications[r.notice.id := NotificationView(r.notice, at, 0, None, None, None, None, Pending)]
    else if Delivers(r).Some? && Delivers(r).value in notifications then
      notifications[Delivers(r).value := NotificationEffect(notifications[Delivers(r).value], r, at)]
    else notifications
  }

  // -- the whole view

  /** Replay raises on a record about a case or a notification it does not know. */
  predicate Applicable(s: InterventionState, r: InterventionRecord) {
    && (About(r).Some? && !r.CaseOpened? ==> Known(s.cases, About(r).value))
    && (Delivers(r).Some? ==> Delivers(r).value in s.notifications)
  }

  function Apply(s: InterventionState, t: Timed): InterventionState {
    var cases := CasesAfter(s.cases, t.record, t.at);
    InterventionState(cases,
                      NotificationsAfter(s.notifications, t.record, t.at),
                      PendingAfter(s.pending, cases, t.record, t.at),
                      if t.record.ServiceStarted? then Some(t.at) else s.startedAt,
                      s.applied + 1)
  }

  function ApplyAll(s: InterventionState, ts: seq<Timed>): InterventionState
    decreases |ts|
  {
    if ts == [] then s else ApplyAll(Apply(s, ts[0]), ts[1..])
  }

  lemma {:induction false} ApplyConcat(s: InterventionState, a: seq<Timed>, b: seq<Timed>)
    ensures ApplyAll(s, a + b) == ApplyAll(ApplyAll(s, a), b)
    decreases |a|
  {
    hide Apply;
    if a == [] {
      assert a + b == b;
    } else {
      ApplyConcat(Apply(s, a[0]), a[1..], b);
      assert (a + b)[1..] == a[1..] + b;
    }
  }
}
