/** Whole runs of the intervention service: which record may follow which view, and what every run keeps. */
module InterventionRuns {
  import opened Common
  import opened TaskContracts
  import opened InterventionViews
  import opened InterventionDecisions
  import opened InterventionConvergence
  import opened InterventionReconcile

  // -- legal records

  predicate CaseIs(v: InterventionState, id: CaseId, human: HumanState) {
    Known(v.cases, id) && Find(v.cases, id).human == human
  }

  predicate Unresolved(v: InterventionState, id: CaseId) { Known(v.cases, id) && !Find(v.cases, id).human.Resolved? }

  /** A reminder: the open case's current intent, within its budget and a full interval after the last one. */
  predicate ReminderAllowed(cfg: InterventionConfig, v: InterventionState, t: Timed)
    requires t.record.NotificationIntended?
  {
    CaseIs(v, t.record.notice.id.caseId, Open) &&
    var c := Find(v.cases, t.record.notice.id.caseId);
    && c.reminders < cfg.maxReminders
    && c.lastIntentAt.Some? && t.at - c.lastIntentAt.value >= cfg.reminderInterval
    && t.record == IntentFor(c, ReminderIntent, c.severity, c.evidence)
  }

  ghost predicate Legal(cfg: InterventionConfig, v: InterventionState, t: Timed) {
    match t.record
    case CaseOpened(id, _, _, _, _) => !Known(v.cases, id) && FirstOpen(Local(v.cases, SlotOf(id))).None?
    case CaseEvidenceAdded(id, _, _) => Unresolved(v, id)
    case CaseEscalated(id, severity, _, _) => Unresolved(v, id) && Rank(severity) > Rank(Find(v.cases, id).severity)
    case CaseConditionCleared(id) => Unresolved(v, id)
    case CaseConditionReturned(id, _, _) => Unresolved(v, id)
    case CaseAcknowledged(id, _, _) => CaseIs(v, id, Open)
    case CaseResolved(id, _, _) => CaseIs(v, id, Acknowledged)
    case NotificationIntended(n) => if n.id.intent.ReminderIntent? then ReminderAllowed(cfg, v, t) else v.pending != [] && v.pending[0] == t
    case NotificationAttempted(id, attempt) =>
      && id in v.notifications && attempt == v.notifications[id].attempts + 1 <= cfg.notifyMaxAttempts
      && !v.notifications[id].state.Delivered? && !v.notifications[id].state.Exhausted?
    case NotificationResult(id, _) => id in v.notifications && v.notifications[id].state.Attempting?
    case NotificationExhausted(id) =>
      && id in v.notifications && (v.notifications[id].state.UnknownOutcome? || v.notifications[id].state.FailedAttempt?)
      && v.notifications[id].attempts >= cfg.notifyMaxAttempts
    case RemindersExhausted(id) => CaseIs(v, id, Open)
    case _ => true
  }

  ghost predicate LegalBatch(cfg: InterventionConfig, v: InterventionState, ts: seq<Timed>)
    decreases |ts|
  {
    ts == [] || (Legal(cfg, v, ts[0]) && LegalBatch(cfg, Apply(v, ts[0]), ts[1..]))
  }

  lemma {:induction false} LegalPrefix(cfg: InterventionConfig, v: InterventionState, ts: seq<Timed>, k: nat)
    requires LegalBatch(cfg, v, ts) && k <= |ts|
    ensures LegalBatch(cfg, v, ts[..k])
    decreases k
  {
    hide Legal, Apply;
    if k > 0 {
      LegalPrefix(cfg, Apply(v, ts[0]), ts[1..], k - 1);
      assert ts[..k][1..] == ts[1..][..k - 1];
    }
  }

  lemma {:induction false} LegalConcat(cfg: InterventionConfig, v: InterventionState, a: seq<Timed>, b: seq<Timed>)
    requires LegalBatch(cfg, v, a) && LegalBatch(cfg, ApplyAll(v, a), b)
    ensures LegalBatch(cfg, v, a + b)
    decreases |a|
  {
    hide Legal, Apply;
    if a == [] {
      assert a + b == b;
    } else {
      LegalConcat(cfg, Apply(v, a[0]), a[1..], b);
      assert (a + b)[1..] == a[1..] + b;
    }
  }

  // -- what every legal record keeps

  /** No condition has two unresolved cases. */
  predicate OneOpenPerSlot(cases: seq<CaseView>) {
    forall i, j :: 0 <= i < j < |cases| && !cases[i].human.Resolved? && !cases[j].human.Resolved?
      ==> SlotOf(cases[i].id) != SlotOf(cases[j].id)
  }

  /** The notifications of a case, counted: reminder ordinals are below the number of notices. */
  ghost predicate NoticesOk(v: InterventionState) {
    forall id :: id in v.notifications ==>
      && Known(v.cases, id.caseId)
      && (id.intent.ReminderIntent? ==> id.ordinal < |Find(v.cases, id.caseId).notices|)
      && (id.intent.EscalationIntent? ==> Find(v.cases, id.caseId).severity.Critical?)
  }

  predicate SameKey(t: Timed, u: Timed) {
    && t.record.NotificationIntended? && u.record.NotificationIntended?
    && t.record.notice.id.caseId == u.record.notice.id.caseId && t.record.notice.id.intent == u.record.notice.id.intent
  }

  /** Owed intents are openings and escalations of known cases, each owed once and not yet journaled. */
  ghost predicate PendingOk(v: InterventionState) {
    && (forall i :: 0 <= i < |v.pending| ==> OwedOk(v, v.pending[i]))
    && (forall i, j :: 0 <= i < j < |v.pending| ==> !SameKey(v.pending[i], v.pending[j]))
  }

  ghost predicate OwedOk(v: InterventionState, t: Timed) {
    && t.record.NotificationIntended? && !t.record.notice.id.intent.ReminderIntent?
    && Known(v.cases, t.record.notice.id.caseId)
    && (t.record.notice.id.intent.EscalationIntent? ==> Find(v.cases, t.record.notice.id.caseId).severity.Critical?)
    && (forall id :: id in v.notifications && id.caseId == t.record.notice.id.caseId ==> id.intent != t.record.notice.id.intent)
  }

  /** The last result is a delivery confirmed with the receipt the view holds. */
  predicate Receipted(n: NotificationView) {
    n.receipt.Some? && n.lastResult == Some(ResultDelivered(n.receipt.value))
  }

  /** Reminders stay within the budget; delivery attempts too; delivered means receipted. */
  ghost predicate BudgetsOk(cfg: InterventionConfig, v: InterventionState) {
    && (forall i :: 0 <= i < |v.cases| ==> v.cases[i].reminders <= cfg.maxReminders)
    && (forall id :: id in v.notifications ==>
          && v.notifications[id].notice.id == id
          && v.notifications[id].attempts <= cfg.notifyMaxAttempts
          && (v.notifications[id].state.Delivered? ==> Receipted(v.notifications[id])))
  }

  ghost predicate ServiceOk(cfg: InterventionConfig, v: InterventionState) {
    && DistinctCases(v.cases) && OneOpenPerSlot(v.cases)
    && NoticesOk(v) && PendingOk(v) && BudgetsOk(cfg, v)
  }

  // -- one record and one case

  lemma {:induction false} FindAfter(cases: seq<CaseView>, r: InterventionRecord, at: Time, id: CaseId)
    requires Known(cases, id) && DistinctCases(cases)
    ensures Known(CasesAfter(cases, r, at), id)
    ensures Find(CasesAfter(cases, r, at), id) == if About(r) == Some(id) then CaseEffect(Find(cases, id), r, at) else Find(cases, id)
  {
    FindIn(cases, r, at, id);
    FindInFront(Stepped(cases, r, at), if r.CaseOpened? && !Known(cases, r.openedCase) then [NewCase(r, at)] else [], id);
    hide Stepped, CaseEffect, Find, Known, DistinctCases;
  }

  lemma {:induction false} FindIn(cases: seq<CaseView>, r: InterventionRecord, at: Time, id: CaseId)
    requires Known(cases, id) && DistinctCases(cases)
    ensures Known(Stepped(cases, r, at), id)
    ensures Find(Stepped(cases, r, at), id) == if About(r) == Some(id) then CaseEffect(Find(cases, id), r, at) else Find(cases, id)
    decreases |cases|
  {
    var after := Stepped(cases, r, at);
    if About(r) == Some(cases[0].id) { EffectKeepsId(cases[0], r, at); }
    KnownFront(cases, id);
    KnownFront(after, id);
    hide CaseEffect;
    if cases[0].id != id { FindIn(cases[1..], r, at, id); }
    hide Known;
  }

  lemma {:induction false} FindInFront(cases: seq<CaseView>, more: seq<CaseView>, id: CaseId)
    requires Known(cases, id)
    ensures Known(cases + more, id) && Find(cases + more, id) == Find(cases, id)
    decreases |cases|
  {
    KnownFront(cases, id);
    KnownFront(cases + more, id);
    assert (cases + more)[1..] == cases[1..] + more;
    if cases[0].id != id { FindInFront(cases[1..], more, id); }
    hide Known;
  }

  lemma {:induction false} FindAt(cases: seq<CaseView>, i: nat)
    requires i < |cases| && DistinctCases(cases)
    ensures Known(cases, cases[i].id) && Find(cases, cases[i].id) == cases[i]
    decreases |cases|
  {
    if i > 0 {
      KnownFront(cases, cases[i].id);
      FindAt(cases[1..], i - 1);
    }
  }

  lemma NewFind(cases: seq<CaseView>, r: InterventionRecord, at: Time)
    requires r.CaseOpened? && !Known(cases, r.openedCase)
    ensures Known(CasesAfter(cases, r, at), r.openedCase) && Find(CasesAfter(cases, r, at), r.openedCase) == NewCase(r, at)
    ensures CasesAfter(cases, r, at) == cases + [NewCase(r, at)]
  {
    UnknownUntouched(cases, r, at);
    FindAppended(cases, NewCase(r, at));
    hide Known, Find, Stepped;
  }

  /** Case i after a record: its effect where the record is about it. */
  lemma CaseAt(cases: seq<CaseView>, r: InterventionRecord, at: Time, i: nat)
    requires i < |CasesAfter(cases, r, at)|
    ensures i < |cases| ==> CasesAfter(cases, r, at)[i] == if About(r) == Some(cases[i].id) then CaseEffect(cases[i], r, at) else cases[i]
    ensures i >= |cases| ==> r.CaseOpened? && !Known(cases, r.openedCase) && CasesAfter(cases, r, at)[i] == NewCase(r, at)
  {
    if i < |cases| { SteppedAt(cases, r, at, i); }
    hide Stepped, Known;
  }

  // -- preservation

  lemma {:induction false} InSlot(cases: seq<CaseView>, i: nat)
    requires i < |cases|
    ensures cases[i] in Local(cases, SlotOf(cases[i].id))
  {
    InLocal(cases, cases[i]);
  }

  /** A legal record never reopens a case and never moves it to another slot. */
  lemma {:induction false} StaysInSlot(cfg: InterventionConfig, v: InterventionState, t: Timed, i: nat)
    requires DistinctCases(v.cases) && Legal(cfg, v, t) && i < |v.cases| && i < |CasesAfter(v.cases, t.record, t.at)|
    ensures SlotOf(CasesAfter(v.cases, t.record, t.at)[i].id) == SlotOf(v.cases[i].id)
    ensures v.cases[i].human.Resolved? ==> CasesAfter(v.cases, t.record, t.at)[i].human.Resolved?
  {
    CaseAt(v.cases, t.record, t.at, i);
    FindAt(v.cases, i);
    hide CasesAfter, Known, Find, DistinctCases;
  }

  lemma {:induction false} KeepsOneOpen(cfg: InterventionConfig, v: InterventionState, t: Timed)
    requires OneOpenPerSlot(v.cases) && DistinctCases(v.cases) && Legal(cfg, v, t)
    ensures OneOpenPerSlot(CasesAfter(v.cases, t.record, t.at))
  {
    var after := CasesAfter(v.cases, t.record, t.at);
    forall i, j | 0 <= i < j < |after| && !after[i].human.Resolved? && !after[j].human.Resolved?
      ensures SlotOf(after[i].id) != SlotOf(after[j].id)
    {
      TwoOpenStayApart(cfg, v, t, i, j);
    }
  }

  lemma {:induction false} TwoOpenStayApart(cfg: InterventionConfig, v: InterventionState, t: Timed, i: nat, j: nat)
    requires OneOpenPerSlot(v.cases) && DistinctCases(v.cases) && Legal(cfg, v, t)
    requires var after := CasesAfter(v.cases, t.record, t.at);
             i < j < |after| && !after[i].human.Resolved? && !after[j].human.Resolved?
    ensures var after := CasesAfter(v.cases, t.record, t.at); SlotOf(after[i].id) != SlotOf(after[j].id)
  {
    var cases := v.cases;
    CaseAt(cases, t.record, t.at, j);
    if j >= |cases| {
      OnlyOneAdded(cases, t.record, t.at, i, j);
      StaysInSlot(cfg, v, t, i);
      InSlot(cases, i);
      FirstOpenFacts(Local(cases, SlotOf(t.record.openedCase)));
    } else {
      StaysInSlot(cfg, v, t, i);
      StaysInSlot(cfg, v, t, j);
    }
    hide CasesAfter, Local, FirstOpen, Known, Find, DistinctCases;
  }

  lemma OnlyOneAdded(cases: seq<CaseView>, r: InterventionRecord, at: Time, i: nat, j: nat)
    requires i < j < |CasesAfter(cases, r, at)|
    ensures i < |cases|
  {
    hide Stepped, Known;
  }

  /** A legal record never takes a notice or the critical severity away from a known case. */
  lemma CaseGrows(cfg: InterventionConfig, v: InterventionState, t: Timed, id: CaseId)
    requires DistinctCases(v.cases) && Legal(cfg, v, t) && Known(v.cases, id)
    ensures var after := CasesAfter(v.cases, t.record, t.at);
            && Known(after, id)
            && |Find(after, id).notices| >= |Find(v.cases, id).notices|
            && (Find(v.cases, id).severity.Critical? ==> Find(after, id).severity.Critical?)
            && Rank(Find(after, id).severity) >= Rank(Find(v.cases, id).severity)
  {
    FindAfter(v.cases, t.record, t.at, id);
    if About(t.record) == Some(id) { LegalEffect(cfg, v, t, id); }
    hide CasesAfter, Known, Find, DistinctCases, Legal, CaseEffect, About, Rank;
  }

  /** A legal record about a known case opens none, and escalates only upwards. */
  lemma LegalEffect(cfg: InterventionConfig, v: InterventionState, t: Timed, id: CaseId)
    requires Legal(cfg, v, t) && Known(v.cases, id) && About(t.record) == Some(id)
    ensures var c := Find(v.cases, id);
            var e := CaseEffect(c, t.record, t.at);
            |e.notices| >= |c.notices| && (c.severity.Critical? ==> e.severity.Critical?) && Rank(e.severity) >= Rank(c.severity)
  {
    hide Known, Find, Local, FirstOpen, ReminderAllowed, CaseIs;
  }

  lemma IntendedCase(cfg: InterventionConfig, v: InterventionState, t: Timed)
    requires DistinctCases(v.cases) && Legal(cfg, v, t) && t.record.NotificationIntended? && PendingOk(v)
    ensures var id := t.record.notice.id;
            var after := CasesAfter(v.cases, t.record, t.at);
            && Known(v.cases, id.caseId) && Known(after, id.caseId)
            && |Find(after, id.caseId).notices| == |Find(v.cases, id.caseId).notices| + 1
            && (id.intent.ReminderIntent? ==> id.ordinal == |Find(v.cases, id.caseId).notices|)
            && (id.intent.EscalationIntent? ==> Find(after, id.caseId).severity.Critical?)
  {
    var id := t.record.notice.id;
    if !id.intent.ReminderIntent? { assert OwedOk(v, v.pending[0]); }
    FindAfter(v.cases, t.record, t.at, id.caseId);
    hide CasesAfter, Local, FirstOpen, Known, Find, DistinctCases;
  }

  /** A legal intent is always a new notification: an id is never intended twice. */
  lemma IntentIsNew(cfg: InterventionConfig, v: InterventionState, t: Timed)
    requires ServiceOk(cfg, v) && Legal(cfg, v, t) && t.record.NotificationIntended?
    ensures t.record.notice.id !in v.notifications
  {
    IntendedCase(cfg, v, t);
    if !t.record.notice.id.intent.ReminderIntent? { assert OwedOk(v, v.pending[0]); }
    hide CasesAfter, Local, FirstOpen, Known, Find, DistinctCases, OneOpenPerSlot, BudgetsOk;
  }

  lemma KeepsNotices(cfg: InterventionConfig, v: InterventionState, t: Timed)
    requires ServiceOk(cfg, v) && Legal(cfg, v, t)
    ensures NoticesOk(Apply(v, t))
  {
    var w := Apply(v, t);
    if t.record.NotificationIntended? { IntendedCase(cfg, v, t); }
    forall id | id in w.notifications
      ensures && Known(w.cases, id.caseId)
              && (id.intent.ReminderIntent? ==> id.ordinal < |Find(w.cases, id.caseId).notices|)
              && (id.intent.EscalationIntent? ==> Find(w.cases, id.caseId).severity.Critical?)
    {
      if id in v.notifications { CaseGrows(cfg, v, t, id.caseId); }
      hide CasesAfter, Local, FirstOpen, Known, Find, DistinctCases, OneOpenPerSlot, BudgetsOk, PendingOk, PendingAfter, Legal;
    }
  }

  lemma {:induction false} PutNew(pending: seq<Timed>, t: Timed)
    requires t.record.NotificationIntended? && forall i :: 0 <= i < |pending| ==> !SameKey(pending[i], t)
    ensures Put(pending, t) == pending + [t]
    decreases |pending|
  {
    if pending != [] {
      assert !SameKey(pending[0], t);
      assert forall i :: 0 <= i < |pending[1..]| ==> pending[1..][i] == pending[i + 1];
      PutNew(pending[1..], t);
    }
  }

  lemma {:induction false} DropNone(pending: seq<Timed>, id: CaseId, intent: Intent)
    requires forall i :: 0 <= i < |pending| ==> !SameIntent(pending[i], id, intent)
    ensures Drop(pending, id, intent) == pending
    decreases |pending|
  {
    if pending != [] {
      assert forall i :: 0 <= i < |pending[1..]| ==> pending[1..][i] == pending[i + 1];
      DropNone(pending[1..], id, intent);
    }
  }

  /** An owed intent stays owed while other records are journaled. */
  lemma StaysOwed(cfg: InterventionConfig, v: InterventionState, t: Timed, owed: Timed)
    requires ServiceOk(cfg, v) && Legal(cfg, v, t) && OwedOk(v, owed)
    requires t.record.NotificationIntended? ==> !SameKey(t, owed)
    ensures OwedOk(Apply(v, t), owed)
  {
    CaseGrows(cfg, v, t, owed.record.notice.id.caseId);
    hide CasesAfter, Local, FirstOpen, Known, Find, DistinctCases, OneOpenPerSlot, BudgetsOk, PendingOk, PendingAfter, Legal, NoticesOk;
  }

  /** The intent a newly opened or escalated case is owed. */
  function NewlyOwed(v: InterventionState, t: Timed): Timed
    requires t.record.CaseOpened? || t.record.CaseEscalated?
    requires Known(CasesAfter(v.cases, t.record, t.at), About(t.record).value)
  {
    Timed(IntentFor(Find(CasesAfter(v.cases, t.record, t.at), About(t.record).value),
                    if t.record.CaseOpened? then OpenedIntent else EscalationIntent, t.record.severity, t.record.evidence), t.at)
  }

  lemma NewlyOwedOk(cfg: InterventionConfig, v: InterventionState, t: Timed)
    requires ServiceOk(cfg, v) && Legal(cfg, v, t) && (t.record.CaseOpened? || t.record.CaseEscalated?)
    ensures Known(CasesAfter(v.cases, t.record, t.at), About(t.record).value)
    ensures OwedOk(Apply(v, t), NewlyOwed(v, t))
    ensures forall i :: 0 <= i < |v.pending| ==> !SameKey(v.pending[i], NewlyOwed(v, t))
    ensures Apply(v, t).pending == v.pending + [NewlyOwed(v, t)]
  {
    var id := About(t.record).value;
    if t.record.CaseOpened? { NewFind(v.cases, t.record, t.at); } else { FindAfter(v.cases, t.record, t.at, id); }
    forall i | 0 <= i < |v.pending| ensures !SameKey(v.pending[i], NewlyOwed(v, t)) { assert OwedOk(v, v.pending[i]); }
    PutNew(v.pending, NewlyOwed(v, t));
    hide CasesAfter, Local, FirstOpen, Known, Find, DistinctCases, OneOpenPerSlot, BudgetsOk, Put;
  }

  lemma KeepsPending(cfg: InterventionConfig, v: InterventionState, t: Timed)
    requires ServiceOk(cfg, v) && Legal(cfg, v, t)
    ensures PendingOk(Apply(v, t))
  {
    var r := t.record;
    if r.NotificationIntended? && !r.notice.id.intent.ReminderIntent? {
      PaidPending(cfg, v, t);
    } else {
      KeepsOldPending(cfg, v, t);
      if r.CaseOpened? || r.CaseEscalated? { NewlyOwedOk(cfg, v, t); }
      hide Apply, OwedOk, ServiceOk, Legal, NewlyOwed;
    }
  }

  /** An intent that is paid is the first owed one; the others stay owed. */
  lemma PaidPending(cfg: InterventionConfig, v: InterventionState, t: Timed)
    requires ServiceOk(cfg, v) && Legal(cfg, v, t) && t.record.NotificationIntended? && !t.record.notice.id.intent.ReminderIntent?
    ensures PendingOk(Apply(v, t))
  {
    var w := Apply(v, t);
    PaidIsFirst(cfg, v, t);
    assert PendingOk(v);
    hide Apply, OwedOk, ServiceOk, Legal, SameKey;
    forall i | 0 <= i < |w.pending| ensures OwedOk(w, w.pending[i]) {
      assert w.pending[i] == v.pending[i + 1];
      StaysOwed(cfg, v, t, v.pending[i + 1]);
    }
    forall i, j | 0 <= i < j < |w.pending| ensures !SameKey(w.pending[i], w.pending[j]) {
      assert w.pending[i] == v.pending[i + 1] && w.pending[j] == v.pending[j + 1];
    }
  }

  lemma PaidIsFirst(cfg: InterventionConfig, v: InterventionState, t: Timed)
    requires ServiceOk(cfg, v) && Legal(cfg, v, t) && t.record.NotificationIntended? && !t.record.notice.id.intent.ReminderIntent?
    ensures v.pending != [] && t == v.pending[0] && Apply(v, t).pending == v.pending[1..]
  {
    hide CasesAfter, NoticesOk, BudgetsOk, DistinctCases, OneOpenPerSlot;
  }

  lemma KeepsOldPending(cfg: InterventionConfig, v: InterventionState, t: Timed)
    requires ServiceOk(cfg, v) && Legal(cfg, v, t)
    requires !(t.record.NotificationIntended? && !t.record.notice.id.intent.ReminderIntent?)
    ensures forall i :: 0 <= i < |v.pending| ==> OwedOk(Apply(v, t), v.pending[i])
    ensures !t.record.CaseOpened? && !t.record.CaseEscalated? ==> Apply(v, t).pending == v.pending
    ensures forall i, j :: 0 <= i < j < |v.pending| ==> !SameKey(v.pending[i], v.pending[j])
  {
    assert PendingOk(v);
    if t.record.NotificationIntended? {
      forall i | 0 <= i < |v.pending| ensures !SameIntent(v.pending[i], t.record.notice.id.caseId, t.record.notice.id.intent) {
        assert OwedOk(v, v.pending[i]);
      }
      DropNone(v.pending, t.record.notice.id.caseId, t.record.notice.id.intent);
    }
    assert !t.record.CaseOpened? && !t.record.CaseEscalated? ==> Apply(v, t).pending == v.pending by { hide CasesAfter, Drop; }
    forall i | 0 <= i < |v.pending| ensures OwedOk(Apply(v, t), v.pending[i]) {
      assert OwedOk(v, v.pending[i]);
      assert t.record.NotificationIntended? ==> !SameKey(t, v.pending[i]);
      hide Apply, OwedOk, ServiceOk, Legal;
      StaysOwed(cfg, v, t, v.pending[i]);
    }
    hide Apply, ServiceOk, Legal, OwedOk;
  }

  lemma {:induction false} KeepsReminderBudget(cfg: InterventionConfig, v: InterventionState, t: Timed, i: nat)
    requires ServiceOk(cfg, v) && Legal(cfg, v, t) && i < |CasesAfter(v.cases, t.record, t.at)|
    ensures CasesAfter(v.cases, t.record, t.at)[i].reminders <= cfg.maxReminders
  {
    CaseAt(v.cases, t.record, t.at, i);
    if i < |v.cases| { FindAt(v.cases, i); }
    hide CasesAfter, Find, Known, NoticesOk, PendingOk, OneOpenPerSlot;
  }

  lemma {:induction false} KeepsAttemptBudget(cfg: InterventionConfig, v: InterventionState, t: Timed, id: NotificationId)
    requires ServiceOk(cfg, v) && Legal(cfg, v, t) && id in Apply(v, t).notifications
    ensures var n := Apply(v, t).notifications[id];
            n.notice.id == id && n.attempts <= cfg.notifyMaxAttempts && (n.state.Delivered? ==> Receipted(n))
  {
    hide CasesAfter, PendingAfter, Find, Known, NoticesOk, PendingOk, OneOpenPerSlot, DistinctCases;
  }

  lemma {:induction false} KeepsBudgets(cfg: InterventionConfig, v: InterventionState, t: Timed)
    requires ServiceOk(cfg, v) && Legal(cfg, v, t)
    ensures BudgetsOk(cfg, Apply(v, t))
  {
    var w := Apply(v, t);
    assert w.cases == CasesAfter(v.cases, t.record, t.at);
    hide CasesAfter, Apply, ServiceOk, Legal;
    forall i | 0 <= i < |w.cases| ensures w.cases[i].reminders <= cfg.maxReminders { KeepsReminderBudget(cfg, v, t, i); }
    forall id | id in w.notifications
      ensures w.notifications[id].notice.id == id && w.notifications[id].attempts <= cfg.notifyMaxAttempts
      ensures w.notifications[id].state.Delivered? ==> Receipted(w.notifications[id])
    {
      KeepsAttemptBudget(cfg, v, t, id);
    }
  }

  /** Every legal record keeps the service consistent. */
  lemma LegalKeeps(cfg: InterventionConfig, v: InterventionState, t: Timed)
    requires ServiceOk(cfg, v) && Legal(cfg, v, t)
    ensures ServiceOk(cfg, Apply(v, t))
  {
    StaysDistinct(v.cases, t.record, t.at);
    KeepsOneOpen(cfg, v, t);
    KeepsNotices(cfg, v, t);
    KeepsPending(cfg, v, t);
    KeepsBudgets(cfg, v, t);
    assert Apply(v, t).cases == CasesAfter(v.cases, t.record, t.at);
    hide CasesAfter, Apply, NoticesOk, PendingOk, BudgetsOk, OneOpenPerSlot, DistinctCases;
  }

  lemma {:induction false} LegalBatchKeeps(cfg: InterventionConfig, v: InterventionState, ts: seq<Timed>)
    requires ServiceOk(cfg, v) && LegalBatch(cfg, v, ts)
    ensures ServiceOk(cfg, ApplyAll(v, ts))
    decreases |ts|
  {
    hide ServiceOk, Legal, Apply;
    if ts != [] {
      LegalKeeps(cfg, v, ts[0]);
      LegalBatchKeeps(cfg, Apply(v, ts[0]), ts[1..]);
    }
  }

  // -- every batch is a chain of legal records

  lemma FoundCase(cases: seq<CaseView>, c: CaseView)
    requires DistinctCases(cases) && c in cases
    ensures Known(cases, c.id) && Find(cases, c.id) == c
  {
    var i :| 0 <= i < |cases| && cases[i] == c;
    FindAt(cases, i);
  }

  lemma HeadLegal(cfg: InterventionConfig, v: InterventionState, items: seq<Observed>, at: Time)
    requires DistinctCases(v.cases) && DistinctSlots(items) && FreshRecords(v.cases, items) != []
    ensures Legal(cfg, v, Timed(FreshRecords(v.cases, items)[0], at))
  {
    if Groups(v.cases, items) != [] {
      var j := FirstGroup(v.cases, items);
      GroupsReplaced(v.cases, v.cases, items, j);
      var slot := ItemSlot(items[j]);
      var inSlot := Local(v.cases, slot);
      assert FreshRecords(v.cases, items)[0] == Group(inSlot, items[j])[0];
      LocalDistinct(v.cases, slot);
      hide Groups, FreshRecords, Local, DistinctSlots, DistinctCases, Known, Find;
      GroupHeadLegal(cfg, v, items[j], at);
    } else {
      var c := ClearsHead(v.cases, SeenOpen(v.cases, items), at);
      FoundCase(v.cases, c);
      assert FreshRecords(v.cases, items)[0] == CaseConditionCleared(c.id);
      hide Groups, FreshRecords, Clears, SeenOpen, DistinctCases, Known, Find;
    }
  }

  lemma GroupHeadLegal(cfg: InterventionConfig, v: InterventionState, item: Observed, at: Time)
    requires DistinctCases(v.cases) && Group(Local(v.cases, ItemSlot(item)), item) != []
    requires forall c :: c in Local(v.cases, ItemSlot(item)) ==> c in v.cases && SlotOf(c.id) == ItemSlot(item)
    ensures Legal(cfg, v, Timed(Group(Local(v.cases, ItemSlot(item)), item)[0], at))
  {
    var inSlot := Local(v.cases, ItemSlot(item));
    FirstOpenFacts(inSlot);
    if FirstOpen(inSlot).None? {
      LocalKnown(v.cases, CaseId(item.kind, item.subject, item.key));
    } else {
      FoundCase(v.cases, FirstOpen(inSlot).value);
    }
    hide Local, FirstOpen, Latest, SameEvidence, Known, Find, DistinctCases;
  }

  /** Journaling one more remaining record: legal, and everything it needs holds again. */
  ghost predicate RemainingStep(cfg: InterventionConfig, v: InterventionState, items: seq<Observed>, t: Timed) {
    var w := Apply(v, t);
    && Legal(cfg, v, t) && Fit(w) && AllAt(w.pending, t.at) && NoReminders(w.pending)
    && Remaining(v, items) != [] && Remaining(w, items) == Remaining(v, items)[1..]
  }

  lemma {:induction false} OwedIsLegal(cfg: InterventionConfig, v: InterventionState, items: seq<Observed>, now: Time)
    requires Fit(v) && AllAt(v.pending, now) && NoReminders(v.pending) && v.pending != []
    ensures RemainingStep(cfg, v, items, Timed(Remaining(v, items)[0], now)) && Remaining(v, items) != []
  {
    NextIs(v, items, now);
    OwedStep(v, items);
    assert Legal(cfg, v, v.pending[0]);
    assert NoReminders(v.pending[1..]);
    hide Apply, Remaining, Fit, Legal, NoReminders;
  }

  lemma {:induction false} FreshIsLegal(cfg: InterventionConfig, v: InterventionState, items: seq<Observed>, now: Time)
    requires Fit(v) && v.pending == [] && DistinctSlots(items) && Remaining(v, items) != []
    ensures RemainingStep(cfg, v, items, Timed(Remaining(v, items)[0], now))
  {
    FreshStep(v, items, now);
    NothingPending(v, items, now);
    assert DistinctCases(v.cases);
    hide Apply, Remaining, Fit, DistinctSlots, Legal, NoReminders, FreshRecords, DistinctCases;
    HeadLegal(cfg, v, items, now);
    FreshOwesNoReminder(v, items, now);
  }

  /** What remains to reconcile is journaled legally, record by record. */
  lemma {:induction false} RemainingLegal(cfg: InterventionConfig, v: InterventionState, items: seq<Observed>, rs: seq<InterventionRecord>, now: Time)
    requires Fit(v) && AllAt(v.pending, now) && DistinctSlots(items) && rs <= Remaining(v, items) && NoReminders(v.pending)
    ensures LegalBatch(cfg, v, Stamp(rs, now))
    decreases |rs|
  {
    if rs != [] {
      var t := Timed(rs[0], now);
      assert rs[0] == Remaining(v, items)[0];
      hide Apply, Remaining, Fit, DistinctSlots, Legal, NoReminders, FreshRecords;
      if v.pending != [] { OwedIsLegal(cfg, v, items, now); } else { FreshIsLegal(cfg, v, items, now); }
      RemainingLegal(cfg, Apply(v, t), items, rs[1..], now);
      assert Stamp(rs, now)[1..] == Stamp(rs[1..], now) && Stamp(rs, now)[0] == t;
    }
  }

  predicate NoReminders(ts: seq<Timed>) {
    forall i :: 0 <= i < |ts| ==> ts[i].record.NotificationIntended? && !ts[i].record.notice.id.intent.ReminderIntent?
  }

  lemma FreshOwesNoReminder(v: InterventionState, items: seq<Observed>, now: Time)
    requires Fit(v) && v.pending == [] && DistinctSlots(items) && FreshRecords(v.cases, items) != []
    ensures NoReminders(Apply(v, Timed(FreshRecords(v.cases, items)[0], now)).pending)
  {
    var rs := FreshRecords(v.cases, items);
    FreshHead(v.cases, items, now, now);
    assert !rs[0].NotificationIntended?;
    hide FreshRecords, HeadSound, CasesAfter, DistinctCases, DistinctSlots, Known, Find, Fit;
  }

  lemma {:induction false} OwedLegal(cfg: InterventionConfig, v: InterventionState)
    requires NoReminders(v.pending)
    ensures LegalBatch(cfg, v, v.pending)
    decreases |v.pending|
  {
    if v.pending != [] {
      var w := Apply(v, v.pending[0]);
      assert w.pending == v.pending[1..] by { hide CasesAfter; }
      assert Legal(cfg, v, v.pending[0]);
      hide Apply, Legal;
      OwedLegal(cfg, w);
    }
  }

  lemma ServiceFits(cfg: InterventionConfig, v: InterventionState)
    requires ServiceOk(cfg, v)
    ensures Fit(v) && NoReminders(v.pending)
  {
    forall i | 0 <= i < |v.pending| ensures v.pending[i].record.NotificationIntended? && !v.pending[i].record.notice.id.intent.ReminderIntent? {
      assert OwedOk(v, v.pending[i]);
    }
  }

  lemma ReconcileLegal(cfg: InterventionConfig, v: InterventionState, items: seq<Observed>, now: Time)
    requires ServiceOk(cfg, v) && DistinctSlots(items)
    ensures LegalBatch(cfg, v, Reconcile(v, items, now))
  {
    ServiceFits(cfg, v);
    NothingPending(v, items, now);
    if v.pending != [] { OwedLegal(cfg, v); }
    else { RemainingLegal(cfg, v, items, Remaining(v, items), now); }
    hide *;
  }

  // -- ticks

  lemma StampSplit(a: seq<InterventionRecord>, b: seq<InterventionRecord>, now: Time)
    ensures Stamp(a + b, now) == Stamp(a, now) + Stamp(b, now)
  {
  }

  lemma StampOne(r: InterventionRecord, rest: seq<InterventionRecord>, now: Time)
    ensures Stamp([r] + rest, now) == [Timed(r, now)] + Stamp(rest, now)
  {
  }

  /** Reminder decisions about different cases do not disturb one another, nor any notification under way. */
  lemma {:induction false} CaseTicksLegal(cfg: InterventionConfig, v: InterventionState, cases: seq<CaseView>, now: Time)
    requires ServiceOk(cfg, v) && DistinctCases(cases)
    requires forall i :: 0 <= i < |cases| ==> Known(v.cases, cases[i].id) && Find(v.cases, cases[i].id) == cases[i]
    ensures var batch := Stamp(CaseTicks(cfg, cases, now), now);
            && LegalBatch(cfg, v, batch)
            && forall id :: id in v.notifications ==> id in ApplyAll(v, batch).notifications && ApplyAll(v, batch).notifications[id] == v.notifications[id]
    decreases |cases|
  {
    if cases != [] {
      var here := CaseTick(cfg, cases[0], now);
      var rest := CaseTicks(cfg, cases[1..], now);
      assert forall i :: 0 <= i < |cases[1..]| ==> cases[1..][i] == cases[i + 1];
      if here == [] {
        assert [] + rest == rest;
        hide ServiceOk, Legal, Apply, CaseTick, Known, Find, DistinctCases;
        CaseTicksLegal(cfg, v, cases[1..], now);
      } else {
        var t := Timed(here[0], now);
        assert here == [here[0]];
        CaseTickLegal(cfg, v, cases[0], now);
        LegalKeeps(cfg, v, t);
        forall i | 1 <= i < |cases| ensures Known(Apply(v, t).cases, cases[i].id) && Find(Apply(v, t).cases, cases[i].id) == cases[i] {
          FindAfter(v.cases, t.record, now, cases[i].id);
          hide CaseTick, CasesAfter, Find, Known, ServiceOk, Legal;
        }
        StampOne(here[0], rest, now);
        hide ServiceOk, Legal, Apply, CaseTick, Known, Find, DistinctCases;
        CaseTicksLegal(cfg, Apply(v, t), cases[1..], now);
      }
    }
  }

  lemma CaseTickLegal(cfg: InterventionConfig, v: InterventionState, c: CaseView, now: Time)
    requires ServiceOk(cfg, v) && CaseTick(cfg, c, now) != [] && Known(v.cases, c.id) && Find(v.cases, c.id) == c
    ensures var t := Timed(CaseTick(cfg, c, now)[0], now);
            && |CaseTick(cfg, c, now)| == 1 && Legal(cfg, v, t) && About(t.record) == Some(c.id) && !t.record.CaseOpened?
            && forall id :: id in v.notifications ==> id in Apply(v, t).notifications && Apply(v, t).notifications[id] == v.notifications[id]
  {
    var t := Timed(CaseTick(cfg, c, now)[0], now);
    assert Legal(cfg, v, t) by { hide ServiceOk; }
    if t.record.NotificationIntended? { IntentIsNew(cfg, v, t); }
    hide ServiceOk, Legal, CasesAfter, PendingAfter;
  }

  predicate DistinctIds(ids: seq<NotificationId>) { forall i, j :: 0 <= i < j < |ids| ==> ids[i] != ids[j] }

  /** The ticks of different notifications do not disturb one another. */
  lemma {:induction false} DeliveryTicksLegal(cfg: InterventionConfig, seen: InterventionState, v: InterventionState, ids: seq<NotificationId>, now: Time)
    requires DistinctIds(ids)
    requires forall i :: 0 <= i < |ids| ==> ids[i] in seen.notifications && ids[i] in v.notifications
                                            && v.notifications[ids[i]] == seen.notifications[ids[i]]
    ensures LegalBatch(cfg, v, Stamp(DeliveryTicks(cfg, seen, ids), now))
    decreases |ids|
  {
    if ids != [] {
      var here := DeliveryTick(cfg, ids[0], seen.notifications[ids[0]]);
      var rest := DeliveryTicks(cfg, seen, ids[1..]);
      DeliveryTickLegal(cfg, v, ids[0], now);
      StampSplit(here, rest, now);
      var after := ApplyAll(v, Stamp(here, now));
      assert forall i :: 0 <= i < |ids[1..]| ==> ids[1..][i] == ids[i + 1];
      hide LegalBatch, ApplyAll, DeliveryTick, DeliveryTicks;
      DeliveryTicksLegal(cfg, seen, after, ids[1..], now);
      LegalConcat(cfg, v, Stamp(here, now), Stamp(rest, now));
      assert DeliveryTicks(cfg, seen, ids) == here + rest by { DeliveryUnfolds(cfg, seen, ids); }
    }
  }

  lemma DeliveryUnfolds(cfg: InterventionConfig, seen: InterventionState, ids: seq<NotificationId>)
    requires ids != [] && ids[0] in seen.notifications
    ensures DeliveryTicks(cfg, seen, ids) == DeliveryTick(cfg, ids[0], seen.notifications[ids[0]]) + DeliveryTicks(cfg, seen, ids[1..])
  {
  }

  lemma DeliveryTickLegal(cfg: InterventionConfig, v: InterventionState, id: NotificationId, now: Time)
    requires id in v.notifications
    ensures var batch := Stamp(DeliveryTick(cfg, id, v.notifications[id]), now);
            && LegalBatch(cfg, v, batch)
            && forall x :: x in v.notifications && x != id ==>
                 x in ApplyAll(v, batch).notifications && ApplyAll(v, batch).notifications[x] == v.notifications[x]
  {
    var rs := DeliveryTick(cfg, id, v.notifications[id]);
    var batch := Stamp(rs, now);
    hide CasesAfter, PendingAfter;
    if |rs| == 1 {
      assert batch == [batch[0]];
      TwoStep(cfg, v, batch);
    } else if |rs| == 2 {
      assert batch == [batch[0], batch[1]];
      TwoStep(cfg, v, batch);
    }
  }

  lemma TwoStep(cfg: InterventionConfig, v: InterventionState, batch: seq<Timed>)
    requires 1 <= |batch| <= 2
    ensures |batch| == 1 ==> ApplyAll(v, batch) == Apply(v, batch[0]) && LegalBatch(cfg, v, batch) == Legal(cfg, v, batch[0])
    ensures |batch| == 2 ==> ApplyAll(v, batch) == Apply(Apply(v, batch[0]), batch[1])
                             && LegalBatch(cfg, v, batch) == (Legal(cfg, v, batch[0]) && Legal(cfg, Apply(v, batch[0]), batch[1]))
  {
    hide Apply, Legal;
    if |batch| == 1 {
      assert batch[1..] == [];
    } else {
      var w := Apply(v, batch[0]);
      assert batch[1..][1..] == [] && batch[1..][0] == batch[1];
      assert ApplyAll(w, batch[1..]) == ApplyAll(Apply(w, batch[1]), []);
      assert LegalBatch(cfg, w, batch[1..]) == (Legal(cfg, w, batch[1]) && LegalBatch(cfg, Apply(w, batch[1]), []));
    }
  }

  lemma TickLegal(cfg: InterventionConfig, v: InterventionState, ids: seq<NotificationId>, now: Time)
    requires ServiceOk(cfg, v) && DistinctIds(ids) && forall i :: 0 <= i < |ids| ==> ids[i] in v.notifications
    ensures LegalBatch(cfg, v, DecideTick(cfg, v, ids, now))
  {
    forall i | 0 <= i < |v.cases| ensures Known(v.cases, v.cases[i].id) && Find(v.cases, v.cases[i].id) == v.cases[i] { FindAt(v.cases, i); }
    CaseTicksLegal(cfg, v, v.cases, now);
    var reminders := Stamp(CaseTicks(cfg, v.cases, now), now);
    hide ServiceOk, LegalBatch, ApplyAll, CaseTicks, DeliveryTicks, Known, Find;
    DeliveryTicksLegal(cfg, v, ApplyAll(v, reminders), ids, now);
    StampSplit(CaseTicks(cfg, v.cases, now), DeliveryTicks(cfg, v, ids), now);
    LegalConcat(cfg, v, reminders, Stamp(DeliveryTicks(cfg, v, ids), now));
  }

  // -- runs

  datatype ServiceStep =
    | Begin(now: Time)
    | Repair(now: Time)
    | ReconcileWith(items: seq<Observed>, now: Time)
    | TickAt(ids: seq<NotificationId>, now: Time)
    | Acknowledge(acknowledgedCase: CaseId, operator: string, text: string, valid: bool, now: Time)
    | Resolve(resolvedCase: CaseId, operator: string, text: string, valid: bool, now: Time)
    | Attempt(attempted: NotificationId, now: Time)
    | Answer(answered: NotificationId, result: AttemptResult, now: Time)

  /** The batch a step appends; ids listed for a tick are the view's own, and a result answers the open attempt. */
  function StepBatch(cfg: InterventionConfig, v: InterventionState, step: ServiceStep): seq<Timed> {
    match step
    case Begin(now) => [Timed(ServiceStarted, now)]
    case Repair(_) => v.pending
    case ReconcileWith(items, now) => if DistinctSlots(items) then Reconcile(v, items, now) else []
    case TickAt(ids, now) =>
      if DistinctIds(ids) && forall i :: 0 <= i < |ids| ==> ids[i] in v.notifications then DecideTick(cfg, v, ids, now) else []
    case Acknowledge(id, operator, text, valid, now) => Stamp(DecideAcknowledge(v, id, operator, text, valid).1, now)
    case Resolve(id, operator, text, valid, now) => Stamp(DecideResolve(v, id, operator, text, valid).1, now)
    case Attempt(id, now) =>
      if id in v.notifications && Due(cfg, v.notifications[id], now)
      then [Timed(NotificationAttempted(id, v.notifications[id].attempts + 1), now)] else []
    case Answer(id, result, now) =>
      if id in v.notifications && v.notifications[id].state.Attempting? then [Timed(NotificationResult(id, result), now)] else []
  }

  datatype ServiceChoice = ServiceChoice(step: ServiceStep, persisted: nat)

  function Kept(batch: seq<Timed>, persisted: nat): seq<Timed> {
    if persisted >= |batch| then batch else batch[..persisted]
  }

  function ServiceRun(cfg: InterventionConfig, choices: seq<ServiceChoice>): seq<Timed> {
    if choices == [] then []
    else
      var journal := ServiceRun(cfg, choices[..|choices| - 1]);
      var c := choices[|choices| - 1];
      journal + Kept(StepBatch(cfg, ApplyAll(NO_CASES, journal), c.step), c.persisted)
  }

  lemma SingleLegal(cfg: InterventionConfig, v: InterventionState, batch: seq<Timed>)
    requires batch == [] || (|batch| == 1 && Legal(cfg, v, batch[0]))
    ensures LegalBatch(cfg, v, batch)
  {
    if batch != [] { TwoStep(cfg, v, batch); }
    hide Legal;
  }

  lemma StepLegal(cfg: InterventionConfig, v: InterventionState, step: ServiceStep)
    requires ServiceOk(cfg, v)
    ensures LegalBatch(cfg, v, StepBatch(cfg, v, step))
  {
    hide ServiceOk, LegalBatch, Reconcile, DecideTick, DistinctSlots, DistinctIds;
    match step
    case Repair(_) =>
      ServiceFits(cfg, v);
      OwedLegal(cfg, v);
    case ReconcileWith(items, now) =>
      if DistinctSlots(items) { ReconcileLegal(cfg, v, items, now); } else { SingleLegal(cfg, v, []); }
    case TickAt(ids, now) =>
      if DistinctIds(ids) && forall i :: 0 <= i < |ids| ==> ids[i] in v.notifications { TickLegal(cfg, v, ids, now); }
      else { SingleLegal(cfg, v, []); }
    case _ =>
      OneRecordLegal(cfg, v, step);
      SingleLegal(cfg, v, StepBatch(cfg, v, step));
  }

  lemma OneRecordLegal(cfg: InterventionConfig, v: InterventionState, step: ServiceStep)
    requires !step.Repair? && !step.ReconcileWith? && !step.TickAt?
    ensures var batch := StepBatch(cfg, v, step); batch == [] || (|batch| == 1 && Legal(cfg, v, batch[0]))
  {
    hide ServiceOk, Find, Known;
  }

  lemma EmptyOk(cfg: InterventionConfig)
    ensures ServiceOk(cfg, NO_CASES)
  {
  }

  /** Main invariant: every run, torn anywhere, is a chain of legal records over a consistent view. */
  lemma {:induction false} RunLegal(cfg: InterventionConfig, choices: seq<ServiceChoice>)
    ensures LegalBatch(cfg, NO_CASES, ServiceRun(cfg, choices)) && ServiceOk(cfg, ApplyAll(NO_CASES, ServiceRun(cfg, choices)))
  {
    EmptyOk(cfg);
    if choices != [] {
      var front := choices[..|choices| - 1];
      RunLegal(cfg, front);
      var journal := ServiceRun(cfg, front);
      var c := choices[|choices| - 1];
      var v := ApplyAll(NO_CASES, journal);
      var batch := StepBatch(cfg, v, c.step);
      hide StepBatch, LegalBatch, ApplyAll, ServiceOk;
      StepLegal(cfg, v, c.step);
      if c.persisted < |batch| { LegalPrefix(cfg, v, batch, c.persisted); }
      LegalConcat(cfg, NO_CASES, journal, Kept(batch, c.persisted));
      ApplyConcat(NO_CASES, journal, Kept(batch, c.persisted));
      LegalBatchKeeps(cfg, v, Kept(batch, c.persisted));
    }
  }

  // -- reading a journal at an index

  ghost predicate LegalJournal(cfg: InterventionConfig, journal: seq<Timed>) { LegalBatch(cfg, NO_CASES, journal) }

  function At(journal: seq<Timed>, n: nat): InterventionState
    requires n <= |journal|
  {
    ApplyAll(NO_CASES, journal[..n])
  }

  lemma {:induction false} LastLegal(cfg: InterventionConfig, v: InterventionState, front: seq<Timed>, last: Timed)
    requires LegalBatch(cfg, v, front + [last])
    ensures Legal(cfg, ApplyAll(v, front), last)
    decreases |front|
  {
    hide Legal, Apply;
    if front == [] {
      assert front + [last] == [last];
    } else {
      assert (front + [last])[1..] == front[1..] + [last];
      LastLegal(cfg, Apply(v, front[0]), front[1..], last);
    }
  }

  lemma StepAt(cfg: InterventionConfig, journal: seq<Timed>, i: nat)
    requires LegalJournal(cfg, journal) && i < |journal|
    ensures ServiceOk(cfg, At(journal, i)) && Legal(cfg, At(journal, i), journal[i])
    ensures At(journal, i + 1) == Apply(At(journal, i), journal[i])
  {
    EmptyOk(cfg);
    hide LegalBatch, ApplyAll, ServiceOk, Legal, Apply;
    LegalPrefix(cfg, NO_CASES, journal, i);
    LegalPrefix(cfg, NO_CASES, journal, i + 1);
    LegalBatchKeeps(cfg, NO_CASES, journal[..i]);
    assert journal[..i + 1] == journal[..i] + [journal[i]];
    LastLegal(cfg, NO_CASES, journal[..i], journal[i]);
    ApplyConcat(NO_CASES, journal[..i], [journal[i]]);
    OneStep(ApplyAll(NO_CASES, journal[..i]), journal[i]);
  }

  lemma OneStep(v: InterventionState, t: Timed)
    ensures ApplyAll(v, [t]) == Apply(v, t)
  {
    hide Apply;
    assert [t][1..] == [];
  }

  lemma OkAt(cfg: InterventionConfig, choices: seq<ServiceChoice>, n: nat)
    requires n <= |ServiceRun(cfg, choices)|
    ensures LegalJournal(cfg, ServiceRun(cfg, choices)) && ServiceOk(cfg, At(ServiceRun(cfg, choices), n))
  {
    EmptyOk(cfg);
    RunLegal(cfg, choices);
    hide LegalBatch, ApplyAll, ServiceOk, ServiceRun;
    LegalPrefix(cfg, NO_CASES, ServiceRun(cfg, choices), n);
    LegalBatchKeeps(cfg, NO_CASES, ServiceRun(cfg, choices)[..n]);
  }

  /** At every durable prefix a condition has at most one unresolved case, and every owed intent is owed once. */
  lemma OneCasePerCondition(cfg: InterventionConfig, choices: seq<ServiceChoice>, n: nat, c: CaseView, d: CaseView)
    requires n <= |ServiceRun(cfg, choices)|
    requires c in At(ServiceRun(cfg, choices), n).cases && d in At(ServiceRun(cfg, choices), n).cases
    requires !c.human.Resolved? && !d.human.Resolved? && SlotOf(c.id) == SlotOf(d.id)
    ensures c == d
  {
    hide ServiceRun, At, NoticesOk, PendingOk, BudgetsOk, OneOpenPerSlot, DistinctCases;
    OkAt(cfg, choices, n);
    OneOpenInSlot(At(ServiceRun(cfg, choices), n).cases, c, d);
  }

  lemma OneOpenInSlot(cases: seq<CaseView>, c: CaseView, d: CaseView)
    requires OneOpenPerSlot(cases) && c in cases && d in cases
    requires !c.human.Resolved? && !d.human.Resolved? && SlotOf(c.id) == SlotOf(d.id)
    ensures c == d
  {
    var i :| 0 <= i < |cases| && cases[i] == c;
    var j :| 0 <= j < |cases| && cases[j] == d;
  }

  // -- reminders

  predicate RemindsOf(t: Timed, id: CaseId) { t.record.NotificationIntended? && t.record.notice.id.caseId == id && t.record.notice.id.intent.ReminderIntent? }

  predicate NotifiedAfter(v: InterventionState, id: CaseId, from: Time) {
    Known(v.cases, id) && Find(v.cases, id).lastIntentAt.Some? && Find(v.cases, id).lastIntentAt.value >= from
  }

  lemma NotifiedStep(cfg: InterventionConfig, v: InterventionState, t: Timed, id: CaseId, from: Time)
    requires ServiceOk(cfg, v) && Legal(cfg, v, t)
    requires NotifiedAfter(v, id, from) || (RemindsOf(t, id) && t.at == from)
    ensures NotifiedAfter(Apply(v, t), id, from)
  {
    assert !(t.record.CaseOpened? && NotifiedAfter(v, id, from) && t.record.openedCase == id);
    assert DistinctCases(v.cases);
    assert Apply(v, t).cases == CasesAfter(v.cases, t.record, t.at);
    assert Known(v.cases, id);
    hide ServiceOk, Legal, Apply, CasesAfter, Find, Known, CaseEffect;
    FindAfter(v.cases, t.record, t.at, id);
    if !t.record.CaseOpened? && About(t.record) == Some(id) { EffectNotified(Find(v.cases, id), t.record, t.at, from); }
  }

  lemma EffectNotified(c: CaseView, r: InterventionRecord, at: Time, from: Time)
    requires !r.CaseOpened?
    requires (c.lastIntentAt.Some? && c.lastIntentAt.value >= from) || (r.NotificationIntended? && at >= from)
    ensures CaseEffect(c, r, at).lastIntentAt.Some? && CaseEffect(c, r, at).lastIntentAt.value >= from
  {
  }

  lemma {:induction false} NotifiedSince(cfg: InterventionConfig, journal: seq<Timed>, i: nat, n: nat, id: CaseId)
    requires LegalJournal(cfg, journal) && i < n <= |journal| && RemindsOf(journal[i], id)
    ensures NotifiedAfter(At(journal, n), id, journal[i].at)
    decreases n
  {
    hide *;
    StepAt(cfg, journal, n - 1);
    if i < n - 1 { NotifiedSince(cfg, journal, i, n - 1, id); }
    NotifiedStep(cfg, At(journal, n - 1), journal[n - 1], id, journal[i].at);
  }

  lemma ReminderWaits(cfg: InterventionConfig, v: InterventionState, t: Timed, id: CaseId, from: Time)
    requires Legal(cfg, v, t) && RemindsOf(t, id) && NotifiedAfter(v, id, from)
    ensures t.at - from >= cfg.reminderInterval
    ensures CaseIs(v, id, Open)
  {
    hide Find, Known;
  }

  /** Any two reminders of a case are a full reminder interval apart, and each meets a case nobody has taken. */
  lemma RemindersSpaced(cfg: InterventionConfig, choices: seq<ServiceChoice>, i: nat, j: nat, id: CaseId)
    requires i < j < |ServiceRun(cfg, choices)|
    requires RemindsOf(ServiceRun(cfg, choices)[i], id) && RemindsOf(ServiceRun(cfg, choices)[j], id)
    ensures ServiceRun(cfg, choices)[j].at - ServiceRun(cfg, choices)[i].at >= cfg.reminderInterval
    ensures CaseIs(At(ServiceRun(cfg, choices), j), id, Open)
  {
    var journal := ServiceRun(cfg, choices);
    hide *;
    OkAt(cfg, choices, j);
    NotifiedSince(cfg, journal, i, j, id);
    StepAt(cfg, journal, j);
    ReminderWaits(cfg, At(journal, j), journal[j], id, journal[i].at);
  }

  function ReminderCount(journal: seq<Timed>, id: CaseId): nat {
    if journal == [] then 0
    else ReminderCount(journal[..|journal| - 1], id) + if RemindsOf(journal[|journal| - 1], id) then 1 else 0
  }

  lemma ReminderSnoc(journal: seq<Timed>, n: nat, id: CaseId)
    requires 0 < n <= |journal|
    ensures ReminderCount(journal[..n], id) == ReminderCount(journal[..n - 1], id) + if RemindsOf(journal[n - 1], id) then 1 else 0
  {
    assert journal[..n][..n - 1] == journal[..n - 1];
  }

  lemma ReminderStep(cfg: InterventionConfig, v: InterventionState, t: Timed, id: CaseId)
    requires ServiceOk(cfg, v) && Legal(cfg, v, t)
    ensures RemindsOf(t, id) ==> Known(v.cases, id)
    ensures Known(v.cases, id) ==> Known(Apply(v, t).cases, id)
    ensures Known(v.cases, id) ==>
              Find(Apply(v, t).cases, id).reminders == Find(v.cases, id).reminders + if RemindsOf(t, id) then 1 else 0
    ensures !Known(v.cases, id) && Known(Apply(v, t).cases, id) ==> Find(Apply(v, t).cases, id).reminders == 0
  {
    hide CasesAfter, Find, Known, PendingAfter, NotificationsAfter, NoticesOk, PendingOk, BudgetsOk, DistinctCases, Legal, CaseEffect, RemindsOf;
    if RemindsOf(t, id) { RemindedIsKnown(cfg, v, t, id); }
    if Known(v.cases, id) {
      FindAfter(v.cases, t.record, t.at, id);
      EffectCountsReminders(cfg, v, t, id);
    } else if Known(CasesAfter(v.cases, t.record, t.at), id) {
      OnlyOpened(v.cases, t.record, t.at, id);
    }
  }

  lemma RemindedIsKnown(cfg: InterventionConfig, v: InterventionState, t: Timed, id: CaseId)
    requires Legal(cfg, v, t) && RemindsOf(t, id)
    ensures Known(v.cases, id)
  {
    hide Known, Find, Local, FirstOpen;
  }

  lemma EffectCountsReminders(cfg: InterventionConfig, v: InterventionState, t: Timed, id: CaseId)
    requires Legal(cfg, v, t) && Known(v.cases, id)
    ensures var c := Find(v.cases, id);
            (if About(t.record) == Some(id) then CaseEffect(c, t.record, t.at) else c).reminders == c.reminders + if RemindsOf(t, id) then 1 else 0
  {
    hide Known, Find, Local, FirstOpen, ReminderAllowed, CaseIs;
  }

  lemma OnlyOpened(cases: seq<CaseView>, r: InterventionRecord, at: Time, id: CaseId)
    requires !Known(cases, id) && Known(CasesAfter(cases, r, at), id)
    ensures Find(CasesAfter(cases, r, at), id).reminders == 0
  {
    var after := CasesAfter(cases, r, at);
    var i :| 0 <= i < |after| && after[i].id == id;
    CaseAt(cases, r, at, i);
    OldIdKnown(cases, r, at, i);
    NewFind(cases, r, at);
    hide Stepped, Find;
  }

  lemma OldIdKnown(cases: seq<CaseView>, r: InterventionRecord, at: Time, i: nat)
    requires i < |CasesAfter(cases, r, at)|
    ensures i < |cases| ==> Known(cases, CasesAfter(cases, r, at)[i].id)
  {
    SteppedIds(cases, r, at);
    assert i < |cases| ==> CasesAfter(cases, r, at)[i].id == cases[i].id;
    hide Stepped;
  }

  lemma {:induction false} RemindersCounted(cfg: InterventionConfig, journal: seq<Timed>, n: nat, id: CaseId)
    requires LegalJournal(cfg, journal) && n <= |journal|
    ensures if Known(At(journal, n).cases, id) then Find(At(journal, n).cases, id).reminders == ReminderCount(journal[..n], id)
            else ReminderCount(journal[..n], id) == 0
    decreases n
  {
    if n == 0 {
      assert journal[..0] == [];
    } else {
      hide *;
      RemindersCounted(cfg, journal, n - 1, id);
      StepAt(cfg, journal, n - 1);
      ReminderSnoc(journal, n, id);
      ReminderStep(cfg, At(journal, n - 1), journal[n - 1], id);
    }
  }

  /** Every run reminds of a case at most the configured number of times. */
  lemma RemindersBounded(cfg: InterventionConfig, choices: seq<ServiceChoice>, n: nat, id: CaseId)
    requires n <= |ServiceRun(cfg, choices)|
    ensures ReminderCount(ServiceRun(cfg, choices)[..n], id) <= cfg.maxReminders
  {
    var journal := ServiceRun(cfg, choices);
    OkAt(cfg, choices, n);
    RemindersCounted(cfg, journal, n, id);
    if Known(At(journal, n).cases, id) {
      assert Find(At(journal, n).cases, id) in At(journal, n).cases;
    }
    hide ServiceRun, At, LegalJournal, ReminderCount, NoticesOk, PendingOk, DistinctCases, OneOpenPerSlot;
  }

  // -- notifications

  /** No notification id is ever intended twice, so a delivered one is never reset. */
  lemma IntendedOnce(cfg: InterventionConfig, choices: seq<ServiceChoice>, i: nat, j: nat)
    requires i < j < |ServiceRun(cfg, choices)|
    requires ServiceRun(cfg, choices)[i].record.NotificationIntended? && ServiceRun(cfg, choices)[j].record.NotificationIntended?
    ensures ServiceRun(cfg, choices)[i].record.notice.id != ServiceRun(cfg, choices)[j].record.notice.id
  {
    var journal := ServiceRun(cfg, choices);
    hide *;
    OkAt(cfg, choices, j);
    StepAt(cfg, journal, i);
    StepAt(cfg, journal, j);
    IntentIsNew(cfg, At(journal, j), journal[j]);
    IntendedIsKept(cfg, At(journal, i), journal[i]);
    NotificationsStay(cfg, journal, i + 1, j, journal[i].record.notice.id);
  }

  lemma IntendedIsKept(cfg: InterventionConfig, v: InterventionState, t: Timed)
    requires t.record.NotificationIntended?
    ensures t.record.notice.id in Apply(v, t).notifications
  {
    hide CasesAfter, PendingAfter;
  }

  /** Delivered and exhausted notifications never change again. */
  predicate Settled(n: NotificationView) { n.state.Delivered? || n.state.Exhausted? }

  lemma NotificationStep(cfg: InterventionConfig, v: InterventionState, t: Timed, id: NotificationId)
    requires ServiceOk(cfg, v) && Legal(cfg, v, t) && id in v.notifications
    ensures id in Apply(v, t).notifications && (Settled(v.notifications[id]) ==> Apply(v, t).notifications[id] == v.notifications[id])
  {
    if t.record.NotificationIntended? { IntentIsNew(cfg, v, t); }
    hide CasesAfter, PendingAfter, ServiceOk, ReminderAllowed;
  }

  lemma {:induction false} NotificationsStay(cfg: InterventionConfig, journal: seq<Timed>, a: nat, b: nat, id: NotificationId)
    requires LegalJournal(cfg, journal) && a <= b <= |journal| && id in At(journal, a).notifications
    ensures id in At(journal, b).notifications
    ensures Settled(At(journal, a).notifications[id]) ==> At(journal, b).notifications[id] == At(journal, a).notifications[id]
    decreases b
  {
    hide *;
    if a < b {
      NotificationsStay(cfg, journal, a, b - 1, id);
      StepAt(cfg, journal, b - 1);
      NotificationStep(cfg, At(journal, b - 1), journal[b - 1], id);
    }
  }

  /** DELIVERED and EXHAUSTED absorb: in every later state of the run the notification is the same. */
  lemma SettledAbsorbs(cfg: InterventionConfig, choices: seq<ServiceChoice>, a: nat, b: nat, id: NotificationId)
    requires a <= b <= |ServiceRun(cfg, choices)| && id in At(ServiceRun(cfg, choices), a).notifications
    requires Settled(At(ServiceRun(cfg, choices), a).notifications[id])
    ensures id in At(ServiceRun(cfg, choices), b).notifications
    ensures At(ServiceRun(cfg, choices), b).notifications[id] == At(ServiceRun(cfg, choices), a).notifications[id]
  {
    hide *;
    OkAt(cfg, choices, b);
    NotificationsStay(cfg, ServiceRun(cfg, choices), a, b, id);
  }
}
