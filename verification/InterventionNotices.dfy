/** Nobody is left uncalled: each opening and escalation is announced or still owed, and silence beyond the interval is answered. */
module InterventionNotices {
  import opened Common
  import opened TaskContracts
  import opened InterventionViews
  import opened InterventionDecisions
  import opened InterventionConvergence
  import opened InterventionRuns

  // -- openings and escalations

  /** The notice announces this opening or escalation: the same case, severity, evidence and time. */
  predicate Announces(t: Timed, x: Timed)
    requires t.record.CaseOpened? || t.record.CaseEscalated?
  {
    && x.at == t.at && x.record.NotificationIntended?
    && x.record.notice.severity == t.record.severity && x.record.notice.evidence == t.record.evidence
    && (if t.record.CaseOpened? then x.record.notice.id == NotificationId(t.record.openedCase, OpenedIntent, 0)
                                     && x.record.notice.robotId == t.record.robotId && x.record.notice.human == Open
        else x.record.notice.id.caseId == t.record.escalated && x.record.notice.id.intent == EscalationIntent)
  }

  lemma OwedAtOnce(cfg: InterventionConfig, v: InterventionState, t: Timed)
    requires ServiceOk(cfg, v) && Legal(cfg, v, t) && (t.record.CaseOpened? || t.record.CaseEscalated?)
    ensures exists x :: x in Apply(v, t).pending && Announces(t, x)
  {
    NewlyOwedOk(cfg, v, t);
    var x := NewlyOwed(v, t);
    if t.record.CaseOpened? { NewFind(v.cases, t.record, t.at); }
    hide Apply, ServiceOk, Legal, CasesAfter, Find, Known, OwedOk, SameKey;
    assert x in v.pending + [x];
    assert Announces(t, x);
  }

  /** One record pays the first owed notice, or leaves all owed. */
  lemma OwedStays(cfg: InterventionConfig, v: InterventionState, t: Timed, x: Timed)
    requires ServiceOk(cfg, v) && Legal(cfg, v, t) && x in v.pending
    ensures x in Apply(v, t).pending || t == x
  {
    if t.record.NotificationIntended? && !t.record.notice.id.intent.ReminderIntent? {
      PaidIsFirst(cfg, v, t);
    } else if t.record.CaseOpened? || t.record.CaseEscalated? {
      NewlyOwedOk(cfg, v, t);
    } else {
      KeepsOldPending(cfg, v, t);
    }
    hide Apply, ServiceOk, Legal, CasesAfter, Find, Known, OwedOk, SameKey, NewlyOwed;
  }

  lemma {:induction false} OwedUntilPaid(cfg: InterventionConfig, journal: seq<Timed>, m: nat, n: nat, x: Timed)
    requires LegalJournal(cfg, journal) && m <= n <= |journal| && x in At(journal, m).pending
    ensures x in At(journal, n).pending || x in journal[m..n]
    decreases n
  {
    hide *;
    if m < n {
      OwedUntilPaid(cfg, journal, m, n - 1, x);
      StepAt(cfg, journal, n - 1);
      if x in At(journal, n - 1).pending { OwedStays(cfg, At(journal, n - 1), journal[n - 1], x); }
      assert journal[m..n] == journal[m..n - 1] + [journal[n - 1]];
    }
  }

  /** In every run an opening or escalation is owed its notice until the journal holds it. */
  lemma CalledOrOwed(cfg: InterventionConfig, choices: seq<ServiceChoice>, i: nat, n: nat) returns (x: Timed)
    requires i < n <= |ServiceRun(cfg, choices)|
    requires ServiceRun(cfg, choices)[i].record.CaseOpened? || ServiceRun(cfg, choices)[i].record.CaseEscalated?
    ensures var journal := ServiceRun(cfg, choices);
            Announces(journal[i], x) && (x in At(journal, n).pending || x in journal[i..n])
  {
    var journal := ServiceRun(cfg, choices);
    hide *;
    OkAt(cfg, choices, 0);
    StepAt(cfg, journal, i);
    OwedAtOnce(cfg, At(journal, i), journal[i]);
    x :| x in At(journal, i + 1).pending && Announces(journal[i], x);
    OwedUntilPaid(cfg, journal, i + 1, n, x);
    assert journal[i..n] == [journal[i]] + journal[i + 1..n];
  }

  // -- why reconciliation says anything

  predicate InSlot(c: CaseView, x: Observed) { c.id.kind == x.kind && c.id.subject == x.subject }

  /** No unresolved case of the condition. */
  predicate NoneOpen(cases: seq<CaseView>, x: Observed) { forall c :: c in cases && InSlot(c, x) ==> c.human == Resolved }

  /** The case of the condition that was opened last. */
  predicate LastOpened(cases: seq<CaseView>, x: Observed, c: CaseView) {
    c in cases && InSlot(c, x) && forall d :: d in cases && InSlot(d, x) ==> d.openedAt <= c.openedAt
  }

  /** No observed condition is the case's. */
  predicate Unobserved(items: seq<Observed>, c: CaseView) { forall x :: x in items ==> !InSlot(c, x) }

  /** The record is one the observed condition calls for. */
  ghost predicate CausedBy(cases: seq<CaseView>, x: Observed, r: InterventionRecord) {
    match r
    case CaseOpened(id, robot, severity, evidence, previous) =>
      && NoneOpen(cases, x) && id == CaseId(x.kind, x.subject, x.key) && robot == x.robotId && severity == x.severity && evidence == x.evidence
      && (forall c :: c in cases ==> c.id != id)
      && (match previous
          case Some(p) => exists c: CaseView :: c.id == p && LastOpened(cases, x, c)
          case None => forall c :: c in cases ==> !InSlot(c, x))
    case NotificationIntended(n) =>
      && n.severity == x.severity && n.evidence == x.evidence
      && (if n.id.intent == OpenedIntent then NoneOpen(cases, x) && n.id == NotificationId(CaseId(x.kind, x.subject, x.key), OpenedIntent, 0)
          else n.id.intent == EscalationIntent && exists c :: c in cases && c.id == n.id.caseId && Rises(c, x))
    case CaseEscalated(id, severity, key, evidence) =>
      severity == x.severity && key == x.key && evidence == x.evidence && exists c :: c in cases && c.id == id && Rises(c, x)
    case CaseConditionReturned(id, key, evidence) =>
      key == x.key && evidence == x.evidence && exists c :: c in cases && c.id == id && InSlot(c, x) && c.human != Resolved && !c.active
    case CaseEvidenceAdded(id, key, evidence) =>
      && key == x.key && evidence == x.evidence
      && exists c :: c in cases && c.id == id && InSlot(c, x) && c.human != Resolved && c.active && c.key != key && !Rises(c, x)
    case _ => false
  }

  /** The condition is worse than its open case says. */
  predicate Rises(c: CaseView, x: Observed) { InSlot(c, x) && c.human != Resolved && c.severity == Warning && x.severity == Critical }

  /** Each record has its cause: a condition that calls for it, or an open case whose condition is gone. */
  ghost predicate Caused(cases: seq<CaseView>, items: seq<Observed>, r: InterventionRecord) {
    || (exists x :: x in items && CausedBy(cases, x, r))
    || (r.CaseConditionCleared? && exists c :: c in cases && c.id == r.cleared && c.human != Resolved && c.active && Unobserved(items, c))
  }

  lemma {:induction false} LocalMeaning(cases: seq<CaseView>, x: Observed, c: CaseView)
    ensures c in Local(cases, ItemSlot(x)) <==> c in cases && InSlot(c, x)
    decreases |cases|
  {
    if cases != [] { LocalMeaning(cases[1..], x, c); }
  }

  lemma {:induction false} FirstOpenMeaning(cases: seq<CaseView>)
    ensures FirstOpen(cases).Some? ==> FirstOpen(cases).value in cases && FirstOpen(cases).value.human != Resolved
    ensures FirstOpen(cases).None? ==> forall c :: c in cases ==> c.human == Resolved
    decreases |cases|
  {
    if cases != [] {
      FirstOpenMeaning(cases[1..]);
      assert forall c :: c in cases ==> c == cases[0] || c in cases[1..];
    }
  }

  lemma {:induction false} LatestMeaning(cases: seq<CaseView>)
    ensures Latest(cases).None? <==> cases == []
    ensures Latest(cases).Some? ==> Latest(cases).value in cases && forall d :: d in cases ==> d.openedAt <= Latest(cases).value.openedAt
    decreases |cases|
  {
    if cases != [] {
      LatestMeaning(cases[..|cases| - 1]);
      assert forall d :: d in cases ==> d == cases[|cases| - 1] || d in cases[..|cases| - 1];
    }
  }

  /** The same, for one slot of all the cases. */
  /** Of several cases opened at the same time the one listed last is taken. */
  lemma {:induction false} LatestListedLast(cases: seq<CaseView>) returns (i: nat)
    requires cases != []
    ensures i < |cases| && Latest(cases) == Some(cases[i]) && forall j :: i < j < |cases| ==> cases[j].openedAt < cases[i].openedAt
  {
    i := |cases| - 1;
    var front := cases[..|cases| - 1];
    if front != [] && Latest(cases) != Some(cases[i]) {
      i := LatestListedLast(front);
    }
  }

  lemma SlotMeaning(cases: seq<CaseView>, x: Observed)
    ensures var inSlot := Local(cases, ItemSlot(x));
            && (forall c :: c in inSlot <==> c in cases && InSlot(c, x))
            && (FirstOpen(inSlot).None? ==> NoneOpen(cases, x))
            && (FirstOpen(inSlot).Some? ==> FirstOpen(inSlot).value in cases && InSlot(FirstOpen(inSlot).value, x) && FirstOpen(inSlot).value.human != Resolved)
            && (Latest(inSlot).None? ==> forall c :: c in cases ==> !InSlot(c, x))
            && (Latest(inSlot).Some? ==> LastOpened(cases, x, Latest(inSlot).value))
  {
    var inSlot := Local(cases, ItemSlot(x));
    forall c ensures c in inSlot <==> c in cases && InSlot(c, x) { LocalMeaning(cases, x, c); }
    FirstOpenMeaning(inSlot);
    LatestMeaning(inSlot);
    hide Local, FirstOpen, Latest, InSlot;
    assert Latest(inSlot).None? ==> forall c :: c in inSlot ==> false;
  }

  lemma KnownMeaning(cases: seq<CaseView>, id: CaseId)
    ensures Known(cases, id) <==> exists c :: c in cases && c.id == id
  {
    if Known(cases, id) {
      var i :| 0 <= i < |cases| && cases[i].id == id;
      assert cases[i] in cases;
    }
    if c :| c in cases && c.id == id {
      var i :| 0 <= i < |cases| && cases[i] == c;
    }
  }

  /** An id of the condition is known in its slot exactly if it is known at all. */
  lemma IdOfSlot(cases: seq<CaseView>, x: Observed)
    ensures var id := CaseId(x.kind, x.subject, x.key);
            Known(Local(cases, ItemSlot(x)), id) <==> exists c :: c in cases && c.id == id
  {
    var inSlot, id := Local(cases, ItemSlot(x)), CaseId(x.kind, x.subject, x.key);
    KnownMeaning(inSlot, id);
    hide Known, Local;
    forall c: CaseView | c.id == id ensures c in inSlot <==> c in cases { LocalMeaning(cases, x, c); }
    if c :| c in cases && c.id == id { assert c in inSlot; }
    if c :| c in inSlot && c.id == id { assert c in cases; }
  }

  lemma OpeningCaused(cases: seq<CaseView>, x: Observed, r: InterventionRecord)
    requires FirstOpen(Local(cases, ItemSlot(x))).None? && r in Opening(Local(cases, ItemSlot(x)), x)
    ensures CausedBy(cases, x, r)
  {
    SlotMeaning(cases, x);
    IdOfSlot(cases, x);
    hide Local, FirstOpen, Latest, SameEvidence, Known, NoneOpen, InSlot;
  }

  lemma UpdatingCaused(cases: seq<CaseView>, x: Observed, c: CaseView, r: InterventionRecord)
    requires c in cases && InSlot(c, x) && c.human != Resolved && r in Updating(c, x)
    ensures CausedBy(cases, x, r)
  {
    hide NoneOpen;
  }

  lemma GroupCaused(cases: seq<CaseView>, x: Observed, r: InterventionRecord)
    requires r in Group(Local(cases, ItemSlot(x)), x)
    ensures CausedBy(cases, x, r)
  {
    hide CausedBy, Local, FirstOpen, Opening, Updating, Latest;
    SlotMeaning(cases, x);
    var current := FirstOpen(Local(cases, ItemSlot(x)));
    if current.None? { OpeningCaused(cases, x, r); } else { UpdatingCaused(cases, x, current.value, r); }
  }

  lemma {:induction false} GroupsCaused(cases: seq<CaseView>, items: seq<Observed>, r: InterventionRecord)
    requires r in Groups(cases, items)
    ensures exists x :: x in items && CausedBy(cases, x, r)
    decreases |items|
  {
    hide CausedBy, Group, Local;
    if r in Group(Local(cases, ItemSlot(items[0])), items[0]) {
      GroupCaused(cases, items[0], r);
    } else {
      GroupsCaused(cases, items[1..], r);
      var x :| x in items[1..] && CausedBy(cases, x, r);
      assert x in items;
    }
  }

  lemma {:induction false} ClearsCaused(cases: seq<CaseView>, seen: set<CaseId>, r: InterventionRecord)
    requires r in Clears(cases, seen)
    ensures r.CaseConditionCleared? && exists c :: c in cases && c.id == r.cleared && c.human != Resolved && c.active && c.id !in seen
    decreases |cases|
  {
    var c := cases[0];
    if !(r == CaseConditionCleared(c.id) && c.human != Resolved && c.id !in seen && c.active) {
      ClearsCaused(cases[1..], seen, r);
      var d :| d in cases[1..] && d.id == r.cleared && d.human != Resolved && d.active && d.id !in seen;
      assert d in cases;
    }
  }

  lemma {:induction false} OpenIsSeen(cases: seq<CaseView>, items: seq<Observed>, c: CaseView, x: Observed)
    requires OneOpenPerSlot(cases) && c in cases && c.human != Resolved && x in items && InSlot(c, x)
    ensures c.id in SeenOpen(cases, items)
    decreases |items|
  {
    hide Local, FirstOpen, OneOpenPerSlot;
    if x == items[0] {
      SlotMeaning(cases, x);
      assert !NoneOpen(cases, x);
      OneOpenInSlot(cases, c, FirstOpen(Local(cases, ItemSlot(x))).value);
    } else {
      OpenIsSeen(cases, items[1..], c, x);
    }
  }

  /** Reconciliation says nothing without a cause. */
  lemma ReconcileCaused(v: InterventionState, items: seq<Observed>, now: Time, t: Timed)
    requires OneOpenPerSlot(v.cases) && t in Reconcile(v, items, now)
    ensures t in v.pending || (t.at == now && Caused(v.cases, items, t.record))
  {
    if v.pending == [] {
      StampMeaning(FreshRecords(v.cases, items), now, t);
      var seen := SeenOpen(v.cases, items);
      hide Stamp, Groups, Clears, SeenOpen, CausedBy, OneOpenPerSlot;
      if t.record in Groups(v.cases, items) {
        GroupsCaused(v.cases, items, t.record);
      } else {
        ClearsCaused(v.cases, seen, t.record);
        var c :| c in v.cases && c.id == t.record.cleared && c.human != Resolved && c.active && c.id !in seen;
        forall x | x in items ensures !InSlot(c, x) { if InSlot(c, x) { OpenIsSeen(v.cases, items, c, x); } }
      }
    }
  }

  // -- reminders

  /** An open case nobody took, unanswered for a full interval. */
  predicate Unanswered(cfg: InterventionConfig, c: CaseView, now: Time) {
    c.human == Open && !c.remindersExhausted && c.lastIntentAt.Some? && now >= c.lastIntentAt.value + cfg.reminderInterval
  }

  predicate RemindsCase(r: InterventionRecord, c: CaseView) {
    && r.NotificationIntended? && r.notice.id == NotificationId(c.id, ReminderIntent, |c.notices|)
    && r.notice.severity == c.severity && r.notice.evidence == c.evidence && r.notice.robotId == c.robotId && r.notice.human == Open
  }

  lemma CaseTickMeaning(cfg: InterventionConfig, c: CaseView, now: Time, r: InterventionRecord)
    ensures r in CaseTick(cfg, c, now) <==>
              Unanswered(cfg, c, now) && if c.reminders < cfg.maxReminders then RemindsCase(r, c) else r == RemindersExhausted(c.id)
  {
  }

  lemma {:induction false} CaseTicksMeaning(cfg: InterventionConfig, cases: seq<CaseView>, now: Time, r: InterventionRecord)
    ensures r in CaseTicks(cfg, cases, now) <==> exists c :: c in cases && r in CaseTick(cfg, c, now)
    decreases |cases|
  {
    hide CaseTick;
    if cases != [] {
      CaseTicksMeaning(cfg, cases[1..], now, r);
      assert forall c :: c in cases <==> c == cases[0] || c in cases[1..];
    }
  }

  // -- notifications without budget

  lemma DeliveryTickMeaning(cfg: InterventionConfig, id: NotificationId, n: NotificationView, r: InterventionRecord)
    ensures r in DeliveryTick(cfg, id, n) <==>
              n.attempts >= cfg.notifyMaxAttempts && n.state in {Attempting, UnknownOutcome, FailedAttempt}
              && (r == NotificationExhausted(id) || (n.state == Attempting && r == NotificationResult(id, ResultUnknown)))
  {
  }

  lemma {:induction false} DeliveryTicksMeaning(cfg: InterventionConfig, v: InterventionState, ids: seq<NotificationId>, r: InterventionRecord)
    ensures r in DeliveryTicks(cfg, v, ids) <==> exists id :: id in ids && id in v.notifications && r in DeliveryTick(cfg, id, v.notifications[id])
    decreases |ids|
  {
    hide DeliveryTick;
    if ids != [] {
      DeliveryTicksMeaning(cfg, v, ids[1..], r);
      assert forall id :: id in ids <==> id == ids[0] || id in ids[1..];
    }
  }

  /** What a clock tick journals: a reminder for each unanswered case within its budget, the end of its reminders beyond it, and the
      end of each notification whose attempts are spent, its open attempt answered as unknown. */
  predicate Ticked(cfg: InterventionConfig, v: InterventionState, ids: seq<NotificationId>, now: Time, r: InterventionRecord) {
    || (exists c :: c in v.cases && Unanswered(cfg, c, now)
                    && if c.reminders < cfg.maxReminders then RemindsCase(r, c) else r == RemindersExhausted(c.id))
    || (exists id :: id in ids && id in v.notifications && v.notifications[id].attempts >= cfg.notifyMaxAttempts
                     && v.notifications[id].state in {Attempting, UnknownOutcome, FailedAttempt}
                     && (r == NotificationExhausted(id) || (v.notifications[id].state == Attempting && r == NotificationResult(id, ResultUnknown))))
  }

  lemma StampMeaning(rs: seq<InterventionRecord>, now: Time, t: Timed)
    ensures t in Stamp(rs, now) <==> t.at == now && t.record in rs
  {
    var ts := Stamp(rs, now);
    if t.at == now && t.record in rs {
      var i :| 0 <= i < |rs| && rs[i] == t.record;
      assert ts[i] == t;
    }
    if t in ts {
      var i :| 0 <= i < |ts| && ts[i] == t;
    }
  }

  /** A tick journals exactly what the cases and notifications call for. */
  lemma TickExactly(cfg: InterventionConfig, v: InterventionState, ids: seq<NotificationId>, now: Time, t: Timed)
    ensures t in DecideTick(cfg, v, ids, now) <==> t.at == now && Ticked(cfg, v, ids, now, t.record)
  {
    var r := t.record;
    StampMeaning(CaseTicks(cfg, v.cases, now) + DeliveryTicks(cfg, v, ids), now, t);
    CaseTicksMeaning(cfg, v.cases, now, r);
    DeliveryTicksMeaning(cfg, v, ids, r);
    hide Stamp, CaseTicks, DeliveryTicks;
    forall c | c in v.cases { CaseTickMeaning(cfg, c, now, r); }
    forall id | id in ids && id in v.notifications { DeliveryTickMeaning(cfg, id, v.notifications[id], r); }
    hide CaseTick, DeliveryTick, RemindsCase, Unanswered;
  }

  // -- operators

  /** An operator takes an open case, and closes one that was taken; everything else is refused and changes no case. */
  lemma OperatorsExactly(v: InterventionState, id: CaseId, operator: string, text: string, valid: bool)
    requires DistinctCases(v.cases)
    ensures var (taken, rs) := DecideAcknowledge(v, id, operator, text, valid);
            && (taken <==> valid && exists c :: c in v.cases && c.id == id && c.human == Open)
            && rs == [if taken then CaseAcknowledged(id, operator, text) else OperatorActionRejected]
    ensures var (closed, rs) := DecideResolve(v, id, operator, text, valid);
            && (closed <==> valid && exists c :: c in v.cases && c.id == id && c.human == Acknowledged)
            && rs == [if closed then CaseResolved(id, operator, text) else OperatorActionRejected]
  {
    KnownMeaning(v.cases, id);
    if Known(v.cases, id) {
      forall c | c in v.cases && c.id == id ensures c == Find(v.cases, id) {
        var i :| 0 <= i < |v.cases| && v.cases[i] == c;
        var j :| 0 <= j < |v.cases| && v.cases[j] == Find(v.cases, id);
      }
    }
    hide Find, Known;
  }

  // -- when the next attempt is due

  /** When the sender last heard of the notification: its open attempt, or else the last result. */
  function LastHeard(n: NotificationView): Option<Time> { if n.state.Attempting? then n.lastAttemptAt else n.lastResultAt }

  /** Settled or spent notifications are never due, a new one is at once, and any other from exactly the retry interval after it was last heard of, for as long as nothing happens. */
  lemma DueExactly(cfg: InterventionConfig, n: NotificationView)
    ensures n.state.Delivered? || n.state.Exhausted? || n.attempts >= cfg.notifyMaxAttempts ==> forall now :: !Due(cfg, n, now)
    ensures n.state.Pending? && n.attempts < cfg.notifyMaxAttempts ==> forall now :: Due(cfg, n, now)
    ensures (n.state.Attempting? || n.state.UnknownOutcome? || n.state.FailedAttempt?) && n.attempts < cfg.notifyMaxAttempts && LastHeard(n).Some? ==>
              forall now :: Due(cfg, n, now) <==> now >= LastHeard(n).value + cfg.notifyRetryInterval
  {
  }
}
