/** Whole reconciliations: torn anywhere and run again, they journal the very same records. */
module InterventionReconcile {
  import opened Common
  import opened TaskContracts
  import opened InterventionViews
  import opened InterventionDecisions
  import opened InterventionConvergence

  function Records(ts: seq<Timed>): (rs: seq<InterventionRecord>)
    ensures |rs| == |ts|
  {
    if ts == [] then [] else [ts[0].record] + Records(ts[1..])
  }

  function CasesAfterAll(cases: seq<CaseView>, ts: seq<Timed>): seq<CaseView>
    decreases |ts|
  {
    if ts == [] then cases else CasesAfterAll(CasesAfter(cases, ts[0].record, ts[0].at), ts[1..])
  }

  /** Everything reconciliation against these items still has to journal: owed intents, then news. */
  function Remaining(v: InterventionState, items: seq<Observed>): seq<InterventionRecord> {
    Records(v.pending) + FreshRecords(CasesAfterAll(v.cases, v.pending), items)
  }

  predicate AllIntents(ts: seq<Timed>) { forall i :: 0 <= i < |ts| ==> ts[i].record.NotificationIntended? }

  predicate AllAt(ts: seq<Timed>, at: Time) { forall i :: 0 <= i < |ts| ==> ts[i].at == at }

  ghost predicate Fit(v: InterventionState) { DistinctCases(v.cases) && AllIntents(v.pending) }

  lemma OwedStep(v: InterventionState, items: seq<Observed>)
    requires Fit(v) && v.pending != []
    ensures var w := Apply(v, v.pending[0]);
            && Fit(w) && w.pending == v.pending[1..]
            && Remaining(v, items)[0] == v.pending[0].record && Remaining(w, items) == Remaining(v, items)[1..]
  {
    StaysDistinct(v.cases, v.pending[0].record, v.pending[0].at);
    assert (Records(v.pending) + FreshRecords(CasesAfterAll(v.cases, v.pending), items))[1..]
        == Records(v.pending)[1..] + FreshRecords(CasesAfterAll(v.cases, v.pending), items);
    hide CasesAfter, FreshRecords, DistinctCases, NotificationsAfter;
  }

  /** The head of a fresh batch leaves owed exactly the notification that follows it. */
  lemma HeadOwes(cases: seq<CaseView>, rs: seq<InterventionRecord>, at: Time)
    requires HeadSound(cases, rs, at, at)
    ensures PendingAfter([], CasesAfter(cases, rs[0], at), rs[0], at) == if HeadLength(rs[0]) == 2 then [Timed(rs[1], at)] else []
  {
    hide CasesAfter, DistinctCases, Find, Known;
  }

  /** The batch that remains once its head is applied and its notification owed. */
  lemma HeadLeaves(cases: seq<CaseView>, rs: seq<InterventionRecord>, items: seq<Observed>, at: Time)
    requires rs != [] && HeadLength(rs[0]) <= |rs|
    requires FreshRecords(HeadAfter(cases, rs, at, at), items) == rs[HeadLength(rs[0])..]
    ensures var one := CasesAfter(cases, rs[0], at);
            var owed := if HeadLength(rs[0]) == 2 then [Timed(rs[1], at)] else [];
            Records(owed) + FreshRecords(CasesAfterAll(one, owed), items) == rs[1..]
  {
    hide FreshRecords, CasesAfter;
    if HeadLength(rs[0]) == 2 {
      var owed := [Timed(rs[1], at)];
      assert owed[1..] == [] && Records(owed) == [rs[1]];
      assert CasesAfterAll(CasesAfter(cases, rs[0], at), owed) == CasesAfter(CasesAfter(cases, rs[0], at), rs[1], at);
      assert rs[1..] == [rs[1]] + rs[2..];
    } else {
      assert [] + rs[1..] == rs[1..];
    }
  }

  lemma FreshStep(v: InterventionState, items: seq<Observed>, at: Time)
    requires Fit(v) && v.pending == [] && DistinctSlots(items) && Remaining(v, items) != []
    ensures var w := Apply(v, Timed(Remaining(v, items)[0], at));
            Fit(w) && AllAt(w.pending, at) && Remaining(w, items) == Remaining(v, items)[1..]
  {
    var rs := FreshRecords(v.cases, items);
    assert Remaining(v, items) == rs by { assert [] + rs == rs; }
    FreshHead(v.cases, items, at, at);
    StaysDistinct(v.cases, rs[0], at);
    HeadOwes(v.cases, rs, at);
    HeadLeaves(v.cases, rs, items, at);
    hide FreshRecords, CasesAfter, NotificationsAfter, DistinctCases, DistinctSlots, PendingAfter, CasesAfterAll, Records, HeadSound, HeadLength, HeadAfter;
    assert HeadSound(v.cases, rs, at, at) ==> (HeadLength(rs[0]) == 2 ==> rs[1].NotificationIntended?) by { SecondIsIntent(v.cases, rs, at); }
  }

  lemma SecondIsIntent(cases: seq<CaseView>, rs: seq<InterventionRecord>, at: Time)
    ensures HeadSound(cases, rs, at, at) ==> HeadLength(rs[0]) <= |rs| && (HeadLength(rs[0]) == 2 ==> rs[1].NotificationIntended?)
  {
    hide CasesAfter, Owed, DistinctCases;
  }

  /** Appending the next remaining records, all at one time, leaves exactly the others. */
  lemma {:induction false} Progress(v: InterventionState, items: seq<Observed>, rs: seq<InterventionRecord>, now: Time)
    requires Fit(v) && AllAt(v.pending, now) && DistinctSlots(items) && rs <= Remaining(v, items)
    ensures var w := ApplyAll(v, Stamp(rs, now));
            Fit(w) && AllAt(w.pending, now) && Remaining(w, items) == Remaining(v, items)[|rs|..]
    decreases |rs|
  {
    hide Apply, Remaining, Fit, DistinctSlots, AllAt;
    if rs != [] {
      var t := Timed(rs[0], now);
      NextStep(v, items, now);
      Progress(Apply(v, t), items, rs[1..], now);
      assert Stamp(rs, now)[1..] == Stamp(rs[1..], now) && Stamp(rs, now)[0] == t;
    }
  }

  /** The first remaining record, appended, leaves the others. */
  lemma NextStep(v: InterventionState, items: seq<Observed>, now: Time)
    requires Fit(v) && AllAt(v.pending, now) && DistinctSlots(items) && Remaining(v, items) != []
    ensures var w := Apply(v, Timed(Remaining(v, items)[0], now));
            Fit(w) && AllAt(w.pending, now) && Remaining(w, items) == Remaining(v, items)[1..]
  {
    hide Apply, Remaining, Fit, DistinctSlots, AllAt;
    NextIs(v, items, now);
    if v.pending != [] { OwedStep(v, items); } else { FreshStep(v, items, now); }
  }

  lemma NextIs(v: InterventionState, items: seq<Observed>, now: Time)
    requires AllAt(v.pending, now)
    ensures v.pending != [] ==> Remaining(v, items) != [] && Timed(Remaining(v, items)[0], now) == v.pending[0]
    ensures v.pending != [] ==> AllAt(v.pending[1..], now)
  {
    hide FreshRecords, CasesAfterAll;
  }

  lemma {:induction false} RecordsOfStamp(rs: seq<InterventionRecord>, now: Time)
    ensures Records(Stamp(rs, now)) == rs
    decreases |rs|
  {
    if rs != [] {
      RecordsOfStamp(rs[1..], now);
      assert Stamp(rs, now)[1..] == Stamp(rs[1..], now);
    }
  }

  lemma {:induction false} StampOfRecords(ts: seq<Timed>, now: Time)
    requires AllAt(ts, now)
    ensures Stamp(Records(ts), now) == ts
    decreases |ts|
  {
    if ts != [] {
      StampOfRecords(ts[1..], now);
      assert Stamp(Records(ts), now)[1..] == Stamp(Records(ts)[1..], now);
      assert ts == [ts[0]] + ts[1..];
      assert Stamp(Records(ts), now) == [Stamp(Records(ts), now)[0]] + Stamp(Records(ts), now)[1..];
    }
  }

  /** Journaling every owed intent leaves none owed. */
  lemma {:induction false} PendingDrains(v: InterventionState, items: seq<Observed>)
    requires Fit(v)
    ensures ApplyAll(v, v.pending).pending == [] && Fit(ApplyAll(v, v.pending))
    ensures Remaining(ApplyAll(v, v.pending), items) == Remaining(v, items)[|v.pending|..]
    decreases |v.pending|
  {
    if v.pending != [] {
      OwedStep(v, items);
      hide Apply, Remaining, Fit;
      PendingDrains(Apply(v, v.pending[0]), items);
    }
  }

  lemma NothingPending(v: InterventionState, items: seq<Observed>, now: Time)
    ensures v.pending == [] ==> Remaining(v, items) == FreshRecords(v.cases, items) && Reconcile(v, items, now) == Stamp(Remaining(v, items), now)
    ensures Remaining(v, items) == [] ==> v.pending == [] && Reconcile(v, items, now) == []
  {
    hide FreshRecords;
    assert [] + FreshRecords(v.cases, items) == FreshRecords(v.cases, items);
    if v.pending != [] { assert Remaining(v, items)[0] == v.pending[0].record; }
  }

  // -- the theorems

  /** A batch torn after any line, reconciled again (owed intents first), journals exactly the records of the whole batch. */
  lemma TornReconcileSameRecords(v: InterventionState, items: seq<Observed>, now: Time, k: nat, later: Time, last: Time)
    requires Fit(v) && v.pending == [] && DistinctSlots(items) && k <= |Reconcile(v, items, now)|
    ensures var batch := Reconcile(v, items, now);
            var torn := ApplyAll(v, batch[..k]);
            var second := Reconcile(torn, items, later);
            var repaired := ApplyAll(torn, second);
            var third := Reconcile(repaired, items, last);
            && Records(batch[..k]) + Records(second) + Records(third) == Records(batch)
            && forall t :: Reconcile(ApplyAll(repaired, third), items, t) == []
  {
    var all := Remaining(v, items);
    NothingPending(v, items, now);
    assert k <= |all|;
    assert AllAt(v.pending, now);
    hide Remaining, Reconcile, ApplyAll, Stamp, Records, Fit, AllAt, DistinctSlots;
    StampPrefix(all, k, now);
    RecordsOfStamp(all, now);
    RecordsOfStamp(all[..k], now);
    Progress(v, items, all[..k], now);
    RestReconciles(ApplyAll(v, Stamp(all, now)[..k]), items, later, last);
    PutTogether(all, k, Records(Reconcile(ApplyAll(v, Stamp(all, now)[..k]), items, later)),
                Records(Reconcile(ApplyAll(ApplyAll(v, Stamp(all, now)[..k]), Reconcile(ApplyAll(v, Stamp(all, now)[..k]), items, later)), items, last)));
  }

  lemma StampPrefix(rs: seq<InterventionRecord>, k: nat, now: Time)
    requires k <= |rs|
    ensures |Stamp(rs, now)| == |rs| && Stamp(rs, now)[..k] == Stamp(rs[..k], now)
  {
  }

  lemma PutTogether(all: seq<InterventionRecord>, k: nat, second: seq<InterventionRecord>, third: seq<InterventionRecord>)
    requires k <= |all| && second + third == all[|all[..k]|..]
    ensures all[..k] + second + third == all
  {
    assert all[..k] + (second + third) == all[..k] + second + third;
  }

  /** What reconciling twice more journals and leaves. */
  ghost predicate Completes(torn: InterventionState, items: seq<Observed>, later: Time, last: Time) {
    var second := Reconcile(torn, items, later);
    var repaired := ApplyAll(torn, second);
    var third := Reconcile(repaired, items, last);
    && Records(second) + Records(third) == Remaining(torn, items)
    && forall t :: Reconcile(ApplyAll(repaired, third), items, t) == []
  }

  lemma SilentAfter(v: InterventionState, items: seq<Observed>)
    requires Remaining(v, items) == []
    ensures forall t :: Reconcile(v, items, t) == []
  {
    forall t ensures Reconcile(v, items, t) == [] { NothingPending(v, items, t); }
    hide Remaining, Reconcile;
  }

  /** With nothing owed, one reconciliation says everything that remains. */
  lemma OneReconciliation(v: InterventionState, items: seq<Observed>, now: Time)
    requires Fit(v) && v.pending == [] && DistinctSlots(items)
    ensures var rs := Reconcile(v, items, now);
            Records(rs) == Remaining(v, items) && Remaining(ApplyAll(v, rs), items) == []
  {
    hide Remaining, Reconcile, ApplyAll, Fit, DistinctSlots, Records;
    var rest := Remaining(v, items);
    NothingPending(v, items, now);
    RecordsOfStamp(rest, now);
    Progress(v, items, rest, now);
  }

  lemma RestReconciles(torn: InterventionState, items: seq<Observed>, later: Time, last: Time)
    requires Fit(torn) && DistinctSlots(items)
    ensures Completes(torn, items, later, last)
  {
    var second := Reconcile(torn, items, later);
    var repaired := ApplyAll(torn, second);
    assert torn.pending != [] ==> second == torn.pending by { hide Fit, DistinctSlots, ApplyAll, Remaining; }
    hide Remaining, Reconcile, ApplyAll, Fit, DistinctSlots, Records;
    if torn.pending == [] {
      OneReconciliation(torn, items, later);
      SilentAfter(repaired, items);
      assert Records([]) == [] by { RecordsOfStamp([], last); StampNothing(last); }
      assert Remaining(torn, items) + [] == Remaining(torn, items);
      assert ApplyAll(repaired, []) == repaired by { ApplyNothing(repaired); }
    } else {
      PendingDrains(torn, items);
      OneReconciliation(repaired, items, last);
      RemainingSplits(torn, items);
      SilentAfter(ApplyAll(repaired, Reconcile(repaired, items, last)), items);
    }
  }

  lemma StampNothing(now: Time)
    ensures Stamp([], now) == []
  {
  }

  lemma ApplyNothing(v: InterventionState)
    ensures ApplyAll(v, []) == v
  {
  }

  lemma RemainingSplits(v: InterventionState, items: seq<Observed>)
    ensures Records(v.pending) + Remaining(v, items)[|v.pending|..] == Remaining(v, items)
  {
    hide FreshRecords, CasesAfterAll;
  }

  // -- the state reached

  /** Equal but for when it was opened and last notified. */
  predicate AlikeCase(c: CaseView, d: CaseView) { c.(openedAt := 0, lastIntentAt := None) == d.(openedAt := 0, lastIntentAt := None) }

  predicate AlikeCases(a: seq<CaseView>, b: seq<CaseView>) {
    |a| == |b| && forall i :: 0 <= i < |a| ==> AlikeCase(a[i], b[i])
  }

  predicate AlikeNotifications(m: map<NotificationId, NotificationView>, n: map<NotificationId, NotificationView>) {
    m.Keys == n.Keys && forall id :: id in m ==> m[id].(intendedAt := 0) == n[id].(intendedAt := 0)
  }

  /** Same cases in the same order, same severities, same notification ids, same owed intents: only recorded times differ. */
  ghost predicate Alike(v: InterventionState, w: InterventionState) {
    AlikeCases(v.cases, w.cases) && AlikeNotifications(v.notifications, w.notifications) && Records(v.pending) == Records(w.pending)
  }

  /** The kinds of record reconciliation appends. */
  predicate Reconciles(r: InterventionRecord) {
    || r.CaseOpened? || r.CaseEvidenceAdded? || r.CaseEscalated? || r.CaseConditionCleared? || r.CaseConditionReturned?
    || r.NotificationIntended?
  }

  lemma AlikeEffect(c: CaseView, d: CaseView, r: InterventionRecord, at: Time, later: Time)
    requires AlikeCase(c, d) && Reconciles(r)
    ensures AlikeCase(CaseEffect(c, r, at), CaseEffect(d, r, later))
  {
  }

  lemma {:induction false} AlikeStepped(a: seq<CaseView>, b: seq<CaseView>, r: InterventionRecord, at: Time, later: Time)
    requires AlikeCases(a, b) && Reconciles(r)
    ensures AlikeCases(Stepped(a, r, at), Stepped(b, r, later))
    decreases |a|
  {
    if a != [] {
      assert AlikeCase(a[0], b[0]);
      AlikeEffect(a[0], b[0], r, at, later);
      hide CaseEffect, AlikeCase;
      assert a[0].id == b[0].id by { AlikeIds(a[0], b[0]); }
      AlikeStepped(a[1..], b[1..], r, at, later);
    }
  }

  lemma AlikeIds(c: CaseView, d: CaseView)
    requires AlikeCase(c, d)
    ensures c.id == d.id && |c.notices| == |d.notices| && c.robotId == d.robotId && c.human == d.human
  {
    var bare := c.(openedAt := 0, lastIntentAt := None);
    assert bare.id == c.id && bare.notices == c.notices && bare.robotId == c.robotId && bare.human == c.human;
  }

  lemma {:induction false} AlikeKnown(a: seq<CaseView>, b: seq<CaseView>, id: CaseId)
    requires AlikeCases(a, b)
    ensures Known(a, id) == Known(b, id)
    ensures Known(a, id) ==> AlikeCase(Find(a, id), Find(b, id))
    decreases |a|
  {
    if a != [] {
      AlikeIds(a[0], b[0]);
      KnownFront(a, id);
      KnownFront(b, id);
      AlikeKnown(a[1..], b[1..], id);
      hide Known, AlikeCase;
    }
  }

  lemma AlikeAfter(a: seq<CaseView>, b: seq<CaseView>, r: InterventionRecord, at: Time, later: Time)
    requires AlikeCases(a, b) && Reconciles(r)
    ensures AlikeCases(CasesAfter(a, r, at), CasesAfter(b, r, later))
  {
    AlikeStepped(a, b, r, at, later);
    if r.CaseOpened? {
      AlikeKnown(a, b, r.openedCase);
      assert AlikeCase(NewCase(r, at), NewCase(r, later));
    }
    hide Stepped, Known, AlikeCase;
  }

  lemma {:induction false} PutRecords(p: seq<Timed>, q: seq<Timed>, t: Timed, u: Timed)
    requires Records(p) == Records(q) && t.record == u.record && t.record.NotificationIntended?
    ensures Records(Put(p, t)) == Records(Put(q, u))
    decreases |p|
  {
    if p != [] {
      assert p[0].record == q[0].record by { assert Records(p)[0] == Records(q)[0]; }
      assert Records(p[1..]) == Records(q[1..]) by { assert Records(p)[1..] == Records(q)[1..]; }
      PutRecords(p[1..], q[1..], t, u);
    }
  }

  lemma {:induction false} DropRecords(p: seq<Timed>, q: seq<Timed>, id: CaseId, intent: Intent)
    requires Records(p) == Records(q)
    ensures Records(Drop(p, id, intent)) == Records(Drop(q, id, intent))
    decreases |p|
  {
    if p != [] {
      assert p[0].record == q[0].record by { assert Records(p)[0] == Records(q)[0]; }
      assert Records(p[1..]) == Records(q[1..]) by { assert Records(p)[1..] == Records(q)[1..]; }
      DropRecords(p[1..], q[1..], id, intent);
    }
  }

  lemma AlikePending(p: seq<Timed>, q: seq<Timed>, a: seq<CaseView>, b: seq<CaseView>, r: InterventionRecord, at: Time, later: Time)
    requires Records(p) == Records(q) && AlikeCases(a, b)
    ensures Records(PendingAfter(p, a, r, at)) == Records(PendingAfter(q, b, r, later))
  {
    if r.CaseOpened? || r.CaseEscalated? {
      var id := About(r).value;
      AlikeKnown(a, b, id);
      if Known(a, id) {
        AlikeIds(Find(a, id), Find(b, id));
        var intent := if r.CaseOpened? then OpenedIntent else EscalationIntent;
        var t := Timed(IntentFor(Find(a, id), intent, r.severity, r.evidence), at);
        PutRecords(p, q, t, Timed(t.record, later));
      }
    } else if r.NotificationIntended? {
      DropRecords(p, q, r.notice.id.caseId, r.notice.id.intent);
    }
    hide Records, Put, Drop, Known, Find, AlikeCases, AlikeCase;
  }

  lemma AlikeApply(v: InterventionState, w: InterventionState, r: InterventionRecord, at: Time, later: Time)
    requires Alike(v, w) && Reconciles(r)
    ensures Alike(Apply(v, Timed(r, at)), Apply(w, Timed(r, later)))
  {
    AlikeAfter(v.cases, w.cases, r, at, later);
    AlikePending(v.pending, w.pending, CasesAfter(v.cases, r, at), CasesAfter(w.cases, r, later), r, at, later);
    hide CasesAfter, PendingAfter, Records, AlikeCases;
  }

  lemma {:induction false} AlikeRuns(v: InterventionState, w: InterventionState, a: seq<Timed>, b: seq<Timed>)
    requires Alike(v, w) && Records(a) == Records(b) && forall i :: 0 <= i < |a| ==> Reconciles(a[i].record)
    ensures Alike(ApplyAll(v, a), ApplyAll(w, b))
    decreases |a|
  {
    if a != [] {
      assert a[0].record == b[0].record by { assert Records(a)[0] == Records(b)[0]; }
      assert Records(a[1..]) == Records(b[1..]) by { assert Records(a)[1..] == Records(b)[1..]; }
      hide Alike, Apply, Records;
      AlikeApply(v, w, a[0].record, a[0].at, b[0].at);
      AlikeRuns(Apply(v, a[0]), Apply(w, b[0]), a[1..], b[1..]);
    }
  }

  predicate AllReconcile(rs: seq<InterventionRecord>) { forall r :: r in rs ==> Reconciles(r) }

  lemma {:induction false} FreshReconciles(cases: seq<CaseView>, items: seq<Observed>)
    ensures AllReconcile(Groups(cases, items))
    decreases |items|
  {
    if items != [] {
      FreshReconciles(cases, items[1..]);
      hide Local, FirstOpen, Latest, Known, SameEvidence;
    }
  }

  lemma {:induction false} ClearsReconcile(cases: seq<CaseView>, seen: set<CaseId>)
    ensures AllReconcile(Clears(cases, seen))
    decreases |cases|
  {
    if cases != [] { ClearsReconcile(cases[1..], seen); }
  }

  lemma {:induction false} RecordsAt(ts: seq<Timed>, i: nat)
    requires i < |ts|
    ensures Records(ts)[i] == ts[i].record
    decreases |ts|
  {
    if i > 0 { RecordsAt(ts[1..], i - 1); }
  }

  lemma {:induction false} RecordsConcat(a: seq<Timed>, b: seq<Timed>)
    ensures Records(a + b) == Records(a) + Records(b)
    decreases |a|
  {
    if a == [] {
      assert a + b == b;
      assert [] + Records(b) == Records(b);
    } else {
      assert (a + b)[1..] == a[1..] + b;
      RecordsConcat(a[1..], b);
    }
  }

  lemma AlikeSelf(v: InterventionState)
    ensures Alike(v, v)
  {
  }

  /** Convergence: a torn batch and its repair reach the cases, severities and notification ids of the whole batch,
      and the next reconciliation of the same snapshot appends nothing. */
  lemma TornReconcileConverges(v: InterventionState, items: seq<Observed>, now: Time, k: nat, later: Time, last: Time)
    requires Fit(v) && v.pending == [] && DistinctSlots(items) && k <= |Reconcile(v, items, now)|
    ensures var batch := Reconcile(v, items, now);
            var torn := ApplyAll(v, batch[..k]);
            var repaired := ApplyAll(torn, Reconcile(torn, items, later));
            var settled := ApplyAll(repaired, Reconcile(repaired, items, last));
            Alike(ApplyAll(v, batch), settled) && forall t :: Reconcile(settled, items, t) == []
  {
    var batch := Reconcile(v, items, now);
    var torn := ApplyAll(v, batch[..k]);
    var second := Reconcile(torn, items, later);
    var repaired := ApplyAll(torn, second);
    var third := Reconcile(repaired, items, last);
    TornReconcileSameRecords(v, items, now, k, later, last);
    FreshReconciles(v.cases, items);
    ClearsReconcile(v.cases, SeenOpen(v.cases, items));
    forall i | 0 <= i < |batch| ensures Reconciles(batch[i].record) {
      assert batch[i].record == FreshRecords(v.cases, items)[i];
      assert FreshRecords(v.cases, items)[i] in FreshRecords(v.cases, items);
    }
    hide *;
    RecordsConcat(batch[..k], second);
    RecordsConcat(batch[..k] + second, third);
    ApplyConcat(v, batch[..k], second);
    ApplyConcat(v, batch[..k] + second, third);
    AlikeSelf(v);
    AlikeRuns(v, v, batch, batch[..k] + second + third);
  }

  /** Owed intents torn anywhere are completed exactly: same records, same times, same state. */
  lemma {:induction false} TornRepairIsExact(v: InterventionState, items: seq<Observed>, now: Time, k: nat, later: Time)
    requires Fit(v) && k < |v.pending|
    ensures Reconcile(v, items, now) == v.pending
    ensures var torn := ApplyAll(v, v.pending[..k]);
            Reconcile(torn, items, later) == v.pending[k..] && ApplyAll(torn, Reconcile(torn, items, later)) == ApplyAll(v, v.pending)
    decreases k
  {
    var first := v.pending[..k];
    assert v.pending == first + v.pending[k..];
    ApplyConcat(v, first, v.pending[k..]);
    DropsPrefix(v, items, k);
    hide Apply, ApplyAll, Fit;
  }

  lemma {:induction false} DropsPrefix(v: InterventionState, items: seq<Observed>, k: nat)
    requires Fit(v) && k <= |v.pending|
    ensures ApplyAll(v, v.pending[..k]).pending == v.pending[k..]
    decreases k
  {
    if k > 0 {
      OwedStep(v, items);
      hide Apply, Remaining, Fit;
      DropsPrefix(Apply(v, v.pending[0]), items, k - 1);
      assert v.pending[..k][1..] == v.pending[1..][..k - 1] && v.pending[..k][0] == v.pending[0];
    }
  }
}
