/** Nothing observed goes without its case, and no case outlives its condition unnoticed. */
module InterventionCoverage {
  import opened TaskContracts
  import opened InterventionViews
  import opened InterventionDecisions
  import opened InterventionConvergence
  import opened InterventionReconcile

  /** The condition has an open, active case on this very evidence at no lower severity, or a human already resolved it. */
  ghost predicate Represented(cases: seq<CaseView>, item: Observed) {
    exists c: CaseView :: c in cases && SlotOf(c.id) == ItemSlot(item)
      && if c.human.Resolved? then SameEvidence(c, item) || c.id == CaseId(item.kind, item.subject, item.key)
         else c.active && c.key == item.key && Rank(c.severity) >= Rank(item.severity)
  }

  /** The condition behind the case is among the observed ones. */
  ghost predicate Observes(items: seq<Observed>, c: CaseView) { exists i :: 0 <= i < |items| && ItemSlot(items[i]) == SlotOf(c.id) }

  lemma {:induction false} LocalFrom(cases: seq<CaseView>, slot: Slot)
    ensures forall c :: c in Local(cases, slot) ==> c in cases && SlotOf(c.id) == slot
    decreases |cases|
  {
    if cases != [] { LocalFrom(cases[1..], slot); }
  }

  lemma {:induction false} FirstOpenIsOpen(cases: seq<CaseView>)
    ensures FirstOpen(cases).Some? ==> FirstOpen(cases).value in cases && !FirstOpen(cases).value.human.Resolved?
    ensures FirstOpen(cases).None? ==> forall c :: c in cases ==> c.human.Resolved?
    decreases |cases|
  {
    if cases != [] {
      FirstOpenIsOpen(cases[1..]);
      assert forall c :: c in cases ==> c == cases[0] || c in cases[1..];
    }
  }

  lemma {:induction false} LatestListed(cases: seq<CaseView>)
    ensures Latest(cases).Some? ==> Latest(cases).value in cases
    decreases |cases|
  {
    if cases != [] { LatestListed(cases[..|cases| - 1]); }
  }

  /** A group with nothing to say has its case. */
  lemma {:induction false} QuietGroup(cases: seq<CaseView>, item: Observed)
    requires Group(Local(cases, ItemSlot(item)), item) == []
    ensures Represented(cases, item)
  {
    var inSlot := Local(cases, ItemSlot(item));
    LocalFrom(cases, ItemSlot(item));
    FirstOpenIsOpen(inSlot);
    LatestListed(inSlot);
    var current := FirstOpen(inSlot);
    if current.Some? {
      QuietUpdate(current.value, item);
    } else if Known(inSlot, CaseId(item.kind, item.subject, item.key)) {
      var c := Find(inSlot, CaseId(item.kind, item.subject, item.key));
      assert c in cases && c.human.Resolved?;
    } else {
      QuietOpening(inSlot, item);
      assert Latest(inSlot).value in cases;
    }
    hide Local, FirstOpen, Latest, SameEvidence, Known;
  }

  lemma QuietUpdate(c: CaseView, item: Observed)
    requires Updating(c, item) == []
    ensures c.active && c.key == item.key && Rank(c.severity) >= Rank(item.severity)
  {
  }

  lemma QuietOpening(cases: seq<CaseView>, item: Observed)
    requires Opening(cases, item) == [] && !Known(cases, CaseId(item.kind, item.subject, item.key))
    ensures Latest(cases).Some? && Latest(cases).value.human.Resolved? && SameEvidence(Latest(cases).value, item)
  {
    hide Latest, SameEvidence, Known;
  }

  lemma {:induction false} QuietGroups(cases: seq<CaseView>, items: seq<Observed>, item: Observed)
    requires Groups(cases, items) == [] && item in items
    ensures Represented(cases, item)
    decreases |items|
  {
    hide Group, Represented;
    if item == items[0] { QuietGroup(cases, item); } else { QuietGroups(cases, items[1..], item); }
  }

  lemma {:induction false} QuietClears(cases: seq<CaseView>, seen: set<CaseId>, c: CaseView)
    requires Clears(cases, seen) == [] && c in cases && !c.human.Resolved? && c.active
    ensures c.id in seen
    decreases |cases|
  {
    if c != cases[0] { QuietClears(cases[1..], seen, c); }
  }

  lemma {:induction false} SeenIsObserved(cases: seq<CaseView>, items: seq<Observed>, c: CaseView)
    requires c.id in SeenOpen(cases, items)
    ensures Observes(items, c)
    decreases |items|
  {
    var slot := ItemSlot(items[0]);
    LocalFrom(cases, slot);
    FirstOpenIsOpen(Local(cases, slot));
    var current := FirstOpen(Local(cases, slot));
    hide Local, FirstOpen;
    if current.Some? && current.value.id == c.id {
      assert ItemSlot(items[0]) == SlotOf(c.id);
    } else {
      SeenIsObserved(cases, items[1..], c);
      var i :| 0 <= i < |items[1..]| && ItemSlot(items[1..][i]) == SlotOf(c.id);
      assert items[i + 1] == items[1..][i];
    }
  }

  /** The view mirrors the observation: every condition has its case, every open active case its condition. */
  ghost predicate Mirrors(cases: seq<CaseView>, items: seq<Observed>) {
    && (forall item :: item in items ==> Represented(cases, item))
    && (forall c :: c in cases && !c.human.Resolved? && c.active ==> Observes(items, c))
  }

  /** When reconciliation has nothing left to say, the view mirrors the observation. */
  lemma {:induction false} SilenceMirrors(v: InterventionState, items: seq<Observed>, now: Time)
    requires Reconcile(v, items, now) == []
    ensures Mirrors(v.cases, items)
  {
    assert v.pending == [];
    var seen := SeenOpen(v.cases, items);
    assert |Stamp(FreshRecords(v.cases, items), now)| == 0;
    assert Groups(v.cases, items) == [] && Clears(v.cases, seen) == [];
    hide Represented, Observes, Groups, Clears, SeenOpen;
    forall item | item in items ensures Represented(v.cases, item) { QuietGroups(v.cases, items, item); }
    forall c | c in v.cases && !c.human.Resolved? && c.active ensures Observes(items, c) {
      QuietClears(v.cases, seen, c);
      SeenIsObserved(v.cases, items, c);
    }
  }

  /** After any torn reconciliation and its repair, every observed condition has its case and no other case is active. */
  lemma {:induction false} ReconciledMirrors(v: InterventionState, items: seq<Observed>, now: Time, k: nat, later: Time, last: Time)
    requires Fit(v) && v.pending == [] && DistinctSlots(items) && k <= |Reconcile(v, items, now)|
    ensures var torn := ApplyAll(v, Reconcile(v, items, now)[..k]);
            var repaired := ApplyAll(torn, Reconcile(torn, items, later));
            Mirrors(ApplyAll(repaired, Reconcile(repaired, items, last)).cases, items)
  {
    hide *;
    TornReconcileConverges(v, items, now, k, later, last);
    var torn := ApplyAll(v, Reconcile(v, items, now)[..k]);
    var repaired := ApplyAll(torn, Reconcile(torn, items, later));
    SilenceMirrors(ApplyAll(repaired, Reconcile(repaired, items, last)), items, now);
  }
}
