/** Reconciliation after a torn batch completes exactly what was lost, then has nothing left to say. */
module InterventionConvergence {
  import opened Common
  import opened TaskContracts
  import opened InterventionViews
  import opened InterventionDecisions

  // -- lists of cases

  /** No two cases share an id. */
  predicate DistinctCases(cases: seq<CaseView>) {
    forall i, j :: 0 <= i < j < |cases| ==> cases[i].id != cases[j].id
  }

  predicate DistinctSlots(items: seq<Observed>) {
    forall i, j :: 0 <= i < j < |items| ==> ItemSlot(items[i]) != ItemSlot(items[j])
  }

  lemma {:induction false} SteppedAt(cases: seq<CaseView>, r: InterventionRecord, at: Time, i: nat)
    requires i < |cases|
    ensures Stepped(cases, r, at)[i] == if About(r) == Some(cases[i].id) then CaseEffect(cases[i], r, at) else cases[i]
    decreases |cases|
  {
    if i > 0 { SteppedAt(cases[1..], r, at, i - 1); }
  }

  lemma EffectKeepsId(c: CaseView, r: InterventionRecord, at: Time)
    requires About(r) == Some(c.id)
    ensures CaseEffect(c, r, at).id == c.id
  {
  }

  lemma {:induction false} SteppedIds(cases: seq<CaseView>, r: InterventionRecord, at: Time)
    ensures forall i :: 0 <= i < |cases| ==> Stepped(cases, r, at)[i].id == cases[i].id
  {
    forall i | 0 <= i < |cases| ensures Stepped(cases, r, at)[i].id == cases[i].id {
      SteppedAt(cases, r, at, i);
      if About(r) == Some(cases[i].id) { EffectKeepsId(cases[i], r, at); }
      hide CaseEffect, Stepped;
    }
  }

  lemma StaysDistinct(cases: seq<CaseView>, r: InterventionRecord, at: Time)
    requires DistinctCases(cases)
    ensures DistinctCases(CasesAfter(cases, r, at))
    ensures forall id :: Known(cases, id) ==> Known(CasesAfter(cases, r, at), id)
  {
    SteppedIds(cases, r, at);
    hide Stepped, CaseEffect;
    var after := CasesAfter(cases, r, at);
    assert forall i :: 0 <= i < |cases| ==> after[i].id == cases[i].id;
    forall id | Known(cases, id) ensures Known(after, id) {
      var i :| 0 <= i < |cases| && cases[i].id == id;
      assert after[i].id == id;
    }
  }

  // -- slots

  lemma {:induction false} LocalConcat(a: seq<CaseView>, b: seq<CaseView>, slot: Slot)
    ensures Local(a + b, slot) == Local(a, slot) + Local(b, slot)
    decreases |a|
  {
    if a == [] {
      assert a + b == b;
    } else {
      assert (a + b)[1..] == a[1..] + b;
      LocalConcat(a[1..], b, slot);
    }
  }

  lemma {:induction false} LocalStepped(cases: seq<CaseView>, r: InterventionRecord, at: Time, slot: Slot)
    ensures Local(Stepped(cases, r, at), slot) == Stepped(Local(cases, slot), r, at)
    decreases |cases|
  {
    if cases != [] {
      LocalStepped(cases[1..], r, at, slot);
      if SlotOf(cases[0].id) == slot { assert Local(cases, slot)[1..] == Local(cases[1..], slot); }
      if About(r) == Some(cases[0].id) { EffectKeepsId(cases[0], r, at); }
      hide CaseEffect;
    }
  }

  /** A record about another slot changes nothing in this one. */
  lemma {:induction false} ForeignRecord(cases: seq<CaseView>, r: InterventionRecord, at: Time, slot: Slot)
    requires About(r).None? || SlotOf(About(r).value) != slot
    ensures Stepped(Local(cases, slot), r, at) == Local(cases, slot)
    decreases |cases|
  {
    if cases != [] {
      ForeignRecord(cases[1..], r, at, slot);
      if SlotOf(cases[0].id) == slot { assert Local(cases, slot)[1..] == Local(cases[1..], slot); }
    }
  }

  lemma {:induction false} LocalKnown(cases: seq<CaseView>, id: CaseId)
    ensures Known(Local(cases, SlotOf(id)), id) == Known(cases, id)
    decreases |cases|
  {
    if cases != [] {
      LocalKnown(cases[1..], id);
      KnownFront(cases, id);
      if SlotOf(cases[0].id) == SlotOf(id) {
        assert Local(cases, SlotOf(id))[1..] == Local(cases[1..], SlotOf(id));
        KnownFront(Local(cases, SlotOf(id)), id);
      }
      hide Known;
    }
  }

  lemma KnownFront(cases: seq<CaseView>, id: CaseId)
    requires cases != []
    ensures Known(cases, id) <==> cases[0].id == id || Known(cases[1..], id)
  {
    if Known(cases, id) && cases[0].id != id {
      var i :| 0 <= i < |cases| && cases[i].id == id;
      assert cases[1..][i - 1].id == id;
    }
    if Known(cases[1..], id) {
      var i :| 0 <= i < |cases[1..]| && cases[1..][i].id == id;
      assert cases[i + 1].id == id;
    }
  }

  /** What one record does to the cases of one slot. */
  lemma LocalOne(c: CaseView, slot: Slot)
    ensures Local([c], slot) == (if SlotOf(c.id) == slot then [c] else []) && Local([], slot) == []
  {
  }

  lemma LocalAfter(cases: seq<CaseView>, r: InterventionRecord, at: Time, slot: Slot)
    ensures Local(CasesAfter(cases, r, at), slot)
         == if About(r).Some? && SlotOf(About(r).value) == slot then CasesAfter(Local(cases, slot), r, at) else Local(cases, slot)
  {
    hide Stepped, CaseEffect, Known, Local;
    LocalStepped(cases, r, at, slot);
    if r.CaseOpened? {
      LocalKnown(cases, r.openedCase);
      LocalConcat(Stepped(cases, r, at), if Known(cases, r.openedCase) then [] else [NewCase(r, at)], slot);
      LocalOne(NewCase(r, at), slot);
    }
    if About(r).None? || SlotOf(About(r).value) != slot { ForeignRecord(cases, r, at, slot); }
    assert Local(cases, slot) + [] == Local(cases, slot) && Stepped(cases, r, at) + [] == Stepped(cases, r, at);
  }

  lemma {:induction false} LocalDistinct(cases: seq<CaseView>, slot: Slot)
    requires DistinctCases(cases)
    ensures DistinctCases(Local(cases, slot)) && forall c :: c in Local(cases, slot) ==> c in cases && SlotOf(c.id) == slot
    decreases |cases|
  {
    if cases != [] { LocalDistinct(cases[1..], slot); }
  }

  // -- the first open case

  lemma {:induction false} FirstOpenFacts(cases: seq<CaseView>)
    ensures FirstOpen(cases).Some? ==> FirstOpen(cases).value in cases && !FirstOpen(cases).value.human.Resolved?
    ensures FirstOpen(cases).None? <==> forall c :: c in cases ==> c.human.Resolved?
    decreases |cases|
  {
    if cases != [] { FirstOpenFacts(cases[1..]); }
  }

  /** A record about the first open case, leaving it unresolved, leaves it first. */
  lemma {:induction false} FirstOpenStepped(cases: seq<CaseView>, r: InterventionRecord, at: Time)
    requires DistinctCases(cases) && FirstOpen(cases).Some? && About(r) == Some(FirstOpen(cases).value.id)
    requires !CaseEffect(FirstOpen(cases).value, r, at).human.Resolved?
    ensures FirstOpen(Stepped(cases, r, at)) == Some(CaseEffect(FirstOpen(cases).value, r, at))
    decreases |cases|
  {
    hide CaseEffect;
    if cases[0].human.Resolved? {
      FirstOpenFacts(cases[1..]);
      assert exists i :: 1 <= i < |cases| && cases[i] == FirstOpen(cases).value;
      FirstOpenStepped(cases[1..], r, at);
    }
  }

  lemma {:induction false} FirstOpenAppended(cases: seq<CaseView>, c: CaseView)
    requires FirstOpen(cases).None? && !c.human.Resolved?
    ensures FirstOpen(cases + [c]) == Some(c)
    decreases |cases|
  {
    if cases != [] {
      assert (cases + [c])[1..] == cases[1..] + [c];
      FirstOpenAppended(cases[1..], c);
    } else {
      assert cases + [c] == [c];
    }
  }

  lemma {:induction false} FindStepped(cases: seq<CaseView>, r: InterventionRecord, at: Time, c: CaseView)
    requires DistinctCases(cases) && c in cases && About(r) == Some(c.id)
    ensures Known(Stepped(cases, r, at), c.id) && Find(Stepped(cases, r, at), c.id) == CaseEffect(c, r, at)
    decreases |cases|
  {
    EffectKeepsId(c, r, at);
    hide CaseEffect;
    var after := Stepped(cases, r, at);
    if cases[0] == c {
      assert after[0].id == c.id;
    } else {
      assert c in cases[1..];
      assert exists i :: 1 <= i < |cases| && cases[i] == c;
      FindStepped(cases[1..], r, at, c);
      KnownFront(after, c.id);
    }
  }

  // -- one slot, one group

  /** Only the case of the slot a record opens or touches moves. */
  lemma UpdateFirst(cases: seq<CaseView>, r: InterventionRecord, at: Time)
    requires DistinctCases(cases) && FirstOpen(cases).Some? && !r.CaseOpened?
    requires About(r) == Some(FirstOpen(cases).value.id) && !CaseEffect(FirstOpen(cases).value, r, at).human.Resolved?
    ensures FirstOpen(CasesAfter(cases, r, at)) == Some(CaseEffect(FirstOpen(cases).value, r, at))
    ensures Known(CasesAfter(cases, r, at), FirstOpen(cases).value.id)
    ensures Find(CasesAfter(cases, r, at), FirstOpen(cases).value.id) == CaseEffect(FirstOpen(cases).value, r, at)
    ensures DistinctCases(CasesAfter(cases, r, at))
  {
    FirstOpenFacts(cases);
    FirstOpenStepped(cases, r, at);
    FindStepped(cases, r, at, FirstOpen(cases).value);
    StaysDistinct(cases, r, at);
    assert Stepped(cases, r, at) + [] == Stepped(cases, r, at);
    hide Stepped, CaseEffect, FirstOpen, Find, Known;
  }

  lemma {:induction false} UnknownUntouched(cases: seq<CaseView>, r: InterventionRecord, at: Time)
    requires About(r).Some? && !Known(cases, About(r).value)
    ensures Stepped(cases, r, at) == cases
    decreases |cases|
  {
    if cases != [] {
      KnownFront(cases, About(r).value);
      UnknownUntouched(cases[1..], r, at);
    }
    hide CaseEffect, Known;
  }

  lemma {:induction false} FindAppended(cases: seq<CaseView>, c: CaseView)
    requires !Known(cases, c.id)
    ensures Known(cases + [c], c.id) && Find(cases + [c], c.id) == c
    decreases |cases|
  {
    assert (cases + [c])[|cases|] == c;
    if cases != [] {
      KnownFront(cases, c.id);
      assert (cases + [c])[1..] == cases[1..] + [c];
      FindAppended(cases[1..], c);
    }
  }

  /** An opened case is the open case of its slot, and is owed exactly the notification that follows. */
  lemma OpeningStep(cases: seq<CaseView>, item: Observed, at: Time, later: Time)
    requires DistinctCases(cases) && FirstOpen(cases).None? && Opening(cases, item) != []
    ensures var rs := Opening(cases, item);
            var one := CasesAfter(cases, rs[0], at);
            var two := CasesAfter(one, rs[1], later);
            && |rs| == 2 && About(rs[0]) == About(rs[1]) == Some(CaseId(item.kind, item.subject, item.key))
            && Known(one, rs[0].openedCase) && IntentFor(Find(one, rs[0].openedCase), OpenedIntent, rs[0].severity, rs[0].evidence) == rs[1]
            && one == cases + [NewCase(rs[0], at)] && DistinctCases(two)
            && FirstOpen(two).Some? && FirstOpen(two).value.id == rs[0].openedCase && Updating(FirstOpen(two).value, item) == []
  {
    var rs := Opening(cases, item);
    var c := NewCase(rs[0], at);
    UnknownUntouched(cases, rs[0], at);
    FindAppended(cases, c);
    FirstOpenAppended(cases, c);
    StaysDistinct(cases, rs[0], at);
    UpdateFirst(cases + [c], rs[1], later);
    hide Stepped, FirstOpen, Find, Known, Latest, SameEvidence;
  }

  /** A returned condition is recorded first; what the item still calls for is the rest of its group. */
  lemma ReturningStep(cases: seq<CaseView>, item: Observed, at: Time)
    requires DistinctCases(cases) && FirstOpen(cases).Some? && !FirstOpen(cases).value.active
    ensures var c := FirstOpen(cases).value;
            var rs := Updating(c, item);
            var one := CasesAfter(cases, rs[0], at);
            && rs != [] && rs[0] == CaseConditionReturned(c.id, item.key, item.evidence) && DistinctCases(one)
            && FirstOpen(one).Some? && FirstOpen(one).value.id == c.id && Updating(FirstOpen(one).value, item) == rs[1..]
  {
    var c := FirstOpen(cases).value;
    var rs := Updating(c, item);
    FirstOpenFacts(cases);
    UpdateFirst(cases, rs[0], at);
    hide CasesAfter, FirstOpen, Find, Known;
  }

  lemma EscalatingStep(cases: seq<CaseView>, item: Observed, at: Time, later: Time)
    requires DistinctCases(cases) && FirstOpen(cases).Some? && FirstOpen(cases).value.active
    requires Rank(item.severity) > Rank(FirstOpen(cases).value.severity)
    ensures var c := FirstOpen(cases).value;
            var rs := Updating(c, item);
            var one := CasesAfter(cases, rs[0], at);
            var two := CasesAfter(one, rs[1], later);
            && |rs| == 2 && rs[0] == CaseEscalated(c.id, item.severity, item.key, item.evidence) && About(rs[1]) == Some(c.id)
            && Known(one, c.id) && IntentFor(Find(one, c.id), EscalationIntent, item.severity, item.evidence) == rs[1]
            && DistinctCases(two)
            && FirstOpen(two).Some? && FirstOpen(two).value.id == c.id && Updating(FirstOpen(two).value, item) == []
  {
    var c := FirstOpen(cases).value;
    var rs := Updating(c, item);
    FirstOpenFacts(cases);
    UpdateFirst(cases, rs[0], at);
    UpdateFirst(CasesAfter(cases, rs[0], at), rs[1], later);
    hide CasesAfter, FirstOpen, Find, Known;
  }

  lemma AddingStep(cases: seq<CaseView>, item: Observed, at: Time)
    requires DistinctCases(cases) && FirstOpen(cases).Some? && FirstOpen(cases).value.active
    requires Rank(item.severity) <= Rank(FirstOpen(cases).value.severity) && item.key != FirstOpen(cases).value.key
    ensures var c := FirstOpen(cases).value;
            var rs := Updating(c, item);
            var one := CasesAfter(cases, rs[0], at);
            && rs == [CaseEvidenceAdded(c.id, item.key, item.evidence)] && DistinctCases(one)
            && FirstOpen(one).Some? && FirstOpen(one).value.id == c.id && Updating(FirstOpen(one).value, item) == []
  {
    var c := FirstOpen(cases).value;
    FirstOpenFacts(cases);
    UpdateFirst(cases, CaseEvidenceAdded(c.id, item.key, item.evidence), at);
    hide CasesAfter, FirstOpen, Find, Known;
  }

  // -- the head of a batch

  /** An opening or an escalation and the notification it is owed belong together; anything else stands alone. */
  function HeadLength(r: InterventionRecord): nat { if r.CaseOpened? || r.CaseEscalated? then 2 else 1 }

  function HeadAfter(cases: seq<CaseView>, rs: seq<InterventionRecord>, at: Time, later: Time): seq<CaseView>
    requires rs != [] && HeadLength(rs[0]) <= |rs|
  {
    if HeadLength(rs[0]) == 2 then CasesAfter(CasesAfter(cases, rs[0], at), rs[1], later) else CasesAfter(cases, rs[0], at)
  }

  /** The notification that follows is the one the case is owed. */
  ghost predicate Owed(cases: seq<CaseView>, r: InterventionRecord, next: InterventionRecord) {
    && (r.CaseOpened? ==> Known(cases, r.openedCase) && IntentFor(Find(cases, r.openedCase), OpenedIntent, r.severity, r.evidence) == next)
    && (r.CaseEscalated? ==> Known(cases, r.escalated) && IntentFor(Find(cases, r.escalated), EscalationIntent, r.severity, r.evidence) == next)
  }

  /** The first record of a group is about its slot's open case, and its second, if they belong together, is the owed notification. */
  ghost predicate HeadsGroup(cases: seq<CaseView>, item: Observed, rs: seq<InterventionRecord>, at: Time) {
    && rs != [] && HeadLength(rs[0]) <= |rs|
    && About(rs[0]).Some? && SlotOf(About(rs[0]).value) == ItemSlot(item)
    && (HeadLength(rs[0]) == 2 ==> About(rs[1]) == About(rs[0]) && Owed(CasesAfter(cases, rs[0], at), rs[0], rs[1]))
    && !rs[0].NotificationIntended?
    && (FirstOpen(cases).Some? ==> FirstOpen(cases).value.id == About(rs[0]).value)
    && (FirstOpen(cases).None? ==> rs[0].CaseOpened? && !Known(cases, About(rs[0]).value))
    && (rs[0].CaseOpened? ==> FirstOpen(cases).None?)
  }

  /** After the head the same case is open, and the rest of the group is what remains to say. */
  ghost predicate HeadLeavesRest(cases: seq<CaseView>, item: Observed, rs: seq<InterventionRecord>, at: Time, later: Time)
    requires rs != [] && HeadLength(rs[0]) <= |rs| && About(rs[0]).Some?
  {
    var after := HeadAfter(cases, rs, at, later);
    && FirstOpen(after).Some? && FirstOpen(after).value.id == About(rs[0]).value
    && Group(after, item) == rs[HeadLength(rs[0])..]
  }

  lemma OpeningHeads(cases: seq<CaseView>, item: Observed, at: Time, later: Time)
    requires DistinctCases(cases) && FirstOpen(cases).None? && Group(cases, item) != []
    ensures HeadsGroup(cases, item, Group(cases, item), at) && HeadLeavesRest(cases, item, Group(cases, item), at, later)
  {
    OpeningStep(cases, item, at, later);
    hide CasesAfter, FirstOpen, Find, Latest, SameEvidence, Known;
  }

  /** What an open case is told about the item. */
  lemma OpenGroup(cases: seq<CaseView>, item: Observed)
    ensures FirstOpen(cases).Some? ==> Group(cases, item) == Updating(FirstOpen(cases).value, item)
  {
  }

  lemma ReturningHeads(cases: seq<CaseView>, item: Observed, at: Time, later: Time)
    requires DistinctCases(cases) && FirstOpen(cases).Some? && SlotOf(FirstOpen(cases).value.id) == ItemSlot(item)
    requires !FirstOpen(cases).value.active
    ensures HeadsGroup(cases, item, Group(cases, item), at) && HeadLeavesRest(cases, item, Group(cases, item), at, later)
  {
    ReturningStep(cases, item, at);
    OpenGroup(cases, item);
    OpenGroup(HeadAfter(cases, Group(cases, item), at, later), item);
    hide CasesAfter, FirstOpen, Find, Known, DistinctCases, Group;
  }

  lemma EscalatingHeads(cases: seq<CaseView>, item: Observed, at: Time, later: Time)
    requires DistinctCases(cases) && FirstOpen(cases).Some? && SlotOf(FirstOpen(cases).value.id) == ItemSlot(item)
    requires FirstOpen(cases).value.active && Rank(item.severity) > Rank(FirstOpen(cases).value.severity)
    ensures HeadsGroup(cases, item, Group(cases, item), at) && HeadLeavesRest(cases, item, Group(cases, item), at, later)
  {
    EscalatingStep(cases, item, at, later);
    OpenGroup(cases, item);
    OpenGroup(HeadAfter(cases, Group(cases, item), at, later), item);
    hide CasesAfter, FirstOpen, Find, Known, DistinctCases, Group;
  }

  lemma AddingHeads(cases: seq<CaseView>, item: Observed, at: Time, later: Time)
    requires DistinctCases(cases) && FirstOpen(cases).Some? && SlotOf(FirstOpen(cases).value.id) == ItemSlot(item)
    requires FirstOpen(cases).value.active && Rank(item.severity) <= Rank(FirstOpen(cases).value.severity)
    requires Group(cases, item) != []
    ensures HeadsGroup(cases, item, Group(cases, item), at) && HeadLeavesRest(cases, item, Group(cases, item), at, later)
  {
    AddingStep(cases, item, at);
    OpenGroup(cases, item);
    OpenGroup(HeadAfter(cases, Group(cases, item), at, later), item);
    hide CasesAfter, FirstOpen, Find, Known, DistinctCases, Group;
  }

  lemma UpdatingHeads(cases: seq<CaseView>, item: Observed, at: Time, later: Time)
    requires DistinctCases(cases) && FirstOpen(cases).Some? && Group(cases, item) != []
    requires forall c :: c in cases ==> SlotOf(c.id) == ItemSlot(item)
    ensures HeadsGroup(cases, item, Group(cases, item), at) && HeadLeavesRest(cases, item, Group(cases, item), at, later)
  {
    FirstOpenFacts(cases);
    hide FirstOpen, DistinctCases, Group, HeadsGroup, HeadLeavesRest;
    var c := FirstOpen(cases).value;
    if !c.active { ReturningHeads(cases, item, at, later); }
    else if Rank(item.severity) > Rank(c.severity) { EscalatingHeads(cases, item, at, later); }
    else { AddingHeads(cases, item, at, later); }
  }

  /** The head of a group is about its slot's open case, and the group's rest is what remains after it. */
  lemma GroupHead(cases: seq<CaseView>, item: Observed, at: Time, later: Time)
    requires DistinctCases(cases) && Group(cases, item) != []
    requires forall c :: c in cases ==> SlotOf(c.id) == ItemSlot(item)
    ensures HeadsGroup(cases, item, Group(cases, item), at) && HeadLeavesRest(cases, item, Group(cases, item), at, later)
  {
    hide Group, HeadsGroup, FirstOpen, DistinctCases;
    if FirstOpen(cases).None? { OpeningHeads(cases, item, at, later); } else { UpdatingHeads(cases, item, at, later); }
  }

  lemma {:induction false} FirstGroup(cases: seq<CaseView>, items: seq<Observed>) returns (j: nat)
    requires Groups(cases, items) != []
    ensures j < |items| && Groups(cases, items[..j]) == [] && Group(Local(cases, ItemSlot(items[j])), items[j]) != []
    decreases |items|
  {
    hide Group, Local;
    if Group(Local(cases, ItemSlot(items[0])), items[0]) != [] {
      j := 0;
    } else {
      var k := FirstGroup(cases, items[1..]);
      j := k + 1;
      assert items[..j][1..] == items[1..][..k] && items[..j][0] == items[0];
    }
  }

  predicate NoItemIn(items: seq<Observed>, slot: Slot) { forall i :: 0 <= i < |items| ==> ItemSlot(items[i]) != slot }

  ghost predicate SameElsewhere(cases: seq<CaseView>, after: seq<CaseView>, slot: Slot) {
    forall s :: s != slot ==> Local(after, s) == Local(cases, s)
  }

  lemma {:induction false} GroupsElsewhere(cases: seq<CaseView>, after: seq<CaseView>, items: seq<Observed>, slot: Slot)
    requires SameElsewhere(cases, after, slot) && NoItemIn(items, slot)
    ensures Groups(after, items) == Groups(cases, items) && SeenOpen(after, items) == SeenOpen(cases, items)
    decreases |items|
  {
    hide Group, Local;
    if items != [] { GroupsElsewhere(cases, after, items[1..], slot); }
  }

  /** Before the first group that speaks nothing is said, and after it nothing changes. */
  lemma {:induction false} GroupsReplaced(cases: seq<CaseView>, after: seq<CaseView>, items: seq<Observed>, j: nat)
    requires j < |items| && DistinctSlots(items) && SameElsewhere(cases, after, ItemSlot(items[j]))
    requires Groups(cases, items[..j]) == []
    ensures Groups(cases, items) == Group(Local(cases, ItemSlot(items[j])), items[j]) + Groups(cases, items[j + 1..])
    ensures Groups(after, items) == Group(Local(after, ItemSlot(items[j])), items[j]) + Groups(cases, items[j + 1..])
    decreases j
  {
    hide Group, Local;
    var rest := items[1..];
    if j == 0 {
      GroupsElsewhere(cases, after, rest, ItemSlot(items[0]));
    } else {
      assert items[..j][1..] == rest[..j - 1] && items[..j][0] == items[0];
      assert rest[j - 1] == items[j] && rest[j..] == items[j + 1..];
      assert DistinctSlots(rest);
      GroupsReplaced(cases, after, rest, j - 1);
    }
  }

  /** The slot's open case, old or new, is the only change to the open cases met. */
  lemma {:induction false} SeenReplaced(cases: seq<CaseView>, after: seq<CaseView>, items: seq<Observed>, j: nat, id: CaseId)
    requires j < |items| && DistinctSlots(items) && SameElsewhere(cases, after, ItemSlot(items[j]))
    requires var f := FirstOpen(Local(after, ItemSlot(items[j]))); f.Some? && f.value.id == id
    requires var f := FirstOpen(Local(cases, ItemSlot(items[j]))); f.Some? ==> f.value.id == id
    ensures SeenOpen(after, items) == SeenOpen(cases, items) + {id}
    ensures FirstOpen(Local(cases, ItemSlot(items[j]))).Some? ==> id in SeenOpen(cases, items)
    decreases j
  {
    hide Local, FirstOpen;
    var rest := items[1..];
    if j == 0 {
      GroupsElsewhere(cases, after, rest, ItemSlot(items[0]));
    } else {
      assert DistinctSlots(rest) && rest[j - 1] == items[j];
      SeenReplaced(cases, after, rest, j - 1, id);
    }
  }

  // -- clearing

  lemma {:induction false} ClearsStepped(cases: seq<CaseView>, r: InterventionRecord, at: Time, seen: set<CaseId>)
    requires About(r).Some? && About(r).value in seen
    ensures Clears(Stepped(cases, r, at), seen) == Clears(cases, seen)
    decreases |cases|
  {
    if cases != [] {
      ClearsStepped(cases[1..], r, at, seen);
      if About(r) == Some(cases[0].id) { EffectKeepsId(cases[0], r, at); }
      hide CaseEffect;
    }
  }

  lemma {:induction false} ClearsMoreSeen(cases: seq<CaseView>, seen: set<CaseId>, id: CaseId)
    requires !Known(cases, id) || id in seen
    ensures Clears(cases, seen + {id}) == Clears(cases, seen)
    decreases |cases|
  {
    if cases != [] {
      KnownFront(cases, id);
      ClearsMoreSeen(cases[1..], seen, id);
      hide Known;
    }
  }

  lemma {:induction false} ClearsAppended(cases: seq<CaseView>, c: CaseView, seen: set<CaseId>)
    requires c.id in seen
    ensures Clears(cases + [c], seen) == Clears(cases, seen)
    decreases |cases|
  {
    if cases == [] {
      assert cases + [c] == [c];
    } else {
      assert (cases + [c])[1..] == cases[1..] + [c];
      ClearsAppended(cases[1..], c, seen);
    }
  }

  /** A record about a case that was met clears nothing and spares nothing. */
  lemma ClearsAfter(cases: seq<CaseView>, r: InterventionRecord, at: Time, seen: set<CaseId>)
    requires About(r).Some? && About(r).value in seen
    ensures Clears(CasesAfter(cases, r, at), seen) == Clears(cases, seen)
  {
    ClearsStepped(cases, r, at, seen);
    if r.CaseOpened? && !Known(cases, r.openedCase) { ClearsAppended(Stepped(cases, r, at), NewCase(r, at), seen); }
    assert Stepped(cases, r, at) + [] == Stepped(cases, r, at);
    hide Clears, Stepped, Known;
  }

  // -- the head of the whole batch

  lemma {:induction false} LocalFind(cases: seq<CaseView>, id: CaseId)
    requires Known(Local(cases, SlotOf(id)), id)
    ensures Known(cases, id) && Find(cases, id) == Find(Local(cases, SlotOf(id)), id)
    decreases |cases|
  {
    var inSlot := Local(cases, SlotOf(id));
    KnownFront(cases, id);
    KnownFront(inSlot, id);
    if SlotOf(cases[0].id) == SlotOf(id) { assert inSlot[1..] == Local(cases[1..], SlotOf(id)); }
    if cases[0].id != id { LocalFind(cases[1..], id); }
    hide Known;
  }

  lemma OwedGlobally(cases: seq<CaseView>, r: InterventionRecord, next: InterventionRecord, slot: Slot)
    requires About(r).Some? && SlotOf(About(r).value) == slot && Owed(Local(cases, slot), r, next)
    ensures Owed(cases, r, next)
  {
    if r.CaseOpened? || r.CaseEscalated? { LocalFind(cases, About(r).value); }
    hide Find, Known, Local;
  }

  lemma HeadInSlot(cases: seq<CaseView>, rs: seq<InterventionRecord>, at: Time, later: Time, slot: Slot)
    requires rs != [] && HeadLength(rs[0]) <= |rs| && About(rs[0]).Some? && SlotOf(About(rs[0]).value) == slot
    requires HeadLength(rs[0]) == 2 ==> About(rs[1]) == About(rs[0])
    ensures SameElsewhere(cases, HeadAfter(cases, rs, at, later), slot)
    ensures Local(HeadAfter(cases, rs, at, later), slot) == HeadAfter(Local(cases, slot), rs, at, later)
    ensures Local(CasesAfter(cases, rs[0], at), slot) == CasesAfter(Local(cases, slot), rs[0], at)
    ensures DistinctCases(cases) ==> DistinctCases(HeadAfter(cases, rs, at, later))
  {
    var one := CasesAfter(cases, rs[0], at);
    LocalAfter(cases, rs[0], at, slot);
    if DistinctCases(cases) { StaysDistinct(cases, rs[0], at); }
    forall s | s != slot ensures Local(one, s) == Local(cases, s) { LocalAfter(cases, rs[0], at, s); hide CasesAfter, Local; }
    if HeadLength(rs[0]) == 2 {
      LocalAfter(one, rs[1], later, slot);
      if DistinctCases(cases) { StaysDistinct(one, rs[1], later); }
      forall s | s != slot ensures Local(CasesAfter(one, rs[1], later), s) == Local(one, s) { LocalAfter(one, rs[1], later, s); hide CasesAfter, Local; }
    }
    hide CasesAfter, Local, DistinctCases;
  }

  lemma HeadClears(cases: seq<CaseView>, rs: seq<InterventionRecord>, at: Time, later: Time, seen: set<CaseId>)
    requires rs != [] && HeadLength(rs[0]) <= |rs| && About(rs[0]).Some? && About(rs[0]).value in seen
    requires HeadLength(rs[0]) == 2 ==> About(rs[1]) == About(rs[0])
    ensures Clears(HeadAfter(cases, rs, at, later), seen) == Clears(cases, seen)
  {
    ClearsAfter(cases, rs[0], at, seen);
    if HeadLength(rs[0]) == 2 { ClearsAfter(CasesAfter(cases, rs[0], at), rs[1], later, seen); }
    hide CasesAfter, Clears;
  }

  /** The head is no bare notification, and where it carries one it is the one owed. */
  ghost predicate HeadSound(cases: seq<CaseView>, rs: seq<InterventionRecord>, at: Time, later: Time) {
    && rs != [] && HeadLength(rs[0]) <= |rs| && !rs[0].NotificationIntended?
    && (HeadLength(rs[0]) == 2 ==> Owed(CasesAfter(cases, rs[0], at), rs[0], rs[1]) && rs[1].NotificationIntended?)
    && DistinctCases(HeadAfter(cases, rs, at, later))
  }

  lemma HeadExtends(cases: seq<CaseView>, group: seq<InterventionRecord>, more: seq<InterventionRecord>, at: Time, later: Time)
    requires HeadSound(cases, group, at, later)
    ensures HeadSound(cases, group + more, at, later)
    ensures HeadAfter(cases, group + more, at, later) == HeadAfter(cases, group, at, later)
    ensures HeadLength((group + more)[0]) == HeadLength(group[0])
    ensures (group + more)[HeadLength(group[0])..] == group[HeadLength(group[0])..] + more
  {
    hide CasesAfter, Owed, DistinctCases;
  }

  /** The first group that speaks, seen in the whole list of cases. */
  lemma SpeakingGroup(cases: seq<CaseView>, items: seq<Observed>, j: nat, at: Time, later: Time)
    requires DistinctCases(cases) && DistinctSlots(items) && j < |items|
    requires Group(Local(cases, ItemSlot(items[j])), items[j]) != []
    ensures var slot := ItemSlot(items[j]);
            var group := Group(Local(cases, slot), items[j]);
            HeadSound(cases, group, at, later)
    ensures var slot := ItemSlot(items[j]);
            var group := Group(Local(cases, slot), items[j]);
            var after := HeadAfter(cases, group, at, later);
            && SameElsewhere(cases, after, slot)
            && Group(Local(after, slot), items[j]) == group[HeadLength(group[0])..]
            && Clears(after, SeenOpen(after, items)) == Clears(cases, SeenOpen(cases, items))
  {
    var slot := ItemSlot(items[j]);
    var inSlot := Local(cases, slot);
    var group := Group(inSlot, items[j]);
    LocalDistinct(cases, slot);
    GroupHead(inSlot, items[j], at, later);
    var id := About(group[0]).value;
    LocalKnown(cases, id);
    HeadInSlot(cases, group, at, later, slot);
    var after := HeadAfter(cases, group, at, later);
    if HeadLength(group[0]) == 2 { OwedGlobally(CasesAfter(cases, group[0], at), group[0], group[1], slot); }
    SeenReplaced(cases, after, items, j, id);
    var seen := SeenOpen(cases, items);
    HeadClears(cases, group, at, later, seen + {id});
    ClearsMoreSeen(cases, seen, id);
    hide Group, Local, Clears, SeenOpen, CasesAfter, FirstOpen, Known, DistinctCases, DistinctSlots, Find, SameElsewhere;
  }

  /** Applying the head of a batch whose groups still speak leaves exactly the rest of the batch to say. */
  lemma FreshGroupHead(cases: seq<CaseView>, items: seq<Observed>, at: Time, later: Time)
    requires DistinctCases(cases) && DistinctSlots(items) && Groups(cases, items) != []
    ensures var rs := FreshRecords(cases, items);
            HeadSound(cases, rs, at, later) && FreshRecords(HeadAfter(cases, rs, at, later), items) == rs[HeadLength(rs[0])..]
  {
    hide *;
    var j := FirstGroup(cases, items);
    SpeakingGroup(cases, items, j, at, later);
    var group := Group(Local(cases, ItemSlot(items[j])), items[j]);
    SoundHead(cases, group, at, later);
    var after := HeadAfter(cases, group, at, later);
    GroupsReplaced(cases, after, items, j);
    var more := Groups(cases, items[j + 1..]);
    var clears := Clears(cases, SeenOpen(cases, items));
    HeadExtends(cases, group, more + clears, at, later);
    FreshIs(cases, items);
    FreshIs(after, items);
    assert (group + more) + clears == group + (more + clears);
    assert (group[HeadLength(group[0])..] + more) + clears == group[HeadLength(group[0])..] + (more + clears);
  }

  lemma SoundHead(cases: seq<CaseView>, rs: seq<InterventionRecord>, at: Time, later: Time)
    requires HeadSound(cases, rs, at, later)
    ensures rs != [] && HeadLength(rs[0]) <= |rs|
  {
  }

  lemma FreshIs(cases: seq<CaseView>, items: seq<Observed>)
    ensures FreshRecords(cases, items) == Groups(cases, items) + Clears(cases, SeenOpen(cases, items))
  {
  }

  // -- the head when only clearings are left

  lemma {:induction false} ClearsHead(cases: seq<CaseView>, seen: set<CaseId>, at: Time) returns (c: CaseView)
    requires DistinctCases(cases) && Clears(cases, seen) != []
    ensures c in cases && !c.human.Resolved? && c.id !in seen && Clears(cases, seen)[0] == CaseConditionCleared(c.id)
    ensures Clears(Stepped(cases, CaseConditionCleared(c.id), at), seen) == Clears(cases, seen)[1..]
    decreases |cases|
  {
    if !cases[0].human.Resolved? && cases[0].id !in seen && cases[0].active {
      c := cases[0];
      assert forall i :: 0 <= i < |cases[1..]| ==> cases[1..][i].id != c.id;
      NoneTouched(cases[1..], CaseConditionCleared(c.id), at);
    } else {
      c := ClearsHead(cases[1..], seen, at);
      assert exists i :: 1 <= i < |cases| && cases[i] == c;
    }
  }

  lemma {:induction false} NoneTouched(cases: seq<CaseView>, r: InterventionRecord, at: Time)
    requires forall i :: 0 <= i < |cases| ==> About(r) != Some(cases[i].id)
    ensures Stepped(cases, r, at) == cases
    decreases |cases|
  {
    if cases != [] {
      assert forall i :: 0 <= i < |cases[1..]| ==> cases[1..][i] == cases[i + 1];
      NoneTouched(cases[1..], r, at);
    }
  }

  lemma {:induction false} FirstOpenOther(cases: seq<CaseView>, id: CaseId, at: Time)
    requires FirstOpen(cases).Some? && FirstOpen(cases).value.id != id
    ensures FirstOpen(Stepped(cases, CaseConditionCleared(id), at)) == FirstOpen(cases)
    decreases |cases|
  {
    if cases[0].human.Resolved? { FirstOpenOther(cases[1..], id, at); }
  }

  lemma {:induction false} InLocal(cases: seq<CaseView>, c: CaseView)
    requires c in cases
    ensures c in Local(cases, SlotOf(c.id))
    decreases |cases|
  {
    if cases[0] != c { InLocal(cases[1..], c); }
  }

  /** Clearing a case that no item met changes no group and no meeting. */
  lemma {:induction false} ClearingIsQuiet(cases: seq<CaseView>, items: seq<Observed>, c: CaseView, at: Time)
    requires c in cases && !c.human.Resolved? && c.id !in SeenOpen(cases, items)
    ensures Groups(CasesAfter(cases, CaseConditionCleared(c.id), at), items) == Groups(cases, items)
    ensures SeenOpen(CasesAfter(cases, CaseConditionCleared(c.id), at), items) == SeenOpen(cases, items)
    decreases |items|
  {
    if items != [] {
      ClearingIsQuiet(cases, items[1..], c, at);
      ClearingOneSlot(cases, items[0], c, at);
      hide CasesAfter, Local, FirstOpen, Group;
    }
  }

  lemma ClearingOneSlot(cases: seq<CaseView>, item: Observed, c: CaseView, at: Time)
    requires c in cases && !c.human.Resolved?
    requires var f := FirstOpen(Local(cases, ItemSlot(item))); f.Some? ==> f.value.id != c.id
    ensures var r := CaseConditionCleared(c.id);
            && Group(Local(CasesAfter(cases, r, at), ItemSlot(item)), item) == Group(Local(cases, ItemSlot(item)), item)
            && FirstOpen(Local(CasesAfter(cases, r, at), ItemSlot(item))) == FirstOpen(Local(cases, ItemSlot(item)))
  {
    var r := CaseConditionCleared(c.id);
    var slot := ItemSlot(item);
    LocalAfter(cases, r, at, slot);
    if SlotOf(c.id) == slot {
      InLocal(cases, c);
      FirstOpenFacts(Local(cases, slot));
      FirstOpenOther(Local(cases, slot), c.id, at);
      assert Stepped(Local(cases, slot), r, at) + [] == Stepped(Local(cases, slot), r, at);
    }
    hide Local, FirstOpen, Stepped, Opening, Updating;
  }

  lemma FreshClearHead(cases: seq<CaseView>, items: seq<Observed>, at: Time, later: Time)
    requires DistinctCases(cases) && Groups(cases, items) == [] && FreshRecords(cases, items) != []
    ensures var rs := FreshRecords(cases, items);
            HeadSound(cases, rs, at, later) && FreshRecords(HeadAfter(cases, rs, at, later), items) == rs[HeadLength(rs[0])..]
  {
    var seen := SeenOpen(cases, items);
    var c := ClearsHead(cases, seen, at);
    var r := CaseConditionCleared(c.id);
    ClearingIsQuiet(cases, items, c, at);
    StaysDistinct(cases, r, at);
    assert CasesAfter(cases, r, at) == Stepped(cases, r, at) by { assert Stepped(cases, r, at) + [] == Stepped(cases, r, at); }
    assert [] + Clears(cases, seen) == Clears(cases, seen);
    assert [] + Clears(cases, seen)[1..] == Clears(cases, seen)[1..];
    hide Groups, Clears, SeenOpen, Stepped, CasesAfter, DistinctCases;
  }

  /** Every non-empty batch: applying its head leaves exactly its rest to say. */
  lemma FreshHead(cases: seq<CaseView>, items: seq<Observed>, at: Time, later: Time)
    requires DistinctCases(cases) && DistinctSlots(items) && FreshRecords(cases, items) != []
    ensures var rs := FreshRecords(cases, items);
            HeadSound(cases, rs, at, later) && FreshRecords(HeadAfter(cases, rs, at, later), items) == rs[HeadLength(rs[0])..]
  {
    if Groups(cases, items) != [] { FreshGroupHead(cases, items, at, later); }
    else { FreshClearHead(cases, items, at, later); }
    hide *;
  }
}