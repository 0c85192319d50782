/** What the Edge concludes from any subset of one robot history, in any order, with any repetition. */
module AgreementEvidence {
  import opened Common
  import opened TaskContracts
  import opened EdgeViews
  import opened EdgeDecisions
  import opened RobotLegality

  predicate InHistory(history: seq<TaskEvent>, e: TaskEvent) {
    exists i :: 0 <= i < |history| && history[i] == e
  }

  ghost predicate Subset(history: seq<TaskEvent>, delivered: set<TaskEvent>) {
    forall e :: e in delivered ==> InHistory(history, e)
  }

  /** The latest event of a non-empty delivered set. */
  predicate Latest(delivered: set<TaskEvent>, e: TaskEvent) {
    e in delivered && forall x :: x in delivered && x != e ==> KeyLess(x.OrderKey(), e.OrderKey())
  }

  /** Everything the Edge concludes is a function of the set of delivered events. */
  ghost predicate Agrees(v: TaskEvidence, delivered: set<TaskEvent>) {
    && (forall e :: e in delivered ==> e.OrderKey() in v.seen && v.seen[e.OrderKey()] == e)
    && (forall k :: k in v.seen ==> v.seen[k] in delivered && v.seen[k].OrderKey() == k)
    && v.conflicting == {}
    && (v.appliedMax.None? <==> delivered == {})
    && (v.appliedMax.Some? ==>
          && v.appliedMax.value in v.seen
          && Latest(delivered, v.seen[v.appliedMax.value])
          && v.state == StateOf(v.seen[v.appliedMax.value].kind))
    && (v.appliedMax.None? ==> v.state.Created?)
    && (v.acceptanceObserved <==> exists e :: e in delivered && e.kind.Accepted?)
    && v.terminals == (if IsTerminalState(v.state) then [RefOf(v.seen[v.appliedMax.value])] else [])
    && v.first == (if IsTerminalState(v.state) then Some(RefOf(v.seen[v.appliedMax.value])) else None)
    && v.effective == (if IsTerminalState(v.state) then Some(Reported(v.seen[v.appliedMax.value].kind)) else None)
  }

  // -- facts about one history

  lemma SameKeySameEvent(history: seq<TaskEvent>, a: TaskEvent, b: TaskEvent)
    requires HistoryOk(history) && InHistory(history, a) && InHistory(history, b)
    ensures a.OrderKey() == b.OrderKey() ==> a == b
    ensures a == b || KeyLess(a.OrderKey(), b.OrderKey()) || KeyLess(b.OrderKey(), a.OrderKey())
    ensures a.eventSequence >= 1
  {
    var i :| 0 <= i < |history| && history[i] == a;
    var j :| 0 <= j < |history| && history[j] == b;
    if i < j { HistoryKeysIncrease(history, i, j); }
    else if j < i { HistoryKeysIncrease(history, j, i); }
    else { HistoryPositive(history, i); }
  }

  lemma HistoryPositive(history: seq<TaskEvent>, i: nat)
    requires HistoryOk(history) && i < |history|
    ensures history[i].eventSequence >= 1
  {
    if i > 0 { assert Follows(history[i - 1], history[i]); }
  }

  /** A terminal comes last, an opener first. */
  lemma HistoryEnds(history: seq<TaskEvent>, a: TaskEvent, b: TaskEvent)
    requires HistoryOk(history) && InHistory(history, a) && InHistory(history, b) && a != b
    ensures IsTerminalKind(a.kind) ==> KeyLess(b.OrderKey(), a.OrderKey()) && !IsTerminalKind(b.kind)
    ensures a.kind.Accepted? || a.kind.Rejected? ==> KeyLess(a.OrderKey(), b.OrderKey())
  {
    var i :| 0 <= i < |history| && history[i] == a;
    var j :| 0 <= j < |history| && history[j] == b;
    if i < j { HistoryKeysIncrease(history, i, j); }
    else { HistoryKeysIncrease(history, j, i); }
  }

  // -- one more delivery

  ghost predicate QuietVerdict(c: Verdict) {
    !c.conflict && c.flagReason.None? && c.flag.None?
  }

  lemma DuplicateDelivery(history: seq<TaskEvent>, v: TaskEvidence, delivered: set<TaskEvent>, e: TaskEvent)
    requires HistoryOk(history) && Subset(history, delivered) && InHistory(history, e) && Agrees(v, delivered)
    requires e.OrderKey() in v.seen
    ensures e in delivered && Classify(v, e, false) == Verdict(Duplicate, v.state, false, None, None)
  {
    SameKeySameEvent(history, v.seen[e.OrderKey()], e);
  }

  lemma NewDelivery(history: seq<TaskEvent>, v: TaskEvidence, delivered: set<TaskEvent>, e: TaskEvent)
    requires HistoryOk(history) && Subset(history, delivered) && InHistory(history, e) && Agrees(v, delivered)
    requires e.OrderKey() !in v.seen
    ensures e !in delivered
    ensures Above(v, e) <==> forall x :: x in delivered ==> KeyLess(x.OrderKey(), e.OrderKey())
    ensures e.kind.Accepted? || e.kind.Rejected? ==> (Above(v, e) <==> delivered == {})
    ensures IsTerminalKind(e.kind) ==> Above(v, e)
    ensures IsTerminalState(v.state) ==> !Above(v, e) && !IsTerminalKind(e.kind)
    ensures e.eventSequence >= 1
  {
    SameKeySameEvent(history, e, e);
    if v.appliedMax.Some? {
      var top := v.seen[v.appliedMax.value];
      assert InHistory(history, top) && top != e;
      SameKeySameEvent(history, top, e);
      HistoryEnds(history, e, top);
      HistoryEnds(history, top, e);
    }
  }

  /** Late or applied, never an anomaly: the verdict of a new event from the history. */
  lemma NewVerdict(history: seq<TaskEvent>, v: TaskEvidence, delivered: set<TaskEvent>, e: TaskEvent)
    requires HistoryOk(history) && Subset(history, delivered) && InHistory(history, e) && Agrees(v, delivered)
    requires e.OrderKey() !in v.seen
    ensures Classify(v, e, false)
         == if Above(v, e) then Verdict(Applied, StateOf(e.kind), false, None, None)
            else Verdict(LateEvidence, v.state, false, None, None)
  {
    NewDelivery(history, v, delivered, e);
    hide HistoryOk, Subset, InHistory, KeyLess, Latest;
  }

  lemma AppliedExtends(v: TaskEvidence, delivered: set<TaskEvent>, e: TaskEvent)
    requires Agrees(v, delivered) && e.OrderKey() !in v.seen && e !in delivered
    requires Latest(delivered + {e}, e) && !IsTerminalState(v.state) && e.eventSequence >= 1
    ensures Agrees(EvidenceStep(v, e, Applied, StateOf(e.kind), false), delivered + {e})
  {
    hide Latest, KeyLess;
    var w := EvidenceStep(v, e, Applied, StateOf(e.kind), false);
    assert e in delivered + {e};
    assert w.acceptanceObserved <==> exists x :: x in delivered + {e} && x.kind.Accepted?;
  }

  lemma AppliedAgrees(history: seq<TaskEvent>, v: TaskEvidence, delivered: set<TaskEvent>, e: TaskEvent)
    requires HistoryOk(history) && Subset(history, delivered) && InHistory(history, e) && Agrees(v, delivered)
    requires e.OrderKey() !in v.seen && Above(v, e)
    ensures Agrees(EvidenceStep(v, e, Applied, StateOf(e.kind), false), delivered + {e})
  {
    NewDelivery(history, v, delivered, e);
    hide HistoryOk, Subset, InHistory, KeyLess, Agrees, Above, EvidenceStep;
    assert Latest(delivered + {e}, e);
    AppliedExtends(v, delivered, e);
  }

  lemma LateExtends(v: TaskEvidence, delivered: set<TaskEvent>, e: TaskEvent)
    requires Agrees(v, delivered) && e.OrderKey() !in v.seen && e !in delivered && v.appliedMax.Some?
    requires Latest(delivered + {e}, v.seen[v.appliedMax.value]) && !IsTerminalKind(e.kind)
    ensures Agrees(EvidenceStep(v, e, LateEvidence, v.state, false), delivered + {e})
  {
    hide Latest, KeyLess;
    var w := EvidenceStep(v, e, LateEvidence, v.state, false);
    assert e in delivered + {e};
    assert w.acceptanceObserved <==> exists x :: x in delivered + {e} && x.kind.Accepted?;
  }

  lemma LateAgrees(history: seq<TaskEvent>, v: TaskEvidence, delivered: set<TaskEvent>, e: TaskEvent)
    requires HistoryOk(history) && Subset(history, delivered) && InHistory(history, e) && Agrees(v, delivered)
    requires e.OrderKey() !in v.seen && !Above(v, e)
    ensures Agrees(EvidenceStep(v, e, LateEvidence, v.state, false), delivered + {e})
  {
    NewDelivery(history, v, delivered, e);
    var top := v.seen[v.appliedMax.value];
    assert InHistory(history, top) && top != e;
    SameKeySameEvent(history, top, e);
    assert Latest(delivered + {e}, top);
    hide HistoryOk, Subset, InHistory, KeyLess, Agrees, EvidenceStep, Latest;
    LateExtends(v, delivered, e);
  }

  /** Delivering one event of the history keeps the agreement, and raises no anomaly. */
  lemma DeliveryAgrees(history: seq<TaskEvent>, v: TaskEvidence, delivered: set<TaskEvent>, e: TaskEvent)
    requires HistoryOk(history) && Subset(history, delivered) && InHistory(history, e) && Agrees(v, delivered)
    ensures var c := Classify(v, e, false);
            && QuietVerdict(c)
            && Agrees(EvidenceStep(v, e, c.disposition, c.stateAfter, c.conflict), delivered + {e})
  {
    if e.OrderKey() in v.seen {
      DuplicateDelivery(history, v, delivered, e);
      assert delivered + {e} == delivered;
    } else {
      NewVerdict(history, v, delivered, e);
      if Above(v, e) { AppliedAgrees(history, v, delivered, e); }
      else { LateAgrees(history, v, delivered, e); }
    }
    hide Classify, EvidenceStep, HistoryOk, Subset, InHistory, Agrees;
  }

  lemma NothingDelivered()
    ensures Agrees(NO_EVIDENCE, {})
  {
  }

  lemma LatestUnique(delivered: set<TaskEvent>, a: TaskEvent, b: TaskEvent)
    requires Latest(delivered, a) && Latest(delivered, b)
    ensures a == b
  {
  }

  /** Two Edges that were delivered the same events conclude the same, whatever the order and repetition. */
  lemma SameSetSameConclusion(v: TaskEvidence, w: TaskEvidence, delivered: set<TaskEvent>)
    requires Agrees(v, delivered) && Agrees(w, delivered)
    ensures v.state == w.state && v.appliedMax == w.appliedMax && v.acceptanceObserved == w.acceptanceObserved
    ensures v.seen == w.seen && v.terminals == w.terminals && v.first == w.first && v.effective == w.effective
    ensures Missing(v) == Missing(w)
  {
    if delivered != {} {
      var a, b := v.seen[v.appliedMax.value], w.seen[w.appliedMax.value];
      LatestUnique(delivered, a, b);
    }
    assert v.seen == w.seen;
    hide Latest;
  }

  lemma SomeElement(s: seq<nat>)
    ensures s != [] ==> exists n :: n in s
  {
    if s != [] { assert s[0] in s; }
  }

  /** With the whole history delivered nothing is missing. */
  lemma WholeHistoryMissesNothing(history: seq<TaskEvent>, v: TaskEvidence, delivered: set<TaskEvent>)
    requires HistoryOk(history) && Subset(history, delivered) && Agrees(v, delivered)
    requires forall i :: 0 <= i < |history| ==> history[i] in delivered
    ensures Missing(v) == []
  {
    if v.appliedMax.Some? {
      var top := v.seen[v.appliedMax.value];
      assert InHistory(history, top);
      var i :| 0 <= i < |history| && history[i] == top;
      forall n | 1 <= n <= top.eventSequence ensures Key(top.bootSequence, n) in v.seen.Keys {
        var k := HistoryContiguous(history, i, n);
        assert history[k] in delivered && history[k].OrderKey() == Key(top.bootSequence, n);
      }
      assert forall n :: n !in Missing(v);
      SomeElement(Missing(v));
    }
  }
}
