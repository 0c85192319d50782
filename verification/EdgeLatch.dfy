/** Latches: terminal results, conflicts and closed gates under arbitrary robot events. */
module EdgeLatch {
  import opened Common
  import opened TaskContracts
  import opened EdgeViews
  import opened EdgeDecisions
  import opened EdgeLegality
  import opened EdgeRuns

  /** Nothing already settled about a task is ever unsettled. */
  predicate Latched(t: TaskView, u: TaskView) {
    && u.request == t.request
    && (t.IsTerminal() ==> u.evidence.state == t.evidence.state && u.evidence.first == t.evidence.first)
    && (t.AuthorizationConflict() ==> u.AuthorizationConflict())
    && (forall r :: r in t.reasons && Sticky(r) ==> r in u.reasons)
    && (TwoKinds(t.evidence) ==> TwoKinds(u.evidence))
  }

  lemma LatchedTransitive(t: TaskView, u: TaskView, w: TaskView)
    requires Latched(t, u) && Latched(u, w)
    ensures Latched(t, w)
  {
    hide TwoKinds;
  }

  predicate Sticky(r: FlagReason) {
    ClosesGate(r) || r.ConflictingTerminalReason? || r.SessionRegressionReason?
  }

  lemma StickyKept(reasons: set<FlagReason>, e: TaskEvent, d: Disposition, conflict: bool, flag: Option<FlagReason>)
    ensures forall r :: r in reasons && Sticky(r) ==> r in ReasonsStep(reasons, e, d, conflict, flag)
  {
  }

  lemma EvidenceLatched(v: TaskEvidence, e: TaskEvent, regressed: bool)
    requires EvidenceOk(v) && e.eventSequence >= 1
    ensures var c := Classify(v, e, regressed);
            var w := EvidenceStep(v, e, c.disposition, c.stateAfter, c.conflict);
            && (IsTerminalState(v.state) ==> w.state == v.state && w.first == v.first)
            && (v.effective == Some(Conflict) ==> w.effective == Some(Conflict))
            && (TwoKinds(v) ==> TwoKinds(w))
  {
    var c := Classify(v, e, regressed);
    var w := EvidenceStep(v, e, c.disposition, c.stateAfter, c.conflict);
    if IsTerminalState(v.state) { EventKeepsTerminal(v, e, regressed); }
    if v.effective == Some(Conflict) { EventKeepsConflict(v, e, regressed); }
    if !c.disposition.Duplicate? { TerminalAdded(v, w, e); }
    hide EvidenceOk, TwoKinds, Classify, Differs, Recorded;
  }

  lemma EventStepLatched(t: TaskView, e: TaskEvent, regressed: bool, n: nat, at: Time)
    requires EvidenceOk(t.evidence) && e.eventSequence >= 1
    ensures Latched(t, EventStep(t, Received(t.evidence, e, Classify(t.evidence, e, regressed)), n, at))
  {
    var c := Classify(t.evidence, e, regressed);
    EvidenceLatched(t.evidence, e, regressed);
    StickyKept(t.reasons, e, c.disposition, c.conflict, c.flagReason);
    hide EvidenceOk, TwoKinds, ClocksStep, ProspectiveGap, Classify, EvidenceStep, ReasonsStep;
  }

  /** Records other than robot events leave evidence alone, except that a conflict may be restated. */
  lemma OtherStepLatched(id: TaskId, t: TaskView, r: EdgeRecord, n: nat, at: Time)
    requires !(r.TaskEventReceived? && r.event.taskId == id)
    ensures Latched(t, TaskStep(id, t, r, n, at))
  {
    hide NoteEvidence, EventStep;
  }

  lemma StepLatched(cfg: EdgeConfig, s: EdgeState, st: Stamped, id: TaskId)
    requires Legal(cfg, s, st) && TasksOk(s) && id in s.tasks
    ensures id in Apply(s, st).tasks && Latched(s.tasks[id], Apply(s, st).tasks[id])
  {
    var t := s.tasks[id];
    assert EvidenceOk(t.evidence) by { assert TaskOk(id, t); }
    hide Legal, TasksOk, Apply, EvidenceOk, TaskStep, EventStep, Latched;
    KnownStep(cfg, s, st, id);
    if st.record.TaskEventReceived? && st.record.event.taskId == id {
      OwnEventStep(cfg, s, st, id);
      EventStepLatched(t, st.record.event, Regressed(s, st.record.event.robotId), s.applied + 1, st.at);
    } else {
      OtherStepLatched(id, t, st.record, s.applied + 1, st.at);
    }
  }

  lemma {:induction false} RunLatched(cfg: EdgeConfig, journal: seq<Stamped>, a: nat, b: nat, id: TaskId)
    requires LegalJournal(cfg, journal) && a <= b <= |journal| && id in At(cfg, journal, a).tasks
    ensures id in At(cfg, journal, b).tasks && Latched(At(cfg, journal, a).tasks[id], At(cfg, journal, b).tasks[id])
    decreases b
  {
    hide LegalJournal, At, Latched;
    if a == b {
      LatchedSelf(At(cfg, journal, a).tasks[id]);
    } else {
      RunLatched(cfg, journal, a, b - 1, id);
      StepAt(cfg, journal, b - 1);
      StepLatched(cfg, At(cfg, journal, b - 1), journal[b - 1], id);
      LatchedTransitive(At(cfg, journal, a).tasks[id], At(cfg, journal, b - 1).tasks[id], At(cfg, journal, b).tasks[id]);
    }
  }

  lemma LatchedSelf(t: TaskView)
    ensures Latched(t, t)
  {
  }

  /** A finished task keeps its state and its first terminal for the rest of every run. */
  lemma TerminalNeverChanges(cfg: EdgeConfig, choices: seq<EdgeChoice>, a: nat, b: nat, id: TaskId)
    requires var journal := EdgeRun(cfg, choices);
             a <= b <= |journal| && id in At(cfg, journal, a).tasks && At(cfg, journal, a).tasks[id].IsTerminal()
    ensures var journal := EdgeRun(cfg, choices);
            && id in At(cfg, journal, b).tasks
            && At(cfg, journal, b).tasks[id].evidence.state == At(cfg, journal, a).tasks[id].evidence.state
            && At(cfg, journal, b).tasks[id].evidence.first == At(cfg, journal, a).tasks[id].evidence.first
            && At(cfg, journal, b).tasks[id].evidence.first.Some?
  {
    var journal := EdgeRun(cfg, choices);
    RunLegal(cfg, choices);
    RunLatched(cfg, journal, a, b, id);
    TaskOkAt(cfg, journal, b, id);
    hide EdgeRun, At, LegalJournal, TwoKinds;
  }

  lemma TaskOkAt(cfg: EdgeConfig, journal: seq<Stamped>, n: nat, id: TaskId)
    requires LegalJournal(cfg, journal) && n <= |journal| && id in At(cfg, journal, n).tasks
    ensures TaskOk(id, At(cfg, journal, n).tasks[id])
  {
    InitialTasksOk(cfg);
    hide LegalBatch, TaskOk, ApplyAll;
    LegalPrefix(cfg, InitialEdge(cfg.robotIds), journal, n);
    LegalBatchKeepsTasks(cfg, InitialEdge(cfg.robotIds), journal[..n]);
  }

  /** A recorded conflict is never overwritten by any later evidence. */
  lemma ConflictNeverOverwritten(cfg: EdgeConfig, choices: seq<EdgeChoice>, a: nat, b: nat, id: TaskId)
    requires var journal := EdgeRun(cfg, choices);
             a <= b <= |journal| && id in At(cfg, journal, a).tasks && At(cfg, journal, a).tasks[id].AuthorizationConflict()
    ensures id in At(cfg, EdgeRun(cfg, choices), b).tasks && At(cfg, EdgeRun(cfg, choices), b).tasks[id].AuthorizationConflict()
  {
    RunLegal(cfg, choices);
    RunLatched(cfg, EdgeRun(cfg, choices), a, b, id);
    hide EdgeRun, At, LegalJournal, TwoKinds;
  }

  // -- the gate

  lemma ClosedTaskStays(t: TaskView, u: TaskView)
    requires Latched(t, u) && TaskClosesGate(t)
    ensures TaskClosesGate(u)
  {
    hide TwoKinds;
    if !t.AuthorizationConflict() {
      var r :| r in t.reasons && ClosesGate(r);
      assert r in u.reasons;
    }
  }

  lemma RegressionStays(s: EdgeState, st: Stamped, robot: RobotId)
    requires Regressed(s, robot)
    ensures Regressed(Apply(s, st), robot)
  {
    hide TasksAfter;
  }

  lemma {:induction false} ClosedGateStays(cfg: EdgeConfig, journal: seq<Stamped>, a: nat, b: nat, robot: RobotId)
    requires LegalJournal(cfg, journal) && a <= b <= |journal| && GateClosed(At(cfg, journal, a), robot)
    ensures GateClosed(At(cfg, journal, b), robot)
    decreases b
  {
    hide At, LegalJournal, GateClosed, Apply, Legal, TasksOk;
    if a < b {
      ClosedGateStays(cfg, journal, a, b - 1, robot);
      StepAt(cfg, journal, b - 1);
      GateStepStays(cfg, At(cfg, journal, b - 1), journal[b - 1], robot);
    }
  }

  /** A closed authorization gate stays closed in every later state of every run. */
  lemma GateNeverReopens(cfg: EdgeConfig, choices: seq<EdgeChoice>, a: nat, b: nat, robot: RobotId)
    requires a <= b <= |EdgeRun(cfg, choices)| && GateClosed(At(cfg, EdgeRun(cfg, choices), a), robot)
    ensures GateClosed(At(cfg, EdgeRun(cfg, choices), b), robot)
  {
    hide At, EdgeRun, GateClosed, ViewOf, TasksOk, LegalJournal;
    RunLegal(cfg, choices);
    ClosedGateStays(cfg, EdgeRun(cfg, choices), a, b, robot);
  }

  lemma GateStepStays(cfg: EdgeConfig, s: EdgeState, st: Stamped, robot: RobotId)
    requires Legal(cfg, s, st) && TasksOk(s) && GateClosed(s, robot)
    ensures GateClosed(Apply(s, st), robot)
  {
    if Regressed(s, robot) {
      RegressionStays(s, st, robot);
      hide Apply, TasksOk, Legal, TaskClosesGate;
    } else {
      var id :| id in s.tasks && s.tasks[id].request.targetRobot == robot && TaskClosesGate(s.tasks[id]);
      StepLatched(cfg, s, st, id);
      hide Apply, TasksOk, Legal;
      ClosedTaskStays(s.tasks[id], Apply(s, st).tasks[id]);
      hide TaskClosesGate;
    }
  }

  /** Two different terminal kinds recorded for a task close its robot's gate. */
  lemma TwoKindsCloseGate(cfg: EdgeConfig, choices: seq<EdgeChoice>, n: nat, id: TaskId)
    requires n <= |EdgeRun(cfg, choices)| && id in At(cfg, EdgeRun(cfg, choices), n).tasks
    requires TwoKinds(At(cfg, EdgeRun(cfg, choices), n).tasks[id].evidence)
    ensures GateClosed(At(cfg, EdgeRun(cfg, choices), n), At(cfg, EdgeRun(cfg, choices), n).tasks[id].request.targetRobot)
  {
    var s := At(cfg, EdgeRun(cfg, choices), n);
    RunLegal(cfg, choices);
    TaskOkAt(cfg, EdgeRun(cfg, choices), n, id);
    hide EdgeRun, At, TwoKinds, EvidenceOk;
    assert TaskClosesGate(s.tasks[id]) by {
      if !s.tasks[id].AuthorizationConflict() {
        assert UnexpectedRejectionReason in s.tasks[id].reasons && ClosesGate(UnexpectedRejectionReason);
      }
    }
  }

  /** CONFLICT is only ever reported over two different recorded terminals. */
  lemma ConflictHasTwoKinds(cfg: EdgeConfig, choices: seq<EdgeChoice>, n: nat, id: TaskId)
    requires n <= |EdgeRun(cfg, choices)| && id in At(cfg, EdgeRun(cfg, choices), n).tasks
    requires At(cfg, EdgeRun(cfg, choices), n).tasks[id].AuthorizationConflict()
    ensures TwoKinds(At(cfg, EdgeRun(cfg, choices), n).tasks[id].evidence)
  {
    RunLegal(cfg, choices);
    TaskOkAt(cfg, EdgeRun(cfg, choices), n, id);
    hide EdgeRun, At, TwoKinds;
  }

  // -- two kinds without CONFLICT: when exactly

  predicate Agreed(v: TaskEvidence) {
    TwoKinds(v) <==> v.effective == Some(Conflict)
  }

  /** A rejection above everything applied, of a task already accepted, while another terminal kind is on record and no CONFLICT is. */
  predicate RejectionOverEvidence(v: TaskEvidence, e: TaskEvent, regressed: bool) {
    && e.OrderKey() !in v.seen && !regressed
    && !IsTerminalState(v.state) && !v.state.Created? && Above(v, e)
    && e.kind.Rejected? && Differs(v, e) && v.effective != Some(Conflict)
  }

  /** After one event: a second kind is on record iff it was, or the event brought one. */
  lemma TwoKindsAfter(v: TaskEvidence, e: TaskEvent, regressed: bool)
    ensures var c := Classify(v, e, regressed);
            TwoKinds(EvidenceStep(v, e, c.disposition, c.stateAfter, c.conflict)) <==>
            TwoKinds(v) || (!c.disposition.Duplicate? && e.IsTerminal() && Differs(v, e))
  {
    var c := Classify(v, e, regressed);
    var w := EvidenceStep(v, e, c.disposition, c.stateAfter, c.conflict);
    assert !c.disposition.Duplicate? ==> w.terminals == AddTerminal(v, e);
    assert c.disposition.Duplicate? ==> w == v;
    hide Classify, TwoKinds, Differs, Recorded, AddTerminal;
    if !c.disposition.Duplicate? { TerminalAdded(v, w, e); }
  }

  /** Over evidence without CONFLICT, a different terminal raises it unless it is such a rejection. */
  lemma ConflictUnlessRejection(v: TaskEvidence, e: TaskEvent, regressed: bool)
    requires EvidenceOk(v) && e.eventSequence >= 1 && !TwoKinds(v) && v.effective != Some(Conflict)
    ensures var c := Classify(v, e, regressed);
            !c.disposition.Duplicate? && e.IsTerminal() && Differs(v, e) && !c.conflict <==> RejectionOverEvidence(v, e, regressed)
  {
    if v.first.Some? && Differs(v, e) { OnlyFirstKind(v, e); }
    hide TwoKinds, Recorded, Differs, KeyLess;
  }

  /** One event keeps "two kinds iff CONFLICT" exactly when it is not such a rejection. */
  lemma TwoKindsIffConflictExactly(v: TaskEvidence, e: TaskEvent, regressed: bool)
    requires EvidenceOk(v) && e.eventSequence >= 1 && Agreed(v)
    ensures var c := Classify(v, e, regressed);
            Agreed(EvidenceStep(v, e, c.disposition, c.stateAfter, c.conflict)) <==> !RejectionOverEvidence(v, e, regressed)
  {
    TwoKindsAfter(v, e, regressed);
    ConflictIsReal(v, e, regressed);
    if v.effective == Some(Conflict) {
      EventKeepsConflict(v, e, regressed);
    } else {
      ConflictUnlessRejection(v, e, regressed);
      hide TwoKinds, Recorded, Differs, KeyLess, Classify, EvidenceOk, RejectionOverEvidence;
    }
  }

  /** Three events after which two terminal kinds stand on record and no CONFLICT is reported. */
  lemma TwoKindsWithoutConflict(e: TaskEvent)
    ensures var progress := e.(kind := EventKind.Progress, bootSequence := 1, eventSequence := 5);
            var late := e.(kind := Failed, bootSequence := 1, eventSequence := 2);
            var rejection := e.(kind := EventKind.Rejected, bootSequence := 1, eventSequence := 6);
            var v1 := EvidenceStep(NO_EVIDENCE, progress, Applied, Running, false);
            var v2 := EvidenceStep(v1, late, LateEvidence, Running, false);
            var v3 := EvidenceStep(v2, rejection, UnexpectedRejection, Running, false);
            && Classify(NO_EVIDENCE, progress, false) == Verdict(Applied, Running, false, None, None)
            && Classify(v1, late, false) == Verdict(LateEvidence, Running, false, None, None)
            && Classify(v2, rejection, false)
               == Verdict(UnexpectedRejection, Running, false, Some(UnexpectedRejectionReason), Some(UnexpectedRejectionReason))
            && TwoKinds(v3) && v3.effective.None?
  {
    var rejection := e.(kind := EventKind.Rejected, bootSequence := 1, eventSequence := 6);
    var late := e.(kind := Failed, bootSequence := 1, eventSequence := 2);
    var progress := e.(kind := EventKind.Progress, bootSequence := 1, eventSequence := 5);
    var v1 := EvidenceStep(NO_EVIDENCE, progress, Applied, Running, false);
    var v3 := EvidenceStep(EvidenceStep(v1, late, LateEvidence, Running, false), rejection, UnexpectedRejection, Running, false);
    assert v3.terminals == [RefOf(late), RefOf(rejection)];
    assert v3.terminals[0].kind != v3.terminals[1].kind;
  }
}
