/** Which record may follow which Edge state, and what every legal record preserves. */
module EdgeLegality {
  import opened Common
  import opened TaskContracts
  import opened EdgeViews
  import opened EdgeDecisions

  // -- evidence invariants

  predicate TwoKinds(v: TaskEvidence) {
    exists i, j :: 0 <= i < |v.terminals| && 0 <= j < |v.terminals| && v.terminals[i].kind != v.terminals[j].kind
  }

  predicate Recorded(v: TaskEvidence, k: EventKind) {
    exists i :: 0 <= i < |v.terminals| && v.terminals[i].kind == k
  }

  /** What classified evidence always satisfies. */
  ghost predicate EvidenceOk(v: TaskEvidence) {
    && (v.first.Some? <==> IsTerminalState(v.state))
    && (v.first.Some? ==> v.state == StateOf(v.first.value.kind) && Recorded(v, v.first.value.kind))
    && (v.effective == Some(Conflict) ==> TwoKinds(v))
    && (v.effective.Some? && v.effective.value.Reported? ==> v.first.Some? && v.effective.value.kind == v.first.value.kind)
    && (v.effective.None? ==> v.first.None?)
    && (v.state.Created? <==> v.appliedMax.None?)
    && (v.appliedMax.Some? ==> v.appliedMax.value in v.seen)
    && (forall k :: k in v.seen ==> v.seen[k].OrderKey() == k)
  }

  /** Two different terminal kinds are always answered: by CONFLICT or by an unexpected rejection. */
  ghost predicate TwoKindsAnswered(t: TaskView) {
    TwoKinds(t.evidence) ==> t.AuthorizationConflict() || UnexpectedRejectionReason in t.reasons
  }

  ghost predicate TaskOk(id: TaskId, t: TaskView) {
    && t.request.taskId == id
    && EvidenceOk(t.evidence)
    && TwoKindsAnswered(t)
  }

  ghost predicate TasksOk(s: EdgeState) {
    forall id :: id in s.tasks ==> TaskOk(id, s.tasks[id])
  }

  // -- legal records

  predicate Regressed(s: EdgeState, robot: RobotId) {
    robot in s.devices && s.devices[robot].sessionRegression
  }

  predicate LegalEvent(s: EdgeState, r: EdgeRecord)
    requires r.TaskEventReceived?
  {
    var e := r.event;
    && e.taskId in s.tasks && e.eventSequence >= 1
    && e.robotId == s.tasks[e.taskId].request.targetRobot
    && r == Received(s.tasks[e.taskId].evidence, e, Classify(s.tasks[e.taskId].evidence, e, Regressed(s, e.robotId)))
  }

  predicate Legal(cfg: EdgeConfig, s: EdgeState, st: Stamped) {
    match st.record
    case TaskCreated(request) =>
      && request.taskId !in s.tasks && st.at < request.expiresAt
      && !GateClosed(s, request.targetRobot) && !HasActiveTask(s, request.targetRobot)
      && request.targetRobot in s.devices && s.devices[request.targetRobot].boot.Some?
      && s.devices[request.targetRobot].boot.value.incarnation == request.targetIncarnation
    case TaskPublishAttempted(id, post) =>
      Candidate(s, cfg, id, st.at) && post == (st.at >= s.tasks[id].request.expiresAt)
    case TaskPublishConfirmed(id, _) => id in s.tasks
    case TaskEventReceived(_, _, _, _, _, _, _) => LegalEvent(s, st.record)
    case RobotRequestRejected(id) => id in s.tasks
    case TaskReconciliationFlagged(id, reason) =>
      && id in s.tasks
      && (ClosesGate(reason) ==> reason in s.tasks[id].reasons)
      && (reason.ConflictingTerminalReason? ==> s.tasks[id].AuthorizationConflict())
    case ConflictingTerminal(id) => id in s.tasks && s.tasks[id].AuthorizationConflict()
    case _ => true
  }

  predicate LegalBatch(cfg: EdgeConfig, s: EdgeState, sts: seq<Stamped>)
    decreases |sts|
  {
    sts == [] || (Legal(cfg, s, sts[0]) && LegalBatch(cfg, Apply(s, sts[0]), sts[1..]))
  }

  // -- one classified event keeps the evidence consistent

  lemma TerminalAdded(v: TaskEvidence, w: TaskEvidence, e: TaskEvent)
    requires w.terminals == AddTerminal(v, e)
    ensures TwoKinds(v) ==> TwoKinds(w)
    ensures forall k :: Recorded(v, k) ==> Recorded(w, k)
    ensures e.IsTerminal() ==> Recorded(w, e.kind)
    ensures e.IsTerminal() && Differs(v, e) ==> TwoKinds(w)
    ensures TwoKinds(w) ==> TwoKinds(v) || (e.IsTerminal() && Differs(v, e))
  {
    assert forall i :: 0 <= i < |v.terminals| ==> w.terminals[i] == v.terminals[i];
    if e.IsTerminal() {
      assert w.terminals[|v.terminals|].kind == e.kind;
      if Differs(v, e) {
        var i :| 0 <= i < |v.terminals| && v.terminals[i].kind != e.kind;
        assert w.terminals[i].kind != w.terminals[|v.terminals|].kind;
      }
      if TwoKinds(w) && !TwoKinds(v) {
        var i, j :| 0 <= i < |w.terminals| && 0 <= j < |w.terminals| && w.terminals[i].kind != w.terminals[j].kind;
        var k := if i < |v.terminals| && v.terminals[i].kind != e.kind then i else j;
        assert k < |v.terminals| && v.terminals[k].kind != e.kind;
      }
    }
  }

  lemma DiffersFromFirst(v: TaskEvidence, e: TaskEvent)
    requires v.first.Some? && Recorded(v, v.first.value.kind) && e.kind != v.first.value.kind
    ensures Differs(v, e)
  {
  }

  /** A conflict is announced only when the event's kind really differs from a recorded terminal. */
  lemma ConflictIsReal(v: TaskEvidence, e: TaskEvent, regressed: bool)
    requires EvidenceOk(v) && e.eventSequence >= 1
    ensures Classify(v, e, regressed).conflict ==> e.IsTerminal() && Differs(v, e)
  {
    if v.first.Some? && e.kind != v.first.value.kind { DiffersFromFirst(v, e); }
  }

  lemma AppliedKeepsEvidence(v: TaskEvidence, e: TaskEvent, conflict: bool)
    requires EvidenceOk(v) && !IsTerminalState(v.state) && e.eventSequence >= 1
    requires conflict ==> e.IsTerminal() && Differs(v, e)
    requires v.effective == Some(Conflict) && e.IsTerminal() ==> conflict
    ensures EvidenceOk(EvidenceStep(v, e, Applied, StateOf(e.kind), conflict))
  {
    var w := EvidenceStep(v, e, Applied, StateOf(e.kind), conflict);
    TerminalAdded(v, w, e);
    hide TwoKinds, Recorded, Differs;
  }

  lemma NotedKeepsEvidence(v: TaskEvidence, e: TaskEvent, d: Disposition, conflict: bool)
    requires EvidenceOk(v) && !d.Applied? && e.eventSequence >= 1
    requires conflict ==> e.IsTerminal() && Differs(v, e)
    ensures EvidenceOk(EvidenceStep(v, e, d, v.state, conflict))
  {
    var w := EvidenceStep(v, e, d, v.state, conflict);
    if !d.Duplicate? { TerminalAdded(v, w, e); }
    hide TwoKinds, Recorded, Differs;
  }

  /** The state after: the event's own when applied, otherwise unchanged. */
  lemma VerdictShape(v: TaskEvidence, e: TaskEvent, regressed: bool)
    ensures var c := Classify(v, e, regressed);
            && (c.disposition.Applied? ==> !IsTerminalState(v.state) && c.stateAfter == StateOf(e.kind) && !regressed && Above(v, e)
                                           && e.OrderKey() !in v.seen && (e.IsTerminal() ==> c.conflict == Differs(v, e)))
            && (!c.disposition.Applied? ==> c.stateAfter == v.state)
  {
    hide Differs, KeyLess;
  }

  lemma EventKeepsEvidence(v: TaskEvidence, e: TaskEvent, regressed: bool)
    requires EvidenceOk(v) && e.eventSequence >= 1
    ensures var c := Classify(v, e, regressed);
            EvidenceOk(EvidenceStep(v, e, c.disposition, c.stateAfter, c.conflict))
  {
    var c := Classify(v, e, regressed);
    ConflictIsReal(v, e, regressed);
    VerdictShape(v, e, regressed);
    if v.effective == Some(Conflict) { TwoKindsDiffer(v, e); }
    hide EvidenceStep, Classify, TwoKinds, Recorded, Differs, KeyLess;
    if c.disposition.Applied? {
      AppliedKeepsEvidence(v, e, c.conflict);
    } else {
      NotedKeepsEvidence(v, e, c.disposition, c.conflict);
    }
  }

  /** When an event makes the kinds differ, either CONFLICT is set or the rejection is flagged. */
  lemma EventAnswersTwoKinds(v: TaskEvidence, e: TaskEvent, regressed: bool)
    requires EvidenceOk(v) && e.eventSequence >= 1
    ensures var c := Classify(v, e, regressed);
            var w := EvidenceStep(v, e, c.disposition, c.stateAfter, c.conflict);
            TwoKinds(w) && !TwoKinds(v) ==> w.effective == Some(Conflict) || c.flagReason == Some(UnexpectedRejectionReason)
  {
    var c := Classify(v, e, regressed);
    var w := EvidenceStep(v, e, c.disposition, c.stateAfter, c.conflict);
    if !c.disposition.Duplicate? { TerminalAdded(v, w, e); }
    if TwoKinds(w) && !TwoKinds(v) {
      assert e.IsTerminal() && Differs(v, e);
      if v.first.Some? { OnlyFirstKind(v, e); }
    }
    hide TwoKinds, Recorded, Differs, KeyLess;
  }

  /** With one kind recorded, an event differing from a terminal differs from the first one. */
  lemma OnlyFirstKind(v: TaskEvidence, e: TaskEvent)
    requires v.first.Some? && Recorded(v, v.first.value.kind) && !TwoKinds(v) && Differs(v, e)
    ensures e.kind != v.first.value.kind
  {
    var i :| 0 <= i < |v.terminals| && v.terminals[i].kind != e.kind;
    var j :| 0 <= j < |v.terminals| && v.terminals[j].kind == v.first.value.kind;
    assert v.terminals[i].kind == v.terminals[j].kind;
  }

  /** CONFLICT is never overwritten by a classified event. */
  lemma EventKeepsConflict(v: TaskEvidence, e: TaskEvent, regressed: bool)
    requires EvidenceOk(v) && e.eventSequence >= 1 && v.effective == Some(Conflict)
    ensures var c := Classify(v, e, regressed);
            EvidenceStep(v, e, c.disposition, c.stateAfter, c.conflict).effective == Some(Conflict)
  {
    TwoKindsDiffer(v, e);
    hide TwoKinds, Recorded, Differs, KeyLess;
  }

  lemma TwoKindsDiffer(v: TaskEvidence, e: TaskEvent)
    requires TwoKinds(v)
    ensures Differs(v, e)
  {
    var i, j :| 0 <= i < |v.terminals| && 0 <= j < |v.terminals| && v.terminals[i].kind != v.terminals[j].kind;
    assert v.terminals[i].kind != e.kind || v.terminals[j].kind != e.kind;
  }

  /** A finished task keeps its state and its first terminal whatever arrives. */
  lemma EventKeepsTerminal(v: TaskEvidence, e: TaskEvent, regressed: bool)
    requires IsTerminalState(v.state)
    ensures var c := Classify(v, e, regressed);
            var w := EvidenceStep(v, e, c.disposition, c.stateAfter, c.conflict);
            w.state == v.state && w.first == v.first
  {
  }

  // -- one legal record keeps a task consistent

  lemma EventStepKeepsTask(id: TaskId, t: TaskView, e: TaskEvent, regressed: bool, n: nat, at: Time)
    requires TaskOk(id, t) && e.eventSequence >= 1
    ensures TaskOk(id, EventStep(t, Received(t.evidence, e, Classify(t.evidence, e, regressed)), n, at))
  {
    var c := Classify(t.evidence, e, regressed);
    EventKeepsEvidence(t.evidence, e, regressed);
    EventAnswersTwoKinds(t.evidence, e, regressed);
    UnexpectedRejectionCounts(t.evidence, e, regressed);
    if t.AuthorizationConflict() { EventKeepsConflict(t.evidence, e, regressed); }
    hide EvidenceOk, TwoKinds, EvidenceStep, ClocksStep, ProspectiveGap, Classify;
  }

  lemma StepKeepsTask(cfg: EdgeConfig, s: EdgeState, st: Stamped, id: TaskId)
    requires Legal(cfg, s, st) && id in s.tasks && TaskOk(id, s.tasks[id])
    ensures TaskOk(id, TaskStep(id, s.tasks[id], st.record, s.applied + 1, st.at))
  {
    var t := s.tasks[id];
    var r := st.record;
    if r.TaskEventReceived? && r.event.taskId == id {
      EventStepKeepsTask(id, t, r.event, Regressed(s, r.event.robotId), s.applied + 1, st.at);
      hide TaskOk, EventStep;
    } else {
      hide EvidenceOk, TwoKinds, NoteEvidence;
      if r.ConflictingTerminal? && r.conflicted == id {
        assert t.evidence.(effective := Some(Conflict)) == t.evidence;
      }
    }
  }

  /** What a legal record makes of a known task. */
  lemma KnownStep(cfg: EdgeConfig, s: EdgeState, st: Stamped, id: TaskId)
    requires Legal(cfg, s, st) && id in s.tasks
    ensures id in Apply(s, st).tasks && Apply(s, st).applied == s.applied + 1
    ensures Apply(s, st).tasks[id] == TaskStep(id, s.tasks[id], st.record, s.applied + 1, st.at)
    ensures Apply(s, st).tasks[id].request == s.tasks[id].request
  {
    hide DevicesAfter, LegalEvent, EvidenceStep, ReasonsStep, ClocksStep, NoteEvidence;
  }

  /** A legal evidence record is the classification of its event. */
  lemma OwnEventStep(cfg: EdgeConfig, s: EdgeState, st: Stamped, id: TaskId)
    requires Legal(cfg, s, st) && id in s.tasks && st.record.TaskEventReceived? && st.record.event.taskId == id
    ensures var t, e := s.tasks[id], st.record.event;
            && e.eventSequence >= 1 && e.robotId == t.request.targetRobot
            && TaskStep(id, t, st.record, s.applied + 1, st.at)
               == EventStep(t, Received(t.evidence, e, Classify(t.evidence, e, Regressed(s, e.robotId))), s.applied + 1, st.at)
  {
    hide Classify, Received, EventStep;
  }

  lemma UnexpectedRejectionCounts(v: TaskEvidence, e: TaskEvent, regressed: bool)
    ensures var c := Classify(v, e, regressed);
            && (c.flagReason == Some(UnexpectedRejectionReason) ==> Counts(c.disposition))
            && (c.disposition.ConflictingReplay? ==> c.flagReason.None?)
  {
    hide Differs, KeyLess;
  }

  lemma LegalKeepsTasks(cfg: EdgeConfig, s: EdgeState, st: Stamped)
    requires Legal(cfg, s, st) && TasksOk(s)
    ensures TasksOk(Apply(s, st))
  {
    var after := Apply(s, st);
    forall id | id in after.tasks ensures TaskOk(id, after.tasks[id]) {
      if id in s.tasks {
        KnownStep(cfg, s, st, id);
        StepKeepsTask(cfg, s, st, id);
        hide TaskOk, TaskStep, Legal, Apply;
      } else {
        CreatedStep(cfg, s, st, id);
        NewTaskOk(st.record.request, st.at);
        hide TaskOk, Legal, Apply;
      }
    }
    hide TaskOk, Apply;
  }

  lemma CreatedStep(cfg: EdgeConfig, s: EdgeState, st: Stamped, id: TaskId)
    requires Legal(cfg, s, st) && id !in s.tasks && id in Apply(s, st).tasks
    ensures st.record.TaskCreated? && st.record.request.taskId == id && Apply(s, st).tasks[id] == NewTaskView(st.record.request, st.at)
  {
    hide DevicesAfter, LegalEvent, TaskStep, GateClosed;
  }

  lemma NewTaskOk(request: TaskRequest, at: Time)
    ensures TaskOk(request.taskId, NewTaskView(request, at))
  {
  }

  // -- chains of legal records

  lemma {:induction false} LegalBatchKeepsTasks(cfg: EdgeConfig, s: EdgeState, sts: seq<Stamped>)
    requires TasksOk(s) && LegalBatch(cfg, s, sts)
    ensures TasksOk(ApplyAll(s, sts))
    decreases |sts|
  {
    hide TasksOk, Legal, Apply;
    if sts != [] {
      LegalKeepsTasks(cfg, s, sts[0]);
      LegalBatchKeepsTasks(cfg, Apply(s, sts[0]), sts[1..]);
    }
  }

  lemma {:induction false} LegalPrefix(cfg: EdgeConfig, s: EdgeState, sts: seq<Stamped>, k: nat)
    requires LegalBatch(cfg, s, sts) && k <= |sts|
    ensures LegalBatch(cfg, s, sts[..k])
    decreases k
  {
    hide Legal, Apply;
    if k > 0 {
      LegalPrefix(cfg, Apply(s, sts[0]), sts[1..], k - 1);
      assert sts[..k][1..] == sts[1..][..k - 1];
    }
  }

  lemma {:induction false} LegalConcat(cfg: EdgeConfig, s: EdgeState, a: seq<Stamped>, b: seq<Stamped>)
    requires LegalBatch(cfg, s, a) && LegalBatch(cfg, ApplyAll(s, a), b)
    ensures LegalBatch(cfg, s, a + b)
    decreases |a|
  {
    hide Legal, Apply;
    if a == [] {
      assert a + b == b;
    } else {
      LegalConcat(cfg, Apply(s, a[0]), a[1..], b);
      assert (a + b)[1..] == a[1..] + b;
    }
  }
}
