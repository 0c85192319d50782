/** What one received event does to a task, told from the fields of the task and of the event alone. */
module EdgeMeaning {
  import opened Common
  import opened TaskContracts
  import opened EdgeViews
  import opened EdgeDecisions
  import opened EdgeLegality

  /** The event's key is not held yet. */
  predicate Fresh(v: TaskEvidence, e: TaskEvent) { e.OrderKey() !in v.seen }

  /** Its key is held, with other content. */
  predicate Contradicts(v: TaskEvidence, e: TaskEvent) { e.OrderKey() in v.seen && v.seen[e.OrderKey()] != e }

  /** It comes after everything that moved the task so far. */
  predicate Latest(v: TaskEvidence, e: TaskEvent) { v.appliedMax.None? || KeyLess(v.appliedMax.value, e.OrderKey()) }

  /** A terminal of another kind is on record. */
  predicate OtherResultKnown(v: TaskEvidence, e: TaskEvent) {
    e.kind in {Succeeded, Failed, Inconclusive, EventKind.Rejected} && exists r :: r in v.terminals && r.kind != e.kind
  }

  /** The event moves the task: fresh, latest, from a robot in continuity, on an unfinished task; an opening only of an unopened one. */
  predicate Moves(v: TaskEvidence, e: TaskEvent, regressed: bool) {
    && Fresh(v, e) && Latest(v, e) && !regressed
    && v.state in {Created, AcceptedState, Running, BlockedAwaitingHuman}
    && (e.kind in {EventKind.Accepted, EventKind.Rejected} ==> v.state == Created)
  }

  /** The state a moving event leads to, kind by kind. */
  predicate LeadsTo(k: EventKind, s: TaskState) {
    && (k.Accepted? <==> s.AcceptedState?) && (k.Rejected? <==> s.RejectedState?)
    && (k.Progress? <==> s.Running?) && (k.AssistanceRequired? <==> s.BlockedAwaitingHuman?)
    && (k.Succeeded? <==> s.SucceededState?) && (k.Failed? <==> s.FailedState?) && (k.Inconclusive? <==> s.InconclusiveState?)
  }

  /** A rejection that comes too late to reject: latest, of a task that was opened and is not finished. */
  predicate LateRejection(v: TaskEvidence, e: TaskEvent, regressed: bool) {
    Fresh(v, e) && Latest(v, e) && !regressed && e.kind == EventKind.Rejected && v.state in {AcceptedState, Running, BlockedAwaitingHuman}
  }

  /** It is recorded as another result: a fresh one, or a contradiction not seen before. */
  predicate Counted(v: TaskEvidence, e: TaskEvent) { Fresh(v, e) || (Contradicts(v, e) && e !in v.conflicting) }

  /** It makes the results conflict: a second kind, unless as a late rejection, which closes the gate by its own reason. */
  predicate MakesConflict(v: TaskEvidence, e: TaskEvent, regressed: bool) {
    Counted(v, e) && OtherResultKnown(v, e) && !LateRejection(v, e, regressed)
  }

  /** The evidence after, field by field. */
  ghost predicate Becomes(v: TaskEvidence, e: TaskEvent, regressed: bool, w: TaskEvidence) {
    && (if Moves(v, e, regressed) then LeadsTo(e.kind, w.state) && w.appliedMax == Some(e.OrderKey())
        else w.state == v.state && w.appliedMax == v.appliedMax)
    && w.seen == (if Fresh(v, e) then v.seen[e.OrderKey() := e] else v.seen)
    && w.conflicting == (if Contradicts(v, e) then v.conflicting + {e} else v.conflicting)
    && w.terminals == v.terminals
         + (if Counted(v, e) && e.kind in {Succeeded, Failed, Inconclusive, EventKind.Rejected} then [TerminalRef(e.kind, e.OrderKey(), e.reason)] else [])
    && w.first == (if Moves(v, e, regressed) && e.kind in {Succeeded, Failed, Inconclusive, EventKind.Rejected}
                   then Some(TerminalRef(e.kind, e.OrderKey(), e.reason)) else v.first)
    && w.effective == (if MakesConflict(v, e, regressed) then Some(Conflict)
                       else if Moves(v, e, regressed) && e.kind in {Succeeded, Failed, Inconclusive, EventKind.Rejected} then Some(Reported(e.kind))
                       else v.effective)
    && w.acceptanceObserved == (v.acceptanceObserved
         || (e.kind == EventKind.Accepted && Fresh(v, e) && !regressed && (Moves(v, e, regressed) || !Latest(v, e))))
    && w.blocking == (if Moves(v, e, regressed) then (if e.kind == AssistanceRequired then Some(e) else None) else v.blocking)
  }

  lemma TerminalKinds(k: EventKind)
    ensures IsTerminalKind(k) <==> k in {Succeeded, Failed, Inconclusive, EventKind.Rejected}
  {
  }

  lemma DiffersMeaning(v: TaskEvidence, e: TaskEvent)
    ensures OtherResultKnown(v, e) <==> IsTerminalKind(e.kind) && Differs(v, e)
  {
    TerminalKinds(e.kind);
    if Differs(v, e) {
      var i :| 0 <= i < |v.terminals| && v.terminals[i].kind != e.kind;
      assert v.terminals[i] in v.terminals;
    }
  }

  /** A finished task that holds two kinds of result is in conflict. */
  ghost predicate FinishedAnswered(v: TaskEvidence) { IsTerminalState(v.state) && TwoKinds(v) ==> v.effective == Some(Conflict) }

  lemma ConflictMeaning(v: TaskEvidence, e: TaskEvent, regressed: bool)
    requires EvidenceOk(v) && e.eventSequence >= 1
    ensures Classify(v, e, regressed).conflict ==> MakesConflict(v, e, regressed)
    ensures MakesConflict(v, e, regressed) ==> Classify(v, e, regressed).conflict || (IsTerminalState(v.state) && TwoKinds(v))
  {
    DiffersMeaning(v, e);
    TerminalKinds(e.kind);
    if v.first.Some? && IsTerminalKind(e.kind) {
      if e.kind != v.first.value.kind { DiffersFromFirst(v, e); }
      if Differs(v, e) && !TwoKinds(v) { OnlyFirstKind(v, e); }
    }
    hide Differs, OtherResultKnown, TwoKinds, Recorded;
  }

  /** The disposition, told by what it does. */
  lemma DispositionMeaning(v: TaskEvidence, e: TaskEvent, regressed: bool)
    ensures var d := Classify(v, e, regressed).disposition;
            && (d.Applied? <==> Moves(v, e, regressed))
            && (d.ConflictingReplay? <==> Contradicts(v, e) && e !in v.conflicting)
            && (d.Duplicate? <==> !Counted(v, e))
            && (d.LateEvidence? ==> Fresh(v, e) && !regressed && !Latest(v, e))
            && (d.Evidence? || d.UnexpectedAcceptance? || d.UnexpectedRejection? ==> Fresh(v, e) && (regressed || Latest(v, e)))
            && (d.UnexpectedRejection? <==> LateRejection(v, e, regressed))
  {
    hide Differs, KeyLess;
  }

  lemma StateMeaning(v: TaskEvidence, e: TaskEvent, regressed: bool)
    ensures var c := Classify(v, e, regressed);
            if Moves(v, e, regressed) then LeadsTo(e.kind, c.stateAfter) else c.stateAfter == v.state
  {
    hide Differs, KeyLess;
  }

  /** The evidence after any event is exactly what its fields call for. */
  lemma EventMeaning(v: TaskEvidence, e: TaskEvent, regressed: bool)
    requires EvidenceOk(v) && FinishedAnswered(v) && e.eventSequence >= 1
    ensures var c := Classify(v, e, regressed);
            Becomes(v, e, regressed, EvidenceStep(v, e, c.disposition, c.stateAfter, c.conflict))
  {
    ConflictMeaning(v, e, regressed);
    DispositionMeaning(v, e, regressed);
    StateMeaning(v, e, regressed);
    TerminalKinds(e.kind);
    UnfinishedHasNoFirst(v);
    SeenTwice(v, e);
    hide Classify, OtherResultKnown, TwoKinds, Differs, KeyLess;
  }

  lemma UnfinishedHasNoFirst(v: TaskEvidence)
    requires EvidenceOk(v)
    ensures v.state in {Created, AcceptedState, Running, BlockedAwaitingHuman} <==> v.first.None?
  {
  }

  lemma SeenTwice(v: TaskEvidence, e: TaskEvent)
    ensures e in v.conflicting ==> v.conflicting + {e} == v.conflicting
  {
  }

  /** And so the conflict of a finished task never goes unnoticed. */
  lemma StaysAnswered(v: TaskEvidence, e: TaskEvent, regressed: bool, w: TaskEvidence)
    requires EvidenceOk(v) && FinishedAnswered(v) && e.eventSequence >= 1 && Becomes(v, e, regressed, w)
    ensures FinishedAnswered(w)
  {
    TerminalKinds(e.kind);
    if TwoKinds(w) && !TwoKinds(v) { SecondKind(v, e, w); }
    if TwoKinds(v) { TwoKindsDiffer(v, e); DiffersMeaning(v, e); }
    hide TwoKinds, OtherResultKnown, Recorded, Differs, KeyLess;
  }

  lemma SecondKind(v: TaskEvidence, e: TaskEvent, w: TaskEvidence)
    requires TwoKinds(w) && !TwoKinds(v)
    requires w.terminals == v.terminals || (w.terminals == v.terminals + [TerminalRef(e.kind, e.OrderKey(), e.reason)] && IsTerminalKind(e.kind))
    ensures w.terminals != v.terminals && OtherResultKnown(v, e)
  {
    TerminalKinds(e.kind);
    var i, j :| 0 <= i < |w.terminals| && 0 <= j < |w.terminals| && w.terminals[i].kind != w.terminals[j].kind;
    assert w.terminals == v.terminals ==> TwoKinds(v);
    var k := if i < |v.terminals| && v.terminals[i].kind != e.kind then i else j;
    assert k < |v.terminals| && v.terminals[k].kind != e.kind && v.terminals[k] in v.terminals;
  }

  // -- reasons

  /** The sticky reason an event gives. */
  predicate Gives(v: TaskEvidence, e: TaskEvent, regressed: bool, r: FlagReason) {
    match r
    case ConflictingReplayReason => Contradicts(v, e) && e !in v.conflicting
    case PostTerminalActivity =>
      && Fresh(v, e) && Latest(v, e) && !regressed && v.state in {SucceededState, FailedState, InconclusiveState, RejectedState}
      && e.kind in {EventKind.Accepted, EventKind.Progress, AssistanceRequired}
    case UnexpectedAcceptanceReason =>
      Fresh(v, e) && Latest(v, e) && !regressed && v.state in {AcceptedState, Running, BlockedAwaitingHuman} && e.kind == EventKind.Accepted
    case UnexpectedRejectionReason => LateRejection(v, e, regressed)
    case SessionRegressionReason => Fresh(v, e) && regressed
    case ConflictingTerminalReason => MakesConflict(v, e, regressed)
    case _ => false
  }

  /** The reasons after: any word from the robot answers presence, movement answers progress, the rest stays and may grow. */
  ghost predicate ReasonsBecome(before: set<FlagReason>, v: TaskEvidence, e: TaskEvent, regressed: bool, after: set<FlagReason>) {
    forall r: FlagReason :: r in after <==>
      || Gives(v, e, regressed, r)
      || (r in before && r !in {NewBootSession, ExpiredUnconfirmed, EdgeRestart, TransportSessionLost}
          && !(Moves(v, e, regressed) && r in {HeartbeatMismatch, ProgressWindowElapsed, AcceptanceWindowElapsed}))
  }

  lemma FlagMeaning(v: TaskEvidence, e: TaskEvent, regressed: bool)
    requires e.eventSequence >= 1
    ensures var c := Classify(v, e, regressed);
            forall r: FlagReason :: r != ConflictingTerminalReason ==> (Gives(v, e, regressed, r) <==>
              (r == ConflictingReplayReason && c.disposition.ConflictingReplay?) || (Counts(c.disposition) && c.flagReason == Some(r)))
    ensures Classify(v, e, regressed).flagReason != Some(ConflictingTerminalReason)
  {
    hide Differs, KeyLess;
  }

  /** A conflict is among the reasons. */
  predicate ConflictGiven(v: TaskEvidence, reasons: set<FlagReason>) { v.effective == Some(Conflict) ==> ConflictingTerminalReason in reasons }

  lemma ReasonsMeaning(reasons: set<FlagReason>, v: TaskEvidence, e: TaskEvent, regressed: bool)
    requires EvidenceOk(v) && FinishedAnswered(v) && ConflictGiven(v, reasons) && e.eventSequence >= 1
    ensures var c := Classify(v, e, regressed);
            ReasonsBecome(reasons, v, e, regressed, ReasonsStep(reasons, e, c.disposition, c.conflict, c.flagReason))
  {
    FlagMeaning(v, e, regressed);
    DispositionMeaning(v, e, regressed);
    ConflictMeaning(v, e, regressed);
    TerminalKinds(e.kind);
    hide Classify, Gives, Moves, Counted, Contradicts, LateRejection, Fresh, Latest, TwoKinds;
    var c := Classify(v, e, regressed);
    var after := ReasonsStep(reasons, e, c.disposition, c.conflict, c.flagReason);
    forall r: FlagReason
      ensures r in after <==>
        || Gives(v, e, regressed, r)
        || (r in reasons && r !in {NewBootSession, ExpiredUnconfirmed, EdgeRestart, TransportSessionLost}
            && !(Moves(v, e, regressed) && r in {HeartbeatMismatch, ProgressWindowElapsed, AcceptanceWindowElapsed}))
    {
      if r == ConflictingTerminalReason { GivesConflict(v, e, regressed); }
    }
  }

  lemma GivesConflict(v: TaskEvidence, e: TaskEvent, regressed: bool)
    ensures Gives(v, e, regressed, ConflictingTerminalReason) <==> MakesConflict(v, e, regressed)
  {
  }

  // -- the records of one event

  /** What follows the evidence record when the event is written down whole. */
  ghost predicate Announces(t: TaskView, e: TaskEvent, regressed: bool, rs: seq<EdgeRecord>) {
    && (forall r: FlagReason :: r !in {SessionRegressionReason, ConflictingTerminalReason} && Gives(t.evidence, e, regressed, r) ==> TaskReconciliationFlagged(e.taskId, r) in rs)
    && (MakesConflict(t.evidence, e, regressed) && !t.AuthorizationConflict() ==>
          ConflictingTerminal(e.taskId) in rs && TaskReconciliationFlagged(e.taskId, ConflictingTerminalReason) in rs)
    && (forall r: EdgeRecord :: r in rs ==>
          || (r.TaskEventReceived? && r.event == e)
          || (r.TaskReconciliationFlagged? && r.flagged == e.taskId && r.reason !in {SessionRegressionReason, ConflictingTerminalReason} && Gives(t.evidence, e, regressed, r.reason))
          || (r == ConflictingTerminal(e.taskId) && MakesConflict(t.evidence, e, regressed) && !t.AuthorizationConflict())
          || (r == TaskReconciliationFlagged(e.taskId, ConflictingTerminalReason) && MakesConflict(t.evidence, e, regressed)))
  }

  lemma FlagOfVerdict(v: TaskEvidence, e: TaskEvent, regressed: bool)
    requires e.eventSequence >= 1
    ensures var c := Classify(v, e, regressed);
            forall r: FlagReason :: c.flag == Some(r) <==> r !in {SessionRegressionReason, ConflictingTerminalReason} && Gives(v, e, regressed, r)
  {
    hide Differs, KeyLess;
  }

  lemma RecordsMeaning(t: TaskView, e: TaskEvent, regressed: bool)
    requires EvidenceOk(t.evidence) && FinishedAnswered(t.evidence) && e.eventSequence >= 1
    ensures Announces(t, e, regressed, EventRecords(t, e, Classify(t.evidence, e, regressed)))
  {
    var c := Classify(t.evidence, e, regressed);
    FlagOfVerdict(t.evidence, e, regressed);
    ConflictMeaning(t.evidence, e, regressed);
    hide Classify, Gives, MakesConflict, Received, TwoKinds;
  }
}
