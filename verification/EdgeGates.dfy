/** The authorization gate of a robot, told from the journal: closed from the first anomaly on, and by nothing else. */
module EdgeGates {
  import opened Common
  import opened TaskContracts
  import opened EdgeViews
  import opened EdgeDecisions
  import opened EdgeLegality
  import opened EdgeRuns
  import opened EdgeLatch
  import opened EdgeMeaning

  // -- what every task of a run satisfies

  ghost predicate Settled(t: TaskView) {
    && EvidenceOk(t.evidence) && FinishedAnswered(t.evidence) && ConflictGiven(t.evidence, t.reasons)
    && (t.evidence.conflicting != {} ==> ConflictingReplayReason in t.reasons)
  }

  lemma EventSettles(t: TaskView, e: TaskEvent, regressed: bool, n: nat, at: Time)
    requires Settled(t) && e.eventSequence >= 1
    ensures var u := EventStep(t, Received(t.evidence, e, Classify(t.evidence, e, regressed)), n, at);
            && Settled(u) && Becomes(t.evidence, e, regressed, u.evidence) && ReasonsBecome(t.reasons, t.evidence, e, regressed, u.reasons)
  {
    var c := Classify(t.evidence, e, regressed);
    var u := EventStep(t, Received(t.evidence, e, c), n, at);
    EventMeaning(t.evidence, e, regressed);
    ReasonsMeaning(t.reasons, t.evidence, e, regressed);
    StaysAnswered(t.evidence, e, regressed, u.evidence);
    EventKeepsEvidence(t.evidence, e, regressed);
    assert u.evidence == EvidenceStep(t.evidence, e, c.disposition, c.stateAfter, c.conflict)
        && u.reasons == ReasonsStep(t.reasons, e, c.disposition, c.conflict, c.flagReason) by {
      hide Classify, EvidenceStep, ReasonsStep, ClocksStep, ProspectiveGap;
    }
    hide Classify, Received, EventStep, EvidenceStep, ReasonsStep, EvidenceOk, FinishedAnswered;
    StickyReasons(t.reasons, t.evidence, e, regressed, u.reasons);
    ConflictGrows(t.evidence, e, regressed, u.evidence);
    assert u.evidence.conflicting != {} ==> ConflictingReplayReason in u.reasons by {
      if Contradicts(t.evidence, e) && e !in t.evidence.conflicting {
        assert Gives(t.evidence, e, regressed, ConflictingReplayReason);
      } else if e in t.evidence.conflicting {
        assert t.evidence.conflicting != {};
      }
      hide ReasonsBecome, Gives;
    }
    if u.evidence.effective == Some(Conflict) && t.evidence.effective != Some(Conflict) {
      GivesConflict(t.evidence, e, regressed);
    }
    hide Becomes, Moves, MakesConflict, Gives, Contradicts;
  }

  lemma StickyReasons(before: set<FlagReason>, v: TaskEvidence, e: TaskEvent, regressed: bool, after: set<FlagReason>)
    requires ReasonsBecome(before, v, e, regressed, after)
    ensures ConflictingTerminalReason in before || Gives(v, e, regressed, ConflictingTerminalReason) ==> ConflictingTerminalReason in after
    ensures ConflictingReplayReason in before || Gives(v, e, regressed, ConflictingReplayReason) ==> ConflictingReplayReason in after
  {
    hide Gives, Moves;
  }

  lemma ConflictGrows(v: TaskEvidence, e: TaskEvent, regressed: bool, w: TaskEvidence)
    requires Becomes(v, e, regressed, w)
    ensures w.effective == Some(Conflict) ==> v.effective == Some(Conflict) || MakesConflict(v, e, regressed)
    ensures w.conflicting == (if Contradicts(v, e) then v.conflicting + {e} else v.conflicting)
  {
    hide Moves, MakesConflict, Contradicts, Counted, Fresh, Latest;
  }

  /** A record that is not the task's own evidence leaves its evidence alone and takes no sticky reason away. */
  lemma OtherSettles(cfg: EdgeConfig, s: EdgeState, st: Stamped, id: TaskId)
    requires Legal(cfg, s, st) && id in s.tasks && Settled(s.tasks[id]) && !(st.record.TaskEventReceived? && st.record.event.taskId == id)
    ensures var t, u := s.tasks[id], TaskStep(id, s.tasks[id], st.record, s.applied + 1, st.at);
            && Settled(u) && u.evidence == t.evidence && t.reasons <= u.reasons
            && (forall r :: r in u.reasons && r !in t.reasons ==> !ClosesGate(r))
  {
    var t := s.tasks[id];
    if st.record.ConflictingTerminal? && st.record.conflicted == id { assert t.evidence.(effective := Some(Conflict)) == t.evidence; }
    hide EvidenceOk, FinishedAnswered, NoteEvidence, EventStep, LegalEvent;
  }

  lemma StepSettles(cfg: EdgeConfig, s: EdgeState, st: Stamped, id: TaskId)
    requires Legal(cfg, s, st) && (id in s.tasks ==> Settled(s.tasks[id])) && id in Apply(s, st).tasks
    ensures Settled(Apply(s, st).tasks[id])
  {
    hide Settled, Legal, Apply, TaskStep, EventStep, Received, Classify;
    if id in s.tasks {
      KnownStep(cfg, s, st, id);
      if st.record.TaskEventReceived? && st.record.event.taskId == id {
        OwnEventStep(cfg, s, st, id);
        EventSettles(s.tasks[id], st.record.event, Regressed(s, st.record.event.robotId), s.applied + 1, st.at);
      } else {
        OtherSettles(cfg, s, st, id);
      }
    } else {
      CreatedStep(cfg, s, st, id);
      NewSettled(st.record.request, st.at);
    }
  }

  lemma NewSettled(request: TaskRequest, at: Time)
    ensures Settled(NewTaskView(request, at))
  {
  }

  lemma {:induction false} SettledAt(cfg: EdgeConfig, journal: seq<Stamped>, n: nat, id: TaskId)
    requires LegalJournal(cfg, journal) && n <= |journal| && id in At(cfg, journal, n).tasks
    ensures Settled(At(cfg, journal, n).tasks[id])
    decreases n
  {
    hide Settled, Legal, Apply, LegalJournal, ViewOf, TasksOk;
    if n == 0 {
      NothingAtFirst(cfg, journal);
    } else {
      hide At;
      StepAt(cfg, journal, n - 1);
      if id in At(cfg, journal, n - 1).tasks { SettledAt(cfg, journal, n - 1, id); }
      StepSettles(cfg, At(cfg, journal, n - 1), journal[n - 1], id);
    }
  }

  lemma NothingAtFirst(cfg: EdgeConfig, journal: seq<Stamped>)
    ensures At(cfg, journal, 0).tasks == map[] && forall robot :: !GateClosed(At(cfg, journal, 0), robot)
  {
    assert journal[..0] == [];
  }

  /** Every evidence record of every run changes its task's evidence and reasons exactly as the event's fields call for. */
  lemma EvidenceOfRun(cfg: EdgeConfig, choices: seq<EdgeChoice>, i: nat)
    requires i < |EdgeRun(cfg, choices)| && EdgeRun(cfg, choices)[i].record.TaskEventReceived?
    ensures var journal := EdgeRun(cfg, choices);
            var (s, u, e) := (At(cfg, journal, i), At(cfg, journal, i + 1), journal[i].record.event);
            && e.taskId in s.tasks && e.taskId in u.tasks && e.robotId == s.tasks[e.taskId].request.targetRobot
            && Becomes(s.tasks[e.taskId].evidence, e, Regressed(s, e.robotId), u.tasks[e.taskId].evidence)
            && ReasonsBecome(s.tasks[e.taskId].reasons, s.tasks[e.taskId].evidence, e, Regressed(s, e.robotId), u.tasks[e.taskId].reasons)
  {
    var journal := EdgeRun(cfg, choices);
    RunLegal(cfg, choices);
    StepAt(cfg, journal, i);
    hide EdgeRun, At, Apply, TasksOk, TaskStep, EventStep, Received, Classify, Becomes, ReasonsBecome, Settled, LegalJournal, ViewOf;
    var s, e := At(cfg, journal, i), journal[i].record.event;
    LegalEvidenceIsKnown(cfg, s, journal[i]);
    hide Legal;
    SettledAt(cfg, journal, i, e.taskId);
    KnownStep(cfg, s, journal[i], e.taskId);
    OwnEventStep(cfg, s, journal[i], e.taskId);
    EventSettles(s.tasks[e.taskId], e, Regressed(s, e.robotId), s.applied + 1, journal[i].at);
  }

  lemma LegalEvidenceIsKnown(cfg: EdgeConfig, s: EdgeState, st: Stamped)
    requires Legal(cfg, s, st) && st.record.TaskEventReceived?
    ensures st.record.event.taskId in s.tasks && st.record.event.robotId == s.tasks[st.record.event.taskId].request.targetRobot
  {
    hide Received, Classify;
  }

  // -- anomalies

  /** The event tells something that cannot be: other content under a known key, activity or a first word after the end or
      after the opening, or a second kind of result. */
  predicate Anomalous(v: TaskEvidence, e: TaskEvent) {
    || (e.OrderKey() in v.seen && v.seen[e.OrderKey()] != e)
    || (Fresh(v, e) && Latest(v, e) && v.state in {SucceededState, FailedState, InconclusiveState, RejectedState}
        && e.kind in {EventKind.Accepted, EventKind.Progress, AssistanceRequired})
    || (Fresh(v, e) && Latest(v, e) && v.state != Created && e.kind == EventKind.Accepted)
    || (Fresh(v, e) && Latest(v, e) && v.state in {AcceptedState, Running, BlockedAwaitingHuman} && e.kind == EventKind.Rejected)
    || (Fresh(v, e) && OtherResultKnown(v, e))
  }

  /** The record at i is a lost continuity of the robot, or an anomaly of one of its tasks. */
  ghost predicate Culprit(cfg: EdgeConfig, journal: seq<Stamped>, i: nat, robot: RobotId)
    requires i < |journal|
  {
    var r, s := journal[i].record, At(cfg, journal, i);
    || r == SessionRegression(robot)
    || (r.TaskEventReceived? && r.event.taskId in s.tasks && s.tasks[r.event.taskId].request.targetRobot == robot
        && Anomalous(s.tasks[r.event.taskId].evidence, r.event))
  }

  lemma AnomalyGives(v: TaskEvidence, e: TaskEvent)
    ensures Anomalous(v, e) && !(Contradicts(v, e) && e in v.conflicting) ==>
              MakesConflict(v, e, false) || exists r: FlagReason :: ClosesGate(r) && Gives(v, e, false, r)
    ensures MakesConflict(v, e, false) || (exists r: FlagReason :: ClosesGate(r) && Gives(v, e, false, r)) ==> Anomalous(v, e)
  {
    if Anomalous(v, e) && !(Contradicts(v, e) && e in v.conflicting) && !MakesConflict(v, e, false) {
      var r := if Contradicts(v, e) then ConflictingReplayReason
               else if v.state in {SucceededState, FailedState, InconclusiveState, RejectedState} then PostTerminalActivity
               else if e.kind == EventKind.Accepted then UnexpectedAcceptanceReason else UnexpectedRejectionReason;
      assert ClosesGate(r) && Gives(v, e, false, r);
    }
    hide KeyLess, OtherResultKnown;
  }

  lemma GivenReason(before: set<FlagReason>, v: TaskEvidence, e: TaskEvent, after: set<FlagReason>, r: FlagReason)
    requires ReasonsBecome(before, v, e, false, after) && ClosesGate(r)
    ensures r in after <==> r in before || Gives(v, e, false, r)
  {
    hide Gives, Moves;
  }

  lemma ConflictSet(v: TaskEvidence, e: TaskEvent, w: TaskEvidence)
    requires Becomes(v, e, false, w)
    ensures MakesConflict(v, e, false) ==> w.effective == Some(Conflict)
    ensures w.effective == Some(Conflict) ==> v.effective == Some(Conflict) || MakesConflict(v, e, false)
  {
    hide Moves, MakesConflict, Contradicts, Counted, Fresh, Latest;
  }

  /** One event of a robot in continuity: the task closes the gate after it exactly when it did before or the event is an anomaly. */
  lemma EventCloses(t: TaskView, e: TaskEvent, u: TaskView)
    requires Settled(t) && (t.AuthorizationConflict() ==> u.AuthorizationConflict())
    requires Becomes(t.evidence, e, false, u.evidence) && ReasonsBecome(t.reasons, t.evidence, e, false, u.reasons)
    ensures TaskClosesGate(u) <==> TaskClosesGate(t) || Anomalous(t.evidence, e)
  {
    AnomalyGives(t.evidence, e);
    ConflictSet(t.evidence, e, u.evidence);
    forall r: FlagReason | ClosesGate(r) ensures r in u.reasons <==> r in t.reasons || Gives(t.evidence, e, false, r) {
      GivenReason(t.reasons, t.evidence, e, u.reasons, r);
    }
    hide Becomes, ReasonsBecome, Gives, Anomalous, MakesConflict, EvidenceOk, FinishedAnswered;
    if Anomalous(t.evidence, e) && Contradicts(t.evidence, e) && e in t.evidence.conflicting {
      assert ConflictingReplayReason in t.reasons && ClosesGate(ConflictingReplayReason);
    }
  }

  lemma OnlyOwnTask(cfg: EdgeConfig, s: EdgeState, st: Stamped, robot: RobotId)
    requires Legal(cfg, s, st) && !GateClosed(s, robot) && GateClosed(Apply(s, st), robot) && st.record != SessionRegression(robot)
    requires forall id :: id in s.tasks ==> Settled(s.tasks[id])
    ensures st.record.TaskEventReceived? && st.record.event.taskId in s.tasks
         && s.tasks[st.record.event.taskId].request.targetRobot == robot
         && Anomalous(s.tasks[st.record.event.taskId].evidence, st.record.event)
  {
    var after := Apply(s, st);
    NotRegressedBy(s, st, robot);
    var id :| id in after.tasks && after.tasks[id].request.targetRobot == robot && TaskClosesGate(after.tasks[id]);
    hide Legal, Apply, Settled, TaskClosesGate, Anomalous, Classify, Received, EventStep, TaskStep, Becomes, ReasonsBecome;
    if id !in s.tasks {
      CreatedStep(cfg, s, st, id);
      NewTaskIsOpen(st.record.request, st.at);
    } else {
      KnownStep(cfg, s, st, id);
      if st.record.TaskEventReceived? && st.record.event.taskId == id {
        OwnEventStep(cfg, s, st, id);
        EventSettles(s.tasks[id], st.record.event, Regressed(s, st.record.event.robotId), s.applied + 1, st.at);
        ConflictLasts(s.tasks[id], st.record.event, after.tasks[id]);
        EventCloses(s.tasks[id], st.record.event, after.tasks[id]);
      } else {
        OtherSettles(cfg, s, st, id);
        OtherClosesNothing(s.tasks[id], after.tasks[id]);
      }
    }
  }

  lemma ConflictLasts(t: TaskView, e: TaskEvent, u: TaskView)
    requires Becomes(t.evidence, e, false, u.evidence)
    ensures t.AuthorizationConflict() && Settled(t) ==> u.AuthorizationConflict()
  {
    if t.AuthorizationConflict() && Settled(t) && Moves(t.evidence, e, false) && IsTerminalKind(e.kind) {
      TwoKindsDiffer(t.evidence, e);
      DiffersMeaning(t.evidence, e);
    }
    TerminalKinds(e.kind);
    hide OtherResultKnown, TwoKinds, Latest, KeyLess;
  }

  lemma OtherClosesNothing(t: TaskView, u: TaskView)
    requires u.evidence == t.evidence && forall r :: r in u.reasons && r !in t.reasons ==> !ClosesGate(r)
    ensures TaskClosesGate(u) ==> TaskClosesGate(t)
  {
  }

  lemma NewTaskIsOpen(request: TaskRequest, at: Time)
    ensures !TaskClosesGate(NewTaskView(request, at))
  {
  }

  lemma NotRegressedBy(s: EdgeState, st: Stamped, robot: RobotId)
    requires !Regressed(s, robot) && st.record != SessionRegression(robot)
    ensures !Regressed(Apply(s, st), robot)
  {
    hide TasksAfter;
  }

  /** A culprit closes the gate at once. */
  lemma CulpritCloses(cfg: EdgeConfig, s: EdgeState, st: Stamped, robot: RobotId)
    requires Legal(cfg, s, st) && TasksOk(s) && (forall id :: id in s.tasks ==> Settled(s.tasks[id]))
    requires || st.record == SessionRegression(robot)
             || (st.record.TaskEventReceived? && st.record.event.taskId in s.tasks
                 && s.tasks[st.record.event.taskId].request.targetRobot == robot
                 && Anomalous(s.tasks[st.record.event.taskId].evidence, st.record.event))
    ensures GateClosed(Apply(s, st), robot)
  {
    if GateClosed(s, robot) {
      hide Legal, Apply, GateClosed, TasksOk, Settled, Anomalous;
      GateStepStays(cfg, s, st, robot);
    } else if st.record == SessionRegression(robot) {
      RegressionRecorded(s, st, robot);
      hide Apply, Settled, TasksOk;
    } else {
      var id, e := st.record.event.taskId, st.record.event;
      LegalEvidenceIsKnown(cfg, s, st);
      hide Legal, Apply, Settled, TaskClosesGate, Anomalous, Classify, Received, EventStep, TaskStep, Becomes, ReasonsBecome, TasksOk;
      KnownStep(cfg, s, st, id);
      OwnEventStep(cfg, s, st, id);
      EventSettles(s.tasks[id], e, Regressed(s, e.robotId), s.applied + 1, st.at);
      ConflictLasts(s.tasks[id], e, Apply(s, st).tasks[id]);
      EventCloses(s.tasks[id], e, Apply(s, st).tasks[id]);
    }
  }

  lemma RegressionRecorded(s: EdgeState, st: Stamped, robot: RobotId)
    requires st.record == SessionRegression(robot)
    ensures Regressed(Apply(s, st), robot)
  {
    hide TasksAfter;
  }

  // -- the theorem

  ghost predicate AnyCulprit(cfg: EdgeConfig, journal: seq<Stamped>, n: nat, robot: RobotId)
    requires n <= |journal|
  {
    exists i :: 0 <= i < n && Culprit(cfg, journal, i, robot)
  }

  lemma {:induction false} ClosedByCulprits(cfg: EdgeConfig, journal: seq<Stamped>, n: nat, robot: RobotId)
    requires LegalJournal(cfg, journal) && n <= |journal|
    ensures GateClosed(At(cfg, journal, n), robot) <==> AnyCulprit(cfg, journal, n, robot)
    decreases n
  {
    hide GateClosed, Legal, Apply, LegalJournal, ViewOf, TasksOk, Settled, Anomalous;
    NothingAtFirst(cfg, journal);
    if n > 0 {
      hide At;
      var s, st := At(cfg, journal, n - 1), journal[n - 1];
      ClosedByCulprits(cfg, journal, n - 1, robot);
      StepAt(cfg, journal, n - 1);
      forall id | id in s.tasks ensures Settled(s.tasks[id]) { SettledAt(cfg, journal, n - 1, id); }
      if GateClosed(s, robot) {
        GateStepStays(cfg, s, st, robot);
        var i :| 0 <= i < n - 1 && Culprit(cfg, journal, i, robot);
      } else if Culprit(cfg, journal, n - 1, robot) {
        CulpritCloses(cfg, s, st, robot);
      } else if GateClosed(Apply(s, st), robot) && st.record != SessionRegression(robot) {
        OnlyOwnTask(cfg, s, st, robot);
      }
    }
  }

  /** In every run the gate of a robot is closed exactly from the first lost continuity or anomaly in the journal on. */
  lemma GateExactly(cfg: EdgeConfig, choices: seq<EdgeChoice>, n: nat, robot: RobotId)
    requires n <= |EdgeRun(cfg, choices)|
    ensures GateClosed(At(cfg, EdgeRun(cfg, choices), n), robot) <==> AnyCulprit(cfg, EdgeRun(cfg, choices), n, robot)
  {
    hide GateClosed, At, EdgeRun, AnyCulprit, ViewOf, TasksOk;
    RunLegal(cfg, choices);
    ClosedByCulprits(cfg, EdgeRun(cfg, choices), n, robot);
  }
}
