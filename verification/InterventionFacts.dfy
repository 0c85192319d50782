/** The observed conditions are exactly the facts the Edge's view holds, and after reconciliation each has its case. */
module InterventionFacts {
  import opened Common
  import opened TaskContracts
  import opened EdgeViews
  import opened InterventionViews
  import opened InterventionDecisions
  import opened InterventionReconcile
  import opened InterventionCoverage
  import opened InterventionObservation

  // -- the facts, from the fields of tasks and devices

  predicate Unfinished(t: TaskView) { t.evidence.state in {Created, AcceptedState, Running, BlockedAwaitingHuman} }

  /** The robot's unfinished task; of several, the one created last. */
  ghost predicate HoldsTask(s: EdgeState, robot: RobotId, i: nat) {
    && i < |s.order| && s.order[i] in s.tasks && s.tasks[s.order[i]].request.targetRobot == robot && Unfinished(s.tasks[s.order[i]])
    && forall j :: i < j < |s.order| && s.order[j] in s.tasks && s.tasks[s.order[j]].request.targetRobot == robot ==> !Unfinished(s.tasks[s.order[j]])
  }

  ghost predicate HoldsNothing(s: EdgeState, robot: RobotId) {
    forall id :: id in s.order && id in s.tasks && s.tasks[id].request.targetRobot == robot ==> !Unfinished(s.tasks[id])
  }

  /** The reasons that speak of contradictory evidence. */
  predicate Contradictory(r: FlagReason) {
    r in {PostTerminalActivity, UnexpectedAcceptanceReason, UnexpectedRejectionReason, ConflictingReplayReason, ConflictingTerminalReason}
  }

  /** The task waits for a human after this event. */
  ghost predicate AssistanceFact(t: TaskView, x: Observed) {
    && t.evidence.state == BlockedAwaitingHuman && t.evidence.blocking.Some?
    && var e := t.evidence.blocking.value;
    && x.key == EventKey(e.bootSequence, e.eventSequence) && x.evidence == AssistanceEvidence(e, t.evidence.state)
    && (x.severity == Critical <==> e.reason.Some? && e.reason.value.UnknownReason?)
  }

  /** The task's results conflict, or contradictory evidence about it is on record. */
  ghost predicate ConflictFact(t: TaskView, x: Observed) {
    && x.key.ConflictKey? && x.key.effective == t.evidence.effective && x.severity == Critical
    && x.evidence == ConflictEvidence(x.key.reasons, t.evidence.effective, t.evidence.state)
    && (forall r: FlagReason :: r in x.key.reasons <==> r in t.reasons && Contradictory(r))
    && (t.evidence.effective == Some(Conflict) || exists r: FlagReason :: r in t.reasons && Contradictory(r))
  }

  /** The task is unfinished with its attempts spent or its expiry reported. */
  ghost predicate UnconfirmedFact(cfg: InterventionConfig, t: TaskView, x: Observed) {
    var spent := cfg.maxRepublishAttempts <= t.publishing.attempts;
    && Unfinished(t) && (spent || t.expiredUnconfirmed)
    && x.key == BudgetKey(spent, t.publishing.attempts) && x.severity == Warning
    && x.evidence == UnconfirmedEvidence(t.evidence.state, t.publishing.attempts, t.request.expiresAt, spent)
  }

  /** The robot is out of reach, which is critical while it holds a task. */
  ghost predicate UnreachableFact(s: EdgeState, robot: RobotId, d: DeviceView, x: Observed) {
    && d.connectivity == Offline && x.key.OfflineKey? && x.key.since == d.since
    && x.evidence == OfflineEvidence(d.since, d.lastReceivedAt, d.lastStatus, x.key.openTask)
    && (match x.key.openTask
        case Some(id) => x.severity == Critical && exists i: nat :: HoldsTask(s, robot, i) && s.order[i] == id
        case None => x.severity == Warning && HoldsNothing(s, robot))
  }

  ghost predicate TaskFact(cfg: InterventionConfig, id: TaskId, t: TaskView, x: Observed) {
    && x.subject == TaskSubject(id) && x.robotId == t.request.targetRobot
    && match x.kind
       case AssistanceCase => AssistanceFact(t, x)
       case ConflictCase => ConflictFact(t, x)
       case UnconfirmedCase => UnconfirmedFact(cfg, t, x)
       case UnreachableCase => false
  }

  ghost predicate DeviceFact(s: EdgeState, robot: RobotId, d: DeviceView, x: Observed) {
    && x.subject == DeviceSubject(robot) && x.robotId == robot
    && match x.kind
       case UnreachableCase => UnreachableFact(s, robot, d, x)
       case ConflictCase => d.sessionRegression && x.severity == Critical && x.key == RegressionKey && x.evidence == RegressionEvidence
       case _ => false
  }

  /** The condition is a fact of the Edge's view. */
  ghost predicate Fact(cfg: InterventionConfig, s: EdgeState, robots: seq<RobotId>, x: Observed) {
    match x.subject
    case TaskSubject(id) => id in s.order && id in s.tasks && TaskFact(cfg, id, s.tasks[id], x)
    case DeviceSubject(robot) => robot in robots && robot in s.devices && DeviceFact(s, robot, s.devices[robot], x)
  }

  // -- one task

  lemma UnfinishedMeaning(t: TaskView)
    ensures Unfinished(t) <==> !t.IsTerminal()
  {
  }

  lemma BlockedMeaning(cfg: InterventionConfig, id: TaskId, t: TaskView, x: Observed)
    ensures x in BlockedItem(id, t) <==> x.kind == AssistanceCase && TaskFact(cfg, id, t, x)
  {
  }

  lemma ReasonsOfConflict(t: TaskView)
    ensures forall r: FlagReason :: r in ConflictReasons(t) <==> r in t.reasons && Contradictory(r)
    ensures ConflictReasons(t) != {} <==> exists r: FlagReason :: r in t.reasons && Contradictory(r)
  {
    forall r: FlagReason ensures EvidenceConflictReason(r) <==> Contradictory(r) {}
    if r: FlagReason :| r in t.reasons && Contradictory(r) { assert r in ConflictReasons(t); }
    if ConflictReasons(t) != {} { var r :| r in ConflictReasons(t); }
  }

  lemma ConflictMeaning(cfg: InterventionConfig, id: TaskId, t: TaskView, x: Observed)
    ensures x in ConflictItem(id, t) <==> x.kind == ConflictCase && TaskFact(cfg, id, t, x)
  {
    ReasonsOfConflict(t);
    hide ConflictReasons, Contradictory;
    if x.key.ConflictKey? && forall r: FlagReason :: r in x.key.reasons <==> r in ConflictReasons(t) {
      assert x.key.reasons == ConflictReasons(t);
    }
  }

  lemma UnconfirmedMeaning(cfg: InterventionConfig, id: TaskId, t: TaskView, x: Observed)
    ensures x in UnconfirmedItem(cfg, id, t) <==> x.kind == UnconfirmedCase && TaskFact(cfg, id, t, x)
  {
    UnfinishedMeaning(t);
    hide Unfinished;
  }

  lemma TaskItemsMeaning(cfg: InterventionConfig, id: TaskId, t: TaskView, x: Observed)
    ensures x in TaskItems(cfg, id, t) <==> TaskFact(cfg, id, t, x)
  {
    BlockedMeaning(cfg, id, t, x);
    ConflictMeaning(cfg, id, t, x);
    UnconfirmedMeaning(cfg, id, t, x);
    hide BlockedItem, ConflictItem, UnconfirmedItem, AssistanceFact, ConflictFact, UnconfirmedFact;
  }

  // -- one device

  /** The last unfinished task of the robot among the first ones listed. */
  lemma {:induction false} OpenTaskMeaning(s: EdgeState, n: nat, robot: RobotId) returns (i: nat)
    requires n <= |s.order|
    ensures var task := OpenTaskOf(s, s.order[..n], robot);
            if task.Some? then
              && i < n && s.order[i] == task.value && s.order[i] in s.tasks
              && s.tasks[s.order[i]].request.targetRobot == robot && Unfinished(s.tasks[s.order[i]])
              && forall j :: i < j < n && s.order[j] in s.tasks && s.tasks[s.order[j]].request.targetRobot == robot ==> !Unfinished(s.tasks[s.order[j]])
            else forall j :: 0 <= j < n && s.order[j] in s.tasks && s.tasks[s.order[j]].request.targetRobot == robot ==> !Unfinished(s.tasks[s.order[j]])
    decreases n
  {
    i := 0;
    if n > 0 {
      var last := s.order[n - 1];
      assert s.order[..n][|s.order[..n]| - 1] == last && s.order[..n][..n - 1] == s.order[..n - 1];
      if last in s.tasks { UnfinishedMeaning(s.tasks[last]); }
      hide Unfinished;
      if last in s.tasks && s.tasks[last].request.targetRobot == robot && !s.tasks[last].IsTerminal() {
        i := n - 1;
      } else {
        i := OpenTaskMeaning(s, n - 1, robot);
      }
    }
  }

  lemma HeldTask(s: EdgeState, robot: RobotId)
    ensures match OpenTaskOf(s, s.order, robot)
            case Some(id) => (exists i: nat :: HoldsTask(s, robot, i) && s.order[i] == id) && !HoldsNothing(s, robot)
            case None => HoldsNothing(s, robot)
    ensures forall i: nat :: HoldsTask(s, robot, i) ==> OpenTaskOf(s, s.order, robot) == Some(s.order[i])
  {
    var i := OpenTaskMeaning(s, |s.order|, robot);
    assert s.order[..|s.order|] == s.order;
    hide Unfinished;
    if OpenTaskOf(s, s.order, robot).Some? {
      assert HoldsTask(s, robot, i);
      assert s.order[i] in s.order;
    }
  }

  lemma DeviceItemsMeaning(s: EdgeState, robot: RobotId, d: DeviceView, x: Observed)
    ensures x in DeviceItems(s, robot, d) <==> DeviceFact(s, robot, d, x)
  {
    HeldTask(s, robot);
    hide HoldsTask, HoldsNothing, OpenTaskOf;
  }

  // -- the whole observation

  lemma {:induction false} TasksMeaning(cfg: InterventionConfig, s: EdgeState, ids: seq<TaskId>, x: Observed)
    ensures x in ObserveTasks(cfg, s, ids) <==> x.subject.TaskSubject? && x.subject.task in ids && x.subject.task in s.tasks
                                                 && TaskFact(cfg, x.subject.task, s.tasks[x.subject.task], x)
    decreases |ids|
  {
    hide TaskItems, AssistanceFact, ConflictFact, UnconfirmedFact;
    if ids != [] {
      if ids[0] in s.tasks { TaskItemsMeaning(cfg, ids[0], s.tasks[ids[0]], x); }
      TasksMeaning(cfg, s, ids[1..], x);
      assert forall y :: y in ids <==> y == ids[0] || y in ids[1..];
    }
  }

  lemma {:induction false} DevicesMeaning(s: EdgeState, robots: seq<RobotId>, x: Observed)
    ensures x in ObserveDevices(s, robots) <==> x.subject.DeviceSubject? && x.subject.device in robots && x.subject.device in s.devices
                                                && DeviceFact(s, x.subject.device, s.devices[x.subject.device], x)
    decreases |robots|
  {
    hide DeviceItems, UnreachableFact;
    if robots != [] {
      if robots[0] in s.devices { DeviceItemsMeaning(s, robots[0], s.devices[robots[0]], x); }
      DevicesMeaning(s, robots[1..], x);
      assert forall y :: y in robots <==> y == robots[0] || y in robots[1..];
    }
  }

  /** Observed is exactly what the view's fields say: nothing is invented and nothing is overlooked. */
  lemma ObservedExactly(cfg: InterventionConfig, s: EdgeState, robots: seq<RobotId>, x: Observed)
    ensures x in Observe(cfg, s, robots) <==> Fact(cfg, s, robots, x)
  {
    TasksMeaning(cfg, s, s.order, x);
    DevicesMeaning(s, robots, x);
    hide ObserveTasks, ObserveDevices, TaskFact, DeviceFact;
  }

  // -- after reconciliation

  /** The cases once the observation was reconciled, however it was torn and repaired. */
  function Reconciled(v: InterventionState, items: seq<Observed>, now: Time, k: nat, later: Time, last: Time): seq<CaseView>
    requires k <= |Reconcile(v, items, now)|
  {
    var torn := InterventionViews.ApplyAll(v, Reconcile(v, items, now)[..k]);
    var repaired := InterventionViews.ApplyAll(torn, Reconcile(torn, items, later));
    InterventionViews.ApplyAll(repaired, Reconcile(repaired, items, last)).cases
  }

  /** Every fact of the Edge's view has its case, and every open active case its fact. */
  lemma {:induction false} FactsHaveCases(cfg: InterventionConfig, s: EdgeState, robots: seq<RobotId>, v: InterventionState,
                                          now: Time, k: nat, later: Time, last: Time)
    requires Fit(v) && v.pending == [] && DistinctTasks(s.order) && DistinctRobots(robots)
    requires k <= |Reconcile(v, Observe(cfg, s, robots), now)|
    ensures var cases := Reconciled(v, Observe(cfg, s, robots), now, k, later, last);
            && (forall x :: Fact(cfg, s, robots, x) ==> Represented(cases, x))
            && (forall c :: c in cases && !c.human.Resolved? && c.active ==> exists x :: Fact(cfg, s, robots, x) && ItemSlot(x) == SlotOf(c.id))
  {
    hide *;
    ObservedOnce(cfg, s, robots);
    var items := Observe(cfg, s, robots);
    ReconciledMirrors(v, items, now, k, later, last);
    var cases := Reconciled(v, items, now, k, later, last);
    ReconciledIs(v, items, now, k, later, last);
    forall x | Fact(cfg, s, robots, x) ensures Represented(cases, x) {
      ObservedExactly(cfg, s, robots, x);
      MirrorsFact(cases, items, x);
    }
    forall c | c in cases && !c.human.Resolved? && c.active ensures exists x :: Fact(cfg, s, robots, x) && ItemSlot(x) == SlotOf(c.id) {
      var x := MirrorsCase(cases, items, c);
      ObservedExactly(cfg, s, robots, x);
    }
  }

  lemma ReconciledIs(v: InterventionState, items: seq<Observed>, now: Time, k: nat, later: Time, last: Time)
    requires k <= |Reconcile(v, items, now)|
    ensures var torn := InterventionViews.ApplyAll(v, Reconcile(v, items, now)[..k]);
            var repaired := InterventionViews.ApplyAll(torn, Reconcile(torn, items, later));
            Reconciled(v, items, now, k, later, last) == InterventionViews.ApplyAll(repaired, Reconcile(repaired, items, last)).cases
  {
    hide InterventionViews.ApplyAll, Reconcile;
  }

  lemma MirrorsFact(cases: seq<CaseView>, items: seq<Observed>, x: Observed)
    requires Mirrors(cases, items) && x in items
    ensures Represented(cases, x)
  {
    hide Represented, Observes;
  }

  lemma MirrorsCase(cases: seq<CaseView>, items: seq<Observed>, c: CaseView) returns (x: Observed)
    requires Mirrors(cases, items) && c in cases && !c.human.Resolved? && c.active
    ensures x in items && ItemSlot(x) == SlotOf(c.id)
  {
    hide Represented;
    assert Observes(items, c);
    var i :| 0 <= i < |items| && ItemSlot(items[i]) == SlotOf(c.id);
    x := items[i];
  }

  /** The case of a blocked task: open and active on the very event that blocks it, critical if its reason is unknown, unless a
      human already resolved that same occurrence. */
  ghost predicate CalledOut(cases: seq<CaseView>, id: TaskId, e: TaskEvent) {
    exists c: CaseView :: c in cases && c.id.kind == AssistanceCase && c.id.subject == TaskSubject(id)
      && if c.human == Resolved then c.key == EventKey(e.bootSequence, e.eventSequence) || c.id.key == EventKey(e.bootSequence, e.eventSequence)
         else c.active && c.key == EventKey(e.bootSequence, e.eventSequence)
              && (e.reason.Some? && e.reason.value.UnknownReason? ==> c.severity == Critical)
  }

  lemma RepresentedIsCalledOut(cases: seq<CaseView>, id: TaskId, t: TaskView, x: Observed, e: TaskEvent)
    requires Represented(cases, x) && x.kind == AssistanceCase && x.subject == TaskSubject(id) && AssistanceFact(t, x)
    requires t.evidence.blocking == Some(e)
    ensures CalledOut(cases, id, e)
  {
    var c: CaseView :| c in cases && SlotOf(c.id) == ItemSlot(x)
      && if c.human.Resolved? then SameEvidence(c, x) || c.id == CaseId(x.kind, x.subject, x.key)
         else c.active && c.key == x.key && Rank(c.severity) >= Rank(x.severity);
  }

  /** After any torn and repaired reconciliation a blocked task has its open case. */
  lemma {:induction false} BlockedTaskIsCalledOut(cfg: InterventionConfig, s: EdgeState, robots: seq<RobotId>, v: InterventionState,
                                                  now: Time, k: nat, later: Time, last: Time, id: TaskId, e: TaskEvent)
    requires Fit(v) && v.pending == [] && DistinctTasks(s.order) && DistinctRobots(robots)
    requires k <= |Reconcile(v, Observe(cfg, s, robots), now)|
    requires id in s.order && id in s.tasks
    requires s.tasks[id].evidence.state == BlockedAwaitingHuman && s.tasks[id].evidence.blocking == Some(e)
    ensures CalledOut(Reconciled(v, Observe(cfg, s, robots), now, k, later, last), id, e)
  {
    var t := s.tasks[id];
    var x := Observed(AssistanceCase, TaskSubject(id), t.request.targetRobot,
                      if e.reason.Some? && e.reason.value.UnknownReason? then Critical else Warning,
                      EventKey(e.bootSequence, e.eventSequence), AssistanceEvidence(e, t.evidence.state));
    assert AssistanceFact(t, x) && Fact(cfg, s, robots, x);
    hide Fact, Reconciled, Observe, Represented, AssistanceFact, CalledOut, Reconcile, Fit, DistinctTasks, DistinctRobots;
    FactsHaveCases(cfg, s, robots, v, now, k, later, last);
    RepresentedIsCalledOut(Reconciled(v, Observe(cfg, s, robots), now, k, later, last), id, t, x, e);
  }
}
