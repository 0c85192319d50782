/** The Edge, one robot incarnation and a lossy, duplicating, reordering channel, run together. */
module Agreement {
  import opened Common
  import opened TaskContracts
  import RobotViews
  import RobotLegality
  import RobotRuns
  import RobotSafety
  import RobotExecutor
  import opened EdgeViews
  import opened EdgeDecisions
  import opened EdgeLegality
  import opened EdgeRuns
  import opened EdgeLatch
  import opened AgreementEvidence

  datatype Site = Site(robot: RobotExecutor.RobotConfig, edge: EdgeConfig)

  /** What each process has done so far, and every event message ever sent. */
  datatype World = World(robotChoices: seq<RobotRuns.Choice>, network: set<TaskEvent>, edgeChoices: seq<EdgeChoice>)

  datatype Move =
    | RobotMoves(choice: RobotRuns.Choice)
    | Send(event: TaskEvent)
    | EdgeMoves(edgeChoice: EdgeChoice)

  const QUIET := World([], {}, [])

  function RobotJournal(site: Site, w: World): seq<RobotViews.RobotRecord> { RobotRuns.Run(site.robot, w.robotChoices).journal }

  function EdgeJournal(site: Site, w: World): seq<Stamped> { EdgeRun(site.edge, w.edgeChoices) }

  /** A robot sends what it persisted; its events reach the Edge only if sent, any number of times, in any order. */
  predicate Enabled(site: Site, w: World, m: Move) {
    match m
    case RobotMoves(_) => true
    case Send(e) => RobotViews.TaskEventPersisted(e) in RobotJournal(site, w)
    case EdgeMoves(c) =>
      var fromRobot := c.step.EventArrives? && c.step.event.EventMessage? && c.step.event.event.robotId == site.robot.robotId;
      fromRobot ==> c.step.event.event in w.network
  }

  function Next(site: Site, w: World, m: Move): World {
    if !Enabled(site, w, m) then w
    else match m
    case RobotMoves(c) => w.(robotChoices := w.robotChoices + [c])
    case Send(e) => w.(network := w.network + {e})
    case EdgeMoves(c) => w.(edgeChoices := w.edgeChoices + [c])
  }

  function WorldRun(site: Site, moves: seq<Move>): World {
    if moves == [] then QUIET else Next(site, WorldRun(site, moves[..|moves| - 1]), moves[|moves| - 1])
  }

  // -- the channel invents nothing

  ghost predicate SentWasPersisted(journal: seq<RobotViews.RobotRecord>, network: set<TaskEvent>) {
    forall e :: e in network ==> RobotViews.TaskEventPersisted(e) in journal
  }

  ghost predicate ReceivedWasSent(robot: RobotId, network: set<TaskEvent>, journal: seq<Stamped>) {
    forall i :: 0 <= i < |journal| && journal[i].record.TaskEventReceived? && journal[i].record.event.robotId == robot
      ==> journal[i].record.event in network
  }

  ghost predicate Faithful(site: Site, w: World) {
    && SentWasPersisted(RobotJournal(site, w), w.network)
    && ReceivedWasSent(site.robot.robotId, w.network, EdgeJournal(site, w))
  }

  lemma RobotJournalGrows(cfg: RobotExecutor.RobotConfig, choices: seq<RobotRuns.Choice>, c: RobotRuns.Choice)
    ensures RobotRuns.Run(cfg, choices).journal <= RobotRuns.Run(cfg, choices + [c]).journal
  {
    assert (choices + [c])[..|choices|] == choices;
    hide RobotRuns.Batch, RobotRuns.NextProcess;
  }

  lemma EdgeJournalGrows(cfg: EdgeConfig, choices: seq<EdgeChoice>, c: EdgeChoice)
    ensures EdgeRun(cfg, choices + [c])
         == EdgeRun(cfg, choices) + Kept(StepBatch(cfg, ViewOf(cfg, EdgeRun(cfg, choices)), c.step), c.persisted)
  {
    assert (choices + [c])[..|choices|] == choices;
    hide StepBatch, ViewOf;
  }

  predicate NoEvidence(rs: seq<EdgeRecord>) {
    forall r :: r in rs ==> !r.TaskEventReceived?
  }

  lemma {:induction false} StatusFlagsNoEvidence(s: EdgeState, cfg: EdgeConfig, m: StatusMessage, newSession: bool, now: Time, ids: seq<TaskId>)
    ensures NoEvidence(StatusFlags(s, cfg, m, newSession, now, ids))
    decreases |ids|
  {
    if ids != [] {
      StatusFlagsNoEvidence(s, cfg, m, newSession, now, ids[1..]);
      hide StatusFlag;
    }
  }

  lemma ReceiptNoEvidence(d: DeviceView, cfg: EdgeConfig, m: StatusMessage, newSession: bool, now: Time)
    ensures NoEvidence(ReceiptRecords(d, cfg, m, newSession, now))
  {
    hide HalfStale, ContentKey;
  }

  lemma StatusNoEvidence(s: EdgeState, cfg: EdgeConfig, delivery: StatusDelivery, now: Time)
    ensures NoEvidence(DecideStatusRecords(s, cfg, delivery, now))
  {
    if !StatusRefused(cfg, delivery) {
      var m := delivery.message;
      var d := if m.robotId in s.devices then s.devices[m.robotId] else NEW_DEVICE;
      var newSession := d.boot.None? || m.bootSequence > d.boot.value.sequence;
      ReceiptNoEvidence(d, cfg, m, newSession, now);
      StatusFlagsNoEvidence(s, cfg, m, newSession, now, s.order);
    }
    hide StatusFlags, HalfStale, StatusRegressed, StatusRefused, ReceiptRecords;
  }

  lemma {:induction false} LivenessNoEvidence(s: EdgeState, cfg: EdgeConfig, now: Time, robots: seq<RobotId>)
    ensures NoEvidence(LivenessRecords(s, cfg, now, robots))
    decreases |robots|
  {
    if robots != [] {
      LivenessNoEvidence(s, cfg, now, robots[1..]);
      hide LivenessMove;
    }
  }

  lemma {:induction false} TaskTickNoEvidence(s: EdgeState, now: Time, ids: seq<TaskId>)
    ensures NoEvidence(TaskTickRecords(s, now, ids))
    decreases |ids|
  {
    if ids != [] {
      TaskTickNoEvidence(s, now, ids[1..]);
      hide TickFlags;
    }
  }

  predicate NoneReceived(batch: seq<Stamped>) { forall st :: st in batch ==> !st.record.TaskEventReceived? }

  lemma StampedNoEvidence(rs: seq<EdgeRecord>, now: Time)
    requires NoEvidence(rs)
    ensures NoneReceived(Stamp(rs, now))
  {
    forall st | st in Stamp(rs, now) ensures !st.record.TaskEventReceived? {
      var i :| 0 <= i < |rs| && Stamp(rs, now)[i] == st;
      assert rs[i] in rs;
    }
  }

  lemma StatusReceivesNone(s: EdgeState, cfg: EdgeConfig, delivery: StatusDelivery, now: Time)
    ensures NoneReceived(DecideStatus(s, cfg, delivery, now))
  {
    hide DecideStatusRecords, NoEvidence, NoneReceived;
    StatusNoEvidence(s, cfg, delivery, now);
    StampedNoEvidence(DecideStatusRecords(s, cfg, delivery, now), now);
  }

  lemma TickReceivesNone(s: EdgeState, cfg: EdgeConfig, robots: seq<RobotId>, now: Time)
    ensures NoneReceived(DecideTick(s, cfg, robots, now))
  {
    hide LivenessRecords, TaskTickRecords, NoneReceived;
    LivenessNoEvidence(s, cfg, now, robots);
    TaskTickNoEvidence(s, now, s.order);
    StampedNoEvidence(LivenessRecords(s, cfg, now, robots) + TaskTickRecords(s, now, s.order), now);
  }

  lemma CreateReceivesNone(s: EdgeState, cfg: EdgeConfig, facts: AdmissionFacts, request: TaskRequest, now: Time)
    ensures NoneReceived(DecideCreate(s, cfg, facts, request, now).1)
  {
    hide Admissible, GateClosed, HasActiveTask;
  }

  /** An event batch records the delivered event, and no other. */
  lemma EventReceivesItself(s: EdgeState, cfg: EdgeConfig, delivery: EventDelivery, now: Time, i: nat)
    requires i < |DecideEvent(s, cfg, delivery, now)| && DecideEvent(s, cfg, delivery, now)[i].record.TaskEventReceived?
    ensures delivery.EventMessage? && DecideEvent(s, cfg, delivery, now)[i].record.event == delivery.event
  {
    hide Classify, ExposesRegression, EventRecords;
    var rs := DecideEventRecords(s, cfg, delivery);
    if EventRefusal(s, cfg, delivery).None? && !delivery.event.IsRequestLevelRejection() {
      var e := delivery.event;
      var t := s.tasks[e.taskId];
      var regressed := ExposesRegression(s, e) || (e.robotId in s.devices && s.devices[e.robotId].sessionRegression);
      ClassifiedReceivesItself(t, e, Classify(t.evidence, e, regressed));
      assert rs[i] in rs;
      hide EventRefusal;
    }
  }

  lemma ClassifiedReceivesItself(t: TaskView, e: TaskEvent, c: Verdict)
    ensures forall r :: r in EventRecords(t, e, c) && r.TaskEventReceived? ==> r.event == e
  {
  }

  /** The only step that records robot evidence is the arrival of that very event. */
  lemma EvidenceIsDelivered(cfg: EdgeConfig, s: EdgeState, step: EdgeStep, i: nat)
    requires i < |StepBatch(cfg, s, step)|
    ensures StepBatch(cfg, s, step)[i].record.TaskEventReceived? ==>
              step.EventArrives? && step.event.EventMessage? && StepBatch(cfg, s, step)[i].record.event == step.event.event
  {
    hide DecideStatus, DecideTick, DecideCreate, DecideEvent, Candidate;
    assert StepBatch(cfg, s, step)[i] in StepBatch(cfg, s, step);
    match step
    case StatusArrives(delivery, now) => StatusReceivesNone(s, cfg, delivery, now);
    case Tick(robots, now) => TickReceivesNone(s, cfg, robots, now);
    case Create(facts, request, now) => CreateReceivesNone(s, cfg, facts, request, now);
    case EventArrives(delivery, now) =>
      if DecideEvent(s, cfg, delivery, now)[i].record.TaskEventReceived? { EventReceivesItself(s, cfg, delivery, now, i); }
    case _ =>
  }

  lemma {:induction false} EdgeMoveFaithful(site: Site, w: World, c: EdgeChoice)
    requires Faithful(site, w) && Enabled(site, w, EdgeMoves(c))
    ensures ReceivedWasSent(site.robot.robotId, w.network, EdgeRun(site.edge, w.edgeChoices + [c]))
  {
    var before := EdgeJournal(site, w);
    var s := ViewOf(site.edge, before);
    var batch := StepBatch(site.edge, s, c.step);
    EdgeJournalGrows(site.edge, w.edgeChoices, c);
    forall i | 0 <= i < |batch| && batch[i].record.TaskEventReceived? && batch[i].record.event.robotId == site.robot.robotId
      ensures batch[i].record.event in w.network
    {
      EvidenceIsDelivered(site.edge, s, c.step, i);
      hide StepBatch, ViewOf, RobotRuns.Run, EdgeRun, Faithful;
    }
    hide StepBatch, ViewOf, RobotRuns.Run, EdgeRun;
  }

  lemma {:induction false} RobotMoveFaithful(site: Site, w: World, c: RobotRuns.Choice)
    requires Faithful(site, w)
    ensures SentWasPersisted(RobotRuns.Run(site.robot, w.robotChoices + [c]).journal, w.network)
  {
    RobotJournalGrows(site.robot, w.robotChoices, c);
    hide RobotRuns.Run, EdgeRun;
  }

  lemma {:induction false} NextFaithful(site: Site, w: World, m: Move)
    requires Faithful(site, w)
    ensures Faithful(site, Next(site, w, m))
  {
    hide RobotRuns.Run, EdgeRun;
    if Enabled(site, w, m) {
      match m
      case RobotMoves(c) => RobotMoveFaithful(site, w, c);
      case Send(e) =>
      case EdgeMoves(c) => EdgeMoveFaithful(site, w, c);
    }
  }

  lemma {:induction false} WorldFaithful(site: Site, moves: seq<Move>)
    ensures Faithful(site, WorldRun(site, moves))
  {
    if moves != [] {
      hide Faithful, Next;
      WorldFaithful(site, moves[..|moves| - 1]);
      NextFaithful(site, WorldRun(site, moves[..|moves| - 1]), moves[|moves| - 1]);
    }
  }

  // -- what a robot persisted is in the history of its task

  ghost predicate InTask(s: RobotViews.RobotState, e: TaskEvent) {
    e.taskId in s.tasks && InHistory(s.tasks[e.taskId].events, e)
  }

  lemma HistoryStep(d: RobotLegality.Durable, r: RobotViews.RobotRecord, e: TaskEvent)
    requires RobotLegality.Legal(d, r)
    ensures InTask(d.view, e) ==> InTask(RobotLegality.Advance(d, r).view, e)
    ensures r == RobotViews.TaskEventPersisted(e) && e.eventSequence >= 1 ==> InTask(RobotLegality.Advance(d, r).view, e)
  {
    var after := RobotLegality.Advance(d, r).view;
    if r.TaskEventPersisted? && r.event.eventSequence >= 1 {
      var before := d.view.tasks[r.event.taskId].events;
      assert after.tasks[r.event.taskId].events == before + [r.event];
      assert (before + [r.event])[|before|] == r.event;
      if InTask(d.view, e) && e.taskId == r.event.taskId {
        var i :| 0 <= i < |before| && before[i] == e;
        assert (before + [r.event])[i] == e;
      }
    }
  }

  lemma {:induction false} PersistedIsInHistory(journal: seq<RobotViews.RobotRecord>, i: nat, n: nat, e: TaskEvent)
    requires RobotSafety.LegalJournal(journal) && i < n <= |journal|
    requires journal[i] == RobotViews.TaskEventPersisted(e) && e.eventSequence >= 1
    ensures InTask(RobotSafety.At(journal, n).view, e)
    decreases n
  {
    RobotSafety.StepAt(journal, n - 1);
    HistoryStep(RobotSafety.At(journal, n - 1), journal[n - 1], e);
    hide *;
    if i < n - 1 { PersistedIsInHistory(journal, i, n - 1, e); }
  }

  // -- the Edge side, record by record

  /** The events of a task the journal recorded as received. */
  function Delivered(journal: seq<Stamped>, id: TaskId): set<TaskEvent> {
    if journal == [] then {}
    else
      var last := journal[|journal| - 1].record;
      Delivered(journal[..|journal| - 1], id)
      + if last.TaskEventReceived? && last.event.taskId == id then {last.event} else {}
  }

  /** No robot evidence closed the gate and no conflict was flagged. */
  predicate Undisturbed(t: TaskView) {
    forall r :: r in t.reasons ==> !ClosesGate(r) && !r.ConflictingTerminalReason?
  }

  ghost predicate HistoryAgrees(events: seq<TaskEvent>, t: TaskView, delivered: set<TaskEvent>) {
    RobotLegality.HistoryOk(events) && Subset(events, delivered) && Agrees(t.evidence, delivered) && Undisturbed(t)
  }

  lemma EventAgrees(events: seq<TaskEvent>, t: TaskView, delivered: set<TaskEvent>, e: TaskEvent, n: nat, at: Time)
    requires HistoryAgrees(events, t, delivered) && InHistory(events, e)
    ensures HistoryAgrees(events, EventStep(t, Received(t.evidence, e, Classify(t.evidence, e, false)), n, at), delivered + {e})
  {
    DeliveryAgrees(events, t.evidence, delivered, e);
    QuietIsNoReplay(t.evidence, e);
    QuietUndisturbed(t, e, Classify(t.evidence, e, false), n, at);
    hide RobotLegality.HistoryOk, InHistory, Agrees, Classify, EvidenceStep, ReasonsStep, ClocksStep, ProspectiveGap, Undisturbed, QuietVerdict;
  }

  lemma QuietUndisturbed(t: TaskView, e: TaskEvent, c: Verdict, n: nat, at: Time)
    requires Undisturbed(t) && QuietVerdict(c) && NotReplay(c)
    ensures Undisturbed(EventStep(t, Received(t.evidence, e, c), n, at))
  {
    hide EvidenceStep, ClocksStep, ProspectiveGap;
  }

  predicate NotReplay(c: Verdict) { !c.disposition.ConflictingReplay? }

  lemma QuietIsNoReplay(v: TaskEvidence, e: TaskEvent)
    requires QuietVerdict(Classify(v, e, false))
    ensures NotReplay(Classify(v, e, false))
  {
    hide Differs, KeyLess;
  }

  /** Any other record leaves the task's evidence as it is and brings no reason that disturbs it. */
  lemma OtherStep(cfg: EdgeConfig, s: EdgeState, st: Stamped, id: TaskId)
    requires Legal(cfg, s, st) && id in s.tasks && Undisturbed(s.tasks[id]) && !s.tasks[id].AuthorizationConflict()
    requires !(st.record.TaskEventReceived? && st.record.event.taskId == id)
    ensures var after := TaskStep(id, s.tasks[id], st.record, s.applied + 1, st.at);
            after.evidence == s.tasks[id].evidence && Undisturbed(after)
  {
    hide NoteEvidence, EventStep;
  }

  lemma OtherAgrees(cfg: EdgeConfig, s: EdgeState, st: Stamped, id: TaskId, events: seq<TaskEvent>, delivered: set<TaskEvent>)
    requires Legal(cfg, s, st) && id in s.tasks && HistoryAgrees(events, s.tasks[id], delivered)
    requires !(st.record.TaskEventReceived? && st.record.event.taskId == id)
    ensures HistoryAgrees(events, TaskStep(id, s.tasks[id], st.record, s.applied + 1, st.at), delivered)
  {
    assert !s.tasks[id].AuthorizationConflict() by { hide Legal, TaskStep, Subset; }
    hide RobotLegality.HistoryOk, Subset, Agrees, Legal, TaskStep, Undisturbed;
    OtherStep(cfg, s, st, id);
  }

  /** One record seen by one task: agreement with the set delivered so far is kept. */
  lemma StepAgrees(cfg: EdgeConfig, s: EdgeState, st: Stamped, id: TaskId, events: seq<TaskEvent>, delivered: set<TaskEvent>)
    requires Legal(cfg, s, st) && id in s.tasks && HistoryAgrees(events, s.tasks[id], delivered)
    requires !Regressed(s, s.tasks[id].request.targetRobot)
    requires st.record.TaskEventReceived? && st.record.event.taskId == id ==> InHistory(events, st.record.event)
    ensures HistoryAgrees(events, TaskStep(id, s.tasks[id], st.record, s.applied + 1, st.at),
                          delivered + if st.record.TaskEventReceived? && st.record.event.taskId == id then {st.record.event} else {})
  {
    if st.record.TaskEventReceived? && st.record.event.taskId == id {
      OwnEventStep(cfg, s, st, id);
      hide *;
      EventAgrees(events, s.tasks[id], delivered, st.record.event, s.applied + 1, st.at);
    } else {
      assert delivered + {} == delivered;
      OtherAgrees(cfg, s, st, id, events, delivered);
      hide HistoryAgrees, TaskStep;
    }
  }

  // -- whole Edge journals

  lemma DeliveredSnoc(journal: seq<Stamped>, n: nat, id: TaskId)
    requires 0 < n <= |journal|
    ensures Delivered(journal[..n], id)
         == Delivered(journal[..n - 1], id)
            + if journal[n - 1].record.TaskEventReceived? && journal[n - 1].record.event.taskId == id then {journal[n - 1].record.event} else {}
  {
    assert journal[..n][..n - 1] == journal[..n - 1];
  }

  /** A task the Edge does not know, before and after one record. */
  lemma UnknownStep(cfg: EdgeConfig, s: EdgeState, st: Stamped, id: TaskId, events: seq<TaskEvent>)
    requires Legal(cfg, s, st) && id !in s.tasks && RobotLegality.HistoryOk(events)
    ensures !(st.record.TaskEventReceived? && st.record.event.taskId == id)
    ensures id in Apply(s, st).tasks ==> HistoryAgrees(events, Apply(s, st).tasks[id], {})
  {
    NothingDelivered();
    hide RobotLegality.HistoryOk, Agrees, DevicesAfter;
  }

  lemma EvidenceHasRobot(cfg: EdgeConfig, s: EdgeState, st: Stamped)
    requires Legal(cfg, s, st) && st.record.TaskEventReceived?
    ensures st.record.event.taskId in s.tasks && st.record.event.robotId == s.tasks[st.record.event.taskId].request.targetRobot
    ensures st.record.event.eventSequence >= 1
  {
    hide Classify, Received;
  }

  predicate TellsAbout(r: EdgeRecord, robot: RobotId, id: TaskId) {
    r.TaskEventReceived? && r.event.taskId == id && r.event.robotId == robot
  }

  /** The first n records delivered events of this robot's history of the task only. */
  ghost predicate OnlyHistory(journal: seq<Stamped>, n: nat, robot: RobotId, id: TaskId, events: seq<TaskEvent>)
    requires n <= |journal|
  {
    forall i :: 0 <= i < n && TellsAbout(journal[i].record, robot, id) ==> InHistory(events, journal[i].record.event)
  }

  /** The Edge has a task of this robot. */
  predicate Holds(s: EdgeState, robot: RobotId, id: TaskId) { id in s.tasks && s.tasks[id].request.targetRobot == robot }

  lemma HoldsTask(s: EdgeState, robot: RobotId, id: TaskId)
    requires Holds(s, robot, id)
    ensures id in s.tasks
  {
  }

  lemma {:induction false} PrefixAgrees(cfg: EdgeConfig, journal: seq<Stamped>, n: nat, robot: RobotId, id: TaskId, events: seq<TaskEvent>)
    requires LegalJournal(cfg, journal) && n <= |journal| && RobotLegality.HistoryOk(events)
    requires OnlyHistory(journal, n, robot, id, events)
    requires !Regressed(At(cfg, journal, n), robot)
    ensures id !in At(cfg, journal, n).tasks ==> Delivered(journal[..n], id) == {}
    ensures Holds(At(cfg, journal, n), robot, id) ==> HistoryAgrees(events, At(cfg, journal, n).tasks[id], Delivered(journal[..n], id))
    decreases n
  {
    if n == 0 {
      NoTasksAtStart(cfg, journal);
    } else {
      var s, st := At(cfg, journal, n - 1), journal[n - 1];
      StepAt(cfg, journal, n - 1);
      DeliveredSnoc(journal, n, id);
      if Regressed(s, robot) { RegressionStays(s, st, robot); }
      assert OnlyHistory(journal, n - 1, robot, id, events);
      if st.record.TaskEventReceived? {
        EvidenceHasRobot(cfg, s, st);
        assert st.record.event.taskId == id && st.record.event.robotId == robot ==> InHistory(events, st.record.event);
      }
      hide *;
      PrefixAgrees(cfg, journal, n - 1, robot, id, events);
      if id !in s.tasks {
        UnknownStep(cfg, s, st, id, events);
      } else {
        KnownStep(cfg, s, st, id);
        if s.tasks[id].request.targetRobot == robot {
          StepAgrees(cfg, s, st, id, events, Delivered(journal[..n - 1], id));
        }
      }
    }
  }

  lemma NoTasksAtStart(cfg: EdgeConfig, journal: seq<Stamped>)
    ensures At(cfg, journal, 0).tasks == map[]
    ensures forall id :: Delivered(journal[..0], id) == {}
  {
    assert journal[..0] == [];
  }

  // -- end to end

  function EdgeNow(site: Site, w: World): EdgeState { ViewOf(site.edge, EdgeJournal(site, w)) }

  function RobotNow(site: Site, w: World): RobotViews.RobotState { RobotRuns.DurableOf(RobotJournal(site, w)).view }

  /** The robot's persisted history of a task. */
  function History(site: Site, w: World, id: TaskId): seq<TaskEvent> {
    if id in RobotNow(site, w).tasks then RobotNow(site, w).tasks[id].events else []
  }

  function Arrived(site: Site, w: World, id: TaskId): set<TaskEvent> { Delivered(EdgeJournal(site, w), id) }

  predicate Unregressed(site: Site, w: World) { !Regressed(EdgeNow(site, w), site.robot.robotId) }

  lemma HistoryIsOk(site: Site, w: World, id: TaskId)
    ensures RobotLegality.HistoryOk(History(site, w, id))
  {
    RobotSafety.RunIsLegal(site.robot, w.robotChoices);
    RobotSafety.FinalState(RobotJournal(site, w));
    hide RobotRuns.Run, RobotRuns.DurableOf, RobotLegality.CountsOk, RobotLegality.ProtectionOk, RobotLegality.EvidenceOk;
    var s := RobotNow(site, w);
    if id in s.tasks { assert RobotLegality.TaskOk(s.token, s.bootSequence, id, s.tasks[id]); }
  }

  lemma SentIsInHistory(site: Site, w: World, e: TaskEvent)
    requires Faithful(site, w) && e in w.network && e.eventSequence >= 1
    ensures InHistory(History(site, w, e.taskId), e)
  {
    var journal := RobotJournal(site, w);
    var i :| 0 <= i < |journal| && journal[i] == RobotViews.TaskEventPersisted(e);
    RobotSafety.RunIsLegal(site.robot, w.robotChoices);
    RobotSafety.FinalState(journal);
    hide RobotRuns.Run, EdgeRun, RobotRuns.DurableOf, RobotSafety.At, RobotSafety.LegalJournal, RobotLegality.StateOk;
    PersistedIsInHistory(journal, i, |journal|, e);
  }

  lemma EdgeSawHistory(site: Site, w: World, id: TaskId)
    requires Faithful(site, w)
    ensures OnlyHistory(EdgeJournal(site, w), |EdgeJournal(site, w)|, site.robot.robotId, id, History(site, w, id))
  {
    var journal := EdgeJournal(site, w);
    RunLegal(site.edge, w.edgeChoices);
    forall i | 0 <= i < |journal| && TellsAbout(journal[i].record, site.robot.robotId, id)
      ensures InHistory(History(site, w, id), journal[i].record.event)
    {
      assert journal[i].record.event in w.network;
      StepAt(site.edge, journal, i);
      hide EdgeJournal, LegalJournal, Faithful, History, InHistory, TasksOk, ViewOf, At;
      EvidenceHasRobot(site.edge, At(site.edge, journal, i), journal[i]);
      SentIsInHistory(site, w, journal[i].record.event);
    }
  }

  lemma EdgeNowIsLegal(site: Site, w: World)
    ensures LegalJournal(site.edge, EdgeJournal(site, w))
    ensures EdgeNow(site, w) == At(site.edge, EdgeJournal(site, w), |EdgeJournal(site, w)|)
    ensures EdgeJournal(site, w)[..|EdgeJournal(site, w)|] == EdgeJournal(site, w)
  {
    hide LegalJournal, At, ViewOf, EdgeRun;
    RunLegal(site.edge, w.edgeChoices);
    FinalAt(site.edge, EdgeJournal(site, w));
  }

  /** Everything the Edge holds about a task of an unregressed robot is decided by the events delivered so far. */
  lemma EdgeAgrees(site: Site, moves: seq<Move>, id: TaskId)
    requires var w := WorldRun(site, moves);
             Unregressed(site, w) && Holds(EdgeNow(site, w), site.robot.robotId, id)
    ensures var w := WorldRun(site, moves);
            HistoryAgrees(History(site, w, id), EdgeNow(site, w).tasks[id], Arrived(site, w, id))
  {
    var w := WorldRun(site, moves);
    var journal := EdgeJournal(site, w);
    hide WorldRun, EdgeJournal, LegalJournal, Faithful, History, EdgeNow, At, OnlyHistory, RobotLegality.HistoryOk, HistoryAgrees, Regressed, Holds;
    WorldFaithful(site, moves);
    EdgeSawHistory(site, w, id);
    HistoryIsOk(site, w, id);
    EdgeNowIsLegal(site, w);
    HoldsTask(EdgeNow(site, w), site.robot.robotId, id);
    PrefixAgrees(site.edge, journal, |journal|, site.robot.robotId, id, History(site, w, id));
  }

  // -- what agreement means

  lemma TerminalDelivered(events: seq<TaskEvent>, t: TaskView, delivered: set<TaskEvent>, e: TaskEvent)
    requires HistoryAgrees(events, t, delivered) && e in delivered && IsTerminalKind(e.kind)
    ensures t.evidence.state == StateOf(e.kind) && t.evidence.effective == Some(Reported(e.kind)) && t.evidence.first == Some(RefOf(e))
    ensures RobotLegality.TerminalOf(events) == Some(e.kind)
  {
    var top := t.evidence.seen[t.evidence.appliedMax.value];
    assert InHistory(events, top) && InHistory(events, e);
    if top != e { HistoryEnds(events, e, top); }
    var i :| 0 <= i < |events| && events[i] == e;
    hide Latest;
  }

  lemma FinishedMeansDelivered(events: seq<TaskEvent>, t: TaskView, delivered: set<TaskEvent>)
    requires HistoryAgrees(events, t, delivered) && t.IsTerminal()
    ensures exists e :: e in delivered && IsTerminalKind(e.kind) && t.evidence.state == StateOf(e.kind)
  {
    var top := t.evidence.seen[t.evidence.appliedMax.value];
    assert top in delivered;
    hide RobotLegality.HistoryOk;
  }

  /** Once the robot's terminal event is delivered, the Edge reports that very result, without conflict. */
  lemma DeliveredResultIsReported(site: Site, moves: seq<Move>, id: TaskId, e: TaskEvent)
    requires var w := WorldRun(site, moves);
             Unregressed(site, w) && Holds(EdgeNow(site, w), site.robot.robotId, id)
    requires e in Arrived(site, WorldRun(site, moves), id) && IsTerminalKind(e.kind)
    ensures var w := WorldRun(site, moves);
            var v := EdgeNow(site, w).tasks[id].evidence;
            && v.state == StateOf(e.kind) && v.effective == Some(Reported(e.kind))
            && id in RobotNow(site, w).tasks && RobotNow(site, w).tasks[id].terminal == Some(e.kind)
  {
    var w := WorldRun(site, moves);
    EdgeAgrees(site, moves, id);
    RobotTerminal(site, w, id);
    hide *;
    TerminalDelivered(History(site, w, id), EdgeNow(site, w).tasks[id], Arrived(site, w, id), e);
  }

  /** The robot's recorded result is the last event of its history; it has none while the history is empty. */
  lemma RobotTerminal(site: Site, w: World, id: TaskId)
    ensures var last := RobotLegality.TerminalOf(History(site, w, id));
            last.Some? ==> id in RobotNow(site, w).tasks && RobotNow(site, w).tasks[id].terminal == last
  {
    RobotSafety.RunIsLegal(site.robot, w.robotChoices);
    RobotSafety.FinalState(RobotJournal(site, w));
    var s := RobotNow(site, w);
    hide RobotRuns.Run, RobotRuns.DurableOf;
    if id in s.tasks { RobotSafety.HistoryFacts(s, id); }
    hide RobotLegality.StateOk;
  }

  lemma StateOfInjective()
    ensures forall k :: StateOf(k).SucceededState? <==> k.Succeeded?
    ensures forall k :: StateOf(k).RejectedState? <==> k.Rejected?
  {
  }

  /** An Edge that reports an outcome reports the robot's own, and the robot really executed that often. */
  lemma ReportedResultIsTrue(site: Site, moves: seq<Move>, id: TaskId)
    requires var w := WorldRun(site, moves);
             Unregressed(site, w) && Holds(EdgeNow(site, w), site.robot.robotId, id) && EdgeNow(site, w).tasks[id].IsTerminal()
    ensures var w := WorldRun(site, moves);
            var t := EdgeNow(site, w).tasks[id];
            && id in RobotNow(site, w).tasks && RobotNow(site, w).tasks[id].terminal.Some?
            && t.evidence.state == StateOf(RobotNow(site, w).tasks[id].terminal.value)
            && (t.evidence.state.SucceededState? ==> RobotSafety.Starts(RobotJournal(site, w), id) == 1)
            && (t.evidence.state.RejectedState? ==> RobotSafety.Starts(RobotJournal(site, w), id) == 0)
  {
    var w := WorldRun(site, moves);
    EdgeAgrees(site, moves, id);
    StateOfInjective();
    hide *;
    FinishedMeansDelivered(History(site, w, id), EdgeNow(site, w).tasks[id], Arrived(site, w, id));
    var e :| e in Arrived(site, w, id) && IsTerminalKind(e.kind) && EdgeNow(site, w).tasks[id].evidence.state == StateOf(e.kind);
    DeliveredResultIsReported(site, moves, id, e);
    HistoryStarts(site, w, id);
  }

  lemma HistoryStarts(site: Site, w: World, id: TaskId)
    requires id in RobotNow(site, w).tasks
    ensures RobotNow(site, w).tasks[id].terminal == Some(Succeeded) ==> RobotSafety.Starts(RobotJournal(site, w), id) == 1
    ensures RobotNow(site, w).tasks[id].terminal == Some(EventKind.Rejected) ==> RobotSafety.Starts(RobotJournal(site, w), id) == 0
  {
    RobotSafety.HistoryShape(site.robot, w.robotChoices, id);
  }

  /** An unregressed robot's own evidence, however delivered, never closes its authorization gate. */
  lemma GateStaysOpen(site: Site, moves: seq<Move>)
    requires Unregressed(site, WorldRun(site, moves))
    ensures !GateClosed(EdgeNow(site, WorldRun(site, moves)), site.robot.robotId)
  {
    var w := WorldRun(site, moves);
    var s := EdgeNow(site, w);
    forall id | Holds(s, site.robot.robotId, id) ensures !TaskClosesGate(s.tasks[id]) {
      EdgeAgrees(site, moves, id);
      hide WorldRun, EdgeNow, History, Arrived, RobotLegality.HistoryOk;
    }
    hide WorldRun, EdgeNow, TaskClosesGate;
  }

  /** With every event of the history delivered, in whatever order, the Edge misses nothing. */
  lemma CompleteDeliveryHasNoGap(site: Site, moves: seq<Move>, id: TaskId)
    requires var w := WorldRun(site, moves);
             && Unregressed(site, w) && Holds(EdgeNow(site, w), site.robot.robotId, id)
             && forall i :: 0 <= i < |History(site, w, id)| ==> History(site, w, id)[i] in Arrived(site, w, id)
    ensures Missing(EdgeNow(site, WorldRun(site, moves)).tasks[id].evidence) == []
  {
    var w := WorldRun(site, moves);
    EdgeAgrees(site, moves, id);
    hide WorldRun, EdgeNow, History, Arrived, RobotLegality.HistoryOk, Agrees, Unregressed, Holds, Missing;
    WholeHistoryMissesNothing(History(site, w, id), EdgeNow(site, w).tasks[id].evidence, Arrived(site, w, id));
  }

  /** Two sites that received the same events of a task, in any order and number, hold the same conclusions. */
  lemma OrderAndRepetitionDoNotMatter(site: Site, moves: seq<Move>, site': Site, moves': seq<Move>, id: TaskId)
    requires var w := WorldRun(site, moves); Unregressed(site, w) && Holds(EdgeNow(site, w), site.robot.robotId, id)
    requires var w := WorldRun(site', moves'); Unregressed(site', w) && Holds(EdgeNow(site', w), site'.robot.robotId, id)
    requires Arrived(site, WorldRun(site, moves), id) == Arrived(site', WorldRun(site', moves'), id)
    ensures var v, v' := EdgeNow(site, WorldRun(site, moves)).tasks[id].evidence, EdgeNow(site', WorldRun(site', moves')).tasks[id].evidence;
            && v.state == v'.state && v.appliedMax == v'.appliedMax && v.acceptanceObserved == v'.acceptanceObserved
            && v.terminals == v'.terminals && v.effective == v'.effective && Missing(v) == Missing(v')
  {
    EdgeAgrees(site, moves, id);
    EdgeAgrees(site', moves', id);
    hide WorldRun, EdgeNow, History, Arrived, RobotLegality.HistoryOk, Agrees, Unregressed, Holds, Missing;
    SameSetSameConclusion(EdgeNow(site, WorldRun(site, moves)).tasks[id].evidence,
                          EdgeNow(site', WorldRun(site', moves')).tasks[id].evidence, Arrived(site, WorldRun(site, moves), id));
  }
}
