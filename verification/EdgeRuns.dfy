/** Whole runs of the Edge: any deliveries, any ticks, restarts and crashes between journal lines. */
module EdgeRuns {
  import opened Common
  import opened TaskContracts
  import opened EdgeViews
  import opened EdgeDecisions
  import opened EdgeLegality
  import opened EdgeBatches

  datatype EdgeStep =
    | Start(now: Time)
    | SessionEvent(lost: bool, now: Time)
    | RefuseDelivery(now: Time)
    | Create(facts: AdmissionFacts, request: TaskRequest, now: Time)
    | EventArrives(event: EventDelivery, now: Time)
    | StatusArrives(status: StatusDelivery, now: Time)
    | Tick(robots: seq<RobotId>, now: Time)
    | Publish(published: TaskId, now: Time)
    | ConfirmPublish(confirmed: TaskId, now: Time)

  /** The batch one step decides on the view of the whole journal; publications are re-checked in the lock. */
  function StepBatch(cfg: EdgeConfig, s: EdgeState, step: EdgeStep): seq<Stamped> {
    match step
    case Start(now) => [Stamped(EdgeStarted, now)]
    case SessionEvent(lost, now) => [Stamped(TransportSession(lost), now)]
    case RefuseDelivery(now) => [Stamped(TaskEventRejected(None), now)]
    case Create(facts, request, now) => DecideCreate(s, cfg, facts, request, now).1
    case EventArrives(delivery, now) => DecideEvent(s, cfg, delivery, now)
    case StatusArrives(delivery, now) => DecideStatus(s, cfg, delivery, now)
    case Tick(robots, now) => DecideTick(s, cfg, robots, now)
    case Publish(id, now) => if Candidate(s, cfg, id, now) then [AttemptRecord(s, id, now)] else []
    case ConfirmPublish(id, now) => if id in s.tasks then [ConfirmRecord(s, id, now)] else []
  }

  /** A step and how many lines of its batch became durable before the process went on or died. */
  datatype EdgeChoice = EdgeChoice(step: EdgeStep, persisted: nat)

  function Kept(batch: seq<Stamped>, persisted: nat): seq<Stamped> {
    if persisted >= |batch| then batch else batch[..persisted]
  }

  function ViewOf(cfg: EdgeConfig, journal: seq<Stamped>): EdgeState {
    ApplyAll(InitialEdge(cfg.robotIds), journal)
  }

  function EdgeRun(cfg: EdgeConfig, choices: seq<EdgeChoice>): seq<Stamped> {
    if choices == [] then []
    else
      var journal := EdgeRun(cfg, choices[..|choices| - 1]);
      var c := choices[|choices| - 1];
      journal + Kept(StepBatch(cfg, ViewOf(cfg, journal), c.step), c.persisted)
  }

  ghost predicate LegalJournal(cfg: EdgeConfig, journal: seq<Stamped>) {
    LegalBatch(cfg, InitialEdge(cfg.robotIds), journal)
  }

  lemma SingleLegal(cfg: EdgeConfig, s: EdgeState, st: Stamped)
    requires Legal(cfg, s, st)
    ensures LegalBatch(cfg, s, [st])
  {
    hide Legal, Apply;
    assert [st][1..] == [];
  }

  lemma StepLegal(cfg: EdgeConfig, s: EdgeState, step: EdgeStep)
    requires TasksOk(s)
    ensures LegalBatch(cfg, s, StepBatch(cfg, s, step))
  {
    match step
    case Start(now) => SingleLegal(cfg, s, Stamped(EdgeStarted, now));
    case SessionEvent(lost, now) => SingleLegal(cfg, s, Stamped(TransportSession(lost), now));
    case RefuseDelivery(now) => SingleLegal(cfg, s, Stamped(TaskEventRejected(None), now));
    case Create(facts, request, now) => CreateLegal(cfg, s, facts, request, now);
    case EventArrives(delivery, now) => EventLegal(cfg, s, delivery, now);
    case StatusArrives(delivery, now) => StatusLegal(cfg, s, delivery, now);
    case Tick(robots, now) => TickLegal(cfg, s, robots, now);
    case Publish(id, now) =>
      hide TasksOk;
      if Candidate(s, cfg, id, now) { SingleLegal(cfg, s, AttemptRecord(s, id, now)); }
    case ConfirmPublish(id, now) =>
      hide TasksOk;
      if id in s.tasks { SingleLegal(cfg, s, ConfirmRecord(s, id, now)); }
  }

  /** Main invariant: every run leaves a legal journal with consistent tasks. */
  lemma {:induction false} RunLegal(cfg: EdgeConfig, choices: seq<EdgeChoice>)
    ensures LegalJournal(cfg, EdgeRun(cfg, choices)) && TasksOk(ViewOf(cfg, EdgeRun(cfg, choices)))
  {
    var s0 := InitialEdge(cfg.robotIds);
    if choices == [] {
      assert s0.tasks == map[];
    } else {
      var front := choices[..|choices| - 1];
      RunLegal(cfg, front);
      var journal := EdgeRun(cfg, front);
      var c := choices[|choices| - 1];
      var s := ViewOf(cfg, journal);
      var batch := StepBatch(cfg, s, c.step);
      hide StepBatch, LegalBatch, ApplyAll, TasksOk, InitialEdge;
      StepLegal(cfg, s, c.step);
      if c.persisted < |batch| { LegalPrefix(cfg, s, batch, c.persisted); }
      LegalConcat(cfg, s0, journal, Kept(batch, c.persisted));
      ApplyConcat(s0, journal, Kept(batch, c.persisted));
      LegalBatchKeepsTasks(cfg, s, Kept(batch, c.persisted));
    }
  }

  // -- reading a journal at an index

  function At(cfg: EdgeConfig, journal: seq<Stamped>, n: nat): EdgeState
    requires n <= |journal|
  {
    ViewOf(cfg, journal[..n])
  }

  lemma {:induction false} LastLegal(cfg: EdgeConfig, s: EdgeState, front: seq<Stamped>, last: Stamped)
    requires LegalBatch(cfg, s, front + [last])
    ensures Legal(cfg, ApplyAll(s, front), last)
    decreases |front|
  {
    hide Legal, Apply;
    if front == [] {
      assert front + [last] == [last];
    } else {
      assert (front + [last])[1..] == front[1..] + [last];
      LastLegal(cfg, Apply(s, front[0]), front[1..], last);
    }
  }

  lemma ApplyOne(s: EdgeState, st: Stamped)
    ensures ApplyAll(s, [st]) == Apply(s, st)
  {
    hide Apply;
    assert [st][1..] == [];
  }

  lemma InitialTasksOk(cfg: EdgeConfig)
    ensures TasksOk(InitialEdge(cfg.robotIds))
  {
  }

  lemma StepAt(cfg: EdgeConfig, journal: seq<Stamped>, i: nat)
    requires LegalJournal(cfg, journal) && i < |journal|
    ensures TasksOk(At(cfg, journal, i)) && Legal(cfg, At(cfg, journal, i), journal[i])
    ensures At(cfg, journal, i + 1) == Apply(At(cfg, journal, i), journal[i])
  {
    var s0 := InitialEdge(cfg.robotIds);
    InitialTasksOk(cfg);
    hide LegalBatch, ApplyAll, TasksOk, Legal, Apply, InitialEdge;
    LegalPrefix(cfg, s0, journal, i);
    LegalPrefix(cfg, s0, journal, i + 1);
    LegalBatchKeepsTasks(cfg, s0, journal[..i]);
    assert journal[..i + 1] == journal[..i] + [journal[i]];
    LastLegal(cfg, s0, journal[..i], journal[i]);
    ApplyConcat(s0, journal[..i], [journal[i]]);
    ApplyOne(ApplyAll(s0, journal[..i]), journal[i]);
  }

  lemma FinalAt(cfg: EdgeConfig, journal: seq<Stamped>)
    ensures At(cfg, journal, |journal|) == ViewOf(cfg, journal)
  {
    assert journal[..|journal|] == journal;
  }
}
