/** Whole runs of one robot identity: boots, duplicated requests, ticks, resets, crashes, torn batches. */
module RobotRuns {
  import opened TaskContracts
  import opened RobotViews
  import opened RobotExecutor
  import opened RobotLegality
  import opened RobotBatches
  import opened RobotRestart

  datatype Process = Down | Up(behavior: Behavior, exitRequested: bool)

  /** What survives (the journal) and what does not (the process). */
  datatype Robot = Robot(journal: seq<RobotRecord>, process: Process)

  datatype Step =
    | Boot(behavior: Behavior, now: Time, initialize: bool, nonce: string)
    | Receive(delivery: RequestDelivery, now: Time)
    | Tick(now: Time)
    | Reset(now: Time)
    | Confirm(record: RobotRecord)
    | Crash

  /** One step of a run: how many lines of its batch became durable, and whether the process lived on. */
  datatype Choice = Choice(step: Step, persisted: nat, survives: bool)

  function DurableOf(journal: seq<RobotRecord>): Durable { AdvanceAll(EMPTY, journal) }

  predicate Confirmable(s: RobotState, r: RobotRecord) {
    || (r.EventPublishConfirmed? && r.confirmedTask in s.tasks
        && exists i :: 0 <= i < |s.tasks[r.confirmedTask].events| && s.tasks[r.confirmedTask].events[i].OrderKey() == r.key)
    || (r.RejectionPublishConfirmed? && r.recordSequence in s.rejections)
  }

  /** The batch a step decides; a step the process cannot take decides nothing. */
  function Batch(cfg: RobotConfig, robot: Robot, step: Step): seq<RobotRecord> {
    var s := DurableOf(robot.journal).view;
    match step
    case Boot(behavior, now, initialize, nonce) =>
      if robot.process.Down? then
        var start := StartBatch(s, cfg, behavior, now, initialize, nonce);
        if start.Ok? then start.value else []
      else []
    case Receive(delivery, now) => if robot.process.Up? then OnRequest(s, cfg, robot.process.behavior, delivery, now) else []
    case Tick(now) =>
      if robot.process.Up? && !robot.process.exitRequested then DecideTick(s, cfg, robot.process.behavior, now).records else []
    case Reset(now) => if robot.process.Up? then DecideReset(s, cfg, now) else []
    case Confirm(r) => if robot.process.Up? && Confirmable(s, r) then [r] else []
    case Crash => []
  }

  function NextProcess(cfg: RobotConfig, robot: Robot, step: Step): Process {
    var s := DurableOf(robot.journal).view;
    match step
    case Boot(behavior, now, initialize, nonce) =>
      if robot.process.Down? && StartBatch(s, cfg, behavior, now, initialize, nonce).Ok? then Up(behavior, false) else robot.process
    case Tick(now) =>
      if robot.process.Up? then
        robot.process.(exitRequested := robot.process.exitRequested || DecideTick(s, cfg, robot.process.behavior, now).exits)
      else Down
    case Crash => Down
    case _ => robot.process
  }

  /** A batch is appended line by line; a process that loses any line of its batch dies with it. */
  function Take(cfg: RobotConfig, robot: Robot, c: Choice): Robot {
    var batch := Batch(cfg, robot, c.step);
    if c.persisted >= |batch| then Robot(robot.journal + batch, if c.survives then NextProcess(cfg, robot, c.step) else Down)
    else Robot(robot.journal + batch[..c.persisted], Down)
  }

  const OFF := Robot([], Down)

  function Run(cfg: RobotConfig, choices: seq<Choice>): Robot {
    if choices == [] then OFF else Take(cfg, Run(cfg, choices[..|choices| - 1]), choices[|choices| - 1])
  }

  // -- every reachable journal is a chain of legal records

  ghost predicate Sound(robot: Robot) {
    && LegalBatch(EMPTY, robot.journal)
    && StateOk(DurableOf(robot.journal).view)
    && (robot.process.Up? ==> Booted(DurableOf(robot.journal)))
  }

  lemma InitiallySound()
    ensures StateOk(INITIAL)
  {
  }

  lemma BatchLegal(cfg: RobotConfig, robot: Robot, step: Step)
    requires Sound(robot)
    ensures var batch := Batch(cfg, robot, step);
            && LegalBatch(DurableOf(robot.journal), batch)
            && (NextProcess(cfg, robot, step).Up? ==> Booted(AdvanceAll(DurableOf(robot.journal), batch)))
  {
    var d := DurableOf(robot.journal);
    var batch := Batch(cfg, robot, step);
    hide LegalBatch, AdvanceAll, StateOk, Booted, StartBatch, OnRequest, DecideTick, DecideReset, DurableOf;
    EmptyBatch(d);
    match step
    case Boot(behavior, now, initialize, nonce) =>
      if robot.process.Down? && StartBatch(d.view, cfg, behavior, now, initialize, nonce).Ok? {
        StartLegal(d, cfg, behavior, now, initialize, nonce);
      }
    case Receive(delivery, now) =>
      if robot.process.Up? { RequestLegal(d, cfg, robot.process.behavior, delivery, now); }
    case Tick(now) =>
      if robot.process.Up? && !robot.process.exitRequested { TickLegal(d, cfg, robot.process.behavior, now); }
    case Reset(now) => if robot.process.Up? { ResetLegal(d, cfg, now); }
    case Confirm(r) => if robot.process.Up? && Confirmable(d.view, r) { ConfirmationLegal(d, r); }
    case Crash =>
  }

  lemma TakeSound(cfg: RobotConfig, robot: Robot, c: Choice)
    requires Sound(robot)
    ensures Sound(Take(cfg, robot, c))
  {
    var d := DurableOf(robot.journal);
    var batch := Batch(cfg, robot, c.step);
    var persisted := if c.persisted >= |batch| then batch else batch[..c.persisted];
    BatchLegal(cfg, robot, c.step);
    hide LegalBatch, AdvanceAll, StateOk, Booted, Batch, NextProcess;
    if c.persisted < |batch| { LegalPrefix(d, batch, c.persisted); }
    LegalConcat(EMPTY, robot.journal, persisted);
    LegalBatchKeepsState(d, persisted);
  }

  /** Main invariant: any run, with any tearing and any crashes, leaves a legal journal. */
  lemma {:induction false} RunSound(cfg: RobotConfig, choices: seq<Choice>)
    ensures Sound(Run(cfg, choices))
  {
    if choices == [] {
      InitiallySound();
    } else {
      hide Sound, Take;
      RunSound(cfg, choices[..|choices| - 1]);
      TakeSound(cfg, Run(cfg, choices[..|choices| - 1]), choices[|choices| - 1]);
    }
  }

  // -- reading a legal journal at an index

  lemma {:induction false} LegalAt(d: Durable, rs: seq<RobotRecord>, i: nat)
    requires StateOk(d.view) && LegalBatch(d, rs) && i < |rs|
    ensures StateOk(AdvanceAll(d, rs[..i]).view)
    ensures Legal(AdvanceAll(d, rs[..i]), rs[i])
    ensures AdvanceAll(d, rs[..i + 1]) == Advance(AdvanceAll(d, rs[..i]), rs[i])
    decreases i
  {
    LegalPrefix(d, rs, i);
    LegalBatchKeepsState(d, rs[..i]);
    LegalPrefix(d, rs, i + 1);
    assert rs[..i + 1] == rs[..i] + [rs[i]];
    LegalConcat(d, rs[..i], [rs[i]]);
    LastLegal(d, rs[..i], rs[i]);
    hide Legal, Advance;
    assert [rs[i]][1..] == [];
  }

  lemma {:induction false} LastLegal(d: Durable, front: seq<RobotRecord>, last: RobotRecord)
    requires LegalBatch(d, front + [last])
    ensures Legal(AdvanceAll(d, front), last)
    decreases |front|
  {
    hide Legal, Advance;
    if front == [] {
      assert front + [last] == [last];
    } else {
      assert (front + [last])[1..] == front[1..] + [last];
      LastLegal(Advance(d, front[0]), front[1..], last);
    }
  }
}
