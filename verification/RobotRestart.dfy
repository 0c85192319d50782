/** A boot batch is legal after any torn or whole journal, and leaves a running process fit to work. */
module RobotRestart {
  import opened Common
  import opened TaskContracts
  import opened RobotViews
  import opened RobotExecutor
  import opened RobotLegality
  import opened RobotBatches

  /** Between the boot record and the end of the boot batch. */
  ghost predicate Restarting(d: Durable) {
    && StateOk(d.view) && d.view.token.Some? && d.view.bootSequence >= 1
  }

  /** What pass `pass` leaves behind for one task. */
  ghost predicate Settled(pass: nat, d: Durable, id: TaskId) {
    id in d.view.tasks &&
    var t := d.view.tasks[id];
    if pass == 1 then !t.Active()
    else if pass == 2 then !t.Active() && (t.decision == Some(false) ==> t.events != [])
    else BootedTask(d, id, t)
  }

  /** One step of a pass: the task at hand is settled, every other task is as before. */
  ghost predicate SettledOnly(pass: nat, d: Durable, after: Durable, id: TaskId) {
    && id in d.view.tasks
    && Restarting(after)
    && after.view.tasks.Keys == d.view.tasks.Keys
    && (forall x :: x in d.view.tasks && x != id ==> after.view.tasks[x] == d.view.tasks[x])
    && d.acceptedThisBoot <= after.acceptedThisBoot
    && Settled(pass, after, id)
  }

  // -- the boot records

  lemma BootRecordsLegal(d: Durable, cfg: RobotConfig, now: Time, initialize: bool, nonce: string)
    requires StateOk(d.view) && AssertStartable(d.view, initialize).None?
    ensures var boot := BootRecords(d.view, cfg, now, initialize, nonce);
            && LegalBatch(d, boot) && Restarting(AdvanceAll(d, boot))
            && AdvanceAll(d, boot).view.tasks == d.view.tasks
  {
    var token := if initialize then Incarnation(cfg.robotId, now, nonce) else d.view.token.GetOr(Unprovisioned);
    var start := RobotStarted(d.view.bootSequence + 1, token);
    var provision := RobotProvisioned(token);
    if initialize {
      assert Legal(d, provision) && Legal(Advance(d, provision), start);
      assert Advance(Advance(d, provision), start).view.tasks == d.view.tasks;
      assert BootRecords(d.view, cfg, now, initialize, nonce) == [provision, start];
      StartsRestart(Advance(d, provision), start);
      hide *;
      LegalKeepsState(d, provision);
      LegalKeepsState(Advance(d, provision), start);
      TwoLegal(d, provision, start);
      AdvanceIsApply(d, provision);
      AdvanceIsApply(Advance(d, provision), start);
      NowRestarting(Advance(Advance(d, provision), start));
    } else {
      assert Legal(d, start);
      assert Advance(d, start).view.tasks == d.view.tasks;
      assert BootRecords(d.view, cfg, now, initialize, nonce) == [start];
      StartsRestart(d, start);
      hide *;
      LegalKeepsState(d, start);
      OneLegal(d, start);
      AdvanceIsApply(d, start);
      NowRestarting(Advance(d, start));
    }
  }

  lemma StartsRestart(d: Durable, start: RobotRecord)
    requires Legal(d, start) && start.RobotStarted?
    ensures Advance(d, start).view.token.Some? && Advance(d, start).view.bootSequence >= 1
  {
  }

  lemma AdvanceIsApply(d: Durable, r: RobotRecord)
    ensures Advance(d, r).view == Apply(d.view, r)
  {
  }

  lemma NowRestarting(d: Durable)
    requires StateOk(d.view) && d.view.token.Some? && d.view.bootSequence >= 1
    ensures Restarting(d)
  {
  }

  // -- pass 1: interrupted work is reported, never resumed

  lemma RecoveryLegal(d: Durable, cfg: RobotConfig, id: TaskId, now: Time)
    requires Restarting(d) && id in d.view.tasks && d.view.tasks[id].Active()
    ensures Legal(d, TaskEventPersisted(RecoveryEvent(d.view, cfg, id, now)))
    ensures IsTerminalKind(RecoveryEvent(d.view, cfg, id, now).kind)
  {
    hide EventsOk, CountsOk;
    var t, e := d.view.tasks[id], RecoveryEvent(d.view, cfg, id, now);
    NextSequencePositive(t.events, d.view.bootSequence);
    assert TaskOk(d.view.token, d.view.bootSequence, id, t);
    assert t.executionCompleted ==> t.outcome == Some(OutcomeSucceeded) || t.outcome == Some(OutcomeFailed) by {
      if t.executionCompleted { match t.outcome.value { case OutcomeSucceeded => case OutcomeFailed => } }
    }
  }

  lemma EventSettles(d: Durable, e: TaskEvent, pass: nat)
    requires Restarting(d) && e.eventSequence >= 1 && LegalEvent(d, e) && IsTerminalKind(e.kind) && 1 <= pass <= 2
    ensures SettledOnly(pass, d, Advance(d, TaskEventPersisted(e)), e.taskId)
  {
    var after := Advance(d, TaskEventPersisted(e));
    EventKeepsState(d, e);
    AdvanceIsApply(d, TaskEventPersisted(e));
    assert e.taskId in d.view.tasks by { hide StateOk; }
    EventReplacesTask(d, e);
    hide StateOk, LegalEvent, Advance, Apply, EndsTask;
    EndedSettles(d, after, e.taskId, pass);
  }

  /** The terminal event that may come next in the task's history. */
  ghost predicate NextTerminal(d: Durable, id: TaskId, e: TaskEvent) {
    Restarting(d) && LegalEvent(d, e) && Legal(d, TaskEventPersisted(e)) && e.taskId == id && e.eventSequence >= 1 && IsTerminalKind(e.kind)
  }

  lemma TerminalSettles(d: Durable, id: TaskId, e: TaskEvent, pass: nat)
    requires NextTerminal(d, id, e) && 1 <= pass <= 2
    ensures LegalBatch(d, [TaskEventPersisted(e)]) && SettledOnly(pass, d, AdvanceAll(d, [TaskEventPersisted(e)]), id)
  {
    hide Restarting, LegalEvent, Legal, SettledOnly, Advance;
    EventSettles(d, e, pass);
    OneLegal(d, TaskEventPersisted(e));
  }

  /** This task ended with an event; the others, the identity and the boot are as before. */
  ghost predicate EndsTask(d: Durable, after: Durable, id: TaskId) {
    && id in d.view.tasks && after.view.tasks.Keys == d.view.tasks.Keys
    && (forall x :: x in d.view.tasks && x != id ==> after.view.tasks[x] == d.view.tasks[x])
    && !after.view.tasks[id].Active() && after.view.tasks[id].events != []
    && after.acceptedThisBoot == d.acceptedThisBoot
    && after.view.token == d.view.token && after.view.bootSequence == d.view.bootSequence
  }

  lemma EndedSettles(d: Durable, after: Durable, id: TaskId, pass: nat)
    requires EndsTask(d, after, id) && Restarting(d) && StateOk(after.view) && 1 <= pass <= 2
    ensures SettledOnly(pass, d, after, id)
  {
    hide StateOk;
  }

  lemma EventReplacesTask(d: Durable, e: TaskEvent)
    requires e.taskId in d.view.tasks && e.eventSequence >= 1 && IsTerminalKind(e.kind)
    ensures EndsTask(d, Advance(d, TaskEventPersisted(e)), e.taskId)
  {
  }

  /** A task that needs nothing in this pass gets nothing. */
  lemma NothingToSettle(d: Durable, id: TaskId, pass: nat)
    requires Restarting(d) && Settled(pass, d, id)
    ensures LegalBatch(d, []) && SettledOnly(pass, d, AdvanceAll(d, []), id)
  {
    hide StateOk, BootedTask;
  }

  lemma PassOneStep(d: Durable, cfg: RobotConfig, behavior: Behavior, id: TaskId, now: Time)
    requires Restarting(d) && id in d.view.tasks
    ensures var batch := PassRecords(1, d.view, cfg, behavior, id, now);
            LegalBatch(d, batch) && SettledOnly(1, d, AdvanceAll(d, batch), id)
  {
    hide Restarting, SettledOnly, LegalBatch, AdvanceAll, NextTerminal, RecoveryEvent;
    if d.view.tasks[id].Active() {
      RecoveryIsNext(d, cfg, id, now);
      TerminalSettles(d, id, RecoveryEvent(d.view, cfg, id, now), 1);
    } else {
      NothingToSettle(d, id, 1);
    }
  }

  lemma RecoveryIsNext(d: Durable, cfg: RobotConfig, id: TaskId, now: Time)
    requires Restarting(d) && id in d.view.tasks && d.view.tasks[id].Active()
    ensures NextTerminal(d, id, RecoveryEvent(d.view, cfg, id, now))
  {
    RecoveryLegal(d, cfg, id, now);
    NextSequencePositive(d.view.tasks[id].events, d.view.bootSequence);
    hide Restarting, LegalEvent;
  }

  // -- pass 2: a rejection decided before the restart gets its event

  lemma PassTwoStep(d: Durable, cfg: RobotConfig, behavior: Behavior, id: TaskId, now: Time)
    requires Restarting(d) && id in d.view.tasks && Settled(1, d, id)
    ensures var batch := PassRecords(2, d.view, cfg, behavior, id, now);
            LegalBatch(d, batch) && SettledOnly(2, d, AdvanceAll(d, batch), id)
  {
    hide Restarting, SettledOnly, LegalBatch, AdvanceAll, NextTerminal, Event;
    var t := d.view.tasks[id];
    if t.decision == Some(false) && t.events == [] {
      RejectionIsNext(d, cfg, id, now);
      TerminalSettles(d, id, Event(d.view, cfg, id, EventKind.Rejected, t.reason, None, 1, now), 2);
    } else {
      NothingToSettle(d, id, 2);
    }
  }

  lemma RejectionIsNext(d: Durable, cfg: RobotConfig, id: TaskId, now: Time)
    requires Restarting(d) && id in d.view.tasks && d.view.tasks[id].decision == Some(false) && d.view.tasks[id].events == []
    ensures NextTerminal(d, id, Event(d.view, cfg, id, EventKind.Rejected, d.view.tasks[id].reason, None, 1, now))
  {
    hide TaskOk, CountsOk, ProtectionOk;
  }

  // -- pass 3: a request that arrived without a decision is decided now

  lemma DecidedSettles(d: Durable, after: Durable, id: TaskId)
    requires Restarting(d) && DecidedOnly(d, after, id) && StateOk(after.view)
    ensures SettledOnly(3, d, after, id)
  {
    hide StateOk, BootedTask;
  }

  lemma DecisionSettles(d: Durable, cfg: RobotConfig, behavior: Behavior, id: TaskId, now: Time)
    requires Restarting(d) && id in d.view.tasks && d.view.tasks[id].decision.None?
    ensures var batch := DecideNewTask(d.view, cfg, behavior, d.view.tasks[id].request, now);
            LegalBatch(d, batch) && SettledOnly(3, d, AdvanceAll(d, batch), id)
  {
    hide LegalBatch, AdvanceAll, DecideNewTask, StateOk, DecidedOnly, SettledOnly;
    var batch := DecideNewTask(d.view, cfg, behavior, d.view.tasks[id].request, now);
    DecisionLegal(d, cfg, behavior, id, now);
    LegalBatchKeepsState(d, batch);
    DecidedSettles(d, AdvanceAll(d, batch), id);
  }

  lemma UndecidedTaskSettles(d: Durable, cfg: RobotConfig, behavior: Behavior, id: TaskId, now: Time)
    requires Restarting(d) && id in d.view.tasks && d.view.tasks[id].decision.None?
    ensures var batch := PassRecords(3, d.view, cfg, behavior, id, now);
            LegalBatch(d, batch) && SettledOnly(3, d, AdvanceAll(d, batch), id)
  {
    hide Restarting, LegalBatch, AdvanceAll, DecideNewTask, SettledOnly;
    DecisionSettles(d, cfg, behavior, id, now);
  }

  lemma PassThreeStep(d: Durable, cfg: RobotConfig, behavior: Behavior, id: TaskId, now: Time)
    requires Restarting(d) && id in d.view.tasks && Settled(2, d, id)
    ensures var batch := PassRecords(3, d.view, cfg, behavior, id, now);
            LegalBatch(d, batch) && SettledOnly(3, d, AdvanceAll(d, batch), id)
  {
    if d.view.tasks[id].decision.None? {
      UndecidedTaskSettles(d, cfg, behavior, id, now);
    } else {
      DecidedTaskSettled(d, id);
    }
  }

  lemma DecidedTaskSettled(d: Durable, id: TaskId)
    requires Restarting(d) && Settled(2, d, id) && d.view.tasks[id].decision.Some?
    ensures Settled(3, d, id)
  {
    var t := d.view.tasks[id];
    assert TaskOk(d.view.token, d.view.bootSequence, id, t);
    assert t.terminal == TerminalOf(t.events);
    if t.decision.value { assert t.terminal.Some?; }
  }

  // -- whole passes

  /** After a pass every listed task is settled and the rest are untouched. */
  ghost predicate PassDone(pass: nat, d: Durable, after: Durable, ids: seq<TaskId>) {
    && Restarting(after)
    && after.view.tasks.Keys == d.view.tasks.Keys
    && (forall x :: x in d.view.tasks && x !in ids ==> after.view.tasks[x] == d.view.tasks[x])
    && d.acceptedThisBoot <= after.acceptedThisBoot
    && (forall x :: x in ids ==> Settled(pass, after, x))
  }

  predicate Distinct(ids: seq<TaskId>) {
    forall i, j :: 0 <= i < j < |ids| ==> ids[i] != ids[j]
  }

  lemma PassStep(pass: nat, d: Durable, cfg: RobotConfig, behavior: Behavior, id: TaskId, now: Time)
    requires 1 <= pass <= 3 && Restarting(d) && id in d.view.tasks
    requires pass > 1 ==> Settled(pass - 1, d, id)
    ensures var batch := PassRecords(pass, d.view, cfg, behavior, id, now);
            LegalBatch(d, batch) && SettledOnly(pass, d, AdvanceAll(d, batch), id)
  {
    hide *;
    if pass == 1 { PassOneStep(d, cfg, behavior, id, now); }
    else if pass == 2 { PassTwoStep(d, cfg, behavior, id, now); }
    else { PassThreeStep(d, cfg, behavior, id, now); }
  }

  lemma PassCons(pass: nat, d: Durable, d1: Durable, after: Durable, id: TaskId, rest: seq<TaskId>)
    requires 1 <= pass <= 3
    requires SettledOnly(pass, d, d1, id) && PassDone(pass, d1, after, rest) && id !in rest
    ensures PassDone(pass, d, after, [id] + rest)
  {
    hide StateOk;
    assert after.view.tasks[id] == d1.view.tasks[id];
    assert Settled(pass, after, id);
  }

  lemma StillSettled(pass: nat, d: Durable, d1: Durable, id: TaskId, rest: seq<TaskId>)
    requires 2 <= pass <= 3 && SettledOnly(pass, d, d1, id) && id !in rest
    requires forall x :: x in rest ==> x in d.view.tasks && Settled(pass - 1, d, x)
    ensures forall x :: x in rest ==> x in d1.view.tasks && Settled(pass - 1, d1, x)
  {
    hide StateOk, BootedTask;
  }

  lemma {:induction false} PassLegal(pass: nat, d: Durable, cfg: RobotConfig, behavior: Behavior, ids: seq<TaskId>, now: Time)
    requires 1 <= pass <= 3 && Restarting(d) && Distinct(ids)
    requires forall x :: x in ids ==> x in d.view.tasks
    requires pass > 1 ==> forall x :: x in ids ==> Settled(pass - 1, d, x)
    ensures var batch := Pass(pass, d.view, cfg, behavior, ids, now);
            LegalBatch(d, batch) && PassDone(pass, d, AdvanceAll(d, batch), ids)
    decreases |ids|
  {
    hide LegalBatch, AdvanceAll, PassRecords, StateOk, Settled, SettledOnly;
    if ids == [] {
      EmptyBatch(d);
    } else {
      var id, rest := ids[0], ids[1..];
      assert id in ids && id !in rest && Distinct(rest);
      assert forall x :: x in rest ==> x in ids;
      var first := PassRecords(pass, d.view, cfg, behavior, id, now);
      PassStep(pass, d, cfg, behavior, id, now);
      var d1 := AdvanceAll(d, first);
      AdvanceView(d, first);
      SettledKeys(pass, d, d1, id);
      if pass > 1 { StillSettled(pass, d, d1, id, rest); }
      PassLegal(pass, d1, cfg, behavior, rest, now);
      var second := Pass(pass, d1.view, cfg, behavior, rest, now);
      LegalConcat(d, first, second);
      PassCons(pass, d, d1, AdvanceAll(d1, second), id, rest);
      assert ids == [id] + rest;
    }
  }

  lemma SettledKeys(pass: nat, d: Durable, d1: Durable, id: TaskId)
    requires SettledOnly(pass, d, d1, id)
    ensures Restarting(d1) && d1.view.tasks.Keys == d.view.tasks.Keys
  {
  }

  lemma EmptyBatch(d: Durable)
    ensures LegalBatch(d, []) && AdvanceAll(d, []) == d
  {
  }

  /** The whole boot batch: legal record by record, and a fit process at its end. */
  lemma StartLegal(d: Durable, cfg: RobotConfig, behavior: Behavior, now: Time, initialize: bool, nonce: string)
    requires StateOk(d.view)
    requires StartBatch(d.view, cfg, behavior, now, initialize, nonce).Ok?
    ensures var batch := StartBatch(d.view, cfg, behavior, now, initialize, nonce).value;
            LegalBatch(d, batch) && Booted(AdvanceAll(d, batch))
  {
    hide *;
    var boot := BootRecords(d.view, cfg, now, initialize, nonce);
    var d0 := AdvanceAll(d, boot);
    var ids := Ascending(d0.view.tasks.Keys);
    var p1 := Pass(1, d0.view, cfg, behavior, ids, now);
    var d1 := AdvanceAll(d0, p1);
    var p2 := Pass(2, d1.view, cfg, behavior, ids, now);
    var d2 := AdvanceAll(d1, p2);
    var p3 := Pass(3, d2.view, cfg, behavior, ids, now);
    StartBatchParts(d, cfg, behavior, now, initialize, nonce);
    AscendingDistinct(d0.view.tasks.Keys);
    BootRecordsLegal(d, cfg, now, initialize, nonce);
    PassesLegal(d0, cfg, behavior, ids, now);
    LegalConcat(d, boot, p1 + p2 + p3);
    assert boot + (p1 + p2 + p3) == boot + p1 + p2 + p3;
  }

  /** The three passes over every task, one after the other. */
  lemma {:induction false} PassesLegal(d0: Durable, cfg: RobotConfig, behavior: Behavior, ids: seq<TaskId>, now: Time)
    requires Restarting(d0) && Distinct(ids) && forall x :: x in ids <==> x in d0.view.tasks
    ensures var p1 := Pass(1, d0.view, cfg, behavior, ids, now);
            var d1 := AdvanceAll(d0, p1);
            var p2 := Pass(2, d1.view, cfg, behavior, ids, now);
            var d2 := AdvanceAll(d1, p2);
            var p3 := Pass(3, d2.view, cfg, behavior, ids, now);
            LegalBatch(d0, p1 + p2 + p3) && Booted(AdvanceAll(d0, p1 + p2 + p3))
  {
    var p1 := Pass(1, d0.view, cfg, behavior, ids, now);
    var d1 := AdvanceAll(d0, p1);
    var p2 := Pass(2, d1.view, cfg, behavior, ids, now);
    var d2 := AdvanceAll(d1, p2);
    var p3 := Pass(3, d2.view, cfg, behavior, ids, now);
    hide LegalBatch, AdvanceAll, Pass, StateOk, Settled, Restarting, Booted;
    PassLegal(1, d0, cfg, behavior, ids, now);
    PassLegal(2, d1, cfg, behavior, ids, now);
    PassLegal(3, d2, cfg, behavior, ids, now);
    LegalConcat(d0, p1, p2);
    LegalConcat(d0, p1 + p2, p3);
    PassesBoot(d2, AdvanceAll(d2, p3), ids);
  }

  lemma AscendingDistinct(s: set<TaskId>)
    ensures Distinct(Ascending(s)) && forall x :: x in Ascending(s) <==> x in s
  {
  }

  /** A boot batch, taken apart. */
  lemma {:induction false} StartBatchParts(d: Durable, cfg: RobotConfig, behavior: Behavior, now: Time, initialize: bool, nonce: string)
    requires StartBatch(d.view, cfg, behavior, now, initialize, nonce).Ok?
    ensures var boot := BootRecords(d.view, cfg, now, initialize, nonce);
            var d0 := AdvanceAll(d, boot);
            var ids := Ascending(d0.view.tasks.Keys);
            var p1 := Pass(1, d0.view, cfg, behavior, ids, now);
            var d1 := AdvanceAll(d0, p1);
            var p2 := Pass(2, d1.view, cfg, behavior, ids, now);
            var d2 := AdvanceAll(d1, p2);
            && AssertStartable(d.view, initialize).None?
            && StartBatch(d.view, cfg, behavior, now, initialize, nonce).value == boot + p1 + p2 + Pass(3, d2.view, cfg, behavior, ids, now)
  {
    hide Pass, BootRecords, AdvanceAll, Ascending;
    var boot := BootRecords(d.view, cfg, now, initialize, nonce);
    var d0 := AdvanceAll(d, boot);
    var ids := Ascending(d0.view.tasks.Keys);
    AdvanceView(d, boot);
    var p1 := Pass(1, d0.view, cfg, behavior, ids, now);
    var d1 := AdvanceAll(d0, p1);
    AdvanceView(d0, p1);
    AdvanceView(d1, Pass(2, d1.view, cfg, behavior, ids, now));
  }

  lemma PassesBoot(d: Durable, after: Durable, ids: seq<TaskId>)
    requires PassDone(3, d, after, ids)
    requires forall x :: x in d.view.tasks ==> x in ids
    ensures Booted(after)
  {
    hide StateOk, BootedTask;
    forall x | x in after.view.tasks ensures BootedTask(after, x, after.view.tasks[x]) {
      assert x in ids && Settled(3, after, x);
    }
  }
}
