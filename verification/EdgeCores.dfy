/** The live Edge view, updated record by record, and the cores that share one journal. */
module EdgeCores {
  import opened Common
  import opened TaskContracts
  import opened EdgeViews
  import opened EdgeDecisions
  import opened EdgeLegality
  import opened EdgeRuns

  /** The one task a record is about, if it is about one. */
  function Subject(r: EdgeRecord): Option<TaskId> {
    match r
    case TaskCreateRejected(id) => Some(id)
    case TaskPublishAttempted(id, _) => Some(id)
    case TaskPublishConfirmed(id, _) => Some(id)
    case TaskEventReceived(e, _, _, _, _, _, _) => Some(e.taskId)
    case TaskEventRejected(id) => id
    case RobotRequestRejected(id) => Some(id)
    case TaskReconciliationFlagged(id, _) => Some(id)
    case ConflictingTerminal(id) => Some(id)
    case _ => None
  }

  /** Replay fails on a record about a task it must know and does not. */
  predicate Applicable(s: EdgeState, r: EdgeRecord) {
    match r
    case TaskPublishAttempted(id, _) => id in s.tasks
    case TaskPublishConfirmed(id, _) => id in s.tasks
    case TaskEventReceived(e, _, _, _, _, _, _) => e.taskId in s.tasks
    case TaskReconciliationFlagged(id, _) => id in s.tasks
    case ConflictingTerminal(id) => id in s.tasks
    case _ => true
  }

  predicate Sweeps(r: EdgeRecord) { r.EdgeStarted? || (r.TransportSession? && r.lost) || r.SessionRegression? }

  lemma OtherTasksUntouched(id: TaskId, t: TaskView, r: EdgeRecord, n: nat, at: Time)
    requires Subject(r) != Some(id) && !Sweeps(r)
    ensures TaskStep(id, t, r, n, at) == t
  {
    hide EventStep, NoteEvidence;
  }

  lemma OneTaskTouched(s: EdgeState, st: Stamped, id: TaskId)
    requires Subject(st.record) == Some(id) && id in s.tasks && !st.record.TaskCreated?
    ensures TasksAfter(s, st) == s.tasks[id := TaskStep(id, s.tasks[id], st.record, s.applied + 1, st.at)]
  {
    hide TaskStep;
    forall x | x in s.tasks && x != id ensures TaskStep(x, s.tasks[x], st.record, s.applied + 1, st.at) == s.tasks[x] {
      OtherTasksUntouched(x, s.tasks[x], st.record, s.applied + 1, st.at);
    }
  }

  lemma NoTaskTouched(s: EdgeState, st: Stamped)
    requires !Sweeps(st.record) && (Subject(st.record).None? || Subject(st.record).value !in s.tasks)
    ensures TasksAfter(s, st)
         == if st.record.TaskCreated? then s.tasks[st.record.request.taskId := NewTaskView(st.record.request, st.at)] else s.tasks
  {
    hide TaskStep;
    forall x | x in s.tasks ensures TaskStep(x, s.tasks[x], st.record, s.applied + 1, st.at) == s.tasks[x] {
      OtherTasksUntouched(x, s.tasks[x], st.record, s.applied + 1, st.at);
    }
  }

  lemma OtherDevicesUntouched(x: RobotId, d: DeviceView, r: EdgeRecord, at: Time)
    requires NamedDevice(r) != Some(x) && !r.EdgeStarted? && !(r.TransportSession? && r.lost)
    ensures DeviceStep(x, d, r, at) == d
  {
  }

  /** The device a record names is created if missing, then stepped; all others stay. */
  lemma OneDeviceTouched(s: EdgeState, st: Stamped)
    requires !st.record.EdgeStarted? && !(st.record.TransportSession? && st.record.lost)
    ensures DevicesAfter(s, st)
         == if NamedDevice(st.record).None? then s.devices
            else var x := NamedDevice(st.record).value;
                 s.devices[x := DeviceStep(x, if x in s.devices then s.devices[x] else NEW_DEVICE, st.record, st.at)]
  {
    hide DeviceStep;
    var known := DevicesWith(s.devices, st.record);
    forall x | x in known && NamedDevice(st.record) != Some(x) ensures DeviceStep(x, known[x], st.record, st.at) == known[x] {
      OtherDevicesUntouched(x, known[x], st.record, st.at);
    }
  }

  class EdgeView {
    var tasks: map<TaskId, TaskView>
    var order: seq<TaskId>
    var devices: map<RobotId, DeviceView>
    var startedAt: Option<Time>
    var applied: nat

    function State(): EdgeState
      reads this
    {
      EdgeState(tasks, order, devices, startedAt, applied)
    }

    constructor (robots: set<RobotId>)
      ensures State() == InitialEdge(robots)
    {
      tasks, order, startedAt, applied := map[], [], None, 0;
      devices := map r | r in robots :: NEW_DEVICE;
    }

    /** Every device: its status sequence and connectivity are unknown again. */
    method ForgetSessions(at: Time)
      modifies this`devices
      ensures devices == map x | x in old(devices) :: ForgetSession(old(devices)[x], at)
    {
      var left := devices.Keys;
      while left != {}
        invariant left <= devices.Keys == old(devices).Keys
        invariant forall x :: x in devices ==> devices[x] == if x in left then old(devices)[x] else ForgetSession(old(devices)[x], at)
        decreases |left|
      {
        var x :| x in left;
        devices := devices[x := devices[x].(connectivity := ConnUnknown, since := Some(at), lastStatusSequence := None)];
        left := left - {x};
      }
    }

    method AskTaskAgain(t: TaskView, reason: FlagReason) returns (asked: TaskView)
      ensures asked == AskAgain(t, reason, applied + 1)
    {
      asked := t;
      if !t.IsTerminal() {
        asked := t.(reasons := t.reasons + {reason}, clocks := t.clocks.(flagRecord := t.clocks.flagRecord[reason := applied + 1]));
      }
    }

    /** Every open task is asked about again, as of this record. */
    method AskOpenTasksAgain(reason: FlagReason)
      modifies this`tasks
      ensures tasks == map id | id in old(tasks) :: AskAgain(old(tasks)[id], reason, applied + 1)
    {
      hide AskAgain;
      var left := tasks.Keys;
      while left != {}
        invariant left <= tasks.Keys == old(tasks).Keys
        invariant forall x :: x in tasks ==> tasks[x] == if x in left then old(tasks)[x] else AskAgain(old(tasks)[x], reason, applied + 1)
        decreases |left|
      {
        var id :| id in left;
        var asked := AskTaskAgain(tasks[id], reason);
        tasks := tasks[id := asked];
        left := left - {id};
      }
    }

    /** A robot lost continuity: the device remembers it, and so does each of its open tasks. */
    method RegressTasks(robot: RobotId, at: Time)
      modifies this`tasks
      ensures tasks == map id | id in old(tasks) :: TaskStep(id, old(tasks)[id], SessionRegression(robot), applied + 1, at)
    {
      var left := tasks.Keys;
      while left != {}
        invariant left <= tasks.Keys == old(tasks).Keys
        invariant forall x :: x in tasks ==>
                    tasks[x] == if x in left then old(tasks)[x] else TaskStep(x, old(tasks)[x], SessionRegression(robot), applied + 1, at)
        decreases |left|
      {
        var id :| id in left;
        var t := tasks[id];
        if t.request.targetRobot == robot && !t.IsTerminal() {
          tasks := tasks[id := t.(reasons := t.reasons + {SessionRegressionReason})];
        }
        left := left - {id};
      }
    }

    /** The evidence of one received event: branch by disposition, trusted progress last. */
    method ApplyEventRecord(r: EdgeRecord, at: Time)
      requires r.TaskEventReceived? && r.event.taskId in tasks
      modifies this`tasks
      ensures tasks == old(tasks)[r.event.taskId := EventStep(old(tasks)[r.event.taskId], r, applied + 1, at)]
    {
      var e, d := r.event, r.disposition;
      var t := tasks[e.taskId];
      var v, reasons := t.evidence, t.reasons - PRESENCE;
      var clocks := NoteEvidence(t.clocks, applied + 1, at).(flaggedSinceEvent := {});
      if d.ConflictingReplay? {
        reasons := reasons + {ConflictingReplayReason};
        v := v.(conflicting := v.conflicting + {e});
        if e.IsTerminal() { v := v.(terminals := v.terminals + [RefOf(e)]); }
        if r.conflict {
          v := v.(effective := Some(Conflict));
          reasons := reasons + {ConflictingTerminalReason};
        }
      } else if !d.Duplicate? {
        v := v.(seen := v.seen[e.OrderKey() := e]);
        if e.kind.Accepted? && (d.Applied? || d.LateEvidence?) { v := v.(acceptanceObserved := true); }
        if !d.Applied? {
          if e.IsTerminal() { v := v.(terminals := v.terminals + [RefOf(e)]); }
          if !d.LateEvidence? && r.flagReason.Some? { reasons := reasons + {r.flagReason.value}; }
          if r.conflict {
            v := v.(effective := Some(Conflict));
            reasons := reasons + {ConflictingTerminalReason};
          }
        } else {
          clocks := clocks.(lastProgressAt := Some(at), lastProbeAt := None, flaggedSinceProgress := {});
          reasons := reasons - PROGRESS;
          v := v.(appliedMax := Some(e.OrderKey()), state := r.stateAfter);
          if e.kind.AssistanceRequired? { v := v.(blocking := Some(e)); }
          else if !v.state.BlockedAwaitingHuman? { v := v.(blocking := None); }
          if e.IsTerminal() {
            v := v.(terminals := v.terminals + [RefOf(e)]);
            if v.first.None? { v := v.(first := Some(RefOf(e)), effective := Some(Reported(e.kind))); }
            if r.conflict {
              v := v.(effective := Some(Conflict));
              reasons := reasons + {ConflictingTerminalReason};
            }
          }
        }
      }
      assert v == EvidenceStep(t.evidence, e, d, r.stateAfter, r.conflict);
      assert reasons == ReasonsStep(t.reasons, e, d, r.conflict, r.flagReason);
      assert clocks == ClocksStep(t.clocks, d, applied + 1, at);
      tasks := tasks[e.taskId := t.(evidence := v, reasons := reasons, clocks := clocks)];
    }

    /** The records about one known task, other than evidence. */
    method ApplyTaskRecord(r: EdgeRecord, at: Time)
      requires Subject(r).Some? && Subject(r).value in tasks && !r.TaskEventReceived?
      modifies this`tasks
      ensures tasks == old(tasks)[Subject(r).value := TaskStep(Subject(r).value, old(tasks)[Subject(r).value], r, applied + 1, at)]
    {
      var id := Subject(r).value;
      var t := tasks[id];
      match r {
        case TaskPublishAttempted(_, late) =>
          t := t.(publishing := t.publishing.(attempts := t.publishing.attempts + 1, lastAttemptAt := Some(at)));
          if late { t := t.(publishing := t.publishing.(postExpiryAttempts := t.publishing.postExpiryAttempts + 1)); }
        case TaskPublishConfirmed(_, late) =>
          t := t.(publishing := t.publishing.(confirmations := t.publishing.confirmations + 1, lastConfirmedAt := Some(at)));
          if late { t := t.(publishing := t.publishing.(postExpiryPublishes := t.publishing.postExpiryPublishes + 1)); }
        case RobotRequestRejected(_) =>
          t := t.(exceptions := t.exceptions + 1, clocks := NoteEvidence(t.clocks, applied + 1, at));
        case TaskReconciliationFlagged(_, reason) =>
          t := t.(reasons := t.reasons + {reason});
          var c := t.clocks.(flaggedSinceEvent := t.clocks.flaggedSinceEvent + {reason},
                             flaggedSinceProgress := t.clocks.flaggedSinceProgress + {reason},
                             flagRecord := t.clocks.flagRecord[reason := applied + 1]);
          if reason in PROGRESS { c := c.(lastProbeAt := Some(at)); }
          t := t.(clocks := c);
          if reason.ExpiredUnconfirmed? { t := t.(expiredUnconfirmed := true); }
        case ConflictingTerminal(_) =>
          t := t.(evidence := t.evidence.(effective := Some(Conflict)));
        case TaskCreateRejected(_) =>
          t := t.(exceptions := t.exceptions + 1);
        case TaskEventRejected(_) =>
          t := t.(exceptions := t.exceptions + 1);
      }
      hide NoteEvidence;
      assert t == TaskStep(id, tasks[id], r, applied + 1, at);
      tasks := tasks[id := t];
    }

    /** The records about one device, created on its first mention. */
    method ApplyDeviceRecord(r: EdgeRecord, at: Time)
      requires NamedDevice(r).Some?
      modifies this`devices
      ensures var x := NamedDevice(r).value;
              devices == old(devices)[x := DeviceStep(x, if x in old(devices) then old(devices)[x] else NEW_DEVICE, r, at)]
    {
      var x := NamedDevice(r).value;
      var d := if x in devices then devices[x] else NEW_DEVICE;
      match r {
        case DeviceStatusChanged(_, m) =>
          d := Adopt(d, m, at);
          if !d.connectivity.Online? { d := d.(connectivity := Online, since := Some(at)); }
        case DeviceHeartbeat(_, n) => d := d.(lastStatusSequence := Some(n), lastReceivedAt := Some(at));
        case DeviceLivenessChanged(_, to, m) =>
          d := d.(connectivity := to, since := Some(at));
          if to.Online? && m.Some? { d := Adopt(d, m.value, at); }
        case SessionRegression(_) => d := d.(sessionRegression := true);
        case DeviceStatusRejected(_, _) => d := d.(lastRegressionRejectionAt := Some(at));
      }
      devices := devices[x := d];
    }

    /** One record, applied to the live fields: exactly the record's effect on the view. */
    method ApplyRecord(st: Stamped)
      requires Applicable(State(), st.record)
      modifies this
      ensures State() == Apply(old(State()), st)
    {
      ghost var before := State();
      var r := st.record;
      if Sweeps(r) {
        ApplySweep(st);
      } else if Subject(r).Some? && Subject(r).value in tasks {
        OneTaskTouched(before, st, Subject(r).value);
        OneDeviceTouched(before, st);
        if r.TaskEventReceived? { ApplyEventRecord(r, st.at); } else { ApplyTaskRecord(r, st.at); }
      } else {
        NoTaskTouched(before, st);
        OneDeviceTouched(before, st);
        if r.TaskCreated? {
          if r.request.taskId !in tasks { order := order + [r.request.taskId]; }
          tasks := tasks[r.request.taskId := NewTaskView(r.request, st.at)];
        } else if NamedDevice(r).Some? {
          ApplyDeviceRecord(r, st.at);
        }
      }
      applied := applied + 1;
      hide TasksAfter, DevicesAfter, TaskStep, EventStep, DeviceStep;
    }

    /** The records that touch every task or every device. */
    method ApplySweep(st: Stamped)
      requires Sweeps(st.record)
      modifies this`tasks, this`devices, this`startedAt
      ensures tasks == TasksAfter(old(State()), st) && devices == DevicesAfter(old(State()), st)
      ensures startedAt == if st.record.EdgeStarted? then Some(st.at) else old(startedAt)
    {
      match st.record {
        case EdgeStarted =>
          startedAt := Some(st.at);
          ForgetSessions(st.at);
          AskOpenTasksAgain(EdgeRestart);
        case TransportSession(_) =>
          ForgetSessions(st.at);
          AskOpenTasksAgain(TransportSessionLost);
        case SessionRegression(robot) =>
          OneDeviceTouched(State(), st);
          ApplyDeviceRecord(st.record, st.at);
          RegressTasks(robot, st.at);
      }
      hide AskAgain, ForgetSession;
    }
  }

  /** The journal file, as every process sees it inside the lock. */
  class SharedJournal {
    var lines: seq<Stamped>

    constructor ()
      ensures lines == []
    {
      lines := [];
    }
  }

  /** Long enough, but its line at the absorbed count is another one. */
  predicate Diverges(journal: seq<Stamped>, absorbed: seq<Stamped>) {
    0 < |absorbed| <= |journal| && journal[|absorbed| - 1] != absorbed[|absorbed| - 1]
  }

  datatype SyncError = JournalShrank | JournalDiverged | UnknownTask

  lemma LegalIsApplicable(cfg: EdgeConfig, journal: seq<Stamped>, i: nat)
    requires LegalJournal(cfg, journal) && i < |journal|
    ensures Applicable(ViewOf(cfg, journal[..i]), journal[i].record)
  {
    StepAt(cfg, journal, i);
    hide LegalJournal, ViewOf, TasksOk, GateClosed, HasActiveTask, HasPending, Classify, Received, Apply;
  }

  /** One process: its view, the records it absorbed, and the decisions it takes inside the journal lock. */
  class EdgeCore {
    const cfg: EdgeConfig
    const view: EdgeView
    var last: Option<Stamped>
    ghost var absorbed: seq<Stamped>

    /** The view is the replay of the records absorbed so far. */
    ghost predicate Valid()
      reads this, view
    {
      && view.State() == ViewOf(cfg, absorbed) && view.applied == |absorbed|
      && last == if absorbed == [] then None else Some(absorbed[|absorbed| - 1])
    }

    constructor (cfg: EdgeConfig)
      ensures Valid() && this.cfg == cfg && absorbed == [] && fresh(view)
    {
      this.cfg, last, absorbed := cfg, None, [];
      view := new EdgeView(cfg.robotIds);
    }

    method Absorb(st: Stamped) returns (known: bool)
      requires Valid()
      modifies this`last, this`absorbed, view
      ensures known == Applicable(ViewOf(cfg, old(absorbed)), st.record)
      ensures absorbed == if known then old(absorbed) + [st] else old(absorbed)
      ensures Valid()
    {
      hide ViewOf, Apply, Applicable;
      known := Applicable(view.State(), st.record);
      if known {
        ReplayExtends(cfg, absorbed, st);
        view.ApplyRecord(st);
        last, absorbed := Some(st), absorbed + [st];
      }
    }

    method CatchUp(journal: seq<Stamped>, from: nat) returns (known: bool)
      requires Valid() && |absorbed| == from <= |journal|
      modifies this`last, this`absorbed, view
      ensures old(absorbed) <= journal && LegalJournal(cfg, journal) ==> known && absorbed == journal
      ensures Valid()
    {
      ghost var start := absorbed;
      hide *;
      for i := from to |journal|
        invariant absorbed == start + journal[from..i]
        invariant Valid()
      {
        if start <= journal && LegalJournal(cfg, journal) {
          LegalIsApplicable(cfg, journal, i);
          assert absorbed == journal[..i];
        }
        known := Absorb(journal[i]);
        if !known { return; }
        assert journal[from..i] + [journal[i]] == journal[from..i + 1];
      }
      known := true;
    }

    /** Catch up with the verified journal: refuse a shorter or diverged one, apply only what is new. */
    method Sync(journal: seq<Stamped>) returns (error: Option<SyncError>)
      requires Valid()
      modifies this`last, this`absorbed, view
      ensures |journal| < |old(absorbed)| ==> error == Some(JournalShrank)
      ensures Diverges(journal, old(absorbed)) ==> error == Some(JournalDiverged)
      ensures error == Some(JournalShrank) || error == Some(JournalDiverged) ==> view.State() == old(view.State()) && absorbed == old(absorbed)
      ensures old(absorbed) <= journal && LegalJournal(cfg, journal) ==> error.None? && absorbed == journal
      ensures Valid()
    {
      var from := view.applied;
      if |journal| < from { return Some(JournalShrank); }
      if from > 0 && Some(journal[from - 1]) != last { return Some(JournalDiverged); }
      hide ViewOf, LegalJournal;
      var known := CatchUp(journal, from);
      error := if known then None else Some(UnknownTask);
    }

    /** One batch: synchronised, decided and appended under one lock, then absorbed, unless the process dies among its lines. */
    method AppendVia(file: SharedJournal, step: EdgeStep, persisted: nat)
      requires Valid() && absorbed <= file.lines && LegalJournal(cfg, file.lines)
      modifies file, this`last, this`absorbed, view
      ensures var batch := StepBatch(cfg, ViewOf(cfg, old(file.lines)), step);
              && file.lines == old(file.lines) + Kept(batch, persisted)
              && absorbed == if persisted < |batch| then old(file.lines) else file.lines
      ensures Valid() && LegalJournal(cfg, file.lines)
    {
      hide ViewOf, LegalJournal, StepBatch;
      var error := Sync(file.lines);
      ghost var before := file.lines;
      var batch := StepBatch(cfg, view.State(), step);
      KeptExtendsLegally(cfg, before, step, persisted);
      file.lines := file.lines + Kept(batch, persisted);
      if persisted >= |batch| { error := Sync(file.lines); }
    }
  }

  lemma KeptExtendsLegally(cfg: EdgeConfig, journal: seq<Stamped>, step: EdgeStep, persisted: nat)
    requires LegalJournal(cfg, journal)
    ensures LegalJournal(cfg, journal + Kept(StepBatch(cfg, ViewOf(cfg, journal), step), persisted))
  {
    var s0 := InitialEdge(cfg.robotIds);
    var batch := StepBatch(cfg, ViewOf(cfg, journal), step);
    InitialTasksOk(cfg);
    hide StepBatch, LegalBatch, ApplyAll, TasksOk, InitialEdge;
    LegalBatchKeepsTasks(cfg, s0, journal);
    StepLegal(cfg, ViewOf(cfg, journal), step);
    if persisted < |batch| { LegalPrefix(cfg, ViewOf(cfg, journal), batch, persisted); }
    LegalConcat(cfg, s0, journal, Kept(batch, persisted));
  }

  /** A process stands at, or somewhere behind, the end of the journal. */
  ghost predicate Follows(core: EdgeCore, cfg: EdgeConfig, file: SharedJournal)
    reads core, core.view, file
  {
    core.cfg == cfg && core.Valid() && core.absorbed <= file.lines
  }

  /** Any number of processes, one that just started included, share the journal of one run. */
  ghost predicate Sharing(cfg: EdgeConfig, cores: seq<EdgeCore>, file: SharedJournal, choices: seq<EdgeChoice>)
    reads cores, set c: EdgeCore | c in cores :: c.view, file
  {
    && (forall i, j :: 0 <= i < j < |cores| ==> cores[i] != cores[j] && cores[i].view != cores[j].view)
    && (forall i :: 0 <= i < |cores| ==> Follows(cores[i], cfg, file))
    && file.lines == EdgeRun(cfg, choices)
  }

  /** One process takes its turn: one more step of the run, and after a whole batch it has replayed everything. */
  method Turn(cfg: EdgeConfig, cores: seq<EdgeCore>, i: nat, file: SharedJournal, choice: EdgeChoice, ghost choices: seq<EdgeChoice>)
    requires i < |cores| && Sharing(cfg, cores, file, choices)
    modifies cores[i], cores[i].view, file
    ensures Sharing(cfg, cores, file, choices + [choice])
    ensures choice.persisted >= |StepBatch(cfg, ViewOf(cfg, old(file.lines)), choice.step)| ==> cores[i].absorbed == file.lines
  {
    RunLegal(cfg, choices);
    OneMoreStep(cfg, choices, choice);
    hide ViewOf, LegalJournal, StepBatch, EdgeRun, TasksOk, Kept;
    ghost var before := file.lines;
    cores[i].AppendVia(file, choice.step, choice.persisted);
    assert before <= file.lines;
    forall j | 0 <= j < |cores| ensures Follows(cores[j], cfg, file) {
      if j != i { assert old(Follows(cores[j], cfg, file)) && cores[j].view != cores[i].view; }
    }
  }

  function ChoicesOf(plan: seq<(nat, EdgeChoice)>): seq<EdgeChoice> { seq(|plan|, k requires 0 <= k < |plan| => plan[k].1) }

  /** The processes interleave in any order, each dying among the lines of any of its batches: the journal is one run. */
  method Interleave(cfg: EdgeConfig, cores: seq<EdgeCore>, file: SharedJournal, plan: seq<(nat, EdgeChoice)>, ghost choices: seq<EdgeChoice>)
    requires Sharing(cfg, cores, file, choices) && forall k :: 0 <= k < |plan| ==> plan[k].0 < |cores|
    modifies cores, set c: EdgeCore | c in cores :: c.view, file
    ensures Sharing(cfg, cores, file, choices + ChoicesOf(plan))
  {
    hide Sharing, EdgeRun, ViewOf, StepBatch;
    assert choices + ChoicesOf(plan[..0]) == choices;
    for k := 0 to |plan|
      invariant Sharing(cfg, cores, file, choices + ChoicesOf(plan[..k]))
    {
      Turn(cfg, cores, plan[k].0, file, plan[k].1, choices + ChoicesOf(plan[..k]));
      assert choices + ChoicesOf(plan[..k]) + [plan[k].1] == choices + ChoicesOf(plan[..k + 1]);
    }
    assert plan[..|plan|] == plan;
  }

  lemma OneMoreStep(cfg: EdgeConfig, choices: seq<EdgeChoice>, c: EdgeChoice)
    ensures EdgeRun(cfg, choices + [c])
         == EdgeRun(cfg, choices) + Kept(StepBatch(cfg, ViewOf(cfg, EdgeRun(cfg, choices)), c.step), c.persisted)
  {
    assert (choices + [c])[..|choices|] == choices;
    hide StepBatch, ViewOf;
  }

  lemma ReplayExtends(cfg: EdgeConfig, journal: seq<Stamped>, st: Stamped)
    ensures ViewOf(cfg, journal + [st]) == Apply(ViewOf(cfg, journal), st)
    ensures ViewOf(cfg, journal + [st]).applied == ViewOf(cfg, journal).applied + 1
  {
    hide ApplyAll, TasksAfter, DevicesAfter, InitialEdge;
    ApplyConcat(InitialEdge(cfg.robotIds), journal, [st]);
    ApplyOne(ViewOf(cfg, journal), st);
  }
}
