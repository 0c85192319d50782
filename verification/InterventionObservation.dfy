/** What reconciliation observes: one item per condition and subject, and no closed gate left unseen. */
module InterventionObservation {
  import opened TaskContracts
  import opened EdgeViews
  import opened InterventionDecisions
  import opened InterventionConvergence

  predicate DistinctTasks(ids: seq<TaskId>) { forall i, j :: 0 <= i < j < |ids| ==> ids[i] != ids[j] }

  predicate DistinctRobots(robots: seq<RobotId>) { forall i, j :: 0 <= i < j < |robots| ==> robots[i] != robots[j] }

  predicate AboutTasks(items: seq<Observed>, ids: seq<TaskId>) {
    forall x :: x in items ==> x.subject.TaskSubject? && x.subject.task in ids
  }

  predicate AboutDevices(items: seq<Observed>, robots: seq<RobotId>) {
    forall x :: x in items ==> x.subject.DeviceSubject? && x.subject.device in robots
  }

  lemma JoinSlots(a: seq<Observed>, b: seq<Observed>)
    requires DistinctSlots(a) && DistinctSlots(b)
    requires forall x, y :: x in a && y in b ==> x.subject != y.subject
    ensures DistinctSlots(a + b)
  {
    forall i, j | 0 <= i < j < |a + b| ensures ItemSlot((a + b)[i]) != ItemSlot((a + b)[j]) {
      if i < |a| && j >= |a| { assert a[i] in a && b[j - |a|] in b; }
    }
  }

  lemma {:induction false} TaskItemsDistinct(cfg: InterventionConfig, s: EdgeState, ids: seq<TaskId>)
    requires DistinctTasks(ids)
    ensures DistinctSlots(ObserveTasks(cfg, s, ids)) && AboutTasks(ObserveTasks(cfg, s, ids), ids)
    decreases |ids|
  {
    if ids != [] {
      TaskItemsDistinct(cfg, s, ids[1..]);
      var first := if ids[0] in s.tasks then TaskItems(cfg, ids[0], s.tasks[ids[0]]) else [];
      var rest := ObserveTasks(cfg, s, ids[1..]);
      if ids[0] in s.tasks { OneTaskDistinct(cfg, ids[0], s.tasks[ids[0]]); }
      NoItemsDistinct(ids[0]);
      hide TaskItems, ObserveTasks, DistinctSlots, AboutTasks;
      TasksUnfold(cfg, s, ids);
      JoinTasks(first, rest, ids);
    }
  }

  lemma OneTaskDistinct(cfg: InterventionConfig, id: TaskId, t: TaskView)
    ensures DistinctSlots(TaskItems(cfg, id, t)) && AboutTasks(TaskItems(cfg, id, t), [id])
  {
  }

  lemma NoItemsDistinct(id: TaskId)
    ensures DistinctSlots([]) && AboutTasks([], [id])
  {
  }

  /** The items of one more task. */
  lemma JoinTasks(first: seq<Observed>, rest: seq<Observed>, ids: seq<TaskId>)
    requires ids != [] && DistinctTasks(ids)
    requires DistinctSlots(first) && AboutTasks(first, [ids[0]]) && DistinctSlots(rest) && AboutTasks(rest, ids[1..])
    ensures DistinctSlots(first + rest) && AboutTasks(first + rest, ids)
  {
    hide DistinctSlots;
    forall x, y | x in first && y in rest ensures x.subject != y.subject {
      var i :| 0 <= i < |ids[1..]| && ids[1..][i] == y.subject.task;
      assert ids[0] != ids[i + 1];
    }
    JoinSlots(first, rest);
  }

  lemma TasksUnfold(cfg: InterventionConfig, s: EdgeState, ids: seq<TaskId>)
    requires ids != []
    ensures ObserveTasks(cfg, s, ids)
         == (if ids[0] in s.tasks then TaskItems(cfg, ids[0], s.tasks[ids[0]]) else []) + ObserveTasks(cfg, s, ids[1..])
  {
  }

  lemma {:induction false} DeviceItemsDistinct(s: EdgeState, robots: seq<RobotId>)
    requires DistinctRobots(robots)
    ensures DistinctSlots(ObserveDevices(s, robots)) && AboutDevices(ObserveDevices(s, robots), robots)
    decreases |robots|
  {
    if robots != [] {
      DeviceItemsDistinct(s, robots[1..]);
      var first := if robots[0] in s.devices then DeviceItems(s, robots[0], s.devices[robots[0]]) else [];
      var rest := ObserveDevices(s, robots[1..]);
      assert DistinctSlots(first) && AboutDevices(first, [robots[0]]) by { hide OpenTaskOf; }
      hide DeviceItems, ObserveDevices;
      forall x, y | x in first && y in rest ensures x.subject != y.subject { assert robots[0] !in robots[1..]; }
      JoinSlots(first, rest);
      assert ObserveDevices(s, robots) == first + rest by { DevicesUnfold(s, robots); }
    }
  }

  lemma DevicesUnfold(s: EdgeState, robots: seq<RobotId>)
    requires robots != []
    ensures ObserveDevices(s, robots)
         == (if robots[0] in s.devices then DeviceItems(s, robots[0], s.devices[robots[0]]) else []) + ObserveDevices(s, robots[1..])
  {
  }

  /** One observation holds at most one item per condition and subject. */
  lemma ObservedOnce(cfg: InterventionConfig, s: EdgeState, robots: seq<RobotId>)
    requires DistinctTasks(s.order) && DistinctRobots(robots)
    ensures DistinctSlots(Observe(cfg, s, robots))
  {
    TaskItemsDistinct(cfg, s, s.order);
    DeviceItemsDistinct(s, robots);
    hide ObserveTasks, ObserveDevices;
    JoinSlots(ObserveTasks(cfg, s, s.order), ObserveDevices(s, robots));
  }

  // -- the gate

  /** A conflict condition reported for this robot. */
  predicate ReportsConflict(items: seq<Observed>, robot: RobotId) {
    exists i :: 0 <= i < |items| && items[i].kind.ConflictCase? && items[i].robotId == robot && items[i].severity.Critical?
  }

  lemma ReportsIn(items: seq<Observed>, x: Observed, robot: RobotId)
    requires x in items && x.kind.ConflictCase? && x.robotId == robot && x.severity.Critical?
    ensures ReportsConflict(items, robot)
  {
  }

  lemma {:induction false} TaskReported(cfg: InterventionConfig, s: EdgeState, ids: seq<TaskId>, id: TaskId)
    requires id in ids && id in s.tasks && TaskClosesGate(s.tasks[id])
    ensures exists x :: x in ObserveTasks(cfg, s, ids) && x.kind.ConflictCase? && x.robotId == s.tasks[id].request.targetRobot && x.severity.Critical?
    decreases |ids|
  {
    TasksUnfold(cfg, s, ids);
    if ids[0] == id {
      var t := s.tasks[id];
      if !t.AuthorizationConflict() {
        var r :| r in t.reasons && ClosesGate(r);
        assert r in ConflictReasons(t);
      }
      assert |ConflictItem(id, t)| == 1;
      var x := ConflictItem(id, t)[0];
      assert x in TaskItems(cfg, id, t) by { hide BlockedItem, UnconfirmedItem, ConflictItem; }
    } else {
      hide TaskItems, TaskClosesGate;
      TaskReported(cfg, s, ids[1..], id);
    }
  }

  lemma {:induction false} DeviceReported(s: EdgeState, robots: seq<RobotId>, robot: RobotId)
    requires robot in robots && robot in s.devices && s.devices[robot].sessionRegression
    ensures exists x :: x in ObserveDevices(s, robots) && x.kind.ConflictCase? && x.robotId == robot && x.severity.Critical?
    decreases |robots|
  {
    DevicesUnfold(s, robots);
    if robots[0] == robot {
      var items := DeviceItems(s, robot, s.devices[robot]);
      assert items[|items| - 1].kind.ConflictCase?;
      assert ObserveDevices(s, robots)[|items| - 1] == items[|items| - 1];
      hide OpenTaskOf;
    } else {
      hide DeviceItems;
      DeviceReported(s, robots[1..], robot);
    }
  }

  /** No robot's gate is closed silently: a critical conflict condition about that robot is always observed. */
  lemma ClosedGateIsReported(cfg: InterventionConfig, s: EdgeState, robots: seq<RobotId>, robot: RobotId)
    requires GateClosed(s, robot)
    requires forall id :: id in s.tasks ==> id in s.order
    requires forall x :: x in s.devices ==> x in robots
    ensures ReportsConflict(Observe(cfg, s, robots), robot)
  {
    var items := Observe(cfg, s, robots);
    if robot in s.devices && s.devices[robot].sessionRegression {
      DeviceReported(s, robots, robot);
      var x :| x in ObserveDevices(s, robots) && x.kind.ConflictCase? && x.robotId == robot && x.severity.Critical?;
      assert x in items by { hide ObserveTasks, ObserveDevices; }
      hide Observe;
      ReportsIn(items, x, robot);
    } else {
      var id :| id in s.tasks && s.tasks[id].request.targetRobot == robot && TaskClosesGate(s.tasks[id]);
      TaskReported(cfg, s, s.order, id);
      var x :| x in ObserveTasks(cfg, s, s.order) && x.kind.ConflictCase? && x.robotId == robot && x.severity.Critical?;
      assert x in items by { hide ObserveTasks, ObserveDevices; }
      hide Observe;
      ReportsIn(items, x, robot);
    }
  }
}
