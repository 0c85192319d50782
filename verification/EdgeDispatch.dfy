/** Dispatch discipline: which tasks exist, and when their requests may be published. */
module EdgeDispatch {
  import opened Common
  import opened TaskContracts
  import opened EdgeViews
  import opened EdgeDecisions
  import opened EdgeLegality
  import opened EdgeRuns
  import opened EdgeLatch

  // -- creation

  predicate ActiveFor(s: EdgeState, robot: RobotId, id: TaskId) {
    id in s.tasks && s.tasks[id].request.targetRobot == robot && !s.tasks[id].IsTerminal()
  }

  /** No robot holds two open tasks. */
  ghost predicate OneOpenTask(s: EdgeState) {
    forall robot, a, b :: ActiveFor(s, robot, a) && ActiveFor(s, robot, b) ==> a == b
  }

  lemma ActiveBefore(cfg: EdgeConfig, s: EdgeState, st: Stamped, robot: RobotId, id: TaskId)
    requires Legal(cfg, s, st) && TasksOk(s) && ActiveFor(Apply(s, st), robot, id)
    ensures ActiveFor(s, robot, id) || (st.record.TaskCreated? && st.record.request.taskId == id && st.record.request.targetRobot == robot)
  {
    if id in s.tasks {
      StepLatched(cfg, s, st, id);
      hide Apply, TasksOk, TwoKinds;
    } else {
      hide TaskStep, DevicesAfter, TasksOk;
    }
  }

  lemma OneOpenTaskStep(cfg: EdgeConfig, s: EdgeState, st: Stamped)
    requires Legal(cfg, s, st) && TasksOk(s) && OneOpenTask(s)
    ensures OneOpenTask(Apply(s, st))
  {
    var after := Apply(s, st);
    hide Apply, TasksOk, GateClosed;
    forall robot, a, b | ActiveFor(after, robot, a) && ActiveFor(after, robot, b) ensures a == b {
      ActiveBefore(cfg, s, st, robot, a);
      ActiveBefore(cfg, s, st, robot, b);
      if st.record.TaskCreated? && st.record.request.targetRobot == robot {
        assert forall x :: !ActiveFor(s, robot, x);
      }
    }
  }

  /** At every durable prefix of every run each robot has at most one unfinished task. */
  lemma {:induction false} OneOpenTaskPerRobot(cfg: EdgeConfig, choices: seq<EdgeChoice>, n: nat)
    requires n <= |EdgeRun(cfg, choices)|
    ensures OneOpenTask(At(cfg, EdgeRun(cfg, choices), n))
    decreases n
  {
    hide At, EdgeRun, ViewOf, LegalJournal, Legal, Apply, TasksOk;
    var journal := EdgeRun(cfg, choices);
    if n == 0 {
      NothingAtStart(cfg, journal);
    } else {
      hide OneOpenTask;
      OneOpenTaskPerRobot(cfg, choices, n - 1);
      RunLegal(cfg, choices);
      StepAt(cfg, journal, n - 1);
      OneOpenTaskStep(cfg, At(cfg, journal, n - 1), journal[n - 1]);
    }
  }

  lemma NothingAtStart(cfg: EdgeConfig, journal: seq<Stamped>)
    ensures At(cfg, journal, 0).tasks == map[]
  {
    assert journal[..0] == [];
  }

  lemma CreationIsNew(cfg: EdgeConfig, s: EdgeState, st: Stamped)
    requires Legal(cfg, s, st) && st.record.TaskCreated?
    ensures st.record.request.taskId !in s.tasks && st.record.request.taskId in Apply(s, st).tasks
    ensures !GateClosed(s, st.record.request.targetRobot)
  {
    hide TaskStep, DevicesAfter, GateClosed;
  }

  /** No task id is created twice. */
  lemma CreatedOnce(cfg: EdgeConfig, choices: seq<EdgeChoice>, i: nat, j: nat)
    requires i < j < |EdgeRun(cfg, choices)|
    requires EdgeRun(cfg, choices)[i].record.TaskCreated? && EdgeRun(cfg, choices)[j].record.TaskCreated?
    ensures EdgeRun(cfg, choices)[i].record.request.taskId != EdgeRun(cfg, choices)[j].record.request.taskId
  {
    var journal := EdgeRun(cfg, choices);
    hide *;
    RunLegal(cfg, choices);
    StepAt(cfg, journal, i);
    StepAt(cfg, journal, j);
    CreationIsNew(cfg, At(cfg, journal, i), journal[i]);
    CreationIsNew(cfg, At(cfg, journal, j), journal[j]);
    RunLatched(cfg, journal, i + 1, j, journal[i].record.request.taskId);
  }

  // -- publication

  predicate Attempts(st: Stamped, id: TaskId) { st.record.TaskPublishAttempted? && st.record.attempted == id }

  function AttemptCount(journal: seq<Stamped>, id: TaskId): nat {
    if journal == [] then 0
    else AttemptCount(journal[..|journal| - 1], id) + if Attempts(journal[|journal| - 1], id) then 1 else 0
  }

  /** Attempts made once the request had expired. */
  function LateAttemptCount(journal: seq<Stamped>, id: TaskId, expiresAt: Time): nat {
    if journal == [] then 0
    else
      var last := journal[|journal| - 1];
      LateAttemptCount(journal[..|journal| - 1], id, expiresAt) + if Attempts(last, id) && last.at >= expiresAt then 1 else 0
  }

  /** The counters of a task are the true counts of the journal, within their bounds. */
  ghost predicate Counted(cfg: EdgeConfig, prefix: seq<Stamped>, id: TaskId, t: TaskView) {
    && t.publishing.attempts == AttemptCount(prefix, id) <= cfg.maxRepublishAttempts
    && t.publishing.postExpiryAttempts == LateAttemptCount(prefix, id, t.request.expiresAt) <= 1
  }

  lemma CountsSnoc(journal: seq<Stamped>, n: nat, id: TaskId, expiresAt: Time)
    requires 0 < n <= |journal|
    ensures AttemptCount(journal[..n], id) == AttemptCount(journal[..n - 1], id) + if Attempts(journal[n - 1], id) then 1 else 0
    ensures LateAttemptCount(journal[..n], id, expiresAt)
         == LateAttemptCount(journal[..n - 1], id, expiresAt) + if Attempts(journal[n - 1], id) && journal[n - 1].at >= expiresAt then 1 else 0
  {
    assert journal[..n][..n - 1] == journal[..n - 1];
  }

  lemma PublishingStep(cfg: EdgeConfig, s: EdgeState, st: Stamped, id: TaskId)
    requires Legal(cfg, s, st) && id in s.tasks
    ensures id in Apply(s, st).tasks && Apply(s, st).tasks[id].request == s.tasks[id].request
    ensures var p, q := s.tasks[id].publishing, Apply(s, st).tasks[id].publishing;
            if Attempts(st, id) then
              var late := st.at >= s.tasks[id].request.expiresAt;
              && p.attempts < cfg.maxRepublishAttempts && q.attempts == p.attempts + 1
              && (late ==> p.postExpiryAttempts < 1) && q.postExpiryAttempts == p.postExpiryAttempts + (if late then 1 else 0)
              && (p.lastAttemptAt.Some? ==> st.at - p.lastAttemptAt.value >= cfg.minRepublishInterval)
              && q.lastAttemptAt == Some(st.at)
            else q.attempts == p.attempts && q.postExpiryAttempts == p.postExpiryAttempts && q.lastAttemptAt == p.lastAttemptAt
  {
    hide DevicesAfter, EvidenceStep, ReasonsStep, ClocksStep, NoteEvidence, GateClosed, HasPending, Classify, Received, Reachable;
  }

  lemma UnknownPublishing(cfg: EdgeConfig, s: EdgeState, st: Stamped, id: TaskId)
    requires Legal(cfg, s, st) && id !in s.tasks
    ensures !Attempts(st, id)
    ensures id in Apply(s, st).tasks ==> Apply(s, st).tasks[id].publishing == Publishing(0, None, 0, 0, None, 0)
  {
    hide DevicesAfter, TaskStep, GateClosed;
  }

  /** Before its creation a task has no attempts; afterwards they are counted. */
  ghost predicate CountedFor(cfg: EdgeConfig, s: EdgeState, prefix: seq<Stamped>, id: TaskId, expiresAt: Time) {
    && (id !in s.tasks ==> AttemptCount(prefix, id) == 0 && LateAttemptCount(prefix, id, expiresAt) == 0)
    && (id in s.tasks && s.tasks[id].request.expiresAt == expiresAt ==> Counted(cfg, prefix, id, s.tasks[id]))
  }

  lemma CountingStep(cfg: EdgeConfig, s: EdgeState, journal: seq<Stamped>, n: nat, id: TaskId, expiresAt: Time)
    requires 0 < n <= |journal| && Legal(cfg, s, journal[n - 1]) && CountedFor(cfg, s, journal[..n - 1], id, expiresAt)
    ensures CountedFor(cfg, Apply(s, journal[n - 1]), journal[..n], id, expiresAt)
  {
    hide Apply, Legal, AttemptCount, LateAttemptCount, Attempts;
    CountsSnoc(journal, n, id, expiresAt);
    if id in s.tasks {
      PublishingStep(cfg, s, journal[n - 1], id);
    } else {
      UnknownPublishing(cfg, s, journal[n - 1], id);
    }
  }

  lemma {:induction false} CountedAt(cfg: EdgeConfig, journal: seq<Stamped>, n: nat, id: TaskId, expiresAt: Time)
    requires LegalJournal(cfg, journal) && n <= |journal|
    ensures CountedFor(cfg, At(cfg, journal, n), journal[..n], id, expiresAt)
    decreases n
  {
    if n == 0 {
      NothingAtStart(cfg, journal);
      assert journal[..0] == [];
    } else {
      hide *;
      CountedAt(cfg, journal, n - 1, id, expiresAt);
      StepAt(cfg, journal, n - 1);
      CountingStep(cfg, At(cfg, journal, n - 1), journal, n, id, expiresAt);
    }
  }

  /** Every run: at most the configured number of publications of a task, at most one of them after its expiry. */
  lemma BoundedAttempts(cfg: EdgeConfig, choices: seq<EdgeChoice>, n: nat, id: TaskId)
    requires n <= |EdgeRun(cfg, choices)| && id in At(cfg, EdgeRun(cfg, choices), n).tasks
    ensures AttemptCount(EdgeRun(cfg, choices)[..n], id) <= cfg.maxRepublishAttempts
    ensures LateAttemptCount(EdgeRun(cfg, choices)[..n], id, At(cfg, EdgeRun(cfg, choices), n).tasks[id].request.expiresAt) <= 1
  {
    RunLegal(cfg, choices);
    CountedAt(cfg, EdgeRun(cfg, choices), n, id, At(cfg, EdgeRun(cfg, choices), n).tasks[id].request.expiresAt);
    hide EdgeRun, At, LegalJournal, TasksOk, AttemptCount, LateAttemptCount;
  }

  ghost predicate LastAttemptAfter(s: EdgeState, id: TaskId, from: Time) {
    id in s.tasks && s.tasks[id].publishing.lastAttemptAt.Some? && s.tasks[id].publishing.lastAttemptAt.value >= from
  }

  lemma AttemptKnown(cfg: EdgeConfig, s: EdgeState, st: Stamped)
    requires Legal(cfg, s, st) && st.record.TaskPublishAttempted?
    ensures st.record.attempted in s.tasks
  {
    hide GateClosed, HasPending, Reachable;
  }

  lemma {:induction false} LastAttemptLater(cfg: EdgeConfig, journal: seq<Stamped>, i: nat, n: nat, id: TaskId)
    requires LegalJournal(cfg, journal) && i < n <= |journal| && Attempts(journal[i], id) && cfg.minRepublishInterval >= 0
    ensures LastAttemptAfter(At(cfg, journal, n), id, journal[i].at)
    decreases n
  {
    var s := At(cfg, journal, n - 1);
    StepAt(cfg, journal, n - 1);
    hide LegalJournal, At, Apply, Legal, TasksOk;
    if i == n - 1 {
      AttemptKnown(cfg, s, journal[i]);
    } else {
      LastAttemptLater(cfg, journal, i, n - 1, id);
    }
    PublishingStep(cfg, s, journal[n - 1], id);
  }

  /** Any two publications of one task are at least the minimum interval apart. */
  lemma AttemptsSpaced(cfg: EdgeConfig, choices: seq<EdgeChoice>, i: nat, j: nat, id: TaskId)
    requires i < j < |EdgeRun(cfg, choices)| && cfg.minRepublishInterval >= 0
    requires Attempts(EdgeRun(cfg, choices)[i], id) && Attempts(EdgeRun(cfg, choices)[j], id)
    ensures EdgeRun(cfg, choices)[j].at - EdgeRun(cfg, choices)[i].at >= cfg.minRepublishInterval
  {
    var journal := EdgeRun(cfg, choices);
    hide EdgeRun, LegalJournal, At, Apply, Legal, TasksOk;
    RunLegal(cfg, choices);
    LastAttemptLater(cfg, journal, i, j, id);
    StepAt(cfg, journal, j);
    PublishingStep(cfg, At(cfg, journal, j), journal[j], id);
  }

  /** What holds whenever a request is published. */
  ghost predicate Publishable(s: EdgeState, id: TaskId) {
    && id in s.tasks
    && var t := s.tasks[id];
    && !t.IsTerminal() && !t.IsBlocked() && !t.AuthorizationConflict()
    && !GateClosed(s, t.request.targetRobot)
    && t.request.targetRobot in s.devices
    && var d := s.devices[t.request.targetRobot];
    && (d.connectivity.Online? || d.connectivity.Stale?)
    && d.boot.Some? && d.boot.value.incarnation == t.request.targetIncarnation
  }

  lemma AttemptPublishable(cfg: EdgeConfig, s: EdgeState, st: Stamped)
    requires Legal(cfg, s, st) && st.record.TaskPublishAttempted?
    ensures Publishable(s, st.record.attempted)
  {
    hide GateClosed, HasPending;
  }

  /** Every publication in every run meets an open, ungated task whose own incarnation is reachable. */
  lemma OnlyPublishableAttempts(cfg: EdgeConfig, choices: seq<EdgeChoice>, i: nat)
    requires i < |EdgeRun(cfg, choices)| && EdgeRun(cfg, choices)[i].record.TaskPublishAttempted?
    ensures Publishable(At(cfg, EdgeRun(cfg, choices), i), EdgeRun(cfg, choices)[i].record.attempted)
  {
    var journal := EdgeRun(cfg, choices);
    hide *;
    RunLegal(cfg, choices);
    StepAt(cfg, journal, i);
    AttemptPublishable(cfg, At(cfg, journal, i), journal[i]);
  }

  /** Once a robot's gate is closed it is never authorized again: no new task, no further publication. */
  lemma ClosedGateStopsDispatch(cfg: EdgeConfig, choices: seq<EdgeChoice>, n: nat, i: nat, robot: RobotId)
    requires n <= i < |EdgeRun(cfg, choices)| && GateClosed(At(cfg, EdgeRun(cfg, choices), n), robot)
    ensures var r := EdgeRun(cfg, choices)[i].record;
            && (r.TaskCreated? ==> r.request.targetRobot != robot)
            && (r.TaskPublishAttempted? ==>
                  var s := At(cfg, EdgeRun(cfg, choices), i);
                  r.attempted in s.tasks && s.tasks[r.attempted].request.targetRobot != robot)
  {
    var journal := EdgeRun(cfg, choices);
    GateNeverReopens(cfg, choices, n, i, robot);
    RunLegal(cfg, choices);
    StepAt(cfg, journal, i);
    hide EdgeRun, At, LegalJournal, TasksOk, Legal, Apply, GateClosed;
    if journal[i].record.TaskCreated? { CreationIsNew(cfg, At(cfg, journal, i), journal[i]); }
    if journal[i].record.TaskPublishAttempted? { AttemptPublishable(cfg, At(cfg, journal, i), journal[i]); }
  }

  /** A finished task is never published again. */
  lemma FinishedNeverPublished(cfg: EdgeConfig, choices: seq<EdgeChoice>, n: nat, i: nat, id: TaskId)
    requires n <= i < |EdgeRun(cfg, choices)|
    requires id in At(cfg, EdgeRun(cfg, choices), n).tasks && At(cfg, EdgeRun(cfg, choices), n).tasks[id].IsTerminal()
    ensures !Attempts(EdgeRun(cfg, choices)[i], id)
  {
    TerminalNeverChanges(cfg, choices, n, i, id);
    if Attempts(EdgeRun(cfg, choices)[i], id) { OnlyPublishableAttempts(cfg, choices, i); }
    hide EdgeRun, At, GateClosed;
  }
}
