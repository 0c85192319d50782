/** Which record may follow which robot state, and what every legal record preserves. */
module RobotLegality {
  import opened Common
  import opened TaskContracts
  import opened RobotViews
  import opened RobotExecutor

  // -- the shape of one task's history

  predicate Follows(a: TaskEvent, b: TaskEvent) {
    || (b.bootSequence == a.bootSequence && b.eventSequence == a.eventSequence + 1)
    || (b.bootSequence > a.bootSequence && b.eventSequence == 1)
  }

  /** Contiguous from 1 within each boot, boots increasing, openers first, terminals last. */
  ghost predicate HistoryOk(events: seq<TaskEvent>) {
    && (events != [] ==> events[0].eventSequence == 1)
    && (forall i :: 0 < i < |events| ==> Follows(events[i - 1], events[i]))
    && (forall i :: 0 <= i < |events| && IsTerminalKind(events[i].kind) ==> i == |events| - 1)
    && (forall i :: 0 <= i < |events| && (events[i].kind.Accepted? || events[i].kind.Rejected?) ==> i == 0)
  }

  lemma {:induction false} HistoryKeysIncrease(events: seq<TaskEvent>, i: nat, j: nat)
    requires HistoryOk(events) && i < j < |events|
    ensures KeyLess(events[i].OrderKey(), events[j].OrderKey())
    ensures events[i].bootSequence <= events[j].bootSequence
    ensures events[i].eventSequence >= 1 && events[j].eventSequence >= 1
    decreases j
  {
    assert Follows(events[j - 1], events[j]);
    if i < j - 1 {
      HistoryKeysIncrease(events, i, j - 1);
    } else if 0 < i {
      HistoryKeysIncrease(events, i - 1, i);
    }
  }

  /** Every sequence number below one the history holds was used in the same boot, earlier. */
  lemma {:induction false} HistoryContiguous(events: seq<TaskEvent>, i: nat, n: nat) returns (k: nat)
    requires HistoryOk(events) && i < |events| && 1 <= n <= events[i].eventSequence
    ensures k <= i && events[k].bootSequence == events[i].bootSequence && events[k].eventSequence == n
    decreases i
  {
    if n == events[i].eventSequence {
      k := i;
    } else {
      assert 0 < i && Follows(events[i - 1], events[i]);
      k := HistoryContiguous(events, i - 1, n);
    }
  }

  lemma {:induction false} NextSequenceMeaning(events: seq<TaskEvent>, boot: nat)
    requires HistoryOk(events)
    requires events != [] ==> events[|events| - 1].bootSequence <= boot
    ensures NextSequence(events, boot)
         == if events != [] && events[|events| - 1].bootSequence == boot then events[|events| - 1].eventSequence + 1 else 1
    decreases |events|
  {
    if events != [] {
      var prefix := events[..|events| - 1];
      var last := events[|events| - 1];
      if prefix != [] {
        assert Follows(prefix[|prefix| - 1], last);
      }
      assert HistoryOk(prefix);
      NextSequenceMeaning(prefix, boot);
    }
  }

  // -- the invariant of every replayed journal, whole or torn

  /** The history of a task agrees with its identity, its decision and its execution evidence. */
  ghost predicate EventsOk(token: Option<Incarnation>, boot: nat, id: TaskId, t: RobotTask) {
    && HistoryOk(t.events)
    && (forall i :: 0 <= i < |t.events| ==>
          && t.events[i].taskId == id
          && t.events[i].bootSequence <= boot
          && Some(t.events[i].incarnation) == token)
    && (t.decision.None? ==> t.events == [])
    && (forall i :: 0 <= i < |t.events| ==> (t.decision == Some(false) <==> t.events[i].kind.Rejected?))
    && (forall i :: 0 <= i < |t.events| && (t.events[i].kind.Succeeded? || t.events[i].kind.Inconclusive?) ==> t.executionStarted)
    && (forall k :: k in t.confirmed ==> KeyPersisted(t.events, k))
  }

  ghost predicate KeyPersisted(events: seq<TaskEvent>, k: Key) {
    exists i :: 0 <= i < |events| && events[i].OrderKey() == k
  }

  function TerminalOf(events: seq<TaskEvent>): Option<EventKind> {
    if events != [] && IsTerminalKind(events[|events| - 1].kind) then Some(events[|events| - 1].kind) else None
  }

  /** Decision, execution and outcome facts are consistent. */
  ghost predicate EvidenceOk(t: RobotTask) {
    && t.terminal == TerminalOf(t.events)
    && (t.decision != Some(true) ==> !t.executionStarted && !t.executionCompleted)
    && (t.executionStarted <==> t.step >= 1)
    && (t.outcome.Some? <==> t.executionCompleted)
    && (t.outcome == Some(OutcomeSucceeded) ==> t.executionStarted)
    && (t.outcome == Some(OutcomeSucceeded) && t.Active() ==> !t.Blocked())
  }

  ghost predicate TaskOk(token: Option<Incarnation>, boot: nat, id: TaskId, t: RobotTask) {
    && t.request.taskId == id
    && Some(t.request.targetIncarnation) == token
    && EventsOk(token, boot, id, t)
    && EvidenceOk(t)
  }

  ghost predicate TasksOk(s: RobotState) {
    && (s.token.None? ==> s.bootSequence == 0 && s.tasks == map[])
    && (s.bootSequence > 0 ==> s.bootId == s.token)
    && (forall id :: id in s.tasks ==> TaskOk(s.token, s.bootSequence, id, s.tasks[id]))
  }

  /** The execution counter of a task is 1 exactly when its start is recorded. */
  ghost predicate CountsOk(s: RobotState) {
    && (forall id :: id !in s.tasks ==> Executions(s, id) == 0)
    && (forall id :: id in s.tasks ==> Executions(s, id) == if s.tasks[id].executionStarted then 1 else 0)
  }

  /** At most one accepted, unfinished task, and it is the current one; protection blocks it. */
  ghost predicate ProtectionOk(s: RobotState) {
    && (s.current.Some? ==> s.current.value in s.tasks && s.tasks[s.current.value].Active())
    && (forall id :: id in s.tasks && s.tasks[id].Active() ==> s.current == Some(id))
    && (s.condition.awaitingHuman && s.current.Some? ==> s.tasks[s.current.value].Blocked())
    && (s.condition.awaitingHuman <==> s.condition.availability.Faulted? || s.condition.availability.AwaitingHuman?)
    && !s.condition.availability.EStopped?
  }

  ghost predicate StateOk(s: RobotState) {
    TasksOk(s) && CountsOk(s) && ProtectionOk(s)
  }

  // -- legal records

  /** What replay cannot tell: which tasks were accepted since the last boot record. */
  datatype Durable = Durable(view: RobotState, acceptedThisBoot: set<TaskId>)

  const EMPTY := Durable(INITIAL, {})

  function Advance(d: Durable, r: RobotRecord): Durable {
    Durable(Apply(d.view, r),
            if r.RobotStarted? then {}
            else if r.TaskDecision? && r.accepted then d.acceptedThisBoot + {r.decidedTask}
            else d.acceptedThisBoot)
  }

  function AdvanceAll(d: Durable, rs: seq<RobotRecord>): Durable
    decreases |rs|
  {
    if rs == [] then d else AdvanceAll(Advance(d, rs[0]), rs[1..])
  }

  /** An event may be appended to a task's history only in these situations. */
  ghost predicate LegalEvent(d: Durable, e: TaskEvent) {
    && e.taskId in d.view.tasks
    && var t := d.view.tasks[e.taskId];
    && d.view.bootSequence >= 1
    && e.bootSequence == d.view.bootSequence
    && Some(e.incarnation) == d.view.bootId
    && e.eventSequence == NextSequence(t.events, d.view.bootSequence)
    && TrueReason(t, e)
    && match e.kind
       case Accepted => t.decision == Some(true) && t.events == [] && e.taskId in d.acceptedThisBoot
       case Rejected => t.decision == Some(false) && t.events == []
       case Progress => t.Active() && t.events != [] && t.executionStarted && !t.Blocked()
       case AssistanceRequired => t.Active() && t.events != [] && t.executionStarted && !t.executionCompleted
       case Succeeded => t.Active() && t.outcome == Some(OutcomeSucceeded) && !d.view.condition.awaitingHuman
       case Failed => t.Active()
       case Inconclusive => t.Active() && t.executionStarted && !t.executionCompleted
  }

  /** The reason an event gives is what the durable facts about its task say. */
  ghost predicate TrueReason(t: RobotTask, e: TaskEvent) {
    match e.kind
    case Rejected => e.reason == t.reason
    case AssistanceRequired => e.reason.Some? && (e.reason.value.EnergyInsufficient? || e.reason.value.UnknownReason?)
    case Failed =>
      || (e.reason == Some(NotStartedAfterRestart) && !t.executionStarted && !t.executionCompleted)
      || (e.reason == Some(CannotContinue) && t.outcome == Some(OutcomeFailed))
    case Inconclusive => e.reason == Some(InterruptedUnknownOutcome)
    case _ => e.reason.None?
  }

  ghost predicate Legal(d: Durable, r: RobotRecord) {
    var s := d.view;
    && Applicable(s, r)
    && match r
       case RobotProvisioned(_) => s.token.None? && s.bootSequence == 0
       case RobotStarted(boot, id) => s.token == Some(id) && boot == s.bootSequence + 1
       case RequestReceived(request, duplicate) =>
         if duplicate then request.taskId in s.tasks && s.tasks[request.taskId].request == request
         else request.taskId !in s.tasks && Some(request.targetIncarnation) == s.token
       case RequestRejected(_, _) => true
       case TaskDecision(id, accepted, _) =>
         s.tasks[id].decision.None? && (accepted ==> s.current.None? && !s.condition.awaitingHuman)
       case TaskEventPersisted(e) => if e.eventSequence == 0 then e.kind.Rejected? else LegalEvent(d, e)
       case EventPublishConfirmed(id, key) =>
         exists i :: 0 <= i < |s.tasks[id].events| && s.tasks[id].events[i].OrderKey() == key
       case RejectionPublishConfirmed(n) => n in s.rejections
       case ExecutionStarted(id) =>
         var t := s.tasks[id];
         && s.current == Some(id) && !s.condition.awaitingHuman && id in d.acceptedThisBoot
         && !t.executionStarted && !t.executionCompleted
         && t.events != [] && t.events[0].kind.Accepted? && t.AllConfirmed()
       case ExecutionProgress(id, _) => s.tasks[id].Active() && s.tasks[id].executionStarted
       case ExecutionCompleted(id, outcome) =>
         && s.tasks[id].Active()
         && (outcome == OutcomeSucceeded ==> s.tasks[id].executionStarted && !s.tasks[id].Blocked() && !s.condition.awaitingHuman)
       case SimulateReset => s.current.None?
  }

  ghost predicate LegalBatch(d: Durable, rs: seq<RobotRecord>)
    decreases |rs|
  {
    rs == [] || (Legal(d, rs[0]) && LegalBatch(Advance(d, rs[0]), rs[1..]))
  }

  // -- preservation, one record kind at a time

  lemma EventKeepsHistory(t: RobotTask, e: TaskEvent, token: Option<Incarnation>, boot: nat)
    requires EventsOk(token, boot, e.taskId, t)
    requires e.bootSequence == boot && Some(e.incarnation) == token
    requires e.eventSequence == NextSequence(t.events, boot)
    requires t.events == [] || !(e.kind.Accepted? || e.kind.Rejected?)
    requires TerminalOf(t.events).None?
    ensures HistoryOk(t.events + [e])
  {
    NextSequenceMeaning(t.events, boot);
    if t.events != [] {
      assert Follows(t.events[|t.events| - 1], e);
    }
  }

  lemma EventKeepsEvents(t: RobotTask, e: TaskEvent, token: Option<Incarnation>, boot: nat)
    requires EventsOk(token, boot, e.taskId, t) && HistoryOk(t.events + [e])
    requires e.bootSequence == boot && Some(e.incarnation) == token
    requires t.decision.Some?
    requires t.decision == Some(false) <==> e.kind.Rejected?
    requires e.kind.Succeeded? || e.kind.Inconclusive? ==> t.executionStarted
    ensures EventsOk(token, boot, e.taskId, TaskAfterEvent(t, e))
  {
    var after := TaskAfterEvent(t, e);
    assert forall i :: 0 <= i < |t.events| ==> after.events[i] == t.events[i];
    forall k | k in after.confirmed ensures KeyPersisted(after.events, k) {
      assert KeyPersisted(t.events, k);
      var i :| 0 <= i < |t.events| && t.events[i].OrderKey() == k;
      assert after.events[i].OrderKey() == k;
    }
  }

  lemma EventKeepsEvidence(t: RobotTask, e: TaskEvent)
    requires EvidenceOk(t) && t.terminal.None?
    requires e.kind.AssistanceRequired? ==> t.outcome != Some(OutcomeSucceeded)
    ensures EvidenceOk(TaskAfterEvent(t, e))
  {
    BlockedByOneMore(t, e);
  }

  lemma BlockedByOneMore(t: RobotTask, e: TaskEvent)
    ensures TaskAfterEvent(t, e).Blocked() ==> e.kind.AssistanceRequired? || t.Blocked()
  {
    var after := TaskAfterEvent(t, e);
    if after.Blocked() && !e.kind.AssistanceRequired? {
      var i :| 0 <= i < |after.events| && after.events[i].kind.AssistanceRequired?;
      assert t.events[i] == after.events[i];
    }
  }

  lemma EventKeepsTask(d: Durable, e: TaskEvent)
    requires StateOk(d.view) && e.eventSequence >= 1 && LegalEvent(d, e)
    ensures TaskOk(d.view.token, d.view.bootSequence, e.taskId, TaskAfterEvent(d.view.tasks[e.taskId], e))
  {
    var s := d.view;
    var t := s.tasks[e.taskId];
    assert TaskOk(s.token, s.bootSequence, e.taskId, t);
    EventKeepsHistory(t, e, s.token, s.bootSequence);
    EventKeepsEvents(t, e, s.token, s.bootSequence);
    EventKeepsEvidence(t, e);
  }

  /** Replacing one task by a consistent one keeps every task consistent. */
  lemma TaskReplaced(s: RobotState, after: RobotState, id: TaskId, t: RobotTask)
    requires TasksOk(s) && id in s.tasks
    requires after.tasks == s.tasks[id := t]
    requires after.token == s.token && after.bootSequence == s.bootSequence && after.bootId == s.bootId
    requires TaskOk(s.token, s.bootSequence, id, t)
    ensures TasksOk(after)
  {
  }

  lemma CountUnchanged(s: RobotState, after: RobotState, id: TaskId, t: RobotTask)
    requires CountsOk(s) && id in s.tasks
    requires after.tasks == s.tasks[id := t] && t.executionStarted == s.tasks[id].executionStarted
    requires after.executions == s.executions
    ensures CountsOk(after)
  {
    assert forall x :: Executions(after, x) == Executions(s, x);
  }

  lemma ProtectionUnchanged(s: RobotState, after: RobotState, id: TaskId, t: RobotTask)
    requires ProtectionOk(s) && id in s.tasks
    requires after.tasks == s.tasks[id := t] && after.condition == s.condition && after.current == s.current
    requires t.Active() == s.tasks[id].Active() && (s.tasks[id].Blocked() ==> t.Blocked())
    ensures ProtectionOk(after)
  {
  }

  /** A new event: terminal events free the current slot, help requests and failures protect. */
  lemma EventKeepsProtection(s: RobotState, e: TaskEvent)
    requires ProtectionOk(s) && e.eventSequence >= 1 && e.taskId in s.tasks
    requires var t := s.tasks[e.taskId];
             !t.IsTerminal() && (if e.kind.Accepted? then t.Active() && t.events == [] else if e.kind.Rejected? then !t.Active() else t.Active())
    requires e.kind.Accepted? || e.kind.Progress? || e.kind.Succeeded? ==> !s.condition.awaitingHuman || !s.tasks[e.taskId].Active() || e.kind.Progress?
    requires e.kind.Progress? ==> !s.tasks[e.taskId].Blocked()
    ensures ProtectionOk(Apply(s, TaskEventPersisted(e)))
  {
    var after := Apply(s, TaskEventPersisted(e));
    var t, t' := s.tasks[e.taskId], TaskAfterEvent(s.tasks[e.taskId], e);
    assert after.tasks == s.tasks[e.taskId := t'];
    assert t'.events[|t.events|] == e;
    if e.kind.AssistanceRequired? {
      assert t'.Blocked();
    }
  }

  lemma EventKeepsState(d: Durable, e: TaskEvent)
    requires StateOk(d.view) && e.eventSequence >= 1 && LegalEvent(d, e)
    ensures StateOk(Apply(d.view, TaskEventPersisted(e)))
  {
    var s, after := d.view, Apply(d.view, TaskEventPersisted(e));
    var t := TaskAfterEvent(s.tasks[e.taskId], e);
    EventKeepsTask(d, e);
    EventFitsProtection(d, e);
    EventShape(s, e);
    hide Apply, LegalEvent, TaskAfterEvent, TaskOk, TasksOk, CountsOk, ProtectionOk;
    TaskReplaced(s, after, e.taskId, t);
    CountUnchanged(s, after, e.taskId, t);
  }

  lemma EventFitsProtection(d: Durable, e: TaskEvent)
    requires StateOk(d.view) && e.eventSequence >= 1 && LegalEvent(d, e)
    ensures ProtectionOk(Apply(d.view, TaskEventPersisted(e)))
  {
    assert TaskOk(d.view.token, d.view.bootSequence, e.taskId, d.view.tasks[e.taskId]);
    hide CountsOk, EventsOk, Apply;
    EventKeepsProtection(d.view, e);
  }

  lemma EventShape(s: RobotState, e: TaskEvent)
    requires e.taskId in s.tasks && e.eventSequence >= 1
    ensures var after, t := Apply(s, TaskEventPersisted(e)), TaskAfterEvent(s.tasks[e.taskId], e);
            && after.tasks == s.tasks[e.taskId := t] && t.executionStarted == s.tasks[e.taskId].executionStarted
            && after.token == s.token && after.bootSequence == s.bootSequence && after.bootId == s.bootId && after.executions == s.executions
  {
  }

  lemma BootKeepsState(s: RobotState, after: RobotState)
    requires StateOk(s)
    requires after.tasks == s.tasks && after.executions == s.executions && after.current == s.current && after.condition == s.condition
    requires after.token == s.token || s.token.None?
    requires after.token.Some?
    requires after.bootSequence >= s.bootSequence && (after.bootSequence > 0 ==> after.bootId == after.token)
    ensures StateOk(after)
  {
    assert CountsOk(after) by {
      hide TasksOk, ProtectionOk;
      assert forall id :: Executions(after, id) == Executions(s, id);
    }
    assert ProtectionOk(after) by { hide TasksOk, CountsOk; }
    hide CountsOk, ProtectionOk;
    forall id | id in after.tasks ensures TaskOk(after.token, after.bootSequence, id, after.tasks[id]) {
      LaterBootTask(s.token, s.bootSequence, after.token, after.bootSequence, id, s.tasks[id]);
      hide TaskOk;
    }
    hide TaskOk;
  }

  lemma LaterBootTask(token: Option<Incarnation>, boot: nat, laterToken: Option<Incarnation>, laterBoot: nat, id: TaskId, t: RobotTask)
    requires TaskOk(token, boot, id, t) && laterToken == token && laterBoot >= boot
    ensures TaskOk(laterToken, laterBoot, id, t)
  {
  }

  lemma ArrivalKeepsState(s: RobotState, after: RobotState, request: TaskRequest)
    requires StateOk(s) && request.taskId !in s.tasks && Some(request.targetIncarnation) == s.token
    requires after == s.(tasks := s.tasks[request.taskId := NewTask(request)], applied := after.applied)
    ensures StateOk(after)
  {
    hide TasksOk, CountsOk, ProtectionOk;
    ArrivalKeepsTasks(s, after, request);
    ArrivalKeepsCounts(s, after, request);
    ArrivalKeepsProtection(s, after, request);
  }

  lemma ArrivalKeepsTasks(s: RobotState, after: RobotState, request: TaskRequest)
    requires TasksOk(s) && request.taskId !in s.tasks && Some(request.targetIncarnation) == s.token
    requires after == s.(tasks := s.tasks[request.taskId := NewTask(request)], applied := after.applied)
    ensures TasksOk(after)
  {
    assert TaskOk(s.token, s.bootSequence, request.taskId, NewTask(request));
    hide TaskOk;
  }

  lemma ArrivalKeepsCounts(s: RobotState, after: RobotState, request: TaskRequest)
    requires CountsOk(s) && request.taskId !in s.tasks
    requires after == s.(tasks := s.tasks[request.taskId := NewTask(request)], applied := after.applied)
    ensures CountsOk(after)
  {
    assert forall id :: Executions(after, id) == Executions(s, id);
  }

  lemma ArrivalKeepsProtection(s: RobotState, after: RobotState, request: TaskRequest)
    requires ProtectionOk(s) && request.taskId !in s.tasks
    requires after == s.(tasks := s.tasks[request.taskId := NewTask(request)], applied := after.applied)
    ensures ProtectionOk(after)
  {
  }

  lemma ResetKeepsState(s: RobotState, after: RobotState)
    requires StateOk(s) && s.current.None?
    requires after == s.(condition := CLEAR, applied := after.applied)
    ensures StateOk(after)
  {
    assert forall id :: Executions(after, id) == Executions(s, id);
  }

  /** The task a task-level record produces. */
  function TaskAfterRecord(t: RobotTask, r: RobotRecord): RobotTask {
    match r
    case TaskDecision(_, accepted, reason) => t.(decision := Some(accepted), reason := reason)
    case EventPublishConfirmed(_, key) => t.(confirmed := t.confirmed + {key})
    case ExecutionStarted(_) => t.(executionStarted := true, step := if t.step < 1 then 1 else t.step)
    case ExecutionProgress(_, step) => t.(step := if t.step < step then step else t.step)
    case ExecutionCompleted(_, outcome) => t.(executionCompleted := true, outcome := Some(outcome))
    case _ => t
  }

  lemma RecordKeepsTask(token: Option<Incarnation>, boot: nat, id: TaskId, t: RobotTask, r: RobotRecord)
    requires TaskOk(token, boot, id, t)
    requires r.TaskDecision? ==> t.decision.None?
    requires r.EventPublishConfirmed? ==> KeyPersisted(t.events, r.key)
    requires r.ExecutionStarted? || r.ExecutionProgress? || r.ExecutionCompleted? ==> t.decision == Some(true)
    requires r.ExecutionProgress? ==> t.executionStarted
    requires r.ExecutionCompleted? && r.outcome == OutcomeSucceeded ==> t.executionStarted && !t.Blocked()
    ensures TaskOk(token, boot, id, TaskAfterRecord(t, r))
  {
    var t' := TaskAfterRecord(t, r);
    assert t'.events == t.events && t'.terminal == t.terminal;
    assert EventsOk(token, boot, id, t');
    assert t'.Blocked() == t.Blocked();
  }

  /** Only this task changes, neither the current slot nor the counters. */
  ghost predicate TouchesOnly(s: RobotState, after: RobotState, id: TaskId, t: RobotTask) {
    && id in s.tasks && t.executionStarted == s.tasks[id].executionStarted
    && t.Active() == s.tasks[id].Active() && (s.tasks[id].Blocked() ==> t.Blocked())
    && after.tasks == s.tasks[id := t] && after.executions == s.executions
    && after.token == s.token && after.bootSequence == s.bootSequence && after.bootId == s.bootId
    && after.condition == s.condition && after.current == s.current
  }

  lemma TaskRecordKeepsState(s: RobotState, after: RobotState, id: TaskId, t: RobotTask)
    requires StateOk(s) && TouchesOnly(s, after, id, t) && TaskOk(s.token, s.bootSequence, id, t)
    ensures StateOk(after)
  {
    hide TasksOk, CountsOk, ProtectionOk, TaskOk;
    TaskReplaced(s, after, id, t);
    CountUnchanged(s, after, id, t);
    ProtectionUnchanged(s, after, id, t);
  }

  /** The task's execution starts, is counted, and nothing else changes. */
  ghost predicate StartsExecution(s: RobotState, after: RobotState, id: TaskId, t: RobotTask) {
    && id in s.tasks && !s.tasks[id].executionStarted && t.executionStarted
    && t.Active() == s.tasks[id].Active() && (s.tasks[id].Blocked() ==> t.Blocked())
    && after.tasks == s.tasks[id := t] && after.executions == s.executions[id := Executions(s, id) + 1]
    && after.token == s.token && after.bootSequence == s.bootSequence && after.bootId == s.bootId
    && after.condition == s.condition && after.current == s.current
  }

  lemma StartIsCounted(s: RobotState, after: RobotState, id: TaskId, t: RobotTask)
    requires StartsExecution(s, after, id, t) && CountsOk(s)
    ensures CountsOk(after)
  {
    assert forall x :: Executions(after, x) == if x == id then Executions(s, id) + 1 else Executions(s, x);
    CountRaised(s, after, id, t);
    hide CountsOk;
  }

  lemma ExecutionStartKeepsState(s: RobotState, after: RobotState, id: TaskId, t: RobotTask)
    requires StateOk(s) && StartsExecution(s, after, id, t) && TaskOk(s.token, s.bootSequence, id, t)
    ensures StateOk(after)
  {
    hide TaskOk, TasksOk, CountsOk, ProtectionOk;
    StartIsCounted(s, after, id, t);
    TaskReplaced(s, after, id, t);
    ProtectionUnchanged(s, after, id, t);
  }

  lemma CountRaised(s: RobotState, after: RobotState, id: TaskId, t: RobotTask)
    requires CountsOk(s) && id in s.tasks && !s.tasks[id].executionStarted && t.executionStarted
    requires after.tasks == s.tasks[id := t]
    requires forall x :: Executions(after, x) == if x == id then Executions(s, id) + 1 else Executions(s, x)
    ensures CountsOk(after)
  {
    hide Executions;
  }

  lemma AcceptanceKeepsState(s: RobotState, after: RobotState, id: TaskId, t: RobotTask)
    requires StateOk(s) && id in s.tasks && s.current.None? && !s.condition.awaitingHuman
    requires after == s.(tasks := s.tasks[id := t], current := Some(id),
                         condition := s.condition.(availability := Busy), applied := after.applied)
    requires TaskOk(s.token, s.bootSequence, id, t) && t.Active() && t.executionStarted == s.tasks[id].executionStarted
    ensures StateOk(after)
  {
    hide TasksOk, CountsOk, TaskOk;
    assert ProtectionOk(after);
    hide ProtectionOk;
    TaskReplaced(s, after, id, t);
    CountUnchanged(s, after, id, t);
  }

  predicate TouchesTask(r: RobotRecord, id: TaskId) {
    || (r.TaskDecision? && r.decidedTask == id) || (r.EventPublishConfirmed? && r.confirmedTask == id)
    || (r.ExecutionStarted? && r.startedTask == id) || (r.ExecutionProgress? && r.progressTask == id)
    || (r.ExecutionCompleted? && r.completedTask == id)
  }

  lemma TouchedTaskStaysOk(d: Durable, r: RobotRecord, id: TaskId)
    requires StateOk(d.view) && Legal(d, r) && TouchesTask(r, id)
    ensures id in d.view.tasks && TaskOk(d.view.token, d.view.bootSequence, id, TaskAfterRecord(d.view.tasks[id], r))
  {
    assert TaskOk(d.view.token, d.view.bootSequence, id, d.view.tasks[id]);
    hide CountsOk, EventsOk;
    RecordKeepsTask(d.view.token, d.view.bootSequence, id, d.view.tasks[id], r);
  }

  lemma {:induction false} AcceptedKeepsState(d: Durable, r: RobotRecord, id: TaskId)
    requires StateOk(d.view) && Legal(d, r) && r.TaskDecision? && r.accepted && r.decidedTask == id
    ensures StateOk(Apply(d.view, r))
  {
    TouchedTaskStaysOk(d, r, id);
    hide TaskOk, TasksOk, CountsOk, ProtectionOk, StateOk, LegalEvent;
    var s := d.view;
    AcceptedTaskActive(s, id);
    AcceptanceKeepsState(s, Apply(s, r), id, TaskAfterRecord(s.tasks[id], r));
  }

  /** A task without a decision has no terminal yet. */
  lemma AcceptedTaskActive(s: RobotState, id: TaskId)
    requires StateOk(s) && id in s.tasks && s.tasks[id].decision.None?
    ensures !s.tasks[id].IsTerminal()
  {
    assert TaskOk(s.token, s.bootSequence, id, s.tasks[id]);
  }

  lemma {:induction false} StartedKeepsState(d: Durable, r: RobotRecord, id: TaskId)
    requires StateOk(d.view) && Legal(d, r) && r.ExecutionStarted? && r.startedTask == id
    ensures StateOk(Apply(d.view, r))
  {
    TouchedTaskStaysOk(d, r, id);
    StartedShape(d, r, id);
    hide TaskOk, StateOk, Legal, Apply, StartsExecution;
    ExecutionStartKeepsState(d.view, Apply(d.view, r), id, TaskAfterRecord(d.view.tasks[id], r));
  }

  lemma StartedShape(d: Durable, r: RobotRecord, id: TaskId)
    requires Legal(d, r) && r.ExecutionStarted? && r.startedTask == id
    ensures id in d.view.tasks && StartsExecution(d.view, Apply(d.view, r), id, TaskAfterRecord(d.view.tasks[id], r))
  {
    hide LegalEvent;
    var t := d.view.tasks[id];
    assert TaskAfterRecord(t, r).events == t.events && TaskAfterRecord(t, r).terminal == t.terminal;
  }

  lemma {:induction false} OtherRecordKeepsState(d: Durable, r: RobotRecord, id: TaskId)
    requires StateOk(d.view) && Legal(d, r) && TouchesTask(r, id) && !r.ExecutionStarted? && (r.TaskDecision? ==> !r.accepted)
    ensures StateOk(Apply(d.view, r))
  {
    TouchedTaskStaysOk(d, r, id);
    OtherRecordShape(d, r, id);
    hide TaskOk, StateOk, Legal, Apply, TouchesOnly;
    TaskRecordKeepsState(d.view, Apply(d.view, r), id, TaskAfterRecord(d.view.tasks[id], r));
  }

  lemma OtherRecordShape(d: Durable, r: RobotRecord, id: TaskId)
    requires Legal(d, r) && TouchesTask(r, id) && !r.ExecutionStarted? && (r.TaskDecision? ==> !r.accepted)
    ensures id in d.view.tasks && TouchesOnly(d.view, Apply(d.view, r), id, TaskAfterRecord(d.view.tasks[id], r))
  {
    hide LegalEvent;
    var t := d.view.tasks[id];
    assert TaskAfterRecord(t, r).events == t.events && TaskAfterRecord(t, r).terminal == t.terminal;
  }

  lemma TaskLegalKeepsState(d: Durable, r: RobotRecord, id: TaskId)
    requires StateOk(d.view) && Legal(d, r) && TouchesTask(r, id)
    ensures StateOk(Apply(d.view, r))
  {
    hide StateOk, Legal, Apply;
    if r.TaskDecision? && r.accepted {
      AcceptedKeepsState(d, r, id);
    } else if r.ExecutionStarted? {
      StartedKeepsState(d, r, id);
    } else {
      OtherRecordKeepsState(d, r, id);
    }
  }

  lemma RejectionKeepsState(s: RobotState, after: RobotState)
    requires StateOk(s)
    requires after == s.(rejections := after.rejections, confirmedRejections := after.confirmedRejections, applied := after.applied)
    ensures StateOk(after)
  {
    assert forall id :: Executions(after, id) == Executions(s, id);
  }

  lemma LegalKeepsState(d: Durable, r: RobotRecord)
    requires StateOk(d.view) && Legal(d, r)
    ensures StateOk(Apply(d.view, r))
  {
    hide StateOk, LegalEvent;
    var s, after := d.view, Apply(d.view, r);
    match r
    case RobotProvisioned(_) => BootFacts(d, r); BootKeepsState(s, after);
    case RobotStarted(_, _) => BootFacts(d, r); BootKeepsState(s, after);
    case RequestReceived(request, duplicate) => if duplicate { RejectionKeepsState(s, after); } else { ArrivalKeepsState(s, after, request); }
    case TaskEventPersisted(e) => if e.eventSequence >= 1 { EventKeepsState(d, e); } else { RejectionKeepsState(s, after); }
    case TaskDecision(id, _, _) => TaskLegalKeepsState(d, r, id);
    case EventPublishConfirmed(id, _) => TaskLegalKeepsState(d, r, id);
    case ExecutionStarted(id) => TaskLegalKeepsState(d, r, id);
    case ExecutionProgress(id, _) => TaskLegalKeepsState(d, r, id);
    case ExecutionCompleted(id, _) => TaskLegalKeepsState(d, r, id);
    case SimulateReset => ResetKeepsState(s, after);
    case RequestRejected(_, _) => RejectionKeepsState(s, after);
    case RejectionPublishConfirmed(_) => RejectionKeepsState(s, after);
  }

  lemma BootFacts(d: Durable, r: RobotRecord)
    requires StateOk(d.view) && Legal(d, r) && (r.RobotProvisioned? || r.RobotStarted?)
    ensures var after := Apply(d.view, r);
            && (after.token == d.view.token || d.view.token.None?) && after.token.Some?
            && after.bootSequence >= d.view.bootSequence && (after.bootSequence > 0 ==> after.bootId == after.token)
  {
  }

  lemma {:induction false} LegalBatchKeepsState(d: Durable, rs: seq<RobotRecord>)
    requires StateOk(d.view) && LegalBatch(d, rs)
    ensures StateOk(AdvanceAll(d, rs).view)
    decreases |rs|
  {
    if rs != [] {
      LegalKeepsState(d, rs[0]);
      LegalBatchKeepsState(Advance(d, rs[0]), rs[1..]);
    }
  }

  lemma {:induction false} LegalPrefix(d: Durable, rs: seq<RobotRecord>, k: nat)
    requires LegalBatch(d, rs) && k <= |rs|
    ensures LegalBatch(d, rs[..k])
    decreases k
  {
    if k > 0 {
      LegalPrefix(Advance(d, rs[0]), rs[1..], k - 1);
      assert rs[..k][1..] == rs[1..][..k - 1];
    }
  }

  lemma {:induction false} LegalConcat(d: Durable, a: seq<RobotRecord>, b: seq<RobotRecord>)
    ensures AdvanceAll(d, a + b) == AdvanceAll(AdvanceAll(d, a), b)
    ensures LegalBatch(d, a) && LegalBatch(AdvanceAll(d, a), b) ==> LegalBatch(d, a + b)
    decreases |a|
  {
    if a == [] {
      assert a + b == b;
    } else {
      LegalConcat(Advance(d, a[0]), a[1..], b);
      assert (a + b)[1..] == a[1..] + b;
    }
  }

  lemma {:induction false} AdvanceView(d: Durable, rs: seq<RobotRecord>)
    ensures AdvanceAll(d, rs).view == ApplyAll(d.view, rs)
    decreases |rs|
  {
    if rs != [] { AdvanceView(Advance(d, rs[0]), rs[1..]); }
  }
}
