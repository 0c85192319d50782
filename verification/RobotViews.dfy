/** The robot's journal vocabulary and the view it derives by replaying its own records. */
module RobotViews {
  import opened Common
  import opened TaskContracts

  datatype Outcome = OutcomeSucceeded | OutcomeFailed

  datatype RobotRecord =
    | RobotProvisioned(token: Incarnation)
    | RobotStarted(bootSequence: nat, bootId: Incarnation)
    | RequestReceived(request: TaskRequest, knownDuplicate: bool)
    | RequestRejected(rejectedTask: Option<TaskId>, code: Reason)
    | TaskDecision(decidedTask: TaskId, accepted: bool, reason: Option<Reason>)
    | TaskEventPersisted(event: TaskEvent)
    | EventPublishConfirmed(confirmedTask: TaskId, key: Key)
    | RejectionPublishConfirmed(recordSequence: nat)
    | ExecutionStarted(startedTask: TaskId)
    | ExecutionProgress(progressTask: TaskId, step: nat)
    | ExecutionCompleted(completedTask: TaskId, outcome: Outcome)
    | SimulateReset

  datatype Availability = Available | Busy | Charging | Paused | AwaitingHuman | Faulted | EStopped

  datatype RobotTask = RobotTask(
    request: TaskRequest,
    decision: Option<bool>,
    reason: Option<Reason>,
    events: seq<TaskEvent>,
    confirmed: set<Key>,
    executionStarted: bool,
    executionCompleted: bool,
    outcome: Option<Outcome>,
    terminal: Option<EventKind>,
    step: nat)
  {
    predicate IsTerminal() { terminal.Some? }

    predicate Blocked() {
      (exists i :: 0 <= i < |events| && events[i].kind.AssistanceRequired?) && !IsTerminal()
    }

    /** Accepted and not finished: the work this robot currently holds. */
    predicate Active() { decision == Some(true) && !IsTerminal() }

    predicate AllConfirmed() {
      forall i :: 0 <= i < |events| ==> events[i].OrderKey() in confirmed
    }
  }

  function NewTask(request: TaskRequest): RobotTask {
    RobotTask(request, None, None, [], {}, false, false, None, None, 0)
  }

  /** The robot's protective condition: what it declares about itself in its heartbeat. */
  datatype Condition = Condition(
    availability: Availability,
    awaitingHuman: bool,
    canContinue: Option<bool>,
    needsManualRecharge: Option<bool>,
    faultCode: Option<string>)

  const CLEAR := Condition(Available, false, Some(true), Some(false), None)

  datatype RobotState = RobotState(
    token: Option<Incarnation>,
    bootSequence: nat,
    bootId: Option<Incarnation>,
    tasks: map<TaskId, RobotTask>,
    condition: Condition,
    current: Option<TaskId>,
    executions: map<TaskId, nat>,
    rejections: map<nat, TaskEvent>,
    confirmedRejections: set<nat>,
    applied: nat)

  const INITIAL := RobotState(None, 0, None, map[], CLEAR, None, map[], map[], {}, 0)

  function Executions(s: RobotState, id: TaskId): nat {
    if id in s.executions then s.executions[id] else 0
  }

  // -- the protective condition, a function of the persisted events only

  function Protect(c: Condition, reason: Option<Reason>): Condition {
    if reason.Some? && reason.value.UnknownReason? then
      Condition(Faulted, true, None, None, Some(reason.value.raw))
    else if reason == Some(EnergyInsufficient) || reason == Some(NeedsManualRecharge) then
      Condition(AwaitingHuman, true, Some(false), Some(true), c.faultCode)
    else
      // an earlier energy or fault fact is kept, and a faulted robot stays faulted
      Condition(if c.availability.Faulted? then Faulted else AwaitingHuman, true,
                if reason == Some(CannotContinue) then Some(false) else c.canContinue,
                c.needsManualRecharge, c.faultCode)
  }

  function DeriveCondition(c: Condition, e: TaskEvent): Condition {
    match e.kind
    case AssistanceRequired => Protect(c, e.reason)
    case Succeeded => CLEAR
    case Failed => Protect(c, e.reason)
    case Inconclusive => Protect(c, e.reason)
    case _ => c
  }

  function TaskAfterEvent(t: RobotTask, e: TaskEvent): RobotTask {
    t.(events := t.events + [e], terminal := if IsTerminalKind(e.kind) then Some(e.kind) else t.terminal)
  }

  /** The task a record must find in the view: replay raises where it is missing. */
  predicate Applicable(s: RobotState, r: RobotRecord) {
    match r
    case TaskDecision(id, _, _) => id in s.tasks
    case TaskEventPersisted(e) => e.eventSequence == 0 || e.taskId in s.tasks
    case EventPublishConfirmed(id, _) => id in s.tasks
    case ExecutionStarted(id) => id in s.tasks
    case ExecutionProgress(id, _) => id in s.tasks
    case ExecutionCompleted(id, _) => id in s.tasks
    case _ => true
  }

  /** The effect of one record, before the applied count moves. */
  function Effect(s: RobotState, r: RobotRecord): RobotState {
    if !Applicable(s, r) then s
    else match r
    case RobotProvisioned(token) => s.(token := Some(token))
    case RobotStarted(boot, id) => s.(bootSequence := boot, bootId := Some(id))
    case RequestReceived(request, duplicate) =>
      if duplicate then s else s.(tasks := s.tasks[request.taskId := NewTask(request)])
    case TaskDecision(id, accepted, reason) =>
      var d := s.(tasks := s.tasks[id := s.tasks[id].(decision := Some(accepted), reason := reason)]);
      if accepted then d.(current := Some(id), condition := s.condition.(availability := Busy)) else d
    case TaskEventPersisted(e) =>
      if e.eventSequence == 0 then s.(rejections := s.rejections[s.applied + 1 := e])
      else
        s.(tasks := s.tasks[e.taskId := TaskAfterEvent(s.tasks[e.taskId], e)],
           condition := DeriveCondition(s.condition, e),
           current := if IsTerminalKind(e.kind) && s.current == Some(e.taskId) then None else s.current)
    case EventPublishConfirmed(id, key) =>
      s.(tasks := s.tasks[id := s.tasks[id].(confirmed := s.tasks[id].confirmed + {key})])
    case RejectionPublishConfirmed(n) => s.(confirmedRejections := s.confirmedRejections + {n})
    case ExecutionStarted(id) =>
      var t := s.tasks[id];
      s.(tasks := s.tasks[id := t.(executionStarted := true, step := if t.step < 1 then 1 else t.step)],
         executions := s.executions[id := Executions(s, id) + 1])
    case ExecutionProgress(id, step) =>
      var t := s.tasks[id];
      s.(tasks := s.tasks[id := t.(step := if t.step < step then step else t.step)])
    case ExecutionCompleted(id, outcome) =>
      s.(tasks := s.tasks[id := s.tasks[id].(executionCompleted := true, outcome := Some(outcome))])
    case SimulateReset => s.(condition := CLEAR, current := None)
    case RequestRejected(_, _) => s
  }

  function Apply(s: RobotState, r: RobotRecord): RobotState {
    Effect(s, r).(applied := s.applied + 1)
  }

  function Replay(journal: seq<RobotRecord>): RobotState {
    if journal == [] then INITIAL
    else Apply(Replay(journal[..|journal| - 1]), journal[|journal| - 1])
  }

  /** Replaying a batch on top of a state, record by record. */
  function ApplyAll(s: RobotState, rs: seq<RobotRecord>): RobotState
    decreases |rs|
  {
    if rs == [] then s else ApplyAll(Apply(s, rs[0]), rs[1..])
  }

  /** The live view: fields that only journal records change. */
  class RobotView {
    var token: Option<Incarnation>
    var bootSequence: nat
    var bootId: Option<Incarnation>
    var tasks: map<TaskId, RobotTask>
    var availability: Availability
    var awaitingHuman: bool
    var canContinue: Option<bool>
    var needsManualRecharge: Option<bool>
    var faultCode: Option<string>
    var current: Option<TaskId>
    var executions: map<TaskId, nat>
    var rejections: map<nat, TaskEvent>
    var confirmedRejections: set<nat>
    var applied: nat

    function State(): RobotState
      reads this
    {
      RobotState(token, bootSequence, bootId, tasks, DeclaredCondition(), current, executions, rejections, confirmedRejections, applied)
    }

    function DeclaredCondition(): Condition
      reads this
    {
      Condition(availability, awaitingHuman, canContinue, needsManualRecharge, faultCode)
    }

    constructor ()
      ensures State() == INITIAL
    {
      token, bootSequence, bootId, tasks := None, 0, None, map[];
      availability, awaitingHuman, canContinue, needsManualRecharge := Available, false, Some(true), Some(false);
      faultCode, current, executions, rejections, confirmedRejections, applied := None, None, map[], map[], {}, 0;
    }

    /** A scratch copy: task views are values here, so nothing is shared with the original. */
    constructor Copy(other: RobotView)
      ensures State() == other.State()
    {
      token, bootSequence, bootId, tasks := other.token, other.bootSequence, other.bootId, other.tasks;
      availability, awaitingHuman := other.availability, other.awaitingHuman;
      canContinue, needsManualRecharge := other.canContinue, other.needsManualRecharge;
      faultCode, current, executions := other.faultCode, other.current, other.executions;
      rejections, confirmedRejections, applied := other.rejections, other.confirmedRejections, other.applied;
    }

    method ProtectFor(reason: Option<Reason>)
      modifies this`availability, this`awaitingHuman, this`canContinue, this`needsManualRecharge, this`faultCode
      ensures DeclaredCondition() == Protect(old(DeclaredCondition()), reason)
    {
      awaitingHuman := true;
      if reason.Some? && reason.value.UnknownReason? {
        availability := Faulted;
        faultCode := Some(reason.value.raw);
        canContinue, needsManualRecharge := None, None;
      } else if reason == Some(EnergyInsufficient) || reason == Some(NeedsManualRecharge) {
        availability := AwaitingHuman;
        canContinue, needsManualRecharge := Some(false), Some(true);
      } else if reason == Some(CannotContinue) {
        if !availability.Faulted? { availability := AwaitingHuman; }
        canContinue := Some(false);
      } else if !availability.Faulted? {
        availability := AwaitingHuman;
      }
    }

    method Clear()
      modifies this`availability, this`awaitingHuman, this`canContinue, this`needsManualRecharge, this`faultCode
      ensures DeclaredCondition() == CLEAR
    {
      availability, awaitingHuman := Available, false;
      canContinue, needsManualRecharge, faultCode := Some(true), Some(false), None;
    }

    method DeriveConditionFor(id: TaskId, e: TaskEvent)
      requires id in tasks
      modifies this`tasks, this`current, this`availability, this`awaitingHuman, this`canContinue, this`needsManualRecharge, this`faultCode
      ensures DeclaredCondition() == DeriveCondition(old(DeclaredCondition()), e)
      ensures tasks == old(tasks)[id := old(tasks)[id].(terminal := if IsTerminalKind(e.kind) then Some(e.kind) else old(tasks)[id].terminal)]
      ensures current == if IsTerminalKind(e.kind) && old(current) == Some(id) then None else old(current)
    {
      if e.kind.AssistanceRequired? {
        ProtectFor(e.reason);
        return;
      }
      if !IsTerminalKind(e.kind) { return; }
      tasks := tasks[id := tasks[id].(terminal := Some(e.kind))];
      if current == Some(id) { current := None; }
      if e.kind.Succeeded? {
        Clear();
      } else if e.kind.Failed? || e.kind.Inconclusive? {
        ProtectFor(e.reason);
      }
    }

    /** Records about one known task: its decision, its events and its execution evidence. */
    method ApplyTaskRecord(r: RobotRecord)
      requires Applicable(State(), r)
      requires r.TaskDecision? || r.EventPublishConfirmed? || r.ExecutionStarted? || r.ExecutionProgress? || r.ExecutionCompleted?
      modifies this
      ensures State() == Effect(old(State()), r)
    {
      match r {
        case TaskDecision(id, accepted, reason) =>
          tasks := tasks[id := tasks[id].(decision := Some(accepted), reason := reason)];
          if accepted { current, availability := Some(id), Busy; }
        case EventPublishConfirmed(id, key) =>
          tasks := tasks[id := tasks[id].(confirmed := tasks[id].confirmed + {key})];
        case ExecutionStarted(id) =>
          tasks := tasks[id := tasks[id].(executionStarted := true, step := if tasks[id].step < 1 then 1 else tasks[id].step)];
          executions := executions[id := (if id in executions then executions[id] else 0) + 1];
        case ExecutionProgress(id, step) =>
          tasks := tasks[id := tasks[id].(step := if tasks[id].step < step then step else tasks[id].step)];
        case ExecutionCompleted(id, outcome) =>
          tasks := tasks[id := tasks[id].(executionCompleted := true, outcome := Some(outcome))];
      }
    }

    method ApplyEvent(e: TaskEvent)
      requires Applicable(State(), TaskEventPersisted(e))
      modifies this
      ensures State() == Effect(old(State()), TaskEventPersisted(e))
    {
      if e.eventSequence == 0 {
        rejections := rejections[applied + 1 := e];
      } else {
        tasks := tasks[e.taskId := tasks[e.taskId].(events := tasks[e.taskId].events + [e])];
        DeriveConditionFor(e.taskId, e);
      }
    }

    method ApplyRecord(r: RobotRecord)
      requires Applicable(State(), r)
      modifies this
      ensures State() == Apply(old(State()), r)
    {
      match r {
        case RobotProvisioned(t) => token := Some(t);
        case RobotStarted(boot, id) => bootSequence, bootId := boot, Some(id);
        case RequestReceived(request, duplicate) =>
          if !duplicate { tasks := tasks[request.taskId := NewTask(request)]; }
        case TaskEventPersisted(e) => ApplyEvent(e);
        case RejectionPublishConfirmed(n) => confirmedRejections := confirmedRejections + {n};
        case SimulateReset =>
          Clear();
          current := None;
        case RequestRejected(_, _) =>
        case _ => ApplyTaskRecord(r);
      }
      applied := applied + 1;
    }
  }
}
