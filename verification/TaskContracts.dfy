/** The message vocabulary shared by the Edge and the robot (task exchange, V0). */
module TaskContracts {
  import opened Common

  /** Microseconds on the supplied clock. */
  type Time = int

  /** The digest part of a `task_` identifier; fixed-width hex text orders like the number. */
  type TaskId = nat
  type RobotId = string

  /** What a provisioning fixes: a re-provisioned robot is another incarnation. */
  datatype Incarnation =
    | Incarnation(robotId: RobotId, provisionedAt: Time, nonce: string)
    | Unprovisioned

  datatype EventKind = Accepted | Rejected | Progress | AssistanceRequired | Succeeded | Failed | Inconclusive

  predicate IsTerminalKind(k: EventKind) {
    k.Succeeded? || k.Failed? || k.Inconclusive? || k.Rejected?
  }

  /** The closed reason vocabulary; any other code stays visible as `unknown:<raw>`. */
  datatype Reason =
    | RobotFaulted | EstopLatched | EnergyInsufficient | CannotContinue | NeedsManualRecharge
    | NotStartedAfterRestart | InterruptedUnknownOutcome
    | RobotBusy | TaskExpired | TargetMismatch | SiteMismatch | DeploymentMismatch | SimulationEnvMismatch
    | TaskIdContentConflict | IncarnationMismatch | UnsupportedTaskType | InvalidRequest
    | UnknownReason(raw: string)

  /** Site, deployment and simulation environment: every message names all three. */
  datatype Scope = Scope(site: string, deployment: string, simulationEnv: string)

  datatype TaskRequest = TaskRequest(
    scope: Scope,
    taskId: TaskId,
    targetRobot: RobotId,
    targetIncarnation: Incarnation,
    taskType: string,
    zone: string,
    issuedAt: Time,
    expiresAt: Time,
    progressWindow: int)

  /** Events of one task are ordered by boot first, then by sequence within the boot. */
  datatype Key = Key(boot: nat, sequence: nat)

  predicate KeyLess(a: Key, b: Key) {
    a.boot < b.boot || (a.boot == b.boot && a.sequence < b.sequence)
  }

  datatype TaskEvent = TaskEvent(
    scope: Scope,
    taskId: TaskId,
    robotId: RobotId,
    incarnation: Incarnation,
    bootSequence: nat,
    eventSequence: nat,
    kind: EventKind,
    reason: Option<Reason>,
    reportedAt: Time,
    phase: Option<string>)
  {
    function OrderKey(): Key { Key(bootSequence, eventSequence) }

    /** Sequence 0 is reserved for request-level rejections, which end no task. */
    predicate IsTerminal() { IsTerminalKind(kind) && eventSequence >= 1 }

    predicate IsRequestLevelRejection() { eventSequence == 0 }
  }
}
