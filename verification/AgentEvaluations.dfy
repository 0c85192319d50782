/** The evaluation lifecycle over durable stores: prepare, ledger, journal, complete, acknowledge. */
module AgentEvaluations {
  import opened Common

  datatype Envelope = Envelope(sequence: nat, id: string, observedAt: real)

  /** A recommendation carries a ledger event; any other verdict does not. */
  datatype Evaluation = Evaluation(evaluationId: string, event: Option<string>)

  /** The Site Runtime's envelope of each sequence, and the evaluator (None: it raised). */
  datatype Ports = Ports(identity: string, first: nat, envelopeOf: nat -> Envelope, evaluate: Envelope -> Option<Evaluation>)

  datatype Progress = Progress(sequence: nat, observedAt: real, envelopeId: string, evaluationId: string)

  datatype EvaluationRecord = EvaluationRecord(identity: string, sequence: nat, envelopeId: string, observedAt: real, evaluationId: string)

  datatype LedgerRecord = LedgerRecord(identity: string, eventId: string)

  // -- the evaluation checkpoint

  datatype Checkpoint = Checkpoint(last: Option<Progress>, lastAttempts: nat, pending: Option<Progress>, pendingAttempts: nat)

  const INITIAL := Checkpoint(None, 0, None, 0)

  /** What every stored checkpoint satisfies. */
  predicate WellFormed(c: Checkpoint) {
    && (c.last.None? ==> c.lastAttempts == 0)
    && (c.pending.None? ==> c.pendingAttempts == 0)
    && (c.last.Some? && c.pending.Some? ==> c.pending.value.sequence == c.last.value.sequence + 1)
  }

  datatype CheckpointError = NotTheSamePending | UnexpectedSequence | NothingPending

  /** A pending evaluation can only be prepared again as itself; a new one must be next in line. */
  function Prepare(c: Checkpoint, p: Progress): Result<Checkpoint, CheckpointError> {
    if c.pending.Some? then
      if p == c.pending.value then Ok(c.(pendingAttempts := c.pendingAttempts + 1)) else Err(NotTheSamePending)
    else if c.last.Some? && p.sequence != c.last.value.sequence + 1 then Err(UnexpectedSequence)
    else Ok(c.(pending := Some(p), pendingAttempts := 0))
  }

  function Complete(c: Checkpoint): Result<Checkpoint, CheckpointError> {
    if c.pending.None? then Err(NothingPending) else Ok(Checkpoint(c.pending, c.pendingAttempts, None, 0))
  }

  // -- the evaluation journal

  datatype JournalError = DifferentContent | IdentityMismatch | NotContiguous

  function StoredFor(journal: seq<EvaluationRecord>, sequence: nat): Option<EvaluationRecord> {
    if journal == [] then None
    else if journal[|journal| - 1].sequence == sequence then Some(journal[|journal| - 1])
    else StoredFor(journal[..|journal| - 1], sequence)
  }

  /** An identical replay appends nothing; other content for a stored sequence, or a gap, is refused. */
  function JournalAppend(journal: seq<EvaluationRecord>, r: EvaluationRecord): Result<seq<EvaluationRecord>, JournalError> {
    var stored := StoredFor(journal, r.sequence);
    if stored.Some? then (if stored.value.evaluationId == r.evaluationId then Ok(journal) else Err(DifferentContent))
    else if journal != [] && journal[|journal| - 1].identity != r.identity then Err(IdentityMismatch)
    else if journal != [] && r.sequence != journal[|journal| - 1].sequence + 1 then Err(NotContiguous)
    else Ok(journal + [r])
  }

  function LedgerAppend(ledger: seq<LedgerRecord>, r: LedgerRecord): seq<LedgerRecord> {
    if exists i :: 0 <= i < |ledger| && ledger[i].eventId == r.eventId then ledger else ledger + [r]
  }

  // -- everything durable

  /** The source's next unacknowledged sequence, the last published one, and the evaluation stores. */
  datatype Durable = Durable(
    next: nat, published: Option<nat>, checkpoint: Checkpoint,
    ledger: seq<LedgerRecord>, journal: seq<EvaluationRecord>)

  function Fresh(ports: Ports): Durable { Durable(ports.first, None, INITIAL, [], []) }

  datatype Incident =
    | JournalIdentityMismatch | LedgerIdentityMismatch | CheckpointDivergence | JournalDivergence
    | ReplayMismatch | SequenceGap | EvaluationFailed | CheckpointFailed

  datatype RecoveryReport = RecoveryReport(evaluationPending: Option<nat>, lastPublished: Option<nat>, lastEvaluated: Option<nat>, journaled: nat)

  function SequenceOf(p: Option<Progress>): Option<nat> { if p.Some? then Some(p.value.sequence) else None }

  /** Read-only reconciliation of the stores after a (re)start: the first disagreement fails closed. */
  function Recover(ports: Ports, d: Durable): Result<RecoveryReport, Incident> {
    var last, pending := SequenceOf(d.checkpoint.last), SequenceOf(d.checkpoint.pending);
    var newest := if d.journal == [] then None else Some(d.journal[|d.journal| - 1].sequence);
    var bound := if pending.Some? then pending else last;
    var completed := if last.Some? then StoredFor(d.journal, last.value) else None;
    if exists i :: 0 <= i < |d.journal| && d.journal[i].identity != ports.identity then Err(JournalIdentityMismatch)
    else if exists i :: 0 <= i < |d.ledger| && d.ledger[i].identity != ports.identity then Err(LedgerIdentityMismatch)
    else if last.Some? && d.published.Some? && last.value != d.published.value && last.value + 1 != d.published.value then Err(CheckpointDivergence)
    else if pending.Some? && d.published.Some? && pending.value != d.published.value then Err(CheckpointDivergence)
    else if newest.Some? && (bound.None? || newest.value > bound.value) then Err(JournalDivergence)
    else if last.Some? && (completed.None? || completed.value.evaluationId != d.checkpoint.last.value.evaluationId) then Err(JournalDivergence)
    else Ok(RecoveryReport(pending, d.published, last, |d.journal|))
  }

  // -- one cycle, with a budget of store operations before the outage or the crash

  datatype Evaluated = Done | ReplaySkipped | Deferred | FailedClosed(incident: Incident)

  /** The stores after an evaluation attempt, how it ended, and the operations left. */
  datatype Attempt = Attempt(durable: Durable, outcome: Evaluated, left: nat)

  function RecordFor(ports: Ports, e: Envelope, evaluation: Evaluation): EvaluationRecord {
    EvaluationRecord(ports.identity, e.sequence, e.id, e.observedAt, evaluation.evaluationId)
  }

  function ProgressFor(e: Envelope, evaluation: Evaluation): Progress {
    Progress(e.sequence, e.observedAt, e.id, evaluation.evaluationId)
  }

  /** What the checkpoint says about an envelope before anything is evaluated. */
  function Admission(c: Checkpoint, e: Envelope): Option<Evaluated> {
    if c.last.Some? && c.last.value.sequence == e.sequence then
      Some(if c.last.value.envelopeId != e.id then FailedClosed(ReplayMismatch) else ReplaySkipped)
    else if c.pending.Some? && c.pending.value.sequence != e.sequence then Some(FailedClosed(ReplayMismatch))
    else if c.pending.None? && c.last.Some? && e.sequence != c.last.value.sequence + 1 then Some(FailedClosed(SequenceGap))
    else if c.pending.Some? && c.pending.value.envelopeId != e.id then Some(FailedClosed(ReplayMismatch))
    else None
  }

  function EvaluateAdmitted(ports: Ports, d: Durable, e: Envelope, budget: nat): Attempt {
    if budget == 0 then Attempt(d, Deferred, 0)
    else
      var admission, left := Admission(d.checkpoint, e), budget - 1;
      if admission.Some? then Attempt(d, admission.value, left)
      else
        var evaluation := ports.evaluate(e);
        if evaluation.None? then Attempt(d, FailedClosed(EvaluationFailed), left)
        else if d.checkpoint.pending.Some? && d.checkpoint.pending.value.evaluationId != evaluation.value.evaluationId then
          Attempt(d, FailedClosed(ReplayMismatch), left)
        else
          var prepared := Prepare(d.checkpoint, ProgressFor(e, evaluation.value));
          if prepared.Err? then Attempt(d, FailedClosed(CheckpointFailed), left)
          else if left == 0 then Attempt(d, Deferred, 0)
          else RecordEvidence(ports, d.(checkpoint := prepared.value), e, evaluation.value, left - 1)
  }

  /** With the evaluation prepared: ledger event (if any), journal record, completed checkpoint. */
  function RecordEvidence(ports: Ports, d: Durable, e: Envelope, evaluation: Evaluation, budget: nat): Attempt {
    var listed := evaluation.event.Some? && exists i :: 0 <= i < |d.ledger| && d.ledger[i].eventId == evaluation.event.value;
    var operations := if evaluation.event.None? then 0 else if listed then 1 else 2;
    if budget < operations then Attempt(d, Deferred, 0)
    else
      var d1 := if operations == 2 then d.(ledger := LedgerAppend(d.ledger, LedgerRecord(ports.identity, evaluation.event.value))) else d;
      var left := budget - operations;
      var journaled := JournalAppend(d1.journal, RecordFor(ports, e, evaluation));
      if journaled.Err? then Attempt(d1, FailedClosed(JournalDivergence), left)
      else if left == 0 then Attempt(d1, Deferred, 0)
      else
        var d2 := d1.(journal := journaled.value);
        var completed := Complete(d2.checkpoint);
        if completed.Err? || left == 1 then Attempt(d2, Deferred, 0)
        else Attempt(d2.(checkpoint := completed.value), Done, left - 2)
  }

  datatype CycleOutcome = Exhausted | Rejected | Cycled(evaluated: Evaluated, acknowledged: bool)

  /** Publish (or present again) the next frame, evaluate it, and acknowledge it last. */
  function Cycle(ports: Ports, d: Durable, budget: nat): (Durable, CycleOutcome) {
    var replayed := d.published == Some(d.next);
    if !replayed && budget == 0 then (d, Rejected)
    else
      var d1 := d.(published := Some(d.next));
      var attempt := EvaluateAdmitted(ports, d1, ports.envelopeOf(d.next), if replayed then budget else budget - 1);
      if attempt.outcome.Deferred? || attempt.outcome.FailedClosed? || attempt.left == 0 then
        (attempt.durable, Cycled(attempt.outcome, false))
      else (attempt.durable.(next := attempt.durable.next + 1), Cycled(attempt.outcome, true))
  }
}
