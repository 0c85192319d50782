/** The runtime object: lifecycle fields, durable stores that may go away at any operation, one cycle at a time. */
module AgentRuntimes {
  import opened Common
  import opened AgentEvaluations
  import opened AgentCrashSafety

  datatype SaveResult = Saved | Conflict | Unavailable

  /** The stores that survive a crash; `operations` says how many more of them succeed before the outage. */
  class Stores {
    var next: nat
    var published: Option<nat>
    var checkpoint: Checkpoint
    var ledger: seq<LedgerRecord>
    var journal: seq<EvaluationRecord>
    var operations: nat

    function Contents(): Durable
      reads this
    {
      Durable(next, published, checkpoint, ledger, journal)
    }

    constructor (ports: Ports, operations: nat)
      ensures Contents() == Fresh(ports) && this.operations == operations
    {
      next, published, checkpoint, ledger, journal := ports.first, None, INITIAL, [], [];
      this.operations := operations;
    }

    method Spend() returns (available: bool)
      modifies this`operations
      ensures available == (old(operations) > 0)
      ensures operations == if available then old(operations) - 1 else 0
    {
      available := operations > 0;
      if available { operations := operations - 1; }
    }

    /** Atomically save only when the current checkpoint still equals the expected one. */
    method CompareAndSave(expected: Checkpoint, updated: Checkpoint) returns (result: SaveResult)
      modifies this`checkpoint, this`operations
      ensures old(operations) == 0 ==> result == Unavailable && checkpoint == old(checkpoint) && operations == 0
      ensures old(operations) > 0 ==> operations == old(operations) - 1
      ensures old(operations) > 0 && old(checkpoint) == expected ==> result == Saved && checkpoint == updated
      ensures old(operations) > 0 && old(checkpoint) != expected ==> result == Conflict && checkpoint == old(checkpoint)
    {
      var available := Spend();
      if !available { return Unavailable; }
      if checkpoint != expected { return Conflict; }
      checkpoint := updated;
      result := Saved;
    }
  }

  /** The real source, its acknowledgement held back until the evaluation is complete. */
  class DeferredAcknowledgement {
    const stores: Stores
    var pending: Option<nat>

    constructor (stores: Stores)
      ensures this.stores == stores && pending.None?
    {
      this.stores, pending := stores, None;
    }

    method Acknowledge(sequence: nat) returns (accepted: bool)
      modifies this`pending
      ensures accepted == old(pending).None?
      ensures pending == if accepted then Some(sequence) else old(pending)
    {
      accepted := pending.None?;
      if accepted { pending := Some(sequence); }
    }

    method Reset()
      modifies this`pending
      ensures pending.None?
    {
      pending := None;
    }

    /** Delegate the held acknowledgement; on an outage it stays held and the frame is redelivered. */
    method Commit() returns (committed: Committed)
      modifies this`pending, stores`next, stores`operations
      ensures committed == if old(pending).None? then NothingHeld
                           else if old(stores.operations) > 0 then Delegated(old(pending).value) else SourceAway
      ensures stores.next == if committed.Delegated? then committed.sequence + 1 else old(stores.next)
      ensures pending == if committed.SourceAway? then old(pending) else None
      ensures stores.operations == if committed.Delegated? then old(stores.operations) - 1 else old(stores.operations)
    {
      if pending.None? { return NothingHeld; }
      var available := stores.Spend();
      if !available { return SourceAway; }
      committed := Delegated(pending.value);
      stores.next := pending.value + 1;
      pending := None;
    }
  }

  /** What holding an acknowledgement back comes to: nothing was held, the source took it, or the source is away. */
  datatype Committed = NothingHeld | Delegated(sequence: nat) | SourceAway

  datatype RuntimeState = Created | Running | Failed | Stopped

  /** Why a cycle or a recovery raises: it may not run, the stores are away, or it failed closed. */
  datatype RuntimeError = NotRunnable | RecoveryUnavailable | Incident(incident: Incident)

  /** What the source answers when asked for the next frame. */
  datatype SourceAnswer = Delivers | NothingLeft | Away

  /** A cycle as the source answers it: without a frame the stores stay as they are. */
  function AnsweredCycle(ports: Ports, d: Durable, budget: nat, answer: SourceAnswer): (Durable, CycleOutcome) {
    match answer
    case NothingLeft => (d, Exhausted)
    case Away => (d, Rejected)
    case Delivers => Cycle(ports, d, budget)
  }

  /** Whatever the source answers, the stores are left as some cycle of a crash-safe run leaves them. */
  lemma AnsweredCycleIsACycle(ports: Ports, d: Durable, budget: nat, answer: SourceAnswer)
    ensures exists operations: nat :: AnsweredCycle(ports, d, budget, answer).0 == Cycle(ports, d, operations).0
  {
    NothingWithoutOperations(ports, d);
    var operations := if answer.Delivers? then budget else 0;
    assert AnsweredCycle(ports, d, budget, answer).0 == Cycle(ports, d, operations).0;
  }

  class AgentRuntime {
    const ports: Ports
    const stores: Stores
    const source: DeferredAcknowledgement
    var state: RuntimeState
    var recovered: bool
    var degraded: bool
    var sourceExhausted: bool
    var cyclesCompleted: nat
    var evaluationsCompleted: nat
    var incident: Option<Incident>

    constructor (ports: Ports, stores: Stores)
      ensures this.ports == ports && this.stores == stores && fresh(source) && source.stores == stores
      ensures state == Created && !recovered && cyclesCompleted == 0 && incident.None?
    {
      this.ports, this.stores := ports, stores;
      state, recovered, degraded, sourceExhausted := Created, false, false, false;
      cyclesCompleted, evaluationsCompleted, incident := 0, 0, None;
      source := new DeferredAcknowledgement(stores);
    }

    method RequestStop()
      modifies this`state
      ensures state == if old(state) == Failed then Failed else Stopped
    {
      if state != Failed { state := Stopped; }
    }

    method FailClosed(cause: Incident)
      modifies this`state, this`incident, this`degraded
      ensures state == Failed && incident == Some(cause) && degraded
    {
      state, incident, degraded := Failed, Some(cause), true;
    }

    /** Reconcile the stores, reading only: recovered, failed closed for good, or put off by an outage. */
    method RecoverStores(readable: bool) returns (report: Result<RecoveryReport, RuntimeError>)
      modifies this`state, this`recovered, this`incident, this`degraded
      ensures old(state) == Failed || old(state) == Stopped ==>
                report == Err(NotRunnable) && state == old(state) && recovered == old(recovered) && incident == old(incident)
      ensures old(state) == Created || old(state) == Running ==>
                if !readable then
                  report == Err(RecoveryUnavailable) && state == old(state) && recovered == old(recovered) && incident == old(incident) && degraded
                else match Recover(ports, stores.Contents())
                     case Ok(found) => report == Ok(found) && recovered && state == old(state) && incident == old(incident) && degraded == old(degraded)
                     case Err(cause) => report == Err(Incident(cause)) && state == Failed && incident == Some(cause) && recovered == old(recovered)
    {
      if state == Failed || state == Stopped { return Err(NotRunnable); }
      if !readable {
        degraded := true;
        return Err(RecoveryUnavailable);
      }
      var found := Recover(ports, stores.Contents());
      if found.Err? {
        FailClosed(found.error);
        return Err(Incident(found.error));
      }
      recovered := true;
      report := Ok(found.value);
    }

    /** Append an event unless the ledger lists it: one operation to look, one more to write. */
    method AppendLedger(event: string) returns (available: bool)
      modifies stores`ledger, stores`operations
      ensures available == (old(stores.operations) >= if Listed(old(stores.ledger), event) then 1 else 2)
      ensures stores.operations == if !available then 0 else old(stores.operations) - (if Listed(old(stores.ledger), event) then 1 else 2)
      ensures stores.ledger == if available then LedgerAppend(old(stores.ledger), LedgerRecord(ports.identity, event)) else old(stores.ledger)
    {
      available := stores.Spend();
      if !available || Listed(stores.ledger, event) { return; }
      available := stores.Spend();
      if available { stores.ledger := stores.ledger + [LedgerRecord(ports.identity, event)]; }
    }

    /** Ledger event, journal record, completed checkpoint, in that order. */
    method RecordEvaluation(e: Envelope, evaluation: Evaluation) returns (outcome: Evaluated)
      requires stores.checkpoint.pending.Some?
      modifies stores`ledger, stores`journal, stores`checkpoint, stores`operations
      ensures var a := RecordEvidence(ports, old(stores.Contents()), e, evaluation, old(stores.operations));
              stores.Contents() == a.durable && outcome == a.outcome && stores.operations == a.left
    {
      hide JournalAppend;
      if evaluation.event.Some? {
        var available := AppendLedger(evaluation.event.value);
        if !available { return Deferred; }
      }
      var journaled := JournalAppend(stores.journal, RecordFor(ports, e, evaluation));
      if journaled.Err? { return FailedClosed(JournalDivergence); }
      var writable := stores.Spend();
      if !writable { return Deferred; }
      stores.journal := journaled.value;
      var saved := stores.CompareAndSave(stores.checkpoint, Complete(stores.checkpoint).value);
      if saved != Saved { return Deferred; }
      outcome := Done;
    }

    /** The evaluation lifecycle of one admitted envelope. */
    method Evaluate(e: Envelope) returns (outcome: Evaluated)
      modifies stores`ledger, stores`journal, stores`checkpoint, stores`operations
      ensures var a := EvaluateAdmitted(ports, old(stores.Contents()), e, old(stores.operations));
              stores.Contents() == a.durable && outcome == a.outcome && stores.operations == a.left
    {
      var readable := stores.Spend();
      if !readable { return Deferred; }
      var checkpoint := stores.checkpoint;
      var admission := Admission(checkpoint, e);
      if admission.Some? { return admission.value; }
      var evaluation := ports.evaluate(e);
      if evaluation.None? { return FailedClosed(EvaluationFailed); }
      if checkpoint.pending.Some? && checkpoint.pending.value.evaluationId != evaluation.value.evaluationId {
        return FailedClosed(ReplayMismatch);
      }
      var prepared := Prepare(checkpoint, ProgressFor(e, evaluation.value));
      if prepared.Err? { return FailedClosed(CheckpointFailed); }
      var saved := stores.CompareAndSave(checkpoint, prepared.value);
      if saved != Saved { return Deferred; }
      hide RecordEvidence;
      outcome := RecordEvaluation(e, evaluation.value);
    }

    /** One bounded cycle: recover once, or go on through an outage of the recovery; publish, evaluate, acknowledge last. */
    method RunOnce(readable: bool, answer: SourceAnswer) returns (outcome: Result<CycleOutcome, RuntimeError>)
      requires source.stores == stores
      modifies this, source, stores
      ensures old(state) == Failed || old(state) == Stopped ==>
                outcome == Err(NotRunnable) && stores.Contents() == old(stores.Contents()) && state == old(state)
      ensures (old(state) == Created || old(state) == Running) && !old(recovered) && readable && Recover(ports, old(stores.Contents())).Err? ==>
                && outcome == Err(Incident(Recover(ports, old(stores.Contents())).error))
                && state == Failed && stores.Contents() == old(stores.Contents())
      ensures (old(state) == Created || old(state) == Running) && (old(recovered) || !readable || Recover(ports, old(stores.Contents())).Ok?) ==>
                && recovered == (old(recovered) || readable)
                && var (after, cycled) := AnsweredCycle(ports, old(stores.Contents()), old(stores.operations), answer);
                && stores.Contents() == after
                && (if cycled.Cycled? && cycled.evaluated.FailedClosed?
                    then outcome == Err(Incident(cycled.evaluated.incident)) && state == Failed
                    else outcome == Ok(cycled) && state == Running && cyclesCompleted == old(cyclesCompleted) + 1)
    {
      if state == Failed || state == Stopped { return Err(NotRunnable); }
      hide Recover, AnsweredCycle;
      if !recovered {
        var report := RecoverStores(readable);
        if report.Err? && report.error.Incident? { return Err(report.error); }
      }
      outcome := OneCycle(answer);
    }

    /** The cycle itself, whatever the source answers. */
    method OneCycle(answer: SourceAnswer) returns (outcome: Result<CycleOutcome, RuntimeError>)
      requires source.stores == stores
      modifies this`state, this`cyclesCompleted, this`evaluationsCompleted, this`degraded, this`sourceExhausted, this`incident, source, stores
      ensures var (after, cycled) := AnsweredCycle(ports, old(stores.Contents()), old(stores.operations), answer);
              && stores.Contents() == after
              && (if cycled.Cycled? && cycled.evaluated.FailedClosed?
                  then outcome == Err(Incident(cycled.evaluated.incident)) && state == Failed
                  else outcome == Ok(cycled) && state == Running && cyclesCompleted == old(cyclesCompleted) + 1)
      ensures sourceExhausted == if answer.Away? then old(sourceExhausted) else answer.NothingLeft?
    {
      hide EvaluateAdmitted;
      state := Running;
      if answer.NothingLeft? {
        sourceExhausted, cyclesCompleted := true, cyclesCompleted + 1;
        return Ok(Exhausted);
      }
      if answer.Away? {
        cyclesCompleted, degraded := cyclesCompleted + 1, true;
        return Ok(Rejected);
      }
      sourceExhausted := false;
      source.Reset();
      var next := stores.next;
      if stores.published != Some(next) {
        var available := stores.Spend();
        if !available {
          cyclesCompleted, degraded := cyclesCompleted + 1, true;
          return Ok(Rejected);
        }
        stores.published := Some(next);
      }
      var held := source.Acknowledge(next);
      var evaluated := Evaluate(ports.envelopeOf(next));
      if evaluated.FailedClosed? {
        FailClosed(evaluated.incident);
        return Err(Incident(evaluated.incident));
      }
      outcome := Conclude(evaluated);
    }

    /** The end of a cycle that was not refused: acknowledge unless the evaluation was deferred. */
    method Conclude(evaluated: Evaluated) returns (outcome: Result<CycleOutcome, RuntimeError>)
      requires source.stores == stores && source.pending.Some? && state == Running && !evaluated.FailedClosed?
      modifies this`cyclesCompleted, this`evaluationsCompleted, this`degraded, source`pending, stores`next, stores`operations
      ensures cyclesCompleted == old(cyclesCompleted) + 1
      ensures var acknowledges := !evaluated.Deferred? && old(stores.operations) > 0;
              && outcome == Ok(Cycled(evaluated, acknowledges))
              && stores.next == if acknowledges then old(source.pending).value + 1 else old(stores.next)
    {
      cyclesCompleted := cyclesCompleted + 1;
      if evaluated.Deferred? {
        degraded := true;
        return Ok(Cycled(evaluated, false));
      }
      var committed := source.Commit();
      degraded := committed.SourceAway?;
      if evaluated.Done? { evaluationsCompleted := evaluationsCompleted + 1; }
      outcome := Ok(Cycled(evaluated, !committed.SourceAway?));
    }
  }
}
