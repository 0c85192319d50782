/** What the runtime refuses: stores that disagree at recovery, and envelopes other than the one the checkpoint expects. */
module AgentGuards {
  import opened Common
  import opened AgentEvaluations

  // -- what the checkpoint admits

  /** Preparing is refused exactly if it would replace another pending evaluation or leave a gap after the last completed one. */
  lemma PrepareExactly(c: Checkpoint, p: Progress)
    requires WellFormed(c)
    ensures Prepare(c, p).Ok? <==> (c.pending.Some? ==> c.pending.value == p) && WellFormed(Checkpoint(c.last, c.lastAttempts, Some(p), 0))
    ensures Prepare(c, p).Ok? ==> Prepare(c, p).value == Checkpoint(c.last, c.lastAttempts, Some(p), if c.pending.Some? then c.pendingAttempts + 1 else 0)
  {
  }

  /** Completing needs something pending; what was prepared then stands as the last evaluation, with its attempts. */
  lemma CompleteExactly(c: Checkpoint)
    requires WellFormed(c)
    ensures Complete(c).Ok? <==> c.pending.Some?
    ensures Complete(c).Ok? ==> WellFormed(Complete(c).value) && Complete(c).value.pending.None?
    ensures forall p :: Prepare(c, p).Ok? ==> Complete(Prepare(c, p).value).Ok? && Complete(Prepare(c, p).value).value.last == Some(p)
  {
  }

  // -- recovery, told from the stores

  /** Consecutive sequences, as a verified journal holds them. */
  predicate Contiguous(journal: seq<EvaluationRecord>) {
    forall i, j :: 0 <= i <= j < |journal| ==> journal[j].sequence - journal[i].sequence == j - i
  }

  predicate OwnRecords(ports: Ports, journal: seq<EvaluationRecord>) { forall r :: r in journal ==> r.identity == ports.identity }

  predicate OwnEvents(ports: Ports, ledger: seq<LedgerRecord>) { forall r :: r in ledger ==> r.identity == ports.identity }

  /** What was evaluated last is the frame published last or the one before; what is pending is the one published last. */
  predicate Aligned(published: Option<nat>, c: Checkpoint) {
    published.Some? ==>
      && (c.last.Some? ==> c.last.value.sequence == published.value || c.last.value.sequence + 1 == published.value)
      && (c.pending.Some? ==> c.pending.value.sequence == published.value)
  }

  /** No record goes beyond the evaluation under way, or else the last one; and the last completed evaluation has its record. */
  ghost predicate Covered(journal: seq<EvaluationRecord>, c: Checkpoint) {
    && (forall r :: r in journal ==>
          if c.pending.Some? then r.sequence <= c.pending.value.sequence else c.last.Some? && r.sequence <= c.last.value.sequence)
    && (c.last.Some? ==> exists r :: r in journal && r.sequence == c.last.value.sequence && r.evaluationId == c.last.value.evaluationId)
  }

  /** Each verdict of a recovery, in the order of the checks. */
  ghost predicate RecoveryTold(ports: Ports, d: Durable, verdict: Result<RecoveryReport, Incident>) {
    var c := d.checkpoint;
    if !OwnRecords(ports, d.journal) then verdict == Err(JournalIdentityMismatch)
    else if !OwnEvents(ports, d.ledger) then verdict == Err(LedgerIdentityMismatch)
    else if !Aligned(d.published, c) then verdict == Err(CheckpointDivergence)
    else if !Covered(d.journal, c) then verdict == Err(JournalDivergence)
    else
      verdict == Ok(RecoveryReport(if c.pending.Some? then Some(c.pending.value.sequence) else None, d.published,
                                   if c.last.Some? then Some(c.last.value.sequence) else None, |d.journal|))
  }

  lemma {:induction false} StoredMeaning(journal: seq<EvaluationRecord>, sequence: nat)
    ensures StoredFor(journal, sequence).Some? ==> StoredFor(journal, sequence).value in journal && StoredFor(journal, sequence).value.sequence == sequence
    ensures StoredFor(journal, sequence).None? ==> forall r :: r in journal ==> r.sequence != sequence
    decreases |journal|
  {
    if journal != [] {
      StoredMeaning(journal[..|journal| - 1], sequence);
      assert forall r :: r in journal <==> r == journal[|journal| - 1] || r in journal[..|journal| - 1];
    }
  }

  lemma StoredIsOnly(journal: seq<EvaluationRecord>, r: EvaluationRecord)
    requires Contiguous(journal) && r in journal
    ensures StoredFor(journal, r.sequence) == Some(r)
  {
    StoredMeaning(journal, r.sequence);
    var stored := StoredFor(journal, r.sequence).value;
    var i :| 0 <= i < |journal| && journal[i] == r;
    var j :| 0 <= j < |journal| && journal[j] == stored;
    assert i <= j || j <= i;
  }

  /** The newest record bounds them all. */
  lemma NewestBounds(journal: seq<EvaluationRecord>, bound: Option<nat>)
    requires Contiguous(journal)
    ensures (journal != [] && (bound.None? || journal[|journal| - 1].sequence > bound.value)) <==>
              !(forall r :: r in journal ==> bound.Some? && r.sequence <= bound.value)
  {
    if journal != [] {
      var newest := journal[|journal| - 1];
      assert newest in journal;
      forall r | r in journal ensures r.sequence <= newest.sequence {
        var i :| 0 <= i < |journal| && journal[i] == r;
        assert journal[|journal| - 1].sequence - journal[i].sequence == |journal| - 1 - i;
      }
    }
  }

  lemma IdentityMeaning(ports: Ports, d: Durable)
    ensures OwnRecords(ports, d.journal) <==> !exists i :: 0 <= i < |d.journal| && d.journal[i].identity != ports.identity
    ensures OwnEvents(ports, d.ledger) <==> !exists i :: 0 <= i < |d.ledger| && d.ledger[i].identity != ports.identity
  {
  }

  lemma CoverageMeaning(d: Durable)
    requires Contiguous(d.journal)
    ensures var last, pending := SequenceOf(d.checkpoint.last), SequenceOf(d.checkpoint.pending);
            var bound := if pending.Some? then pending else last;
            var completed := if last.Some? then StoredFor(d.journal, last.value) else None;
            Covered(d.journal, d.checkpoint) <==>
              && !(d.journal != [] && (bound.None? || d.journal[|d.journal| - 1].sequence > bound.value))
              && !(last.Some? && (completed.None? || completed.value.evaluationId != d.checkpoint.last.value.evaluationId))
  {
    var c := d.checkpoint;
    var last, pending := SequenceOf(c.last), SequenceOf(c.pending);
    NewestBounds(d.journal, if pending.Some? then pending else last);
    if last.Some? {
      StoredMeaning(d.journal, last.value);
      forall r | r in d.journal && r.sequence == last.value ensures StoredFor(d.journal, last.value) == Some(r) { StoredIsOnly(d.journal, r); }
    }
    hide StoredFor, Contiguous;
  }

  /** Recovery of any stores whose journal verified: every verdict exactly when its disagreement is the first. */
  lemma RecoverExactly(ports: Ports, d: Durable)
    requires Contiguous(d.journal)
    ensures RecoveryTold(ports, d, Recover(ports, d))
  {
    IdentityMeaning(ports, d);
    CoverageMeaning(d);
    hide OwnRecords, OwnEvents, Covered, StoredFor, Contiguous;
  }

  // -- one envelope

  /** The evaluation is the one that is next: it is pending just so, or nothing is pending and its sequence comes next. */
  predicate Expected(c: Checkpoint, e: Envelope, evaluationId: string) {
    && (c.last.Some? ==> c.last.value.sequence != e.sequence)
    && (if c.pending.Some? then c.pending.value == Progress(e.sequence, e.observedAt, e.id, evaluationId)
        else c.last.Some? ==> e.sequence == c.last.value.sequence + 1)
  }

  /** Why the envelope goes no further, if it does not. */
  predicate Stopped(ports: Ports, c: Checkpoint, e: Envelope, outcome: Evaluated) {
    if c.last.Some? && c.last.value.sequence == e.sequence then
      outcome == if c.last.value.envelopeId == e.id then ReplaySkipped else FailedClosed(ReplayMismatch)
    else if c.pending.Some? && (c.pending.value.sequence != e.sequence || c.pending.value.envelopeId != e.id) then
      outcome == FailedClosed(ReplayMismatch)
    else if c.pending.None? && c.last.Some? && e.sequence != c.last.value.sequence + 1 then outcome == FailedClosed(SequenceGap)
    else
      var evaluation := ports.evaluate(e);
      if evaluation.None? then outcome == FailedClosed(EvaluationFailed)
      else if c.pending.Some? && c.pending.value.evaluationId != evaluation.value.evaluationId then outcome == FailedClosed(ReplayMismatch)
      else c.pending.Some? && c.pending.value.observedAt != e.observedAt && outcome == FailedClosed(CheckpointFailed)
  }

  /** An envelope that is not the expected one, or whose evaluation is not, changes no store, and each cause has its own answer. */
  lemma UnexpectedStops(ports: Ports, d: Durable, e: Envelope, budget: nat)
    requires budget > 0 && !(ports.evaluate(e).Some? && Expected(d.checkpoint, e, ports.evaluate(e).value.evaluationId))
    ensures var a := EvaluateAdmitted(ports, d, e, budget); a.durable == d && a.left == budget - 1 && Stopped(ports, d.checkpoint, e, a.outcome)
  {
    hide RecordEvidence;
  }

  /** The journal as it must be after the expected evaluation: as before if it holds the record, else with the record at its end. */
  predicate JournalFits(journal: seq<EvaluationRecord>, r: EvaluationRecord) {
    if exists held :: held in journal && held.sequence == r.sequence
    then forall held :: held in journal && held.sequence == r.sequence ==> held.evaluationId == r.evaluationId
    else journal == [] || (journal[|journal| - 1].identity == r.identity && journal[|journal| - 1].sequence + 1 == r.sequence)
  }

  lemma AppendMeaning(journal: seq<EvaluationRecord>, r: EvaluationRecord)
    requires Contiguous(journal)
    ensures JournalAppend(journal, r).Ok? <==> JournalFits(journal, r)
    ensures JournalAppend(journal, r).Ok? ==>
              JournalAppend(journal, r).value == if exists held :: held in journal && held.sequence == r.sequence then journal else journal + [r]
  {
    StoredMeaning(journal, r.sequence);
    forall held | held in journal && held.sequence == r.sequence ensures StoredFor(journal, r.sequence) == Some(held) { StoredIsOnly(journal, held); }
    hide StoredFor, Contiguous;
  }

  /** With operations enough, the expected envelope is evaluated, listed, journaled and completed, exactly if its record fits the journal. */
  lemma {:induction false} ExpectedIsDone(ports: Ports, d: Durable, e: Envelope, budget: nat)
    requires Contiguous(d.journal) && budget >= 6
    requires ports.evaluate(e).Some? && Expected(d.checkpoint, e, ports.evaluate(e).value.evaluationId)
    ensures var evaluation := ports.evaluate(e).value;
            var r := EvaluationRecord(ports.identity, e.sequence, e.id, e.observedAt, evaluation.evaluationId);
            var a := EvaluateAdmitted(ports, d, e, budget);
            && (evaluation.event.Some? ==> exists l :: l in a.durable.ledger && l.eventId == evaluation.event.value)
            && a.durable.ledger in {d.ledger, d.ledger + [LedgerRecord(ports.identity, evaluation.event.GetOr(""))]}
            && (if JournalFits(d.journal, r)
                then && a.outcome == Done
                     && a.durable.journal == (if exists held :: held in d.journal && held.sequence == r.sequence then d.journal else d.journal + [r])
                     && a.durable.checkpoint.last == Some(Progress(e.sequence, e.observedAt, e.id, evaluation.evaluationId))
                     && a.durable.checkpoint.pending.None?
                else a.outcome == FailedClosed(JournalDivergence) && a.durable.journal == d.journal && a.durable.checkpoint.last == d.checkpoint.last)
  {
    var evaluation := ports.evaluate(e).value;
    var r := EvaluationRecord(ports.identity, e.sequence, e.id, e.observedAt, evaluation.evaluationId);
    AppendMeaning(d.journal, r);
    ExpectedPrepares(ports, d, e, budget);
    hide JournalFits, JournalAppend, Contiguous, EvaluateAdmitted, Prepare;
    var prepared := Prepare(d.checkpoint, ProgressFor(e, evaluation)).value;
    EvidenceRecorded(ports, d.(checkpoint := prepared), e, evaluation, budget - 2);
  }

  lemma ExpectedPrepares(ports: Ports, d: Durable, e: Envelope, budget: nat)
    requires budget >= 2 && ports.evaluate(e).Some? && Expected(d.checkpoint, e, ports.evaluate(e).value.evaluationId)
    ensures var evaluation := ports.evaluate(e).value;
            var prepared := Prepare(d.checkpoint, ProgressFor(e, evaluation));
            && prepared.Ok? && prepared.value.last == d.checkpoint.last
            && prepared.value.pending == Some(Progress(e.sequence, e.observedAt, e.id, evaluation.evaluationId))
            && EvaluateAdmitted(ports, d, e, budget) == RecordEvidence(ports, d.(checkpoint := prepared.value), e, evaluation, budget - 2)
  {
    hide RecordEvidence;
  }

  lemma EvidenceRecorded(ports: Ports, d: Durable, e: Envelope, evaluation: Evaluation, budget: nat)
    requires budget >= 4 && d.checkpoint.pending.Some?
    ensures var a := RecordEvidence(ports, d, e, evaluation, budget);
            var journaled := JournalAppend(d.journal, EvaluationRecord(ports.identity, e.sequence, e.id, e.observedAt, evaluation.evaluationId));
            && (evaluation.event.Some? ==> exists l :: l in a.durable.ledger && l.eventId == evaluation.event.value)
            && a.durable.ledger in {d.ledger, d.ledger + [LedgerRecord(ports.identity, evaluation.event.GetOr(""))]}
            && (if journaled.Ok? then a.outcome == Done && a.durable.journal == journaled.value
                                      && a.durable.checkpoint.last == d.checkpoint.pending && a.durable.checkpoint.pending.None?
                else a.outcome == FailedClosed(JournalDivergence) && a.durable.journal == d.journal && a.durable.checkpoint == d.checkpoint)
  {
    hide JournalAppend;
    var a := RecordEvidence(ports, d, e, evaluation, budget);
    if evaluation.event.Some? {
      var l := LedgerRecord(ports.identity, evaluation.event.value);
      if exists i :: 0 <= i < |d.ledger| && d.ledger[i].eventId == l.eventId {
        var i :| 0 <= i < |d.ledger| && d.ledger[i].eventId == l.eventId;
        assert d.ledger[i] in a.durable.ledger;
      } else {
        assert a.durable.ledger == d.ledger + [l];
        assert l in a.durable.ledger;
      }
    }
  }
}
