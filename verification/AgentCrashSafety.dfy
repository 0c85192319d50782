/** Crash safety of the evaluation lifecycle: any outage or crash between any two store operations. */
module AgentCrashSafety {
  import opened Common
  import opened AgentEvaluations

  /** The Site Runtime redelivers one envelope per sequence, and the evaluator never raises. */
  ghost predicate Dependable(ports: Ports) {
    forall s: nat {:trigger ports.envelopeOf(s)} :: ports.envelopeOf(s).sequence == s && ports.evaluate(ports.envelopeOf(s)).Some?
  }

  function EvaluationOf(ports: Ports, s: nat): Evaluation {
    ports.evaluate(ports.envelopeOf(s)).GetOr(Evaluation("", None))
  }

  function RecordOf(ports: Ports, s: nat): EvaluationRecord { RecordFor(ports, ports.envelopeOf(s), EvaluationOf(ports, s)) }

  function ProgressOf(ports: Ports, s: nat): Progress { ProgressFor(ports.envelopeOf(s), EvaluationOf(ports, s)) }

  /** The journal is the records of consecutive sequences from the first. */
  ghost predicate JournalIs(ports: Ports, journal: seq<EvaluationRecord>) {
    forall i :: 0 <= i < |journal| ==> journal[i] == RecordOf(ports, ports.first + i)
  }

  predicate Listed(ledger: seq<LedgerRecord>, event: string) { exists i :: 0 <= i < |ledger| && ledger[i].eventId == event }

  /** The recommendation made for a sequence, if one was made, is in the ledger. */
  predicate Ledgered(ports: Ports, ledger: seq<LedgerRecord>, s: nat) {
    EvaluationOf(ports, s).event.Some? ==> Listed(ledger, EvaluationOf(ports, s).event.value)
  }

  /** Every journaled recommendation is in the ledger, and no event is there twice. */
  ghost predicate LedgerIs(ports: Ports, d: Durable) {
    && (forall i :: 0 <= i < |d.ledger| ==> d.ledger[i].identity == ports.identity)
    && (forall i, j :: 0 <= i < j < |d.ledger| ==> d.ledger[i].eventId != d.ledger[j].eventId)
    && (forall s: nat :: ports.first <= s < ports.first + |d.journal| ==> Ledgered(ports, d.ledger, s))
  }

  /** Where the lifecycle of the next frame stands, told from the checkpoint. */
  ghost predicate CheckpointIs(ports: Ports, d: Durable) {
    var c := d.checkpoint;
    var done := d.next - ports.first;
    && WellFormed(c)
    && (d.next > ports.first ==> c.last.Some?)
    && (c.last.Some? ==> c.last.value == ProgressOf(ports, c.last.value.sequence))
    && (c.pending.Some? ==> c.pending.value == ProgressOf(ports, d.next) && d.published == Some(d.next))
    && (if c.last.Some? && c.last.value.sequence == d.next
        then c.pending.None? && d.published == Some(d.next) && |d.journal| == done + 1
        else (c.last.Some? ==> d.next > ports.first && c.last.value.sequence == d.next - 1)
             && (if c.pending.Some? then done <= |d.journal| <= done + 1 else |d.journal| == done))
  }

  ghost predicate Consistent(ports: Ports, d: Durable) {
    && d.next >= ports.first
    && (d.published.None? ==> d.next == ports.first && d.checkpoint == INITIAL)
    && (d.published.Some? ==> d.published.value == d.next || (d.next > ports.first && d.published.value == d.next - 1))
    && JournalIs(ports, d.journal) && CheckpointIs(ports, d) && LedgerIs(ports, d)
  }

  lemma FreshConsistent(ports: Ports)
    ensures Consistent(ports, Fresh(ports))
  {
  }

  // -- the journal

  lemma {:induction false} StoredAt(ports: Ports, journal: seq<EvaluationRecord>, s: nat)
    requires Dependable(ports) && JournalIs(ports, journal)
    ensures StoredFor(journal, s) == if ports.first <= s < ports.first + |journal| then Some(RecordOf(ports, s)) else None
    decreases |journal|
  {
    if journal != [] {
      var front := journal[..|journal| - 1];
      assert journal[|front|] == RecordOf(ports, ports.first + |front|);
      assert ports.envelopeOf(ports.first + |front|).sequence == ports.first + |front|;
      StoredAt(ports, front, s);
    }
  }

  lemma NextRecordAppends(ports: Ports, journal: seq<EvaluationRecord>, s: nat)
    requires Dependable(ports) && JournalIs(ports, journal)
    requires ports.first + |journal| == s || (journal != [] && ports.first + |journal| == s + 1)
    ensures JournalAppend(journal, RecordOf(ports, s)) == Ok(if ports.first + |journal| == s then journal + [RecordOf(ports, s)] else journal)
  {
    StoredAt(ports, journal, s);
    assert ports.envelopeOf(s).sequence == s;
    if journal != [] {
      assert journal[|journal| - 1] == RecordOf(ports, ports.first + |journal| - 1);
      assert ports.envelopeOf(ports.first + |journal| - 1).sequence == ports.first + |journal| - 1;
    }
    hide StoredFor;
  }

  // -- one evaluation attempt

  /** The frame is published; its evaluation may be anywhere in its lifecycle. */
  ghost predicate Admitted(ports: Ports, d: Durable) { Consistent(ports, d) && d.published == Some(d.next) }

  lemma LedgerGrows(ports: Ports, d: Durable, event: string)
    requires LedgerIs(ports, d)
    ensures LedgerIs(ports, d.(ledger := LedgerAppend(d.ledger, LedgerRecord(ports.identity, event))))
    ensures Listed(LedgerAppend(d.ledger, LedgerRecord(ports.identity, event)), event)
    ensures Listed(d.ledger, event) ==> LedgerAppend(d.ledger, LedgerRecord(ports.identity, event)) == d.ledger
  {
    var after := LedgerAppend(d.ledger, LedgerRecord(ports.identity, event));
    if !Listed(d.ledger, event) {
      assert after[|d.ledger|].eventId == event;
      forall s: nat | ports.first <= s < ports.first + |d.journal| ensures Ledgered(ports, after, s) {
        assert Ledgered(ports, d.ledger, s);
        if EvaluationOf(ports, s).event.Some? {
          var k :| 0 <= k < |d.ledger| && d.ledger[k].eventId == EvaluationOf(ports, s).event.value;
          assert after[k].eventId == EvaluationOf(ports, s).event.value;
        }
      }
    }
    hide EvaluationOf;
  }

  /** The stores after the ledger append, and after the journal append as well. */
  function WithEvent(ports: Ports, d: Durable, evaluation: Evaluation): Durable {
    if evaluation.event.Some? then d.(ledger := LedgerAppend(d.ledger, LedgerRecord(ports.identity, evaluation.event.value))) else d
  }

  function WithRecord(ports: Ports, d: Durable, e: Envelope, evaluation: Evaluation): Durable
    requires JournalAppend(d.journal, RecordFor(ports, e, evaluation)).Ok?
  {
    d.(journal := JournalAppend(d.journal, RecordFor(ports, e, evaluation)).value)
  }

  /** Evidence recording stops after no operation, after the event, after the record, or is done. */
  lemma EvidenceStages(ports: Ports, d: Durable, e: Envelope, evaluation: Evaluation, budget: nat)
    requires JournalAppend(d.journal, RecordFor(ports, e, evaluation)).Ok? && d.checkpoint.pending.Some?
    ensures var a := RecordEvidence(ports, d, e, evaluation, budget);
            var d1 := WithEvent(ports, d, evaluation);
            var d2 := WithRecord(ports, d1, e, evaluation);
            && (a.outcome.Done? || a.outcome.Deferred?)
            && (a.outcome.Deferred? ==> a.durable == d || a.durable == d1 || a.durable == d2)
            && (a.outcome.Done? ==> a.durable == d2.(checkpoint := Complete(d.checkpoint).value))
            && (budget >= 4 ==> a.outcome.Done? && a.left >= budget - 4)
  {
    hide JournalAppend;
  }

  /** Evidence recording stopped after any operation: consistent, and nothing refused. */
  lemma EvidenceKeeps(ports: Ports, d: Durable, budget: nat)
    requires Dependable(ports) && Admitted(ports, d) && d.checkpoint.pending.Some?
    ensures var a := RecordEvidence(ports, d, ports.envelopeOf(d.next), EvaluationOf(ports, d.next), budget);
            && Admitted(ports, a.durable) && a.durable.next == d.next
            && (a.outcome.Done? || a.outcome.Deferred?)
            && (a.outcome.Done? ==> a.durable.checkpoint.last == Some(ProgressOf(ports, d.next)))
            && (budget >= 4 ==> a.outcome.Done? && a.left >= budget - 4)
            && d.journal <= a.durable.journal
  {
    var e, evaluation := ports.envelopeOf(d.next), EvaluationOf(ports, d.next);
    var d1 := WithEvent(ports, d, evaluation);
    EventConsistent(ports, d);
    NextFits(ports, d);
    NextRecordAppends(ports, d.journal, d.next);
    var d2 := WithRecord(ports, d1, e, evaluation);
    EvidenceStages(ports, d, e, evaluation, budget);
    JournaledConsistent(ports, d1, d2);
    CompletedConsistent(ports, d2);
    hide RecordEvidence, Admitted, JournalAppend, LedgerAppend, EvaluationOf, ProgressOf, Ledgered, Dependable;
  }

  lemma NextFits(ports: Ports, d: Durable)
    requires Admitted(ports, d) && d.checkpoint.pending.Some?
    ensures JournalIs(ports, d.journal)
    ensures ports.first + |d.journal| == d.next || (d.journal != [] && ports.first + |d.journal| == d.next + 1)
  {
    hide JournalIs, LedgerIs, ProgressOf;
  }

  lemma EventConsistent(ports: Ports, d: Durable)
    requires Admitted(ports, d)
    ensures Admitted(ports, WithEvent(ports, d, EvaluationOf(ports, d.next)))
    ensures Ledgered(ports, WithEvent(ports, d, EvaluationOf(ports, d.next)).ledger, d.next)
  {
    var evaluation := EvaluationOf(ports, d.next);
    if evaluation.event.Some? { LedgerGrows(ports, d, evaluation.event.value); }
    hide LedgerAppend, LedgerIs, JournalIs, EvaluationOf, Listed, ProgressOf;
  }

  lemma JournaledConsistent(ports: Ports, d: Durable, after: Durable)
    requires Dependable(ports) && Admitted(ports, d) && d.checkpoint.pending.Some?
    requires Ledgered(ports, d.ledger, d.next)
    requires after == d.(journal := if ports.first + |d.journal| == d.next then d.journal + [RecordOf(ports, d.next)] else d.journal)
    ensures Admitted(ports, after) && ports.first + |after.journal| == d.next + 1
  {
    hide EvaluationOf, Ledgered;
  }

  lemma CompletedConsistent(ports: Ports, d: Durable)
    requires Dependable(ports) && Admitted(ports, d) && d.checkpoint.pending.Some? && ports.first + |d.journal| == d.next + 1
    ensures Complete(d.checkpoint).Ok?
    ensures Admitted(ports, d.(checkpoint := Complete(d.checkpoint).value))
    ensures Complete(d.checkpoint).value.last == Some(ProgressOf(ports, d.next))
  {
    assert ports.envelopeOf(d.next).sequence == d.next;
    hide EvaluationOf, Ledgered;
  }

  /** What an attempt on the next frame leaves: consistent stores, and the frame completed unless it was deferred. */
  ghost predicate Attempted(ports: Ports, d: Durable, a: Attempt) {
    && Admitted(ports, a.durable) && a.durable.next == d.next
    && !a.outcome.FailedClosed?
    && (!a.outcome.Deferred? ==> a.durable.checkpoint.last == Some(ProgressOf(ports, d.next)))
    && d.journal <= a.durable.journal
  }

  /** The frame was completed before: it is recognised and not evaluated again. */
  lemma ReplayedAttempt(ports: Ports, d: Durable, budget: nat)
    requires Dependable(ports) && Admitted(ports, d) && d.checkpoint.last.Some? && d.checkpoint.last.value.sequence == d.next
    ensures var a := EvaluateAdmitted(ports, d, ports.envelopeOf(d.next), budget);
            Attempted(ports, d, a) && (budget >= 6 ==> !a.outcome.Deferred? && a.left >= budget - 6)
  {
    assert ports.envelopeOf(d.next).sequence == d.next;
    hide RecordEvidence, JournalIs, LedgerIs, Prepare, EvaluationOf;
  }

  /** The frame is new, or its evaluation is pending. */
  lemma NewAttempt(ports: Ports, d: Durable, budget: nat)
    requires Dependable(ports) && Admitted(ports, d) && !(d.checkpoint.last.Some? && d.checkpoint.last.value.sequence == d.next)
    ensures var a := EvaluateAdmitted(ports, d, ports.envelopeOf(d.next), budget);
            Attempted(ports, d, a) && (budget >= 6 ==> !a.outcome.Deferred? && a.left >= budget - 6)
  {
    assert ports.evaluate(ports.envelopeOf(d.next)) == Some(EvaluationOf(ports, d.next));
    hide Consistent, Dependable, EvaluationOf, RecordEvidence, Admission, Prepare;
    AdmittedGoesOn(ports, d);
    PreparedConsistent(ports, d);
    if budget > 1 { EvidenceKeeps(ports, d.(checkpoint := Prepare(d.checkpoint, ProgressOf(ports, d.next)).value), budget - 2); }
  }

  /** An evaluation attempt on a published frame, with any budget. */
  lemma AttemptKeeps(ports: Ports, d: Durable, budget: nat)
    requires Dependable(ports) && Admitted(ports, d)
    ensures var a := EvaluateAdmitted(ports, d, ports.envelopeOf(d.next), budget);
            Attempted(ports, d, a) && (budget >= 6 ==> !a.outcome.Deferred? && a.left >= budget - 6)
  {
    hide Dependable, Admitted, EvaluateAdmitted, Attempted;
    if d.checkpoint.last.Some? && d.checkpoint.last.value.sequence == d.next {
      ReplayedAttempt(ports, d, budget);
    } else {
      NewAttempt(ports, d, budget);
    }
  }

  /** The next frame's envelope passes every check of the checkpoint. */
  lemma AdmittedGoesOn(ports: Ports, d: Durable)
    requires Dependable(ports) && Admitted(ports, d)
    requires !(d.checkpoint.last.Some? && d.checkpoint.last.value.sequence == d.next)
    ensures Admission(d.checkpoint, ports.envelopeOf(d.next)).None?
    ensures d.checkpoint.pending.Some? ==> d.checkpoint.pending.value.evaluationId == EvaluationOf(ports, d.next).evaluationId
  {
    assert ports.envelopeOf(d.next).sequence == d.next;
    hide JournalIs, LedgerIs, EvaluationOf;
  }

  lemma PreparedConsistent(ports: Ports, d: Durable)
    requires Dependable(ports) && Admitted(ports, d)
    requires !(d.checkpoint.last.Some? && d.checkpoint.last.value.sequence == d.next)
    ensures Prepare(d.checkpoint, ProgressOf(ports, d.next)).Ok?
    ensures var prepared := Prepare(d.checkpoint, ProgressOf(ports, d.next)).value;
            Admitted(ports, d.(checkpoint := prepared)) && prepared.pending.Some?
  {
    assert ports.envelopeOf(d.next).sequence == d.next;
    hide EvaluationOf, Ledgered;
  }

  // -- whole cycles

  /** One cycle, interrupted anywhere: the stores stay consistent and nothing fails closed. */
  lemma CycleKeeps(ports: Ports, d: Durable, budget: nat)
    requires Dependable(ports) && Consistent(ports, d)
    ensures var (after, outcome) := Cycle(ports, d, budget);
            && Consistent(ports, after)
            && !(outcome.Cycled? && outcome.evaluated.FailedClosed?)
            && after.next == (if outcome.Cycled? && outcome.acknowledged then d.next + 1 else d.next)
            && d.journal <= after.journal
            && (budget >= 8 ==> outcome.Cycled? && outcome.acknowledged)
  {
    var replayed := d.published == Some(d.next);
    if replayed || budget > 0 {
      var d1 := d.(published := Some(d.next));
      PublishedConsistent(ports, d);
      var left := if replayed then budget else budget - 1;
      AttemptKeeps(ports, d1, left);
      var a := EvaluateAdmitted(ports, d1, ports.envelopeOf(d.next), left);
      if !a.outcome.Deferred? { AcknowledgedConsistent(ports, a.durable); }
    }
    hide EvaluateAdmitted, Consistent, ProgressOf;
  }

  lemma PublishedConsistent(ports: Ports, d: Durable)
    requires Consistent(ports, d)
    ensures Admitted(ports, d.(published := Some(d.next)))
  {
    hide EvaluationOf, ProgressOf, Ledgered;
  }

  lemma AcknowledgedConsistent(ports: Ports, d: Durable)
    requires Dependable(ports) && Admitted(ports, d) && d.checkpoint.last == Some(ProgressOf(ports, d.next))
    ensures Consistent(ports, d.(next := d.next + 1))
  {
    assert ports.envelopeOf(d.next).sequence == d.next;
    hide EvaluationOf, Ledgered;
  }

  /** A cycle whose first operation already fails leaves the stores as they are. */
  lemma NothingWithoutOperations(ports: Ports, d: Durable)
    ensures Cycle(ports, d, 0).0 == d && !(Cycle(ports, d, 0).1.Cycled? && !Cycle(ports, d, 0).1.evaluated.Deferred?)
  {
  }

  /** The stores after any number of cycles, each cut off after any number of operations, by an outage or a crash. */
  function AgentRun(ports: Ports, budgets: seq<nat>): Durable {
    if budgets == [] then Fresh(ports) else Cycle(ports, AgentRun(ports, budgets[..|budgets| - 1]), budgets[|budgets| - 1]).0
  }

  lemma {:induction false} RunConsistent(ports: Ports, budgets: seq<nat>)
    requires Dependable(ports)
    ensures Consistent(ports, AgentRun(ports, budgets))
  {
    if budgets == [] {
      FreshConsistent(ports);
    } else {
      hide Consistent, Cycle;
      RunConsistent(ports, budgets[..|budgets| - 1]);
      CycleKeeps(ports, AgentRun(ports, budgets[..|budgets| - 1]), budgets[|budgets| - 1]);
    }
  }

  // -- the guarantees

  lemma JournalSequences(ports: Ports, journal: seq<EvaluationRecord>)
    requires Dependable(ports) && JournalIs(ports, journal)
    ensures forall i :: 0 <= i < |journal| ==> journal[i].sequence == ports.first + i && journal[i].identity == ports.identity
  {
    forall i | 0 <= i < |journal| ensures journal[i].sequence == ports.first + i && journal[i].identity == ports.identity {
      assert journal[i] == RecordOf(ports, ports.first + i);
      assert ports.envelopeOf(ports.first + i).sequence == ports.first + i;
    }
    hide EvaluationOf;
  }

  lemma AcknowledgedIsJournaled(ports: Ports, d: Durable, s: nat)
    requires Consistent(ports, d) && ports.first <= s < d.next
    ensures JournalIs(ports, d.journal) && s - ports.first < |d.journal| && d.journal[s - ports.first] == RecordOf(ports, s)
  {
    assert s - ports.first < |d.journal| by { hide JournalIs, LedgerIs; }
    assert RecordOf(ports, ports.first + (s - ports.first)) == d.journal[s - ports.first];
    hide LedgerIs, CheckpointIs, RecordOf;
  }

  /** Every acknowledged sequence has exactly one journal record, its own, and the records are contiguous. */
  lemma AcknowledgedExactlyOnce(ports: Ports, budgets: seq<nat>, s: nat)
    requires Dependable(ports) && ports.first <= s < AgentRun(ports, budgets).next
    ensures var journal := AgentRun(ports, budgets).journal;
            && s - ports.first < |journal| && journal[s - ports.first] == RecordOf(ports, s)
            && (forall i :: 0 <= i < |journal| ==> journal[i].sequence == ports.first + i)
            && (forall i :: 0 <= i < |journal| && journal[i].sequence == s ==> i == s - ports.first)
  {
    hide AgentRun, Consistent, RecordOf, Dependable, JournalIs;
    RunConsistent(ports, budgets);
    AcknowledgedIsJournaled(ports, AgentRun(ports, budgets), s);
    JournalSequences(ports, AgentRun(ports, budgets).journal);
  }

  /** The completed checkpoint is always journaled under the same evaluation id. */
  lemma CompletedIsJournaled(ports: Ports, budgets: seq<nat>)
    requires Dependable(ports) && AgentRun(ports, budgets).checkpoint.last.Some?
    ensures var d := AgentRun(ports, budgets);
            var last := d.checkpoint.last.value;
            StoredFor(d.journal, last.sequence).Some? && StoredFor(d.journal, last.sequence).value.evaluationId == last.evaluationId
  {
    var d := AgentRun(ports, budgets);
    RunConsistent(ports, budgets);
    StoredAt(ports, d.journal, d.checkpoint.last.value.sequence);
    assert ports.envelopeOf(d.checkpoint.last.value.sequence).sequence == d.checkpoint.last.value.sequence;
    hide AgentRun, StoredFor, EvaluationOf, LedgerIs;
  }

  /** Each journaled recommendation stands in the ledger exactly once. */
  lemma RecommendationsLedgeredOnce(ports: Ports, budgets: seq<nat>, i: nat)
    requires Dependable(ports) && i < |AgentRun(ports, budgets).journal| && EvaluationOf(ports, ports.first + i).event.Some?
    ensures var ledger := AgentRun(ports, budgets).ledger;
            exists k :: 0 <= k < |ledger| && ledger[k].eventId == EvaluationOf(ports, ports.first + i).event.value
                        && forall j :: 0 <= j < |ledger| && ledger[j].eventId == ledger[k].eventId ==> j == k
  {
    RunConsistent(ports, budgets);
    var ledger := AgentRun(ports, budgets).ledger;
    assert Ledgered(ports, ledger, ports.first + i);
    var k :| 0 <= k < |ledger| && ledger[k].eventId == EvaluationOf(ports, ports.first + i).event.value;
    hide AgentRun, EvaluationOf, CheckpointIs, JournalIs;
  }

  lemma ConsistentRecovers(ports: Ports, d: Durable)
    requires Dependable(ports) && Consistent(ports, d)
    ensures Recover(ports, d).Ok?
  {
    var c := d.checkpoint;
    if c.last.Some? {
      assert ports.envelopeOf(c.last.value.sequence).sequence == c.last.value.sequence;
      StoredAt(ports, d.journal, c.last.value.sequence);
    }
    assert ports.envelopeOf(d.next).sequence == d.next;
    if d.journal != [] {
      assert d.journal[|d.journal| - 1] == RecordOf(ports, ports.first + |d.journal| - 1);
      assert ports.envelopeOf(ports.first + |d.journal| - 1).sequence == ports.first + |d.journal| - 1;
    }
    hide StoredFor, EvaluationOf, Ledgered;
  }

  /** Recovery accepts every state that crashes and outages alone can leave. */
  lemma RecoverAcceptsEveryCrash(ports: Ports, budgets: seq<nat>)
    requires Dependable(ports)
    ensures Recover(ports, AgentRun(ports, budgets)).Ok?
  {
    RunConsistent(ports, budgets);
    hide AgentRun, Recover, Consistent;
    ConsistentRecovers(ports, AgentRun(ports, budgets));
  }

  /** Recovery notices lost evidence: a journal cut below the completed evaluation is refused. */
  lemma RecoverNoticesLostEvidence(ports: Ports, budgets: seq<nat>, k: nat)
    requires Dependable(ports) && AgentRun(ports, budgets).checkpoint.last.Some?
    requires k <= |AgentRun(ports, budgets).journal|
    ensures Recover(ports, AgentRun(ports, budgets).(journal := AgentRun(ports, budgets).journal[..k])).Ok?
       <==> ports.first + k > AgentRun(ports, budgets).checkpoint.last.value.sequence
  {
    var d := AgentRun(ports, budgets);
    RunConsistent(ports, budgets);
    ConsistentRecovers(ports, d);
    var cut := d.journal[..k];
    StoredAt(ports, cut, d.checkpoint.last.value.sequence);
    assert ports.envelopeOf(d.checkpoint.last.value.sequence).sequence == d.checkpoint.last.value.sequence;
    JournalSequences(ports, d.journal);
    assert ports.envelopeOf(d.next).sequence == d.next;
    hide AgentRun, StoredFor, EvaluationOf, Ledgered;
  }

  /** Whatever went before, one uninterrupted cycle finishes the frame and acknowledges it. */
  lemma UninterruptedCycleProgresses(ports: Ports, budgets: seq<nat>, budget: nat)
    requires Dependable(ports) && budget >= 8
    ensures AgentRun(ports, budgets + [budget]).next == AgentRun(ports, budgets).next + 1
  {
    RunConsistent(ports, budgets);
    CycleKeeps(ports, AgentRun(ports, budgets), budget);
    assert (budgets + [budget])[..|budgets|] == budgets;
    hide Cycle, Consistent;
  }
}
