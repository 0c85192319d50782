/** What every run of the robot guarantees: executions, protection, histories, incarnations. */
module RobotSafety {
  import opened Common
  import opened TaskContracts
  import opened RobotViews
  import opened RobotExecutor
  import opened RobotLegality
  import opened RobotRuns

  /** The durable state after the first n records. */
  function At(journal: seq<RobotRecord>, n: nat): Durable
    requires n <= |journal|
  {
    AdvanceAll(EMPTY, journal[..n])
  }

  ghost predicate LegalJournal(journal: seq<RobotRecord>) {
    LegalBatch(EMPTY, journal)
  }

  lemma RunIsLegal(cfg: RobotConfig, choices: seq<Choice>)
    ensures LegalJournal(Run(cfg, choices).journal)
  {
    RunSound(cfg, choices);
  }

  lemma StepAt(journal: seq<RobotRecord>, i: nat)
    requires LegalJournal(journal) && i < |journal|
    ensures StateOk(At(journal, i).view) && Legal(At(journal, i), journal[i])
    ensures At(journal, i + 1) == Advance(At(journal, i), journal[i])
  {
    InitiallySound();
    assert StateOk(EMPTY.view);
    LegalIs(journal);
    AtIs(journal, i);
    AtIs(journal, i + 1);
    hide *;
    LegalAt(EMPTY, journal, i);
  }

  lemma AtIs(journal: seq<RobotRecord>, n: nat)
    requires n <= |journal|
    ensures At(journal, n) == AdvanceAll(EMPTY, journal[..n])
  {
    hide AdvanceAll;
  }

  lemma LegalIs(journal: seq<RobotRecord>)
    ensures LegalJournal(journal) <==> LegalBatch(EMPTY, journal)
  {
    hide LegalBatch;
  }

  // -- at most one execution, and none after a restart

  /** How many execution starts of a task the journal holds. */
  function Starts(journal: seq<RobotRecord>, id: TaskId): nat {
    if journal == [] then 0
    else Starts(journal[..|journal| - 1], id) + if journal[|journal| - 1] == ExecutionStarted(id) then 1 else 0
  }

  lemma StartCounted(d: Durable, r: RobotRecord, id: TaskId)
    requires Legal(d, r)
    ensures Executions(Advance(d, r).view, id) == Executions(d.view, id) + if r == ExecutionStarted(id) then 1 else 0
  {
  }

  lemma {:induction false} StartsCounted(journal: seq<RobotRecord>, n: nat, id: TaskId)
    requires LegalJournal(journal) && n <= |journal|
    ensures Starts(journal[..n], id) == Executions(At(journal, n).view, id)
    decreases n
  {
    if n > 0 {
      StartsCounted(journal, n - 1, id);
      StepAt(journal, n - 1);
      StartCounted(At(journal, n - 1), journal[n - 1], id);
      assert journal[..n][..n - 1] == journal[..n - 1];
      hide *;
      StartsSnoc(journal, n, id);
    } else {
      assert journal[..0] == [];
    }
  }

  lemma StartsSnoc(journal: seq<RobotRecord>, n: nat, id: TaskId)
    requires 0 < n <= |journal|
    ensures Starts(journal[..n], id) == Starts(journal[..n - 1], id) + if journal[n - 1] == ExecutionStarted(id) then 1 else 0
  {
    assert journal[..n][..n - 1] == journal[..n - 1];
  }

  lemma FinalState(journal: seq<RobotRecord>)
    requires LegalJournal(journal)
    ensures At(journal, |journal|) == DurableOf(journal) && StateOk(DurableOf(journal).view)
  {
    assert journal[..|journal|] == journal;
    InitiallySound();
    LegalBatchKeepsState(EMPTY, journal);
  }

  /** At-most-once: over any run a task starts executing at most once. */
  lemma AtMostOneStart(cfg: RobotConfig, choices: seq<Choice>, id: TaskId)
    ensures Starts(Run(cfg, choices).journal, id) <= 1
  {
    var journal := Run(cfg, choices).journal;
    RunIsLegal(cfg, choices);
    FinalState(journal);
    StartsCounted(journal, |journal|, id);
    assert journal[..|journal|] == journal;
    hide TasksOk, ProtectionOk, At, DurableOf;
  }

  /** No boot record lies in journal[from..to]. */
  predicate NoBootBetween(journal: seq<RobotRecord>, from: nat, to: nat)
    requires from <= to <= |journal|
  {
    forall q :: from <= q < to ==> !journal[q].RobotStarted?
  }

  lemma AcceptedStep(d: Durable, r: RobotRecord, id: TaskId)
    requires id in Advance(d, r).acceptedThisBoot
    ensures (r.TaskDecision? && r.accepted && r.decidedTask == id) || (id in d.acceptedThisBoot && !r.RobotStarted?)
  {
    hide Apply;
  }

  /** The tasks accepted since the last boot record really were, by a record after that boot. */
  lemma {:induction false} AcceptedThisBootMeaning(journal: seq<RobotRecord>, n: nat, id: TaskId) returns (p: nat)
    requires LegalJournal(journal) && n <= |journal| && id in At(journal, n).acceptedThisBoot
    ensures p < n && journal[p].TaskDecision? && journal[p].decidedTask == id && journal[p].accepted
    ensures NoBootBetween(journal, p, n)
    decreases n
  {
    assert n > 0 by { assert journal[..0] == []; }
    var r := journal[n - 1];
    hide *;
    StepAt(journal, n - 1);
    AcceptedStep(At(journal, n - 1), r, id);
    if r.TaskDecision? && r.accepted && r.decidedTask == id {
      p := n - 1;
      NoBootEmpty(journal, p);
      NoBootExtends(journal, p, n);
    } else {
      p := AcceptedThisBootMeaning(journal, n - 1, id);
      NoBootExtends(journal, p, n);
    }
  }

  lemma NoBootEmpty(journal: seq<RobotRecord>, p: nat)
    requires p <= |journal|
    ensures NoBootBetween(journal, p, p)
  {
  }

  lemma NoBootExtends(journal: seq<RobotRecord>, p: nat, n: nat)
    requires p < n <= |journal| && !journal[n - 1].RobotStarted? && NoBootBetween(journal, p, n - 1)
    ensures NoBootBetween(journal, p, n)
  {
  }

  ghost predicate Decided(s: RobotState, id: TaskId) { id in s.tasks && s.tasks[id].decision.Some? }

  lemma DecisionKept(d: Durable, r: RobotRecord, id: TaskId)
    requires Legal(d, r)
    ensures Decided(d.view, id) ==> Decided(Advance(d, r).view, id)
    ensures r.TaskDecision? && r.decidedTask == id ==> !Decided(d.view, id) && Decided(Advance(d, r).view, id)
  {
  }

  lemma {:induction false} DecidedOnce(journal: seq<RobotRecord>, p: nat, n: nat, id: TaskId)
    requires LegalJournal(journal) && p < n <= |journal|
    requires journal[p].TaskDecision? && journal[p].decidedTask == id
    ensures Decided(At(journal, n).view, id)
    decreases n
  {
    StepAt(journal, n - 1);
    DecisionKept(At(journal, n - 1), journal[n - 1], id);
    hide *;
    if p < n - 1 { DecidedOnce(journal, p, n - 1, id); }
  }

  lemma OneDecisionPerTask(journal: seq<RobotRecord>, p: nat, q: nat, id: TaskId)
    requires LegalJournal(journal) && p < |journal| && q < |journal|
    requires journal[p].TaskDecision? && journal[p].decidedTask == id
    requires journal[q].TaskDecision? && journal[q].decidedTask == id
    ensures p == q
  {
    if p < q {
      DecidedOnce(journal, p, q, id);
      StepAt(journal, q);
      DecisionKept(At(journal, q), journal[q], id);
    } else if q < p {
      DecidedOnce(journal, q, p, id);
      StepAt(journal, p);
      DecisionKept(At(journal, p), journal[p], id);
    }
  }

  lemma StartIsFresh(d: Durable, id: TaskId)
    requires Legal(d, ExecutionStarted(id))
    ensures id in d.acceptedThisBoot
  {
  }

  /** A task whose decision precedes a restart never starts after that restart. */
  lemma NoStartAfterRestart(cfg: RobotConfig, choices: seq<Choice>, p: nat, q: nat, i: nat, id: TaskId)
    requires var journal := Run(cfg, choices).journal;
             && p < q < i < |journal|
             && journal[p].TaskDecision? && journal[p].decidedTask == id
             && journal[q].RobotStarted?
    ensures Run(cfg, choices).journal[i] != ExecutionStarted(id)
  {
    var journal := Run(cfg, choices).journal;
    RunIsLegal(cfg, choices);
    if journal[i] == ExecutionStarted(id) {
      StepAt(journal, i);
      StartIsFresh(At(journal, i), id);
      var p' := AcceptedThisBootMeaning(journal, i, id);
      OneDecisionPerTask(journal, p, p', id);
    }
  }

  /** Execution starts only after an acceptance decided in the same boot. */
  lemma StartFollowsAcceptance(cfg: RobotConfig, choices: seq<Choice>, i: nat) returns (p: nat)
    requires i < |Run(cfg, choices).journal| && Run(cfg, choices).journal[i].ExecutionStarted?
    ensures var journal := Run(cfg, choices).journal;
            && p < i && journal[p].TaskDecision? && journal[p].accepted
            && journal[p].decidedTask == journal[i].startedTask && NoBootBetween(journal, p, i)
  {
    var journal := Run(cfg, choices).journal;
    RunIsLegal(cfg, choices);
    StepAt(journal, i);
    StartIsFresh(At(journal, i), journal[i].startedTask);
    p := AcceptedThisBootMeaning(journal, i, journal[i].startedTask);
  }

  // -- protection

  /** Once protected: no acceptance, no execution start, no success, and only a reset clears it. */
  lemma ProtectedStep(d: Durable, r: RobotRecord)
    requires StateOk(d.view) && Legal(d, r) && d.view.condition.awaitingHuman
    ensures !(r.TaskDecision? && r.accepted)
    ensures !r.ExecutionStarted?
    ensures !(r.TaskEventPersisted? && r.event.kind.Succeeded?)
    ensures !(r.ExecutionCompleted? && r.outcome == OutcomeSucceeded)
    ensures Advance(d, r).view.condition.awaitingHuman || r.SimulateReset?
  {
    hide StateOk;
  }

  lemma {:induction false} ProtectionLasts(cfg: RobotConfig, choices: seq<Choice>, a: nat, b: nat)
    requires var journal := Run(cfg, choices).journal;
             && a <= b <= |journal| && At(journal, a).view.condition.awaitingHuman
             && forall q :: a <= q < b ==> !journal[q].SimulateReset?
    ensures var journal := Run(cfg, choices).journal;
            && At(journal, b).view.condition.awaitingHuman
            && forall q :: a <= q < b ==> !(journal[q].TaskDecision? && journal[q].accepted) && !journal[q].ExecutionStarted?
                                          && !(journal[q].TaskEventPersisted? && journal[q].event.kind.Succeeded?)
    decreases b
  {
    var journal := Run(cfg, choices).journal;
    hide Run, At, LegalJournal;
    if a < b {
      ProtectionLasts(cfg, choices, a, b - 1);
      RunIsLegal(cfg, choices);
      StepAt(journal, b - 1);
      ProtectedStep(At(journal, b - 1), journal[b - 1]);
    }
  }

  /** At every durable prefix at most one accepted task is unfinished, and it is the current one. */
  lemma OneActiveTask(cfg: RobotConfig, choices: seq<Choice>, n: nat)
    requires n <= |Run(cfg, choices).journal|
    ensures var s := At(Run(cfg, choices).journal, n).view;
            && (forall x :: x in s.tasks && s.tasks[x].Active() ==> s.current == Some(x))
            && (s.current.Some? ==> s.current.value in s.tasks && s.tasks[s.current.value].Active())
            && (s.condition.awaitingHuman && s.current.Some? ==> s.tasks[s.current.value].Blocked())
  {
    var journal := Run(cfg, choices).journal;
    RunIsLegal(cfg, choices);
    InitiallySound();
    LegalPrefix(EMPTY, journal, n);
    LegalBatchKeepsState(EMPTY, journal[..n]);
    hide Run, LegalJournal, AdvanceAll, LegalBatch, TasksOk, CountsOk;
  }

  /** Replay never meets a record about a task it does not know. */
  lemma ReplayNeverRaises(cfg: RobotConfig, choices: seq<Choice>, i: nat)
    requires i < |Run(cfg, choices).journal|
    ensures Applicable(At(Run(cfg, choices).journal, i).view, Run(cfg, choices).journal[i])
  {
    RunIsLegal(cfg, choices);
    StepAt(Run(cfg, choices).journal, i);
    hide Run, At, StateOk;
  }

  // -- histories

  /** Each task's persisted history: contiguous per boot, strictly increasing keys, one terminal at most, last. */
  lemma HistoryShape(cfg: RobotConfig, choices: seq<Choice>, id: TaskId)
    requires id in DurableOf(Run(cfg, choices).journal).view.tasks
    ensures var t := DurableOf(Run(cfg, choices).journal).view.tasks[id];
            && HistoryOk(t.events)
            && (forall i, j :: 0 <= i < j < |t.events| ==> KeyLess(t.events[i].OrderKey(), t.events[j].OrderKey()))
            && t.terminal == TerminalOf(t.events)
            && (t.terminal == Some(Succeeded) ==> Starts(Run(cfg, choices).journal, id) == 1)
            && (t.terminal == Some(EventKind.Rejected) ==> Starts(Run(cfg, choices).journal, id) == 0)
  {
    var journal := Run(cfg, choices).journal;
    RunIsLegal(cfg, choices);
    FinalState(journal);
    StartsCounted(journal, |journal|, id);
    assert journal[..|journal|] == journal;
    var s := DurableOf(journal).view;
    var t := s.tasks[id];
    HistoryFacts(s, id);
    forall i, j | 0 <= i < j < |t.events| ensures KeyLess(t.events[i].OrderKey(), t.events[j].OrderKey()) {
      HistoryKeysIncrease(t.events, i, j);
    }
    hide *;
  }

  lemma HistoryFacts(s: RobotState, id: TaskId)
    requires StateOk(s) && id in s.tasks
    ensures HistoryOk(s.tasks[id].events) && s.tasks[id].terminal == TerminalOf(s.tasks[id].events)
    ensures s.tasks[id].terminal == Some(Succeeded) ==> Executions(s, id) == 1
    ensures s.tasks[id].terminal == Some(EventKind.Rejected) ==> Executions(s, id) == 0
  {
    var t := s.tasks[id];
    assert TaskOk(s.token, s.bootSequence, id, t);
    hide ProtectionOk, HistoryOk;
    if t.terminal.Some? {
      assert t.events[|t.events| - 1].kind == t.terminal.value;
    }
  }

  // -- what a duplicate request re-publishes

  /** One record extends the history of the task its event names and no other. */
  lemma HistoryAfter(d: Durable, r: RobotRecord, id: TaskId)
    requires Legal(d, r) && id in Advance(d, r).view.tasks
    ensures var before := if id in d.view.tasks then d.view.tasks[id].events else [];
            Advance(d, r).view.tasks[id].events ==
              if r.TaskEventPersisted? && r.event.eventSequence >= 1 && r.event.taskId == id then before + [r.event] else before
  {
  }

  lemma NewInHistory(d: Durable, r: RobotRecord, id: TaskId, e: TaskEvent)
    requires Legal(d, r) && id in Advance(d, r).view.tasks && e in Advance(d, r).view.tasks[id].events
    ensures r == TaskEventPersisted(e) || (id in d.view.tasks && e in d.view.tasks[id].events)
  {
    HistoryAfter(d, r, id);
    hide Legal, Advance;
  }

  /** Every event of a task's history is in the journal. */
  lemma {:induction false} HistoryIsPersisted(journal: seq<RobotRecord>, n: nat, id: TaskId, e: TaskEvent)
    requires LegalJournal(journal) && n <= |journal|
    ensures id in At(journal, n).view.tasks && e in At(journal, n).view.tasks[id].events ==> TaskEventPersisted(e) in journal[..n]
  {
    hide *;
    NothingAtStart(journal);
    if n > 0 && id in At(journal, n).view.tasks && e in At(journal, n).view.tasks[id].events {
      StepAt(journal, n - 1);
      NewInHistory(At(journal, n - 1), journal[n - 1], id, e);
      assert journal[..n] == journal[..n - 1] + [journal[n - 1]];
      HistoryIsPersisted(journal, n - 1, id, e);
    }
  }

  lemma NothingAtStart(journal: seq<RobotRecord>)
    ensures At(journal, 0).view.tasks == map[]
  {
  }

  /** A duplicate request makes the robot send again only what it persisted before. */
  lemma {:induction false} ReplayedWasPersisted(cfg: RobotConfig, choices: seq<Choice>, delivery: RequestDelivery, e: TaskEvent)
    requires e in ReplayedHistory(DurableOf(Run(cfg, choices).journal).view, cfg, delivery)
    ensures TaskEventPersisted(e) in Run(cfg, choices).journal
  {
    var journal := Run(cfg, choices).journal;
    RunIsLegal(cfg, choices);
    FinalState(journal);
    assert delivery.Decoded?;
    hide Run, LegalJournal, At, DurableOf, StateOk;
    HistoryIsPersisted(journal, |journal|, delivery.request.taskId, e);
    assert journal[..|journal|] == journal;
  }

  /** The number of starts of a task over all the journals an identity ever had. */
  function TotalStarts(journals: seq<seq<RobotRecord>>, id: TaskId): nat {
    if journals == [] then 0 else Starts(journals[0], id) + TotalStarts(journals[1..], id)
  }

  /** Requests with one task id are one request: the id is the digest of the content. */
  ghost predicate IdentifiersAreDigests(journals: seq<seq<RobotRecord>>) {
    forall i, j, id :: 0 <= i < |journals| && 0 <= j < |journals|
      && id in DurableOf(journals[i]).view.tasks && id in DurableOf(journals[j]).view.tasks
      ==> DurableOf(journals[i]).view.tasks[id].request == DurableOf(journals[j]).view.tasks[id].request
  }

  /** Provisioning tokens digest a fresh nonce: no two journals carry the same one. */
  ghost predicate TokensDistinct(journals: seq<seq<RobotRecord>>) {
    forall i, j :: 0 <= i < j < |journals| && DurableOf(journals[i]).view.token.Some?
      ==> DurableOf(journals[i]).view.token != DurableOf(journals[j]).view.token
  }

  lemma StartedTaskNamesIncarnation(journal: seq<RobotRecord>, id: TaskId)
    requires LegalJournal(journal)
    ensures Starts(journal, id) <= 1
    ensures Starts(journal, id) > 0 ==>
              && id in DurableOf(journal).view.tasks
              && Some(DurableOf(journal).view.tasks[id].request.targetIncarnation) == DurableOf(journal).view.token
  {
    FinalState(journal);
    StartsCounted(journal, |journal|, id);
    assert journal[..|journal|] == journal;
    var s := DurableOf(journal).view;
    if id in s.tasks { assert TaskOk(s.token, s.bootSequence, id, s.tasks[id]); }
    hide EventsOk, EvidenceOk, ProtectionOk, DurableOf, At, Starts;
  }

  lemma {:induction false} NoStartElsewhere(journals: seq<seq<RobotRecord>>, k: nat, id: TaskId)
    requires forall i :: 0 <= i < |journals| ==> LegalJournal(journals[i])
    requires forall i :: k <= i < |journals| ==> Starts(journals[i], id) == 0
    requires k <= |journals|
    ensures TotalStarts(journals[k..], id) == 0
    decreases |journals| - k
  {
    if k < |journals| {
      NoStartElsewhere(journals, k + 1, id);
      assert journals[k..][1..] == journals[k + 1..];
    }
  }

  /** Across every re-provisioning of an identity a task starts at most once in total. */
  lemma {:induction false} AtMostOneStartEver(journals: seq<seq<RobotRecord>>, id: TaskId)
    requires forall i :: 0 <= i < |journals| ==> LegalJournal(journals[i])
    requires IdentifiersAreDigests(journals) && TokensDistinct(journals)
    ensures TotalStarts(journals, id) <= 1
    decreases |journals|
  {
    if journals != [] {
      StartedTaskNamesIncarnation(journals[0], id);
      var rest := journals[1..];
      if Starts(journals[0], id) == 0 {
        RestDistinct(journals);
        hide LegalJournal, Starts, IdentifiersAreDigests, TokensDistinct;
        AtMostOneStartEver(rest, id);
      } else {
        forall i | 1 <= i < |journals| ensures Starts(journals[i], id) == 0 {
          StartedTaskNamesIncarnation(journals[i], id);
          hide LegalJournal, Starts, DurableOf;
        }
        hide LegalJournal, Starts, IdentifiersAreDigests, TokensDistinct, DurableOf;
        NoStartElsewhere(journals, 1, id);
      }
    }
  }

  lemma RestDistinct(journals: seq<seq<RobotRecord>>)
    requires journals != [] && IdentifiersAreDigests(journals) && TokensDistinct(journals)
    ensures IdentifiersAreDigests(journals[1..]) && TokensDistinct(journals[1..])
  {
    hide DurableOf;
    var rest := journals[1..];
    assert forall i :: 0 <= i < |rest| ==> rest[i] == journals[i + 1];
  }
}
