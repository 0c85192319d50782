/** The gaps a record announces before it is applied are the gaps the journal really has after it. */
module EdgeGaps {
  import opened TaskContracts
  import opened EdgeViews
  import opened EdgeDecisions
  import opened EdgeLegality
  import opened EdgeRuns

  /** Sequence numbers and acceptance announced in advance equal those derived afterwards. */
  lemma AnnouncedGap(v: TaskEvidence, e: TaskEvent, regressed: bool)
    ensures var c := Classify(v, e, regressed);
            var w := EvidenceStep(v, e, c.disposition, c.stateAfter, c.conflict);
            ProspectiveGap(v, e, c.disposition) == (Missing(w), w.acceptanceObserved)
  {
    var c := Classify(v, e, regressed);
    var w := EvidenceStep(v, e, c.disposition, c.stateAfter, c.conflict);
    hide Classify, Differs, KeyLess, AddTerminal, MissingFrom;
    if !c.disposition.Duplicate? && !c.disposition.ConflictingReplay? {
      assert w.seen.Keys == v.seen.Keys + {e.OrderKey()};
    }
  }

  /** Whatever the verdict, the event's key is held afterwards, and no other key is added. */
  lemma KeyHeld(v: TaskEvidence, e: TaskEvent, regressed: bool)
    ensures var c := Classify(v, e, regressed);
            EvidenceStep(v, e, c.disposition, c.stateAfter, c.conflict).seen.Keys == v.seen.Keys + {e.OrderKey()}
  {
    hide Differs, KeyLess, AddTerminal;
  }

  /** The keys of every event of a task the journal recorded. */
  function ReceivedKeys(journal: seq<Stamped>, id: TaskId): set<Key> {
    if journal == [] then {}
    else
      var last := journal[|journal| - 1].record;
      ReceivedKeys(journal[..|journal| - 1], id)
      + if last.TaskEventReceived? && last.event.taskId == id then {last.event.OrderKey()} else {}
  }

  lemma {:induction false} ReceivedKeysMeaning(journal: seq<Stamped>, id: TaskId, k: Key)
    ensures k in ReceivedKeys(journal, id)
       <==> exists i :: 0 <= i < |journal| && journal[i].record.TaskEventReceived?
                        && journal[i].record.event.taskId == id && journal[i].record.event.OrderKey() == k
  {
    if journal != [] {
      var front := journal[..|journal| - 1];
      ReceivedKeysMeaning(front, id, k);
      assert forall i :: 0 <= i < |front| ==> front[i] == journal[i];
    }
  }

  lemma KeysSnoc(journal: seq<Stamped>, n: nat, id: TaskId)
    requires 0 < n <= |journal|
    ensures var r := journal[n - 1].record;
            ReceivedKeys(journal[..n], id)
            == ReceivedKeys(journal[..n - 1], id) + if r.TaskEventReceived? && r.event.taskId == id then {r.event.OrderKey()} else {}
  {
    assert journal[..n][..n - 1] == journal[..n - 1];
  }

  lemma SeenStep(cfg: EdgeConfig, s: EdgeState, st: Stamped, id: TaskId)
    requires Legal(cfg, s, st)
    ensures id !in s.tasks ==> !(st.record.TaskEventReceived? && st.record.event.taskId == id)
    ensures id !in s.tasks && id in Apply(s, st).tasks ==> Apply(s, st).tasks[id].evidence == NO_EVIDENCE
    ensures id in s.tasks ==>
              && id in Apply(s, st).tasks
              && Apply(s, st).tasks[id].evidence.seen.Keys
                 == s.tasks[id].evidence.seen.Keys
                    + if st.record.TaskEventReceived? && st.record.event.taskId == id then {st.record.event.OrderKey()} else {}
  {
    if id in s.tasks && st.record.TaskEventReceived? && st.record.event.taskId == id {
      KeyHeld(s.tasks[id].evidence, st.record.event, Regressed(s, st.record.event.robotId));
    }
    hide DevicesAfter, EvidenceStep, ReasonsStep, ClocksStep, NoteEvidence, Classify, ProspectiveGap, GateClosed, HasActiveTask;
  }

  /** The keys a task's evidence holds are those the prefix received. */
  ghost predicate Matches(s: EdgeState, prefix: seq<Stamped>, id: TaskId) {
    ReceivedKeys(prefix, id) == if id in s.tasks then s.tasks[id].evidence.seen.Keys else {}
  }

  lemma MatchingStep(cfg: EdgeConfig, s: EdgeState, journal: seq<Stamped>, n: nat, id: TaskId)
    requires 0 < n <= |journal| && Legal(cfg, s, journal[n - 1]) && Matches(s, journal[..n - 1], id)
    ensures Matches(Apply(s, journal[n - 1]), journal[..n], id)
  {
    hide Legal, Apply, ReceivedKeys;
    KeysSnoc(journal, n, id);
    SeenStep(cfg, s, journal[n - 1], id);
    NoEvidenceSeen();
  }

  lemma {:induction false} SeenIsReceived(cfg: EdgeConfig, journal: seq<Stamped>, n: nat, id: TaskId)
    requires LegalJournal(cfg, journal) && n <= |journal|
    ensures Matches(At(cfg, journal, n), journal[..n], id)
    decreases n
  {
    if n == 0 {
      assert journal[..0] == [];
    } else {
      hide *;
      SeenIsReceived(cfg, journal, n - 1, id);
      StepAt(cfg, journal, n - 1);
      MatchingStep(cfg, At(cfg, journal, n - 1), journal, n, id);
    }
  }

  lemma NoEvidenceSeen()
    ensures NO_EVIDENCE.seen.Keys == {}
  {
  }

  lemma GapAtRecord(cfg: EdgeConfig, s: EdgeState, st: Stamped)
    requires Legal(cfg, s, st) && st.record.TaskEventReceived?
    ensures var v := Apply(s, st).tasks[st.record.event.taskId].evidence;
            && st.record.event.taskId in Apply(s, st).tasks
            && st.record.missingAfter == Missing(v) && st.record.acceptanceAfter == v.acceptanceObserved
  {
    var t := s.tasks[st.record.event.taskId];
    AnnouncedGap(t.evidence, st.record.event, Regressed(s, st.record.event.robotId));
    hide DevicesAfter, EvidenceStep, ReasonsStep, ClocksStep, Classify, ProspectiveGap, Missing;
  }

  /** In every run a record's announced gap lists exactly the sequence numbers never received, up to the applied maximum. */
  lemma AnnouncedGapsAreReal(cfg: EdgeConfig, choices: seq<EdgeChoice>, i: nat, n: nat)
    requires i < |EdgeRun(cfg, choices)| && EdgeRun(cfg, choices)[i].record.TaskEventReceived?
    ensures var journal := EdgeRun(cfg, choices);
            var id := journal[i].record.event.taskId;
            && id in At(cfg, journal, i + 1).tasks
            && var top := At(cfg, journal, i + 1).tasks[id].evidence.appliedMax;
            n in journal[i].record.missingAfter <==>
              && top.Some? && 1 <= n <= top.value.sequence
              && !exists j :: 0 <= j <= i && journal[j].record.TaskEventReceived?
                              && journal[j].record.event.taskId == id && journal[j].record.event.OrderKey() == Key(top.value.boot, n)
  {
    var journal := EdgeRun(cfg, choices);
    var id := journal[i].record.event.taskId;
    RunLegal(cfg, choices);
    StepAt(cfg, journal, i);
    GapAtRecord(cfg, At(cfg, journal, i), journal[i]);
    SeenIsReceived(cfg, journal, i + 1, id);
    var top := At(cfg, journal, i + 1).tasks[id].evidence.appliedMax;
    if top.Some? {
      ReceivedKeysMeaning(journal[..i + 1], id, Key(top.value.boot, n));
      assert forall j :: 0 <= j <= i ==> journal[..i + 1][j] == journal[j];
    }
    hide EdgeRun, At, LegalJournal, Legal, Apply, TasksOk, ReceivedKeys;
  }
}
