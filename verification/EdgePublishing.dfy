/** Which requests go out, told from the journal: never confirmed ones, and those with a question the robot has not answered. */
module EdgePublishing {
  import opened Common
  import opened TaskContracts
  import opened EdgeViews
  import opened EdgeDecisions
  import opened EdgeLegality
  import opened EdgeRuns
  import opened EdgeDispatch
  import opened EdgeGates
  import EdgeAlerts

  // -- questions and answers in the journal

  /** The record asks the robot about the task for this reason: a presence or progress flag, or a restart or lost session
      while the task is open. */
  ghost predicate Asks(cfg: EdgeConfig, journal: seq<Stamped>, k: nat, id: TaskId, x: FlagReason)
    requires k < |journal|
  {
    var r, s := journal[k].record, At(cfg, journal, k);
    || (r == TaskReconciliationFlagged(id, x)
        && x in {NewBootSession, ExpiredUnconfirmed, EdgeRestart, TransportSessionLost,
                 HeartbeatMismatch, ProgressWindowElapsed, AcceptanceWindowElapsed})
    || (((r == EdgeStarted && x == EdgeRestart) || (r == TransportSession(true) && x == TransportSessionLost)) && id in s.tasks
        && s.tasks[id].evidence.state in {Created, AcceptedState, Running, BlockedAwaitingHuman})
  }

  /** Any word of the robot about the task: evidence, repeated or not, or a request-level rejection. */
  predicate Answers(r: EdgeRecord, id: TaskId) {
    (r.TaskEventReceived? && r.event.taskId == id) || r == RobotRequestRejected(id)
  }

  /** Among the first n records there is a question about the task with no answer after it. */
  ghost predicate OpenQuestion(cfg: EdgeConfig, journal: seq<Stamped>, n: nat, id: TaskId, x: FlagReason)
    requires n <= |journal|
  {
    exists k :: 0 <= k < n && AsksUnanswered(cfg, journal, k, n, id, x)
  }

  ghost predicate AsksUnanswered(cfg: EdgeConfig, journal: seq<Stamped>, k: nat, n: nat, id: TaskId, x: FlagReason)
    requires k < n <= |journal|
  {
    Asks(cfg, journal, k, id, x) && forall q :: k < q < n ==> !Answers(journal[q].record, id)
  }

  // -- the view's bookkeeping of questions

  /** No flag of the task is from a later record than the last one applied. */
  ghost predicate FlagsPast(s: EdgeState, id: TaskId) {
    id in s.tasks ==>
      s.tasks[id].clocks.lastEventRecord <= s.applied && Below(s.tasks[id].clocks.flagRecord, s.applied + 1)
  }

  predicate Below(flags: map<FlagReason, nat>, n: nat) { forall y :: y in flags ==> flags[y] < n }

  predicate Questions(r: EdgeRecord, open: bool, id: TaskId, x: FlagReason) {
    || (r == TaskReconciliationFlagged(id, x) && (x in PRESENCE || x in PROGRESS))
    || (((r.EdgeStarted? && x.EdgeRestart?) || (r.TransportSession? && r.lost && x.TransportSessionLost?)) && open)
  }

  /** One record, one task and one reason: its question opens, any answer closes it, anything else changes nothing. */
  lemma QuestionStep(t: TaskView, id: TaskId, r: EdgeRecord, n: nat, at: Time, x: FlagReason)
    requires t.clocks.lastEventRecord < n && Below(t.clocks.flagRecord, n)
    ensures var u := TaskStep(id, t, r, n, at);
            && (x in Unanswered(u) <==> Questions(r, !t.IsTerminal(), id, x) || (x in Unanswered(t) && !Answers(r, id)))
            && u.clocks.lastEventRecord <= n && Below(u.clocks.flagRecord, n + 1)
  {
    var u := TaskStep(id, t, r, n, at);
    if Answers(r, id) {
      AnswerCloses(t, id, r, n, at, x);
    } else if Questions(r, !t.IsTerminal(), id, x) {
      QuestionOpens(t, id, r, n, at, x);
    } else {
      OtherAsksNothing(t, id, r, n, at, x);
    }
    hide TaskStep, Answers, Questions, Unanswered;
  }

  lemma OtherAsksNothing(t: TaskView, id: TaskId, r: EdgeRecord, n: nat, at: Time, x: FlagReason)
    requires !Answers(r, id) && !Questions(r, !t.IsTerminal(), id, x)
    requires t.clocks.lastEventRecord < n && Below(t.clocks.flagRecord, n)
    ensures var u := TaskStep(id, t, r, n, at);
            (x in Unanswered(u) <==> x in Unanswered(t)) && u.clocks.lastEventRecord == t.clocks.lastEventRecord
            && Below(u.clocks.flagRecord, n + 1)
  {
    if r.TaskReconciliationFlagged? && r.flagged == id {
      assert TaskStep(id, t, r, n, at) == FlagStep(t, r.reason, n, at) by { hide FlagStep; }
      FlagOther(t, r.reason, n, at, x);
    } else if r.EdgeStarted? || (r.TransportSession? && r.lost) {
      var reason := if r.EdgeStarted? then EdgeRestart else TransportSessionLost;
      assert TaskStep(id, t, r, n, at) == AskAgain(t, reason, n) by { hide AskAgain; }
      AskOther(t, reason, n, x);
    } else {
      LaterFlag(t.clocks.flagRecord, x, n);
      QuietRecord(t, id, r, n, at);
      QuietSame(t, TaskStep(id, t, r, n, at), x);
    }
    hide TaskStep, FlagStep, AskAgain, Unanswered;
  }

  predicate UnansweredIn(reasons: set<FlagReason>, flags: map<FlagReason, nat>, last: nat, x: FlagReason) {
    x in reasons && (x in PRESENCE || x in PROGRESS) && x in flags && flags[x] > last
  }

  lemma IsUnanswered(t: TaskView, x: FlagReason)
    ensures x in Unanswered(t) <==> UnansweredIn(t.reasons, t.clocks.flagRecord, t.clocks.lastEventRecord, x)
  {
  }

  lemma OneMoreFlag(reasons: set<FlagReason>, flags: map<FlagReason, nat>, last: nat, y: FlagReason, n: nat, x: FlagReason)
    requires y != x || !(x in PRESENCE || x in PROGRESS)
    ensures UnansweredIn(reasons + {y}, flags[y := n], last, x) <==> UnansweredIn(reasons, flags, last, x)
  {
  }

  lemma LaterFlag(flags: map<FlagReason, nat>, y: FlagReason, n: nat)
    requires Below(flags, n)
    ensures Below(flags[y := n], n + 1) && Below(flags, n + 1)
  {
  }

  lemma FlagOther(t: TaskView, y: FlagReason, n: nat, at: Time, x: FlagReason)
    requires y != x || !(x in PRESENCE || x in PROGRESS)
    requires Below(t.clocks.flagRecord, n)
    ensures var u := FlagStep(t, y, n, at);
            (x in Unanswered(u) <==> x in Unanswered(t)) && u.clocks.lastEventRecord == t.clocks.lastEventRecord
            && Below(u.clocks.flagRecord, n + 1)
  {
    IsUnanswered(t, x);
    IsUnanswered(FlagStep(t, y, n, at), x);
    OneMoreFlag(t.reasons, t.clocks.flagRecord, t.clocks.lastEventRecord, y, n, x);
    LaterFlag(t.clocks.flagRecord, y, n);
    hide Unanswered, Below, UnansweredIn;
  }

  lemma AskOther(t: TaskView, y: FlagReason, n: nat, x: FlagReason)
    requires y != x || t.IsTerminal()
    requires Below(t.clocks.flagRecord, n)
    ensures var u := AskAgain(t, y, n);
            (x in Unanswered(u) <==> x in Unanswered(t)) && u.clocks.lastEventRecord == t.clocks.lastEventRecord
            && Below(u.clocks.flagRecord, n + 1)
  {
    hide Unanswered, Below, UnansweredIn;
    LaterFlag(t.clocks.flagRecord, y, n);
    if !t.IsTerminal() {
      IsUnanswered(t, x);
      IsUnanswered(AskAgain(t, y, n), x);
      OneMoreFlag(t.reasons, t.clocks.flagRecord, t.clocks.lastEventRecord, y, n, x);
    }
  }

  lemma QuietSame(t: TaskView, u: TaskView, x: FlagReason)
    requires u.clocks == t.clocks && (u.reasons == t.reasons || u.reasons == t.reasons + {SessionRegressionReason})
    ensures x in Unanswered(u) <==> x in Unanswered(t)
  {
  }

  lemma QuietRecord(t: TaskView, id: TaskId, r: EdgeRecord, n: nat, at: Time)
    requires !Answers(r, id) && !(r.TaskReconciliationFlagged? && r.flagged == id) && !r.EdgeStarted? && !(r.TransportSession? && r.lost)
    ensures var u := TaskStep(id, t, r, n, at);
            u.clocks == t.clocks && (u.reasons == t.reasons || u.reasons == t.reasons + {SessionRegressionReason})
  {
    hide EventStep, NoteEvidence, FlagStep, AskAgain;
  }

  lemma AnswerCloses(t: TaskView, id: TaskId, r: EdgeRecord, n: nat, at: Time, x: FlagReason)
    requires Answers(r, id) && Below(t.clocks.flagRecord, n)
    ensures var u := TaskStep(id, t, r, n, at);
            x !in Unanswered(u) && u.clocks.lastEventRecord == n && u.clocks.flagRecord == t.clocks.flagRecord
  {
    hide EvidenceStep, ReasonsStep;
  }

  lemma QuestionOpens(t: TaskView, id: TaskId, r: EdgeRecord, n: nat, at: Time, x: FlagReason)
    requires Questions(r, !t.IsTerminal(), id, x) && t.clocks.lastEventRecord < n
    requires Below(t.clocks.flagRecord, n)
    ensures var u := TaskStep(id, t, r, n, at);
            x in Unanswered(u) && u.clocks.lastEventRecord == t.clocks.lastEventRecord
            && Below(u.clocks.flagRecord, n + 1)
  {
    var u := TaskStep(id, t, r, n, at);
    assert x in u.reasons && (x in PRESENCE || x in PROGRESS) && u.Unanswered(x);
  }

  /** The view has applied n records and keeps this question of the task open exactly when told so. */
  ghost predicate Keeps(s: EdgeState, n: nat, id: TaskId, x: FlagReason, open: bool) {
    && s.applied == n && FlagsPast(s, id)
    && (if id in s.tasks then x in Unanswered(s.tasks[id]) <==> open else !open)
  }

  ghost predicate Booked(cfg: EdgeConfig, journal: seq<Stamped>, n: nat, id: TaskId, x: FlagReason)
    requires n <= |journal|
  {
    Keeps(At(cfg, journal, n), n, id, x, OpenQuestion(cfg, journal, n, id, x))
  }

  lemma KeepsStep(cfg: EdgeConfig, s: EdgeState, st: Stamped, n: nat, id: TaskId, x: FlagReason, open: bool)
    requires Keeps(s, n, id, x, open) && Legal(cfg, s, st)
    ensures Keeps(Apply(s, st), n + 1, id, x,
                  Questions(st.record, id in s.tasks && !s.tasks[id].IsTerminal(), id, x) || (open && !Answers(st.record, id)))
  {
    AppliedNext(s, st);
    hide Legal, Apply, TaskStep, Unanswered, Answers, Questions;
    if id in s.tasks {
      KnownStep(cfg, s, st, id);
      QuestionStep(s.tasks[id], id, st.record, n + 1, st.at, x);
    } else {
      LegalFlagKnown(cfg, s, st, id, x);
    }
  }

  lemma AsksIs(cfg: EdgeConfig, journal: seq<Stamped>, k: nat, id: TaskId, x: FlagReason)
    requires k < |journal|
    ensures Asks(cfg, journal, k, id, x)
        <==> Questions(journal[k].record, id in At(cfg, journal, k).tasks && !At(cfg, journal, k).tasks[id].IsTerminal(), id, x)
  {
    hide At;
  }

  lemma OpenQuestionStep(cfg: EdgeConfig, journal: seq<Stamped>, n: nat, id: TaskId, x: FlagReason)
    requires 0 < n <= |journal|
    ensures OpenQuestion(cfg, journal, n, id, x)
        <==> Asks(cfg, journal, n - 1, id, x) || (OpenQuestion(cfg, journal, n - 1, id, x) && !Answers(journal[n - 1].record, id))
  {
    hide Asks, Answers;
    if OpenQuestion(cfg, journal, n, id, x) {
      var k :| 0 <= k < n && AsksUnanswered(cfg, journal, k, n, id, x);
      if k < n - 1 { assert AsksUnanswered(cfg, journal, k, n - 1, id, x); }
    }
    if Asks(cfg, journal, n - 1, id, x) { assert AsksUnanswered(cfg, journal, n - 1, n, id, x); }
    if OpenQuestion(cfg, journal, n - 1, id, x) && !Answers(journal[n - 1].record, id) {
      var k :| 0 <= k < n - 1 && AsksUnanswered(cfg, journal, k, n - 1, id, x);
      assert AsksUnanswered(cfg, journal, k, n, id, x);
    }
  }

  lemma LegalFlagKnown(cfg: EdgeConfig, s: EdgeState, st: Stamped, id: TaskId, x: FlagReason)
    requires Legal(cfg, s, st) && id !in s.tasks
    ensures !Questions(st.record, false, id, x)
    ensures id in Apply(s, st).tasks ==> x !in Unanswered(Apply(s, st).tasks[id]) && Apply(s, st).tasks[id].clocks.lastEventRecord == 0
                                         && Apply(s, st).tasks[id].clocks.flagRecord == map[]
  {
    hide DevicesAfter, LegalEvent, TaskStep, GateClosed;
  }

  lemma BookingStep(cfg: EdgeConfig, journal: seq<Stamped>, n: nat, id: TaskId, x: FlagReason)
    requires 0 < n <= |journal| && Booked(cfg, journal, n - 1, id, x) && Legal(cfg, At(cfg, journal, n - 1), journal[n - 1])
    requires At(cfg, journal, n) == Apply(At(cfg, journal, n - 1), journal[n - 1])
    ensures Booked(cfg, journal, n, id, x)
  {
    hide At, Legal, Apply, Keeps, OpenQuestion, Asks, Answers, Questions;
    AsksIs(cfg, journal, n - 1, id, x);
    OpenQuestionStep(cfg, journal, n, id, x);
    KeepsStep(cfg, At(cfg, journal, n - 1), journal[n - 1], n - 1, id, x, OpenQuestion(cfg, journal, n - 1, id, x));
  }

  lemma AppliedNext(s: EdgeState, st: Stamped)
    ensures Apply(s, st).applied == s.applied + 1
  {
    hide TasksAfter, DevicesAfter;
  }

  lemma {:induction false} BookedAt(cfg: EdgeConfig, journal: seq<Stamped>, n: nat, id: TaskId, x: FlagReason)
    requires LegalJournal(cfg, journal) && n <= |journal|
    ensures Booked(cfg, journal, n, id, x)
    decreases n
  {
    if n == 0 {
      assert journal[..0] == [];
    } else {
      hide *;
      BookedAt(cfg, journal, n - 1, id, x);
      StepAt(cfg, journal, n - 1);
      BookingStep(cfg, journal, n, id, x);
    }
  }

  // -- attempts and confirmations

  function LastAttempt(journal: seq<Stamped>, id: TaskId): Option<Time> {
    if journal == [] then None
    else if Attempts(journal[|journal| - 1], id) then Some(journal[|journal| - 1].at)
    else LastAttempt(journal[..|journal| - 1], id)
  }

  function ConfirmCount(journal: seq<Stamped>, id: TaskId): nat {
    if journal == [] then 0
    else ConfirmCount(journal[..|journal| - 1], id)
         + if journal[|journal| - 1].record.TaskPublishConfirmed? && journal[|journal| - 1].record.confirmed == id then 1 else 0
  }

  ghost predicate Sent(cfg: EdgeConfig, journal: seq<Stamped>, n: nat, id: TaskId)
    requires n <= |journal|
  {
    var s := At(cfg, journal, n);
    if id in s.tasks
    then s.tasks[id].publishing.lastAttemptAt == LastAttempt(journal[..n], id) && s.tasks[id].publishing.confirmations == ConfirmCount(journal[..n], id)
    else LastAttempt(journal[..n], id) == None && ConfirmCount(journal[..n], id) == 0
  }

  lemma SentStep(cfg: EdgeConfig, s: EdgeState, st: Stamped, id: TaskId)
    requires Legal(cfg, s, st)
    ensures id in s.tasks ==> id in Apply(s, st).tasks
    ensures id in s.tasks ==>
              var p, q := s.tasks[id].publishing, Apply(s, st).tasks[id].publishing;
              && q.lastAttemptAt == (if Attempts(st, id) then Some(st.at) else p.lastAttemptAt)
              && q.confirmations == p.confirmations + (if st.record.TaskPublishConfirmed? && st.record.confirmed == id then 1 else 0)
    ensures id !in s.tasks ==> !Attempts(st, id) && !(st.record.TaskPublishConfirmed? && st.record.confirmed == id)
    ensures id !in s.tasks && id in Apply(s, st).tasks ==>
      Apply(s, st).tasks[id].publishing.lastAttemptAt == None && Apply(s, st).tasks[id].publishing.confirmations == 0
  {
    hide DevicesAfter, EvidenceStep, ReasonsStep, ClocksStep, NoteEvidence, GateClosed, HasPending, Classify, Received, Reachable;
  }

  lemma {:induction false} SentAt(cfg: EdgeConfig, journal: seq<Stamped>, n: nat, id: TaskId)
    requires LegalJournal(cfg, journal) && n <= |journal|
    ensures Sent(cfg, journal, n, id)
    decreases n
  {
    if n == 0 {
      assert journal[..0] == [];
    } else {
      hide At, LegalJournal, Legal, Apply, Attempts, TasksOk, ViewOf;
      SentAt(cfg, journal, n - 1, id);
      StepAt(cfg, journal, n - 1);
      SentStep(cfg, At(cfg, journal, n - 1), journal[n - 1], id);
      assert journal[..n][..n - 1] == journal[..n - 1];
    }
  }

  // -- the theorem

  /** The robot is reachable in the incarnation the task was authorized for. */
  predicate InReach(s: EdgeState, request: TaskRequest) {
    && request.targetRobot in s.devices && s.devices[request.targetRobot].connectivity in {Online, Stale}
    && s.devices[request.targetRobot].boot.Some?
    && s.devices[request.targetRobot].boot.value.incarnation == request.targetIncarnation
  }

  /** When the request of a task may go out, read from the journal of the run. */
  ghost predicate MayGoOut(cfg: EdgeConfig, journal: seq<Stamped>, id: TaskId, now: Time) {
    var s := ViewOf(cfg, journal);
    && id in s.tasks && s.tasks[id].evidence.state in {Created, AcceptedState, Running}
    && var request := s.tasks[id].request;
    && InReach(s, request) && !AnyCulprit(cfg, journal, |journal|, request.targetRobot)
    && AttemptCount(journal, id) < cfg.maxRepublishAttempts
    && (now >= request.expiresAt ==> LateAttemptCount(journal, id, request.expiresAt) == 0)
    && (LastAttempt(journal, id).Some? ==> now - LastAttempt(journal, id).value >= cfg.minRepublishInterval)
    && (ConfirmCount(journal, id) == 0 || exists x :: OpenQuestion(cfg, journal, |journal|, id, x))
  }

  /** And with which cause and attempt number. */
  ghost predicate Explained(cfg: EdgeConfig, journal: seq<Stamped>, offer: Republish) {
    && offer.attempt == AttemptCount(journal, offer.id) + 1
    && (offer.cause.Initial? <==> ConfirmCount(journal, offer.id) == 0)
    && (offer.cause.Reconcile? ==> forall x :: x in offer.cause.reasons <==> OpenQuestion(cfg, journal, |journal|, offer.id, x))
  }

  lemma PendingIsUnanswered(t: TaskView)
    ensures HasPending(t) <==> exists x :: x in Unanswered(t)
  {
    if HasPending(t) {
      var x :| x in t.reasons && (x in PRESENCE || x in PROGRESS) && t.Unanswered(x);
      assert x in Unanswered(t);
    }
  }

  ghost predicate CountsTell(s: EdgeState, journal: seq<Stamped>, id: TaskId)
    requires id in s.tasks
  {
    var p := s.tasks[id].publishing;
    && p.attempts == AttemptCount(journal, id) && p.postExpiryAttempts == LateAttemptCount(journal, id, s.tasks[id].request.expiresAt)
    && p.lastAttemptAt == LastAttempt(journal, id) && p.confirmations == ConfirmCount(journal, id)
  }

  ghost predicate QuestionsTell(cfg: EdgeConfig, s: EdgeState, journal: seq<Stamped>, id: TaskId)
    requires id in s.tasks
  {
    forall x :: x in Unanswered(s.tasks[id]) <==> OpenQuestion(cfg, journal, |journal|, id, x)
  }

  /** A view and a journal agree about the task. */
  ghost predicate Tells(cfg: EdgeConfig, s: EdgeState, journal: seq<Stamped>, id: TaskId)
    requires id in s.tasks
  {
    && CountsTell(s, journal, id) && QuestionsTell(cfg, s, journal, id)
    && (GateClosed(s, s.tasks[id].request.targetRobot) <==> AnyCulprit(cfg, journal, |journal|, s.tasks[id].request.targetRobot))
  }

  lemma CountsTold(cfg: EdgeConfig, journal: seq<Stamped>, id: TaskId)
    requires LegalJournal(cfg, journal) && id in At(cfg, journal, |journal|).tasks
    ensures CountsTell(At(cfg, journal, |journal|), journal, id)
  {
    var n := |journal|;
    hide At, LegalJournal, ViewOf, LastAttempt, ConfirmCount, AttemptCount, LateAttemptCount;
    assert journal[..n] == journal;
    CountedAt(cfg, journal, n, id, At(cfg, journal, n).tasks[id].request.expiresAt);
    SentAt(cfg, journal, n, id);
  }

  lemma QuestionsTold(cfg: EdgeConfig, journal: seq<Stamped>, id: TaskId)
    requires LegalJournal(cfg, journal) && id in At(cfg, journal, |journal|).tasks
    ensures QuestionsTell(cfg, At(cfg, journal, |journal|), journal, id)
  {
    hide At, LegalJournal, ViewOf, OpenQuestion, Unanswered;
    forall x ensures x in Unanswered(At(cfg, journal, |journal|).tasks[id]) <==> OpenQuestion(cfg, journal, |journal|, id, x) {
      BookedAt(cfg, journal, |journal|, id, x);
    }
  }

  lemma RunTells(cfg: EdgeConfig, choices: seq<EdgeChoice>, id: TaskId)
    requires id in ViewOf(cfg, EdgeRun(cfg, choices)).tasks
    ensures Tells(cfg, ViewOf(cfg, EdgeRun(cfg, choices)), EdgeRun(cfg, choices), id)
  {
    var journal := EdgeRun(cfg, choices);
    hide EdgeRun, At, ViewOf, TasksOk, LegalJournal, GateClosed, AnyCulprit, CountsTell, QuestionsTell;
    RunLegal(cfg, choices);
    FinalAt(cfg, journal);
    CountsTold(cfg, journal, id);
    QuestionsTold(cfg, journal, id);
    ClosedByCulprits(cfg, journal, |journal|, At(cfg, journal, |journal|).tasks[id].request.targetRobot);
  }

  lemma CandidateMeaning(cfg: EdgeConfig, s: EdgeState, journal: seq<Stamped>, id: TaskId, now: Time)
    requires s == ViewOf(cfg, journal) && (id in s.tasks ==> Tells(cfg, s, journal, id))
    ensures Candidate(s, cfg, id, now) <==> MayGoOut(cfg, journal, id, now)
    ensures id in s.tasks ==> Explained(cfg, journal, OfferOf(s.tasks[id], id))
  {
    if id in s.tasks {
      PendingIsUnanswered(s.tasks[id]);
      ConflictClosesGate(s, id);
    }
    hide GateClosed, AnyCulprit, OpenQuestion, Unanswered, HasPending, ViewOf;
  }

  lemma ConflictClosesGate(s: EdgeState, id: TaskId)
    requires id in s.tasks
    ensures s.tasks[id].AuthorizationConflict() ==> GateClosed(s, s.tasks[id].request.targetRobot)
  {
    assert s.tasks[id].AuthorizationConflict() ==> TaskClosesGate(s.tasks[id]);
  }

  /** In every run a request is offered for publication exactly when the journal says it may go out, with the true cause and number. */
  lemma ListedExactly(cfg: EdgeConfig, choices: seq<EdgeChoice>, now: Time, offer: Republish)
    ensures var journal := EdgeRun(cfg, choices);
            var offers := RepublishCandidates(ViewOf(cfg, journal), cfg, now);
            && (offer in offers ==> MayGoOut(cfg, journal, offer.id, now) && Explained(cfg, journal, offer))
            && (MayGoOut(cfg, journal, offer.id, now) ==> exists x :: x in offers && x.id == offer.id)
  {
    var journal := EdgeRun(cfg, choices);
    var s := ViewOf(cfg, journal);
    CandidatesExactly(s, cfg, now, s.order);
    EdgeAlerts.RunListed(cfg, journal);
    if offer.id in s.tasks { RunTells(cfg, choices, offer.id); }
    hide EdgeRun, ViewOf, Candidate, OfferOf, Tells, MayGoOut, Explained;
    CandidateMeaning(cfg, s, journal, offer.id, now);
    if MayGoOut(cfg, journal, offer.id, now) {
      assert offer.id in s.tasks by { GoesOutKnown(cfg, journal, offer.id, now); }
      var x := OfferOf(s.tasks[offer.id], offer.id);
      OfferIsOf(s.tasks[offer.id], offer.id);
      assert x in Candidates(s, cfg, now, s.order);
    }
  }

  lemma GoesOutKnown(cfg: EdgeConfig, journal: seq<Stamped>, id: TaskId, now: Time)
    requires MayGoOut(cfg, journal, id, now)
    ensures id in ViewOf(cfg, journal).tasks
  {
  }

  lemma OfferIsOf(t: TaskView, id: TaskId)
    ensures OfferOf(t, id).id == id
  {
  }
}
