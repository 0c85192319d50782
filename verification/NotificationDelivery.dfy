/** The receiver's ledger, and the sender, the receiver and a lossy channel run together. */
module NotificationDelivery {
  import opened Common
  import opened TaskContracts
  import opened InterventionViews
  import opened InterventionDecisions
  import opened InterventionRuns

  datatype ReceiverRecord =
    | ReceiverStarted
    | NotificationReceived(received: NotificationId, receipt: ReceiptId)
    | NotificationDuplicate(duplicate: NotificationId, original: ReceiptId)
    | NotificationRefused

  datatype Ledger = Ledger(receipts: map<NotificationId, ReceiptId>, duplicates: map<NotificationId, nat>, refused: nat, applied: nat)

  const EMPTY_LEDGER := Ledger(map[], map[], 0, 0)

  function Tally(l: Ledger, r: ReceiverRecord): Ledger {
    var next := l.(applied := l.applied + 1);
    match r
    case ReceiverStarted => next
    case NotificationReceived(id, receipt) => next.(receipts := l.receipts[id := receipt])
    case NotificationDuplicate(id, _) =>
      next.(duplicates := l.duplicates[id := (if id in l.duplicates then l.duplicates[id] else 0) + 1])
    case NotificationRefused => next.(refused := l.refused + 1)
  }

  function LedgerOf(journal: seq<ReceiverRecord>): Ledger {
    if journal == [] then EMPTY_LEDGER else Tally(LedgerOf(journal[..|journal| - 1]), journal[|journal| - 1])
  }

  lemma TallyNext(journal: seq<ReceiverRecord>, n: nat)
    requires n < |journal|
    ensures LedgerOf(journal[..n + 1]) == Tally(LedgerOf(journal[..n]), journal[n])
  {
    assert journal[..n + 1][..n] == journal[..n];
  }

  datatype Response = Refusal | Receipt(receipt: ReceiptId, duplicate: bool)

  /** The answer to one delivery attempt and the record made of it; no message means an invalid payload. */
  function Receive(l: Ledger, receiver: string, message: Option<NotificationId>): (Response, ReceiverRecord) {
    match message
    case None => (Refusal, NotificationRefused)
    case Some(id) =>
      if id in l.receipts then (Receipt(l.receipts[id], true), NotificationDuplicate(id, l.receipts[id]))
      else (Receipt(ReceiptId(receiver, id), false), NotificationReceived(id, ReceiptId(receiver, id)))
  }

  /** The receiver's own durable dedup, caught up record by record. */
  class ReceiverLedger {
    var receipts: map<NotificationId, ReceiptId>
    var duplicates: map<NotificationId, nat>
    var refused: nat
    var applied: nat

    function State(): Ledger
      reads this
    {
      Ledger(receipts, duplicates, refused, applied)
    }

    constructor ()
      ensures State() == EMPTY_LEDGER
    {
      receipts, duplicates, refused, applied := map[], map[], 0, 0;
    }

    /** Only the records not applied yet are applied. */
    method ApplyAll(journal: seq<ReceiverRecord>)
      requires applied <= |journal| && State() == LedgerOf(journal[..applied])
      modifies this
      ensures State() == LedgerOf(journal) && applied == |journal|
    {
      hide LedgerOf;
      while applied < |journal|
        invariant applied <= |journal| && State() == LedgerOf(journal[..applied])
        decreases |journal| - applied
      {
        TallyNext(journal, applied);
        match journal[applied] {
          case ReceiverStarted =>
          case NotificationReceived(id, receipt) => receipts := receipts[id := receipt];
          case NotificationDuplicate(id, _) => duplicates := duplicates[id := (if id in duplicates then duplicates[id] else 0) + 1];
          case NotificationRefused => refused := refused + 1;
        }
        applied := applied + 1;
      }
      assert journal[..applied] == journal;
    }
  }

  // -- both sides together

  /** The sender's steps, the receiver's journal, the messages sent and the receipts answered so far. */
  datatype Delivery = Delivery(
    choices: seq<ServiceChoice>, receiver: seq<ReceiverRecord>,
    sent: set<NotificationId>, answers: set<(NotificationId, ReceiptId)>)

  datatype DeliveryMove =
    | SenderMoves(choice: ServiceChoice)
    | SendAttempt(id: NotificationId)
    | ReceiverHandles(message: Option<NotificationId>)

  const IDLE := Delivery([], [], {}, {})

  function SenderView(cfg: InterventionConfig, d: Delivery): InterventionState { ApplyAll(NO_CASES, ServiceRun(cfg, d.choices)) }

  /** A delivered result needs an answer to that very notification; messages arrive only if sent, or are invalid. */
  predicate Enabled(cfg: InterventionConfig, d: Delivery, m: DeliveryMove) {
    match m
    case SenderMoves(c) =>
      c.step.Answer? && c.step.result.ResultDelivered? ==> (c.step.answered, c.step.result.receipt) in d.answers
    case SendAttempt(id) => id in SenderView(cfg, d).notifications && SenderView(cfg, d).notifications[id].state.Attempting?
    case ReceiverHandles(message) => message.Some? ==> message.value in d.sent
  }

  /** The receiver persists before it answers; an answer may still be lost. */
  function Next(cfg: InterventionConfig, receiver: string, d: Delivery, m: DeliveryMove): Delivery {
    if !Enabled(cfg, d, m) then d
    else match m
    case SenderMoves(c) => d.(choices := d.choices + [c])
    case SendAttempt(id) => d.(sent := d.sent + {id})
    case ReceiverHandles(message) =>
      var (response, record) := Receive(LedgerOf(d.receiver), receiver, message);
      d.(receiver := d.receiver + [record],
         answers := d.answers + if message.Some? && response.Receipt? then {(message.value, response.receipt)} else {})
  }

  function DeliveryRun(cfg: InterventionConfig, receiver: string, moves: seq<DeliveryMove>): Delivery {
    if moves == [] then IDLE else Next(cfg, receiver, DeliveryRun(cfg, receiver, moves[..|moves| - 1]), moves[|moves| - 1])
  }

  // -- the receiver's side

  lemma LedgerGrows(journal: seq<ReceiverRecord>, r: ReceiverRecord)
    ensures LedgerOf(journal + [r]) == Tally(LedgerOf(journal), r)
  {
    assert (journal + [r])[..|journal|] == journal;
  }

  /** Handling any message keeps every receipt already given. */
  lemma ReceiptsUnchanging(journal: seq<ReceiverRecord>, receiver: string, message: Option<NotificationId>, id: NotificationId)
    requires id in LedgerOf(journal).receipts
    ensures var after := LedgerOf(journal + [Receive(LedgerOf(journal), receiver, message).1]);
            id in after.receipts && after.receipts[id] == LedgerOf(journal).receipts[id]
  {
    LedgerGrows(journal, Receive(LedgerOf(journal), receiver, message).1);
  }

  ghost predicate AnswersPersisted(d: Delivery) {
    forall a :: a in d.answers ==> a.0 in LedgerOf(d.receiver).receipts && LedgerOf(d.receiver).receipts[a.0] == a.1
  }

  ghost predicate ResultsAnswered(journal: seq<Timed>, answers: set<(NotificationId, ReceiptId)>) {
    forall i :: 0 <= i < |journal| && journal[i].record.NotificationResult? && journal[i].record.result.ResultDelivered?
      ==> (journal[i].record.answered, journal[i].record.result.receipt) in answers
  }

  ghost predicate Honest(cfg: InterventionConfig, d: Delivery) {
    AnswersPersisted(d) && ResultsAnswered(ServiceRun(cfg, d.choices), d.answers)
  }

  lemma ReceiverKeepsAnswers(d: Delivery, receiver: string, message: Option<NotificationId>)
    requires AnswersPersisted(d)
    ensures var (response, record) := Receive(LedgerOf(d.receiver), receiver, message);
            AnswersPersisted(d.(receiver := d.receiver + [record],
                                answers := d.answers + if message.Some? && response.Receipt? then {(message.value, response.receipt)} else {}))
  {
    var (response, record) := Receive(LedgerOf(d.receiver), receiver, message);
    LedgerGrows(d.receiver, record);
    hide LedgerOf;
  }

  predicate DeliversNothing(rs: seq<InterventionRecord>) {
    forall r :: r in rs ==> !(r.NotificationResult? && r.result.ResultDelivered?)
  }

  lemma {:induction false} CaseTicksDeliverNothing(cfg: InterventionConfig, cases: seq<CaseView>, now: Time)
    ensures DeliversNothing(CaseTicks(cfg, cases, now))
    decreases |cases|
  {
    if cases != [] { CaseTicksDeliverNothing(cfg, cases[1..], now); }
  }

  lemma {:induction false} DeliveryTicksDeliverNothing(cfg: InterventionConfig, v: InterventionState, ids: seq<NotificationId>)
    ensures DeliversNothing(DeliveryTicks(cfg, v, ids))
    decreases |ids|
  {
    if ids != [] { DeliveryTicksDeliverNothing(cfg, v, ids[1..]); }
  }

  lemma {:induction false} GroupsDeliverNothing(cases: seq<CaseView>, items: seq<Observed>)
    ensures DeliversNothing(Groups(cases, items))
    decreases |items|
  {
    if items != [] {
      GroupsDeliverNothing(cases, items[1..]);
      hide Local, FirstOpen, Latest, Known, SameEvidence;
    }
  }

  lemma {:induction false} ClearsDeliverNothing(cases: seq<CaseView>, seen: set<CaseId>)
    ensures DeliversNothing(Clears(cases, seen))
    decreases |cases|
  {
    if cases != [] { ClearsDeliverNothing(cases[1..], seen); }
  }

  /** Only an answer can record a delivery. */
  lemma DeliveriesAreAnswers(cfg: InterventionConfig, v: InterventionState, step: ServiceStep, i: nat)
    requires ServiceOk(cfg, v) && i < |StepBatch(cfg, v, step)|
    ensures var r := StepBatch(cfg, v, step)[i].record;
            r.NotificationResult? && r.result.ResultDelivered? ==> step.Answer? && r == NotificationResult(step.answered, step.result)
  {
    ServiceFits(cfg, v);
    match step
    case ReconcileWith(items, now) =>
      GroupsDeliverNothing(v.cases, items);
      ClearsDeliverNothing(v.cases, SeenOpen(v.cases, items));
      if v.pending == [] {
        assert FreshRecords(v.cases, items)[i] in FreshRecords(v.cases, items);
      }
      hide Groups, Clears, SeenOpen, ServiceOk;
    case TickAt(ids, now) =>
      CaseTicksDeliverNothing(cfg, v.cases, now);
      DeliveryTicksDeliverNothing(cfg, v, ids);
      var rs := CaseTicks(cfg, v.cases, now) + DeliveryTicks(cfg, v, ids);
      assert i < |rs| && rs[i] in rs;
      hide CaseTicks, DeliveryTicks, ServiceOk;
    case _ => hide ServiceOk, Known, Find;
  }

  lemma BatchAnswered(cfg: InterventionConfig, d: Delivery, v: InterventionState, c: ServiceChoice)
    requires ServiceOk(cfg, v) && Enabled(cfg, d, SenderMoves(c))
    ensures ResultsAnswered(Kept(StepBatch(cfg, v, c.step), c.persisted), d.answers)
  {
    var batch := StepBatch(cfg, v, c.step);
    forall i | 0 <= i < |batch| && batch[i].record.NotificationResult? && batch[i].record.result.ResultDelivered?
      ensures (batch[i].record.answered, batch[i].record.result.receipt) in d.answers
    {
      DeliveriesAreAnswers(cfg, v, c.step, i);
      hide StepBatch, ServiceOk;
    }
    hide StepBatch, ServiceOk;
  }

  lemma ResultsExtend(a: seq<Timed>, b: seq<Timed>, answers: set<(NotificationId, ReceiptId)>)
    requires ResultsAnswered(a, answers) && ResultsAnswered(b, answers)
    ensures ResultsAnswered(a + b, answers)
  {
  }

  lemma SenderKeepsResults(cfg: InterventionConfig, d: Delivery, c: ServiceChoice)
    requires Honest(cfg, d) && Enabled(cfg, d, SenderMoves(c))
    ensures ResultsAnswered(ServiceRun(cfg, d.choices + [c]), d.answers)
  {
    var journal := ServiceRun(cfg, d.choices);
    var v := ApplyAll(NO_CASES, journal);
    assert (d.choices + [c])[..|d.choices|] == d.choices;
    assert ServiceRun(cfg, d.choices + [c]) == journal + Kept(StepBatch(cfg, v, c.step), c.persisted);
    assert ResultsAnswered(journal, d.answers);
    hide *;
    RunLegal(cfg, d.choices);
    BatchAnswered(cfg, d, v, c);
    ResultsExtend(journal, Kept(StepBatch(cfg, v, c.step), c.persisted), d.answers);
  }

  lemma {:induction false} RunHonest(cfg: InterventionConfig, receiver: string, moves: seq<DeliveryMove>)
    ensures Honest(cfg, DeliveryRun(cfg, receiver, moves))
  {
    if moves == [] {
      assert ServiceRun(cfg, []) == [];
    } else {
      var d := DeliveryRun(cfg, receiver, moves[..|moves| - 1]);
      var m := moves[|moves| - 1];
      RunHonest(cfg, receiver, moves[..|moves| - 1]);
      if Enabled(cfg, d, m) {
        if m.SenderMoves? { SenderKeepsResults(cfg, d, m.choice); }
        if m.ReceiverHandles? { ReceiverKeepsAnswers(d, receiver, m.message); }
      }
      hide ServiceRun, LedgerOf, Receive, SenderView;
    }
  }

  // -- the sender's side

  ghost predicate HasResult(journal: seq<Timed>, n: nat, id: NotificationId, receipt: ReceiptId)
    requires n <= |journal|
  {
    exists i :: 0 <= i < n && journal[i].record == NotificationResult(id, ResultDelivered(receipt))
  }

  lemma DeliveredStep(cfg: InterventionConfig, v: InterventionState, t: Timed, id: NotificationId)
    requires ServiceOk(cfg, v) && Legal(cfg, v, t) && id in Apply(v, t).notifications
    requires Apply(v, t).notifications[id].state.Delivered?
    ensures Apply(v, t).notifications[id].receipt.Some?
    ensures t.record == NotificationResult(id, ResultDelivered(Apply(v, t).notifications[id].receipt.value))
         || (id in v.notifications && v.notifications[id].state.Delivered? && v.notifications[id].receipt == Apply(v, t).notifications[id].receipt)
  {
    assert BudgetsOk(cfg, v);
    hide CasesAfter, PendingAfter, NoticesOk, PendingOk, OneOpenPerSlot, ReminderAllowed;
  }

  lemma {:induction false} DeliveredHasResult(cfg: InterventionConfig, journal: seq<Timed>, n: nat, id: NotificationId)
    requires LegalJournal(cfg, journal) && n <= |journal|
    requires id in At(journal, n).notifications && At(journal, n).notifications[id].state.Delivered?
    ensures At(journal, n).notifications[id].receipt.Some? && HasResult(journal, n, id, At(journal, n).notifications[id].receipt.value)
    decreases n
  {
    if n == 0 {
      NothingYet(journal);
    } else {
      StepAt(cfg, journal, n - 1);
      DeliveredStep(cfg, At(journal, n - 1), journal[n - 1], id);
      hide LegalJournal, At, Apply, ServiceOk, Legal;
      if journal[n - 1].record != NotificationResult(id, ResultDelivered(At(journal, n).notifications[id].receipt.value)) {
        DeliveredHasResult(cfg, journal, n - 1, id);
      }
    }
  }

  lemma NothingYet(journal: seq<Timed>)
    ensures At(journal, 0).notifications == map[]
  {
    assert journal[..0] == [];
  }

  /** DELIVERED is never claimed of a notification the receiver has not persisted, and the receipts agree. */
  lemma DeliveredWasReceived(cfg: InterventionConfig, receiver: string, moves: seq<DeliveryMove>, id: NotificationId)
    requires var v := SenderView(cfg, DeliveryRun(cfg, receiver, moves));
             id in v.notifications && v.notifications[id].state.Delivered?
    ensures var d := DeliveryRun(cfg, receiver, moves);
            && id in LedgerOf(d.receiver).receipts
            && SenderView(cfg, d).notifications[id].receipt == Some(LedgerOf(d.receiver).receipts[id])
  {
    var d := DeliveryRun(cfg, receiver, moves);
    var journal := ServiceRun(cfg, d.choices);
    RunHonest(cfg, receiver, moves);
    OkAt(cfg, d.choices, |journal|);
    assert journal[..|journal|] == journal;
    assert At(journal, |journal|) == SenderView(cfg, d);
    hide DeliveryRun, ServiceRun, LedgerOf, At, LegalJournal, ServiceOk, SenderView;
    DeliveredHasResult(cfg, journal, |journal|, id);
  }

  /** A journaled attempt never exceeds the budget, whatever the channel does. */
  lemma AttemptsBounded(cfg: InterventionConfig, choices: seq<ServiceChoice>, n: nat, id: NotificationId)
    requires n <= |ServiceRun(cfg, choices)| && id in At(ServiceRun(cfg, choices), n).notifications
    ensures At(ServiceRun(cfg, choices), n).notifications[id].attempts <= cfg.notifyMaxAttempts
  {
    OkAt(cfg, choices, n);
    hide ServiceRun, At, LegalJournal, NoticesOk, PendingOk, OneOpenPerSlot;
  }

  // -- one receipt

  function ReceiptCount(journal: seq<ReceiverRecord>, id: NotificationId): nat {
    if journal == [] then 0
    else ReceiptCount(journal[..|journal| - 1], id)
         + if journal[|journal| - 1].NotificationReceived? && journal[|journal| - 1].received == id then 1 else 0
  }

  lemma CountGrows(journal: seq<ReceiverRecord>, r: ReceiverRecord, id: NotificationId)
    ensures ReceiptCount(journal + [r], id) == ReceiptCount(journal, id) + if r.NotificationReceived? && r.received == id then 1 else 0
  {
    assert (journal + [r])[..|journal|] == journal;
  }

  ghost predicate OneReceipt(journal: seq<ReceiverRecord>, receiver: string, id: NotificationId) {
    && ReceiptCount(journal, id) == (if id in LedgerOf(journal).receipts then 1 else 0)
    && (id in LedgerOf(journal).receipts ==> LedgerOf(journal).receipts[id] == ReceiptId(receiver, id))
  }

  lemma ReceivingKeepsOne(journal: seq<ReceiverRecord>, receiver: string, message: Option<NotificationId>, id: NotificationId)
    requires OneReceipt(journal, receiver, id)
    ensures OneReceipt(journal + [Receive(LedgerOf(journal), receiver, message).1], receiver, id)
  {
    var record := Receive(LedgerOf(journal), receiver, message).1;
    CountGrows(journal, record, id);
    LedgerGrows(journal, record);
    hide LedgerOf, ReceiptCount;
  }

  /** However often a notification arrives, the receiver issues one receipt for it, which never changes. */
  lemma {:induction false} OneReceiptPerNotification(cfg: InterventionConfig, receiver: string, moves: seq<DeliveryMove>, id: NotificationId)
    ensures OneReceipt(DeliveryRun(cfg, receiver, moves).receiver, receiver, id)
  {
    if moves != [] {
      var d := DeliveryRun(cfg, receiver, moves[..|moves| - 1]);
      var m := moves[|moves| - 1];
      OneReceiptPerNotification(cfg, receiver, moves[..|moves| - 1], id);
      if m.ReceiverHandles? && Enabled(cfg, d, m) { ReceivingKeepsOne(d.receiver, receiver, m.message, id); }
      hide ServiceRun, LedgerOf, SenderView, ReceiptCount, OneReceipt;
    }
  }
}
