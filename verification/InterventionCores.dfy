/** The live intervention view: cases, notifications and owed intents, updated in place record by record. */
module InterventionCores {
  import opened Common
  import opened TaskContracts
  import opened InterventionViews
  import opened InterventionConvergence

  /** With distinct ids, a record about one listed case changes that one only. */
  lemma {:induction false} SteppedOnce(cases: seq<CaseView>, r: InterventionRecord, at: Time, i: nat)
    requires DistinctCases(cases) && i < |cases| && About(r) == Some(cases[i].id)
    ensures Stepped(cases, r, at) == cases[i := CaseEffect(cases[i], r, at)]
  {
    forall k | 0 <= k < |cases| ensures Stepped(cases, r, at)[k] == cases[i := CaseEffect(cases[i], r, at)][k] {
      SteppedAt(cases, r, at, k);
    }
    hide Stepped, CaseEffect;
  }

  lemma NotAbout(cases: seq<CaseView>, r: InterventionRecord, at: Time)
    requires About(r).None?
    ensures CasesAfter(cases, r, at) == cases
  {
    NoneTouched(cases, r, at);
  }

  lemma FoundAt(cases: seq<CaseView>, i: nat)
    requires DistinctCases(cases) && i < |cases|
    ensures Known(cases, cases[i].id) && Find(cases, cases[i].id) == cases[i]
    decreases |cases|
  {
    if i > 0 {
      KnownFront(cases, cases[i].id);
      FoundAt(cases[1..], i - 1);
    }
  }

  class InterventionView {
    var cases: seq<CaseView>
    var notifications: map<NotificationId, NotificationView>
    var pending: seq<Timed>
    var startedAt: Option<Time>
    var applied: nat

    function State(): InterventionState
      reads this
    {
      InterventionState(cases, notifications, pending, startedAt, applied)
    }

    /** Cases are kept under their id. */
    ghost predicate Valid()
      reads this
    {
      DistinctCases(cases)
    }

    constructor ()
      ensures Valid() && State() == NO_CASES
    {
      cases, notifications, pending, startedAt, applied := [], map[], [], None, 0;
    }

    /** Where a known case is listed. */
    method IndexOf(id: CaseId) returns (i: nat)
      requires Known(cases, id)
      ensures i < |cases| && cases[i].id == id
    {
      i := 0;
      while i < |cases| && cases[i].id != id
        invariant i <= |cases| && forall k :: 0 <= k < i ==> cases[k].id != id
      {
        i := i + 1;
      }
    }

    /** The intent a case is owed from now on, replacing one owed for the same case and reason. */
    method Owe(owed: Timed)
      requires owed.record.NotificationIntended?
      modifies this`pending
      ensures pending == Put(old(pending), owed)
    {
      pending := Put(pending, owed);
    }

    /** The fields of one case, changed as its record says. */
    method UpdateCase(r: InterventionRecord, at: Time)
      requires Valid() && About(r).Some? && Known(cases, About(r).value) && !r.CaseOpened?
      modifies this`cases
      ensures Valid() && cases == CasesAfter(old(cases), r, at)
    {
      var i := IndexOf(About(r).value);
      SteppedOnce(cases, r, at, i);
      StaysDistinct(cases, r, at);
      var c := cases[i];
      match r {
        case CaseEvidenceAdded(_, key, evidence) =>
          c := c.(evidence := evidence, key := key);
          c := c.(history := c.history + 1);
        case CaseEscalated(_, severity, key, evidence) =>
          c := c.(severity := severity, evidence := evidence, key := key);
          c := c.(history := c.history + 1);
        case CaseConditionCleared(_) => c := c.(active := false);
        case CaseConditionReturned(_, key, evidence) =>
          c := c.(active := true, evidence := evidence, key := key);
          c := c.(history := c.history + 1);
        case CaseAcknowledged(_, operator, text) => c := c.(human := Acknowledged, acknowledged := Some(Action(operator, at, text)));
        case CaseResolved(_, operator, text) => c := c.(human := Resolved, resolved := Some(Action(operator, at, text)));
        case NotificationIntended(n) =>
          c := c.(notices := c.notices + [n.id]);
          if c.lastIntentAt.None? || c.lastIntentAt.value <= at { c := c.(lastIntentAt := Some(at)); }
          if n.id.intent.ReminderIntent? { c := c.(reminders := c.reminders + 1); }
        case RemindersExhausted(_) => c := c.(remindersExhausted := true);
      }
      assert c == CaseEffect(cases[i], r, at);
      hide CaseEffect, Stepped, DistinctCases;
      cases := cases[i := c];
      assert Stepped(old(cases), r, at) + [] == Stepped(old(cases), r, at);
    }

    method OpenCase(r: InterventionRecord, at: Time)
      requires Valid() && r.CaseOpened?
      modifies this`cases
      ensures Valid() && cases == CasesAfter(old(cases), r, at)
    {
      StaysDistinct(cases, r, at);
      if Known(cases, r.openedCase) {
        var i := IndexOf(r.openedCase);
        SteppedOnce(cases, r, at, i);
        cases := cases[i := NewCase(r, at)];
        assert Stepped(old(cases), r, at) + [] == Stepped(old(cases), r, at);
      } else {
        UnknownUntouched(cases, r, at);
        cases := cases + [NewCase(r, at)];
      }
      hide Stepped, DistinctCases, Known;
    }

    /** Delivery bookkeeping of one notification. */
    method UpdateNotification(r: InterventionRecord, at: Time)
      requires Delivers(r).Some? && Delivers(r).value in notifications
      modifies this`notifications
      ensures notifications == NotificationsAfter(old(notifications), r, at)
    {
      var n := notifications[Delivers(r).value];
      match r {
        case NotificationAttempted(_, attempt) =>
          n := n.(attempts := attempt, lastAttemptAt := Some(at), state := Attempting);
        case NotificationResult(_, result) =>
          n := n.(lastResult := Some(result), lastResultAt := Some(at));
          if result.ResultDelivered? { n := n.(state := Delivered, receipt := Some(result.receipt)); }
          else if result.ResultUnknown? { n := n.(state := UnknownOutcome); }
          else { n := n.(state := FailedAttempt); }
        case NotificationExhausted(_) => n := n.(state := Exhausted);
      }
      notifications := notifications[Delivers(r).value := n];
    }

    /** A record about a known case: the case, then the intent it is owed or the notification it pays. */
    method ApplyToCase(t: Timed)
      requires Valid() && Applicable(State(), t.record) && About(t.record).Some? && !t.record.CaseOpened?
      modifies this`cases, this`notifications, this`pending
      ensures Valid() && State() == Apply(old(State()), t).(applied := applied)
    {
      var r := t.record;
      hide CasesAfter, Put, Drop, DistinctCases, Known, Find;
      UpdateCase(r, t.at);
      StaysDistinct(old(cases), r, t.at);
      if r.CaseEscalated? {
        var i := IndexOf(r.escalated);
        FoundAt(cases, i);
        Owe(Timed(IntentFor(cases[i], EscalationIntent, r.severity, r.evidence), t.at));
      } else if r.NotificationIntended? {
        notifications := notifications[r.notice.id := NotificationView(r.notice, t.at, 0, None, None, None, None, Pending)];
        pending := Drop(pending, r.notice.id.caseId, r.notice.id.intent);
      }
    }

    /** One record, applied to the live fields: exactly the record's effect on the view. */
    method ApplyRecord(t: Timed)
      requires Valid() && Applicable(State(), t.record)
      modifies this
      ensures Valid() && State() == Apply(old(State()), t)
    {
      var r := t.record;
      if r.CaseOpened? {
        OpenCase(r, t.at);
        OpenedKnown(old(cases), r, t.at);
        var i := IndexOf(r.openedCase);
        FoundAt(cases, i);
        Owe(Timed(IntentFor(cases[i], OpenedIntent, r.severity, r.evidence), t.at));
      } else if About(r).Some? {
        ApplyToCase(t);
      } else {
        NotAbout(cases, r, t.at);
        if Delivers(r).Some? { UpdateNotification(r, t.at); }
        else if r.ServiceStarted? { startedAt := Some(t.at); }
      }
      applied := applied + 1;
      hide CasesAfter, Put, Drop, DistinctCases, Known, Find;
    }
  }

  lemma OpenedKnown(cases: seq<CaseView>, r: InterventionRecord, at: Time)
    requires r.CaseOpened?
    ensures Known(CasesAfter(cases, r, at), r.openedCase)
  {
    var after := CasesAfter(cases, r, at);
    SteppedIds(cases, r, at);
    if Known(cases, r.openedCase) {
      var i :| 0 <= i < |cases| && cases[i].id == r.openedCase;
      assert after[i].id == r.openedCase;
    } else {
      assert after[|cases|].id == r.openedCase;
    }
    hide Stepped, CaseEffect;
  }
}
