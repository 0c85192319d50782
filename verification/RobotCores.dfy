/** The executor object: its live view, its exit flag, and the boot batch built on a scratch view. */
module RobotCores {
  import opened Common
  import opened TaskContracts
  import opened RobotViews
  import opened RobotExecutor

  /** Tasks are filed under the id of their own request. */
  ghost predicate Keyed(s: RobotState) {
    forall id :: id in s.tasks ==> s.tasks[id].request.taskId == id
  }

  ghost predicate AllApplicable(s: RobotState, rs: seq<RobotRecord>)
    decreases |rs|
  {
    rs == [] || (Applicable(s, rs[0]) && AllApplicable(Apply(s, rs[0]), rs[1..]))
  }

  lemma {:induction false} ApplyConcat(s: RobotState, a: seq<RobotRecord>, b: seq<RobotRecord>)
    ensures ApplyAll(s, a + b) == ApplyAll(ApplyAll(s, a), b)
    decreases |a|
  {
    hide Apply;
    if a == [] {
      assert a + b == b;
    } else {
      ApplyConcat(Apply(s, a[0]), a[1..], b);
      assert (a + b)[1..] == a[1..] + b;
    }
  }

  lemma ApplyKeepsKeys(s: RobotState, r: RobotRecord)
    requires Keyed(s) && !r.RequestReceived?
    ensures Keyed(Apply(s, r)) && Apply(s, r).tasks.Keys == s.tasks.Keys
  {
  }

  lemma {:induction false} BatchKeepsKeys(s: RobotState, rs: seq<RobotRecord>)
    requires Keyed(s) && forall i :: 0 <= i < |rs| ==> !rs[i].RequestReceived?
    requires forall i :: 0 <= i < |rs| ==> Applicable(s, rs[i])
    ensures AllApplicable(s, rs) && Keyed(ApplyAll(s, rs)) && ApplyAll(s, rs).tasks.Keys == s.tasks.Keys
    decreases |rs|
  {
    if rs != [] {
      ApplyKeepsKeys(s, rs[0]);
      hide Apply, Keyed;
      BatchKeepsKeys(Apply(s, rs[0]), rs[1..]);
    }
  }

  lemma PassRecordsApplicable(pass: nat, s: RobotState, cfg: RobotConfig, behavior: Behavior, id: TaskId, now: Time)
    requires 1 <= pass <= 3 && Keyed(s)
    ensures var rs := PassRecords(pass, s, cfg, behavior, id, now);
            AllApplicable(s, rs) && Keyed(ApplyAll(s, rs))
  {
    var rs := PassRecords(pass, s, cfg, behavior, id, now);
    assert forall i :: 0 <= i < |rs| ==> !rs[i].RequestReceived? && Applicable(s, rs[i]);
    hide *;
    BatchKeepsKeys(s, rs);
  }

  class RobotCore {
    const cfg: RobotConfig
    const behavior: Behavior
    const view: RobotView
    var exitRequested: bool

    constructor (cfg: RobotConfig, behavior: Behavior)
      ensures this.cfg == cfg && this.behavior == behavior && !exitRequested
      ensures fresh(view) && view.State() == INITIAL
    {
      this.cfg, this.behavior, exitRequested := cfg, behavior, false;
      view := new RobotView();
    }

    /** Nothing once an exit was requested; otherwise the tick's records, and its exit request. */
    method Tick(now: Time) returns (specs: seq<RobotRecord>)
      modifies this`exitRequested
      ensures specs == if old(exitRequested) then [] else DecideTick(view.State(), cfg, behavior, now).records
      ensures exitRequested == (old(exitRequested) || DecideTick(view.State(), cfg, behavior, now).exits)
    {
      if exitRequested { return []; }
      var decision := DecideTick(view.State(), cfg, behavior, now);
      exitRequested := decision.exits;
      specs := decision.records;
    }

    method ApplyScratch(scratch: RobotView, specs: seq<RobotRecord>)
      requires AllApplicable(scratch.State(), specs)
      modifies scratch
      ensures scratch.State() == ApplyAll(old(scratch.State()), specs)
    {
      for i := 0 to |specs|
        invariant AllApplicable(scratch.State(), specs[i..])
        invariant ApplyAll(scratch.State(), specs[i..]) == ApplyAll(old(scratch.State()), specs)
      {
        assert specs[i..][1..] == specs[i + 1..];
        scratch.ApplyRecord(specs[i]);
      }
    }

    /** One restart pass over the ordered tasks, each decision seeing the records before it. */
    method RunPass(pass: nat, scratch: RobotView, ordered: seq<TaskId>, now: Time) returns (specs: seq<RobotRecord>)
      requires 1 <= pass <= 3 && Keyed(scratch.State())
      modifies scratch
      ensures specs == Pass(pass, old(scratch.State()), cfg, behavior, ordered, now)
      ensures scratch.State() == ApplyAll(old(scratch.State()), specs) && Keyed(scratch.State())
    {
      specs := [];
      ghost var start := scratch.State();
      PassBegins(pass, start, cfg, behavior, ordered, now);
      hide *;
      for i := 0 to |ordered|
        invariant PassedSoFar(pass, start, scratch.State(), specs, ordered, i, cfg, behavior, now)
      {
        ghost var before := scratch.State();
        var batch := PassRecords(pass, scratch.State(), cfg, behavior, ordered[i], now);
        PassGoesOn(pass, start, before, specs, ordered, i, cfg, behavior, now);
        ApplyScratch(scratch, batch);
        specs := specs + batch;
      }
      PassEnds(pass, start, scratch.State(), specs, cfg, behavior, ordered, now);
    }

    /** The boot batch, decided on a scratch copy: the live view does not move until the records are durable. */
    method OnStart(now: Time, initialize: bool, nonce: string) returns (batch: Result<seq<RobotRecord>, StartError>)
      requires Keyed(view.State())
      ensures batch == StartBatch(view.State(), cfg, behavior, now, initialize, nonce)
    {
      var refusal := AssertStartable(view.State(), initialize);
      if refusal.Some? { return Err(refusal.value); }
      if initialize && nonce == "" { return Err(NonceMissing); }
      var boot := BootRecords(view.State(), cfg, now, initialize, nonce);
      var scratch := new RobotView.Copy(view);
      BatchKeepsKeys(scratch.State(), boot);
      ApplyScratch(scratch, boot);
      var ordered := Ascending(scratch.tasks.Keys);
      var interrupted := RunPass(1, scratch, ordered, now);
      var rejections := RunPass(2, scratch, ordered, now);
      var decisions := RunPass(3, scratch, ordered, now);
      batch := Ok(boot + interrupted + rejections + decisions);
    }
  }

  /** The first i tasks of a pass are decided: their records, then what the rest of the pass decides, make up the pass. */
  ghost predicate PassedSoFar(pass: nat, start: RobotState, s: RobotState, specs: seq<RobotRecord>, ordered: seq<TaskId>, i: nat,
                              cfg: RobotConfig, behavior: Behavior, now: Time)
    requires 1 <= pass <= 3 && i <= |ordered|
  {
    && Keyed(s) && s == ApplyAll(start, specs)
    && specs + Pass(pass, s, cfg, behavior, ordered[i..], now) == Pass(pass, start, cfg, behavior, ordered, now)
  }

  lemma PassBegins(pass: nat, s: RobotState, cfg: RobotConfig, behavior: Behavior, ordered: seq<TaskId>, now: Time)
    requires 1 <= pass <= 3 && Keyed(s)
    ensures PassedSoFar(pass, s, s, [], ordered, 0, cfg, behavior, now)
  {
    assert ordered[0..] == ordered;
    hide Keyed;
  }

  lemma PassGoesOn(pass: nat, start: RobotState, s: RobotState, specs: seq<RobotRecord>, ordered: seq<TaskId>, i: nat,
                   cfg: RobotConfig, behavior: Behavior, now: Time)
    requires 1 <= pass <= 3 && i < |ordered| && PassedSoFar(pass, start, s, specs, ordered, i, cfg, behavior, now)
    ensures var batch := PassRecords(pass, s, cfg, behavior, ordered[i], now);
            AllApplicable(s, batch) && PassedSoFar(pass, start, ApplyAll(s, batch), specs + batch, ordered, i + 1, cfg, behavior, now)
  {
    hide Keyed, ApplyAll, Pass, PassRecords, AllApplicable;
    var batch := PassRecords(pass, s, cfg, behavior, ordered[i], now);
    PassRecordsApplicable(pass, s, cfg, behavior, ordered[i], now);
    ApplyConcat(start, specs, batch);
    PassUnfolds(pass, s, cfg, behavior, ordered, i, now);
    var rest := Pass(pass, ApplyAll(s, batch), cfg, behavior, ordered[i + 1..], now);
    assert specs + (batch + rest) == (specs + batch) + rest;
  }

  lemma PassEnds(pass: nat, start: RobotState, s: RobotState, specs: seq<RobotRecord>, cfg: RobotConfig, behavior: Behavior,
                 ordered: seq<TaskId>, now: Time)
    requires 1 <= pass <= 3 && PassedSoFar(pass, start, s, specs, ordered, |ordered|, cfg, behavior, now)
    ensures specs == Pass(pass, start, cfg, behavior, ordered, now) && s == ApplyAll(start, specs) && Keyed(s)
  {
    assert ordered[|ordered|..] == [] && specs + [] == specs;
    hide Keyed, ApplyAll;
  }

  lemma PassUnfolds(pass: nat, s: RobotState, cfg: RobotConfig, behavior: Behavior, ordered: seq<TaskId>, i: nat, now: Time)
    requires 1 <= pass <= 3 && i < |ordered|
    ensures var batch := PassRecords(pass, s, cfg, behavior, ordered[i], now);
            Pass(pass, s, cfg, behavior, ordered[i..], now) == batch + Pass(pass, ApplyAll(s, batch), cfg, behavior, ordered[i + 1..], now)
  {
    assert ordered[i..][0] == ordered[i] && ordered[i..][1..] == ordered[i + 1..];
    hide PassRecords, ApplyAll;
  }
}
