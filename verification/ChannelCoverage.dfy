/**
 * Total channel coverage: whatever a batch of raw samples holds, the kit publishes exactly one observation
 * per commissioned channel, and a reading stands only where exactly one trustworthy sample claims the channel.
 */
module ChannelCoverage {
  import opened Common
  import opened ChannelCollectors
  import opened ChannelAdapters

  datatype Kit = Kit(
    bindings: seq<Binding>, coordinateFrame: string, loadCells: map<string, LoadCellProfile>,
    devices: map<string, DeviceProfile>, inputs: map<string, InputProfile>, robots: map<string, RobotProfile>)
  {
    /** The binding set is commissioned with no repeated channel. */
    predicate Valid() { forall i, j :: 0 <= i < j < |bindings| ==> bindings[i].channel != bindings[j].channel }
  }

  datatype Batch = Batch(frame: real, loadCells: seq<LoadCellSample>, snapshots: seq<Snapshot>, robots: seq<RobotSample>) {
    predicate Valid() {
      && (forall i :: 0 <= i < |loadCells| ==> loadCells[i].timing.sampled <= loadCells[i].timing.available)
      && (forall i :: 0 <= i < |snapshots| ==> snapshots[i].timing.sampled <= snapshots[i].timing.available)
      && (forall i :: 0 <= i < |robots| ==> robots[i].timing.sampled <= robots[i].timing.available)
    }
  }

  // -- the whole conversion as acts

  function LoadCellsActs(kit: Kit, batch: Batch, n: nat): seq<Act>
    requires n <= |batch.loadCells|
  {
    if n == 0 then []
    else LoadCellsActs(kit, batch, n - 1) + LoadCellActs(batch.loadCells[n - 1], kit.bindings, kit.loadCells, batch.frame)
  }

  function DeviceActs(kit: Kit, s: Snapshot, frame: real): seq<Act> {
    match Lookup(kit.devices, s.deviceId)
    case None => [DoReject(RejectedField(s.deviceId, None, "device_id", UnknownSource))]
    case Some(device) => SnapshotActs(s, Wiring(kit.bindings, device, kit.inputs), frame)
  }

  function SnapshotsActs(kit: Kit, batch: Batch, n: nat): seq<Act>
    requires n <= |batch.snapshots|
  {
    if n == 0 then [] else SnapshotsActs(kit, batch, n - 1) + DeviceActs(kit, batch.snapshots[n - 1], batch.frame)
  }

  function RobotsActs(kit: Kit, batch: Batch, n: nat): seq<Act>
    requires n <= |batch.robots|
  {
    if n == 0 then []
    else RobotsActs(kit, batch, n - 1) + RobotActs(batch.robots[n - 1], kit.bindings, kit.robots, kit.coordinateFrame, batch.frame)
  }

  function SampleActs(kit: Kit, batch: Batch): seq<Act> {
    LoadCellsActs(kit, batch, |batch.loadCells|) + SnapshotsActs(kit, batch, |batch.snapshots|)
    + RobotsActs(kit, batch, |batch.robots|)
  }

  /** The gap published for a commissioned channel that no sample claimed, given what the samples left behind. */
  function GapActs(claimed: set<string>, rejected: set<string>, b: Binding, frame: real): seq<Act> {
    if b.channel in claimed then []
    else if b.channel in rejected then [DoEmit(b, "(rejected sample)", None, Missing, Timing(frame, frame))]
    else [DoEmitMissing(b, "(no sample)", NoSample, Timing(frame, frame))]
  }

  function GapsActs(claimed: set<string>, rejected: set<string>, bindings: seq<Binding>, n: nat, frame: real): seq<Act>
    requires n <= |bindings|
  {
    if n == 0 then []
    else GapsActs(claimed, rejected, bindings, n - 1, frame) + GapActs(claimed, rejected, bindings[n - 1], frame)
  }

  /** The gaps left by the samples. */
  function ClosingActs(c: Collected, bindings: seq<Binding>, frame: real): seq<Act> {
    GapsActs(c.claimed.Keys, c.rejectedChannels, bindings, |bindings|, frame)
  }

  function AfterSamples(kit: Kit, batch: Batch): Collected { PerformAll(NOTHING, SampleActs(kit, batch)) }

  function Converted(kit: Kit, batch: Batch): Collected {
    var c := AfterSamples(kit, batch);
    PerformAll(c, ClosingActs(c, kit.bindings, batch.frame))
  }

  // -- the conversion as the kit performs it

  method ConvertLoadCell(sample: LoadCellSample, kit: Kit, collector: Collector)
    modifies collector
    ensures collector.Contents() == PerformAll(old(collector.Contents()), LoadCellActs(sample, kit.bindings, kit.loadCells, collector.frame))
  {
    ghost var before := collector.Contents();
    ghost var acts := LoadCellActs(sample, kit.bindings, kit.loadCells, collector.frame);
    PerformOne(before, acts[|acts| - 1]);
    if sample.diagnosticCode.Some? {
      collector.Unmap(sample.sensorId, "diagnostic_code");
      PerformBoth(before, acts[0], acts[1]);
      assert acts == [acts[0], acts[1]];
    } else {
      assert acts == [acts[0]];
    }
    var binding := BySensor(kit.bindings, sample.sensorId);
    if binding.None? {
      collector.Reject(sample.sensorId, None, "raw_value", NoBinding);
      return;
    }
    var b := binding.value;
    if b.kind !in {Count, Quantity} {
      collector.Reject(sample.sensorId, Some(b.channel), "raw_value", UnsupportedChannel);
      return;
    }
    if b.unit != "balls" {
      collector.Reject(sample.sensorId, Some(b.channel), "raw_value", UnsupportedUnit);
      return;
    }
    var verdict := JudgeLoadCell(sample, b, kit.loadCells, collector.frame);
    PublishOn(collector, b, "raw_value", verdict, sample.timing);
  }

  /** What each adapter does with a verdict. */
  method PublishOn(collector: Collector, b: Binding, rawField: string, verdict: Verdict, timing: Timing)
    modifies collector
    ensures collector.Contents() == Perform(old(collector.Contents()), Publish(b, rawField, verdict, timing))
  {
    match verdict
    case Distrust(code) => collector.EmitMissing(b, rawField, code, timing);
    case Trust(value, stale) => collector.Emit(b, rawField, Some(value), if stale then Stale else Good, timing);
  }

  lemma PerformOne(c: Collected, act: Act)
    ensures PerformAll(c, [act]) == Perform(c, act)
  {
    assert [act][..0] == [];
  }

  lemma PerformBoth(c: Collected, first: Act, second: Act)
    ensures PerformAll(c, [first, second]) == Perform(Perform(c, first), second)
  {
    PerformOne(c, first);
    assert [first, second][..1] == [first];
  }

  method ConvertSnapshot(s: Snapshot, w: Wiring, collector: Collector)
    modifies collector
    ensures collector.Contents() ==
      PerformAll(old(collector.Contents()), SnapshotActs(s, w, collector.frame))
  {
    ghost var before := collector.Contents();
    if w.device.deviceId != s.deviceId {
      collector.Reject(s.deviceId, None, "device_id", IdentityMismatch);
      PerformOne(before, DoReject(RejectedField(s.deviceId, None, "device_id", IdentityMismatch)));
      return;
    }
    hide *;
    var impossible := RejectImpossible(s, w, collector);
    ConvertInputs(s, w, impossible, collector);
    MatchingDeviceActs(s, w, collector.frame);
    PerformInTwo(before, PairsRejections(s, w.device.exclusive, w.profiles),
                 InputsActs(s, |s.inputs|, w, collector.frame));
  }

  lemma MatchingDeviceActs(s: Snapshot, w: Wiring, frame: real)
    requires w.device.deviceId == s.deviceId
    ensures SnapshotActs(s, w, frame) ==
      PairsRejections(s, w.device.exclusive, w.profiles) + InputsActs(s, |s.inputs|, w, frame)
  {
  }

  /** The sensors met so far in one snapshot. */
  datatype Sensors = Sensors(ids: set<string>)

  method ConvertInputs(s: Snapshot, w: Wiring, impossible: set<string>, collector: Collector)
    requires NamesImpossible(impossible, s, w)
    modifies collector
    ensures collector.Contents() == PerformAll(old(collector.Contents()), InputsActs(s, |s.inputs|, w, collector.frame))
  {
    hide *;
    ghost var middle := collector.Contents();
    ghost var frame := collector.frame;
    var seen := Sensors({});
    NoInputs(w, s, middle, frame);
    for i := 0 to |s.inputs|
      invariant AfterInputs(collector.Contents(), middle, seen, s, i, w, frame)
    {
      seen := NextInputConverted(s, i, w, impossible, seen, collector, middle);
    }
    AllInputs(collector.Contents(), middle, seen, s, w, frame);
  }

  /** The collector after the first n inputs, and the sensors seen among them. */
  ghost predicate AfterInputs(now: Collected, start: Collected, seen: Sensors, s: Snapshot, n: nat, w: Wiring, frame: real) {
    n <= |s.inputs| && now == PerformAll(start, InputsActs(s, n, w, frame)) && SeenAre(seen, w, s, n)
  }

  method NextInputConverted(s: Snapshot, i: nat, w: Wiring, impossible: set<string>, seen: Sensors, collector: Collector, ghost start: Collected)
    returns (seenNow: Sensors)
    requires i < |s.inputs| && NamesImpossible(impossible, s, w)
    requires AfterInputs(collector.Contents(), start, seen, s, i, w, collector.frame)
    modifies collector
    ensures AfterInputs(collector.Contents(), start, seenNow, s, i + 1, w, collector.frame)
  {
    hide PerformAll, InputsActs, InputActs, SeenAre;
    NextInput(w, s, start, i, collector.frame);
    seenNow := ConvertInput(s, i, w, impossible, seen, collector);
  }

  lemma AllInputs(now: Collected, start: Collected, seen: Sensors, s: Snapshot, w: Wiring, frame: real)
    requires AfterInputs(now, start, seen, s, |s.inputs|, w, frame)
    ensures now == PerformAll(start, InputsActs(s, |s.inputs|, w, frame))
  {
  }

  lemma NoInputs(w: Wiring, s: Snapshot, c: Collected, frame: real)
    ensures AfterInputs(c, c, Sensors({}), s, 0, w, frame)
  {
  }

  lemma NextInput(w: Wiring, s: Snapshot, c: Collected, i: nat, frame: real)
    requires i < |s.inputs|
    ensures PerformAll(c, InputsActs(s, i + 1, w, frame)) ==
      PerformAll(PerformAll(c, InputsActs(s, i, w, frame)),
                 InputActs(s, i, w, frame))
  {
    hide PerformAll, InputActs;
    PerformInTwo(c, InputsActs(s, i, w, frame), InputActs(s, i, w, frame));
  }

  /** The sensors among the first n inputs that a binding names. */
  ghost predicate SeenAre(seen: Sensors, w: Wiring, s: Snapshot, n: nat)
    requires n <= |s.inputs|
  {
    forall id :: id in seen.ids <==> BySensor(w.bindings, id).Some? && exists j :: 0 <= j < n && s.inputs[j].sensorId == id
  }

  method ConvertInput(s: Snapshot, i: nat, w: Wiring, impossible: set<string>, seen: Sensors, collector: Collector)
    returns (seenNow: Sensors)
    requires i < |s.inputs| && SeenAre(seen, w, s, i)
    requires NamesImpossible(impossible, s, w)
    modifies collector
    ensures collector.Contents() ==
      PerformAll(old(collector.Contents()), InputActs(s, i, w, collector.frame))
    ensures SeenAre(seenNow, w, s, i + 1)
  {
    ghost var here := collector.Contents();
    ghost var acts := InputActs(s, i, w, collector.frame);
    seenNow := seen;
    var sample := s.inputs[i];
    var binding := BySensor(w.bindings, sample.sensorId);
    PerformOne(here, acts[0]);
    if binding.None? {
      assert acts == [acts[0]];
      if sample.inputName in w.device.rawOnly {
        collector.Unmap(sample.sensorId, sample.inputName);
      } else {
        collector.Reject(sample.sensorId, None, sample.inputName, NoBinding);
      }
      return;
    }
    var b := binding.value;
    assert SeenBefore(s.inputs, i) <==> sample.sensorId in seen.ids;
    if sample.sensorId in seen.ids {
      PerformBoth(here, acts[0], acts[1]);
      assert acts == [acts[0], acts[1]];
      collector.Reject(sample.sensorId, Some(b.channel), sample.inputName, DuplicateChannel);
      collector.DemoteToMissing(b.channel);
      return;
    }
    assert acts == [acts[0]];
    seenNow := Sensors(seen.ids + {sample.sensorId});
    var verdict := JudgeInput(sample, s, b, w.profiles, sample.inputName in impossible, collector.frame);
    PublishOn(collector, b, sample.inputName, verdict, s.timing);
  }

  ghost predicate NamesImpossible(impossible: set<string>, s: Snapshot, w: Wiring) {
    forall name :: name in impossible <==> Impossible(s, w.device, w.profiles, name)
  }

  /** `impossible` names the members of the pairs among the first n that are asserted together. */
  ghost predicate ImpossibleAre(impossible: set<string>, s: Snapshot, w: Wiring, n: nat)
    requires n <= |w.device.exclusive|
  {
    forall name :: name in impossible <==>
      exists j :: 0 <= j < n && BothAsserted(s.inputs, w.device.exclusive[j], w.profiles)
               && (name == w.device.exclusive[j].0 || name == w.device.exclusive[j].1)
  }

  /** Reports every pair that is asserted together and returns the names of its members. */
  method RejectImpossible(s: Snapshot, w: Wiring, collector: Collector) returns (impossible: set<string>)
    modifies collector
    ensures collector.Contents() == PerformAll(old(collector.Contents()), PairsRejections(s, w.device.exclusive, w.profiles))
    ensures NamesImpossible(impossible, s, w)
  {
    ghost var before := collector.Contents();
    impossible := {};
    PerformNone(before);
    assert ImpossibleAre(impossible, s, w, 0);
    hide *;
    NoPairs(s, w);
    for i := 0 to |w.device.exclusive|
      invariant collector.Contents() == PerformAll(before, PairsRejections(s, w.device.exclusive[..i], w.profiles))
      invariant ImpossibleAre(impossible, s, w, i)
    {
      NextPair(s, w, i);
      PerformInTwo(before, PairsRejections(s, w.device.exclusive[..i], w.profiles), PairRejections(s, w.device.exclusive[i], w.profiles));
      impossible := RejectIfImpossible(s, w, i, impossible, collector);
    }
    assert w.device.exclusive[..|w.device.exclusive|] == w.device.exclusive;
    AllPairs(impossible, s, w);
  }

  lemma NoPairs(s: Snapshot, w: Wiring)
    ensures PairsRejections(s, [], w.profiles) == []
  {
  }

  lemma NextPair(s: Snapshot, w: Wiring, i: nat)
    requires i < |w.device.exclusive|
    ensures PairsRejections(s, w.device.exclusive[..i + 1], w.profiles) ==
      PairsRejections(s, w.device.exclusive[..i], w.profiles) + PairRejections(s, w.device.exclusive[i], w.profiles)
  {
    assert w.device.exclusive[..i + 1][..i] == w.device.exclusive[..i];
  }

  lemma AllPairs(impossible: set<string>, s: Snapshot, w: Wiring)
    requires ImpossibleAre(impossible, s, w, |w.device.exclusive|)
    ensures NamesImpossible(impossible, s, w)
  {
  }

  method RejectIfImpossible(s: Snapshot, w: Wiring, i: nat, impossible: set<string>, collector: Collector)
    returns (more: set<string>)
    requires i < |w.device.exclusive| && ImpossibleAre(impossible, s, w, i)
    modifies collector
    ensures collector.Contents() == PerformAll(old(collector.Contents()), PairRejections(s, w.device.exclusive[i], w.profiles))
    ensures ImpossibleAre(more, s, w, i + 1)
  {
    more := impossible;
    var (first, second) := w.device.exclusive[i];
    var left, right := ByName(s.inputs, first), ByName(s.inputs, second);
    if left.Some? && right.Some? {
      if LogicalState(left.value, w.profiles) == Some(true) && LogicalState(right.value, w.profiles) == Some(true) {
        more := impossible + {first, second};
        RejectPair(left.value, right.value, first, second, collector);
      }
    }
  }

  method RejectPair(left: InputSample, right: InputSample, first: string, second: string, collector: Collector)
    modifies collector
    ensures collector.Contents() == PerformAll(old(collector.Contents()),
      [DoReject(RejectedField(left.sensorId, None, first, ImpossibleState)),
       DoReject(RejectedField(right.sensorId, None, second, ImpossibleState))])
  {
    PerformBoth(collector.Contents(), DoReject(RejectedField(left.sensorId, None, first, ImpossibleState)),
                DoReject(RejectedField(right.sensorId, None, second, ImpossibleState)));
    collector.Reject(left.sensorId, None, first, ImpossibleState);
    collector.Reject(right.sensorId, None, second, ImpossibleState);
  }

  method ConvertRobot(sample: RobotSample, kit: Kit, collector: Collector)
    modifies collector
    ensures collector.Contents() ==
      PerformAll(old(collector.Contents()), RobotActs(sample, kit.bindings, kit.robots, kit.coordinateFrame, collector.frame))
  {
    ghost var before := collector.Contents();
    var found := Lookup(kit.robots, sample.robotId);
    if found.None? {
      collector.Reject(sample.robotId, None, "robot_id", IdentityMismatch);
      PerformOne(before, DoReject(RejectedField(sample.robotId, None, "robot_id", IdentityMismatch)));
      return;
    }
    ReportExtras(sample, kit.coordinateFrame, collector);
    ConvertFields(sample, kit, found.value, collector);
    PerformInTwo(before, ExtraActs(sample, kit.coordinateFrame),
                 FieldsActs(sample, kit.bindings, found.value, |ROBOT_FIELDS|, collector.frame));
  }

  method ConvertFields(sample: RobotSample, kit: Kit, profile: RobotProfile, collector: Collector)
    modifies collector
    ensures collector.Contents() ==
      PerformAll(old(collector.Contents()), FieldsActs(sample, kit.bindings, profile, |ROBOT_FIELDS|, collector.frame))
  {
    ghost var middle := collector.Contents();
    hide *;
    NoFields(sample, kit, profile, middle, collector.frame);
    for i := 0 to |ROBOT_FIELDS|
      invariant collector.Contents() == PerformAll(middle, FieldsActs(sample, kit.bindings, profile, i, collector.frame))
    {
      NextField(sample, kit, profile, middle, i, collector.frame);
      ConvertField(sample, kit, profile, ROBOT_FIELDS[i], collector);
    }
  }

  method ConvertField(sample: RobotSample, kit: Kit, profile: RobotProfile, field: string, collector: Collector)
    modifies collector
    ensures collector.Contents() ==
      Perform(old(collector.Contents()), FieldAct(sample, kit.bindings, profile, field, collector.frame))
  {
    var binding := ByChannel(kit.bindings, RobotChannel(sample.robotId, field));
    if binding.None? {
      collector.Unmap(sample.robotId, field);
    } else {
      PublishOn(collector, binding.value, field, JudgeRobot(sample, binding.value, profile, field, collector.frame), sample.timing);
    }
  }

  lemma NoFields(sample: RobotSample, kit: Kit, profile: RobotProfile, c: Collected, frame: real)
    ensures PerformAll(c, FieldsActs(sample, kit.bindings, profile, 0, frame)) == c
  {
  }

  lemma NextField(sample: RobotSample, kit: Kit, profile: RobotProfile, c: Collected, i: nat, frame: real)
    requires i < |ROBOT_FIELDS|
    ensures PerformAll(c, FieldsActs(sample, kit.bindings, profile, i + 1, frame)) ==
      Perform(PerformAll(c, FieldsActs(sample, kit.bindings, profile, i, frame)),
              FieldAct(sample, kit.bindings, profile, ROBOT_FIELDS[i], frame))
  {
    hide PerformAll, Perform, FieldAct;
    var act := FieldAct(sample, kit.bindings, profile, ROBOT_FIELDS[i], frame);
    PerformInTwo(c, FieldsActs(sample, kit.bindings, profile, i, frame), [act]);
    PerformOne(PerformAll(c, FieldsActs(sample, kit.bindings, profile, i, frame)), act);
  }

  method ReportExtras(sample: RobotSample, coordinateFrame: string, collector: Collector)
    modifies collector
    ensures collector.Contents() == PerformAll(old(collector.Contents()), ExtraActs(sample, coordinateFrame))
  {
    ghost var before := collector.Contents();
    AtMostOne(before, FaultActs(sample));
    if sample.faultCode.Some? { collector.Unmap(sample.robotId, "fault_code"); }
    ghost var faulted := collector.Contents();
    assert faulted == PerformAll(before, FaultActs(sample));
    AtMostOne(faulted, FrameActs(sample, coordinateFrame));
    if sample.coordinateFrame.Some? {
      if sample.coordinateFrame.value != coordinateFrame {
        collector.Reject(sample.robotId, None, "coordinate_frame", CoordinateFrameMismatch);
      } else {
        collector.Unmap(sample.robotId, "coordinate_frame");
      }
    }
    ghost var framed := collector.Contents();
    assert framed == PerformAll(faulted, FrameActs(sample, coordinateFrame));
    AtMostOne(framed, PositionActs(sample));
    if sample.hasPosition { collector.Unmap(sample.robotId, "position"); }
    assert collector.Contents() == PerformAll(framed, PositionActs(sample));
    hide PerformAll, FaultActs, FrameActs, PositionActs;
    PerformInTwo(before, FaultActs(sample), FrameActs(sample, coordinateFrame));
    PerformInTwo(before, FaultActs(sample) + FrameActs(sample, coordinateFrame), PositionActs(sample));
  }

  lemma AtMostOne(c: Collected, acts: seq<Act>)
    requires |acts| <= 1
    ensures PerformAll(c, acts) == if acts == [] then c else Perform(c, acts[0])
  {
    if acts != [] { assert acts == [acts[0]]; PerformOne(c, acts[0]); }
  }

  /** Publishes an explicit gap for every commissioned channel that no sample claimed. */
  method ReconcileSilentDevices(kit: Kit, batch: Batch, collector: Collector)
    modifies collector
    ensures collector.Contents() ==
      PerformAll(old(collector.Contents()), ClosingActs(old(collector.Contents()), kit.bindings, batch.frame))
  {
    var claimed, alreadyRejected := collector.claimed.Keys, collector.rejectedChannels;
    PublishGaps(kit.bindings, batch.frame, claimed, alreadyRejected, collector);
  }

  method PublishGaps(bindings: seq<Binding>, frame: real, claimed: set<string>, alreadyRejected: set<string>, collector: Collector)
    modifies collector
    ensures collector.Contents() ==
      PerformAll(old(collector.Contents()), GapsActs(claimed, alreadyRejected, bindings, |bindings|, frame))
  {
    ghost var c := collector.Contents();
    hide *;
    NoGaps(bindings, c, claimed, alreadyRejected, frame);
    for i := 0 to |bindings|
      invariant collector.Contents() == PerformAll(c, GapsActs(claimed, alreadyRejected, bindings, i, frame))
    {
      NextGap(bindings, c, claimed, alreadyRejected, i, frame);
      PublishGap(bindings[i], frame, claimed, alreadyRejected, collector);
    }
  }

  lemma NoGaps(bindings: seq<Binding>, c: Collected, claimed: set<string>, rejected: set<string>, frame: real)
    ensures PerformAll(c, GapsActs(claimed, rejected, bindings, 0, frame)) == c
  {
  }

  lemma NextGap(bindings: seq<Binding>, c: Collected, claimed: set<string>, rejected: set<string>, i: nat, frame: real)
    requires i < |bindings|
    ensures PerformAll(c, GapsActs(claimed, rejected, bindings, i + 1, frame)) ==
      PerformAll(PerformAll(c, GapsActs(claimed, rejected, bindings, i, frame)), GapActs(claimed, rejected, bindings[i], frame))
  {
    hide PerformAll, GapActs;
    PerformInTwo(c, GapsActs(claimed, rejected, bindings, i, frame), GapActs(claimed, rejected, bindings[i], frame));
  }

  method PublishGap(b: Binding, frame: real, claimed: set<string>, alreadyRejected: set<string>, collector: Collector)
    modifies collector
    ensures collector.Contents() == PerformAll(old(collector.Contents()), GapActs(claimed, alreadyRejected, b, frame))
  {
    ghost var here := collector.Contents();
    if b.channel in claimed { return; }
    PerformOne(here, GapActs(claimed, alreadyRejected, b, frame)[0]);
    if b.channel in alreadyRejected {
      collector.Emit(b, "(rejected sample)", None, Missing, Timing(frame, frame));
    } else {
      collector.EmitMissing(b, "(no sample)", NoSample, Timing(frame, frame));
    }
  }

  method ConvertDevice(s: Snapshot, kit: Kit, collector: Collector)
    modifies collector
    ensures collector.Contents() == PerformAll(old(collector.Contents()), DeviceActs(kit, s, collector.frame))
  {
    ghost var here := collector.Contents();
    var device := Lookup(kit.devices, s.deviceId);
    if device.None? {
      PerformOne(here, DoReject(RejectedField(s.deviceId, None, "device_id", UnknownSource)));
      collector.Reject(s.deviceId, None, "device_id", UnknownSource);
      return;
    }
    ConvertSnapshot(s, Wiring(kit.bindings, device.value, kit.inputs), collector);
  }

  method Convert(kit: Kit, batch: Batch) returns (collector: Collector)
    ensures fresh(collector) && collector.Contents() == Converted(kit, batch)
  {
    collector := new Collector(batch.frame);
    hide PerformAll, LoadCellActs, DeviceActs, RobotActs, GapsActs, ClosingActs;
    PerformNone(NOTHING);
    for i := 0 to |batch.loadCells|
      invariant fresh(collector) && collector.frame == batch.frame
      invariant collector.Contents() == PerformAll(NOTHING, LoadCellsActs(kit, batch, i))
    {
      PerformInTwo(NOTHING, LoadCellsActs(kit, batch, i), LoadCellActs(batch.loadCells[i], kit.bindings, kit.loadCells, batch.frame));
      ConvertLoadCell(batch.loadCells[i], kit, collector);
    }
    ghost var cells := LoadCellsActs(kit, batch, |batch.loadCells|);
    ghost var c := collector.Contents();
    PerformNone(c);
    for i := 0 to |batch.snapshots|
      invariant fresh(collector) && collector.frame == batch.frame
      invariant collector.Contents() == PerformAll(c, SnapshotsActs(kit, batch, i))
    {
      PerformInTwo(c, SnapshotsActs(kit, batch, i), DeviceActs(kit, batch.snapshots[i], batch.frame));
      ConvertDevice(batch.snapshots[i], kit, collector);
    }
    PerformInTwo(NOTHING, cells, SnapshotsActs(kit, batch, |batch.snapshots|));
    c := collector.Contents();
    PerformNone(c);
    for i := 0 to |batch.robots|
      invariant fresh(collector) && collector.frame == batch.frame
      invariant collector.Contents() == PerformAll(c, RobotsActs(kit, batch, i))
    {
      PerformInTwo(c, RobotsActs(kit, batch, i), RobotActs(batch.robots[i], kit.bindings, kit.robots, kit.coordinateFrame, batch.frame));
      ConvertRobot(batch.robots[i], kit, collector);
    }
    PerformInTwo(NOTHING, cells + SnapshotsActs(kit, batch, |batch.snapshots|), RobotsActs(kit, batch, |batch.robots|));
    ReconcileSilentDevices(kit, batch, collector);
  }

  lemma PerformNone(c: Collected)
    ensures PerformAll(c, []) == c
  {
  }
}
