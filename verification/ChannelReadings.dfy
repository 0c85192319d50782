/** Which channel carries which reading, told from the raw samples: the one sample that alone addresses it, and its value. */
module ChannelReadings {
  import opened Common
  import opened ChannelCollectors
  import opened ChannelAdapters
  import opened ChannelValues
  import opened ChannelCoverage
  import opened ChannelGuarantees

  // -- the raw readings of a batch

  datatype Source = Cell(cell: nat) | Input(snapshot: nat, input: nat) | Field(robot: nat, field: nat)

  /** The raw reading is addressed to the commissioned channel. */
  predicate Addresses(kit: Kit, batch: Batch, src: Source, b: Binding) {
    match src
    case Cell(k) =>
      && k < |batch.loadCells| && BySensor(kit.bindings, batch.loadCells[k].sensorId) == Some(b)
      && b.kind in {Count, Quantity} && b.unit == "balls"
    case Input(k, j) =>
      && k < |batch.snapshots| && j < |batch.snapshots[k].inputs|
      && batch.snapshots[k].deviceId in kit.devices && kit.devices[batch.snapshots[k].deviceId].deviceId == batch.snapshots[k].deviceId
      && BySensor(kit.bindings, batch.snapshots[k].inputs[j].sensorId) == Some(b)
    case Field(k, f) =>
      && k < |batch.robots| && f < |ROBOT_FIELDS| && batch.robots[k].robotId in kit.robots
      && ByChannel(kit.bindings, RobotChannel(batch.robots[k].robotId, ROBOT_FIELDS[f])) == Some(b)
  }

  /** No input before it in the snapshot is of the same sensor. */
  predicate FirstOfSensor(inputs: seq<InputSample>, j: nat)
    requires j < |inputs|
  {
    forall i :: 0 <= i < j ==> inputs[i].sensorId != inputs[j].sensorId
  }

  /** The raw reading is addressed to the channel and stands for this value. */
  ghost predicate Reads(kit: Kit, batch: Batch, src: Source, b: Binding, value: Value, status: Status) {
    && Addresses(kit, batch, src, b)
    && match src
       case Cell(k) =>
         && batch.loadCells[k].sensorId in kit.loadCells
         && CellReading(batch.loadCells[k], b, kit.loadCells[batch.loadCells[k].sensorId], batch.frame, value, status)
       case Input(k, j) =>
         && FirstOfSensor(batch.snapshots[k].inputs, j)
         && InputReading(batch.snapshots[k].inputs[j], batch.snapshots[k], b, kit.devices[batch.snapshots[k].deviceId], kit.inputs, batch.frame, value, status)
       case Field(k, f) => RobotReading(batch.robots[k], b, kit.robots[batch.robots[k].robotId], ROBOT_FIELDS[f], batch.frame, value, status)
  }

  function TimingOf(kit: Kit, batch: Batch, src: Source, b: Binding): Timing
    requires Addresses(kit, batch, src, b)
  {
    match src
    case Cell(k) => batch.loadCells[k].timing
    case Input(k, _) => batch.snapshots[k].timing
    case Field(k, _) => batch.robots[k].timing
  }

  /** No other raw reading of the batch is addressed to the channel. */
  ghost predicate Alone(kit: Kit, batch: Batch, src: Source, b: Binding) {
    forall other :: Addresses(kit, batch, other, b) ==> other == src
  }

  // -- acts against sources

  /** The act publishes this reading of the source. */
  predicate Emits(kit: Kit, batch: Batch, act: Act, src: Source, b: Binding, value: Value, status: Status) {
    Addresses(kit, batch, src, b) && act.DoEmit? && act.binding == b && act.value == Some(value) && act.status == status
    && act.timing == TimingOf(kit, batch, src, b)
  }

  function Touching(acts: seq<Act>, channel: string): nat {
    if acts == [] then 0 else Touching(acts[..|acts| - 1], channel) + if Touches(acts[|acts| - 1]) == Some(channel) then 1 else 0
  }

  lemma {:induction false} TouchingTogether(a: seq<Act>, b: seq<Act>, channel: string)
    ensures Touching(a + b, channel) == Touching(a, channel) + Touching(b, channel)
  {
    if b == [] {
      assert a + b == a;
    } else {
      assert (a + b)[..|a + b| - 1] == a + b[..|b| - 1];
      TouchingTogether(a, b[..|b| - 1], channel);
    }
  }

  /** Every publication on the channel is a reading of one of these sources. */
  ghost predicate Sourced(kit: Kit, batch: Batch, b: Binding, acts: seq<Act>, sources: seq<Source>) {
    forall act :: act in acts && act.DoEmit? && act.binding.channel == b.channel ==>
      exists src, value, status :: src in sources && Reads(kit, batch, src, b, value, status) && Emits(kit, batch, act, src, b, value, status)
  }

  /** Every reading of these sources is published. */
  ghost predicate AllEmitted(kit: Kit, batch: Batch, b: Binding, acts: seq<Act>, sources: seq<Source>) {
    forall src, value, status :: src in sources && Reads(kit, batch, src, b, value, status) ==>
      exists act :: act in acts && Emits(kit, batch, act, src, b, value, status)
  }

  /** The acts touch the channel once per source addressed to it, and publish exactly the sources' readings. */
  ghost predicate Told(kit: Kit, batch: Batch, b: Binding, acts: seq<Act>, sources: seq<Source>) {
    Touching(acts, b.channel) == |sources| && Sourced(kit, batch, b, acts, sources) && AllEmitted(kit, batch, b, acts, sources)
  }

  lemma ToldTogether(kit: Kit, batch: Batch, b: Binding, acts: seq<Act>, sources: seq<Source>, more: seq<Act>, others: seq<Source>)
    requires Told(kit, batch, b, acts, sources) && Told(kit, batch, b, more, others)
    ensures Told(kit, batch, b, acts + more, sources + others)
  {
    TouchingTogether(acts, more, b.channel);
    hide Touching, Reads, Emits;
  }

  lemma {:induction false} ToldNothing(kit: Kit, batch: Batch, b: Binding, acts: seq<Act>)
    requires forall act :: act in acts ==> Touches(act) != Some(b.channel)
    ensures Told(kit, batch, b, acts, [])
  {
    if acts != [] { ToldNothing(kit, batch, b, acts[..|acts| - 1]); }
    hide Reads, Emits;
  }

  /** One publishing act of one source. */
  lemma ToldOnce(kit: Kit, batch: Batch, b: Binding, src: Source, rawField: string, verdict: Verdict)
    requires Addresses(kit, batch, src, b)
    requires forall value, status :: Yields(verdict, value, status) <==> Reads(kit, batch, src, b, value, status)
    ensures Told(kit, batch, b, [Publish(b, rawField, verdict, TimingOf(kit, batch, src, b))], [src])
  {
    hide Reads, Addresses;
    var act := Publish(b, rawField, verdict, TimingOf(kit, batch, src, b));
    assert [act][..0] == [];
    if verdict.Trust? { assert Yields(verdict, verdict.value, act.status) && Emits(kit, batch, act, src, b, verdict.value, act.status); }
    forall value, status | Reads(kit, batch, src, b, value, status) ensures Emits(kit, batch, act, src, b, value, status) {
      assert Yields(verdict, value, status);
    }
    hide Emits, Yields;
    assert Touching([act], b.channel) == 1;
    assert Sourced(kit, batch, b, [act], [src]);
    assert AllEmitted(kit, batch, b, [act], [src]) by { assert act in [act]; }
  }

  /** Another binding is another channel. */
  lemma OtherChannel(kit: Kit, a: Binding, b: Binding)
    requires kit.Valid() && a in kit.bindings && b in kit.bindings
    ensures a.channel == b.channel <==> a == b
  {
    var i :| 0 <= i < |kit.bindings| && kit.bindings[i] == a;
    var j :| 0 <= j < |kit.bindings| && kit.bindings[j] == b;
  }

  // -- load cells

  function CellsTo(kit: Kit, batch: Batch, b: Binding, n: nat): seq<Source>
    requires n <= |batch.loadCells|
  {
    if n == 0 then [] else CellsTo(kit, batch, b, n - 1) + if Addresses(kit, batch, Cell(n - 1), b) then [Cell(n - 1)] else []
  }

  lemma CellTold(kit: Kit, batch: Batch, b: Binding, k: nat)
    requires kit.Valid() && b in kit.bindings && k < |batch.loadCells|
    ensures Told(kit, batch, b, LoadCellActs(batch.loadCells[k], kit.bindings, kit.loadCells, batch.frame),
                 if Addresses(kit, batch, Cell(k), b) then [Cell(k)] else [])
  {
    var sample := batch.loadCells[k];
    var acts := LoadCellActs(sample, kit.bindings, kit.loadCells, batch.frame);
    var diagnostic := if sample.diagnosticCode.Some? then [DoUnmap(UnmappedField(sample.sensorId, "diagnostic_code"))] else [];
    if Addresses(kit, batch, Cell(k), b) {
      var verdict := JudgeLoadCell(sample, b, kit.loadCells, batch.frame);
      assert acts == diagnostic + [Publish(b, "raw_value", verdict, sample.timing)];
      forall value, status ensures Yields(verdict, value, status) <==> Reads(kit, batch, Cell(k), b, value, status) {
        LoadCellJudged(sample, b, kit.loadCells, batch.frame, value, status);
        hide JudgeLoadCell, CellReading, Yields;
      }
      hide JudgeLoadCell, LoadCellActs, Reads, Yields, Told;
      ToldOnce(kit, batch, b, Cell(k), "raw_value", verdict);
      ToldNothing(kit, batch, b, diagnostic);
      ToldTogether(kit, batch, b, diagnostic, [], [Publish(b, "raw_value", verdict, sample.timing)], [Cell(k)]);
    } else {
      if BySensor(kit.bindings, sample.sensorId).Some? { OtherChannel(kit, BySensor(kit.bindings, sample.sensorId).value, b); }
      hide JudgeLoadCell, Told;
      ToldNothing(kit, batch, b, acts);
    }
  }

  lemma {:induction false} CellsTold(kit: Kit, batch: Batch, b: Binding, n: nat)
    requires kit.Valid() && b in kit.bindings && n <= |batch.loadCells|
    ensures Told(kit, batch, b, LoadCellsActs(kit, batch, n), CellsTo(kit, batch, b, n))
  {
    hide Told, LoadCellActs, Addresses;
    if n == 0 {
      ToldNothing(kit, batch, b, []);
    } else {
      CellsTold(kit, batch, b, n - 1);
      CellTold(kit, batch, b, n - 1);
      ToldTogether(kit, batch, b, LoadCellsActs(kit, batch, n - 1), CellsTo(kit, batch, b, n - 1),
                   LoadCellActs(batch.loadCells[n - 1], kit.bindings, kit.loadCells, batch.frame),
                   if Addresses(kit, batch, Cell(n - 1), b) then [Cell(n - 1)] else []);
    }
  }

  // -- digital inputs

  function InputsTo(kit: Kit, batch: Batch, b: Binding, k: nat, n: nat): seq<Source>
    requires k < |batch.snapshots| && n <= |batch.snapshots[k].inputs|
  {
    if n == 0 then [] else InputsTo(kit, batch, b, k, n - 1) + if Addresses(kit, batch, Input(k, n - 1), b) then [Input(k, n - 1)] else []
  }

  function SnapshotsTo(kit: Kit, batch: Batch, b: Binding, n: nat): seq<Source>
    requires n <= |batch.snapshots|
  {
    if n == 0 then [] else SnapshotsTo(kit, batch, b, n - 1) + InputsTo(kit, batch, b, n - 1, |batch.snapshots[n - 1].inputs|)
  }

  /** The snapshot is of a device the kit knows. */
  predicate KnownDevice(kit: Kit, s: Snapshot) { s.deviceId in kit.devices && kit.devices[s.deviceId].deviceId == s.deviceId }

  lemma InputTold(kit: Kit, batch: Batch, b: Binding, k: nat, j: nat)
    requires kit.Valid() && b in kit.bindings && k < |batch.snapshots| && j < |batch.snapshots[k].inputs| && KnownDevice(kit, batch.snapshots[k])
    ensures Told(kit, batch, b,
                 InputActs(batch.snapshots[k], j, Wiring(kit.bindings, kit.devices[batch.snapshots[k].deviceId], kit.inputs), batch.frame),
                 if Addresses(kit, batch, Input(k, j), b) then [Input(k, j)] else [])
  {
    var s := batch.snapshots[k];
    var device := kit.devices[s.deviceId];
    var sample := s.inputs[j];
    var acts := InputActs(s, j, Wiring(kit.bindings, device, kit.inputs), batch.frame);
    if !Addresses(kit, batch, Input(k, j), b) {
      if BySensor(kit.bindings, sample.sensorId).Some? { OtherChannel(kit, BySensor(kit.bindings, sample.sensorId).value, b); }
      hide JudgeInput, Told, Impossible, SeenBefore;
      ToldNothing(kit, batch, b, acts);
    } else if SeenBefore(s.inputs, j) {
      RepeatTold(kit, batch, b, k, j, acts);
    } else {
      var verdict := JudgeInput(sample, s, b, kit.inputs, Impossible(s, device, kit.inputs, sample.inputName), batch.frame);
      assert acts == [Publish(b, sample.inputName, verdict, s.timing)];
      forall value, status ensures Yields(verdict, value, status) <==> Reads(kit, batch, Input(k, j), b, value, status) {
        InputJudged(sample, s, b, device, kit.inputs, batch.frame, value, status);
        hide JudgeInput, InputReading, Yields, Impossible;
      }
      hide JudgeInput, InputActs, Reads, Yields, Told, Impossible;
      ToldOnce(kit, batch, b, Input(k, j), sample.inputName, verdict);
    }
  }

  /** A repeated sensor takes its channel's reading away. */
  lemma RepeatTold(kit: Kit, batch: Batch, b: Binding, k: nat, j: nat, acts: seq<Act>)
    requires Addresses(kit, batch, Input(k, j), b) && SeenBefore(batch.snapshots[k].inputs, j)
    requires acts == [DoReject(RejectedField(batch.snapshots[k].inputs[j].sensorId, Some(b.channel), batch.snapshots[k].inputs[j].inputName, DuplicateChannel)),
                      DoDemote(b.channel)]
    ensures Told(kit, batch, b, acts, [Input(k, j)])
  {
    assert acts[..1] == [acts[0]] && acts[..1][..0] == [];
    assert !FirstOfSensor(batch.snapshots[k].inputs, j);
    assert Touching(acts[..1], b.channel) == 0;
    hide InputReading, Emits, Addresses;
  }

  lemma {:induction false} InputsTold(kit: Kit, batch: Batch, b: Binding, k: nat, n: nat)
    requires kit.Valid() && b in kit.bindings && k < |batch.snapshots| && n <= |batch.snapshots[k].inputs| && KnownDevice(kit, batch.snapshots[k])
    ensures Told(kit, batch, b,
                 InputsActs(batch.snapshots[k], n, Wiring(kit.bindings, kit.devices[batch.snapshots[k].deviceId], kit.inputs), batch.frame),
                 InputsTo(kit, batch, b, k, n))
  {
    hide Told, InputActs, Addresses;
    var w := Wiring(kit.bindings, kit.devices[batch.snapshots[k].deviceId], kit.inputs);
    if n == 0 {
      ToldNothing(kit, batch, b, []);
    } else {
      InputsTold(kit, batch, b, k, n - 1);
      InputTold(kit, batch, b, k, n - 1);
      ToldTogether(kit, batch, b, InputsActs(batch.snapshots[k], n - 1, w, batch.frame), InputsTo(kit, batch, b, k, n - 1),
                   InputActs(batch.snapshots[k], n - 1, w, batch.frame),
                   if Addresses(kit, batch, Input(k, n - 1), b) then [Input(k, n - 1)] else []);
    }
  }

  lemma {:induction false} PairsTouchNothing(s: Snapshot, pairs: seq<(string, string)>, profiles: map<string, InputProfile>)
    ensures forall act :: act in PairsRejections(s, pairs, profiles) ==> Touches(act) == None
  {
    if pairs != [] { PairsTouchNothing(s, pairs[..|pairs| - 1], profiles); }
  }

  lemma {:induction false} StrangersAddressNothing(kit: Kit, batch: Batch, b: Binding, k: nat, n: nat)
    requires k < |batch.snapshots| && n <= |batch.snapshots[k].inputs| && !KnownDevice(kit, batch.snapshots[k])
    ensures InputsTo(kit, batch, b, k, n) == []
  {
    if n > 0 { StrangersAddressNothing(kit, batch, b, k, n - 1); }
  }

  lemma DeviceTold(kit: Kit, batch: Batch, b: Binding, k: nat)
    requires kit.Valid() && b in kit.bindings && k < |batch.snapshots|
    ensures Told(kit, batch, b, DeviceActs(kit, batch.snapshots[k], batch.frame), InputsTo(kit, batch, b, k, |batch.snapshots[k].inputs|))
  {
    var s := batch.snapshots[k];
    hide Told, InputsActs, PairsRejections, InputsTo;
    if KnownDevice(kit, s) {
      var device := kit.devices[s.deviceId];
      PairsTouchNothing(s, device.exclusive, kit.inputs);
      ToldNothing(kit, batch, b, PairsRejections(s, device.exclusive, kit.inputs));
      InputsTold(kit, batch, b, k, |s.inputs|);
      ToldTogether(kit, batch, b, PairsRejections(s, device.exclusive, kit.inputs), [],
                   InputsActs(s, |s.inputs|, Wiring(kit.bindings, device, kit.inputs), batch.frame), InputsTo(kit, batch, b, k, |s.inputs|));
      assert [] + InputsTo(kit, batch, b, k, |s.inputs|) == InputsTo(kit, batch, b, k, |s.inputs|);
    } else {
      StrangersAddressNothing(kit, batch, b, k, |s.inputs|);
      ToldNothing(kit, batch, b, DeviceActs(kit, s, batch.frame));
    }
  }

  lemma {:induction false} SnapshotsTold(kit: Kit, batch: Batch, b: Binding, n: nat)
    requires kit.Valid() && b in kit.bindings && n <= |batch.snapshots|
    ensures Told(kit, batch, b, SnapshotsActs(kit, batch, n), SnapshotsTo(kit, batch, b, n))
  {
    hide Told, DeviceActs, InputsTo;
    if n == 0 {
      ToldNothing(kit, batch, b, []);
    } else {
      SnapshotsTold(kit, batch, b, n - 1);
      DeviceTold(kit, batch, b, n - 1);
      ToldTogether(kit, batch, b, SnapshotsActs(kit, batch, n - 1), SnapshotsTo(kit, batch, b, n - 1),
                   DeviceActs(kit, batch.snapshots[n - 1], batch.frame), InputsTo(kit, batch, b, n - 1, |batch.snapshots[n - 1].inputs|));
    }
  }

  // -- robots

  function FieldsTo(kit: Kit, batch: Batch, b: Binding, k: nat, n: nat): seq<Source>
    requires k < |batch.robots| && n <= |ROBOT_FIELDS|
  {
    if n == 0 then [] else FieldsTo(kit, batch, b, k, n - 1) + if Addresses(kit, batch, Field(k, n - 1), b) then [Field(k, n - 1)] else []
  }

  function FieldsOf(kit: Kit, batch: Batch, b: Binding, k: nat): seq<Source>
    requires k < |batch.robots|
  {
    FieldsTo(kit, batch, b, k, |ROBOT_FIELDS|)
  }

  function RobotsTo(kit: Kit, batch: Batch, b: Binding, n: nat): seq<Source>
    requires n <= |batch.robots|
  {
    if n == 0 then [] else RobotsTo(kit, batch, b, n - 1) + FieldsOf(kit, batch, b, n - 1)
  }

  lemma FieldTold(kit: Kit, batch: Batch, b: Binding, k: nat, f: nat)
    requires kit.Valid() && b in kit.bindings && k < |batch.robots| && f < |ROBOT_FIELDS| && batch.robots[k].robotId in kit.robots
    ensures Told(kit, batch, b, [FieldAct(batch.robots[k], kit.bindings, kit.robots[batch.robots[k].robotId], ROBOT_FIELDS[f], batch.frame)],
                 if Addresses(kit, batch, Field(k, f), b) then [Field(k, f)] else [])
  {
    var sample := batch.robots[k];
    var profile, field := kit.robots[sample.robotId], ROBOT_FIELDS[f];
    var act := FieldAct(sample, kit.bindings, profile, field, batch.frame);
    if Addresses(kit, batch, Field(k, f), b) {
      var verdict := JudgeRobot(sample, b, profile, field, batch.frame);
      assert act == Publish(b, field, verdict, sample.timing);
      forall value, status ensures Yields(verdict, value, status) <==> Reads(kit, batch, Field(k, f), b, value, status) {
        RobotJudged(sample, b, profile, f, batch.frame, value, status);
        hide JudgeRobot, RobotReading, Yields;
      }
      hide JudgeRobot, FieldAct, Reads, Yields, Told;
      ToldOnce(kit, batch, b, Field(k, f), field, verdict);
    } else {
      var found := ByChannel(kit.bindings, RobotChannel(sample.robotId, field));
      if found.Some? { OtherChannel(kit, found.value, b); }
      hide JudgeRobot, Told;
      ToldNothing(kit, batch, b, [act]);
    }
  }

  lemma {:induction false} FieldsTold(kit: Kit, batch: Batch, b: Binding, k: nat, n: nat)
    requires kit.Valid() && b in kit.bindings && k < |batch.robots| && n <= |ROBOT_FIELDS| && batch.robots[k].robotId in kit.robots
    ensures Told(kit, batch, b, FieldsActs(batch.robots[k], kit.bindings, kit.robots[batch.robots[k].robotId], n, batch.frame), FieldsTo(kit, batch, b, k, n))
  {
    hide Told, FieldAct, Addresses;
    var profile := kit.robots[batch.robots[k].robotId];
    if n == 0 {
      ToldNothing(kit, batch, b, []);
    } else {
      FieldsTold(kit, batch, b, k, n - 1);
      FieldTold(kit, batch, b, k, n - 1);
      ToldTogether(kit, batch, b, FieldsActs(batch.robots[k], kit.bindings, profile, n - 1, batch.frame), FieldsTo(kit, batch, b, k, n - 1),
                   [FieldAct(batch.robots[k], kit.bindings, profile, ROBOT_FIELDS[n - 1], batch.frame)],
                   if Addresses(kit, batch, Field(k, n - 1), b) then [Field(k, n - 1)] else []);
    }
  }

  lemma {:induction false} UnknownRobotsAddressNothing(kit: Kit, batch: Batch, b: Binding, k: nat, n: nat)
    requires k < |batch.robots| && n <= |ROBOT_FIELDS| && batch.robots[k].robotId !in kit.robots
    ensures FieldsTo(kit, batch, b, k, n) == []
  {
    if n > 0 { UnknownRobotsAddressNothing(kit, batch, b, k, n - 1); }
  }

  lemma ExtrasTouchNothing(sample: RobotSample, coordinateFrame: string)
    ensures forall act :: act in ExtraActs(sample, coordinateFrame) ==> Touches(act) == None
  {
  }

  lemma RobotTold(kit: Kit, batch: Batch, b: Binding, k: nat)
    requires kit.Valid() && b in kit.bindings && k < |batch.robots|
    ensures Told(kit, batch, b, RobotActs(batch.robots[k], kit.bindings, kit.robots, kit.coordinateFrame, batch.frame), FieldsOf(kit, batch, b, k))
  {
    var sample := batch.robots[k];
    hide Told, FieldsActs, ExtraActs, FieldsTo;
    if sample.robotId in kit.robots {
      var extras, sources := ExtraActs(sample, kit.coordinateFrame), FieldsOf(kit, batch, b, k);
      ExtrasTouchNothing(sample, kit.coordinateFrame);
      ToldNothing(kit, batch, b, extras);
      FieldsTold(kit, batch, b, k, |ROBOT_FIELDS|);
      ToldTogether(kit, batch, b, extras, [], FieldsActs(sample, kit.bindings, kit.robots[sample.robotId], |ROBOT_FIELDS|, batch.frame), sources);
      assert [] + sources == sources;
    } else {
      UnknownRobotsAddressNothing(kit, batch, b, k, |ROBOT_FIELDS|);
      ToldNothing(kit, batch, b, RobotActs(sample, kit.bindings, kit.robots, kit.coordinateFrame, batch.frame));
    }
  }

  lemma {:induction false} RobotsTold(kit: Kit, batch: Batch, b: Binding, n: nat)
    requires kit.Valid() && b in kit.bindings && n <= |batch.robots|
    ensures Told(kit, batch, b, RobotsActs(kit, batch, n), RobotsTo(kit, batch, b, n))
  {
    hide Told, RobotActs, FieldsOf;
    if n == 0 {
      ToldNothing(kit, batch, b, []);
    } else {
      RobotsTold(kit, batch, b, n - 1);
      RobotTold(kit, batch, b, n - 1);
      ToldTogether(kit, batch, b, RobotsActs(kit, batch, n - 1), RobotsTo(kit, batch, b, n - 1),
                   RobotActs(batch.robots[n - 1], kit.bindings, kit.robots, kit.coordinateFrame, batch.frame),
                   FieldsOf(kit, batch, b, n - 1));
    }
  }

  // -- the sources addressed to a channel

  /** All raw readings addressed to the channel, in the order the kit meets them. */
  function SourcesOf(kit: Kit, batch: Batch, b: Binding): seq<Source> {
    CellsTo(kit, batch, b, |batch.loadCells|) + SnapshotsTo(kit, batch, b, |batch.snapshots|) + RobotsTo(kit, batch, b, |batch.robots|)
  }

  predicate InBounds(batch: Batch, src: Source) {
    match src
    case Cell(k) => k < |batch.loadCells|
    case Input(k, j) => k < |batch.snapshots| && j < |batch.snapshots[k].inputs|
    case Field(k, f) => k < |batch.robots| && f < |ROBOT_FIELDS|
  }

  lemma AddressInBounds(kit: Kit, batch: Batch, src: Source, b: Binding)
    requires Addresses(kit, batch, src, b)
    ensures InBounds(batch, src)
  {
  }

  predicate Different(sources: seq<Source>) { forall i, j :: 0 <= i < j < |sources| ==> sources[i] != sources[j] }

  lemma DifferentTogether(a: seq<Source>, b: seq<Source>)
    requires Different(a) && Different(b) && forall x, y :: x in a && y in b ==> x != y
    ensures Different(a + b)
  {
    forall i, j | 0 <= i < j < |a + b| ensures (a + b)[i] != (a + b)[j] {
      if i < |a| && j >= |a| { assert a[i] in a && b[j - |a|] in b; }
    }
  }

  lemma {:induction false} CellsListed(kit: Kit, batch: Batch, b: Binding, n: nat)
    requires n <= |batch.loadCells|
    ensures Different(CellsTo(kit, batch, b, n))
    ensures forall src :: src in CellsTo(kit, batch, b, n) <==> src.Cell? && src.cell < n && Addresses(kit, batch, src, b)
  {
    hide Addresses;
    if n > 0 {
      CellsListed(kit, batch, b, n - 1);
      if Addresses(kit, batch, Cell(n - 1), b) { DifferentTogether(CellsTo(kit, batch, b, n - 1), [Cell(n - 1)]); }
    }
  }

  lemma {:induction false} InputsListed(kit: Kit, batch: Batch, b: Binding, k: nat, n: nat)
    requires k < |batch.snapshots| && n <= |batch.snapshots[k].inputs|
    ensures Different(InputsTo(kit, batch, b, k, n))
    ensures forall src :: src in InputsTo(kit, batch, b, k, n) <==> src.Input? && src.snapshot == k && src.input < n && Addresses(kit, batch, src, b)
  {
    hide Addresses;
    if n > 0 {
      InputsListed(kit, batch, b, k, n - 1);
      if Addresses(kit, batch, Input(k, n - 1), b) { DifferentTogether(InputsTo(kit, batch, b, k, n - 1), [Input(k, n - 1)]); }
    }
  }

  lemma {:induction false} SnapshotsListed(kit: Kit, batch: Batch, b: Binding, n: nat)
    requires n <= |batch.snapshots|
    ensures Different(SnapshotsTo(kit, batch, b, n))
    ensures forall src :: src in SnapshotsTo(kit, batch, b, n) <==> src.Input? && src.snapshot < n && Addresses(kit, batch, src, b)
  {
    if n > 0 {
      SnapshotsListed(kit, batch, b, n - 1);
      InputsListed(kit, batch, b, n - 1, |batch.snapshots[n - 1].inputs|);
      hide Addresses, InputsTo;
      forall src | Addresses(kit, batch, src, b) ensures InBounds(batch, src) { AddressInBounds(kit, batch, src, b); }
      DifferentTogether(SnapshotsTo(kit, batch, b, n - 1), InputsTo(kit, batch, b, n - 1, |batch.snapshots[n - 1].inputs|));
    }
  }

  lemma {:induction false} FieldsListed(kit: Kit, batch: Batch, b: Binding, k: nat, n: nat)
    requires k < |batch.robots| && n <= |ROBOT_FIELDS|
    ensures Different(FieldsTo(kit, batch, b, k, n))
    ensures forall src :: src in FieldsTo(kit, batch, b, k, n) <==> src.Field? && src.robot == k && src.field < n && Addresses(kit, batch, src, b)
  {
    hide Addresses;
    if n > 0 {
      FieldsListed(kit, batch, b, k, n - 1);
      if Addresses(kit, batch, Field(k, n - 1), b) { DifferentTogether(FieldsTo(kit, batch, b, k, n - 1), [Field(k, n - 1)]); }
    }
  }

  lemma AllFieldsListed(kit: Kit, batch: Batch, b: Binding, k: nat)
    requires k < |batch.robots|
    ensures Different(FieldsOf(kit, batch, b, k))
    ensures forall src :: src in FieldsOf(kit, batch, b, k) <==> src.Field? && src.robot == k && Addresses(kit, batch, src, b)
  {
    FieldsListed(kit, batch, b, k, |ROBOT_FIELDS|);
    hide Addresses, FieldsTo;
    forall src | Addresses(kit, batch, src, b) ensures InBounds(batch, src) { AddressInBounds(kit, batch, src, b); }
  }

  lemma {:induction false} RobotsListed(kit: Kit, batch: Batch, b: Binding, n: nat)
    requires n <= |batch.robots|
    ensures Different(RobotsTo(kit, batch, b, n))
    ensures forall src :: src in RobotsTo(kit, batch, b, n) <==> src.Field? && src.robot < n && Addresses(kit, batch, src, b)
  {
    hide Addresses, FieldsOf;
    if n > 0 {
      RobotsListed(kit, batch, b, n - 1);
      AllFieldsListed(kit, batch, b, n - 1);
      DifferentTogether(RobotsTo(kit, batch, b, n - 1), FieldsOf(kit, batch, b, n - 1));
    }
  }

  lemma SourcesListed(kit: Kit, batch: Batch, b: Binding)
    ensures Different(SourcesOf(kit, batch, b))
    ensures forall src :: src in SourcesOf(kit, batch, b) <==> Addresses(kit, batch, src, b)
  {
    CellsListed(kit, batch, b, |batch.loadCells|);
    SnapshotsListed(kit, batch, b, |batch.snapshots|);
    RobotsListed(kit, batch, b, |batch.robots|);
    forall src | Addresses(kit, batch, src, b) ensures InBounds(batch, src) { AddressInBounds(kit, batch, src, b); }
    var (cells, inputs, fields) := (CellsTo(kit, batch, b, |batch.loadCells|), SnapshotsTo(kit, batch, b, |batch.snapshots|), RobotsTo(kit, batch, b, |batch.robots|));
    hide Addresses, CellsTo, SnapshotsTo, RobotsTo;
    DifferentTogether(cells, inputs);
    DifferentTogether(cells + inputs, fields);
  }

  /** Alone is: listed, and the only one listed. */
  lemma AloneIsOnly(kit: Kit, batch: Batch, src: Source, b: Binding)
    requires Addresses(kit, batch, src, b)
    ensures Alone(kit, batch, src, b) <==> SourcesOf(kit, batch, b) == [src]
  {
    SourcesListed(kit, batch, b);
    var sources := SourcesOf(kit, batch, b);
    hide SourcesOf, Addresses;
    assert src in sources;
    if Alone(kit, batch, src, b) { OnlyOne(sources, src); }
  }

  lemma OnlyOne(sources: seq<Source>, src: Source)
    requires Different(sources) && src in sources && forall other :: other in sources ==> other == src
    ensures sources == [src]
  {
    assert sources[0] in sources && sources[|sources| - 1] in sources;
  }

  lemma SamplesTold(kit: Kit, batch: Batch, b: Binding)
    requires kit.Valid() && b in kit.bindings
    ensures Told(kit, batch, b, SampleActs(kit, batch), SourcesOf(kit, batch, b))
  {
    CellsTold(kit, batch, b, |batch.loadCells|);
    SnapshotsTold(kit, batch, b, |batch.snapshots|);
    RobotsTold(kit, batch, b, |batch.robots|);
    var (a1, s1) := (LoadCellsActs(kit, batch, |batch.loadCells|), CellsTo(kit, batch, b, |batch.loadCells|));
    var (a2, s2) := (SnapshotsActs(kit, batch, |batch.snapshots|), SnapshotsTo(kit, batch, b, |batch.snapshots|));
    var (a3, s3) := (RobotsActs(kit, batch, |batch.robots|), RobotsTo(kit, batch, b, |batch.robots|));
    assert SampleActs(kit, batch) == a1 + a2 + a3 && SourcesOf(kit, batch, b) == s1 + s2 + s3;
    hide Told, SampleActs, SourcesOf;
    ToldTogether(kit, batch, b, a1, s1, a2, s2);
    ToldTogether(kit, batch, b, a1 + a2, s1 + s2, a3, s3);
  }

  // -- a channel that is taken away was claimed before

  ghost predicate TakenAfterClaim(acts: seq<Act>, channel: string) {
    forall j :: 0 <= j < |acts| && acts[j] == DoDemote(channel) ==> exists i :: 0 <= i < j && Claims(acts[i], channel)
  }

  lemma TakenTogether(a: seq<Act>, b: seq<Act>, channel: string)
    requires TakenAfterClaim(a, channel) && TakenAfterClaim(b, channel)
    ensures TakenAfterClaim(a + b, channel)
  {
    hide Claims;
    forall j | 0 <= j < |a + b| && (a + b)[j] == DoDemote(channel) ensures exists i :: 0 <= i < j && Claims((a + b)[i], channel) {
      if j < |a| {
        var i :| 0 <= i < j && Claims(a[i], channel);
        assert Claims((a + b)[i], channel);
      } else {
        var i :| 0 <= i < j - |a| && Claims(b[i], channel);
        assert Claims((a + b)[i + |a|], channel);
      }
    }
  }

  lemma NothingTaken(acts: seq<Act>, channel: string)
    requires forall act :: act in acts ==> !act.DoDemote?
    ensures TakenAfterClaim(acts, channel)
  {
  }

  lemma FirstClaims(s: Snapshot, j: nat, w: Wiring, frame: real)
    requires j < |s.inputs| && !SeenBefore(s.inputs, j) && BySensor(w.bindings, s.inputs[j].sensorId).Some?
    ensures ClaimedIn(InputActs(s, j, w, frame), BySensor(w.bindings, s.inputs[j].sensorId).value.channel)
  {
    hide JudgeInput, Impossible;
    assert Claims(InputActs(s, j, w, frame)[0], BySensor(w.bindings, s.inputs[j].sensorId).value.channel);
  }

  /** Every input so far of a commissioned sensor has had its channel claimed. */
  lemma {:induction false} InputsClaim(s: Snapshot, n: nat, w: Wiring, frame: real, j: nat)
    requires j < n <= |s.inputs| && BySensor(w.bindings, s.inputs[j].sensorId).Some?
    ensures ClaimedIn(InputsActs(s, n, w, frame), BySensor(w.bindings, s.inputs[j].sensorId).value.channel)
    decreases n
  {
    var front, last := InputsActs(s, n - 1, w, frame), InputActs(s, n - 1, w, frame);
    var channel := BySensor(w.bindings, s.inputs[j].sensorId).value.channel;
    assert InputsActs(s, n, w, frame) == front + last;
    if j == n - 1 && !SeenBefore(s.inputs, j) {
      FirstClaims(s, j, w, frame);
    } else {
      var earlier := j;
      if j == n - 1 { earlier :| 0 <= earlier < j && s.inputs[earlier].sensorId == s.inputs[j].sensorId; }
      InputsClaim(s, n - 1, w, frame, earlier);
    }
    hide InputActs, InputsActs;
    ClaimedInEither(front, last, channel);
  }

  ghost predicate ClaimedIn(acts: seq<Act>, channel: string) { exists i :: 0 <= i < |acts| && Claims(acts[i], channel) }

  lemma ClaimedInEither(a: seq<Act>, b: seq<Act>, channel: string)
    ensures ClaimedIn(a, channel) || ClaimedIn(b, channel) ==> ClaimedIn(a + b, channel)
  {
    hide Claims;
    if i :| 0 <= i < |a| && Claims(a[i], channel) { assert Claims((a + b)[i], channel); }
    if i :| 0 <= i < |b| && Claims(b[i], channel) { assert Claims((a + b)[|a| + i], channel); }
  }

  lemma {:induction false} InputsTaken(s: Snapshot, n: nat, w: Wiring, frame: real, channel: string)
    requires n <= |s.inputs|
    ensures TakenAfterClaim(InputsActs(s, n, w, frame), channel)
    decreases n
  {
    if n > 0 {
      InputsTaken(s, n - 1, w, frame, channel);
      var front := InputsActs(s, n - 1, w, frame);
      var last := InputActs(s, n - 1, w, frame);
      if DoDemote(channel) in last {
        RepeatTakes(s, n - 1, w, frame, channel);
        var earlier :| 0 <= earlier < n - 1 && s.inputs[earlier].sensorId == s.inputs[n - 1].sensorId;
        InputsClaim(s, n - 1, w, frame, earlier);
        hide InputActs, InputsActs, ClaimedIn;
        ClaimedBefore(front, last, channel);
      } else {
        hide InputActs, InputsActs;
        TakenTogether(front, last, channel);
      }
    }
  }

  lemma RepeatTakes(s: Snapshot, j: nat, w: Wiring, frame: real, channel: string)
    requires j < |s.inputs| && DoDemote(channel) in InputActs(s, j, w, frame)
    ensures SeenBefore(s.inputs, j)
    ensures BySensor(w.bindings, s.inputs[j].sensorId).Some? && BySensor(w.bindings, s.inputs[j].sensorId).value.channel == channel
  {
    hide JudgeInput, Impossible, SeenBefore;
  }

  lemma ClaimedBefore(front: seq<Act>, last: seq<Act>, channel: string)
    requires TakenAfterClaim(front, channel) && ClaimedIn(front, channel)
    ensures TakenAfterClaim(front + last, channel)
  {
    hide Claims;
    var c :| 0 <= c < |front| && Claims(front[c], channel);
    forall j | 0 <= j < |front + last| && (front + last)[j] == DoDemote(channel) ensures exists i :: 0 <= i < j && Claims((front + last)[i], channel) {
      if j < |front| {
        var i :| 0 <= i < j && Claims(front[i], channel);
        assert Claims((front + last)[i], channel);
      } else {
        assert Claims((front + last)[c], channel);
      }
    }
  }

  lemma {:induction false} SnapshotsTaken(kit: Kit, batch: Batch, n: nat, channel: string)
    requires n <= |batch.snapshots|
    ensures TakenAfterClaim(SnapshotsActs(kit, batch, n), channel)
  {
    hide TakenAfterClaim, InputsActs, PairsRejections;
    if n == 0 {
      NothingTaken([], channel);
    } else {
      SnapshotsTaken(kit, batch, n - 1, channel);
      var s := batch.snapshots[n - 1];
      var acts := DeviceActs(kit, s, batch.frame);
      if KnownDevice(kit, s) {
        var device := kit.devices[s.deviceId];
        PairsTouchNothing(s, device.exclusive, kit.inputs);
        NothingTaken(PairsRejections(s, device.exclusive, kit.inputs), channel);
        InputsTaken(s, |s.inputs|, Wiring(kit.bindings, device, kit.inputs), batch.frame, channel);
        TakenTogether(PairsRejections(s, device.exclusive, kit.inputs), InputsActs(s, |s.inputs|, Wiring(kit.bindings, device, kit.inputs), batch.frame), channel);
      } else {
        NothingTaken(acts, channel);
      }
      TakenTogether(SnapshotsActs(kit, batch, n - 1), acts, channel);
    }
  }

  lemma {:induction false} CellsTakeNothing(kit: Kit, batch: Batch, n: nat)
    requires n <= |batch.loadCells|
    ensures forall act :: act in LoadCellsActs(kit, batch, n) ==> !act.DoDemote?
  {
    hide JudgeLoadCell;
    if n > 0 { CellsTakeNothing(kit, batch, n - 1); }
  }

  lemma {:induction false} FieldsTakeNothing(sample: RobotSample, bindings: seq<Binding>, profile: RobotProfile, n: nat, frame: real)
    requires n <= |ROBOT_FIELDS|
    ensures forall act :: act in FieldsActs(sample, bindings, profile, n, frame) ==> !act.DoDemote?
  {
    hide JudgeRobot;
    if n > 0 { FieldsTakeNothing(sample, bindings, profile, n - 1, frame); }
  }

  lemma {:induction false} RobotsTakeNothing(kit: Kit, batch: Batch, n: nat)
    requires n <= |batch.robots|
    ensures forall act :: act in RobotsActs(kit, batch, n) ==> !act.DoDemote?
  {
    hide FieldsActs;
    if n > 0 {
      RobotsTakeNothing(kit, batch, n - 1);
      var sample := batch.robots[n - 1];
      if sample.robotId in kit.robots { FieldsTakeNothing(sample, kit.bindings, kit.robots[sample.robotId], |ROBOT_FIELDS|, batch.frame); }
    }
  }

  lemma SamplesTaken(kit: Kit, batch: Batch, channel: string)
    ensures TakenAfterClaim(SampleActs(kit, batch), channel)
  {
    CellsTakeNothing(kit, batch, |batch.loadCells|);
    SnapshotsTaken(kit, batch, |batch.snapshots|, channel);
    RobotsTakeNothing(kit, batch, |batch.robots|);
    hide TakenAfterClaim, LoadCellsActs, SnapshotsActs, RobotsActs;
    NothingTaken(LoadCellsActs(kit, batch, |batch.loadCells|), channel);
    NothingTaken(RobotsActs(kit, batch, |batch.robots|), channel);
    TakenTogether(LoadCellsActs(kit, batch, |batch.loadCells|), SnapshotsActs(kit, batch, |batch.snapshots|), channel);
    TakenTogether(LoadCellsActs(kit, batch, |batch.loadCells|) + SnapshotsActs(kit, batch, |batch.snapshots|), RobotsActs(kit, batch, |batch.robots|), channel);
  }

  // -- the theorem

  lemma {:induction false} NoneTouching(acts: seq<Act>, channel: string)
    ensures Touching(acts, channel) == 0 <==> forall j :: 0 <= j < |acts| ==> Touches(acts[j]) != Some(channel)
  {
    if acts != [] { NoneTouching(acts[..|acts| - 1], channel); }
  }

  lemma {:induction false} OneTouching(acts: seq<Act>, channel: string, i: nat)
    requires i < |acts| && Touches(acts[i]) == Some(channel)
    ensures Touching(acts, channel) == 1 <==> forall j :: 0 <= j < |acts| && j != i ==> Touches(acts[j]) != Some(channel)
  {
    var before, after := acts[..i], acts[i + 1..];
    assert acts == before + [acts[i]] + after;
    TouchingTogether(before, [acts[i]], channel);
    TouchingTogether(before + [acts[i]], after, channel);
    NoneTouching(before, channel);
    NoneTouching(after, channel);
    assert [acts[i]][..0] == [];
    hide Touches;
    assert forall j :: 0 <= j < |after| ==> after[j] == acts[i + 1 + j];
    assert Touching([acts[i]], channel) == 1;
  }

  /** A reading stands where the only act on the channel publishes it. */
  lemma StandsAlone(acts: seq<Act>, channel: string, i: nat)
    requires TakenAfterClaim(acts, channel) && i < |acts| && acts[i].DoEmit? && acts[i].binding.channel == channel && acts[i].status != Missing
    ensures StandsAt(acts, i, channel) <==> Touching(acts, channel) == 1
  {
    OneTouching(acts, channel, i);
    if StandsAt(acts, i, channel) {
      forall j | 0 <= j < |acts| && j != i ensures Touches(acts[j]) != Some(channel) {
        if j < i { assert !Claims(acts[j], channel); }
      }
    }
    hide Touching;
  }

  /** What the observation of a lone reading is. */
  function Observed(kit: Kit, batch: Batch, src: Source, b: Binding, value: Value, status: Status): Observation
    requires Addresses(kit, batch, src, b)
  {
    Observation(b.channel, Some(value), TimingOf(kit, batch, src, b), status, b.calibrationId)
  }

  lemma ReadingIsFresh(kit: Kit, batch: Batch, src: Source, b: Binding, value: Value, status: Status)
    requires Reads(kit, batch, src, b, value, status)
    ensures status != Missing
  {
    hide CellReports, RobotReports, Contradicted;
  }

  lemma LoneReadingStands(kit: Kit, batch: Batch, b: Binding, src: Source, value: Value, status: Status) returns (i: nat)
    requires kit.Valid() && b in kit.bindings
    requires Reads(kit, batch, src, b, value, status) && Alone(kit, batch, src, b)
    ensures StandsAt(SampleActs(kit, batch), i, b.channel) && Emits(kit, batch, SampleActs(kit, batch)[i], src, b, value, status)
  {
    var acts := SampleActs(kit, batch);
    ReadingIsFresh(kit, batch, src, b, value, status);
    SamplesTold(kit, batch, b);
    SamplesTaken(kit, batch, b.channel);
    AloneIsOnly(kit, batch, src, b);
    hide SampleActs, Reads, Alone, TakenAfterClaim, StandsAt, SourcesOf, Touching, Sourced;
    assert src in SourcesOf(kit, batch, b);
    var act :| act in acts && Emits(kit, batch, act, src, b, value, status);
    i :| 0 <= i < |acts| && acts[i] == act;
    StandsAlone(acts, b.channel, i);
  }

  lemma StandingIsLone(kit: Kit, batch: Batch, b: Binding, i: nat) returns (src: Source, value: Value, status: Status)
    requires kit.Valid() && b in kit.bindings && StandsAt(SampleActs(kit, batch), i, b.channel)
    ensures Reads(kit, batch, src, b, value, status) && Alone(kit, batch, src, b)
  {
    var acts := SampleActs(kit, batch);
    hide *;
    StandingPublishes(acts, i, b.channel);
    SamplesTold(kit, batch, b);
    SamplesTaken(kit, batch, b.channel);
    StandsAlone(acts, b.channel, i);
    src, value, status := SourceOf(kit, batch, b, acts, SourcesOf(kit, batch, b), i);
    OnlySource(kit, batch, b, acts, SourcesOf(kit, batch, b), src);
    AloneIsOnly(kit, batch, src, b);
  }

  lemma StandingPublishes(acts: seq<Act>, i: nat, channel: string)
    requires StandsAt(acts, i, channel)
    ensures i < |acts| && acts[i].DoEmit? && acts[i].binding.channel == channel && acts[i].status != Missing
  {
  }

  lemma SourceOf(kit: Kit, batch: Batch, b: Binding, acts: seq<Act>, sources: seq<Source>, i: nat) returns (src: Source, value: Value, status: Status)
    requires Told(kit, batch, b, acts, sources) && i < |acts| && acts[i].DoEmit? && acts[i].binding.channel == b.channel
    ensures src in sources && Reads(kit, batch, src, b, value, status) && Addresses(kit, batch, src, b)
  {
    assert Sourced(kit, batch, b, acts, sources);
    hide Addresses, Emits, AllEmitted, Touching;
    assert acts[i] in acts;
    src, value, status :| src in sources && Reads(kit, batch, src, b, value, status) && Emits(kit, batch, acts[i], src, b, value, status);
  }

  lemma OnlySource(kit: Kit, batch: Batch, b: Binding, acts: seq<Act>, sources: seq<Source>, src: Source)
    requires Told(kit, batch, b, acts, sources) && Touching(acts, b.channel) == 1 && src in sources
    ensures sources == [src]
  {
    hide Sourced, AllEmitted, Touching;
  }

  /** A commissioned channel carries a reading exactly if one raw reading of the batch is addressed to it, and that one is in order
      and allowed; and then it carries that reading's value, time and freshness. */
  lemma {:induction false} ReadingExactly(kit: Kit, batch: Batch, b: Binding)
    requires kit.Valid() && batch.Valid() && b in kit.bindings
    ensures StatusOf(Converted(kit, batch), b.channel) != Some(Missing) <==>
              exists src, value, status :: Reads(kit, batch, src, b, value, status) && Alone(kit, batch, src, b)
    ensures forall src, value, status :: Reads(kit, batch, src, b, value, status) && Alone(kit, batch, src, b) ==>
              ObservationOn(Converted(kit, batch), b.channel) == Some(Observed(kit, batch, src, b, value, status))
  {
    ReadingStandsIff(kit, batch, b);
    hide Converted, StatusOf, ObservationOn, SampleActs, Reads, Alone, StandsAt;
    if StatusOf(Converted(kit, batch), b.channel) != Some(Missing) {
      var i: nat :| StandsAt(SampleActs(kit, batch), i, b.channel);
      var src, value, status := StandingIsLone(kit, batch, b, i);
    }
    forall src, value, status | Reads(kit, batch, src, b, value, status) && Alone(kit, batch, src, b)
      ensures StatusOf(Converted(kit, batch), b.channel) != Some(Missing)
      ensures ObservationOn(Converted(kit, batch), b.channel) == Some(Observed(kit, batch, src, b, value, status))
    {
      var i := LoneReadingStands(kit, batch, b, src, value, status);
    }
  }
}
