/** Which value a raw sample stands for, told from the sample, its profile and its binding; and that the adapters judge so. */
module ChannelValues {
  import opened Common
  import opened ChannelCollectors
  import opened ChannelAdapters

  // -- rounding

  /** A nearest whole number to x; of two nearest ones the even one. */
  predicate IsNearest(n: int, x: real) {
    var rest := x - n as real;
    0.0 - 0.5 <= rest <= 0.5 && (rest == 0.5 || rest + 0.5 == 0.0 ==> n % 2 == 0)
  }

  /** y is x to six decimal places. */
  ghost predicate IsToSixPlaces(y: real, x: real) { exists n: int :: IsMillionths(n, y, x) }

  /** y is n millionths, the nearest to x. */
  predicate IsMillionths(n: int, y: real, x: real) { y * 1000000.0 == n as real && IsNearest(n, x * 1000000.0) }

  lemma NearestIsRounded(n: int, x: real)
    ensures IsNearest(n, x) <==> n == RoundHalfEven(x)
  {
    RoundsToNearest(x);
  }

  lemma SixPlacesIsRounded(y: real, x: real)
    ensures IsToSixPlaces(y, x) <==> y == RoundToSix(x)
  {
    var m := RoundHalfEven(x * 1000000.0);
    NearestIsRounded(m, x * 1000000.0);
    MillionthsOf(m);
    forall n: int | IsMillionths(n, y, x) ensures n == m { NearestIsRounded(n, x * 1000000.0); }
    hide IsNearest, RoundHalfEven;
    if y == RoundToSix(x) { assert IsMillionths(m, y, x); }
  }

  lemma MillionthsOf(m: int)
    ensures m as real / 1000000.0 * 1000000.0 == m as real
  {
  }

  // -- what every reading needs

  /** From a device in good order, sampled and available by the time of the frame. */
  predicate InOrder(timing: Timing, device: DeviceStatus, frame: real) {
    device == DeviceOk && timing.sampled <= frame && timing.available <= frame
  }

  /** Fresh enough, or stale. */
  function Freshness(timing: Timing, frame: real, staleAfter: real): Status {
    if timing.sampled + staleAfter < frame then Stale else Good
  }

  // -- robots

  /** The robot reports this value in this field, and the profile allows it. */
  ghost predicate RobotReports(sample: RobotSample, profile: RobotProfile, field: string, value: Value) {
    || (field == "activity" && value.Text? && sample.activity == Some(value.text) && value.text in profile.activities)
    || (field == "health" && value.Text? && sample.health == Some(value.text) && value.text in profile.health)
    || (field == "location" && value.Text? && sample.location == Some(value.text) && value.text in profile.locations)
    || (field == "destination" && value.Text? && sample.destination == Some(value.text) && (value.text in profile.locations || value.text == ""))
    || (field == "assigned_zone" && value.Text? && sample.assignedZone == Some(value.text) && (value.text in profile.zones || value.text == ""))
    || (field == "estop_latched" && value.Flag? && sample.estopLatched == Some(value.flag))
    || (field == "awaiting_human" && value.Flag? && sample.awaitingHuman == Some(value.flag))
    || (field == "payload_balls" && value.Whole? && sample.payload == Some(value.whole) && value.whole >= 0)
    || (field == "battery_frac" && value.Number? && sample.battery.Some? && sample.battery.value.Finite?
        && BatteryLevel(sample.battery.value.value, profile.batteryInPercent, value.number))
  }

  /** The level as a fraction to six places, of a battery between empty and full. */
  ghost predicate BatteryLevel(raw: real, inPercent: bool, level: real) {
    if inPercent then 0.0 <= raw <= 100.0 && IsToSixPlaces(level, raw / 100.0) else 0.0 <= raw <= 1.0 && IsToSixPlaces(level, raw)
  }

  lemma BatteryJudged(battery: Option<RawNumber>, inPercent: bool, stale: bool, value: Value)
    ensures JudgeBattery(battery, inPercent, stale) == Trust(value, stale) <==>
              value.Number? && battery.Some? && battery.value.Finite? && BatteryLevel(battery.value.value, inPercent, value.number)
  {
    if value.Number? && battery.Some? && battery.value.Finite? {
      SixPlacesIsRounded(value.number, if inPercent then battery.value.value / 100.0 else battery.value.value);
    }
    hide IsToSixPlaces, RoundToSix;
  }

  lemma FieldJudged(sample: RobotSample, profile: RobotProfile, f: nat, stale: bool, value: Value)
    requires f < |ROBOT_FIELDS|
    ensures JudgeField(sample, profile, ROBOT_FIELDS[f], stale) == Trust(value, stale) <==> RobotReports(sample, profile, ROBOT_FIELDS[f], value)
  {
    BatteryJudged(sample.battery, profile.batteryInPercent, stale, value);
    hide BatteryLevel, JudgeBattery;
  }

  /** The reading of one robot field that may be published on its channel. */
  ghost predicate RobotReading(sample: RobotSample, b: Binding, profile: RobotProfile, field: string, frame: real, value: Value, status: Status) {
    && profile.calibrationId == b.calibrationId && InOrder(sample.timing, sample.deviceStatus, frame)
    && RobotReports(sample, profile, field, value) && status == Freshness(sample.timing, frame, profile.staleAfter)
  }

  /** What publishing a verdict gives, if it gives a reading. */
  predicate Yields(verdict: Verdict, value: Value, status: Status) {
    verdict.Trust? && verdict.value == value && status == if verdict.stale then Stale else Good
  }

  lemma RobotJudged(sample: RobotSample, b: Binding, profile: RobotProfile, f: nat, frame: real, value: Value, status: Status)
    requires f < |ROBOT_FIELDS|
    ensures Yields(JudgeRobot(sample, b, profile, ROBOT_FIELDS[f], frame), value, status) <==>
              RobotReading(sample, b, profile, ROBOT_FIELDS[f], frame, value, status)
  {
    var stale := frame - sample.timing.sampled > profile.staleAfter;
    FieldJudged(sample, profile, f, stale, value);
    FieldKeepsStaleness(sample, profile, ROBOT_FIELDS[f], stale);
    hide JudgeField, RobotReports;
  }

  lemma FieldKeepsStaleness(sample: RobotSample, profile: RobotProfile, field: string, stale: bool)
    ensures JudgeField(sample, profile, field, stale).Trust? ==> JudgeField(sample, profile, field, stale).stale == stale
  {
  }

  // -- load cells

  /** So many balls weigh what is on the cell. */
  predicate Weighs(raw: real, profile: LoadCellProfile, balls: real) { balls * profile.massPerBall == raw - profile.tare && balls >= 0.0 }

  /** The load, as a whole count or to six places, within the capacity. */
  ghost predicate CellReports(sample: LoadCellSample, kind: Kind, profile: LoadCellProfile, value: Value) {
    && sample.rawValue.Some? && sample.rawValue.value.Finite? && sample.rawUnit == profile.rawUnit
    && exists balls :: Weighs(sample.rawValue.value.value, profile, balls)
         && (if kind == Count then value.Whole? && IsNearest(value.whole, balls) && value.whole <= profile.capacity
             else value.Number? && IsToSixPlaces(value.number, balls) && value.number <= profile.capacity as real)
  }

  lemma WeighsIsQuotient(raw: real, profile: LoadCellProfile, balls: real)
    ensures Weighs(raw, profile, balls) <==> raw - profile.tare >= 0.0 && balls == (raw - profile.tare) / profile.massPerBall
  {
    QuotientIs(raw - profile.tare, profile.massPerBall, balls);
  }

  lemma QuotientIs(net: real, unit: Positive, balls: real)
    ensures balls * unit == net <==> balls == net / unit
    ensures net / unit >= 0.0 <==> net >= 0.0
  {
  }

  lemma CellJudged(sample: LoadCellSample, b: Binding, profile: LoadCellProfile, stale: bool, value: Value)
    requires b.kind in {Count, Quantity}
    ensures JudgeMass(sample, b, profile, stale) == Trust(value, stale) <==> CellReports(sample, b.kind, profile, value)
  {
    if sample.rawValue.Some? && sample.rawValue.value.Finite? {
      var raw := sample.rawValue.value.value;
      var balls := (raw - profile.tare) / profile.massPerBall;
      forall other ensures Weighs(raw, profile, other) <==> raw - profile.tare >= 0.0 && other == balls { WeighsIsQuotient(raw, profile, other); }
      if value.Whole? { NearestIsRounded(value.whole, balls); }
      if value.Number? { SixPlacesIsRounded(value.number, balls); }
      hide Weighs, IsNearest, IsToSixPlaces, RoundHalfEven, RoundToSix;
      if raw - profile.tare >= 0.0 { assert Weighs(raw, profile, balls); }
    }
  }

  /** The reading of a load cell that may be published on its channel. */
  ghost predicate CellReading(sample: LoadCellSample, b: Binding, profile: LoadCellProfile, frame: real, value: Value, status: Status) {
    && profile.calibrationId == b.calibrationId && sample.calibrationId == (if b.calibrationRequired then Some(b.calibrationId) else None)
    && InOrder(sample.timing, sample.deviceStatus, frame)
    && CellReports(sample, b.kind, profile, value) && status == Freshness(sample.timing, frame, profile.staleAfter)
  }

  /** A sample without its calibration is refused as missing it, one with another calibration, or with one where none belongs, as a mismatch. */
  lemma CalibrationRefusals(sample: LoadCellSample, b: Binding, profiles: map<string, LoadCellProfile>, frame: real)
    requires sample.sensorId in profiles && profiles[sample.sensorId].calibrationId == b.calibrationId
    ensures JudgeLoadCell(sample, b, profiles, frame) == Distrust(CalibrationMissing) <==> b.calibrationRequired && sample.calibrationId.None?
    ensures JudgeLoadCell(sample, b, profiles, frame) == Distrust(CalibrationMismatch) <==>
              sample.calibrationId.Some? && (b.calibrationRequired ==> sample.calibrationId.value != b.calibrationId)
  {
    hide LoadCellValue, Amount;
  }

  lemma LoadCellJudged(sample: LoadCellSample, b: Binding, profiles: map<string, LoadCellProfile>, frame: real, value: Value, status: Status)
    requires b.kind in {Count, Quantity}
    ensures Yields(JudgeLoadCell(sample, b, profiles, frame), value, status) <==>
              sample.sensorId in profiles && CellReading(sample, b, profiles[sample.sensorId], frame, value, status)
  {
    if sample.sensorId in profiles {
      var profile := profiles[sample.sensorId];
      var stale := frame - sample.timing.sampled > profile.staleAfter;
      CellJudged(sample, b, profile, stale, value);
      MassKeepsStaleness(sample, b, profile, stale);
      hide JudgeMass, CellReports;
    }
  }

  lemma MassKeepsStaleness(sample: LoadCellSample, b: Binding, profile: LoadCellProfile, stale: bool)
    ensures JudgeMass(sample, b, profile, stale).Trust? ==> JudgeMass(sample, b, profile, stale).stale == stale
  {
    hide LoadCellValue;
  }

  // -- digital inputs

  /** The point reads as asserted: its raw state after the declared polarity. */
  predicate Asserted(sample: InputSample, profiles: map<string, InputProfile>) {
    sample.sensorId in profiles && sample.rawState == Some(!profiles[sample.sensorId].activeLow)
  }

  /** Input i is the last of that name. */
  predicate LastNamed(inputs: seq<InputSample>, i: nat, name: string) {
    i < |inputs| && inputs[i].inputName == name && forall j :: i < j < |inputs| ==> inputs[j].inputName != name
  }

  /** The last input of that name is asserted. */
  ghost predicate NameAsserted(inputs: seq<InputSample>, profiles: map<string, InputProfile>, name: string) {
    exists i: nat :: LastNamed(inputs, i, name) && Asserted(inputs[i], profiles)
  }

  /** The name belongs to a pair that cannot both be asserted, and both are. */
  ghost predicate Contradicted(s: Snapshot, device: DeviceProfile, profiles: map<string, InputProfile>, name: string) {
    exists pair :: pair in device.exclusive && (name == pair.0 || name == pair.1)
      && NameAsserted(s.inputs, profiles, pair.0) && NameAsserted(s.inputs, profiles, pair.1)
  }

  lemma AssertedMeaning(sample: InputSample, profiles: map<string, InputProfile>)
    ensures Asserted(sample, profiles) <==> LogicalState(sample, profiles) == Some(true)
  {
  }

  lemma {:induction false} ByNameMeaning(inputs: seq<InputSample>, name: string) returns (i: nat)
    ensures if ByName(inputs, name).Some? then LastNamed(inputs, i, name) && inputs[i] == ByName(inputs, name).value
            else forall j :: 0 <= j < |inputs| ==> inputs[j].inputName != name
    decreases |inputs|
  {
    i := 0;
    if inputs != [] {
      if inputs[|inputs| - 1].inputName == name { i := |inputs| - 1; } else { i := ByNameMeaning(inputs[..|inputs| - 1], name); }
    }
  }

  lemma NameAssertedMeaning(inputs: seq<InputSample>, profiles: map<string, InputProfile>, name: string)
    ensures NameAsserted(inputs, profiles, name) <==> ByName(inputs, name).Some? && Asserted(ByName(inputs, name).value, profiles)
  {
    var i := ByNameMeaning(inputs, name);
    hide Asserted, ByName;
    if NameAsserted(inputs, profiles, name) {
      var k: nat :| LastNamed(inputs, k, name) && Asserted(inputs[k], profiles);
      assert k == i;
    }
  }

  lemma ImpossibleMeaning(s: Snapshot, device: DeviceProfile, profiles: map<string, InputProfile>, name: string)
    ensures Contradicted(s, device, profiles, name) <==> Impossible(s, device, profiles, name)
  {
    forall pair: (string, string)
      ensures BothAsserted(s.inputs, pair, profiles) <==> NameAsserted(s.inputs, profiles, pair.0) && NameAsserted(s.inputs, profiles, pair.1)
    {
      NameAssertedMeaning(s.inputs, profiles, pair.0);
      NameAssertedMeaning(s.inputs, profiles, pair.1);
      forall sample { AssertedMeaning(sample, profiles); }
      hide Asserted, NameAsserted, LogicalState;
    }
    hide BothAsserted, NameAsserted;
    if Contradicted(s, device, profiles, name) {
      var pair :| pair in device.exclusive && (name == pair.0 || name == pair.1)
               && NameAsserted(s.inputs, profiles, pair.0) && NameAsserted(s.inputs, profiles, pair.1);
      var i :| 0 <= i < |device.exclusive| && device.exclusive[i] == pair;
    }
  }

  /** The point's state on a boolean channel, or one or none on a count. */
  predicate InputReports(sample: InputSample, kind: Kind, unit: string, profile: InputProfile, value: Value) {
    && sample.rawState.Some?
    && var asserted := sample.rawState.value != profile.activeLow;
    || (kind == Boolean && unit == "1" && value == Flag(asserted))
    || (kind == Count && unit == "count" && value == Whole(if asserted then 1 else 0))
  }

  /** The reading of a digital input that may be published on its channel. */
  ghost predicate InputReading(sample: InputSample, s: Snapshot, b: Binding, device: DeviceProfile, profiles: map<string, InputProfile>,
                               frame: real, value: Value, status: Status)
  {
    && sample.sensorId in profiles && profiles[sample.sensorId].calibrationId == b.calibrationId && !b.calibrationRequired
    && InOrder(s.timing, s.deviceStatus, frame) && !Contradicted(s, device, profiles, sample.inputName)
    && InputReports(sample, b.kind, b.unit, profiles[sample.sensorId], value)
    && status == Freshness(s.timing, frame, profiles[sample.sensorId].staleAfter)
  }

  lemma InputJudged(sample: InputSample, s: Snapshot, b: Binding, device: DeviceProfile, profiles: map<string, InputProfile>,
                    frame: real, value: Value, status: Status)
    ensures Yields(JudgeInput(sample, s, b, profiles, Impossible(s, device, profiles, sample.inputName), frame), value, status) <==>
              InputReading(sample, s, b, device, profiles, frame, value, status)
  {
    ImpossibleMeaning(s, device, profiles, sample.inputName);
    hide Impossible, Contradicted;
  }
}
