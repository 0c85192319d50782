/**
 * The three device adapters as decisions: what each raw sample makes the collector do. An act is one
 * call on the collector; an adapter is a function from a sample to its acts.
 */
module ChannelAdapters {
  import opened Common
  import opened ChannelCollectors

  datatype DeviceStatus = DeviceOk | DeviceFaulty | DeviceNoData | OtherStatus(text: string)

  /** A raw number as a driver delivers it. */
  datatype RawNumber = Finite(value: real) | NotFinite

  type Positive = x: real | 0.0 < x witness 1.0

  datatype LoadCellProfile = LoadCellProfile(
    calibrationId: string, staleAfter: real, rawUnit: string, tare: real, massPerBall: Positive, capacity: nat)

  datatype LoadCellSample = LoadCellSample(
    sensorId: string, timing: Timing, rawValue: Option<RawNumber>, rawUnit: string, deviceStatus: DeviceStatus,
    calibrationId: Option<string>, diagnosticCode: Option<string>)

  datatype InputProfile = InputProfile(calibrationId: string, staleAfter: real, activeLow: bool)

  datatype InputSample = InputSample(sensorId: string, inputName: string, rawState: Option<bool>)

  datatype DeviceProfile = DeviceProfile(deviceId: string, rawOnly: seq<string>, exclusive: seq<(string, string)>)

  datatype Snapshot = Snapshot(deviceId: string, timing: Timing, inputs: seq<InputSample>, deviceStatus: DeviceStatus)

  datatype RobotProfile = RobotProfile(
    calibrationId: string, staleAfter: real, batteryInPercent: bool, activities: seq<string>, health: seq<string>,
    locations: seq<string>, zones: seq<string>)

  datatype RobotSample = RobotSample(
    robotId: string, timing: Timing, deviceStatus: DeviceStatus, battery: Option<RawNumber>, payload: Option<int>,
    activity: Option<string>, health: Option<string>, location: Option<string>, destination: Option<string>,
    assignedZone: Option<string>, estopLatched: Option<bool>, awaitingHuman: Option<bool>,
    faultCode: Option<string>, hasPosition: bool, coordinateFrame: Option<string>)

  // -- acts

  datatype Act =
    | DoReject(field: RejectedField)
    | DoUnmap(unmapped: UnmappedField)
    | DoEmit(binding: Binding, rawField: string, value: Option<Value>, status: Status, timing: Timing)
    | DoEmitMissing(binding: Binding, rawField: string, code: Code, timing: Timing)
    | DoDemote(channel: string)

  function Perform(c: Collected, act: Act): Collected {
    match act
    case DoReject(field) => Rejecting(c, field)
    case DoUnmap(field) => Unmapping(c, field)
    case DoEmit(b, rawField, value, status, timing) => Emitting(c, b, rawField, value, status, timing)
    case DoEmitMissing(b, rawField, code, timing) => EmittingMissing(c, b, rawField, code, timing)
    case DoDemote(channel) => Demoting(c, channel)
  }

  function PerformAll(c: Collected, acts: seq<Act>): Collected {
    if acts == [] then c else Perform(PerformAll(c, acts[..|acts| - 1]), acts[|acts| - 1])
  }

  lemma {:induction false} PerformInTwo(c: Collected, a: seq<Act>, b: seq<Act>)
    ensures PerformAll(c, a + b) == PerformAll(PerformAll(c, a), b)
  {
    if b == [] {
      assert a + b == a;
    } else {
      PerformInTwo(c, a, b[..|b| - 1]);
      assert (a + b)[..|a + b| - 1] == a + b[..|b| - 1];
    }
  }

  // -- lookups

  function BySensor(bindings: seq<Binding>, sensorId: string): (b: Option<Binding>)
    ensures b.Some? ==> b.value in bindings && b.value.sensorId == sensorId
    ensures b.None? ==> forall other :: other in bindings ==> other.sensorId != sensorId
  {
    if bindings == [] then None
    else if bindings[0].sensorId == sensorId then Some(bindings[0])
    else BySensor(bindings[1..], sensorId)
  }

  function ByChannel(bindings: seq<Binding>, channel: string): (b: Option<Binding>)
    ensures b.Some? ==> b.value in bindings && b.value.channel == channel
    ensures b.None? ==> forall other :: other in bindings ==> other.channel != channel
  {
    if bindings == [] then None
    else if bindings[0].channel == channel then Some(bindings[0])
    else ByChannel(bindings[1..], channel)
  }

  function Lookup<T>(profiles: map<string, T>, key: string): Option<T> {
    if key in profiles then Some(profiles[key]) else None
  }

  // -- checks shared by the adapters

  /** Whether a reading may be published, and what it is worth. */
  datatype Verdict = Trust(value: Value, stale: bool) | Distrust(code: Code)

  datatype TimingVerdict = Timely(stale: bool) | Untimely(code: Code)

  function CheckTiming(timing: Timing, frame: real, staleAfter: real): TimingVerdict {
    if timing.sampled > frame then Untimely(FutureSample)
    else if timing.available > frame then Untimely(InconsistentTimestamps)
    else Timely(frame - timing.sampled > staleAfter)
  }

  function DeviceProblem(status: DeviceStatus): Option<Code> {
    match status
    case DeviceOk => None
    case DeviceFaulty => Some(DeviceFault)
    case DeviceNoData => Some(DeviceReportedMissing)
    case OtherStatus(_) => Some(UnknownValue)
  }

  /** Publishing a verdict on a channel: a distrusted reading is published as missing, with its cause. */
  function Publish(b: Binding, rawField: string, verdict: Verdict, timing: Timing): Act {
    match verdict
    case Trust(value, stale) => DoEmit(b, rawField, Some(value), if stale then Stale else Good, timing)
    case Distrust(code) => DoEmitMissing(b, rawField, code, timing)
  }

  // -- rounding to the nearest whole number, halves to the even one

  function RoundHalfEven(x: real): int {
    var below := x.Floor;
    var rest := x - below as real;
    if rest < 0.5 then below
    else if rest > 0.5 then below + 1
    else if below % 2 == 0 then below else below + 1
  }

  function RoundToSix(x: real): real { RoundHalfEven(x * 1000000.0) as real / 1000000.0 }

  // -- load cells

  function LoadCellValue(kind: Kind, balls: real): Value {
    if kind == Count then Whole(RoundHalfEven(balls)) else Number(RoundToSix(balls))
  }

  function Amount(value: Value): real {
    match value
    case Whole(n) => n as real
    case Number(x) => x
    case _ => 0.0
  }

  function JudgeMass(sample: LoadCellSample, b: Binding, profile: LoadCellProfile, stale: bool): Verdict {
    match sample.rawValue
    case None => Distrust(DeviceReportedMissing)
    case Some(raw) =>
      if sample.rawUnit != profile.rawUnit then Distrust(UnsupportedUnit)
      else if raw.NotFinite? then Distrust(NonFiniteValue)
      else if raw.value - profile.tare < 0.0 then Distrust(ValueOutOfRange)
      else
        var value := LoadCellValue(b.kind, (raw.value - profile.tare) / profile.massPerBall);
        if Amount(value) > profile.capacity as real then Distrust(ValueOutOfRange) else Trust(value, stale)
  }

  function JudgeLoadCell(sample: LoadCellSample, b: Binding, profiles: map<string, LoadCellProfile>, frame: real): Verdict {
    match Lookup(profiles, sample.sensorId)
    case None => Distrust(CalibrationMissing)
    case Some(profile) =>
      if profile.calibrationId != b.calibrationId then Distrust(CalibrationMismatch)
      else if b.calibrationRequired && sample.calibrationId.None? then Distrust(CalibrationMissing)
      else if b.calibrationRequired && sample.calibrationId != Some(b.calibrationId) then Distrust(CalibrationMismatch)
      else if !b.calibrationRequired && sample.calibrationId.Some? then Distrust(CalibrationMismatch)
      else
        match CheckTiming(sample.timing, frame, profile.staleAfter)
        case Untimely(code) => Distrust(code)
        case Timely(stale) =>
          match DeviceProblem(sample.deviceStatus)
          case Some(code) => Distrust(code)
          case None => JudgeMass(sample, b, profile, stale)
  }

  function LoadCellActs(sample: LoadCellSample, bindings: seq<Binding>, profiles: map<string, LoadCellProfile>, frame: real): seq<Act> {
    (if sample.diagnosticCode.Some? then [DoUnmap(UnmappedField(sample.sensorId, "diagnostic_code"))] else [])
    + [match BySensor(bindings, sample.sensorId)
       case None => DoReject(RejectedField(sample.sensorId, None, "raw_value", NoBinding))
       case Some(b) =>
         if b.kind !in {Count, Quantity} then DoReject(RejectedField(sample.sensorId, Some(b.channel), "raw_value", UnsupportedChannel))
         else if b.unit != "balls" then DoReject(RejectedField(sample.sensorId, Some(b.channel), "raw_value", UnsupportedUnit))
         else Publish(b, "raw_value", JudgeLoadCell(sample, b, profiles, frame), sample.timing)]
  }

  // -- digital inputs

  function ByName(inputs: seq<InputSample>, name: string): (found: Option<InputSample>)
    ensures found.Some? ==> found.value in inputs && found.value.inputName == name
  {
    if inputs == [] then None
    else if inputs[|inputs| - 1].inputName == name then Some(inputs[|inputs| - 1])
    else ByName(inputs[..|inputs| - 1], name)
  }

  /** The state after the declared polarity; unknown when the device gave none or no polarity is declared. */
  function LogicalState(sample: InputSample, profiles: map<string, InputProfile>): Option<bool> {
    match (sample.rawState, Lookup(profiles, sample.sensorId))
    case (Some(state), Some(profile)) => Some(state != profile.activeLow)
    case _ => None
  }

  /** Both members of a pair that the equipment cannot assert together are asserted. */
  predicate BothAsserted(inputs: seq<InputSample>, pair: (string, string), profiles: map<string, InputProfile>) {
    match (ByName(inputs, pair.0), ByName(inputs, pair.1))
    case (Some(left), Some(right)) => LogicalState(left, profiles) == Some(true) && LogicalState(right, profiles) == Some(true)
    case _ => false
  }

  predicate Impossible(s: Snapshot, device: DeviceProfile, profiles: map<string, InputProfile>, name: string) {
    exists i :: 0 <= i < |device.exclusive| && BothAsserted(s.inputs, device.exclusive[i], profiles)
             && (name == device.exclusive[i].0 || name == device.exclusive[i].1)
  }

  function PairRejections(s: Snapshot, pair: (string, string), profiles: map<string, InputProfile>): seq<Act> {
    match (ByName(s.inputs, pair.0), ByName(s.inputs, pair.1))
    case (Some(left), Some(right)) =>
      if LogicalState(left, profiles) == Some(true) && LogicalState(right, profiles) == Some(true) then
        [DoReject(RejectedField(left.sensorId, None, pair.0, ImpossibleState)),
         DoReject(RejectedField(right.sensorId, None, pair.1, ImpossibleState))]
      else []
    case _ => []
  }

  function PairsRejections(s: Snapshot, pairs: seq<(string, string)>, profiles: map<string, InputProfile>): seq<Act> {
    if pairs == [] then []
    else PairsRejections(s, pairs[..|pairs| - 1], profiles) + PairRejections(s, pairs[|pairs| - 1], profiles)
  }

  function JudgeInput(sample: InputSample, s: Snapshot, b: Binding, profiles: map<string, InputProfile>, impossible: bool, frame: real): Verdict {
    match Lookup(profiles, sample.sensorId)
    case None => Distrust(CalibrationMissing)
    case Some(profile) =>
      if profile.calibrationId != b.calibrationId then Distrust(CalibrationMismatch)
      else if b.kind !in {Boolean, Count} then Distrust(UnsupportedChannel)
      else if b.unit != (if b.kind == Boolean then "1" else "count") then Distrust(UnsupportedUnit)
      else if b.calibrationRequired then Distrust(CalibrationMissing)
      else
        match CheckTiming(s.timing, frame, profile.staleAfter)
        case Untimely(code) => Distrust(code)
        case Timely(stale) =>
          match DeviceProblem(s.deviceStatus)
          case Some(code) => Distrust(code)
          case None =>
            if impossible then Distrust(ImpossibleState)
            else
              match sample.rawState
              case None => Distrust(DeviceReportedMissing)
              case Some(state) =>
                var logical := state != profile.activeLow;
                Trust(if b.kind == Boolean then Flag(logical) else Whole(if logical then 1 else 0), stale)
  }

  /** What the digital adapter is given beside a snapshot. */
  datatype Wiring = Wiring(bindings: seq<Binding>, device: DeviceProfile, profiles: map<string, InputProfile>)

  predicate SeenBefore(inputs: seq<InputSample>, i: nat)
    requires i < |inputs|
  {
    exists j :: 0 <= j < i && inputs[j].sensorId == inputs[i].sensorId
  }

  function InputActs(s: Snapshot, i: nat, w: Wiring, frame: real): seq<Act>
    requires i < |s.inputs|
  {
    var sample := s.inputs[i];
    match BySensor(w.bindings, sample.sensorId)
    case None =>
      if sample.inputName in w.device.rawOnly then [DoUnmap(UnmappedField(sample.sensorId, sample.inputName))]
      else [DoReject(RejectedField(sample.sensorId, None, sample.inputName, NoBinding))]
    case Some(b) =>
      if SeenBefore(s.inputs, i) then
        [DoReject(RejectedField(sample.sensorId, Some(b.channel), sample.inputName, DuplicateChannel)), DoDemote(b.channel)]
      else
        [Publish(b, sample.inputName,
                 JudgeInput(sample, s, b, w.profiles, Impossible(s, w.device, w.profiles, sample.inputName), frame), s.timing)]
  }

  function InputsActs(s: Snapshot, n: nat, w: Wiring, frame: real): seq<Act>
    requires n <= |s.inputs|
  {
    if n == 0 then []
    else InputsActs(s, n - 1, w, frame) + InputActs(s, n - 1, w, frame)
  }

  function SnapshotActs(s: Snapshot, w: Wiring, frame: real): seq<Act> {
    if w.device.deviceId != s.deviceId then [DoReject(RejectedField(s.deviceId, None, "device_id", IdentityMismatch))]
    else PairsRejections(s, w.device.exclusive, w.profiles) + InputsActs(s, |s.inputs|, w, frame)
  }

  // -- robots

  const ROBOT_FIELDS := [
    "activity", "health", "battery_frac", "payload_balls", "location", "destination", "assigned_zone", "estop_latched",
    "awaiting_human"]

  function RobotChannel(robotId: string, field: string): string { "robot." + robotId + "." + field }

  function JudgeBattery(battery: Option<RawNumber>, inPercent: bool, stale: bool): Verdict {
    match battery
    case None => Distrust(DeviceReportedMissing)
    case Some(NotFinite) => Distrust(NonFiniteValue)
    case Some(Finite(x)) =>
      if !(0.0 <= x <= if inPercent then 100.0 else 1.0) then Distrust(ValueOutOfRange)
      else Trust(Number(RoundToSix(if inPercent then x / 100.0 else x)), stale)
  }

  function JudgePayload(payload: Option<int>, stale: bool): Verdict {
    match payload
    case None => Distrust(DeviceReportedMissing)
    case Some(n) => if n < 0 then Distrust(ValueOutOfRange) else Trust(Whole(n), stale)
  }

  function JudgeFlag(flag: Option<bool>, stale: bool): Verdict {
    match flag
    case None => Distrust(DeviceReportedMissing)
    case Some(on) => Trust(Flag(on), stale)
  }

  function JudgeWord(word: Option<string>, allowed: seq<string>, blankAllowed: bool, stale: bool): Verdict {
    match word
    case None => Distrust(DeviceReportedMissing)
    case Some(text) =>
      if (text == "" && blankAllowed) || text in allowed then Trust(Text(text), stale) else Distrust(UnknownValue)
  }

  function JudgeField(sample: RobotSample, profile: RobotProfile, field: string, stale: bool): Verdict {
    if field == "battery_frac" then JudgeBattery(sample.battery, profile.batteryInPercent, stale)
    else if field == "payload_balls" then JudgePayload(sample.payload, stale)
    else if field == "estop_latched" then JudgeFlag(sample.estopLatched, stale)
    else if field == "awaiting_human" then JudgeFlag(sample.awaitingHuman, stale)
    else if field == "activity" then JudgeWord(sample.activity, profile.activities, false, stale)
    else if field == "health" then JudgeWord(sample.health, profile.health, false, stale)
    else if field == "location" then JudgeWord(sample.location, profile.locations, false, stale)
    else if field == "destination" then JudgeWord(sample.destination, profile.locations, true, stale)
    else JudgeWord(sample.assignedZone, profile.zones, true, stale)
  }

  function JudgeRobot(sample: RobotSample, b: Binding, profile: RobotProfile, field: string, frame: real): Verdict {
    if b.calibrationId != profile.calibrationId then Distrust(CalibrationMismatch)
    else
      match CheckTiming(sample.timing, frame, profile.staleAfter)
      case Untimely(code) => Distrust(code)
      case Timely(stale) =>
        match DeviceProblem(sample.deviceStatus)
        case Some(code) => Distrust(code)
        case None => JudgeField(sample, profile, field, stale)
  }

  function FieldAct(sample: RobotSample, bindings: seq<Binding>, profile: RobotProfile, field: string, frame: real): Act {
    match ByChannel(bindings, RobotChannel(sample.robotId, field))
    case None => DoUnmap(UnmappedField(sample.robotId, field))
    case Some(b) => Publish(b, field, JudgeRobot(sample, b, profile, field, frame), sample.timing)
  }

  function FieldsActs(sample: RobotSample, bindings: seq<Binding>, profile: RobotProfile, n: nat, frame: real): seq<Act>
    requires n <= |ROBOT_FIELDS|
  {
    if n == 0 then []
    else FieldsActs(sample, bindings, profile, n - 1, frame) + [FieldAct(sample, bindings, profile, ROBOT_FIELDS[n - 1], frame)]
  }

  function FaultActs(sample: RobotSample): seq<Act> {
    if sample.faultCode.Some? then [DoUnmap(UnmappedField(sample.robotId, "fault_code"))] else []
  }

  function FrameActs(sample: RobotSample, coordinateFrame: string): seq<Act> {
    match sample.coordinateFrame
    case None => []
    case Some(frame) =>
      if frame != coordinateFrame then [DoReject(RejectedField(sample.robotId, None, "coordinate_frame", CoordinateFrameMismatch))]
      else [DoUnmap(UnmappedField(sample.robotId, "coordinate_frame"))]
  }

  function PositionActs(sample: RobotSample): seq<Act> {
    if sample.hasPosition then [DoUnmap(UnmappedField(sample.robotId, "position"))] else []
  }

  /** Robot fields that no canonical channel carries. */
  function ExtraActs(sample: RobotSample, coordinateFrame: string): seq<Act> {
    FaultActs(sample) + FrameActs(sample, coordinateFrame) + PositionActs(sample)
  }

  function RobotActs(sample: RobotSample, bindings: seq<Binding>, profiles: map<string, RobotProfile>, coordinateFrame: string, frame: real): seq<Act> {
    match Lookup(profiles, sample.robotId)
    case None => [DoReject(RejectedField(sample.robotId, None, "robot_id", IdentityMismatch))]
    case Some(profile) =>
      ExtraActs(sample, coordinateFrame) + FieldsActs(sample, bindings, profile, |ROBOT_FIELDS|, frame)
  }

  // -- what a trusted reading has behind it

  /** The judged value fits its channel and came from a device in good order, in time, with the commissioned calibration. */
  lemma LoadCellReadingIsEarned(sample: LoadCellSample, b: Binding, profiles: map<string, LoadCellProfile>, frame: real)
    requires b.kind in {Count, Quantity}
    ensures var v := JudgeLoadCell(sample, b, profiles, frame);
            v.Trust? ==>
              && sample.sensorId in profiles && profiles[sample.sensorId].calibrationId == b.calibrationId
              && sample.deviceStatus == DeviceOk
              && sample.timing.sampled <= frame && sample.timing.available <= frame
              && (v.stale <==> frame - sample.timing.sampled > profiles[sample.sensorId].staleAfter)
              && sample.calibrationId == (if b.calibrationRequired then Some(b.calibrationId) else None)
              && (v.value.Whole? <==> b.kind == Count)
              && 0.0 <= Amount(v.value) <= profiles[sample.sensorId].capacity as real
  {
    var v := JudgeLoadCell(sample, b, profiles, frame);
    if v.Trust? {
      var profile := profiles[sample.sensorId];
      var net := sample.rawValue.value.value - profile.tare;
      QuotientNotNegative(net, profile.massPerBall);
      RoundingKeepsSign(net / profile.massPerBall);
    }
  }

  lemma QuotientNotNegative(a: real, b: real)
    requires a >= 0.0 && b > 0.0
    ensures a / b >= 0.0
  {
  }

  lemma RoundingKeepsSign(x: real)
    requires x >= 0.0
    ensures RoundHalfEven(x) >= 0 && RoundToSix(x) >= 0.0
  {
    assert x * 1000000.0 >= 0.0;
    assert RoundHalfEven(x * 1000000.0) >= 0;
  }

  /** Rounding is to a nearest whole number. */
  lemma RoundsToNearest(x: real)
    ensures -0.5 <= x - RoundHalfEven(x) as real <= 0.5
    ensures x - RoundHalfEven(x) as real in {-0.5, 0.5} ==> RoundHalfEven(x) % 2 == 0
  {
  }
}
