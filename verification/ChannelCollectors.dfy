/**
 * The collector that every device adapter writes to: the observations of one cycle and the diagnostics
 * that explain them. Its four operations keep one tally per channel in step.
 */
module ChannelCollectors {
  import opened Common

  datatype Kind = Count | Quantity | Fraction | Boolean | Label

  datatype Value = Number(number: real) | Whole(whole: int) | Flag(flag: bool) | Text(text: string)

  datatype Status = Good | Stale | Missing

  datatype Code =
    | NoBinding | NoSample | UnknownSource | IdentityMismatch | CalibrationMissing | CalibrationMismatch
    | UnsupportedUnit | NonFiniteValue | ValueOutOfRange | UnknownValue | FutureSample | InconsistentTimestamps
    | DeviceFault | DeviceReportedMissing | ImpossibleState | CoordinateFrameMismatch | DuplicateChannel
    | UnsupportedChannel

  datatype Timing = Timing(sampled: real, available: real)

  /** One commissioned sensor-to-channel mapping. */
  datatype Binding = Binding(
    sensorId: string, channel: string, kind: Kind, unit: string, calibrationId: string, calibrationRequired: bool)

  datatype Observation = Observation(
    channel: string, value: Option<Value>, timing: Timing, status: Status, calibrationId: string)

  datatype AcceptedField = AcceptedField(sensorId: string, channel: string, rawField: string, status: Status)
  datatype RejectedField = RejectedField(sensorId: string, channel: Option<string>, rawField: string, code: Code)
  datatype UnmappedField = UnmappedField(sensorId: string, rawField: string)

  datatype Collected = Collected(
    observations: seq<Observation>, accepted: seq<AcceptedField>, rejected: seq<RejectedField>,
    unmapped: seq<UnmappedField>, claimed: map<string, string>, rejectedChannels: set<string>)

  const NOTHING := Collected([], [], [], [], map[], {})

  // -- the operations on values

  function Rejecting(c: Collected, field: RejectedField): Collected {
    c.(rejected := c.rejected + [field],
       rejectedChannels := c.rejectedChannels + match field.channel case Some(ch) => {ch} case None => {})
  }

  function Unmapping(c: Collected, field: UnmappedField): Collected { c.(unmapped := c.unmapped + [field]) }

  /** The first observation on a channel. */
  function Position(observations: seq<Observation>, channel: string): (at: Option<nat>)
    ensures at.Some? ==> at.value < |observations| && observations[at.value].channel == channel
    ensures at.Some? ==> forall j :: 0 <= j < at.value ==> observations[j].channel != channel
    ensures at.None? ==> forall j :: 0 <= j < |observations| ==> observations[j].channel != channel
  {
    if observations == [] then None
    else
      match Position(observations[..|observations| - 1], channel)
      case Some(i) => Some(i)
      case None => if observations[|observations| - 1].channel == channel then Some(|observations| - 1) else None
  }

  function WithoutChannel(accepted: seq<AcceptedField>, channel: string): (kept: seq<AcceptedField>)
    ensures forall f :: f in kept <==> f in accepted && f.channel != channel
  {
    if accepted == [] then []
    else
      var rest := WithoutChannel(accepted[..|accepted| - 1], channel);
      var last := accepted[|accepted| - 1];
      assert accepted == accepted[..|accepted| - 1] + [last];
      if last.channel == channel then rest else rest + [last]
  }

  function Emptied(o: Observation): Observation { o.(value := None, status := Missing) }

  function Demoting(c: Collected, channel: string): Collected {
    match Position(c.observations, channel)
    case None => c
    case Some(i) =>
      if c.observations[i].status == Missing then c
      else c.(observations := c.observations[i := Emptied(c.observations[i])],
              accepted := WithoutChannel(c.accepted, channel))
  }

  function Emitting(c: Collected, b: Binding, rawField: string, value: Option<Value>, status: Status, timing: Timing): Collected {
    if b.channel in c.claimed then
      Demoting(Rejecting(c, RejectedField(b.sensorId, Some(b.channel), rawField, DuplicateChannel)), b.channel)
    else
      c.(claimed := c.claimed[b.channel := b.sensorId],
         observations := c.observations + [Observation(b.channel, value, timing, status, b.calibrationId)],
         accepted := c.accepted + if status == Missing then [] else [AcceptedField(b.sensorId, b.channel, rawField, status)])
  }

  function EmittingMissing(c: Collected, b: Binding, rawField: string, code: Code, timing: Timing): Collected {
    Emitting(Rejecting(c, RejectedField(b.sensorId, Some(b.channel), rawField, code)), b, rawField, None, Missing, timing)
  }

  // -- the invariant

  predicate Distinct(observations: seq<Observation>) {
    forall i, j :: 0 <= i < j < |observations| ==> observations[i].channel != observations[j].channel
  }

  predicate AcceptedOn(c: Collected, channel: string) { exists f :: f in c.accepted && f.channel == channel }

  predicate RejectedOn(c: Collected, channel: string) { exists f :: f in c.rejected && f.channel == Some(channel) }

  /** What the collector says about a channel. */
  function StatusOf(c: Collected, channel: string): Option<Status> {
    match Position(c.observations, channel)
    case None => None
    case Some(i) => Some(c.observations[i].status)
  }

  /** Claimed, observed, accepted and rejected agree about one channel. */
  ghost predicate ChannelSound(c: Collected, channel: string) {
    && (channel in c.claimed <==> StatusOf(c, channel).Some?)
    && (AcceptedOn(c, channel) <==> StatusOf(c, channel).Some? && StatusOf(c, channel) != Some(Missing))
    && (channel in c.rejectedChannels <==> RejectedOn(c, channel))
    && (StatusOf(c, channel) == Some(Missing) ==> channel in c.rejectedChannels)
  }

  /** An observation the canonical contract admits: it has no value exactly when it is missing. */
  predicate Admissible(o: Observation) { (o.value == None <==> o.status == Missing) && o.timing.sampled <= o.timing.available }

  ghost predicate Sound(c: Collected) {
    && Distinct(c.observations)
    && (forall i :: 0 <= i < |c.observations| ==> Admissible(c.observations[i]))
    && forall channel: string :: ChannelSound(c, channel)
  }

  lemma {:induction false} RejectingKeepsSound(c: Collected, field: RejectedField)
    requires Sound(c)
    ensures Sound(Rejecting(c, field))
  {
    var d := Rejecting(c, field);
    forall channel: string ensures ChannelSound(d, channel) {
      assert ChannelSound(c, channel);
      assert field in d.rejected;
      assert RejectedOn(d, channel) <==> RejectedOn(c, channel) || field.channel == Some(channel);
    }
  }

  lemma {:induction false} UnmappingKeepsSound(c: Collected, field: UnmappedField)
    requires Sound(c)
    ensures Sound(Unmapping(c, field))
  {
    forall channel: string ensures ChannelSound(Unmapping(c, field), channel) { assert ChannelSound(c, channel); }
  }

  lemma PositionAfterAppend(observations: seq<Observation>, o: Observation, channel: string)
    ensures Position(observations + [o], channel) ==
      if Position(observations, channel).Some? then Position(observations, channel)
      else if o.channel == channel then Some(|observations|) else None
  {
    assert (observations + [o])[..|observations|] == observations;
  }

  lemma PositionIsOnly(observations: seq<Observation>, channel: string, i: nat)
    requires Distinct(observations) && i < |observations| && observations[i].channel == channel
    ensures Position(observations, channel) == Some(i)
  {
  }

  lemma {:induction false} DemotingKeepsSound(c: Collected, channel: string)
    requires Sound(c) && channel in c.rejectedChannels
    ensures Sound(Demoting(c, channel))
    ensures StatusOf(Demoting(c, channel), channel) in {None, Some(Missing)}
    ensures forall other: string :: other != channel ==> StatusOf(Demoting(c, channel), other) == StatusOf(c, other)
  {
    var d := Demoting(c, channel);
    assert ChannelSound(c, channel);
    if Position(c.observations, channel).Some? && c.observations[Position(c.observations, channel).value].status != Missing {
      var i := Position(c.observations, channel).value;
      assert Distinct(d.observations);
      PositionIsOnly(d.observations, channel, i);
      forall other: string ensures ChannelSound(d, other) && (other != channel ==> StatusOf(d, other) == StatusOf(c, other)) {
        assert ChannelSound(c, other);
        if other != channel {
          SamePosition(c.observations, d.observations, other);
          assert AcceptedOn(d, other) <==> AcceptedOn(c, other);
        } else {
          assert !AcceptedOn(d, channel);
        }
      }
    }
  }

  lemma {:induction false} SamePosition(a: seq<Observation>, b: seq<Observation>, channel: string)
    requires |a| == |b| && Distinct(a) && Distinct(b) && forall i :: 0 <= i < |a| ==> a[i].channel == b[i].channel
    ensures Position(a, channel) == Position(b, channel)
  {
    if Position(a, channel).Some? { PositionIsOnly(b, channel, Position(a, channel).value); }
  }

  lemma {:induction false} EmittingKeepsSound(c: Collected, b: Binding, rawField: string, value: Option<Value>, status: Status, timing: Timing)
    requires Sound(c) && timing.sampled <= timing.available && (value == None <==> status == Missing)
    requires status == Missing ==> b.channel in c.rejectedChannels
    ensures Sound(Emitting(c, b, rawField, value, status, timing))
    ensures b.channel in c.claimed ==> StatusOf(Emitting(c, b, rawField, value, status, timing), b.channel) == Some(Missing)
  {
    assert ChannelSound(c, b.channel);
    if b.channel in c.claimed {
      var field := RejectedField(b.sensorId, Some(b.channel), rawField, DuplicateChannel);
      RejectingKeepsSound(c, field);
      DemotingKeepsSound(Rejecting(c, field), b.channel);
      assert ChannelSound(Emitting(c, b, rawField, value, status, timing), b.channel);
    } else {
      NewClaimKeepsSound(c, b, rawField, value, status, timing);
    }
  }

  lemma {:induction false} NewClaimKeepsSound(c: Collected, b: Binding, rawField: string, value: Option<Value>, status: Status, timing: Timing)
    requires Sound(c) && timing.sampled <= timing.available && (value == None <==> status == Missing)
    requires status == Missing ==> b.channel in c.rejectedChannels
    requires b.channel !in c.claimed
    ensures Sound(Emitting(c, b, rawField, value, status, timing))
  {
    var d := Emitting(c, b, rawField, value, status, timing);
    var o := Observation(b.channel, value, timing, status, b.calibrationId);
    assert ChannelSound(c, b.channel);
    assert Distinct(d.observations);
    forall channel: string ensures ChannelSound(d, channel) {
      assert ChannelSound(c, channel);
      PositionAfterAppend(c.observations, o, channel);
      assert RejectedOn(d, channel) <==> RejectedOn(c, channel);
      if status == Missing {
        assert AcceptedOn(d, channel) <==> AcceptedOn(c, channel);
      } else {
        var f := AcceptedField(b.sensorId, b.channel, rawField, status);
        assert f in d.accepted;
        assert AcceptedOn(d, channel) <==> AcceptedOn(c, channel) || channel == b.channel;
      }
    }
  }

  lemma {:induction false} EmittingMissingKeepsSound(c: Collected, b: Binding, rawField: string, code: Code, timing: Timing)
    requires Sound(c) && timing.sampled <= timing.available
    ensures Sound(EmittingMissing(c, b, rawField, code, timing))
  {
    var field := RejectedField(b.sensorId, Some(b.channel), rawField, code);
    RejectingKeepsSound(c, field);
    EmittingKeepsSound(Rejecting(c, field), b, rawField, None, Missing, timing);
  }

  // -- the object

  class Collector {
    const frame: real
    var observations: seq<Observation>
    var accepted: seq<AcceptedField>
    var rejected: seq<RejectedField>
    var unmapped: seq<UnmappedField>
    var claimed: map<string, string>
    var rejectedChannels: set<string>

    function Contents(): Collected
      reads this
    {
      Collected(observations, accepted, rejected, unmapped, claimed, rejectedChannels)
    }

    constructor (frame: real)
      ensures Contents() == NOTHING && this.frame == frame
    {
      this.frame := frame;
      observations, accepted, rejected, unmapped := [], [], [], [];
      claimed, rejectedChannels := map[], {};
    }

    method Reject(sensorId: string, channel: Option<string>, rawField: string, code: Code)
      modifies this
      ensures Contents() == Rejecting(old(Contents()), RejectedField(sensorId, channel, rawField, code))
    {
      rejected := rejected + [RejectedField(sensorId, channel, rawField, code)];
      if channel.Some? { rejectedChannels := rejectedChannels + {channel.value}; }
    }

    method Unmap(sensorId: string, rawField: string)
      modifies this
      ensures Contents() == Unmapping(old(Contents()), UnmappedField(sensorId, rawField))
    {
      unmapped := unmapped + [UnmappedField(sensorId, rawField)];
    }

    /** A conflict invalidates the value already emitted for a channel. */
    method DemoteToMissing(channel: string)
      modifies this
      ensures Contents() == Demoting(old(Contents()), channel)
    {
      for index := 0 to |observations|
        invariant Contents() == old(Contents())
        invariant forall j :: 0 <= j < index ==> observations[j].channel != channel
      {
        var observation := observations[index];
        if observation.channel == channel {
          assert Position(observations, channel) == Some(index);
          if observation.status == Missing { return; }
          observations := observations[index := Emptied(observation)];
          accepted := WithoutChannel(accepted, channel);
          return;
        }
      }
      assert Position(observations, channel) == None;
    }

    method Emit(b: Binding, rawField: string, value: Option<Value>, status: Status, timing: Timing)
      modifies this
      ensures Contents() == Emitting(old(Contents()), b, rawField, value, status, timing)
    {
      if b.channel in claimed {
        Reject(b.sensorId, Some(b.channel), rawField, DuplicateChannel);
        DemoteToMissing(b.channel);
        return;
      }
      claimed := claimed[b.channel := b.sensorId];
      observations := observations + [Observation(b.channel, value, timing, status, b.calibrationId)];
      if status == Missing { return; }
      accepted := accepted + [AcceptedField(b.sensorId, b.channel, rawField, status)];
    }

    method EmitMissing(b: Binding, rawField: string, code: Code, timing: Timing)
      modifies this
      ensures Contents() == EmittingMissing(old(Contents()), b, rawField, code, timing)
    {
      Reject(b.sensorId, Some(b.channel), rawField, code);
      Emit(b, rawField, None, Missing, timing);
    }
  }
}
