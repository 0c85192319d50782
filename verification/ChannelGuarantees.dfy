/** What the conversion guarantees about every batch: coverage, honest diagnostics, and earned readings. */
module ChannelGuarantees {
  import opened Common
  import opened ChannelCollectors
  import opened ChannelAdapters
  import opened ChannelCoverage

  function Touches(act: Act): Option<string> {
    match act
    case DoEmit(b, _, _, _, _) => Some(b.channel)
    case DoEmitMissing(b, _, _, _) => Some(b.channel)
    case DoDemote(channel) => Some(channel)
    case _ => None
  }

  predicate Claims(act: Act, channel: string) { Touches(act) == Some(channel) && !act.DoDemote? }

  // -- acts that keep the collector sound

  /** What makes an adapter's act safe: commissioned binding, ordered times, a value iff it is a reading, a named cause before a demotion. */
  ghost predicate FitAt(kit: Kit, acts: seq<Act>, i: nat)
    requires i < |acts|
  {
    match acts[i]
    case DoEmit(b, _, value, status, timing) =>
      b in kit.bindings && timing.sampled <= timing.available && value.Some? && status != Missing
    case DoEmitMissing(b, _, _, timing) => b in kit.bindings && timing.sampled <= timing.available
    case DoDemote(channel) => i > 0 && acts[i - 1].DoReject? && acts[i - 1].field.channel == Some(channel)
    case _ => true
  }

  ghost predicate Fit(kit: Kit, acts: seq<Act>) { forall i: nat :: i < |acts| ==> FitAt(kit, acts, i) }

  lemma FitTogether(kit: Kit, a: seq<Act>, b: seq<Act>)
    requires Fit(kit, a) && Fit(kit, b)
    ensures Fit(kit, a + b)
  {
    FitWhole(kit, a, b, a + b);
  }

  lemma FitWhole(kit: Kit, a: seq<Act>, b: seq<Act>, whole: seq<Act>)
    requires Fit(kit, a) && Fit(kit, b) && whole == a + b
    ensures Fit(kit, whole)
  {
    forall i: nat | i < |whole| ensures FitAt(kit, whole, i) {
      if i < |a| { assert FitAt(kit, a, i); } else { assert FitAt(kit, b, i - |a|); }
    }
  }

  lemma FitPrefix(kit: Kit, acts: seq<Act>)
    requires Fit(kit, acts) && acts != []
    ensures Fit(kit, acts[..|acts| - 1]) && FitAt(kit, acts, |acts| - 1)
  {
    FitFirst(kit, acts, acts[..|acts| - 1]);
  }

  lemma FitFirst(kit: Kit, acts: seq<Act>, first: seq<Act>)
    requires Fit(kit, acts) && first <= acts
    ensures Fit(kit, first)
  {
    forall i: nat | i < |first| ensures FitAt(kit, first, i) { assert FitAt(kit, acts, i); }
  }

  lemma PublishIsFit(kit: Kit, b: Binding, rawField: string, verdict: Verdict, timing: Timing)
    requires b in kit.bindings && timing.sampled <= timing.available
    ensures Fit(kit, [Publish(b, rawField, verdict, timing)])
  {
  }

  lemma LoadCellActsAreFit(kit: Kit, sample: LoadCellSample, frame: real)
    requires sample.timing.sampled <= sample.timing.available
    ensures Fit(kit, LoadCellActs(sample, kit.bindings, kit.loadCells, frame))
  {
    var b := BySensor(kit.bindings, sample.sensorId);
    if b.Some? { PublishIsFit(kit, b.value, "raw_value", JudgeLoadCell(sample, b.value, kit.loadCells, frame), sample.timing); }
  }

  lemma {:induction false} PairsAreFit(kit: Kit, s: Snapshot, pairs: seq<(string, string)>)
    ensures Fit(kit, PairsRejections(s, pairs, kit.inputs))
  {
    if pairs != [] {
      PairsAreFit(kit, s, pairs[..|pairs| - 1]);
      FitTogether(kit, PairsRejections(s, pairs[..|pairs| - 1], kit.inputs), PairRejections(s, pairs[|pairs| - 1], kit.inputs));
    }
  }

  lemma {:induction false} InputsAreFit(kit: Kit, s: Snapshot, n: nat, device: DeviceProfile, frame: real)
    requires n <= |s.inputs| && s.timing.sampled <= s.timing.available
    ensures Fit(kit, InputsActs(s, n, Wiring(kit.bindings, device, kit.inputs), frame))
  {
    if n > 0 {
      InputsAreFit(kit, s, n - 1, device, frame);
      FitTogether(kit, InputsActs(s, n - 1, Wiring(kit.bindings, device, kit.inputs), frame),
                  InputActs(s, n - 1, Wiring(kit.bindings, device, kit.inputs), frame));
    }
  }

  lemma DeviceActsAreFit(kit: Kit, s: Snapshot, frame: real)
    requires s.timing.sampled <= s.timing.available
    ensures Fit(kit, DeviceActs(kit, s, frame))
  {
    var device := Lookup(kit.devices, s.deviceId);
    if device.Some? {
      PairsAreFit(kit, s, device.value.exclusive);
      InputsAreFit(kit, s, |s.inputs|, device.value, frame);
      FitTogether(kit, PairsRejections(s, device.value.exclusive, kit.inputs),
                  InputsActs(s, |s.inputs|, Wiring(kit.bindings, device.value, kit.inputs), frame));
    }
  }

  lemma {:induction false} FieldsAreFit(kit: Kit, sample: RobotSample, profile: RobotProfile, n: nat, frame: real)
    requires n <= |ROBOT_FIELDS| && sample.timing.sampled <= sample.timing.available
    ensures Fit(kit, FieldsActs(sample, kit.bindings, profile, n, frame))
  {
    if n > 0 {
      FieldsAreFit(kit, sample, profile, n - 1, frame);
      FitTogether(kit, FieldsActs(sample, kit.bindings, profile, n - 1, frame),
                  [FieldAct(sample, kit.bindings, profile, ROBOT_FIELDS[n - 1], frame)]);
    }
  }

  lemma RobotActsAreFit(kit: Kit, sample: RobotSample, frame: real)
    requires sample.timing.sampled <= sample.timing.available
    ensures Fit(kit, RobotActs(sample, kit.bindings, kit.robots, kit.coordinateFrame, frame))
  {
    var profile := Lookup(kit.robots, sample.robotId);
    if profile.Some? {
      FieldsAreFit(kit, sample, profile.value, |ROBOT_FIELDS|, frame);
      FitTogether(kit, ExtraActs(sample, kit.coordinateFrame),
                  FieldsActs(sample, kit.bindings, profile.value, |ROBOT_FIELDS|, frame));
    }
  }

  lemma {:induction false} LoadCellsAreFit(kit: Kit, batch: Batch, n: nat)
    requires batch.Valid() && n <= |batch.loadCells|
    ensures Fit(kit, LoadCellsActs(kit, batch, n))
  {
    if n > 0 {
      LoadCellsAreFit(kit, batch, n - 1);
      LoadCellActsAreFit(kit, batch.loadCells[n - 1], batch.frame);
      FitTogether(kit, LoadCellsActs(kit, batch, n - 1), LoadCellActs(batch.loadCells[n - 1], kit.bindings, kit.loadCells, batch.frame));
    }
  }

  lemma {:induction false} SnapshotsAreFit(kit: Kit, batch: Batch, n: nat)
    requires batch.Valid() && n <= |batch.snapshots|
    ensures Fit(kit, SnapshotsActs(kit, batch, n))
  {
    if n > 0 {
      SnapshotsAreFit(kit, batch, n - 1);
      DeviceActsAreFit(kit, batch.snapshots[n - 1], batch.frame);
      FitTogether(kit, SnapshotsActs(kit, batch, n - 1), DeviceActs(kit, batch.snapshots[n - 1], batch.frame));
    }
  }

  lemma {:induction false} RobotsAreFit(kit: Kit, batch: Batch, n: nat)
    requires batch.Valid() && n <= |batch.robots|
    ensures Fit(kit, RobotsActs(kit, batch, n))
  {
    if n > 0 {
      RobotsAreFit(kit, batch, n - 1);
      RobotActsAreFit(kit, batch.robots[n - 1], batch.frame);
      FitTogether(kit, RobotsActs(kit, batch, n - 1),
                  RobotActs(batch.robots[n - 1], kit.bindings, kit.robots, kit.coordinateFrame, batch.frame));
    }
  }

  lemma {:induction false} SampleActsAreFit(kit: Kit, batch: Batch)
    requires batch.Valid()
    ensures Fit(kit, SampleActs(kit, batch))
  {
    hide *;
    LoadCellsAreFit(kit, batch, |batch.loadCells|);
    SnapshotsAreFit(kit, batch, |batch.snapshots|);
    RobotsAreFit(kit, batch, |batch.robots|);
    var cells, snapshots := LoadCellsActs(kit, batch, |batch.loadCells|), SnapshotsActs(kit, batch, |batch.snapshots|);
    var robots := RobotsActs(kit, batch, |batch.robots|);
    FitTogether(kit, cells, snapshots);
    FitTogether(kit, cells + snapshots, robots);
    AllSampleActs(kit, batch);
  }

  lemma AllSampleActs(kit: Kit, batch: Batch)
    ensures SampleActs(kit, batch) ==
      LoadCellsActs(kit, batch, |batch.loadCells|) + SnapshotsActs(kit, batch, |batch.snapshots|)
      + RobotsActs(kit, batch, |batch.robots|)
  {
  }

  /** A cause that has been recorded for a channel is never forgotten, and neither is a claim. */
  lemma ActsAccumulate(c: Collected, act: Act)
    ensures c.rejectedChannels <= Perform(c, act).rejectedChannels
    ensures forall channel :: channel in Perform(c, act).claimed <==> channel in c.claimed || Claims(act, channel)
    ensures act.DoReject? && act.field.channel.Some? ==> act.field.channel.value in Perform(c, act).rejectedChannels
  {
  }

  lemma {:induction false} FitKeepsSound(kit: Kit, c: Collected, acts: seq<Act>)
    requires Sound(c) && Fit(kit, acts)
    ensures Sound(PerformAll(c, acts))
  {
    if acts != [] {
      var before := acts[..|acts| - 1];
      FitPrefix(kit, acts);
      FitKeepsSound(kit, c, before);
      var d := PerformAll(c, before);
      var act := acts[|acts| - 1];
      if act.DoDemote? {
        assert act.channel in d.rejectedChannels by {
          assert before[..|before| - 1] == acts[..|acts| - 2];
          ActsAccumulate(PerformAll(c, before[..|before| - 1]), before[|before| - 1]);
        }
      }
      ActKeepsSound(d, act);
    }
  }

  lemma {:induction false} ActKeepsSound(d: Collected, act: Act)
    requires Sound(d)
    requires act.DoEmit? ==> act.timing.sampled <= act.timing.available && (act.value == None <==> act.status == Missing)
    requires act.DoEmit? && act.status == Missing ==> act.binding.channel in d.rejectedChannels
    requires act.DoEmitMissing? ==> act.timing.sampled <= act.timing.available
    requires act.DoDemote? ==> act.channel in d.rejectedChannels
    ensures Sound(Perform(d, act))
  {
    match act {
      case DoReject(field) => RejectingKeepsSound(d, field);
      case DoUnmap(field) => UnmappingKeepsSound(d, field);
      case DoEmit(b, rawField, value, status, timing) => EmittingKeepsSound(d, b, rawField, value, status, timing);
      case DoEmitMissing(b, rawField, code, timing) => EmittingMissingKeepsSound(d, b, rawField, code, timing);
      case DoDemote(channel) => DemotingKeepsSound(d, channel);
    }
  }

  // -- closing the gaps

  ghost predicate CommissionedOnly(kit: Kit, c: Collected) {
    forall channel :: channel in c.claimed ==> exists b :: b in kit.bindings && b.channel == channel
  }

  lemma {:induction false} FitClaimsCommissioned(kit: Kit, c: Collected, acts: seq<Act>)
    requires Fit(kit, acts) && CommissionedOnly(kit, c)
    ensures CommissionedOnly(kit, PerformAll(c, acts))
  {
    if acts != [] {
      FitPrefix(kit, acts);
      FitClaimsCommissioned(kit, c, acts[..|acts| - 1]);
      ActsAccumulate(PerformAll(c, acts[..|acts| - 1]), acts[|acts| - 1]);
    }
  }

  /** The first n commissioned channels are claimed, and nothing but them has been added to the claims. */
  ghost predicate ClosedFirst(kit: Kit, c: Collected, d: Collected, n: nat)
    requires n <= |kit.bindings|
  {
    && (forall i :: 0 <= i < n ==> kit.bindings[i].channel in d.claimed)
    && (forall channel :: channel in d.claimed ==> channel in c.claimed || exists i :: 0 <= i < n && kit.bindings[i].channel == channel)
  }

  /** What was claimed is observed as before; what has been claimed since is missing. */
  ghost predicate KeptWhatWasThere(c: Collected, d: Collected) {
    && (forall channel :: channel in c.claimed ==> channel in d.claimed && ObservationOn(d, channel) == ObservationOn(c, channel))
    && (forall channel :: channel !in c.claimed && channel in d.claimed ==> StatusOf(d, channel) == Some(Missing))
  }

  /** After the first n gaps. */
  ghost predicate Closing(kit: Kit, c: Collected, d: Collected, n: nat)
    requires n <= |kit.bindings|
  {
    && Sound(d) && CommissionedOnly(kit, d) && c.rejectedChannels <= d.rejectedChannels
    && ClosedFirst(kit, c, d, n) && KeptWhatWasThere(c, d)
  }

  function ObservationOn(c: Collected, channel: string): Option<Observation> {
    match Position(c.observations, channel)
    case None => None
    case Some(i) => Some(c.observations[i])
  }

  lemma {:induction false} GapsClose(kit: Kit, c: Collected, claimed: set<string>, rejected: set<string>, n: nat, frame: real)
    requires kit.Valid() && Sound(c) && CommissionedOnly(kit, c) && n <= |kit.bindings|
    requires claimed == c.claimed.Keys && rejected == c.rejectedChannels
    ensures Closing(kit, c, PerformAll(c, GapsActs(claimed, rejected, kit.bindings, n, frame)), n)
  {
    hide Closing, PerformAll, Sound, CommissionedOnly, GapActs;
    if n == 0 {
      NoGapsClose(kit, c);
    } else {
      GapsClose(kit, c, claimed, rejected, n - 1, frame);
      NextGapCloses(kit, c, claimed, rejected, GapsActs(claimed, rejected, kit.bindings, n - 1, frame), n, frame);
    }
  }

  lemma {:induction false} NextGapCloses(kit: Kit, c: Collected, claimed: set<string>, rejected: set<string>, done: seq<Act>, n: nat, frame: real)
    requires kit.Valid() && 0 < n <= |kit.bindings| && claimed == c.claimed.Keys && rejected == c.rejectedChannels
    requires Closing(kit, c, PerformAll(c, done), n - 1)
    ensures Closing(kit, c, PerformAll(c, done + GapActs(claimed, rejected, kit.bindings[n - 1], frame)), n)
  {
    var d := PerformAll(c, done);
    var acts := GapActs(claimed, rejected, kit.bindings[n - 1], frame);
    PerformInTwo(c, done, acts);
    if kit.bindings[n - 1].channel in claimed {
      NothingToClose(kit, c, d, n);
    } else {
      assert acts == [acts[0]];
      PerformOne(d, acts[0]);
      GapCloses(kit, c, d, claimed, rejected, n, frame, acts[0]);
    }
  }

  lemma NoGapsClose(kit: Kit, c: Collected)
    requires Sound(c) && CommissionedOnly(kit, c)
    ensures Closing(kit, c, PerformAll(c, []), 0)
  {
  }

  lemma NothingToClose(kit: Kit, c: Collected, d: Collected, n: nat)
    requires 0 < n <= |kit.bindings| && Closing(kit, c, d, n - 1) && kit.bindings[n - 1].channel in c.claimed
    ensures Closing(kit, c, d, n)
  {
  }

  /** A gap adds one missing observation, on a channel that had none. */
  lemma {:induction false} GapAppends(c: Collected, d: Collected, claimed: set<string>, rejected: set<string>, b: Binding, frame: real, act: Act)
    requires Sound(d) && c.rejectedChannels <= d.rejectedChannels && b.channel !in d.claimed
    requires claimed == c.claimed.Keys && rejected == c.rejectedChannels && [act] == GapActs(claimed, rejected, b, frame)
    ensures var e := Perform(d, act);
            && Sound(e) && c.rejectedChannels <= e.rejectedChannels
            && e.claimed.Keys == d.claimed.Keys + {b.channel}
            && e.observations == d.observations + [Observation(b.channel, None, Timing(frame, frame), Missing, b.calibrationId)]
  {
    ActsAccumulate(d, act);
    ActKeepsSound(d, act);
  }

  lemma {:induction false} ObservedAfterAppend(d: Collected, e: Collected, o: Observation, channel: string)
    requires Sound(d) && o.channel !in d.claimed && e.observations == d.observations + [o]
    ensures ObservationOn(e, channel) == if channel == o.channel then Some(o) else ObservationOn(d, channel)
    ensures StatusOf(e, channel) == if channel == o.channel then Some(o.status) else StatusOf(d, channel)
  {
    assert ChannelSound(d, o.channel);
    PositionAfterAppend(d.observations, o, channel);
  }

  lemma {:induction false} GapCloses(kit: Kit, c: Collected, d: Collected, claimed: set<string>, rejected: set<string>, n: nat, frame: real, act: Act)
    requires kit.Valid() && 0 < n <= |kit.bindings| && Closing(kit, c, d, n - 1)
    requires claimed == c.claimed.Keys && rejected == c.rejectedChannels
    requires [act] == GapActs(claimed, rejected, kit.bindings[n - 1], frame)
    ensures Closing(kit, c, Perform(d, act), n)
  {
    var b := kit.bindings[n - 1];
    var o := Observation(b.channel, None, Timing(frame, frame), Missing, b.calibrationId);
    var e := Perform(d, act);
    assert b.channel !in d.claimed && b.channel !in c.claimed;
    GapAppends(c, d, claimed, rejected, b, frame, act);
    hide Perform, Sound, GapActs;
    GapIsClosedNext(kit, c, d, e, n);
    KeepsWhatWasThere(c, d, e, o);
    assert CommissionedOnly(kit, e);
  }

  lemma GapIsClosedNext(kit: Kit, c: Collected, d: Collected, e: Collected, n: nat)
    requires 0 < n <= |kit.bindings| && ClosedFirst(kit, c, d, n - 1) && e.claimed.Keys == d.claimed.Keys + {kit.bindings[n - 1].channel}
    ensures ClosedFirst(kit, c, e, n)
  {
    forall i | 0 <= i < n ensures kit.bindings[i].channel in e.claimed { assert i < n - 1 ==> kit.bindings[i].channel in d.claimed; }
  }

  lemma {:induction false} KeepsWhatWasThere(c: Collected, d: Collected, e: Collected, o: Observation)
    requires KeptWhatWasThere(c, d) && Sound(d) && o.channel !in d.claimed && o.channel !in c.claimed && o.status == Missing
    requires e.observations == d.observations + [o] && e.claimed.Keys == d.claimed.Keys + {o.channel}
    ensures KeptWhatWasThere(c, e)
  {
    hide ObservationOn, StatusOf, Sound;
    forall channel: string | channel in c.claimed
      ensures channel in e.claimed && ObservationOn(e, channel) == ObservationOn(c, channel)
    {
      assert channel in d.claimed.Keys;
      ObservedAfterAppend(d, e, o, channel);
    }
    forall channel: string | channel !in c.claimed && channel in e.claimed ensures StatusOf(e, channel) == Some(Missing) {
      assert channel in e.claimed.Keys;
      ObservedAfterAppend(d, e, o, channel);
    }
  }

  lemma {:induction false} ConversionCloses(kit: Kit, batch: Batch)
    requires kit.Valid() && batch.Valid()
    ensures Closing(kit, AfterSamples(kit, batch), Converted(kit, batch), |kit.bindings|)
  {
    var c := AfterSamples(kit, batch);
    SampleActsAreFit(kit, batch);
    assert Sound(NOTHING) by { forall channel: string ensures ChannelSound(NOTHING, channel) {} }
    FitKeepsSound(kit, NOTHING, SampleActs(kit, batch));
    FitClaimsCommissioned(kit, NOTHING, SampleActs(kit, batch));
    GapsClose(kit, c, c.claimed.Keys, c.rejectedChannels, |kit.bindings|, batch.frame);
  }

  // -- the guarantees

  /** Exactly one observation per commissioned channel, and none on any other. */
  ghost predicate Covers(kit: Kit, c: Collected) {
    && Distinct(c.observations)
    && (forall b :: b in kit.bindings ==> ObservationOn(c, b.channel).Some?)
    && (forall o :: o in c.observations ==> exists b :: b in kit.bindings && b.channel == o.channel)
  }

  /** Whatever arrives, each commissioned channel gets exactly one observation, which the canonical contract admits. */
  lemma {:induction false} EveryChannelIsCovered(kit: Kit, batch: Batch)
    requires kit.Valid() && batch.Valid()
    ensures Covers(kit, Converted(kit, batch))
    ensures forall o :: o in Converted(kit, batch).observations ==> Admissible(o)
  {
    ConversionCloses(kit, batch);
    var c := Converted(kit, batch);
    forall b | b in kit.bindings ensures ObservationOn(c, b.channel).Some? { assert ChannelSound(c, b.channel); }
    forall o | o in c.observations ensures exists b :: b in kit.bindings && b.channel == o.channel {
      assert ChannelSound(c, o.channel);
    }
  }

  /** The accepted channels are exactly those not missing, and every missing one is named by a rejection. */
  lemma {:induction false} DiagnosticsAreHonest(kit: Kit, batch: Batch, b: Binding)
    requires kit.Valid() && batch.Valid() && b in kit.bindings
    ensures var c := Converted(kit, batch);
            && (AcceptedOn(c, b.channel) <==> StatusOf(c, b.channel) != Some(Missing))
            && (StatusOf(c, b.channel) == Some(Missing) ==> RejectedOn(c, b.channel))
  {
    ConversionCloses(kit, batch);
    assert ChannelSound(Converted(kit, batch), b.channel);
  }

  // -- when a reading stands

  /** Act i publishes a reading on the channel; nothing claims the channel before or after, and nothing demotes it afterwards. */
  ghost predicate StandsAt(acts: seq<Act>, i: nat, channel: string) {
    && i < |acts| && acts[i].DoEmit? && acts[i].status != Missing && acts[i].binding.channel == channel
    && (forall j :: 0 <= j < i ==> !Claims(acts[j], channel))
    && (forall j :: i < j < |acts| ==> Touches(acts[j]) != Some(channel))
  }

  function Published(act: Act): Observation
    requires act.DoEmit?
  {
    Observation(act.binding.channel, act.value, act.timing, act.status, act.binding.calibrationId)
  }

  /** How one act changes what is observed on a channel. */
  lemma {:induction false} ActOnChannel(c: Collected, act: Act, channel: string)
    requires Sound(c)
    requires Touches(act) == Some(channel) ==> act.DoEmit? || channel in c.rejectedChannels || act.DoEmitMissing?
    ensures Touches(act) != Some(channel) ==> ObservationOn(Perform(c, act), channel) == ObservationOn(c, channel)
    ensures Touches(act) == Some(channel) && channel in c.claimed ==> StatusOf(Perform(c, act), channel) == Some(Missing)
    ensures Claims(act, channel) && channel !in c.claimed ==>
      if act.DoEmit? then ObservationOn(Perform(c, act), channel) == Some(Published(act))
      else StatusOf(Perform(c, act), channel) == Some(Missing)
    ensures act.DoDemote? && channel !in c.claimed ==> ObservationOn(Perform(c, act), channel) == None == ObservationOn(c, channel)
  {
    assert ChannelSound(c, channel);
    match act {
      case DoReject(_) =>
      case DoUnmap(_) =>
      case DoEmit(b, rawField, value, status, timing) => EmitOnChannel(c, b, rawField, value, status, timing, channel);
      case DoEmitMissing(b, rawField, code, timing) =>
        var field := RejectedField(b.sensorId, Some(b.channel), rawField, code);
        RejectingKeepsSound(c, field);
        EmitOnChannel(Rejecting(c, field), b, rawField, None, Missing, timing, channel);
      case DoDemote(other) => DemoteOnChannel(c, other, channel);
    }
  }

  lemma {:induction false} DemoteOnChannel(c: Collected, other: string, channel: string)
    requires Sound(c)
    ensures other != channel ==> ObservationOn(Demoting(c, other), channel) == ObservationOn(c, channel)
    ensures other == channel ==> StatusOf(Demoting(c, other), channel) == if StatusOf(c, channel).Some? then Some(Missing) else None
  {
    var d := Demoting(c, other);
    assert forall i :: 0 <= i < |c.observations| ==> d.observations[i].channel == c.observations[i].channel;
    SamePosition(c.observations, d.observations, channel);
    if Position(c.observations, channel).Some? && Position(c.observations, other).Some? && other != channel {
      assert Position(c.observations, channel).value != Position(c.observations, other).value;
    }
  }

  lemma {:induction false} EmitOnChannel(c: Collected, b: Binding, rawField: string, value: Option<Value>, status: Status, timing: Timing, channel: string)
    requires Sound(c)
    ensures var d := Emitting(c, b, rawField, value, status, timing);
            && (b.channel != channel ==> ObservationOn(d, channel) == ObservationOn(c, channel))
            && (b.channel == channel && channel in c.claimed ==> StatusOf(d, channel) == Some(Missing))
            && (b.channel == channel && channel !in c.claimed ==>
                  ObservationOn(d, channel) == Some(Observation(channel, value, timing, status, b.calibrationId)))
  {
    assert ChannelSound(c, b.channel);
    if b.channel in c.claimed {
      var field := RejectedField(b.sensorId, Some(b.channel), rawField, DuplicateChannel);
      RejectingKeepsSound(c, field);
      DemoteOnChannel(Rejecting(c, field), b.channel, channel);
    } else {
      PositionAfterAppend(c.observations, Observation(b.channel, value, timing, status, b.calibrationId), channel);
    }
  }

  /** What the samples leave on a channel, told from the acts alone. */
  ghost predicate Fate(acts: seq<Act>, c: Collected, channel: string) {
    && (channel in c.claimed <==> Claimed(acts, channel))
    && (forall i: nat :: StandsAt(acts, i, channel) ==> ObservationOn(c, channel) == Some(Published(acts[i])))
    && (StatusOf(c, channel).Some? && StatusOf(c, channel) != Some(Missing) ==> exists i: nat :: StandsAt(acts, i, channel))
  }

  lemma {:induction false} FateIsTold(kit: Kit, acts: seq<Act>, channel: string)
    requires Fit(kit, acts)
    ensures Sound(PerformAll(NOTHING, acts)) && Fate(acts, PerformAll(NOTHING, acts), channel)
  {
    assert Sound(NOTHING) by { forall other: string ensures ChannelSound(NOTHING, other) {} }
    FitKeepsSound(kit, NOTHING, acts);
    if acts != [] {
      FitPrefix(kit, acts);
      var before := acts[..|acts| - 1];
      FateIsTold(kit, before, channel);
      FateOfOneMore(kit, acts, PerformAll(NOTHING, before), channel);
    }
  }

  /** In a fit run the cause of a demotion is already on record. */
  lemma {:induction false} DemotionIsNamed(kit: Kit, c: Collected, acts: seq<Act>)
    requires acts != [] && Fit(kit, acts) && acts[|acts| - 1].DoDemote?
    ensures acts[|acts| - 1].channel in PerformAll(c, acts[..|acts| - 1]).rejectedChannels
  {
    var n := |acts| - 1;
    assert FitAt(kit, acts, n);
    var before := acts[..n];
    ActsAccumulate(PerformAll(c, before[..n - 1]), before[n - 1]);
  }

  ghost predicate Claimed(acts: seq<Act>, channel: string) { exists i :: 0 <= i < |acts| && Claims(acts[i], channel) }

  lemma ClaimedByOneMore(acts: seq<Act>, channel: string)
    requires acts != []
    ensures Claimed(acts, channel) <==> Claimed(acts[..|acts| - 1], channel) || Claims(acts[|acts| - 1], channel)
  {
    var n := |acts| - 1;
    assert forall i :: 0 <= i < n ==> acts[i] == acts[..n][i];
  }

  lemma {:induction false} FateOfOneMore(kit: Kit, acts: seq<Act>, c: Collected, channel: string)
    requires acts != [] && Fit(kit, acts) && Sound(c) && c == PerformAll(NOTHING, acts[..|acts| - 1])
    requires Fate(acts[..|acts| - 1], c, channel)
    ensures Fate(acts, Perform(c, acts[|acts| - 1]), channel)
  {
    var act := acts[|acts| - 1];
    if act.DoDemote? { DemotionIsNamed(kit, NOTHING, acts); }
    ActOnChannel(c, act, channel);
    ActsAccumulate(c, act);
    ClaimedByOneMore(acts, channel);
    assert ChannelSound(c, channel);
    SameStatus(c, channel);
    SameStatus(Perform(c, act), channel);
    hide PerformAll, Perform, StandsAt, Sound, ObservationOn, StatusOf, Claimed;
    if Touches(act) == Some(channel) {
      StandingTouched(acts, channel);
    } else {
      StandingUntouched(acts, channel);
      FateUntouched(acts, c, Perform(c, act), channel);
    }
  }

  lemma FateUntouched(acts: seq<Act>, c: Collected, d: Collected, channel: string)
    requires acts != [] && Fate(acts[..|acts| - 1], c, channel) && ObservationOn(d, channel) == ObservationOn(c, channel)
    requires channel in d.claimed <==> Claimed(acts, channel)
    requires forall i: nat :: StandsAt(acts, i, channel) ==> i < |acts| - 1 && StandsAt(acts[..|acts| - 1], i, channel)
    requires forall i: nat :: StandsAt(acts[..|acts| - 1], i, channel) ==> StandsAt(acts, i, channel)
    ensures Fate(acts, d, channel)
  {
    SameStatus(c, channel);
    SameStatus(d, channel);
    hide StandsAt, ObservationOn, StatusOf, Claimed;
    assert forall i: nat :: StandsAt(acts, i, channel) ==> acts[i] == acts[..|acts| - 1][i];
    if StatusOf(d, channel).Some? && StatusOf(d, channel) != Some(Missing) {
      var i: nat :| StandsAt(acts[..|acts| - 1], i, channel);
      assert StandsAt(acts, i, channel);
    }
  }

  lemma SameStatus(c: Collected, channel: string)
    ensures StatusOf(c, channel) == if ObservationOn(c, channel).Some? then Some(ObservationOn(c, channel).value.status) else None
  {
  }

  /** An act on other channels leaves a standing reading alone. */
  lemma {:induction false} StandingUntouched(acts: seq<Act>, channel: string)
    requires acts != [] && Touches(acts[|acts| - 1]) != Some(channel)
    ensures forall i: nat :: StandsAt(acts, i, channel) ==> i < |acts| - 1 && StandsAt(acts[..|acts| - 1], i, channel)
    ensures forall i: nat :: StandsAt(acts[..|acts| - 1], i, channel) ==> StandsAt(acts, i, channel)
  {
    var n := |acts| - 1;
    assert forall j :: 0 <= j < n ==> acts[j] == acts[..n][j];
  }

  /** Once the channel is touched again only a first claim can stand. */
  lemma {:induction false} StandingTouched(acts: seq<Act>, channel: string)
    requires acts != [] && Touches(acts[|acts| - 1]) == Some(channel)
    ensures var n := |acts| - 1;
            forall i: nat :: StandsAt(acts, i, channel) ==>
              i == n && acts[n].DoEmit? && acts[n].status != Missing && !Claimed(acts[..n], channel)
    ensures var n := |acts| - 1;
            acts[n].DoEmit? && acts[n].status != Missing && !Claimed(acts[..n], channel) ==> StandsAt(acts, n, channel)
  {
    var n := |acts| - 1;
    assert forall j :: 0 <= j < n ==> acts[j] == acts[..n][j];
    if !Claimed(acts[..n], channel) {
      forall j | 0 <= j < n ensures !Claims(acts[j], channel) { assert !Claims(acts[..n][j], channel); }
    }
  }

  /** A commissioned channel carries a reading iff one act of the samples publishes it and no other claims or demotes the channel; and then it carries that reading. */
  lemma {:induction false} ReadingStandsIff(kit: Kit, batch: Batch, b: Binding)
    requires kit.Valid() && batch.Valid() && b in kit.bindings
    ensures StatusOf(Converted(kit, batch), b.channel) != Some(Missing) <==>
            exists i: nat :: StandsAt(SampleActs(kit, batch), i, b.channel)
    ensures forall i: nat :: StandsAt(SampleActs(kit, batch), i, b.channel) ==>
            ObservationOn(Converted(kit, batch), b.channel) == Some(Published(SampleActs(kit, batch)[i]))
  {
    var acts, c, d := SampleActs(kit, batch), AfterSamples(kit, batch), Converted(kit, batch);
    SampleActsAreFit(kit, batch);
    FateIsTold(kit, acts, b.channel);
    ConversionCloses(kit, batch);
    assert b.channel in d.claimed by { hide Sound, CommissionedOnly, KeptWhatWasThere, SampleActs, Converted, PerformAll, Fate; }
    hide SampleActs, Converted, PerformAll, Fate, StandsAt, KeptWhatWasThere, CommissionedOnly, ClosedFirst, StatusOf, ObservationOn, ChannelSound;
    StandsAfterClosing(acts, c, d, b.channel);
  }

  /** Closing the gaps changes nothing on a claimed channel and leaves a missing observation on any other. */
  lemma {:induction false} StandsAfterClosing(acts: seq<Act>, c: Collected, d: Collected, channel: string)
    requires Fate(acts, c, channel) && KeptWhatWasThere(c, d) && channel in d.claimed
    requires ChannelSound(c, channel) && ChannelSound(d, channel)
    ensures StatusOf(d, channel) != Some(Missing) <==> exists i: nat :: StandsAt(acts, i, channel)
    ensures forall i: nat :: StandsAt(acts, i, channel) ==> ObservationOn(d, channel) == Some(Published(acts[i]))
  {
    forall i: nat | StandsAt(acts, i, channel) ensures ObservationOn(d, channel) == Some(Published(acts[i])) {
      assert Claims(acts[i], channel);
    }
  }
}
