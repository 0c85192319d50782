/** The Edge's runs on disk: decisions taken on the bytes read, lines written before the anchor, crashes at any byte. */
module EdgeDisks {
  import opened Common
  import opened Journals
  import opened EdgeViews
  import opened EdgeRuns

  /** How the Edge's records are written as specs and read back. */
  datatype Wire = Wire(codec: Codec, write: Stamped -> Spec, read: Spec -> Stamped)

  /** What is written is allowed, canonical and read back as it was. */
  ghost predicate Faithful(w: Wire) {
    Canonical(w.codec) && forall st: Stamped {:trigger w.write(st)} :: w.codec.allowed(w.write(st)) && w.read(w.write(st)) == st
  }

  function Specs(w: Wire, batch: seq<Stamped>): seq<Spec> { seq(|batch|, i requires 0 <= i < |batch| => w.write(batch[i])) }

  /** The Edge's records told by journal records. */
  function Told(w: Wire, records: seq<Record>): seq<Stamped> {
    seq(|records|, i requires 0 <= i < |records| => w.read(records[i].spec))
  }

  /** A step, and whether the process dies after that many bytes of its lines, before the anchor moves. */
  datatype DiskChoice = DiskChoice(step: EdgeStep, cut: Option<nat>)

  function BatchOn(cfg: EdgeDecisions.EdgeConfig, w: Wire, records: seq<Record>, step: EdgeStep): seq<Stamped> {
    StepBatch(cfg, ViewOf(cfg, Told(w, records)), step)
  }

  function Cut(data: seq<Byte>, k: nat): seq<Byte> { if k < |data| then data[..k] else data }

  /** The records a step appends after those read. */
  function AddedBy(w: Wire, before: seq<Record>, batch: seq<Stamped>): seq<Record> { RecordsFor(w.codec, |before| + 1, Specs(w, batch)) }

  /** The bytes a dying process leaves of its lines. */
  function Written(w: Wire, before: seq<Record>, batch: seq<Stamped>, k: nat): seq<Byte> { Cut(RenderAll(w.codec, AddedBy(w, before, batch)), k) }

  /** One turn of any process: a journal that cannot be read is left alone. */
  function DiskStep(cfg: EdgeDecisions.EdgeConfig, w: Wire, disk: Disk, c: DiskChoice): Disk {
    var before := Read(w.codec, disk);
    if before.Err? then disk
    else
      var batch := BatchOn(cfg, w, before.value, c.step);
      if batch == [] then disk
      else if c.cut.None? then Appended(w.codec, disk, AddedBy(w, before.value, batch))
      else disk.(data := disk.data + Written(w, before.value, batch, c.cut.value))
  }

  const BLANK := Disk([], None)

  function DiskRun(cfg: EdgeDecisions.EdgeConfig, w: Wire, choices: seq<DiskChoice>): Disk {
    if choices == [] then BLANK
    else DiskStep(cfg, w, DiskRun(cfg, w, choices[..|choices| - 1]), choices[|choices| - 1])
  }

  /** The step of the Edge's run this turn amounts to: as many records as whole lines were left. */
  function LinesKept(cfg: EdgeDecisions.EdgeConfig, w: Wire, disk: Disk, c: DiskChoice): EdgeChoice {
    var before := Read(w.codec, disk);
    if before.Err? then EdgeChoice(c.step, 0)
    else
      var batch := BatchOn(cfg, w, before.value, c.step);
      EdgeChoice(c.step, if c.cut.None? then |batch| else LineCount(Written(w, before.value, batch, c.cut.value)))
  }

  function EdgeChoicesOf(cfg: EdgeDecisions.EdgeConfig, w: Wire, choices: seq<DiskChoice>): seq<EdgeChoice> {
    if choices == [] then []
    else
      var front := choices[..|choices| - 1];
      EdgeChoicesOf(cfg, w, front) + [LinesKept(cfg, w, DiskRun(cfg, w, front), choices[|choices| - 1])]
  }

  /** The process lives through its turn, or leaves nothing, or whole lines of an anchored journal. */
  predicate LeavesWholeLines(cfg: EdgeDecisions.EdgeConfig, w: Wire, disk: Disk, c: DiskChoice) {
    var before := Read(w.codec, disk);
    before.Ok? && c.cut.Some? ==>
      var written := Written(w, before.value, BatchOn(cfg, w, before.value, c.step), c.cut.value);
      written == [] || (Terminated(written) && disk.anchor.Some?)
  }

  // -- one turn

  lemma SpecsAllowed(w: Wire, batch: seq<Stamped>)
    requires Faithful(w)
    ensures AllAllowed(w.codec, Specs(w, batch))
  {
  }

  /** What a prefix of the added records tells is that prefix of the batch. */
  lemma ToldAgain(w: Wire, before: seq<Record>, batch: seq<Stamped>, n: nat)
    requires Faithful(w) && n <= |batch|
    ensures |AddedBy(w, before, batch)| == |batch|
    ensures Told(w, before + AddedBy(w, before, batch)[..n]) == Told(w, before) + batch[..n]
  {
    var specs := Specs(w, batch);
    var added := AddedBy(w, before, batch);
    forall i | 0 <= i < n ensures w.read(added[i].spec) == batch[i] {
      SequencesFollow(w.codec, |before| + 1, specs, i);
      assert specs[i] == w.write(batch[i]);
    }
  }

  lemma WholeTurn(w: Wire, disk: Disk, batch: seq<Stamped>)
    requires Faithful(w) && Read(w.codec, disk).Ok? && batch != []
    ensures var before := Read(w.codec, disk).value;
            var after := Read(w.codec, Appended(w.codec, disk, AddedBy(w, before, batch)));
            after.Ok? && Told(w, after.value) == Told(w, before) + batch
  {
    var before := Read(w.codec, disk).value;
    SpecsAllowed(w, batch);
    AppendThenRead(w.codec, disk, Specs(w, batch));
    ToldAgain(w, before, batch, |batch|);
    assert AddedBy(w, before, batch)[..|batch|] == AddedBy(w, before, batch) && batch[..|batch|] == batch;
    hide Read, Told, RecordsFor, Appended, Specs, Faithful;
  }

  lemma TornTurn(w: Wire, disk: Disk, batch: seq<Stamped>, k: nat)
    requires Faithful(w) && Read(w.codec, disk).Ok?
    ensures var before := Read(w.codec, disk).value;
            var written := Written(w, before, batch, k);
            var after := Read(w.codec, disk.(data := disk.data + written));
            && (after.Ok? <==> written == [] || (Terminated(written) && disk.anchor.Some?))
            && (after.Ok? ==> Told(w, after.value) == Told(w, before) + Kept(batch, LineCount(written)))
  {
    var before := Read(w.codec, disk).value;
    var data := RenderAll(w.codec, AddedBy(w, before, batch));
    var m := if k < |data| then k else |data|;
    assert Written(w, before, batch, k) == data[..m];
    SpecsAllowed(w, batch);
    TornAppendExactly(w.codec, disk, Specs(w, batch), m);
    ToldAgain(w, before, batch, 0);
    hide Read, Told, RecordsFor, RenderAll, Specs, LineCount, Written, Terminated;
    var n := LineCount(data[..m]);
    if n <= |batch| { ToldAgain(w, before, batch, n); }
    hide Faithful;
  }

  lemma NothingWritten(w: Wire, before: seq<Record>, k: nat)
    ensures Written(w, before, [], k) == []
  {
  }

  /** After a turn the journal is readable exactly when it was and whole lines were left, and then it tells one more step. */
  lemma TurnReads(cfg: EdgeDecisions.EdgeConfig, w: Wire, disk: Disk, c: DiskChoice)
    requires Faithful(w)
    ensures Read(w.codec, DiskStep(cfg, w, disk, c)).Ok? <==> Read(w.codec, disk).Ok? && LeavesWholeLines(cfg, w, disk, c)
    ensures Read(w.codec, DiskStep(cfg, w, disk, c)).Ok? ==>
              var before := Read(w.codec, disk).value;
              Told(w, Read(w.codec, DiskStep(cfg, w, disk, c)).value)
              == Told(w, before) + Kept(BatchOn(cfg, w, before, c.step), LinesKept(cfg, w, disk, c).persisted)
  {
    hide Read, Told, BatchOn, Appended, AddedBy, Written, Terminated, Faithful, LineCount;
    if Read(w.codec, disk).Ok? {
      var before := Read(w.codec, disk).value;
      var batch := BatchOn(cfg, w, before, c.step);
      if batch == [] {
        if c.cut.Some? { NothingWritten(w, before, c.cut.value); }
      } else if c.cut.None? {
        WholeTurn(w, disk, batch);
      } else {
        TornTurn(w, disk, batch, c.cut.value);
      }
    }
  }

  // -- whole runs

  lemma BlankReads(w: Wire)
    ensures Read(w.codec, BLANK) == Ok([])
  {
  }

  /** Whatever dies where, a journal that can still be read tells a run of the Edge, step by step the same. */
  lemma {:induction false} DiskRunIsEdgeRun(cfg: EdgeDecisions.EdgeConfig, w: Wire, choices: seq<DiskChoice>)
    requires Faithful(w) && Read(w.codec, DiskRun(cfg, w, choices)).Ok?
    ensures Told(w, Read(w.codec, DiskRun(cfg, w, choices)).value) == EdgeRun(cfg, EdgeChoicesOf(cfg, w, choices))
    ensures |EdgeChoicesOf(cfg, w, choices)| == |choices|
  {
    BlankReads(w);
    hide Read, Told, DiskStep, LinesKept, StepBatch, ViewOf, Faithful;
    if choices == [] {
      assert Told(w, []) == [] by { ToldNothing(w); }
    } else {
      var front, last := choices[..|choices| - 1], choices[|choices| - 1];
      var disk := DiskRun(cfg, w, front);
      TurnReads(cfg, w, disk, last);
      DiskRunIsEdgeRun(cfg, w, front);
      var all := EdgeChoicesOf(cfg, w, choices);
      assert all[..|all| - 1] == EdgeChoicesOf(cfg, w, front);
      SameStep(cfg, w, disk, last);
    }
  }

  lemma ToldNothing(w: Wire)
    ensures Told(w, []) == []
  {
  }

  lemma SameStep(cfg: EdgeDecisions.EdgeConfig, w: Wire, disk: Disk, c: DiskChoice)
    ensures LinesKept(cfg, w, disk, c).step == c.step
  {
  }

  /** Every crash so far left whole lines behind an anchor, or nothing. */
  predicate AlwaysWholeLines(cfg: EdgeDecisions.EdgeConfig, w: Wire, choices: seq<DiskChoice>) {
    choices == [] ||
    var front := choices[..|choices| - 1];
    AlwaysWholeLines(cfg, w, front) && LeavesWholeLines(cfg, w, DiskRun(cfg, w, front), choices[|choices| - 1])
  }

  /** The journal stays readable exactly as long as that holds; from the first other crash on every read fails. */
  lemma {:induction false} ReadableExactly(cfg: EdgeDecisions.EdgeConfig, w: Wire, choices: seq<DiskChoice>)
    requires Faithful(w)
    ensures Read(w.codec, DiskRun(cfg, w, choices)).Ok? <==> AlwaysWholeLines(cfg, w, choices)
  {
    BlankReads(w);
    hide Read, DiskStep, LeavesWholeLines, Faithful;
    if choices != [] {
      TurnReads(cfg, w, DiskRun(cfg, w, choices[..|choices| - 1]), choices[|choices| - 1]);
      ReadableExactly(cfg, w, choices[..|choices| - 1]);
    }
  }
}
