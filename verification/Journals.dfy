/** The append-only journal file: verified reads, in-lock appends, and the high-water anchor. */
module Journals {
  import opened Common

  type Byte = b: int | 0 <= b < 256

  const NEWLINE: Byte := 10

  datatype Spec = Spec(kind: string, origin: string, recordedAt: string, payload: string)

  datatype Record = Record(sequence: nat, id: string, spec: Spec)

  /** One line's decoding (every check of the line included), its encoding, record ids and the vocabulary. */
  datatype Codec = Codec(
    parse: (seq<Byte>, nat) -> Option<Record>,
    render: Record -> seq<Byte>,
    identify: (nat, Spec) -> string,
    allowed: Spec -> bool)

  function RecordFor(c: Codec, n: nat, spec: Spec): Record { Record(n, c.identify(n, spec), spec) }

  /** Canonical JSON: one line without a raw newline, read back as the record that was written. */
  ghost predicate Canonical(c: Codec) {
    forall n: nat, spec: Spec {:trigger RecordFor(c, n, spec)} :: c.allowed(spec) ==>
      NEWLINE !in c.render(RecordFor(c, n, spec)) && c.parse(c.render(RecordFor(c, n, spec)), n) == Some(RecordFor(c, n, spec))
  }

  datatype JournalError =
    | Truncated | BadLine(number: nat)
    | MissingAnchor | RolledBack | AnchorMismatch
    | NotAllowed | Refused

  // -- reading

  function FirstNewline(data: seq<Byte>): (k: nat)
    ensures k <= |data| && NEWLINE !in data[..k] && (k < |data| ==> data[k] == NEWLINE)
  {
    if data == [] || data[0] == NEWLINE then 0
    else
      var k := 1 + FirstNewline(data[1..]);
      assert data[..k] == [data[0]] + data[1..][..k - 1];
      k
  }

  /** The records of every terminated line, numbered from `start`. */
  function ParseLines(c: Codec, data: seq<Byte>, start: nat): Result<seq<Record>, JournalError>
    decreases |data|
  {
    var k := FirstNewline(data);
    if k == |data| then Ok([])
    else
      var first := c.parse(data[..k], start);
      if first.None? then Err(BadLine(start))
      else
        var rest := ParseLines(c, data[k + 1..], start + 1);
        if rest.Err? then rest else Ok([first.value] + rest.value)
  }

  predicate Terminated(data: seq<Byte>) { data == [] || data[|data| - 1] == NEWLINE }

  /** Verification of the whole file, without any cache. */
  function FullVerify(c: Codec, data: seq<Byte>): Result<seq<Record>, JournalError> {
    if !Terminated(data) then Err(Truncated) else ParseLines(c, data, 1)
  }

  function Join(a: Result<seq<Record>, JournalError>, b: Result<seq<Record>, JournalError>): Result<seq<Record>, JournalError> {
    if a.Err? then a else if b.Err? then b else Ok(a.value + b.value)
  }

  lemma FirstNewlineIn(a: seq<Byte>, b: seq<Byte>)
    requires NEWLINE in a
    ensures FirstNewline(a + b) == FirstNewline(a) < |a|
  {
    if a[0] != NEWLINE {
      assert (a + b)[1..] == a[1..] + b;
      FirstNewlineIn(a[1..], b);
    }
  }

  /** One line ahead of the others. */
  function Cons(c: Codec, line: seq<Byte>, number: nat, rest: Result<seq<Record>, JournalError>): Result<seq<Record>, JournalError> {
    var first := c.parse(line, number);
    if first.None? then Err(BadLine(number)) else Join(Ok([first.value]), rest)
  }

  lemma ParseOne(c: Codec, data: seq<Byte>, start: nat, k: nat)
    requires k == FirstNewline(data) < |data|
    ensures ParseLines(c, data, start) == Cons(c, data[..k], start, ParseLines(c, data[k + 1..], start + 1))
  {
  }

  /** Continuing after the lines `front` reports: an error stays the error. */
  function Continue(c: Codec, front: Result<seq<Record>, JournalError>, data: seq<Byte>, start: nat): Result<seq<Record>, JournalError> {
    if front.Err? then front else Join(front, ParseLines(c, data, start + |front.value|))
  }

  lemma ContinueCons(c: Codec, line: seq<Byte>, start: nat, rest: Result<seq<Record>, JournalError>, data: seq<Byte>)
    ensures Cons(c, line, start, Continue(c, rest, data, start + 1)) == Continue(c, Cons(c, line, start, rest), data, start)
  {
    var first := c.parse(line, start);
    if first.Some? && rest.Ok? {
      assert |[first.value] + rest.value| == 1 + |rest.value|;
      var more := ParseLines(c, data, start + 1 + |rest.value|);
      if more.Ok? { assert [first.value] + (rest.value + more.value) == ([first.value] + rest.value) + more.value; }
    }
    hide ParseLines;
  }

  lemma JoinNothing(rest: Result<seq<Record>, JournalError>)
    ensures Join(Ok([]), rest) == rest
  {
    if rest.Ok? { assert [] + rest.value == rest.value; }
  }

  /** Lines already verified need not be parsed again: the rest continues where they end. */
  lemma {:induction false} ParseSplit(c: Codec, a: seq<Byte>, b: seq<Byte>, start: nat)
    requires Terminated(a)
    ensures ParseLines(c, a + b, start) == Continue(c, ParseLines(c, a, start), b, start)
    decreases |a|
  {
    if a == [] {
      assert a + b == b;
      JoinNothing(ParseLines(c, b, start));
    } else {
      assert a[|a| - 1] == NEWLINE;
      FirstNewlineIn(a, b);
      var k := FirstNewline(a);
      assert (a + b)[..k] == a[..k] && (a + b)[k + 1..] == a[k + 1..] + b;
      assert Terminated(a[k + 1..]);
      hide *;
      ParseOne(c, a, start, k);
      ParseOne(c, a + b, start, k);
      ParseSplit(c, a[k + 1..], b, start + 1);
      ContinueCons(c, a[..k], start, ParseLines(c, a[k + 1..], start + 1), b);
    }
  }

  // -- the anchor

  /** How many records the journal is known to have reached, and the id of the last of them. */
  datatype Anchor = Anchor(records: nat, lastId: string)

  datatype Disk = Disk(data: seq<Byte>, anchor: Option<Anchor>)

  function CheckAnchor(records: seq<Record>, anchor: Option<Anchor>): Option<JournalError> {
    match anchor
    case None => if records != [] then Some(MissingAnchor) else None
    case Some(a) =>
      if |records| < a.records then Some(RolledBack)
      else if a.records > 0 && records[a.records - 1].id != a.lastId then Some(AnchorMismatch)
      else None
  }

  function Read(c: Codec, disk: Disk): Result<seq<Record>, JournalError> {
    var verified := FullVerify(c, disk.data);
    if verified.Err? then verified
    else
      var loss := CheckAnchor(verified.value, disk.anchor);
      if loss.Some? then Err(loss.value) else verified
  }

  // -- appending

  function RecordsFor(c: Codec, next: nat, specs: seq<Spec>): (rs: seq<Record>)
    ensures |rs| == |specs|
    decreases |specs|
  {
    if specs == [] then [] else [RecordFor(c, next, specs[0])] + RecordsFor(c, next + 1, specs[1..])
  }

  function RenderAll(c: Codec, records: seq<Record>): seq<Byte>
    decreases |records|
  {
    if records == [] then [] else c.render(records[0]) + [NEWLINE] + RenderAll(c, records[1..])
  }

  predicate AllAllowed(c: Codec, specs: seq<Spec>) { forall i :: 0 <= i < |specs| ==> c.allowed(specs[i]) }

  /** The disk after a whole append: the lines first, the anchor after them. */
  function Appended(c: Codec, disk: Disk, records: seq<Record>): Disk
    requires records != []
  {
    Disk(disk.data + RenderAll(c, records), Some(Anchor(records[|records| - 1].sequence, records[|records| - 1].id)))
  }

  lemma {:induction false} RenderedParses(c: Codec, next: nat, specs: seq<Spec>)
    requires Canonical(c) && AllAllowed(c, specs)
    ensures ParseLines(c, RenderAll(c, RecordsFor(c, next, specs)), next) == Ok(RecordsFor(c, next, specs))
    ensures Terminated(RenderAll(c, RecordsFor(c, next, specs)))
    decreases |specs|
  {
    if specs != [] {
      RenderedParses(c, next + 1, specs[1..]);
      var record := RecordFor(c, next, specs[0]);
      var rest := RecordsFor(c, next + 1, specs[1..]);
      assert RecordsFor(c, next, specs) == [record] + rest;
      assert ([record] + rest)[1..] == rest;
      hide RecordsFor, ParseLines;
      OneLineParses(c, next, record, RenderAll(c, rest), rest);
    }
  }

  /** One canonical line in front of lines that parse. */
  lemma {:induction false} OneLineParses(c: Codec, next: nat, record: Record, data: seq<Byte>, rest: seq<Record>)
    requires NEWLINE !in c.render(record) && c.parse(c.render(record), next) == Some(record)
    requires ParseLines(c, data, next + 1) == Ok(rest) && Terminated(data)
    ensures ParseLines(c, c.render(record) + [NEWLINE] + data, next) == Ok([record] + rest)
    ensures Terminated(c.render(record) + [NEWLINE] + data)
  {
    var line := c.render(record);
    var whole := line + [NEWLINE] + data;
    LineIsFirst(line, data);
    assert whole[..|line|] == line && whole[|line| + 1..] == data;
  }

  lemma {:induction false} LineIsFirst(line: seq<Byte>, rest: seq<Byte>)
    requires NEWLINE !in line
    ensures FirstNewline(line + [NEWLINE] + rest) == |line|
    decreases |line|
  {
    var data := line + [NEWLINE] + rest;
    if line != [] {
      assert data[0] == line[0] && data[1..] == line[1..] + [NEWLINE] + rest;
      LineIsFirst(line[1..], rest);
    }
  }

  lemma {:induction false} SequencesFollow(c: Codec, next: nat, specs: seq<Spec>, i: nat)
    requires i < |specs|
    ensures RecordsFor(c, next, specs)[i] == RecordFor(c, next + i, specs[i])
    decreases |specs|
  {
    if i > 0 { SequencesFollow(c, next + 1, specs[1..], i - 1); }
  }

  /** What was appended is read back, after everything that was there, and the anchor covers it. */
  lemma AppendThenRead(c: Codec, disk: Disk, specs: seq<Spec>)
    requires Canonical(c) && AllAllowed(c, specs) && specs != [] && Read(c, disk).Ok?
    ensures var before := Read(c, disk).value;
            var added := RecordsFor(c, |before| + 1, specs);
            Read(c, Appended(c, disk, added)) == Ok(before + added)
  {
    var before := Read(c, disk).value;
    var added := RecordsFor(c, |before| + 1, specs);
    RenderedParses(c, |before| + 1, specs);
    SequencesFollow(c, |before| + 1, specs, |specs| - 1);
    VerifyMore(c, disk.data, RenderAll(c, added));
    AnchoredLast(before, added);
    hide ParseLines, RenderAll, RecordsFor, FullVerify;
  }

  /** A verified file followed by terminated lines verifies to both lots of records. */
  lemma VerifyMore(c: Codec, data: seq<Byte>, more: seq<Byte>)
    requires FullVerify(c, data).Ok? && Terminated(more)
    ensures FullVerify(c, data + more)
         == Join(FullVerify(c, data), ParseLines(c, more, |FullVerify(c, data).value| + 1))
  {
    assert Terminated(data + more);
    ParseSplit(c, data, more, 1);
    hide ParseLines;
  }

  lemma AnchoredLast(before: seq<Record>, added: seq<Record>)
    requires added != [] && added[|added| - 1].sequence == |before| + |added|
    ensures CheckAnchor(before + added, Some(Anchor(added[|added| - 1].sequence, added[|added| - 1].id))).None?
  {
    assert (before + added)[|before| + |added| - 1] == added[|added| - 1];
  }

  // -- what a truncated or torn file reads as, exactly

  function LineCount(data: seq<Byte>): nat {
    if data == [] then 0 else LineCount(data[..|data| - 1]) + if data[|data| - 1] == NEWLINE then 1 else 0
  }

  lemma {:induction false} CountFirstLine(data: seq<Byte>, k: nat)
    requires k < |data| && data[k] == NEWLINE && NEWLINE !in data[..k]
    ensures LineCount(data) == 1 + LineCount(data[k + 1..])
  {
    assert data == data[..k + 1] + data[k + 1..];
    assert data[..k + 1][..k] == data[..k];
    CountSplit(data[..k + 1], data[k + 1..]);
    NoNewlineNoLine(data[..k]);
  }

  /** A verified file holds one record per terminated line. */
  lemma {:induction false} ParsedCount(c: Codec, data: seq<Byte>, start: nat)
    requires ParseLines(c, data, start).Ok?
    ensures |ParseLines(c, data, start).value| == LineCount(data)
    decreases |data|
  {
    var k := FirstNewline(data);
    if k == |data| {
      NoNewlineNoLine(data);
    } else {
      ParseOne(c, data, start, k);
      hide ParseLines, LineCount, FirstNewline;
      CountFirstLine(data, k);
      ParsedCount(c, data[k + 1..], start + 1);
    }
  }

  lemma NoNewlineNoLine(data: seq<Byte>)
    requires NEWLINE !in data
    ensures LineCount(data) == 0
  {
  }

  lemma {:induction false} CountSplit(a: seq<Byte>, b: seq<Byte>)
    ensures LineCount(a + b) == LineCount(a) + LineCount(b)
    decreases |b|
  {
    if b == [] {
      assert a + b == a;
    } else {
      assert (a + b)[..|a + b| - 1] == a + b[..|b| - 1];
      CountSplit(a, b[..|b| - 1]);
    }
  }

  /** A prefix of a verified file that ends with a whole line verifies to the records of its lines. */
  lemma PrefixVerifies(c: Codec, data: seq<Byte>, k: nat)
    requires FullVerify(c, data).Ok? && k <= |data|
    ensures Terminated(data[..k]) ==>
              LineCount(data[..k]) <= |FullVerify(c, data).value|
              && FullVerify(c, data[..k]) == Ok(FullVerify(c, data).value[..LineCount(data[..k])])
    ensures !Terminated(data[..k]) ==> FullVerify(c, data[..k]) == Err(Truncated)
  {
    if Terminated(data[..k]) {
      assert data == data[..k] + data[k..];
      ParseSplit(c, data[..k], data[k..], 1);
      ParsedCount(c, data[..k], 1);
    }
    hide ParseLines;
  }

  /** Rolling an anchored journal back: accepted exactly when whole lines down to the anchor remain. */
  lemma RollbackExactly(c: Codec, disk: Disk, k: nat)
    requires Read(c, disk).Ok? && disk.anchor.Some? && k <= |disk.data|
    ensures Read(c, disk.(data := disk.data[..k])).Ok?
       <==> Terminated(disk.data[..k]) && LineCount(disk.data[..k]) >= disk.anchor.value.records
    ensures Read(c, disk.(data := disk.data[..k])).Ok?
        ==> LineCount(disk.data[..k]) <= |Read(c, disk).value|
            && Read(c, disk.(data := disk.data[..k])).value == Read(c, disk).value[..LineCount(disk.data[..k])]
  {
    PrefixVerifies(c, disk.data, k);
    hide FullVerify, LineCount;
  }

  /** A crash while appending, before the anchor moved: the next read succeeds exactly when the torn write
      ended with a whole line and the journal was anchored before, or when nothing was written. */
  lemma TornAppendExactly(c: Codec, disk: Disk, specs: seq<Spec>, k: nat)
    requires Canonical(c) && AllAllowed(c, specs) && Read(c, disk).Ok?
    requires k <= |RenderAll(c, RecordsFor(c, |Read(c, disk).value| + 1, specs))|
    ensures var before := Read(c, disk).value;
            var added := RecordsFor(c, |before| + 1, specs);
            var written := RenderAll(c, added)[..k];
            var torn := disk.(data := disk.data + written);
            && (Read(c, torn).Ok? <==> written == [] || (Terminated(written) && disk.anchor.Some?))
            && (Read(c, torn).Ok? ==> LineCount(written) <= |added| && Read(c, torn).value == before + added[..LineCount(written)])
            && (!Terminated(written) ==> Read(c, torn) == Err(Truncated))
            && (written != [] && Terminated(written) && disk.anchor.None? ==> Read(c, torn) == Err(MissingAnchor))
  {
    var before := Read(c, disk).value;
    var added := RecordsFor(c, |before| + 1, specs);
    var whole := RenderAll(c, added);
    var written := whole[..k];
    RenderedParses(c, |before| + 1, specs);
    TornReads(c, disk, whole, k, added);
    hide *;
  }

  lemma TornReads(c: Codec, disk: Disk, whole: seq<Byte>, k: nat, added: seq<Record>)
    requires Read(c, disk).Ok? && Terminated(whole) && k <= |whole|
    requires ParseLines(c, whole, |Read(c, disk).value| + 1) == Ok(added)
    ensures var before := Read(c, disk).value;
            var written := whole[..k];
            var torn := disk.(data := disk.data + written);
            && (Read(c, torn).Ok? <==> written == [] || (Terminated(written) && disk.anchor.Some?))
            && (Read(c, torn).Ok? ==> LineCount(written) <= |added| && Read(c, torn).value == before + added[..LineCount(written)])
            && (!Terminated(written) ==> Read(c, torn) == Err(Truncated))
            && (written != [] && Terminated(written) && disk.anchor.None? ==> Read(c, torn) == Err(MissingAnchor))
  {
    hide FullVerify, LineCount, ParseLines;
    TornVerify(c, disk.data, whole, k);
    assert disk.data + [] == disk.data;
    if Terminated(whole[..k]) { WholeLineCounted(whole[..k]); }
  }

  lemma WholeLineCounted(data: seq<Byte>)
    requires Terminated(data)
    ensures if data == [] then LineCount(data) == 0 else LineCount(data) > 0
  {
  }

  lemma TornVerify(c: Codec, data: seq<Byte>, whole: seq<Byte>, k: nat)
    requires FullVerify(c, data).Ok? && Terminated(whole) && k <= |whole|
    requires ParseLines(c, whole, |FullVerify(c, data).value| + 1).Ok?
    ensures var before := FullVerify(c, data).value;
            var added := ParseLines(c, whole, |before| + 1).value;
            var torn := FullVerify(c, data + whole[..k]);
            if Terminated(whole[..k]) then LineCount(whole[..k]) <= |added| && torn == Ok(before + added[..LineCount(whole[..k])])
            else torn == Err(Truncated)
  {
    var start := |FullVerify(c, data).value| + 1;
    if Terminated(whole[..k]) {
      VerifyMore(c, data, whole[..k]);
      assert whole == whole[..k] + whole[k..];
      ParseSplit(c, whole[..k], whole[k..], start);
      ParsedCount(c, whole[..k], start);
    }
    hide ParseLines, LineCount;
  }

  // -- the journal object

  /** The two files on disk; several journal objects, in several processes, may share them. */
  class Files {
    var data: seq<Byte>
    var anchor: Option<Anchor>

    constructor ()
      ensures OnDisk() == Disk([], None)
    {
      data, anchor := [], None;
    }

    function OnDisk(): Disk
      reads this
    {
      Disk(data, anchor)
    }
  }

  lemma VerifyEnds(c: Codec, data: seq<Byte>)
    ensures data == [] ==> FullVerify(c, data) == Ok([])
    ensures data != [] && data[|data| - 1] != NEWLINE ==> FullVerify(c, data) == Err(Truncated)
  {
  }

  /** Verification may go on where an earlier one ended. */
  lemma VerifyOnwards(c: Codec, seen: seq<Byte>, records: seq<Record>, data: seq<Byte>)
    requires seen <= data && Terminated(data) && FullVerify(c, seen) == Ok(records)
    ensures FullVerify(c, data) == Join(Ok(records), ParseLines(c, data[|seen|..], |records| + 1))
  {
    hide ParseLines;
    ParseSplit(c, seen, data[|seen|..], 1);
    assert seen + data[|seen|..] == data;
  }

  lemma VerifyAfresh(c: Codec, data: seq<Byte>)
    requires Terminated(data)
    ensures FullVerify(c, data) == Join(Ok([]), ParseLines(c, data[0..], 1))
  {
    hide ParseLines;
    JoinNothing(ParseLines(c, data, 1));
    assert data[0..] == data;
  }

  /** The bytes this object verified last, and their records; bytes stand for their digest. */
  datatype Cache = Cache(data: seq<Byte>, records: seq<Record>)

  class JsonlJournal {
    const codec: Codec
    const files: Files
    var cache: Option<Cache>

    /** The cached records are what a full verification of the cached bytes returns. */
    ghost predicate Valid()
      reads this
    {
      cache.Some? ==> cache.value.data != [] && FullVerify(codec, cache.value.data) == Ok(cache.value.records)
    }

    constructor (codec: Codec, files: Files)
      ensures Valid() && this.codec == codec && this.files == files
    {
      this.codec, this.files, cache := codec, files, None;
    }

    /** Line by line from the given number on. */
    method Parse(data: seq<Byte>, start: nat) returns (result: Result<seq<Record>, JournalError>)
      ensures result == ParseLines(codec, data, start)
    {
      hide *;
      var records: seq<Record> := [];
      var rest := data;
      JoinNothing(ParseLines(codec, data, start));
      while FirstNewline(rest) < |rest|
        invariant Join(Ok(records), ParseLines(codec, rest, start + |records|)) == ParseLines(codec, data, start)
        decreases |rest|
      {
        var k := FirstNewline(rest);
        JoinLine(codec, rest, start + |records|, k, records);
        var record := codec.parse(rest[..k], start + |records|);
        if record.None? { return Err(BadLine(start + |records|)); }
        records := records + [record.value];
        rest := rest[k + 1..];
      }
      JoinNoLines(codec, rest, start + |records|, records);
      result := Ok(records);
    }

    /** Only the bytes after a prefix verified before are parsed; the verdict is that of the whole file. */
    method Verify(data: seq<Byte>) returns (result: Result<seq<Record>, JournalError>)
      requires Valid()
      modifies this`cache
      ensures Valid() && result == FullVerify(codec, data)
    {
      hide FullVerify, ParseLines;
      VerifyEnds(codec, data);
      if data == [] {
        cache := None;
        return Ok([]);
      }
      if data[|data| - 1] != NEWLINE { return Err(Truncated); }
      var prefix, offset := [], 0;
      if cache.Some? && |data| >= |cache.value.data| && data[..|cache.value.data|] == cache.value.data {
        prefix, offset := cache.value.records, |cache.value.data|;
        VerifyOnwards(codec, cache.value.data, prefix, data);
      } else {
        VerifyAfresh(codec, data);
      }
      var suffix := Parse(data[offset..], |prefix| + 1);
      if suffix.Err? { return suffix; }
      cache := Some(Cache(data, prefix + suffix.value));
      result := Ok(prefix + suffix.value);
    }

    method VerifiedRead() returns (result: Result<seq<Record>, JournalError>)
      requires Valid()
      modifies this`cache
      ensures Valid() && result == Read(codec, files.OnDisk())
    {
      hide FullVerify;
      var verified := Verify(files.data);
      if verified.Err? { return verified; }
      var loss := CheckAnchor(verified.value, files.anchor);
      if loss.Some? { return Err(loss.value); }
      result := verified;
    }

    /** Verify, decide on every verified record, write the lines, then move the anchor: all under one lock. */
    method AppendVia(builder: seq<Record> -> Option<seq<Spec>>) returns (result: Result<seq<Record>, JournalError>)
      requires Valid()
      modifies this`cache, files
      ensures Valid()
      ensures var disk := old(files.OnDisk());
              var before := Read(codec, disk);
              if before.Err? then result == before && files.OnDisk() == disk
              else if builder(before.value).None? then result == Err(Refused) && files.OnDisk() == disk
              else
                var specs := builder(before.value).value;
                if specs == [] then result == Ok([]) && files.OnDisk() == disk
                else if !AllAllowed(codec, specs) then result == Err(NotAllowed) && files.OnDisk() == disk
                else
                  var added := RecordsFor(codec, |before.value| + 1, specs);
                  result == Ok(added) && files.OnDisk() == Appended(codec, disk, added)
    {
      hide FullVerify, CheckAnchor, ParseLines, Read;
      var before := VerifiedRead();
      if before.Err? { return before; }
      var built := builder(before.value);
      if built.None? { return Err(Refused); }
      var specs := built.value;
      if specs == [] { return Ok([]); }
      var rendered := RenderNew(|before.value| + 1, specs);
      if rendered.None? { return Err(NotAllowed); }
      var added := rendered.value.0;
      files.data := files.data + rendered.value.1;
      files.anchor := Some(Anchor(added[|added| - 1].sequence, added[|added| - 1].id));
      result := Ok(added);
    }

    /** The new records and their lines, unless one of them is outside the journal's vocabulary. */
    method RenderNew(next: nat, specs: seq<Spec>) returns (rendered: Option<(seq<Record>, seq<Byte>)>)
      ensures rendered == if AllAllowed(codec, specs)
                          then Some((RecordsFor(codec, next, specs), RenderAll(codec, RecordsFor(codec, next, specs))))
                          else None
    {
      var records: seq<Record>, lines: seq<Byte> := [], [];
      NothingRendered(codec, next, specs);
      hide *;
      for i := 0 to |specs|
        invariant |records| == i && forall j :: 0 <= j < i ==> codec.allowed(specs[j])
        invariant Rendered(codec, next, specs, i, records, lines)
      {
        if !codec.allowed(specs[i]) {
          NotAllAllowed(codec, specs, i);
          return None;
        }
        var record := RecordFor(codec, next + i, specs[i]);
        OneMoreRendered(codec, next, specs, i, records, lines);
        records := records + [record];
        lines := lines + (codec.render(record) + [NEWLINE]);
      }
      AllRendered(codec, next, specs, records, lines);
      rendered := Some((records, lines));
    }
  }

  /** What is rendered so far, followed by the rendering of the rest, is the whole rendering. */
  ghost predicate Rendered(c: Codec, next: nat, specs: seq<Spec>, i: nat, records: seq<Record>, lines: seq<Byte>)
    requires i <= |specs|
  {
    && records + RecordsFor(c, next + i, specs[i..]) == RecordsFor(c, next, specs)
    && lines + RenderAll(c, RecordsFor(c, next + i, specs[i..])) == RenderAll(c, RecordsFor(c, next, specs))
  }

  lemma NothingRendered(c: Codec, next: nat, specs: seq<Spec>)
    ensures Rendered(c, next, specs, 0, [], [])
  {
    assert specs[0..] == specs;
    hide RecordsFor, RenderAll;
  }

  lemma {:induction false} OneMoreRendered(c: Codec, next: nat, specs: seq<Spec>, i: nat, records: seq<Record>, lines: seq<Byte>)
    requires i < |specs| && Rendered(c, next, specs, i, records, lines)
    ensures var record := RecordFor(c, next + i, specs[i]);
            Rendered(c, next, specs, i + 1, records + [record], lines + (c.render(record) + [NEWLINE]))
  {
    hide RecordsFor, RenderAll;
    var record := RecordFor(c, next + i, specs[i]);
    var rest := RecordsFor(c, next + i + 1, specs[i + 1..]);
    RenderUnfolds(c, next + i, specs, i);
    Reassociate(records, [record], rest);
    Reassociate(lines, c.render(record) + [NEWLINE], RenderAll(c, rest));
  }

  lemma {:induction false} AllRendered(c: Codec, next: nat, specs: seq<Spec>, records: seq<Record>, lines: seq<Byte>)
    requires Rendered(c, next, specs, |specs|, records, lines) && forall j :: 0 <= j < |specs| ==> c.allowed(specs[j])
    ensures AllAllowed(c, specs) && records == RecordsFor(c, next, specs) && lines == RenderAll(c, records)
  {
    NothingToRender(c, next + |specs|);
    assert specs[|specs|..] == [] && records + [] == records && lines + [] == lines;
    hide RecordsFor, RenderAll;
  }

  lemma NotAllAllowed(c: Codec, specs: seq<Spec>, i: nat)
    requires i < |specs| && !c.allowed(specs[i])
    ensures !AllAllowed(c, specs)
  {
  }

  lemma RenderUnfolds(c: Codec, next: nat, specs: seq<Spec>, i: nat)
    requires i < |specs|
    ensures RecordsFor(c, next, specs[i..]) == [RecordFor(c, next, specs[i])] + RecordsFor(c, next + 1, specs[i + 1..])
    ensures RenderAll(c, RecordsFor(c, next, specs[i..]))
         == c.render(RecordFor(c, next, specs[i])) + [NEWLINE] + RenderAll(c, RecordsFor(c, next + 1, specs[i + 1..]))
  {
    assert specs[i..][1..] == specs[i + 1..];
    assert RecordsFor(c, next, specs[i..])[1..] == RecordsFor(c, next + 1, specs[i + 1..]);
  }

  lemma Reassociate<T>(a: seq<T>, b: seq<T>, c: seq<T>)
    ensures a + (b + c) == (a + b) + c
  {
  }

  lemma NothingToRender(c: Codec, next: nat)
    ensures RecordsFor(c, next, []) == [] && RenderAll(c, []) == []
  {
  }

  lemma NoLines(c: Codec, data: seq<Byte>, start: nat)
    requires FirstNewline(data) == |data|
    ensures ParseLines(c, data, start) == Ok([])
  {
  }

  /** One more line of a parse under way: its record joins those before it, or its error is the verdict. */
  lemma {:induction false} JoinLine(c: Codec, rest: seq<Byte>, number: nat, k: nat, records: seq<Record>)
    requires k == FirstNewline(rest) < |rest|
    ensures var record := c.parse(rest[..k], number);
            Join(Ok(records), ParseLines(c, rest, number)) ==
              if record.None? then Err(BadLine(number))
              else Join(Ok(records + [record.value]), ParseLines(c, rest[k + 1..], number + 1))
  {
    ParseOne(c, rest, number, k);
    var record := c.parse(rest[..k], number);
    if record.Some? { JoinAssociates(records, record.value, ParseLines(c, rest[k + 1..], number + 1)); }
    hide ParseLines, FirstNewline;
  }

  lemma JoinNoLines(c: Codec, rest: seq<Byte>, number: nat, records: seq<Record>)
    requires FirstNewline(rest) >= |rest|
    ensures Join(Ok(records), ParseLines(c, rest, number)) == Ok(records)
  {
    NoLines(c, rest, number);
    assert records + [] == records;
  }

  lemma JoinAssociates(records: seq<Record>, record: Record, rest: Result<seq<Record>, JournalError>)
    ensures Join(Ok(records), Join(Ok([record]), rest)) == Join(Ok(records + [record]), rest)
  {
    if rest.Ok? { assert records + ([record] + rest.value) == (records + [record]) + rest.value; }
  }
}
