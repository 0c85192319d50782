/** The evaluation journal file: incremental verification of what is new, and idempotent appends. */
module AgentJournals {
  import opened Common
  import opened AgentEvaluations

  /** A line that decodes canonically, or one that does not. */
  datatype Line = Sound(record: EvaluationRecord) | Corrupt

  datatype FileError = BadLine | IdentityChanged | SequenceBroken | FileShrank | TailChanged | Refused(error: JournalError)

  /** May this line follow that record? */
  function LineError(previous: Option<EvaluationRecord>, line: Line): Option<FileError> {
    if line.Corrupt? then Some(BadLine)
    else if previous.Some? && line.record.identity != previous.value.identity then Some(IdentityChanged)
    else if previous.Some? && line.record.sequence != previous.value.sequence + 1 then Some(SequenceBroken)
    else None
  }

  function Last(records: seq<EvaluationRecord>): Option<EvaluationRecord> {
    if records == [] then None else Some(records[|records| - 1])
  }

  /** Verification of a whole file, line by line. */
  function VerifyAll(lines: seq<Line>): Result<seq<EvaluationRecord>, FileError> {
    if lines == [] then Ok([])
    else
      var front := VerifyAll(lines[..|lines| - 1]);
      if front.Err? then front
      else
        var error := LineError(Last(front.value), lines[|lines| - 1]);
        if error.Some? then Err(error.value) else Ok(front.value + [lines[|lines| - 1].record])
  }

  lemma {:induction false} PrefixVerifies(lines: seq<Line>, k: nat)
    requires k <= |lines| && VerifyAll(lines).Ok?
    ensures VerifyAll(lines[..k]).Ok? && |VerifyAll(lines).value| == |lines| && VerifyAll(lines[..k]).value == VerifyAll(lines).value[..k]
    decreases |lines|
  {
    if lines == [] {
      assert lines[..k] == [];
    } else {
      PrefixVerifies(lines[..|lines| - 1], if k < |lines| then k else |lines| - 1);
      if k < |lines| { assert lines[..|lines| - 1][..k] == lines[..k]; } else { assert lines[..k] == lines; }
    }
  }

  lemma VerifySnoc(lines: seq<Line>, line: Line)
    ensures VerifyAll(lines + [line])
         == if VerifyAll(lines).Err? then VerifyAll(lines)
            else if LineError(Last(VerifyAll(lines).value), line).Some? then Err(LineError(Last(VerifyAll(lines).value), line).value)
            else Ok(VerifyAll(lines).value + [line.record])
  {
    assert (lines + [line])[..|lines|] == lines;
  }

  /** The first bad line decides, however far verification goes. */
  lemma {:induction false} ErrorStays(lines: seq<Line>, k: nat)
    requires k <= |lines| && VerifyAll(lines[..k]).Err?
    ensures VerifyAll(lines) == VerifyAll(lines[..k])
    decreases |lines| - k
  {
    if k < |lines| {
      assert lines[..k + 1] == lines[..k] + [lines[k]];
      VerifySnoc(lines[..k], lines[k]);
      ErrorStays(lines, k + 1);
    } else {
      assert lines[..k] == lines;
    }
  }

  /** Sequence numbers and evaluation ids of verified records. */
  function Index(records: seq<EvaluationRecord>): map<nat, string> {
    if records == [] then map[]
    else Index(records[..|records| - 1])[records[|records| - 1].sequence := records[|records| - 1].evaluationId]
  }

  lemma {:induction false} IndexMeaning(records: seq<EvaluationRecord>, s: nat)
    ensures s in Index(records) <==> StoredFor(records, s).Some?
    ensures s in Index(records) ==> Index(records)[s] == StoredFor(records, s).value.evaluationId
  {
    if records != [] { IndexMeaning(records[..|records| - 1], s); }
  }

  /** What a cache holds once these lines are verified. */
  ghost predicate CacheOf(lines: seq<Line>, last: Option<EvaluationRecord>, sequences: map<nat, string>) {
    VerifyAll(lines).Ok? && last == Last(VerifyAll(lines).value) && sequences == Index(VerifyAll(lines).value)
  }

  /** One more line: it enters the cache, or its error is the verdict. */
  lemma {:induction false} CacheGrows(lines: seq<Line>, last: Option<EvaluationRecord>, sequences: map<nat, string>, line: Line)
    requires CacheOf(lines, last, sequences)
    ensures var error := LineError(last, line);
            if error.Some? then VerifyAll(lines + [line]) == Err(error.value)
            else CacheOf(lines + [line], Some(line.record), sequences[line.record.sequence := line.record.evaluationId])
  {
    VerifySnoc(lines, line);
    if LineError(last, line).None? { Extended(VerifyAll(lines).value, line.record); }
    hide VerifyAll, Index, Last;
  }

  lemma SoundLine(previous: Option<EvaluationRecord>, line: Line)
    requires LineError(previous, line).None?
    ensures line.Sound?
  {
  }

  lemma CacheVerifies(lines: seq<Line>, last: Option<EvaluationRecord>, sequences: map<nat, string>)
    requires CacheOf(lines, last, sequences)
    ensures VerifyAll(lines).Ok?
  {
  }

  /** What a file shows an instance that has verified these lines before: nothing below them is read again. */
  function Seen(adopted: seq<Line>, lines: seq<Line>): seq<Line>
    requires |adopted| <= |lines|
  {
    adopted + lines[|adopted|..]
  }

  /** The verified part must still be there, as far as its length and its last line tell. */
  function TailError(adopted: seq<Line>, lines: seq<Line>): (error: Option<FileError>)
    ensures error.None? ==> |adopted| <= |lines|
  {
    if |lines| < |adopted| then Some(FileShrank)
    else if adopted != [] && lines[|adopted| - 1] != adopted[|adopted| - 1] then Some(TailChanged)
    else None
  }

  /** The checks the file itself allows decide the same. */
  lemma TailChecks(adopted: seq<Line>, tail: Option<Line>, lines: seq<Line>)
    requires tail == if adopted == [] then None else Some(adopted[|adopted| - 1])
    ensures TailError(adopted, lines)
         == if |lines| < |adopted| then Some(FileShrank)
            else if |adopted| > 0 && Some(lines[|adopted| - 1]) != tail then Some(TailChanged) else None
  {
  }

  lemma SeenIs(adopted: seq<Line>, lines: seq<Line>)
    requires TailError(adopted, lines).None?
    ensures Seen(adopted, lines) == adopted + lines[|adopted|..] && |Seen(adopted, lines)| == |lines|
    ensures lines != [] ==> Seen(adopted, lines) != [] && Seen(adopted, lines)[|lines| - 1] == lines[|lines| - 1]
  {
  }

  /** On a file that was only appended to, what an instance has seen is the whole file. */
  lemma AppendedIsSeen(adopted: seq<Line>, lines: seq<Line>)
    requires adopted <= lines
    ensures TailError(adopted, lines).None? && Seen(adopted, lines) == lines
  {
    assert lines == adopted + lines[|adopted|..];
  }

  /** And only there: an unnoticed difference lies strictly below the last verified line. */
  lemma SeenExactly(adopted: seq<Line>, lines: seq<Line>)
    requires TailError(adopted, lines).None?
    ensures Seen(adopted, lines) == lines <==> adopted <= lines
    ensures adopted <= lines <==> forall i :: 0 <= i < |adopted| - 1 ==> adopted[i] == lines[i]
  {
    assert forall i :: 0 <= i < |adopted| ==> Seen(adopted, lines)[i] == adopted[i];
    if adopted <= lines { AppendedIsSeen(adopted, lines); }
  }

  lemma VerifyNothing()
    ensures VerifyAll([]) == Ok([]) && CacheOf([], None, map[])
  {
  }

  class JournalFile {
    var lines: seq<Line>

    constructor ()
      ensures lines == []
    {
      lines := [];
    }
  }

  class EvaluationJournal {
    const file: JournalFile
    var verified: nat
    var tail: Option<Line>
    var last: Option<EvaluationRecord>
    var sequences: map<nat, string>
    ghost var adopted: seq<Line>

    /** The cache describes the lines this instance verified. */
    ghost predicate Valid()
      reads this
    {
      && CacheOf(adopted, last, sequences) && verified == |adopted|
      && tail == (if adopted == [] then None else Some(adopted[|adopted| - 1]))
    }

    constructor (file: JournalFile)
      ensures Valid() && this.file == file && adopted == []
    {
      this.file, verified, tail, last, sequences, adopted := file, 0, None, None, map[], [];
    }

    /** Verify only the lines beyond the verified ones: the verdict is that of what the instance has seen, or that the tail is gone. */
    method VerifySuffix() returns (error: Option<FileError>)
      requires Valid()
      modifies this`verified, this`tail, this`last, this`sequences, this`adopted
      ensures Valid()
      ensures error.Some? ==> adopted == old(adopted)
      ensures TailError(old(adopted), file.lines).Some? ==> error == TailError(old(adopted), file.lines)
      ensures TailError(old(adopted), file.lines).None? ==>
                var seen := Seen(old(adopted), file.lines);
                (error.None? ==> VerifyAll(seen).Ok? && adopted == seen)
                && (error.Some? ==> VerifyAll(seen) == Err(error.value))
    {
      hide CacheOf, VerifyAll, TailError, Seen;
      TailChecks(adopted, tail, file.lines);
      if |file.lines| < verified { return Some(FileShrank); }
      if verified > 0 && Some(file.lines[verified - 1]) != tail { return Some(TailChanged); }
      SeenIs(adopted, file.lines);
      var bad, previous, index := VerifyMore(file.lines[verified..], last, sequences, adopted);
      if bad.Some? { return bad; }
      if |file.lines| > verified { tail := Some(file.lines[|file.lines| - 1]); }
      verified, last, sequences, adopted := |file.lines|, previous, index, Seen(adopted, file.lines);
      CacheVerifies(adopted, last, sequences);
      error := None;
    }

    /** More lines, each checked against the one before. */
    static method VerifyMore(lines: seq<Line>, last: Option<EvaluationRecord>, sequences: map<nat, string>, ghost start: seq<Line>)
      returns (error: Option<FileError>, previous: Option<EvaluationRecord>, index: map<nat, string>)
      requires CacheOf(start, last, sequences)
      ensures error.None? ==> CacheOf(start + lines, previous, index)
      ensures error.Some? ==> VerifyAll(start + lines) == Err(error.value)
    {
      hide *;
      previous, index := last, sequences;
      assert start + lines[..0] == start;
      for i := 0 to |lines|
        invariant CacheOf(start + lines[..i], previous, index)
      {
        ghost var seen := start + lines[..i];
        CacheGrows(seen, previous, index, lines[i]);
        assert seen + [lines[i]] == start + lines[..i + 1];
        error := LineError(previous, lines[i]);
        if error.Some? {
          assert (start + lines)[..|seen| + 1] == seen + [lines[i]];
          ErrorStays(start + lines, |seen| + 1);
          return;
        }
        SoundLine(previous, lines[i]);
        previous, index := Some(lines[i].record), index[lines[i].record.sequence := lines[i].record.evaluationId];
      }
      assert lines[..|lines|] == lines;
      error := None;
    }

    /** Verify the whole file, never incrementally, and adopt it. */
    method Read() returns (records: Result<seq<EvaluationRecord>, FileError>)
      requires Valid()
      modifies this`verified, this`tail, this`last, this`sequences, this`adopted
      ensures Valid()
      ensures records == VerifyAll(file.lines)
      ensures adopted == if records.Ok? then file.lines else old(adopted)
    {
      hide VerifyAll, Index;
      VerifyNothing();
      var read: seq<EvaluationRecord>, previous: Option<EvaluationRecord>, index: map<nat, string> := [], None, map[];
      for i := 0 to |file.lines|
        invariant VerifyAll(file.lines[..i]) == Ok(read) && CacheOf(file.lines[..i], previous, index)
        invariant Valid() && adopted == old(adopted)
      {
        assert file.lines[..i] + [file.lines[i]] == file.lines[..i + 1];
        VerifySnoc(file.lines[..i], file.lines[i]);
        CacheGrows(file.lines[..i], previous, index, file.lines[i]);
        var error := LineError(previous, file.lines[i]);
        if error.Some? {
          ErrorStays(file.lines, i + 1);
          return Err(error.value);
        }
        read, previous := read + [file.lines[i].record], Some(file.lines[i].record);
        index := index[file.lines[i].record.sequence := file.lines[i].record.evaluationId];
      }
      assert file.lines[..|file.lines|] == file.lines;
      tail := if file.lines == [] then None else Some(file.lines[|file.lines| - 1]);
      verified, last, sequences, adopted := |file.lines|, previous, index, file.lines;
      records := Ok(read);
    }

    /** Append once, as the lines seen so far allow; a shorter file or another tail is refused untouched. */
    method Append(record: EvaluationRecord) returns (error: Option<FileError>)
      requires Valid()
      modifies file, this`verified, this`tail, this`last, this`sequences, this`adopted
      ensures Valid()
      ensures TailError(old(adopted), old(file.lines)).Some? ==>
                error == TailError(old(adopted), old(file.lines)) && file.lines == old(file.lines) && adopted == old(adopted)
      ensures TailError(old(adopted), old(file.lines)).None? ==>
                var seen := Seen(old(adopted), old(file.lines));
                var before := VerifyAll(seen);
                if before.Err? then error == Some(before.error) && file.lines == old(file.lines) && adopted == old(adopted)
                else
                  var after := JournalAppend(before.value, record);
                  if after.Err? then error == Some(Refused(after.error)) && file.lines == old(file.lines) && adopted == seen
                  else
                    && error.None? && VerifyAll(adopted) == Ok(after.value)
                    && if after.value == before.value then file.lines == old(file.lines) && adopted == seen
                       else file.lines == old(file.lines) + [Sound(record)] && adopted == seen + [Sound(record)]
    {
      hide VerifyAll, Index, StoredFor;
      error := VerifySuffix();
      if error.Some? { return; }
      ghost var records := VerifyAll(adopted).value;
      IndexMeaning(records, record.sequence);
      if record.sequence in sequences {
        if sequences[record.sequence] == record.evaluationId { return None; }
        return Some(Refused(DifferentContent));
      }
      if last.Some? && record.identity != last.value.identity { return Some(Refused(IdentityMismatch)); }
      if last.Some? && record.sequence != last.value.sequence + 1 { return Some(Refused(NotContiguous)); }
      AppendsSound(adopted, record);
      file.lines := file.lines + [Sound(record)];
      verified, tail, last := verified + 1, Some(Sound(record)), Some(record);
      sequences, adopted := sequences[record.sequence := record.evaluationId], adopted + [Sound(record)];
    }
  }

  /** A record that may follow the last one verifies with the file it is appended to. */
  lemma AppendsSound(lines: seq<Line>, record: EvaluationRecord)
    requires VerifyAll(lines).Ok? && LineError(Last(VerifyAll(lines).value), Sound(record)).None?
    ensures VerifyAll(lines + [Sound(record)]) == Ok(VerifyAll(lines).value + [record])
    ensures Last(VerifyAll(lines).value + [record]) == Some(record)
    ensures Index(VerifyAll(lines).value + [record]) == Index(VerifyAll(lines).value)[record.sequence := record.evaluationId]
  {
    VerifySnoc(lines, Sound(record));
    Extended(VerifyAll(lines).value, record);
    hide VerifyAll, Index;
  }

  lemma Extended(records: seq<EvaluationRecord>, r: EvaluationRecord)
    ensures Last(records + [r]) == Some(r)
    ensures Index(records + [r]) == Index(records)[r.sequence := r.evaluationId]
  {
    assert (records + [r])[..|records|] == records;
  }
}
