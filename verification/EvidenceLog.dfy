/** The evidence ledger: an append-only log of facts with unique ids, for one execution. */
module EvidenceLog {
  import opened Wrappers
  import opened CanonicalJson
  import opened Framing
  import opened TraceLog
  import JsonReader

  /** `rawValue` and `normalizedValue` are None when the value held is not strict JSON. */
  datatype EvidenceAtom = EvidenceAtom(
    evidenceId: string,
    executionId: string,
    fields: seq<Member>,
    rawValue: Option<Json>,
    normalizedValue: Option<Json>)

  /** The JSON validator, the JSON encoder and the sensitive-content scan, as arbitrary functions, but no
      encoder writes an LF. */
  datatype EvidenceCodec =
    EvidenceCodec(parse: Bytes -> Option<EvidenceAtom>, encode: Encoder, sensitive: Bytes -> bool)

  predicate Detachable(atom: EvidenceAtom) {
    atom.rawValue.Some? && atom.normalizedValue.Some?
  }

  function AtomValue(atom: EvidenceAtom): Json
    requires Detachable(atom)
  {
    Obj([Member("evidence_id", Str(atom.evidenceId)),
         Member("execution_id", Str(atom.executionId)),
         Member("raw_value", atom.rawValue.value),
         Member("normalized_value", atom.normalizedValue.value)] + atom.fields)
  }

  /** `encode_evidence_line` */
  function Record(codec: EvidenceCodec, atom: EvidenceAtom): Bytes
    requires Detachable(atom)
  {
    codec.encode(AtomValue(atom)) + [LF]
  }

  lemma RecordIsFramed(codec: EvidenceCodec, atom: EvidenceAtom)
    requires Detachable(atom)
    ensures IsLine(Record(codec, atom))
  {
    assert Record(codec, atom)[..|Record(codec, atom)| - 1] == codec.encode(AtomValue(atom));
  }

  /** A record on disk is a JSON object with the ids, the two values and the other fields of its atom. */
  lemma RecordSays(codec: EvidenceCodec, atom: EvidenceAtom)
    requires JsonReader.Legible(codec.encode) && Detachable(atom) && DistinctKeys(AtomValue(atom).members)
    ensures var record := Record(codec, atom);
            var j := JsonReader.ReadBytes(record[..|record| - 1]);
            && j.Some?
            && JsonReader.Field(j.value, "evidence_id") == Some(Str(atom.evidenceId))
            && JsonReader.Field(j.value, "execution_id") == Some(Str(atom.executionId))
            && JsonReader.Field(j.value, "raw_value") == Some(JsonReader.Normal(atom.rawValue.value))
            && JsonReader.Field(j.value, "normalized_value") == Some(JsonReader.Normal(atom.normalizedValue.value))
            && forall m <- atom.fields :: JsonReader.Field(j.value, m.key) == Some(JsonReader.Normal(m.value))
  {
    hide JsonReader.ReadBytes, JsonReader.Normal, JsonReader.Field;
    var record, members := Record(codec, atom), AtomValue(atom).members;
    assert record[..|record| - 1] == codec.encode(AtomValue(atom));
    JsonReader.NormalField(members, 0);
    JsonReader.NormalField(members, 1);
    JsonReader.NormalField(members, 2);
    JsonReader.NormalField(members, 3);
    NormalStrings(atom.evidenceId);
    NormalStrings(atom.executionId);
    OtherFields(atom);
  }

  lemma OtherFields(atom: EvidenceAtom)
    requires Detachable(atom) && DistinctKeys(AtomValue(atom).members)
    ensures forall m <- atom.fields ::
              JsonReader.Field(JsonReader.Normal(AtomValue(atom)), m.key) == Some(JsonReader.Normal(m.value))
  {
    hide JsonReader.Normal, JsonReader.Field, DistinctKeys;
    var members := AtomValue(atom).members;
    forall m <- atom.fields
      ensures JsonReader.Field(JsonReader.Normal(AtomValue(atom)), m.key) == Some(JsonReader.Normal(m.value))
    {
      var k :| 0 <= k < |atom.fields| && atom.fields[k] == m;
      assert members[4 + k] == m;
      JsonReader.NormalField(members, 4 + k);
    }
  }

  lemma NormalStrings(s: string)
    ensures JsonReader.Normal(Str(s)) == Str(s)
  {
  }

  function IdsOf(codec: EvidenceCodec, lines: seq<Bytes>): set<string> {
    set line | line in lines && codec.parse(line).Some? :: codec.parse(line).value.evidenceId
  }

  predicate GoodAtom(codec: EvidenceCodec, executionId: string, earlier: set<string>, line: Bytes) {
    && !codec.sensitive(line) && codec.parse(line).Some?
    && var atom := codec.parse(line).value;
       Detachable(atom) && atom.executionId == executionId && atom.evidenceId !in earlier
  }

  function GoodAtoms(codec: EvidenceCodec, executionId: string): Check {
    (earlier: seq<Bytes>, line: Bytes) => GoodAtom(codec, executionId, IdsOf(codec, earlier), line)
  }

  datatype EvidenceReadResult = EvidenceReadResult(evidence: seq<EvidenceAtom>, warnings: seq<TailWarning>)

  datatype EvidenceCorruption =
    | OversizeRecord | SensitiveRecord | InvalidAtom | ExecutionMismatch | DuplicateId | IncompleteAtom

  datatype EvidenceReadError = BadLimit | CorruptEvidence(why: EvidenceCorruption, line: nat)

  /** Each line is the record of the atom at its place. */
  ghost predicate ParsesAtoms(codec: EvidenceCodec, lines: seq<Bytes>, evidence: seq<EvidenceAtom>) {
    |evidence| == |lines| && forall i :: 0 <= i < |lines| ==> codec.parse(lines[i]) == Some(evidence[i])
  }

  lemma OneMoreAtom(codec: EvidenceCodec, lines: seq<Bytes>, evidence: seq<EvidenceAtom>,
                    chunk: Bytes, atom: EvidenceAtom)
    requires ParsesAtoms(codec, lines, evidence) && codec.parse(chunk) == Some(atom)
    ensures ParsesAtoms(codec, lines + [chunk], evidence + [atom])
    ensures IdsOf(codec, lines + [chunk]) == IdsOf(codec, lines) + {atom.evidenceId}
  {
    assert chunk in lines + [chunk] && forall line <- lines :: line in lines + [chunk];
  }

  /** `result` is what `data` holds: one good atom for each whole line, and one warning for a tail. */
  ghost predicate RecoversEvidence(codec: EvidenceCodec, executionId: string, max: nat, data: Bytes,
                                   lines: seq<Bytes>, tail: Bytes, result: EvidenceReadResult) {
    && ReadsAs(GoodAtoms(codec, executionId), max, data, lines, tail)
    && ParsesAtoms(codec, lines, result.evidence)
    && result.warnings == WarningsOf(|lines|, |tail|)
  }

  /** What is wrong with a complete record of acceptable length. */
  predicate FaultyAtom(codec: EvidenceCodec, executionId: string, earlier: set<string>, line: Bytes,
                       why: EvidenceCorruption) {
    var p := codec.parse(line);
    match why
    case SensitiveRecord => codec.sensitive(line)
    case InvalidAtom => !codec.sensitive(line) && (p == None || !Detachable(p.value))
    case ExecutionMismatch =>
      !codec.sensitive(line) && p.Some? && Detachable(p.value) && p.value.executionId != executionId
    case DuplicateId =>
      !codec.sensitive(line) && p.Some? && Detachable(p.value) && p.value.executionId == executionId
      && p.value.evidenceId in earlier
    case _ => false
  }

  method CheckAtom(codec: EvidenceCodec, executionId: string, ids: set<string>, chunk: Bytes, lineNumber: nat)
    returns (r: Result<EvidenceAtom, EvidenceReadError>)
    ensures r.Ok? <==> GoodAtom(codec, executionId, ids, chunk)
    ensures r.Ok? ==> codec.parse(chunk) == Some(r.value)
    ensures r.Err? ==> r.error.CorruptEvidence? && r.error.line == lineNumber
                       && FaultyAtom(codec, executionId, ids, chunk, r.error.why)
  {
    if codec.sensitive(chunk) { return Err(CorruptEvidence(SensitiveRecord, lineNumber)); }
    var parsed := codec.parse(chunk);
    if parsed == None || !Detachable(parsed.value) { return Err(CorruptEvidence(InvalidAtom, lineNumber)); }
    if parsed.value.executionId != executionId { return Err(CorruptEvidence(ExecutionMismatch, lineNumber)); }
    if parsed.value.evidenceId in ids { return Err(CorruptEvidence(DuplicateId, lineNumber)); }
    return Ok(parsed.value);
  }

  /** The reader stopped at `bad`, or at a line too long, and says which line it was and what is wrong. */
  ghost predicate BlamesAtom(codec: EvidenceCodec, executionId: string, max: nat, data: Bytes,
                             lines: seq<Bytes>, bad: Bytes, error: EvidenceReadError) {
    && CorruptAfter(GoodAtoms(codec, executionId), max, data, lines, bad)
    && error.CorruptEvidence? && error.line == |lines| + 1
    && if bad == [] then error.why == OversizeRecord
       else FaultyAtom(codec, executionId, IdsOf(codec, lines), bad, error.why)
  }

  /** One turn of the reader's loop. It takes the next record as an atom, or stops: at the end, where `chunk`
      is what remains of an unfinished record, or with an error, where `chunk` is the bad record. */
  method NextAtom(codec: EvidenceCodec, executionId: string, file: InputFile, maxEventBytes: nat, ids: set<string>,
                  lineNumber: nat, ghost lines: seq<Bytes>)
    returns (r: Result<Option<EvidenceAtom>, EvidenceReadError>, chunk: Bytes)
    requires file.Valid() && maxEventBytes > 0 && |lines| + 1 == lineNumber && ids == IdsOf(codec, lines)
    requires TakenTo(GoodAtoms(codec, executionId), maxEventBytes, file.data, file.pos, lines)
    modifies file
    ensures file.Valid() && (r.Ok? && r.value.Some? ==> old(file.pos) < file.pos)
    ensures r.Ok? && r.value.Some? ==>
              && codec.parse(chunk) == Some(r.value.value)
              && TakenTo(GoodAtoms(codec, executionId), maxEventBytes, file.data, file.pos, lines + [chunk])
    ensures r.Ok? && r.value == None ==>
              && ReadsAs(GoodAtoms(codec, executionId), maxEventBytes, file.data, lines, chunk)
              && file.pos == |file.data|
    ensures r.Err? ==> BlamesAtom(codec, executionId, maxEventBytes, file.data, lines, chunk, r.error)
  {
    ghost var good, start := GoodAtoms(codec, executionId), file.pos;
    chunk := file.Readline(maxEventBytes + 1);
    assert file.data[start..file.pos] == chunk;
    if |chunk| > maxEventBytes {
      StopAtOversize(good, maxEventBytes, file.data, start, file.pos, lines);
      return Err(CorruptEvidence(OversizeRecord, lineNumber)), [];
    }
    if chunk == [] || chunk[|chunk| - 1] != LF {
      assert file.data[start..] == chunk;
      StopAtTail(good, maxEventBytes, file.data, start, lines);
      return Ok(None), chunk;
    }
    var atom := CheckAtom(codec, executionId, ids, chunk, lineNumber);
    if atom.Err? {
      StopAtBadLine(good, maxEventBytes, file.data, start, file.pos, lines);
      return Err(atom.error), chunk;
    }
    TakeLine(good, maxEventBytes, file.data, start, file.pos, lines);
    return Ok(Some(atom.value)), chunk;
  }

  /** Read a valid prefix, and ignore only an incomplete final line. After an error, `tail` is the bad line. */
  method ReadEvidence(codec: EvidenceCodec, data: Bytes, executionId: string, maxEventBytes: int)
    returns (r: Result<EvidenceReadResult, EvidenceReadError>, ghost lines: seq<Bytes>, ghost tail: Bytes)
    ensures maxEventBytes <= 0 <==> r == Err(BadLimit)
    ensures r.Ok? ==> RecoversEvidence(codec, executionId, maxEventBytes, data, lines, tail, r.value)
    ensures r.Err? && maxEventBytes > 0 ==>
              BlamesAtom(codec, executionId, maxEventBytes, data, lines, tail, r.error)
    ensures r.Err? && r.error.CorruptEvidence? ==> r.error.why != IncompleteAtom
  {
    lines, tail := [], [];
    if maxEventBytes <= 0 { return Err(BadLimit), lines, tail; }
    var evidence: seq<EvidenceAtom>, warnings: seq<TailWarning>, ids: set<string> := [], [], {};
    var file := new InputFile(data);
    var lineNumber := 0;
    while true
      invariant file.Valid() && file.data == data
      invariant TakenTo(GoodAtoms(codec, executionId), maxEventBytes, data, file.pos, lines)
      invariant |lines| == lineNumber && ids == IdsOf(codec, lines) && warnings == []
      invariant ParsesAtoms(codec, lines, evidence)
      decreases |data| - file.pos
    {
      var atom, chunk := NextAtom(codec, executionId, file, maxEventBytes, ids, lineNumber + 1, lines);
      tail := chunk;
      if atom.Err? { return Err(atom.error), lines, tail; }
      if chunk == [] { break; }
      lineNumber := lineNumber + 1;
      if atom.value == None {
        warnings := [TruncatedTail(lineNumber, |chunk|)];
        break;
      }
      OneMoreAtom(codec, lines, evidence, chunk, atom.value.value);
      ids := ids + {atom.value.value.evidenceId};
      evidence, lines := evidence + [atom.value.value], lines + [chunk];
    }
    var atEnd := file.AtEnd();
    r := Err(CorruptEvidence(IncompleteAtom, lineNumber));
    if warnings != [] && !atEnd { return; }
    r := Ok(EvidenceReadResult(evidence, warnings));
  }

  /** Whatever the bytes, accepted evidence has pairwise distinct ids and one execution. */
  lemma AcceptedIsConsistent(codec: EvidenceCodec, executionId: string, max: nat, data: Bytes,
                             lines: seq<Bytes>, tail: Bytes, result: EvidenceReadResult)
    requires RecoversEvidence(codec, executionId, max, data, lines, tail, result)
    ensures forall a <- result.evidence :: a.executionId == executionId && Detachable(a)
    ensures forall i, j :: 0 <= i < j < |result.evidence| ==>
              result.evidence[i].evidenceId != result.evidence[j].evidenceId
    ensures |Concat(lines)| + (if result.warnings == [] then 0 else result.warnings[0].discardedBytes) == |data|
  {
    forall j | 0 <= j < |lines|
      ensures GoodAtom(codec, executionId, IdsOf(codec, lines[..j]), lines[j])
    {
      assert GoodAtoms(codec, executionId)(lines[..j], lines[j]);
    }
    forall i, j | 0 <= i < j < |lines|
      ensures result.evidence[i].evidenceId != result.evidence[j].evidenceId
    {
      assert lines[..j][i] == lines[i] && lines[i] in lines[..j];
      assert result.evidence[i].evidenceId in IdsOf(codec, lines[..j]);
    }
  }

  function Records(codec: EvidenceCodec, atoms: seq<EvidenceAtom>): (lines: seq<Bytes>)
    requires forall a <- atoms :: Detachable(a)
    ensures |lines| == |atoms|
    ensures forall i :: 0 <= i < |atoms| ==> lines[i] == Record(codec, atoms[i])
  {
    seq(|atoms|, i requires 0 <= i < |atoms| => Record(codec, atoms[i]))
  }

  function AtomIds(atoms: seq<EvidenceAtom>): set<string> {
    set a | a in atoms :: a.evidenceId
  }

  ghost predicate IsLedger(codec: EvidenceCodec, executionId: string, max: nat, atoms: seq<EvidenceAtom>) {
    && (forall a <- atoms ::
          && Detachable(a) && a.executionId == executionId
          && |Record(codec, a)| <= max && !codec.sensitive(Record(codec, a)))
    && (forall i, j :: 0 <= i < j < |atoms| ==> atoms[i].evidenceId != atoms[j].evidenceId)
  }

  ghost predicate FaithfulEvidence(codec: EvidenceCodec, atoms: seq<EvidenceAtom>) {
    forall a <- atoms :: Detachable(a) ==> codec.parse(Record(codec, a)) == Some(a)
  }

  lemma LedgerReads(codec: EvidenceCodec, executionId: string, max: nat, atoms: seq<EvidenceAtom>)
    requires IsLedger(codec, executionId, max, atoms) && FaithfulEvidence(codec, atoms)
    ensures forall line <- Records(codec, atoms) :: IsLine(line)
    ensures Accepts(GoodAtoms(codec, executionId), max, Records(codec, atoms))
  {
    var lines := Records(codec, atoms);
    forall i | 0 <= i < |atoms|
      ensures IsLine(lines[i]) && |lines[i]| <= max && GoodAtom(codec, executionId, IdsOf(codec, lines[..i]), lines[i])
    {
      assert atoms[i] in atoms;
      RecordIsFramed(codec, atoms[i]);
      forall line <- lines[..i] ensures codec.parse(line).value.evidenceId != atoms[i].evidenceId {
        var h :| 0 <= h < i && lines[h] == line;
        assert atoms[h] in atoms;
      }
    }
  }

  lemma RecordsParseBack(codec: EvidenceCodec, atoms: seq<EvidenceAtom>, k: nat, read: seq<EvidenceAtom>)
    requires (forall a <- atoms :: Detachable(a)) && FaithfulEvidence(codec, atoms) && k == |read| <= |atoms|
    requires forall i :: 0 <= i < k ==> codec.parse(Records(codec, atoms)[..k][i]) == Some(read[i])
    ensures read == atoms[..k]
  {
    forall i | 0 <= i < k ensures read[i] == atoms[i] {
      assert atoms[i] in atoms && Records(codec, atoms)[..k][i] == Record(codec, atoms[i]);
    }
  }

  /** Re-reading any prefix of a ledger never reports corruption, and gives a prefix of its atoms. */
  lemma LedgerPrefix(codec: EvidenceCodec, executionId: string, max: nat, atoms: seq<EvidenceAtom>, n: nat)
    requires IsLedger(codec, executionId, max, atoms) && FaithfulEvidence(codec, atoms)
    requires n <= |Concat(Records(codec, atoms))|
    ensures var data, k := Concat(Records(codec, atoms))[..n], WholeLines(Records(codec, atoms), n);
            && (forall lines, bad :: !CorruptAfter(GoodAtoms(codec, executionId), max, data, lines, bad))
            && forall lines, tail, result :: RecoversEvidence(codec, executionId, max, data, lines, tail, result) ==>
                 result.evidence == atoms[..k] && |Concat(Records(codec, atoms)[..k])| + |tail| == n
  {
    LedgerReads(codec, executionId, max, atoms);
    var data := Concat(Records(codec, atoms))[..n];
    var k, rest := CutReadsAs(GoodAtoms(codec, executionId), max, Records(codec, atoms), n);
    forall lines, bad ensures !CorruptAfter(GoodAtoms(codec, executionId), max, data, lines, bad) {
      if CorruptAfter(GoodAtoms(codec, executionId), max, data, lines, bad) {
        CorruptIsUnreadable(GoodAtoms(codec, executionId), max, data, lines, bad, Records(codec, atoms)[..k], rest);
      }
    }
    forall lines, tail, result | RecoversEvidence(codec, executionId, max, data, lines, tail, result)
      ensures result.evidence == atoms[..k] && |Concat(Records(codec, atoms)[..k])| + |tail| == n
    {
      FramingUnique(data, lines, tail, Records(codec, atoms)[..k], rest);
      RecordsParseBack(codec, atoms, k, result.evidence);
    }
  }

  lemma RecordsAppend(codec: EvidenceCodec, atoms: seq<EvidenceAtom>, atom: EvidenceAtom)
    requires forall a <- atoms + [atom] :: Detachable(a)
    ensures (forall a <- atoms :: a in atoms + [atom] && Detachable(a)) && Detachable(atom)
    ensures Concat(Records(codec, atoms + [atom])) == Concat(Records(codec, atoms)) + Record(codec, atom)
  {
    assert atom in atoms + [atom];
    ConcatAppend(Records(codec, atoms), Record(codec, atom));
    assert Records(codec, atoms + [atom]) == Records(codec, atoms) + [Record(codec, atom)];
  }

  lemma LedgerGrows(codec: EvidenceCodec, executionId: string, max: nat, atoms: seq<EvidenceAtom>, atom: EvidenceAtom)
    requires IsLedger(codec, executionId, max, atoms) && atom.evidenceId !in AtomIds(atoms)
    requires Detachable(atom) && atom.executionId == executionId
    requires |Record(codec, atom)| <= max && !codec.sensitive(Record(codec, atom))
    ensures IsLedger(codec, executionId, max, atoms + [atom])
    ensures AtomIds(atoms + [atom]) == AtomIds(atoms) + {atom.evidenceId}
  {
    var more := atoms + [atom];
    forall i, j | 0 <= i < j < |more| ensures more[i].evidenceId != more[j].evidenceId {
      if j == |atoms| { assert atoms[i] in atoms && atoms[i].evidenceId in AtomIds(atoms); }
    }
  }

  datatype EvidenceError = WriterClosed | IdConflict | NotSerializable | SensitiveContent | EventTooLarge | WriteFailed

  class EvidenceWriter {
    const codec: EvidenceCodec
    const executionId: string
    const maxEventBytes: nat
    const file: AppendFile
    var ids: set<string>
    var closed: bool
    ghost var atoms: seq<EvidenceAtom>

    ghost predicate Valid()
      reads this, file
    {
      && file.Valid() && maxEventBytes > 0 && IsLedger(codec, executionId, maxEventBytes, atoms)
      && ids == AtomIds(atoms) && file.written == Concat(Records(codec, atoms))
      && (closed ==> !file.isOpen)
    }

    constructor (codec: EvidenceCodec, executionId: string, maxEventBytes: nat)
      requires maxEventBytes > 0
      ensures Valid() && fresh(file) && atoms == [] && !closed && file.isOpen
      ensures this.codec == codec && this.executionId == executionId && this.maxEventBytes == maxEventBytes
    {
      this.codec, this.executionId, this.maxEventBytes := codec, executionId, maxEventBytes;
      ids, closed, atoms := {}, false, [];
      file := new AppendFile();
    }

    predicate Acceptable(atom: EvidenceAtom)
      reads this, file
    {
      && !closed && atom.executionId == executionId && atom.evidenceId !in ids && Detachable(atom)
      && !codec.sensitive(Record(codec, atom)) && |Record(codec, atom)| <= maxEventBytes
      && file.isOpen
    }

    /** Why an atom that is not acceptable is refused; the last case is a file that a failed `close` has closed. */
    function Refusal(atom: EvidenceAtom): EvidenceError
      reads this
    {
      if closed then WriterClosed
      else if atom.executionId != executionId || atom.evidenceId in ids then IdConflict
      else if !Detachable(atom) then NotSerializable
      else if codec.sensitive(Record(codec, atom)) then SensitiveContent
      else if |Record(codec, atom)| > maxEventBytes then EventTooLarge
      else WriteFailed
    }

    /** A rejected atom writes nothing and reserves no id. */
    method Append(atom: EvidenceAtom, durability: Durability) returns (r: Result<EvidenceAtom, EvidenceError>)
      requires Valid()
      modifies this, file
      ensures Valid() && closed == old(closed) && file.flushed >= old(file.flushed)
      ensures if old(Acceptable(atom))
              then atoms == old(atoms) + [atom] && file.written == old(file.written) + Record(codec, atom)
                   && (r == Ok(atom) || (r == Err(WriteFailed) && durability != Buffered))
              else r == Err(old(Refusal(atom))) && atoms == old(atoms) && ids == old(ids)
                   && file.written == old(file.written)
      ensures r.Ok? && durability != Buffered ==> file.flushed == |file.written|
    {
      if closed { return Err(WriterClosed); }
      if atom.executionId != executionId { return Err(IdConflict); }
      if atom.evidenceId in ids { return Err(IdConflict); }
      if !Detachable(atom) { return Err(NotSerializable); }
      var line := Record(codec, atom);
      if codec.sensitive(line) { return Err(SensitiveContent); }
      if |line| > maxEventBytes { return Err(EventTooLarge); }
      var written := file.Write(line);
      if !written { return Err(WriteFailed); }
      ids := ids + {atom.evidenceId};
      LedgerGrows(codec, executionId, maxEventBytes, atoms, atom);
      RecordsAppend(codec, atoms, atom);
      atoms := atoms + [atom];
      if durability != Buffered {
        var flushed := file.Flush();
        if !flushed { return Err(WriteFailed); }
      }
      return Ok(atom);
    }

    /** A close that raises leaves the file closed, and the writer believing that it is not. */
    method Close() returns (ok: bool)
      requires Valid()
      modifies this, file
      ensures Valid() && atoms == old(atoms) && ids == old(ids) && file.written == old(file.written)
      ensures (closed <==> ok) && !file.isOpen
      ensures old(!closed && file.isOpen) && ok ==> file.flushed == |file.written|
      ensures old(!closed && !file.isOpen) ==> ok
    {
      ok := true;
      if !closed {
        ok := file.Close();
        if ok { closed := true; }
      }
    }
  }

  /** A worker's ledger, cut by a kill after any byte, and read back with the writer's limit. */
  method ReadLedgerAfterKill(writer: EvidenceWriter, n: nat) returns (r: Result<EvidenceReadResult, EvidenceReadError>)
    requires writer.Valid() && FaithfulEvidence(writer.codec, writer.atoms) && n <= |writer.file.written|
    ensures r.Ok? && r.value.evidence == writer.atoms[..WholeLines(Records(writer.codec, writer.atoms), n)]
    ensures |r.value.warnings| <= 1
  {
    ghost var lines, tail;
    r, lines, tail :=
      ReadEvidence(writer.codec, writer.file.written[..n], writer.executionId, writer.maxEventBytes);
    LedgerPrefix(writer.codec, writer.executionId, writer.maxEventBytes, writer.atoms, n);
  }
}
