/** The trace: an append-only log of sequenced, checksummed events, and its torn-tail reader. */
module TraceLog {
  import opened Wrappers
  import opened CanonicalJson
  import opened Framing
  import JsonHeap
  import JsonReader

  datatype TraceEnvelope = TraceEnvelope(
    seq_: int,
    schemaVersion: string,
    executionId: string,
    eventType: string,
    payload: Json,
    timestamp: string,
    checksum: string)

  /** What validating one complete line finds. NonFinite: an envelope whose payload is not strict JSON. */
  datatype Parsed = Malformed | NonFinite(seq_: int) | Envelope(envelope: TraceEnvelope)

  /** The JSON validator, the JSON encoder and SHA-256, as arbitrary functions, but no encoder writes an LF. */
  datatype Codec = Codec(parse: Bytes -> Parsed, encode: Encoder, digest: Bytes -> string)

  function EnvelopeValue(e: TraceEnvelope, includeChecksum: bool): Json {
    Obj([Member("seq", Int(e.seq_)),
         Member("schema_version", Str(e.schemaVersion)),
         Member("execution_id", Str(e.executionId)),
         Member("event_type", Str(e.eventType)),
         Member("payload", e.payload),
         Member("timestamp", Str(e.timestamp))]
        + if includeChecksum then [Member("checksum", Str(e.checksum))] else [])
  }

  lemma KeysAreDistinct(e: TraceEnvelope)
    ensures DistinctKeys(EnvelopeValue(e, true).members) && DistinctKeys(EnvelopeValue(e, false).members)
  {
    var keys := EnvelopeValue(e, true).members;
    assert |keys[0].key| == 3 && |keys[1].key| == 14 && |keys[2].key| == 12 && |keys[3].key| == 10;
    assert |keys[4].key| == 7 && |keys[5].key| == 9 && |keys[6].key| == 8;
  }

  /** `j` is an object that says of an event what `e` says, as far as its checksum covers it. */
  predicate Says(j: Json, e: TraceEnvelope) {
    && JsonReader.Field(j, "seq") == Some(Int(e.seq_))
    && JsonReader.Field(j, "schema_version") == Some(Str(e.schemaVersion))
    && JsonReader.Field(j, "execution_id") == Some(Str(e.executionId))
    && JsonReader.Field(j, "event_type") == Some(Str(e.eventType))
    && JsonReader.Field(j, "payload") == Some(JsonReader.Normal(e.payload))
    && JsonReader.Field(j, "timestamp") == Some(Str(e.timestamp))
  }

  lemma NormalSays(e: TraceEnvelope, includeChecksum: bool)
    ensures Says(JsonReader.Normal(EnvelopeValue(e, includeChecksum)), e)
    ensures includeChecksum ==>
              JsonReader.Field(JsonReader.Normal(EnvelopeValue(e, true)), "checksum") == Some(Str(e.checksum))
  {
    var members := EnvelopeValue(e, includeChecksum).members;
    KeysAreDistinct(e);
    JsonReader.NormalField(members, 0);
    JsonReader.NormalField(members, 1);
    JsonReader.NormalField(members, 2);
    JsonReader.NormalField(members, 3);
    JsonReader.NormalField(members, 4);
    JsonReader.NormalField(members, 5);
    if includeChecksum { JsonReader.NormalField(members, 6); }
  }

  /** The same event, with the members of objects in the payload in any order. */
  predicate SameContent(e: TraceEnvelope, f: TraceEnvelope) {
    && e.seq_ == f.seq_ && e.schemaVersion == f.schemaVersion && e.executionId == f.executionId
    && e.eventType == f.eventType && JsonReader.Normal(e.payload) == JsonReader.Normal(f.payload)
    && e.timestamp == f.timestamp
  }

  /** Two different byte strings with the same digest. */
  ghost predicate Collision(codec: Codec, a: Bytes, b: Bytes) {
    a != b && codec.digest(a) == codec.digest(b)
  }

  function Checksum(codec: Codec, e: TraceEnvelope): string {
    "sha256:" + codec.digest(codec.encode(EnvelopeValue(e, false)))
  }

  /** `encode_trace_line` */
  function Line(codec: Codec, e: TraceEnvelope): (line: Bytes)
    ensures line != []
  {
    codec.encode(EnvelopeValue(e, true)) + [LF]
  }

  lemma LineIsFramed(codec: Codec, e: TraceEnvelope)
    ensures IsLine(Line(codec, e))
  {
    assert Line(codec, e)[..|Line(codec, e)| - 1] == codec.encode(EnvelopeValue(e, true));
  }

  /** A line on disk is a JSON object with the fields of its event. */
  lemma LineSays(codec: Codec, e: TraceEnvelope)
    requires JsonReader.Legible(codec.encode)
    ensures var line := Line(codec, e);
            var j := JsonReader.ReadBytes(line[..|line| - 1]);
            j.Some? && Says(j.value, e) && JsonReader.Field(j.value, "checksum") == Some(Str(e.checksum))
  {
    hide JsonReader.ReadBytes, JsonReader.Normal, JsonReader.Field;
    var line := Line(codec, e);
    assert line[..|line| - 1] == codec.encode(EnvelopeValue(e, true));
    NormalSays(e, true);
  }

  /** The validator of envelopes, on top of the reader of RFC 8259. */
  function ParseLine(line: Bytes): Parsed {
    if line == [] then Malformed
    else
      var j := JsonReader.ReadBytes(line[..|line| - 1]);
      if j == None then Malformed else ParseValue(j.value)
  }

  function ParseValue(j: Json): Parsed {
    var number, payload := JsonReader.Field(j, "seq"), JsonReader.Field(j, "payload");
    var schema, execution := StringField(j, "schema_version"), StringField(j, "execution_id");
    var eventType, timestamp := StringField(j, "event_type"), StringField(j, "timestamp");
    var checksum := StringField(j, "checksum");
    if number.Some? && number.value.Int? && payload.Some? && schema.Some? && execution.Some? && eventType.Some?
       && timestamp.Some? && checksum.Some?
    then Envelope(TraceEnvelope(number.value.n, schema.value, execution.value, eventType.value, payload.value,
                                timestamp.value, checksum.value))
    else Malformed
  }

  function StringField(j: Json, key: string): Option<string> {
    var field := JsonReader.Field(j, key);
    if field.Some? && field.value.Str? then Some(field.value.s) else None
  }

  /** Canonical JSON both ways: a codec that meets what the theorems about logs ask of one. */
  function CanonicalCodec(digest: Bytes -> string): Codec {
    Codec(ParseLine, CanonicalEncoder(), digest)
  }

  lemma CanonicalIsFaithful(digest: Bytes -> string, events: seq<TraceEnvelope>)
    requires forall e <- events :: JsonReader.Normal(e.payload) == e.payload
    ensures JsonReader.Legible(CanonicalCodec(digest).encode) && Faithful(CanonicalCodec(digest), events)
  {
    hide JsonReader.ReadBytes, JsonReader.Normal, CanonicalEncoder, Line, ParseLine;
    JsonReader.CanonicalIsLegible();
    forall e <- events ensures CanonicalCodec(digest).parse(Line(CanonicalCodec(digest), e)) == Envelope(e) {
      LineSays(CanonicalCodec(digest), e);
      LineParses(Line(CanonicalCodec(digest), e), e);
    }
  }

  lemma LineParses(line: Bytes, e: TraceEnvelope)
    requires line != [] && JsonReader.Normal(e.payload) == e.payload
    requires var j := JsonReader.ReadBytes(line[..|line| - 1]);
             j.Some? && Says(j.value, e) && JsonReader.Field(j.value, "checksum") == Some(Str(e.checksum))
    ensures ParseLine(line) == Envelope(e)
  {
    hide JsonReader.ReadBytes, JsonReader.Normal, JsonReader.Field;
  }

  /** A checksum covers the whole event: two events can share one only if they are the same, or if the digest of what
      was signed collides. */
  lemma ChecksumCovers(codec: Codec, e: TraceEnvelope, f: TraceEnvelope)
    requires JsonReader.Legible(codec.encode) && Checksum(codec, e) == Checksum(codec, f)
    ensures SameContent(e, f)
            || Collision(codec, codec.encode(EnvelopeValue(e, false)), codec.encode(EnvelopeValue(f, false)))
  {
    hide JsonReader.ReadBytes, JsonReader.Normal, JsonReader.Field, EnvelopeValue;
    var a, b := codec.encode(EnvelopeValue(e, false)), codec.encode(EnvelopeValue(f, false));
    assert Checksum(codec, e)[7..] == codec.digest(a) && Checksum(codec, f)[7..] == codec.digest(b);
    if a == b {
      assert JsonReader.ReadBytes(a) == JsonReader.ReadBytes(b);
      NormalSays(e, false);
      NormalSays(f, false);
    }
  }

  /** The event of a line that is the `number`-th of its file. */
  predicate GoodEvent(codec: Codec, line: Bytes, number: nat) {
    var p := codec.parse(line);
    p.Envelope? && p.envelope.seq_ == number && p.envelope.checksum == Checksum(codec, p.envelope)
  }

  function Good(codec: Codec): Check {
    (earlier: seq<Bytes>, line: Bytes) => GoodEvent(codec, line, |earlier| + 1)
  }

  datatype TailWarning = TruncatedTail(lineNumber: nat, discardedBytes: nat)

  datatype TraceReadResult = TraceReadResult(events: seq<TraceEnvelope>, warnings: seq<TailWarning>)

  datatype Corruption =
    | Oversize | InvalidRecord | UnexpectedSeq | NonCanonicalPayload | ChecksumMismatch | IncompleteNonFinal

  datatype TraceError = InvalidLimit | Corrupt(why: Corruption, line: nat)

  function WarningsOf(lines: nat, size: nat): seq<TailWarning> {
    if size == 0 then [] else [TruncatedTail(lines + 1, size)]
  }

  /** Each line is the record of the event at its place. */
  ghost predicate Parses(codec: Codec, lines: seq<Bytes>, events: seq<TraceEnvelope>) {
    |events| == |lines| && forall i :: 0 <= i < |lines| ==> codec.parse(lines[i]) == Envelope(events[i])
  }

  lemma OneMoreEvent(codec: Codec, lines: seq<Bytes>, events: seq<TraceEnvelope>, chunk: Bytes, e: TraceEnvelope)
    requires Parses(codec, lines, events) && codec.parse(chunk) == Envelope(e)
    ensures Parses(codec, lines + [chunk], events + [e])
  {
  }

  /** `result` is what `data` holds: one good event for each whole line, and one warning for a tail. */
  ghost predicate Recovers(codec: Codec, max: nat, data: Bytes, lines: seq<Bytes>, tail: Bytes,
                           result: TraceReadResult) {
    && ReadsAs(Good(codec), max, data, lines, tail)
    && Parses(codec, lines, result.events)
    && result.warnings == WarningsOf(|lines|, |tail|)
  }

  /** What is wrong with a complete line of acceptable length. */
  predicate Faulty(codec: Codec, line: Bytes, number: nat, why: Corruption) {
    match codec.parse(line)
    case Malformed => why == InvalidRecord
    case NonFinite(n) => why == if n != number then UnexpectedSeq else NonCanonicalPayload
    case Envelope(e) =>
      if e.seq_ != number then why == UnexpectedSeq else why == ChecksumMismatch && e.checksum != Checksum(codec, e)
  }

  method CheckEvent(codec: Codec, chunk: Bytes, lineNumber: nat) returns (r: Result<TraceEnvelope, TraceError>)
    ensures r.Ok? <==> GoodEvent(codec, chunk, lineNumber)
    ensures r.Ok? ==> codec.parse(chunk) == Envelope(r.value)
    ensures r.Err? ==> r.error.Corrupt? && r.error.line == lineNumber && Faulty(codec, chunk, lineNumber, r.error.why)
  {
    match codec.parse(chunk) {
      case Malformed => return Err(Corrupt(InvalidRecord, lineNumber));
      case NonFinite(n) =>
        return Err(Corrupt(if n != lineNumber then UnexpectedSeq else NonCanonicalPayload, lineNumber));
      case Envelope(envelope) =>
        if envelope.seq_ != lineNumber { return Err(Corrupt(UnexpectedSeq, lineNumber)); }
        if envelope.checksum != Checksum(codec, envelope) { return Err(Corrupt(ChecksumMismatch, lineNumber)); }
        return Ok(envelope);
    }
  }

  /** The reader stopped at `bad`, or at a line too long, and says which line it was and what is wrong. */
  ghost predicate Blames(codec: Codec, max: nat, data: Bytes, lines: seq<Bytes>, bad: Bytes, error: TraceError) {
    && CorruptAfter(Good(codec), max, data, lines, bad)
    && error.Corrupt? && error.line == |lines| + 1
    && if bad == [] then error.why == Oversize else Faulty(codec, bad, error.line, error.why)
  }

  /** One turn of the reader's loop. It takes the next line as an event, or stops: at the end, where `chunk`
      is what remains of an unfinished line, or with an error, where `chunk` is the bad line. */
  method NextEvent(codec: Codec, file: InputFile, maxEventBytes: nat, lineNumber: nat, ghost lines: seq<Bytes>)
    returns (r: Result<Option<TraceEnvelope>, TraceError>, chunk: Bytes)
    requires file.Valid() && maxEventBytes > 0
    requires |lines| + 1 == lineNumber && TakenTo(Good(codec), maxEventBytes, file.data, file.pos, lines)
    modifies file
    ensures file.Valid() && (r.Ok? && r.value.Some? ==> old(file.pos) < file.pos)
    ensures r.Ok? && r.value.Some? ==>
              && codec.parse(chunk) == Envelope(r.value.value)
              && TakenTo(Good(codec), maxEventBytes, file.data, file.pos, lines + [chunk])
    ensures r.Ok? && r.value == None ==>
              ReadsAs(Good(codec), maxEventBytes, file.data, lines, chunk) && file.pos == |file.data|
    ensures r.Err? ==> Blames(codec, maxEventBytes, file.data, lines, chunk, r.error)
  {
    ghost var good, start := Good(codec), file.pos;
    chunk := file.Readline(maxEventBytes + 1);
    assert file.data[start..file.pos] == chunk;
    if |chunk| > maxEventBytes {
      StopAtOversize(good, maxEventBytes, file.data, start, file.pos, lines);
      return Err(Corrupt(Oversize, lineNumber)), [];
    }
    if chunk == [] || chunk[|chunk| - 1] != LF {
      assert file.data[start..] == chunk;
      StopAtTail(good, maxEventBytes, file.data, start, lines);
      return Ok(None), chunk;
    }
    var envelope := CheckEvent(codec, chunk, lineNumber);
    if envelope.Err? {
      StopAtBadLine(good, maxEventBytes, file.data, start, file.pos, lines);
      return Err(envelope.error), chunk;
    }
    TakeLine(good, maxEventBytes, file.data, start, file.pos, lines);
    return Ok(Some(envelope.value)), chunk;
  }

  /** Read a valid prefix, and ignore only an incomplete final line. After an error, `tail` is the bad line. */
  method ReadTrace(codec: Codec, data: Bytes, maxEventBytes: int)
    returns (r: Result<TraceReadResult, TraceError>, ghost lines: seq<Bytes>, ghost tail: Bytes)
    ensures maxEventBytes <= 0 <==> r == Err(InvalidLimit)
    ensures r.Ok? ==> Recovers(codec, maxEventBytes, data, lines, tail, r.value)
    ensures r.Err? && maxEventBytes > 0 ==> Blames(codec, maxEventBytes, data, lines, tail, r.error)
    ensures r.Err? && r.error.Corrupt? ==> r.error.why != IncompleteNonFinal
  {
    lines, tail := [], [];
    if maxEventBytes <= 0 { return Err(InvalidLimit), lines, tail; }
    var events: seq<TraceEnvelope>, warnings: seq<TailWarning> := [], [];
    var file := new InputFile(data);
    var lineNumber := 0;
    while true
      invariant file.Valid() && file.data == data && TakenTo(Good(codec), maxEventBytes, data, file.pos, lines)
      invariant |lines| == lineNumber && Parses(codec, lines, events) && warnings == []
      decreases |data| - file.pos
    {
      var event, chunk := NextEvent(codec, file, maxEventBytes, lineNumber + 1, lines);
      tail := chunk;
      if event.Err? { return Err(event.error), lines, tail; }
      if chunk == [] { break; }
      lineNumber := lineNumber + 1;
      if event.value == None {
        warnings := [TruncatedTail(lineNumber, |chunk|)];
        break;
      }
      OneMoreEvent(codec, lines, events, chunk, event.value.value);
      events, lines := events + [event.value.value], lines + [chunk];
    }
    var atEnd := file.AtEnd();
    r := Err(Corrupt(IncompleteNonFinal, lineNumber));
    if warnings != [] && !atEnd { return; }
    r := Ok(TraceReadResult(events, warnings));
  }

  /** Tamper evidence. In a log, the line of event `i` is replaced by that of `forged`, with the checksum kept: the
      reader reports that line, unless nothing the checksum covers was changed, or the digest collides. */
  method ReadForged(codec: Codec, events: seq<TraceEnvelope>, i: nat, forged: TraceEnvelope, maxEventBytes: nat)
    returns (r: Result<TraceReadResult, TraceError>)
    requires JsonReader.Legible(codec.encode) && maxEventBytes > 0 && i < |events|
    requires IsLog(codec, maxEventBytes, events) && Faithful(codec, events)
    requires codec.parse(Line(codec, forged)) == Envelope(forged) && |Line(codec, forged)| <= maxEventBytes
    requires forged.checksum == events[i].checksum
    ensures forged.seq_ != i + 1 ==> r == Err(Corrupt(UnexpectedSeq, i + 1))
    ensures forged.seq_ == i + 1 ==>
              || SameContent(forged, events[i])
              || Collision(codec, codec.encode(EnvelopeValue(forged, false)),
                           codec.encode(EnvelopeValue(events[i], false)))
              || r == Err(Corrupt(ChecksumMismatch, i + 1))
  {
    hide IsLog, Faithful, SameContent, EnvelopeValue, ReadsAs, CorruptAfter, Checksum, Parses, JsonReader.Legible;
    var lines := Lines(codec, events)[i := Line(codec, forged)];
    ghost var taken, tail;
    r, taken, tail := ReadTrace(codec, Concat(lines), maxEventBytes);
    if forged.seq_ != i + 1 || forged.checksum != Checksum(codec, forged) {
      ForgedIsBlamed(codec, maxEventBytes, events, i, forged, lines, taken, tail);
    } else {
      LoggedChecksum(codec, maxEventBytes, events, i);
      ChecksumCovers(codec, forged, events[i]);
    }
  }

  lemma LoggedChecksum(codec: Codec, max: nat, events: seq<TraceEnvelope>, i: nat)
    requires IsLog(codec, max, events) && i < |events|
    ensures events[i].checksum == Checksum(codec, events[i])
  {
  }

  lemma ForgedIsBlamed(codec: Codec, max: nat, events: seq<TraceEnvelope>, i: nat, forged: TraceEnvelope,
                       lines: seq<Bytes>, taken: seq<Bytes>, bad: Bytes)
    requires IsLog(codec, max, events) && Faithful(codec, events) && i < |events|
    requires codec.parse(Line(codec, forged)) == Envelope(forged) && |Line(codec, forged)| <= max
    requires lines == Lines(codec, events)[i := Line(codec, forged)]
    requires forged.seq_ != i + 1 || forged.checksum != Checksum(codec, forged)
    ensures !ReadsAs(Good(codec), max, Concat(lines), taken, bad)
    ensures CorruptAfter(Good(codec), max, Concat(lines), taken, bad) ==>
              |taken| == i && bad == Line(codec, forged)
  {
    hide EnvelopeValue, Line, Checksum, IsLog, Faithful, Concat, IsLine;
    ForgedIsBad(codec, max, events, i, forged, lines);
    BadLineIsUnreadable(Good(codec), max, lines, i, taken, bad);
    if CorruptAfter(Good(codec), max, Concat(lines), taken, bad) {
      CorruptAtFirst(Good(codec), max, lines, i, taken, bad);
    }
  }

  lemma ForgedIsBad(codec: Codec, max: nat, events: seq<TraceEnvelope>, i: nat, forged: TraceEnvelope,
                    lines: seq<Bytes>)
    requires IsLog(codec, max, events) && Faithful(codec, events) && i < |events|
    requires codec.parse(Line(codec, forged)) == Envelope(forged) && |Line(codec, forged)| <= max
    requires lines == Lines(codec, events)[i := Line(codec, forged)]
    requires forged.seq_ != i + 1 || forged.checksum != Checksum(codec, forged)
    ensures forall line <- lines :: IsLine(line) && |line| <= max
    ensures (forall j :: 0 <= j < i ==> Good(codec)(lines[..j], lines[j])) && !Good(codec)(lines[..i], lines[i])
  {
    hide EnvelopeValue, Line, Checksum, IsLog, Faithful, IsLine, Good;
    LogReads(codec, max, events);
    LineIsFramed(codec, forged);
    OneReplaced(Good(codec), max, Lines(codec, events), i, Line(codec, forged));
    ForgedIsNotGood(codec, lines[..i], forged);
  }

  lemma ForgedIsNotGood(codec: Codec, earlier: seq<Bytes>, forged: TraceEnvelope)
    requires codec.parse(Line(codec, forged)) == Envelope(forged)
    requires forged.seq_ != |earlier| + 1 || forged.checksum != Checksum(codec, forged)
    ensures !Good(codec)(earlier, Line(codec, forged))
  {
    hide Line, Checksum;
  }

  lemma EventIsGood(codec: Codec, max: nat, lines: seq<Bytes>, events: seq<TraceEnvelope>, i: nat)
    requires Accepts(Good(codec), max, lines) && Parses(codec, lines, events) && i < |events|
    ensures events[i].seq_ == i + 1 && events[i].checksum == Checksum(codec, events[i])
  {
    assert Good(codec)(lines[..i], lines[i]);
  }

  /** Whatever bytes were read: every returned event has the number of its line and its own checksum, no byte
      of the file is unaccounted for, and there is at most one warning. */
  lemma ReaderSoundness(codec: Codec, max: nat, data: Bytes, lines: seq<Bytes>, tail: Bytes, result: TraceReadResult)
    requires Recovers(codec, max, data, lines, tail, result)
    ensures forall i :: 0 <= i < |result.events| ==>
      result.events[i].seq_ == i + 1 && result.events[i].checksum == Checksum(codec, result.events[i])
    ensures |result.warnings| <= 1
    ensures |Concat(lines)| + (if result.warnings == [] then 0 else result.warnings[0].discardedBytes) == |data|
  {
    forall i | 0 <= i < |result.events|
      ensures result.events[i].seq_ == i + 1 && result.events[i].checksum == Checksum(codec, result.events[i])
    {
      EventIsGood(codec, max, lines, result.events, i);
    }
  }

  /** The lines of events. */
  function Lines(codec: Codec, events: seq<TraceEnvelope>): (lines: seq<Bytes>)
    ensures |lines| == |events|
    ensures forall i :: 0 <= i < |events| ==> lines[i] == Line(codec, events[i])
  {
    seq(|events|, i requires 0 <= i < |events| => Line(codec, events[i]))
  }

  /** What a writer with this limit may have written: numbered and signed events that fit. */
  ghost predicate IsLog(codec: Codec, max: nat, events: seq<TraceEnvelope>) {
    forall i :: 0 <= i < |events| ==>
      events[i].seq_ == i + 1 && events[i].checksum == Checksum(codec, events[i]) && |Line(codec, events[i])| <= max
  }

  /** The validator gives back each of these events from its line. */
  ghost predicate Faithful(codec: Codec, events: seq<TraceEnvelope>) {
    forall e <- events :: codec.parse(Line(codec, e)) == Envelope(e)
  }

  lemma LogReads(codec: Codec, max: nat, events: seq<TraceEnvelope>)
    requires IsLog(codec, max, events) && Faithful(codec, events)
    ensures forall line <- Lines(codec, events) :: IsLine(line)
    ensures Accepts(Good(codec), max, Lines(codec, events))
  {
    forall i | 0 <= i < |events| ensures IsLine(Lines(codec, events)[i]) { LineIsFramed(codec, events[i]); }
    forall i | 0 <= i < |events| ensures GoodEvent(codec, Lines(codec, events)[i], i + 1) {
      assert events[i] in events;
    }
  }

  /** The end of the `j`-th line, counted from 0. */
  function LineEnd(codec: Codec, events: seq<TraceEnvelope>, j: nat): nat
    requires j < |events|
  {
    |Concat(Lines(codec, events)[..j + 1])|
  }

  lemma CutReads(codec: Codec, max: nat, events: seq<TraceEnvelope>, n: nat) returns (k: nat, tail: Bytes)
    requires IsLog(codec, max, events) && Faithful(codec, events) && n <= |Concat(Lines(codec, events))|
    ensures k == WholeLines(Lines(codec, events), n) && |Concat(Lines(codec, events)[..k])| + |tail| == n
    ensures ReadsAs(Good(codec), max, Concat(Lines(codec, events))[..n], Lines(codec, events)[..k], tail)
  {
    LogReads(codec, max, events);
    k, tail := CutReadsAs(Good(codec), max, Lines(codec, events), n);
  }

  /** No cut of a log reads as corruption. */
  lemma CutIsNotCorrupt(codec: Codec, max: nat, events: seq<TraceEnvelope>, n: nat,
                         lines: seq<Bytes>, bad: Bytes)
    requires IsLog(codec, max, events) && Faithful(codec, events) && n <= |Concat(Lines(codec, events))|
    ensures !CorruptAfter(Good(codec), max, Concat(Lines(codec, events))[..n], lines, bad)
  {
    var k, tail := CutReads(codec, max, events, n);
    if CorruptAfter(Good(codec), max, Concat(Lines(codec, events))[..n], lines, bad) {
      CorruptIsUnreadable(Good(codec), max, Concat(Lines(codec, events))[..n], lines, bad,
                          Lines(codec, events)[..k], tail);
    }
  }

  lemma ParsesBack(codec: Codec, events: seq<TraceEnvelope>, k: nat, read: seq<TraceEnvelope>)
    requires Faithful(codec, events) && k <= |events| && Parses(codec, Lines(codec, events)[..k], read)
    ensures read == events[..k]
  {
    forall i | 0 <= i < k ensures read[i] == events[i] {
      assert events[i] in events && Lines(codec, events)[..k][i] == Line(codec, events[i]);
    }
  }

  lemma CutRecoversPrefix(codec: Codec, max: nat, events: seq<TraceEnvelope>, n: nat,
                          lines: seq<Bytes>, tail: Bytes, result: TraceReadResult)
    requires IsLog(codec, max, events) && Faithful(codec, events) && n <= |Concat(Lines(codec, events))|
    requires Recovers(codec, max, Concat(Lines(codec, events))[..n], lines, tail, result)
    ensures var k := WholeLines(Lines(codec, events), n);
            && result.events == events[..k] && |Concat(Lines(codec, events)[..k])| + |tail| == n
            && result.warnings == WarningsOf(k, |tail|)
  {
    var k, tail' := CutReads(codec, max, events, n);
    FramingUnique(Concat(Lines(codec, events))[..n], lines, tail, Lines(codec, events)[..k], tail');
    ParsesBack(codec, events, k, result.events);
  }

  /** `result` holds exactly the events whose line ends by byte `n`, and one warning that counts the bytes
      of the line the cut went through, if it did. */
  ghost predicate SurvivesCut(codec: Codec, events: seq<TraceEnvelope>, n: nat, result: TraceReadResult) {
    && result.events <= events
    && (forall j :: 0 <= j < |events| ==> (j < |result.events| <==> LineEnd(codec, events, j) <= n))
    && var start := |Concat(Lines(codec, events)[..|result.events|])|;
       start <= n && result.warnings == WarningsOf(|result.events|, n - start)
  }

  /** Cut a log anywhere: what the reader makes of it is what survives the cut. */
  lemma TornTail(codec: Codec, max: nat, events: seq<TraceEnvelope>, n: nat,
                 lines: seq<Bytes>, tail: Bytes, result: TraceReadResult)
    requires IsLog(codec, max, events) && Faithful(codec, events) && n <= |Concat(Lines(codec, events))|
    requires Recovers(codec, max, Concat(Lines(codec, events))[..n], lines, tail, result)
    ensures SurvivesCut(codec, events, n, result)
  {
    CutRecoversPrefix(codec, max, events, n, lines, tail, result);
    var k := WholeLines(Lines(codec, events), n);
    assert result.events == events[..k] && |result.events| == k;
    forall j | 0 <= j < |events| ensures j < |result.events| <==> LineEnd(codec, events, j) <= n {
      SurvivesByEnd(codec, max, events, n, j);
    }
    var start := |Concat(Lines(codec, events)[..|result.events|])|;
    assert start + |tail| == n && result.warnings == WarningsOf(k, |tail|);
  }

  lemma SurvivesByEnd(codec: Codec, max: nat, events: seq<TraceEnvelope>, n: nat, j: nat)
    requires IsLog(codec, max, events) && Faithful(codec, events) && n <= |Concat(Lines(codec, events))| && j < |events|
    ensures j < WholeLines(Lines(codec, events), n) <==> LineEnd(codec, events, j) <= n
  {
    LogReads(codec, max, events);
    SurvivesIffEnded(Lines(codec, events), n, j);
  }

  /** A snapshot that counted `k` events once they were flushed never counts more than a cut leaves. */
  lemma FlushedEventsSurvive(codec: Codec, max: nat, events: seq<TraceEnvelope>, k: nat, n: nat,
                             lines: seq<Bytes>, tail: Bytes, result: TraceReadResult)
    requires IsLog(codec, max, events) && Faithful(codec, events) && k <= |events|
    requires |Concat(Lines(codec, events)[..k])| <= n <= |Concat(Lines(codec, events))|
    requires Recovers(codec, max, Concat(Lines(codec, events))[..n], lines, tail, result)
    ensures k <= |result.events|
  {
    TornTail(codec, max, events, n, lines, tail, result);
    if k > 0 { assert LineEnd(codec, events, k - 1) <= n; }
  }

  lemma LogGrows(codec: Codec, max: nat, events: seq<TraceEnvelope>, e: TraceEnvelope, safe: nat)
    requires IsLog(codec, max, events) && e.seq_ == |events| + 1 && safe <= |events|
    requires e.checksum == Checksum(codec, e) && |Line(codec, e)| <= max
    ensures IsLog(codec, max, events + [e])
    ensures Concat(Lines(codec, events + [e])) == Concat(Lines(codec, events)) + Line(codec, e)
    ensures Concat(Lines(codec, events + [e])[..safe]) == Concat(Lines(codec, events)[..safe])
  {
    ConcatAppend(Lines(codec, events), Line(codec, e));
    assert Lines(codec, events + [e]) == Lines(codec, events) + [Line(codec, e)];
    assert Lines(codec, events + [e])[..safe] == Lines(codec, events)[..safe];
  }

  datatype Durability = Buffered | Flush | Fsync

  datatype AppendError = Closed | NotStrictJson | NotAnObject | TooLarge | IoError

  class TraceWriter {
    const codec: Codec
    const executionId: string
    const schemaVersion: string
    const maxEventBytes: nat
    const file: AppendFile
    var nextSeq: nat
    var closed: bool
    ghost var events: seq<TraceEnvelope>
    ghost var safe: nat   // events that had been written when a flush last returned

    ghost predicate Valid()
      reads this, file
    {
      && file.Valid() && nextSeq == |events| + 1 && maxEventBytes > 0 && IsLog(codec, maxEventBytes, events)
      && file.written == Concat(Lines(codec, events))
      && safe <= |events| && |Concat(Lines(codec, events)[..safe])| <= file.flushed
      && (closed ==> !file.isOpen)
    }

    constructor (codec: Codec, executionId: string, schemaVersion: string, maxEventBytes: nat)
      requires schemaVersion != "" && maxEventBytes > 0
      ensures Valid() && fresh(file) && events == [] && !closed && file.isOpen
      ensures this.codec == codec && this.maxEventBytes == maxEventBytes
    {
      this.codec, this.executionId, this.schemaVersion := codec, executionId, schemaVersion;
      this.maxEventBytes, nextSeq, closed, events, safe := maxEventBytes, 1, false, [], 0;
      file := new AppendFile();
    }

    /** The envelope an append with sequence number `number` writes. */
    function Stamped(number: nat, eventType: string, payload: Json, timestamp: string): TraceEnvelope {
      var unsigned := TraceEnvelope(number, schemaVersion, executionId, eventType, payload, timestamp, "");
      unsigned.(checksum := Checksum(codec, unsigned))
    }

    /** Why an append of this content is not written, if it is not. IoError: a `close` that failed has closed
        the file. */
    function Refusal(number: nat, isOpen: bool, eventType: string, content: Option<Json>, timestamp: string)
      : Option<AppendError>
    {
      if content == None then Some(NotStrictJson)
      else if !content.value.Obj? then Some(NotAnObject)
      else if |Line(codec, Stamped(number, eventType, content.value, timestamp))| > maxEventBytes then Some(TooLarge)
      else if !isOpen then Some(IoError)
      else None
    }

    /** Exactly this event was added, and its line is what was written. */
    twostate predicate Wrote(new e: TraceEnvelope)
      reads this, file
    {
      events == old(events) + [e] && file.written == old(file.written) + Line(codec, e)
    }

    twostate predicate WroteNothing()
      reads this, file
    {
      events == old(events) && nextSeq == old(nextSeq) && file.written == old(file.written)
    }

    /** Append any value, in a heap of containers that may be shared or cyclic. What decides is its strict JSON
        content. A rejected append writes nothing and uses no sequence number; one that fails only to flush
        has written its event. After a flush that returned, every event so far is safe from a kill. */
    method Append(eventType: string, payload: JsonHeap.PyValue, timestamp: string, durability: Durability,
                  ghost world: set<JsonHeap.Cell>)
      returns (r: Result<TraceEnvelope, AppendError>, ghost content: Option<Json>)
      requires Valid() && JsonHeap.Closed(world) && JsonHeap.Within(payload, world)
      modifies this, file
      ensures Valid() && closed == old(closed) && safe >= old(safe)
      ensures closed ==> r == Err(Closed) && WroteNothing()
      ensures !closed ==>
                && JsonHeap.ContentIs(world, payload, content)
                && Decided(old(nextSeq), old(file.isOpen), eventType, content, timestamp, durability, r)
      ensures r.Ok? ==>
                && r.value.seq_ == old(nextSeq) && r.value.schemaVersion == schemaVersion
                && r.value.executionId == executionId && r.value.eventType == eventType
                && content == Some(r.value.payload) && r.value.timestamp == timestamp
                && r.value.checksum == Checksum(codec, r.value)
      ensures r.Ok? && durability != Buffered ==> file.flushed == |file.written| && safe == |events|
    {
      content := None;
      if closed { return Err(Closed), content; }
      var found := JsonHeap.ContentOf(payload, world);
      content := found;
      r := AppendContent(eventType, found, timestamp, durability);
    }

    twostate predicate Decided(number: nat, isOpen: bool, eventType: string, new content: Option<Json>,
                               timestamp: string, durability: Durability, new r: Result<TraceEnvelope, AppendError>)
      reads this, file
    {
      match Refusal(number, isOpen, eventType, content, timestamp)
      case None =>
        var e := Stamped(number, eventType, content.value, timestamp);
        Wrote(e) && (r == Ok(e) || (r == Err(IoError) && durability != Buffered))
      case Some(error) => WroteNothing() && r == Err(error)
    }

    method AppendContent(eventType: string, content: Option<Json>, timestamp: string, durability: Durability)
      returns (r: Result<TraceEnvelope, AppendError>)
      requires Valid() && !closed
      modifies this, file
      ensures Valid() && closed == old(closed) && safe >= old(safe)
      ensures Decided(old(nextSeq), old(file.isOpen), eventType, content, timestamp, durability, r)
      ensures r.Ok? && durability != Buffered ==> file.flushed == |file.written| && safe == |events|
    {
      if content == None { return Err(NotStrictJson); }
      if !content.value.Obj? { return Err(NotAnObject); }
      var envelope := Stamped(nextSeq, eventType, content.value, timestamp);
      var line := Line(codec, envelope);
      if |line| > maxEventBytes { return Err(TooLarge); }
      r := WriteDurably(envelope, line, durability);
    }

    method WriteDurably(envelope: TraceEnvelope, line: Bytes, durability: Durability)
      returns (r: Result<TraceEnvelope, AppendError>)
      requires Valid() && !closed && line == Line(codec, envelope) && |line| <= maxEventBytes
      requires envelope.seq_ == nextSeq && envelope.checksum == Checksum(codec, envelope)
      modifies this, file
      ensures Valid() && closed == old(closed) && safe >= old(safe)
      ensures old(file.isOpen) ==>
                Wrote(envelope) && (r == Ok(envelope) || (r == Err(IoError) && durability != Buffered))
      ensures !old(file.isOpen) ==> WroteNothing() && r == Err(IoError)
      ensures r.Ok? && durability != Buffered ==> file.flushed == |file.written| && safe == |events|
    {
      var written := WriteEvent(envelope, line);
      if !written { return Err(IoError); }
      if durability != Buffered {
        var flushed := FlushEvents();
        if !flushed { return Err(IoError); }
      }
      return Ok(envelope);
    }

    method WriteEvent(envelope: TraceEnvelope, line: Bytes) returns (ok: bool)
      requires Valid() && line == Line(codec, envelope) && |line| <= maxEventBytes
      requires envelope.seq_ == nextSeq && envelope.checksum == Checksum(codec, envelope)
      modifies this`nextSeq, this`events, file
      ensures Valid() && ok == old(file.isOpen)
      ensures if ok then Wrote(envelope) else WroteNothing()
    {
      hide IsLog, Line, Checksum;
      LogGrows(codec, maxEventBytes, events, envelope, safe);
      ok := file.Write(line);
      if !ok { return; }
      nextSeq, events := nextSeq + 1, events + [envelope];
    }

    method FlushEvents() returns (ok: bool)
      requires Valid()
      modifies this`safe, file
      ensures Valid() && file.written == old(file.written) && file.isOpen == old(file.isOpen) && safe >= old(safe)
      ensures ok ==> file.flushed == |file.written| && safe == |events|
    {
      ok := file.Flush();
      if ok {
        safe := |events|;
        assert Lines(codec, events)[..safe] == Lines(codec, events);
      }
    }

    /** A close that raises leaves the file closed, and the writer believing that it is not. */
    method Close() returns (ok: bool)
      requires Valid()
      modifies this, file
      ensures Valid() && events == old(events) && file.written == old(file.written) && safe >= old(safe)
      ensures (closed <==> ok) && !file.isOpen
      ensures old(!closed && file.isOpen) && ok ==> safe == |events|
      ensures old(!closed && !file.isOpen) ==> ok
    {
      ok := true;
      if !closed {
        var flushing := file.isOpen;
        ok := file.Close();
        if ok {
          closed := true;
          if flushing {
            safe := |events|;
            assert Lines(codec, events)[..safe] == Lines(codec, events);
          }
        }
      }
    }
  }

  /** A worker's log, cut by a kill after any byte, and read back with the writer's limit. A kill cannot take
      flushed bytes, so the events that were safe are all there. */
  method ReadAfterKill(writer: TraceWriter, n: nat) returns (r: Result<TraceReadResult, TraceError>)
    requires writer.Valid() && Faithful(writer.codec, writer.events) && n <= |writer.file.written|
    ensures r.Ok? && SurvivesCut(writer.codec, writer.events, n, r.value)
    ensures writer.file.flushed <= n ==> writer.safe <= |r.value.events|
  {
    ghost var lines, tail;
    r, lines, tail := ReadTrace(writer.codec, writer.file.written[..n], writer.maxEventBytes);
    CutIsNotCorrupt(writer.codec, writer.maxEventBytes, writer.events, n, lines, tail);
    TornTail(writer.codec, writer.maxEventBytes, writer.events, n, lines, tail, r.value);
    if writer.file.flushed <= n {
      FlushedEventsSurvive(writer.codec, writer.maxEventBytes, writer.events, writer.safe, n, lines, tail, r.value);
    }
  }
}
