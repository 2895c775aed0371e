/** The parent's emergency output: what survived goes into a draft, a report and, last, a receipt. */
module EmergencyEmitter {
  import opened Wrappers
  import opened StoreState
  import opened Framing
  import opened TraceLog
  import opened EvidenceLog

  datatype Snapshot = Snapshot(
    executionId: string,
    taskId: string,
    lastPersistedEventSeq: nat,
    terminalState: Option<string>,
    bestCandidateRef: Option<ArtifactRef>,
    lastUrl: Option<string>,
    lastScreenshotRef: Option<ArtifactRef>)

  datatype Draft = Draft(
    taskId: string,
    mappedStatus: Option<string>,
    agentAnswer: string,
    urls: seq<string>,
    actions: seq<string>,
    decisionSummaries: seq<string>,
    artifactRefs: seq<ArtifactRef>,
    captureRef: Option<ArtifactRef>,
    terminalScreenshotRef: Option<ArtifactRef>)

  datatype Report = Report(
    executionId: string,
    taskId: string,
    mappedStatus: Option<string>,
    snapshotLastSeq: nat,
    snapshotTerminalState: Option<string>,
    bestCandidateRef: Option<ArtifactRef>,
    traceEvents: nat,
    evidence: nat,
    traceWarnings: nat,
    evidenceWarnings: nat,
    emittedAt: string)

  datatype Receipt = Receipt(
    executionId: string,
    taskId: string,
    mappedStatus: Option<string>,
    draftSha256: string,
    draftByteSize: nat,
    emittedAt: string,
    idempotent: bool)

  /** The models' JSON encoders and validators, and SHA-256, as arbitrary functions. */
  datatype EmitCodec = EmitCodec(
    encodeDraft: Draft -> Bytes,
    decodeDraft: Bytes -> Option<Draft>,
    encodeReport: Report -> Bytes,
    decodeReport: Bytes -> Option<Report>,
    encodeReceipt: Receipt -> Bytes,
    decodeReceipt: Bytes -> Option<Receipt>,
    digest: Bytes -> string)

  /** Each validator inverts its encoder. */
  ghost predicate Lawful(codec: EmitCodec) {
    && (forall d :: codec.decodeDraft(codec.encodeDraft(d)) == Some(d))
    && (forall r :: codec.decodeReport(codec.encodeReport(r)) == Some(r))
    && (forall r :: codec.decodeReceipt(codec.encodeReceipt(r)) == Some(r))
  }

  /** What one emit works from. */
  datatype Facts = Facts(snapshot: Snapshot, trace: TraceReadResult, evidence: EvidenceReadResult, now: string)

  function ArtifactRefsOf(s: Snapshot): seq<ArtifactRef> {
    (if s.bestCandidateRef.Some? then [s.bestCandidateRef.value] else [])
    + if s.lastScreenshotRef.Some? && s.lastScreenshotRef != s.bestCandidateRef then [s.lastScreenshotRef.value] else []
  }

  /** `serialize` of the request an emit builds: no clock, trace or evidence goes into it. */
  function DraftOf(s: Snapshot): Draft {
    Draft(s.taskId, None, "", if s.lastUrl.Some? then [s.lastUrl.value] else [], [],
          ["emergency_emit", "worker_crashed"], ArtifactRefsOf(s), None, s.lastScreenshotRef)
  }

  function ReportOf(executionId: string, f: Facts): Report {
    Report(executionId, f.snapshot.taskId, None, f.snapshot.lastPersistedEventSeq, f.snapshot.terminalState,
           f.snapshot.bestCandidateRef, |f.trace.events|, |f.evidence.evidence|,
           |f.trace.warnings|, |f.evidence.warnings|, f.now)
  }

  function ReceiptOf(codec: EmitCodec, executionId: string, f: Facts): Receipt {
    var draft := codec.encodeDraft(DraftOf(f.snapshot));
    Receipt(executionId, f.snapshot.taskId, None, codec.digest(draft), |draft|, f.now, false)
  }

  /** The three files of the emit directory. */
  datatype EmitDir = EmitDir(draft: Option<Bytes>, report: Option<Bytes>, receipt: Option<Bytes>)

  const EMPTY_DIR := EmitDir(None, None, None)

  /** The directory after the first `written` files of an emit from `f` have replaced those of `d`. */
  function Written(codec: EmitCodec, executionId: string, d: EmitDir, f: Facts, written: nat): EmitDir {
    EmitDir(
      if written >= 1 then Some(codec.encodeDraft(DraftOf(f.snapshot))) else d.draft,
      if written >= 2 then Some(codec.encodeReport(ReportOf(executionId, f))) else d.report,
      if written >= 3 then Some(codec.encodeReceipt(ReceiptOf(codec, executionId, f))) else d.receipt)
  }

  /** All three files come from one emit. */
  ghost predicate FromOneEmit(codec: EmitCodec, executionId: string, d: EmitDir) {
    exists f: Facts :: d == Written(codec, executionId, EMPTY_DIR, f, 3)
  }

  /** A receipt is only ever on disk with the draft and the report of its own emit. */
  ghost predicate Consistent(codec: EmitCodec, executionId: string, d: EmitDir) {
    d.receipt.Some? ==> FromOneEmit(codec, executionId, d)
  }

  /** What a draft must hold of a snapshot: both references, the candidate first, and neither twice. */
  ghost predicate DraftShows(d: Draft, s: Snapshot) {
    && d.taskId == s.taskId && d.mappedStatus == None && d.agentAnswer == "" && d.actions == []
    && d.decisionSummaries == ["emergency_emit", "worker_crashed"]
    && d.captureRef == None && d.terminalScreenshotRef == s.lastScreenshotRef
    && |d.urls| <= 1 && (forall url :: url in d.urls <==> s.lastUrl == Some(url))
    && (forall ref :: ref in d.artifactRefs <==> s.bestCandidateRef == Some(ref) || s.lastScreenshotRef == Some(ref))
    && (forall i, j :: 0 <= i < j < |d.artifactRefs| ==> d.artifactRefs[i] != d.artifactRefs[j])
    && (s.bestCandidateRef.Some? ==> d.artifactRefs != [] && d.artifactRefs[0] == s.bestCandidateRef.value)
  }

  /** What a report must hold of what survived. */
  predicate ReportShows(r: Report, executionId: string, f: Facts) {
    && r.executionId == executionId && r.taskId == f.snapshot.taskId && r.mappedStatus == None
    && r.snapshotLastSeq == f.snapshot.lastPersistedEventSeq
    && r.snapshotTerminalState == f.snapshot.terminalState && r.bestCandidateRef == f.snapshot.bestCandidateRef
    && r.traceEvents == |f.trace.events| && r.traceWarnings == |f.trace.warnings|
    && r.evidence == |f.evidence.evidence| && r.evidenceWarnings == |f.evidence.warnings|
    && r.emittedAt == f.now
  }

  /** What a receipt must hold of the draft it stands for. */
  predicate ReceiptShows(codec: EmitCodec, r: Receipt, executionId: string, f: Facts, draft: Bytes) {
    && r.executionId == executionId && r.taskId == f.snapshot.taskId && r.mappedStatus == None
    && r.draftSha256 == codec.digest(draft) && r.draftByteSize == |draft|
    && r.emittedAt == f.now && !r.idempotent
  }

  /** The three files of an emit that returned `receipt`, as their validators read them. */
  ghost predicate DirShows(codec: EmitCodec, executionId: string, d: EmitDir, f: Facts, receipt: Receipt) {
    && d.draft.Some? && codec.decodeDraft(d.draft.value).Some?
    && DraftShows(codec.decodeDraft(d.draft.value).value, f.snapshot)
    && d.report.Some? && codec.decodeReport(d.report.value).Some?
    && ReportShows(codec.decodeReport(d.report.value).value, executionId, f)
    && d.receipt.Some? && codec.decodeReceipt(d.receipt.value) == Some(receipt)
    && ReceiptShows(codec, receipt, executionId, f, d.draft.value)
  }

  lemma DraftOfShows(s: Snapshot)
    ensures DraftShows(DraftOf(s), s)
  {
  }

  lemma WrittenShows(codec: EmitCodec, executionId: string, f: Facts)
    requires Lawful(codec)
    ensures DirShows(codec, executionId, Written(codec, executionId, EMPTY_DIR, f, 3), f,
                     ReceiptOf(codec, executionId, f))
  {
    hide DraftShows;
    DraftOfShows(f.snapshot);
  }

  /** Unavailable: the directory itself could not be made. */
  datatype EmitError = InvalidInput | Corruption | PersistFailed | Unavailable

  datatype FileName = DraftFile | ReportFile | ReceiptFile

  /** The emit directory: its three files, and temporary files that only a kill or a failed removal leaves. */
  class EmitDirectory {
    var dir: EmitDir
    var temps: map<nat, Bytes>
    var seen: seq<EmitDir>          // every state of the three files another process could have found, in order
    ghost var faults: nat           // operations that raised
    ghost var synced: set<nat>      // temporary files whose content was synced
    ghost var hasty: set<FileName>  // files replaced by content that was not

    constructor ()
      ensures dir == EMPTY_DIR && temps == map[] && seen == [] && faults == 0 && hasty == {}
    {
      dir, temps, seen, faults, synced, hasty := EMPTY_DIR, map[], [], 0, {}, {};
    }

    static function Put(d: EmitDir, name: FileName, payload: Bytes): EmitDir {
      match name
      case DraftFile => d.(draft := Some(payload))
      case ReportFile => d.(report := Some(payload))
      case ReceiptFile => d.(receipt := Some(payload))
    }

    /** Nothing another process could find has changed; an operation raised exactly if `ok` is false. */
    twostate predicate Unseen(ok: bool)
      reads this
    {
      dir == old(dir) && seen == old(seen) && hasty == old(hasty) && faults == old(faults) + if ok then 0 else 1
    }

    /** Reading a file that is there, or making the directory: only whether it raises matters. */
    method Access() returns (ok: bool)
      modifies this
      ensures Unseen(ok) && temps == old(temps)
    {
      ok := *;
      if !ok { faults := faults + 1; }
    }

    method CreateTemp() returns (created: Option<nat>)
      modifies this
      ensures Unseen(created.Some?) && synced <= old(synced)
      ensures created == None ==> temps == old(temps)
      ensures created.Some? ==> created.value !in old(temps) && temps == old(temps)[created.value := []]
    {
      if * {
        faults := faults + 1;
        return None;
      }
      var t :| t !in temps.Keys by { SomeIsFree(temps.Keys); }
      temps, synced := temps[t := []], synced - {t};
      return Some(t);
    }

    /** A write that raises may have stored anything. */
    method WriteTemp(t: nat, payload: Bytes) returns (ok: bool)
      requires t in temps
      modifies this
      ensures Unseen(ok) && synced == old(synced) && t in temps && temps == old(temps)[t := temps[t]]
      ensures ok ==> temps[t] == payload
    {
      ok := *;
      var stored: Bytes := *;
      temps := temps[t := if ok then payload else stored];
      if !ok { faults := faults + 1; }
    }

    method SyncTemp(t: nat) returns (ok: bool)
      modifies this
      ensures Unseen(ok) && temps == old(temps) && synced == if ok then old(synced) + {t} else old(synced)
    {
      ok := *;
      if ok { synced := synced + {t}; } else { faults := faults + 1; }
    }

    /** `os.replace`: the file becomes the temporary file in one step. */
    method Replace(t: nat, name: FileName) returns (ok: bool)
      requires t in temps
      modifies this
      ensures !ok ==> Unseen(false) && temps == old(temps)
      ensures ok ==> dir == Put(old(dir), name, old(temps[t])) && seen == old(seen) + [dir]
                     && temps == old(temps) - {t} && faults == old(faults)
                     && hasty == old(hasty) + (if t in old(synced) then {} else {name})
    {
      ok := *;
      if ok {
        dir := Put(dir, name, temps[t]);
        seen, hasty := seen + [dir], hasty + (if t in synced then {} else {name});
        temps := temps - {t};
      } else {
        faults := faults + 1;
      }
    }

    method UnlinkTemp(t: nat) returns (ok: bool)
      modifies this
      ensures Unseen(ok) && temps == if ok then old(temps) - {t} else old(temps)
    {
      ok := *;
      if ok { temps := temps - {t}; } else { faults := faults + 1; }
    }

    /** `_atomic_write_bytes`. It succeeds exactly if no step raises; whichever does, the file is replaced as a whole,
        with synced content, or not at all. */
    method AtomicWrite(name: FileName, payload: Bytes) returns (ok: bool)
      modifies this
      ensures faults >= old(faults) && (ok <==> faults == old(faults))
      ensures ok ==> dir == Put(old(dir), name, payload) && seen == old(seen) + [dir] && temps == old(temps)
      ensures (dir == old(dir) && seen == old(seen))
              || (dir == Put(old(dir), name, payload) && seen == old(seen) + [dir])
      ensures hasty == old(hasty)
      ensures faults <= old(faults) + 1 ==> temps == old(temps)
    {
      var created := CreateTemp();
      if created == None { return false; }
      var t := created.value;
      assert temps - {t} == old(temps);
      ok := WriteTemp(t, payload);
      assert temps - {t} == old(temps);
      if ok { ok := SyncTemp(t); }
      if ok { ok := Replace(t, name); }
      if !ok {
        var _ := UnlinkTemp(t);
        return;
      }
      ok := Access();
    }
  }

  lemma SomeIsFree(used: set<nat>)
    ensures exists t: nat :: t !in used
  {
    var left, n: nat := used, 0;
    while n in left
      invariant forall u <- used :: u in left || u < n
      decreases left
    {
      left, n := left - {n}, n + 1;
    }
    assert n !in used;
  }

  /** The receipt is for this execution, and carries the digest of the well-formed draft beside it. */
  predicate Intact(codec: EmitCodec, executionId: string, d: EmitDir) {
    && d.receipt.Some? && d.draft.Some? && codec.decodeDraft(d.draft.value).Some?
    && var receipt := codec.decodeReceipt(d.receipt.value);
       && receipt.Some? && receipt.value.executionId == executionId
       && receipt.value.draftSha256 == codec.digest(d.draft.value)
  }

  function Existing(codec: EmitCodec, executionId: string, d: EmitDir): Receipt
    requires Intact(codec, executionId, d)
  {
    codec.decodeReceipt(d.receipt.value).value.(idempotent := true)
  }

  /** The receipt an emit has left is intact, and is the one it wrote. */
  lemma ConsistentIsIntact(codec: EmitCodec, executionId: string, d: EmitDir)
    requires Lawful(codec) && Consistent(codec, executionId, d) && d.receipt.Some?
    ensures Intact(codec, executionId, d)
    ensures d.receipt == Some(codec.encodeReceipt(Existing(codec, executionId, d).(idempotent := false)))
  {
    var f: Facts :| d == Written(codec, executionId, EMPTY_DIR, f, 3);
  }

  /** `_load_existing_receipt`: every receipt on disk is returned if it is intact and no read raised. */
  method LoadExistingReceipt(codec: EmitCodec, directory: EmitDirectory, executionId: string)
    returns (r: Result<Option<Receipt>, EmitError>)
    modifies directory
    ensures directory.dir == old(directory.dir) && directory.seen == old(directory.seen)
    ensures directory.temps == old(directory.temps) && directory.hasty == old(directory.hasty)
    ensures directory.faults >= old(directory.faults)
    ensures directory.dir.receipt == None ==> r == Ok(None) && directory.faults == old(directory.faults)
    ensures directory.dir.receipt.Some? ==>
              r == if directory.faults == old(directory.faults) && Intact(codec, executionId, directory.dir)
                   then Ok(Some(Existing(codec, executionId, directory.dir)))
                   else Err(Corruption)
  {
    var d := directory.dir;
    if d.receipt == None { return Ok(None); }
    var readable := directory.Access();
    if !readable { return Err(Corruption); }
    var receipt := codec.decodeReceipt(d.receipt.value);
    if receipt == None || receipt.value.executionId != executionId { return Err(Corruption); }
    if d.draft == None { return Err(Corruption); }
    readable := directory.Access();
    if !readable { return Err(Corruption); }
    if codec.decodeDraft(d.draft.value) == None { return Err(Corruption); }
    if codec.digest(d.draft.value) != receipt.value.draftSha256 { return Err(Corruption); }
    return Ok(Some(receipt.value.(idempotent := true)));
  }

  /** The codecs and limits an emitter is built with. */
  datatype Emitter = Emitter(
    emit: EmitCodec,
    trace: Codec,
    evidence: EvidenceCodec,
    maxEventBytes: nat,
    mapStatus: string -> Option<string>)

  /** What the execution directory holds when an emit looks at it. */
  datatype Survivors = Survivors(snapshot: Option<Snapshot>, trace: Option<Bytes>, evidence: Option<Bytes>, now: string)

  ghost predicate TraceIs(e: Emitter, s: Survivors, trace: TraceReadResult) {
    if s.trace == None then trace == TraceReadResult([], [])
    else exists lines, tail :: Recovers(e.trace, e.maxEventBytes, s.trace.value, lines, tail, trace)
  }

  ghost predicate EvidenceIs(e: Emitter, executionId: string, s: Survivors, evidence: EvidenceReadResult) {
    if s.evidence == None then evidence == EvidenceReadResult([], [])
    else exists lines, tail ::
           RecoversEvidence(e.evidence, executionId, e.maxEventBytes, s.evidence.value, lines, tail, evidence)
  }

  /** `f` is what survived, and it meets every condition an emit checks. */
  ghost predicate Emittable(e: Emitter, executionId: string, s: Survivors, f: Facts) {
    && s.snapshot == Some(f.snapshot) && f.snapshot.executionId == executionId && f.now == s.now
    && TraceIs(e, s, f.trace) && EvidenceIs(e, executionId, s, f.evidence)
    && f.snapshot.lastPersistedEventSeq <= |f.trace.events|
    && e.mapStatus("WORKER_CRASHED") == None
  }

  /** Why `s` cannot be emitted: a log is corrupt, or what survived breaks one of the conditions. */
  ghost predicate Refused(e: Emitter, executionId: string, s: Survivors, error: EmitError) {
    match error
    case Corruption =>
      || (s.trace.Some? && exists lines, bad :: CorruptAfter(Good(e.trace), e.maxEventBytes, s.trace.value, lines, bad))
      || (s.evidence.Some? && exists lines, bad ::
            CorruptAfter(GoodAtoms(e.evidence, executionId), e.maxEventBytes, s.evidence.value, lines, bad))
    case InvalidInput =>
      || s.snapshot == None || s.snapshot.value.executionId != executionId || e.mapStatus("WORKER_CRASHED").Some?
      || exists t :: TraceIs(e, s, t) && s.snapshot.value.lastPersistedEventSeq > |t.events|
    case PersistFailed | Unavailable => false
  }

  method Gather(e: Emitter, executionId: string, s: Survivors) returns (r: Result<Facts, EmitError>)
    requires e.maxEventBytes > 0
    ensures r.Ok? ==> Emittable(e, executionId, s, r.value)
    ensures r.Err? ==> Refused(e, executionId, s, r.error) && forall f :: !Emittable(e, executionId, s, f)
  {
    if s.snapshot == None || s.snapshot.value.executionId != executionId { return Err(InvalidInput); }
    var snapshot := s.snapshot.value;
    var trace, evidence := TraceReadResult([], []), EvidenceReadResult([], []);
    if s.trace.Some? {
      var read, lines, tail := ReadTrace(e.trace, s.trace.value, e.maxEventBytes);
      if read.Err? {
        forall lines', tail', t ensures !Recovers(e.trace, e.maxEventBytes, s.trace.value, lines', tail', t) {
          CorruptIsUnreadable(Good(e.trace), e.maxEventBytes, s.trace.value, lines, tail, lines', tail');
        }
        return Err(Corruption);
      }
      trace := read.value;
      forall t | TraceIs(e, s, t) ensures t == trace {
        var lines', tail' :| Recovers(e.trace, e.maxEventBytes, s.trace.value, lines', tail', t);
        OneReading(e.trace, e.maxEventBytes, s.trace.value, lines, tail, trace, lines', tail', t);
      }
    }
    assert TraceIs(e, s, trace);
    if s.trace == None && snapshot.lastPersistedEventSeq != 0 { return Err(InvalidInput); }
    if s.evidence.Some? {
      var read, lines, tail := ReadEvidence(e.evidence, s.evidence.value, executionId, e.maxEventBytes);
      if read.Err? {
        forall lines', tail', t
          ensures !RecoversEvidence(e.evidence, executionId, e.maxEventBytes, s.evidence.value, lines', tail', t)
        {
          CorruptIsUnreadable(GoodAtoms(e.evidence, executionId), e.maxEventBytes, s.evidence.value,
                              lines, tail, lines', tail');
        }
        return Err(Corruption);
      }
      evidence := read.value;
    }
    if snapshot.lastPersistedEventSeq > |trace.events| { return Err(InvalidInput); }
    if e.mapStatus("WORKER_CRASHED") != None { return Err(InvalidInput); }
    return Ok(Facts(snapshot, trace, evidence, s.now));
  }

  lemma OneReading(codec: Codec, max: nat, data: Bytes, lines: seq<Bytes>, tail: Bytes, t: TraceReadResult,
                   lines': seq<Bytes>, tail': Bytes, t': TraceReadResult)
    requires Recovers(codec, max, data, lines, tail, t) && Recovers(codec, max, data, lines', tail', t')
    ensures t == t'
  {
    FramingUnique(data, lines, tail, lines', tail');
    assert forall i :: 0 <= i < |lines| ==> codec.parse(lines[i]) == Envelope(t.events[i]) == Envelope(t'.events[i]);
    assert t.events == t'.events;
  }

  /** What an emit from `f` can leave, or show if it is killed: nothing changes once there is a receipt. */
  ghost predicate EmitShows(codec: EmitCodec, executionId: string, d: EmitDir, f: Facts, d': EmitDir) {
    if d.receipt.Some? then d' == d
    else exists n: nat :: n <= 3 && d' == Written(codec, executionId, d, f, n)
  }

  /** An emit from `f` ended: with its receipt, or with an error that says how far it can have got. */
  ghost predicate Ended(codec: EmitCodec, executionId: string, f: Facts, r: Result<Receipt, EmitError>, d: EmitDir) {
    match r
    case Ok(receipt) =>
      receipt == ReceiptOf(codec, executionId, f) && d == Written(codec, executionId, EMPTY_DIR, f, 3)
    case Err(error) =>
      || error in {PersistFailed, Unavailable}
      || (error == Corruption && d == Written(codec, executionId, EMPTY_DIR, f, 3))
  }

  /** Emit once. With a receipt on disk it writes nothing, and returns that receipt exactly if it is intact and
      nothing raises; without, it writes draft, report, receipt, in that order, exactly if the survivors allow it and
      nothing raises. */
  method Emit(e: Emitter, directory: EmitDirectory, executionId: string, s: Survivors)
    returns (r: Result<Receipt, EmitError>, ghost facts: Option<Facts>)
    requires Lawful(e.emit) && e.maxEventBytes > 0
    modifies directory
    ensures old(Consistent(e.emit, executionId, directory.dir)) ==> Consistent(e.emit, executionId, directory.dir)
    ensures old(directory.seen) <= directory.seen && directory.hasty == old(directory.hasty)
    ensures directory.faults >= old(directory.faults)
    ensures old(directory.dir.receipt.Some?) ==>
              && facts == None
              && r == if directory.faults == old(directory.faults) && old(Intact(e.emit, executionId, directory.dir))
                      then Ok(old(Existing(e.emit, executionId, directory.dir))) else Err(Corruption)
    ensures facts == None ==> directory.dir == old(directory.dir) && directory.seen == old(directory.seen)
    ensures facts.Some? ==> Emittable(e, executionId, s, facts.value)
    ensures facts.Some? ==> forall d <- directory.seen[|old(directory.seen)|..] + [directory.dir] ::
              EmitShows(e.emit, executionId, old(directory.dir), facts.value, d)
    ensures old(directory.dir.receipt) == None && facts == None ==>
              r.Err? && Refused(e, executionId, s, r.error) && forall f :: !Emittable(e, executionId, s, f)
    ensures old(directory.dir.receipt) == None ==>
              (r.Ok? <==> directory.faults == old(directory.faults) && exists f :: Emittable(e, executionId, s, f))
    ensures facts.Some? ==> Ended(e.emit, executionId, facts.value, r, directory.dir)
    ensures facts.Some? && r.Ok? ==> DirShows(e.emit, executionId, directory.dir, facts.value, r.value)
    ensures facts.Some? && r.Ok? ==> |directory.seen| == |old(directory.seen)| + 3
  {
    facts := None;
    var existing := LoadExistingReceipt(e.emit, directory, executionId);
    if existing.Err? { return Err(existing.error), facts; }
    if existing.value.Some? { return Ok(existing.value.value), facts; }
    var gathered := Gather(e, executionId, s);
    if gathered.Err? { return Err(gathered.error), facts; }
    facts := Some(gathered.value);
    WrittenShows(e.emit, executionId, gathered.value);
    r := WriteAll(e.emit, directory, executionId, gathered.value);
  }

  method WriteAll(codec: EmitCodec, directory: EmitDirectory, executionId: string, f: Facts)
    returns (r: Result<Receipt, EmitError>)
    requires Lawful(codec) && directory.dir.receipt == None
    modifies directory
    ensures old(directory.seen) <= directory.seen && directory.hasty == old(directory.hasty)
    ensures forall d <- directory.seen[|old(directory.seen)|..] + [directory.dir] ::
              EmitShows(codec, executionId, old(directory.dir), f, d)
    ensures Consistent(codec, executionId, directory.dir)
    ensures directory.faults >= old(directory.faults) && (r.Ok? <==> directory.faults == old(directory.faults))
    ensures Ended(codec, executionId, f, r, directory.dir)
    ensures r.Ok? ==> |directory.seen| == |old(directory.seen)| + 3
  {
    ghost var d := directory.dir;
    var draft, receipt := DraftOf(f.snapshot), ReceiptOf(codec, executionId, f);
    assert Written(codec, executionId, d, f, 0) == d;
    var ok := directory.Access();
    if !ok { return Err(Unavailable); }
    ok := directory.AtomicWrite(DraftFile, codec.encodeDraft(draft));
    assert directory.dir in {d, Written(codec, executionId, d, f, 1)};
    if !ok { return Err(PersistFailed); }
    ok := directory.AtomicWrite(ReportFile, codec.encodeReport(ReportOf(executionId, f)));
    assert directory.dir in {Written(codec, executionId, d, f, 1), Written(codec, executionId, d, f, 2)};
    if !ok { return Err(PersistFailed); }
    ok := directory.AtomicWrite(ReceiptFile, codec.encodeReceipt(receipt));
    assert directory.dir in {Written(codec, executionId, d, f, 2), Written(codec, executionId, d, f, 3)};
    assert Written(codec, executionId, d, f, 3) == Written(codec, executionId, EMPTY_DIR, f, 3);
    if !ok { return Err(PersistFailed); }
    ok := VerifyWrittenDraft(codec, directory, draft);
    return if ok then Ok(receipt) else Err(Corruption);
  }

  /** `_verify_written_draft`: the draft reads back as what was written, unless the read raises. */
  method VerifyWrittenDraft(codec: EmitCodec, directory: EmitDirectory, expected: Draft) returns (ok: bool)
    modifies directory
    ensures directory.Unseen(ok || directory.faults == old(directory.faults))
    ensures ok <==> directory.faults == old(directory.faults)
                    && directory.dir.draft.Some? && codec.decodeDraft(directory.dir.draft.value) == Some(expected)
  {
    var readable := directory.Access();
    if !readable || directory.dir.draft == None { return false; }
    return codec.decodeDraft(directory.dir.draft.value) == Some(expected);
  }

  /** Emits of one execution, one after the other: each completed, killed between two writes, or failed.
      The snapshot, the logs and the clock may be different for each. */
  ghost predicate EmitHistory(codec: EmitCodec, executionId: string, dirs: seq<EmitDir>, emits: seq<Facts>) {
    && |dirs| == |emits| + 1 && dirs[0] == EMPTY_DIR
    && forall i :: 0 <= i < |emits| ==> EmitShows(codec, executionId, dirs[i], emits[i], dirs[i + 1])
  }

  lemma ShownIsConsistent(codec: EmitCodec, executionId: string, d: EmitDir, f: Facts, d': EmitDir)
    requires Consistent(codec, executionId, d) && EmitShows(codec, executionId, d, f, d')
    ensures Consistent(codec, executionId, d')
  {
    if d.receipt == None && d'.receipt.Some? {
      assert d' == Written(codec, executionId, EMPTY_DIR, f, 3);
    }
  }

  lemma OneMoreEmit(codec: EmitCodec, executionId: string, dirs: seq<EmitDir>, emits: seq<Facts>, f: Facts, d: EmitDir)
    requires EmitHistory(codec, executionId, dirs, emits) && EmitShows(codec, executionId, dirs[|emits|], f, d)
    ensures EmitHistory(codec, executionId, dirs + [d], emits + [f])
  {
    var dirs', emits' := dirs + [d], emits + [f];
    forall i | 0 <= i < |emits'| ensures EmitShows(codec, executionId, dirs'[i], emits'[i], dirs'[i + 1]) {
      assert i < |emits| ==> EmitShows(codec, executionId, dirs[i], emits[i], dirs[i + 1]);
    }
  }

  /** An emit that may be killed after any of its writes. */
  method EmitOrDie(e: Emitter, directory: EmitDirectory, executionId: string, s: Survivors)
    returns (ghost facts: Option<Facts>)
    requires Lawful(e.emit) && e.maxEventBytes > 0 && Consistent(e.emit, executionId, directory.dir)
    modifies directory
    ensures Consistent(e.emit, executionId, directory.dir) && directory.faults >= old(directory.faults)
    ensures facts == None ==> directory.dir == old(directory.dir)
    ensures facts.Some? ==> Emittable(e, executionId, s, facts.value)
                            && EmitShows(e.emit, executionId, old(directory.dir), facts.value, directory.dir)
  {
    var start, shown := directory.dir, |directory.seen|;
    var r, emitted := Emit(e, directory, executionId, s);
    facts := emitted;
    if * {
      var possible := [start] + directory.seen[shown..];
      var at :| 0 <= at < |possible|;
      assert facts.Some? ==> start == Written(e.emit, executionId, start, facts.value, 0);
      assert at > 0 ==> possible[at] in directory.seen[shown..];
      directory.dir := possible[at];
    }
    if facts.Some? {
      ShownIsConsistent(e.emit, executionId, start, facts.value, directory.dir);
    }
  }

  ghost predicate FromARun(e: Emitter, executionId: string, runs: seq<Survivors>, f: Facts) {
    exists s <- runs :: Emittable(e, executionId, s, f)
  }

  /** Any number of emits, one after the other: what the directory goes through is a history of emits
      that were allowed. */
  method AnyEmits(e: Emitter, directory: EmitDirectory, executionId: string, runs: seq<Survivors>)
    returns (ghost dirs: seq<EmitDir>, ghost emits: seq<Facts>)
    requires Lawful(e.emit) && e.maxEventBytes > 0 && directory.dir == EMPTY_DIR
    modifies directory
    ensures EmitHistory(e.emit, executionId, dirs, emits) && dirs[|emits|] == directory.dir
    ensures directory.faults >= old(directory.faults)
    ensures forall f <- emits :: FromARun(e, executionId, runs, f)
  {
    dirs, emits := [directory.dir], [];
    for i := 0 to |runs|
      invariant EmitHistory(e.emit, executionId, dirs, emits) && dirs[|emits|] == directory.dir
      invariant Consistent(e.emit, executionId, directory.dir) && directory.faults >= old(directory.faults)
      invariant forall f <- emits :: FromARun(e, executionId, runs, f)
    {
      ghost var facts := EmitOrDie(e, directory, executionId, runs[i]);
      if facts.Some? {
        assert FromARun(e, executionId, runs, facts.value) by { assert runs[i] in runs; }
        OneMoreEmit(e.emit, executionId, dirs, emits, facts.value, directory.dir);
        dirs, emits := dirs + [directory.dir], emits + [facts.value];
      }
    }
  }

  /** `j` is the emit whose three files are on disk. */
  ghost predicate WroteReceipt(codec: EmitCodec, executionId: string, dirs: seq<EmitDir>, emits: seq<Facts>,
                               i: nat, j: nat) {
    && j < i < |dirs| && |dirs| == |emits| + 1 && dirs[j].receipt == None
    && dirs[i] == Written(codec, executionId, EMPTY_DIR, emits[j], 3)
  }

  /** Receipt last: a receipt on disk was written by one of the emits, together with that emit's draft and
      report, and its digest is the draft's; and from then on the directory never changes. */
  lemma {:induction false} ReceiptLast(codec: EmitCodec, executionId: string, dirs: seq<EmitDir>,
                                       emits: seq<Facts>, i: nat)
    returns (j: nat)
    requires EmitHistory(codec, executionId, dirs, emits) && i < |dirs| && dirs[i].receipt.Some?
    ensures WroteReceipt(codec, executionId, dirs, emits, i, j)
    ensures var receipt := ReceiptOf(codec, executionId, emits[j]);
            && dirs[i].receipt == Some(codec.encodeReceipt(receipt))
            && dirs[i].draft.Some? && receipt.draftSha256 == codec.digest(dirs[i].draft.value)
            && receipt.draftByteSize == |dirs[i].draft.value|
    ensures forall k :: j < k < |dirs| ==> dirs[k] == dirs[i]
  {
    assert EmitShows(codec, executionId, dirs[i - 1], emits[i - 1], dirs[i]);
    if dirs[i - 1].receipt.Some? {
      j := ReceiptLast(codec, executionId, dirs, emits, i - 1);
    } else {
      j := i - 1;
      var n: nat :| n <= 3 && dirs[i] == Written(codec, executionId, dirs[j], emits[j], n);
      ReceiptStays(codec, executionId, dirs, emits, i);
    }
  }

  lemma {:induction false} ReceiptStays(codec: EmitCodec, executionId: string, dirs: seq<EmitDir>,
                                        emits: seq<Facts>, i: nat)
    requires EmitHistory(codec, executionId, dirs, emits) && i < |dirs| && dirs[i].receipt.Some?
    ensures forall k :: i <= k < |dirs| ==> dirs[k] == dirs[i]
    decreases |dirs| - i
  {
    if i + 1 < |dirs| {
      assert EmitShows(codec, executionId, dirs[i], emits[i], dirs[i + 1]);
      ReceiptStays(codec, executionId, dirs, emits, i + 1);
    }
  }

  /** As long as the snapshot stays the same, any draft on disk is the draft of that snapshot, whatever
      the logs and the clock say and wherever earlier emits were killed; so a receipt's digest is too. */
  lemma {:induction false} DraftConverges(codec: EmitCodec, executionId: string, dirs: seq<EmitDir>, emits: seq<Facts>,
                                          snapshot: Snapshot, i: nat)
    requires EmitHistory(codec, executionId, dirs, emits) && i < |dirs|
    requires forall f <- emits :: f.snapshot == snapshot
    ensures dirs[i].draft in {None, Some(codec.encodeDraft(DraftOf(snapshot)))}
    ensures Lawful(codec) && dirs[i].receipt.Some? ==>
              && dirs[i].draft == Some(codec.encodeDraft(DraftOf(snapshot)))
              && codec.decodeReceipt(dirs[i].receipt.value).Some?
              && codec.decodeReceipt(dirs[i].receipt.value).value.draftSha256
                 == codec.digest(codec.encodeDraft(DraftOf(snapshot)))
  {
    if i > 0 {
      DraftConverges(codec, executionId, dirs, emits, snapshot, i - 1);
      assert EmitShows(codec, executionId, dirs[i - 1], emits[i - 1], dirs[i]);
      assert emits[i - 1] in emits;
    }
  }

  /** Emitting twice, whatever survives and whatever the clock says the second time: with nothing raised, the second
      call changes nothing and returns the receipt of the first, marked idempotent. */
  method EmitTwice(e: Emitter, directory: EmitDirectory, executionId: string, s: Survivors, later: Survivors)
    returns (first: Result<Receipt, EmitError>, second: Result<Receipt, EmitError>)
    requires Lawful(e.emit) && e.maxEventBytes > 0
    modifies directory
    ensures directory.faults == old(directory.faults) && old(directory.dir.receipt) == None ==>
              (first.Ok? <==> exists f :: Emittable(e, executionId, s, f))
    ensures directory.faults == old(directory.faults) && first.Ok? ==>
              second == Ok(first.value.(idempotent := true))
    ensures first.Ok? && old(directory.dir.receipt) == None ==>
              && !first.value.idempotent
              && directory.dir.receipt == Some(e.emit.encodeReceipt(first.value))
              && |directory.seen| == |old(directory.seen)| + 3
  {
    ghost var facts, again;
    first, facts := Emit(e, directory, executionId, s);
    ghost var left := directory.dir;
    if first.Ok? && facts.Some? {
      assert FromOneEmit(e.emit, executionId, left);
      ConsistentIsIntact(e.emit, executionId, left);
    }
    second, again := Emit(e, directory, executionId, later);
  }

  /** After any history of emits of one snapshot, each killed anywhere: one more emit that nothing disturbs ends with
      the draft of that snapshot and a receipt for it, if there is a receipt already or the survivors allow an emit. */
  method EmitAgain(e: Emitter, directory: EmitDirectory, executionId: string, s: Survivors, snapshot: Snapshot,
                   ghost dirs: seq<EmitDir>, ghost emits: seq<Facts>)
    returns (r: Result<Receipt, EmitError>)
    requires Lawful(e.emit) && e.maxEventBytes > 0 && s.snapshot == Some(snapshot)
    requires EmitHistory(e.emit, executionId, dirs, emits) && directory.dir == dirs[|emits|]
    requires forall f <- emits :: f.snapshot == snapshot
    modifies directory
    ensures directory.faults >= old(directory.faults)
    ensures r.Ok? <==> directory.faults == old(directory.faults)
                       && (old(directory.dir.receipt).Some? || exists f :: Emittable(e, executionId, s, f))
    ensures r.Ok? ==>
              var draft := e.emit.encodeDraft(DraftOf(snapshot));
              && directory.dir.draft == Some(draft) && Intact(e.emit, executionId, directory.dir)
              && e.emit.decodeDraft(draft).Some? && DraftShows(e.emit.decodeDraft(draft).value, snapshot)
              && r.value.draftSha256 == e.emit.digest(draft)
              && r.value.idempotent == old(directory.dir.receipt).Some?
  {
    if directory.dir.receipt.Some? {
      var _ := ReceiptLast(e.emit, executionId, dirs, emits, |emits|);
      DraftConverges(e.emit, executionId, dirs, emits, snapshot, |emits|);
      assert FromOneEmit(e.emit, executionId, directory.dir);
      ConsistentIsIntact(e.emit, executionId, directory.dir);
    }
    ghost var facts;
    DraftOfShows(snapshot);
    r, facts := Emit(e, directory, executionId, s);
    if r.Ok? && facts.Some? {
      assert FromOneEmit(e.emit, executionId, directory.dir);
      ConsistentIsIntact(e.emit, executionId, directory.dir);
    }
  }

  /** So: emits of one snapshot that are killed anywhere, and then one that is not. If nothing raises and the last one
      is allowed, the directory ends with the draft of the snapshot, and the receipt returned is for it. */
  method KilledThenEmitted(e: Emitter, directory: EmitDirectory, executionId: string, runs: seq<Survivors>,
                           s: Survivors, snapshot: Snapshot)
    returns (r: Result<Receipt, EmitError>)
    requires Lawful(e.emit) && e.maxEventBytes > 0 && directory.dir == EMPTY_DIR
    requires s.snapshot == Some(snapshot) && forall run <- runs :: run.snapshot == Some(snapshot)
    modifies directory
    ensures directory.faults == old(directory.faults) && (exists f :: Emittable(e, executionId, s, f)) ==> r.Ok?
    ensures r.Ok? ==>
              && directory.dir.draft == Some(e.emit.encodeDraft(DraftOf(snapshot)))
              && Intact(e.emit, executionId, directory.dir)
              && e.emit.decodeDraft(directory.dir.draft.value).Some?
              && DraftShows(e.emit.decodeDraft(directory.dir.draft.value).value, snapshot)
              && r.value.draftSha256 == e.emit.digest(directory.dir.draft.value)
  {
    ghost var dirs, emits := AnyEmits(e, directory, executionId, runs);
    forall f <- emits ensures f.snapshot == snapshot {
      assert FromARun(e, executionId, runs, f);
    }
    r := EmitAgain(e, directory, executionId, s, snapshot, dirs, emits);
  }

  /** If the snapshot counted `k` events only once they were flushed, the emit's check against the
      recovered trace passes for every cut the kill can have left. */
  lemma FlushedSnapshotIsEmittable(e: Emitter, executionId: string, s: Survivors, f: Facts,
                                   events: seq<TraceEnvelope>, n: nat)
    requires IsLog(e.trace, e.maxEventBytes, events) && Faithful(e.trace, events)
    requires f.snapshot.lastPersistedEventSeq <= |events|
    requires |Concat(Lines(e.trace, events)[..f.snapshot.lastPersistedEventSeq])| <= n
    requires n <= |Concat(Lines(e.trace, events))|
    requires s.trace == Some(Concat(Lines(e.trace, events))[..n]) && s.snapshot == Some(f.snapshot) && s.now == f.now
    requires TraceIs(e, s, f.trace) && EvidenceIs(e, executionId, s, f.evidence)
    requires f.snapshot.executionId == executionId && e.mapStatus("WORKER_CRASHED") == None
    ensures Emittable(e, executionId, s, f)
  {
    var lines, tail :| Recovers(e.trace, e.maxEventBytes, s.trace.value, lines, tail, f.trace);
    FlushedEventsSurvive(e.trace, e.maxEventBytes, events, f.snapshot.lastPersistedEventSeq, n, lines, tail, f.trace);
  }

  /** What a killed worker left: its two logs, each cut somewhere. */
  ghost predicate Left(e: Emitter, executionId: string, s: Survivors, events: seq<TraceEnvelope>, n: nat,
                       atoms: seq<EvidenceAtom>, m: nat) {
    && IsLog(e.trace, e.maxEventBytes, events) && Faithful(e.trace, events)
    && IsLedger(e.evidence, executionId, e.maxEventBytes, atoms) && FaithfulEvidence(e.evidence, atoms)
    && n <= |Concat(Lines(e.trace, events))| && m <= |Concat(Records(e.evidence, atoms))|
    && s.trace == Some(Concat(Lines(e.trace, events))[..n])
    && s.evidence == Some(Concat(Records(e.evidence, atoms))[..m])
  }

  /** Neither log gives a reason to refuse, if the trace was cut at or after what the snapshot counts. */
  lemma CutsAreNotRefused(e: Emitter, executionId: string, s: Survivors, events: seq<TraceEnvelope>, n: nat,
                          atoms: seq<EvidenceAtom>, m: nat, error: EmitError)
    requires Left(e, executionId, s, events, n, atoms, m)
    requires s.snapshot.Some? && s.snapshot.value.executionId == executionId && e.mapStatus("WORKER_CRASHED") == None
    requires s.snapshot.value.lastPersistedEventSeq <= |events|
    requires |Concat(Lines(e.trace, events)[..s.snapshot.value.lastPersistedEventSeq])| <= n
    ensures !Refused(e, executionId, s, error)
  {
    forall lines, bad ensures !CorruptAfter(Good(e.trace), e.maxEventBytes, s.trace.value, lines, bad) {
      CutIsNotCorrupt(e.trace, e.maxEventBytes, events, n, lines, bad);
    }
    LedgerPrefix(e.evidence, executionId, e.maxEventBytes, atoms, m);
    forall t | TraceIs(e, s, t) ensures s.snapshot.value.lastPersistedEventSeq <= |t.events| {
      var lines, tail :| Recovers(e.trace, e.maxEventBytes, s.trace.value, lines, tail, t);
      FlushedEventsSurvive(e.trace, e.maxEventBytes, events, s.snapshot.value.lastPersistedEventSeq, n, lines, tail, t);
    }
  }

  /** What an emit works from is what survived of the two logs. */
  lemma CutsAreGathered(e: Emitter, executionId: string, s: Survivors, events: seq<TraceEnvelope>, n: nat,
                        atoms: seq<EvidenceAtom>, m: nat, f: Facts)
    requires Left(e, executionId, s, events, n, atoms, m) && Emittable(e, executionId, s, f)
    ensures SurvivesCut(e.trace, events, n, f.trace)
    ensures f.evidence.evidence == atoms[..WholeLines(Records(e.evidence, atoms), m)]
  {
    var lines, tail :| Recovers(e.trace, e.maxEventBytes, s.trace.value, lines, tail, f.trace);
    TornTail(e.trace, e.maxEventBytes, events, n, lines, tail, f.trace);
    LedgerPrefix(e.evidence, executionId, e.maxEventBytes, atoms, m);
  }

  /** From end to end: a worker that was killed anywhere, with a snapshot that counted only events flushed by
      then, can always be emitted, and what is emitted is what survived of its two logs. */
  method EmitAfterKill(e: Emitter, directory: EmitDirectory, executionId: string, snapshot: Snapshot, now: string,
                       trace: TraceWriter, n: nat, evidence: EvidenceWriter, m: nat)
    returns (r: Result<Receipt, EmitError>, ghost facts: Option<Facts>)
    requires Lawful(e.emit) && directory.dir.receipt == None && e.mapStatus("WORKER_CRASHED") == None
    requires trace.Valid() && trace.codec == e.trace && trace.maxEventBytes == e.maxEventBytes
    requires evidence.Valid() && evidence.codec == e.evidence && evidence.maxEventBytes == e.maxEventBytes
    requires evidence.executionId == executionId == snapshot.executionId
    requires Faithful(e.trace, trace.events) && FaithfulEvidence(e.evidence, evidence.atoms)
    requires trace.file.flushed <= n <= |trace.file.written| && m <= |evidence.file.written|
    requires snapshot.lastPersistedEventSeq <= trace.safe
    modifies directory
    ensures r.Ok? <==> directory.faults == old(directory.faults)
    ensures facts.Some? && Ended(e.emit, executionId, facts.value, r, directory.dir)
    ensures facts.Some? ==>
              && facts.value.snapshot == snapshot
              && SurvivesCut(e.trace, trace.events, n, facts.value.trace)
              && facts.value.evidence.evidence == evidence.atoms[..WholeLines(Records(e.evidence, evidence.atoms), m)]
  {
    var s := Survivors(Some(snapshot), Some(trace.file.written[..n]), Some(evidence.file.written[..m]), now);
    ghost var events, atoms := trace.events, evidence.atoms;
    assert Left(e, executionId, s, events, n, atoms, m);
    ConcatGrows(Lines(e.trace, events), snapshot.lastPersistedEventSeq, trace.safe);
    r, facts := Emit(e, directory, executionId, s);
    if facts == None {
      CutsAreNotRefused(e, executionId, s, events, n, atoms, m, r.error);
    }
    CutsAreGathered(e, executionId, s, events, n, atoms, m, facts.value);
  }
}
