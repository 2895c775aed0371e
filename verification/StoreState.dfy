/** The state an artifact store keeps on disk, what recovery makes of it, and when recovery works. */
module StoreState {
  import opened Wrappers

  /** A relative artifact path, as its POSIX parts. */
  type Path = seq<string>

  const ARTIFACT_ROOTS: set<string> :=
    {"diagnostics", "documents", "model_receipts", "network", "screenshots"}

  predicate Allowed(path: Path) {
    |path| >= 2 && path[0] in ARTIFACT_ROOTS && "" !in path
  }

  function Parent(path: Path): Path {
    if path == [] then [] else path[..|path| - 1]
  }

  /** The JSON identity record of one artifact. */
  datatype Record = Record(artifactId: string, byteSize: int, relativePath: Path, sha256: string)

  /** The content of an identity file. Torn: created, and not yet holding one complete record. */
  datatype Marker = Torn | Whole(record: Record)

  /** What another process finds: `<id>.pending` files, `<id>.json` files, published artifacts and directories. */
  datatype Disk = Disk(
    pending: map<string, Marker>,
    committed: map<string, Marker>,
    targets: map<Path, Bytes>,
    dirs: set<Path>)

  const EMPTY_DISK := Disk(map[], map[], map[], {})

  /** `exists()`: a file or a directory is there. */
  predicate Taken(d: Disk, path: Path) {
    path in d.targets || path in d.dirs
  }

  /** The directories that hold `path`. */
  function Ancestors(path: Path): set<Path> {
    set i | 1 <= i < |path| :: path[..i]
  }

  /** The disk once a put has made the directories that hold its `path`, which it does before it takes the lock. */
  function Ready(d: Disk, path: Path): Disk {
    d.(dirs := d.dirs + Ancestors(path))
  }

  /** It has made some of them. */
  ghost predicate PartlyReady(d: Disk, path: Path, s: Disk) {
    exists k :: 0 <= k <= |path| && s == Ready(d, path[..k]) && Clear(d, path[..k])
  }

  /** No file stands where one of them has to be. */
  predicate Clear(d: Disk, path: Path) {
    forall p <- Ancestors(path) :: p !in d.targets
  }

  lemma OneMoreAncestor(path: Path, k: nat)
    requires 0 < k < |path|
    ensures Ancestors(path[..k + 1]) == Ancestors(path[..k]) + {path[..k]}
  {
    assert forall i :: 1 <= i <= k ==> path[..k + 1][..i] == path[..i];
    assert forall i :: 1 <= i < k ==> path[..k][..i] == path[..i];
    forall p <- Ancestors(path[..k + 1]) ensures p in Ancestors(path[..k]) + {path[..k]} {
      var i :| 1 <= i < k + 1 && p == path[..k + 1][..i];
      if i < k { assert p == path[..k][..i]; }
    }
    forall p <- Ancestors(path[..k]) ensures p in Ancestors(path[..k + 1]) {
      var i :| 1 <= i < k && p == path[..k][..i];
      assert p == path[..k + 1][..i];
    }
    assert path[..k + 1][..k] == path[..k];
  }

  /** The same identity files and artifacts; there may be other directories. */
  predicate SameFiles(a: Disk, b: Disk) {
    a.pending == b.pending && a.committed == b.committed && a.targets == b.targets
  }

  /** SHA-256 as an arbitrary function, and the size limit shared by every store of one run. */
  datatype Config = Config(digest: Bytes -> string, maxArtifactBytes: int)

  /** A put request that passed validation. */
  datatype Deposit = Deposit(artifactId: string, path: Path, content: Bytes)

  datatype ArtifactRef = ArtifactRef(artifactId: string, kind: string, path: Path, sha256: string, byteSize: int)

  function RecordOf(cfg: Config, w: Deposit): Record {
    Record(w.artifactId, |w.content|, w.path, cfg.digest(w.content))
  }

  predicate Fits(cfg: Config, w: Deposit) {
    w.artifactId != "" && Allowed(w.path) && |w.content| <= cfg.maxArtifactBytes
  }

  predicate Matches(cfg: Config, record: Record, content: Bytes) {
    |content| == record.byteSize <= cfg.maxArtifactBytes && cfg.digest(content) == record.sha256
  }

  /** The identity file of `id` reads back as a record for `id` with an allowed path. */
  predicate Reads(marker: Marker, id: string) {
    marker.Whole? && marker.record.artifactId == id && Allowed(marker.record.relativePath)
  }

  predicate SoundPending(cfg: Config, d: Disk, id: string)
    requires id in d.pending
  {
    && Reads(d.pending[id], id)
    && (Adoptable(d, id) ==>
          id !in d.committed && Matches(cfg, d.pending[id].record, d.targets[d.pending[id].record.relativePath]))
    && (!Adoptable(d, id) ==> d.pending[id].record.relativePath !in d.dirs)
  }

  predicate SoundCommitted(cfg: Config, d: Disk, id: string)
    requires id in d.committed
  {
    && Reads(d.committed[id], id)
    && d.committed[id].record.relativePath in d.targets
    && Matches(cfg, d.committed[id].record, d.targets[d.committed[id].record.relativePath])
  }

  /** Every identity file is complete, and every artifact that is claimed is present and intact. */
  predicate Sound(cfg: Config, d: Disk) {
    && (forall id <- d.pending :: SoundPending(cfg, d, id))
    && (forall id <- d.committed :: SoundCommitted(cfg, d, id))
  }

  /** A pending record whose artifact had been published before its owner stopped. */
  predicate Adoptable(d: Disk, id: string)
    requires id in d.pending
  {
    d.pending[id].Whole? && d.pending[id].record.relativePath in d.targets
  }

  /** The disk a completed recovery leaves: published reservations become records, the rest go. */
  function Settle(d: Disk): Disk {
    Disk(map[], d.committed + (map id | id in d.pending && Adoptable(d, id) :: d.pending[id]), d.targets, d.dirs)
  }

  /** `s` can be seen while recovery of `d` runs: some sound pending records are already dealt with,
      each by dropping it or by turning it into a committed record. */
  ghost predicate PartlySettled(cfg: Config, d: Disk, s: Disk) {
    && s.targets == d.targets && s.dirs == d.dirs
    && (forall id <- s.pending :: id in d.pending && s.pending[id] == d.pending[id])
    && (forall id <- d.pending ::
          id in s.pending || (SoundPending(cfg, d, id) && (Adoptable(d, id) ==> id in s.committed)))
    && (forall id <- d.committed :: id in s.committed && s.committed[id] == d.committed[id])
    && (forall id <- s.committed :: id in d.committed || AdoptedFrom(d, s, id))
  }

  ghost predicate AdoptedFrom(d: Disk, s: Disk, id: string)
    requires id in s.committed
  {
    id in d.pending && id !in s.pending && Adoptable(d, id) && s.committed[id] == d.pending[id]
  }

  lemma SettlingKeepsSound(cfg: Config, d: Disk, s: Disk)
    requires PartlySettled(cfg, d, s) && Sound(cfg, d)
    ensures Sound(cfg, s)
  {
    forall id <- s.pending ensures SoundPending(cfg, s, id) { assert SoundPending(cfg, d, id); }
    forall id <- s.committed ensures SoundCommitted(cfg, s, id) {
      if id in d.committed { assert SoundCommitted(cfg, d, id); } else { assert SoundPending(cfg, d, id); }
    }
  }

  lemma SettlingHidesNothing(cfg: Config, d: Disk, s: Disk)
    requires PartlySettled(cfg, d, s) && Sound(cfg, s)
    ensures Sound(cfg, d)
  {
    forall id <- d.pending ensures SoundPending(cfg, d, id) {
      if id in s.pending { assert SoundPending(cfg, s, id); }
    }
    forall id <- d.committed ensures SoundCommitted(cfg, d, id) {
      assert SoundCommitted(cfg, s, id);
    }
  }

  lemma SettlesAlike(cfg: Config, d: Disk, s: Disk, id: string)
    requires PartlySettled(cfg, d, s)
    ensures id in Settle(s).committed <==> id in Settle(d).committed
    ensures id in Settle(d).committed ==> Settle(s).committed[id] == Settle(d).committed[id]
  {
    if id in s.committed && id !in d.committed { assert AdoptedFrom(d, s, id); }
  }

  /** Stopping recovery anywhere and starting again settles the same disk, and never changes whether
      recovery can succeed. */
  lemma InterruptedRecoveryConverges(cfg: Config, d: Disk, s: Disk)
    requires PartlySettled(cfg, d, s)
    ensures Settle(s) == Settle(d)
    ensures Sound(cfg, s) <==> Sound(cfg, d)
  {
    forall id: string
      ensures id in Settle(s).committed <==> id in Settle(d).committed
      ensures id in Settle(d).committed ==> Settle(s).committed[id] == Settle(d).committed[id]
    {
      SettlesAlike(cfg, d, s, id);
    }
    assert Settle(s).committed == Settle(d).committed;
    if Sound(cfg, s) {
      SettlingHidesNothing(cfg, d, s);
    } else if Sound(cfg, d) {
      SettlingKeepsSound(cfg, d, s);
    }
  }

  /** Recovering twice is recovering once. */
  lemma SettleTwice(cfg: Config, d: Disk)
    ensures Settle(Settle(d)) == Settle(d)
    ensures Sound(cfg, d) ==> Sound(cfg, Settle(d))
  {
    var s := Settle(d);
    if Sound(cfg, d) {
      forall id <- s.committed ensures SoundCommitted(cfg, s, id) {
        if id in d.pending { assert SoundPending(cfg, d, id); }
        if id in d.committed { assert SoundCommitted(cfg, d, id); }
      }
    }
  }

  /** How far one put has got, as far as the disk shows. */
  datatype Stage =
    | Absent       // no trace of the put
    | Tearing      // pending file created, record not complete
    | Reserved     // pending record complete
    | Published    // artifact linked at its path
    | Committed    // record renamed to `<id>.json`
    | Orphaned     // record committed, artifact unlinked by a rollback

  /** The disk at one stage of depositing `w` on the settled disk `base`. */
  function At(cfg: Config, base: Disk, w: Deposit, stage: Stage): Disk {
    var record := Whole(RecordOf(cfg, w));
    Disk(
      match stage {
        case Tearing => base.pending[w.artifactId := Torn]
        case Reserved | Published => base.pending[w.artifactId := record]
        case _ => base.pending
      },
      if stage in {Committed, Orphaned} then base.committed[w.artifactId := record] else base.committed,
      if stage in {Published, Committed} then base.targets[w.path := w.content] else base.targets,
      base.dirs)
  }

  /** Neither the id nor the path is taken. */
  predicate Free(base: Disk, w: Deposit) {
    w.artifactId !in base.committed && !Taken(base, w.path)
  }

  /** Recovery puts a put back to before or after, and does so exactly unless the put left a torn
      record or a record without its artifact. */
  lemma StageSettles(cfg: Config, base: Disk, w: Deposit, stage: Stage)
    requires base.pending == map[] && Sound(cfg, base) && Free(base, w) && Fits(cfg, w)
    ensures Sound(cfg, At(cfg, base, w, stage)) <==> stage !in {Tearing, Orphaned}
    ensures stage in {Absent, Reserved} ==> Settle(At(cfg, base, w, stage)) == base
    ensures stage in {Published, Committed} ==> Settle(At(cfg, base, w, stage)) == At(cfg, base, w, Committed)
  {
    StageSound(cfg, base, w, stage);
    var s := At(cfg, base, w, stage);
    assert Settle(s).committed == if stage in {Published, Committed, Orphaned}
                                  then base.committed[w.artifactId := Whole(RecordOf(cfg, w))] else base.committed;
  }

  lemma StageSound(cfg: Config, base: Disk, w: Deposit, stage: Stage)
    requires base.pending == map[] && Sound(cfg, base) && Free(base, w) && Fits(cfg, w)
    ensures Sound(cfg, At(cfg, base, w, stage)) <==> stage !in {Tearing, Orphaned}
  {
    var s := At(cfg, base, w, stage);
    forall id <- base.committed ensures id in s.committed && SoundCommitted(cfg, s, id) {
      assert SoundCommitted(cfg, base, id);
    }
    if stage == Tearing { assert !SoundPending(cfg, s, w.artifactId); }
    if stage == Orphaned { assert !SoundCommitted(cfg, s, w.artifactId); }
  }

  /** One file the store may have to remove. */
  datatype Name = PendingName(id: string) | CommittedName(id: string) | TargetName(path: Path)

  /** An operation on the directory tree that can raise. */
  datatype Op =
    | Looking | MakingDirectory
    | CreatingMarker | WritingMarker | SyncingMarker | SyncingIds | RenamingMarker
    | CreatingTemp | WritingTemp | SyncingTemp | UnlinkingTemp | Linking | SyncingParent
    | Unlinking(name: Name)

  /** What became of a removal: Stuck when the unlink itself raised, NotDurable when only the sync did. */
  datatype Removal = Durable | NotDurable | Stuck

  /** How a put failed: the operation that raised, if one did; how far it had got; and what became of each removal
      of its clean-up that it reached. */
  datatype Cleanup = Cleanup(
    why: Option<Op>, stage: Stage, target: Removal, pending: Removal, record: Removal, tempStuck: bool)

  /** A failure with nothing to remove, or whose removals all worked. */
  function CleanedUp(why: Option<Op>, stage: Stage): Cleanup {
    Cleanup(why, stage, Durable, Durable, Durable, false)
  }

  const NOTHING_TO_CLEAN := CleanedUp(None, Absent)

  /** Raising `op` can be what fails a put at `stage`. */
  predicate CanFail(op: Op, stage: Stage) {
    match stage
    case Absent => op.Looking? || op.CreatingMarker?
    case Tearing => op.WritingMarker?
    case Reserved =>
      || op.SyncingMarker? || op.SyncingIds? || op.CreatingTemp? || op.WritingTemp? || op.SyncingTemp?
      || op.Looking? || op.Linking?
    case Published => op.UnlinkingTemp? || op.SyncingParent? || op.RenamingMarker?
    case Committed => op.SyncingIds?
    case Orphaned => false
  }

  /** Without a raise, a put fails on a conflict or on wrong bytes; and only what is there takes removing. */
  predicate Explained(c: Cleanup) {
    && (if c.why == None then c.stage in {Absent, Reserved} else CanFail(c.why.value, c.stage))
    && (c.stage !in {Published, Committed} ==> c.target.Durable?)
    && (c.stage in {Absent, Committed} ==> c.pending.Durable?)
    && (c.stage != Committed ==> c.record.Durable?)
    && (c.stage in {Absent, Tearing} ==> !c.tempStuck)
  }

  function Ops(why: Option<Op>): seq<Op> {
    if why == None then [] else [why.value]
  }

  function RaisedBy(name: Name, r: Removal): seq<Op> {
    match r
    case Durable => []
    case NotDurable => if name.TargetName? then [SyncingParent] else [SyncingIds]
    case Stuck => [Unlinking(name)]
  }

  /** What the removals of a clean-up raised, in order. */
  function RaisedRemoving(w: Deposit, c: Cleanup): seq<Op> {
    if !c.target.Durable? then RaisedBy(TargetName(w.path), c.target)
    else RaisedBy(PendingName(w.artifactId), c.pending)
         + if c.pending.Stuck? then [] else RaisedBy(CommittedName(w.artifactId), c.record)
  }

  /** The same with the removal of the temporary file, which comes last. */
  function RaisedAfter(w: Deposit, c: Cleanup): seq<Op> {
    RaisedRemoving(w, c) + if c.tempStuck then [UnlinkingTemp] else []
  }

  /** Everything that a failed put raised, in order. */
  function RaisedIn(w: Deposit, c: Cleanup): seq<Op> {
    Ops(c.why) + RaisedAfter(w, c)
  }

  /** The stage that a failed put leaves on disk. */
  function StageLeft(c: Cleanup): Stage {
    match c.stage
    case Absent | Orphaned => Absent
    case Tearing => if c.pending.Stuck? then Tearing else Absent
    case Reserved => if c.pending.Stuck? then Reserved else Absent
    case Published =>
      if c.target.Stuck? then Published else if c.target.NotDurable? || c.pending.Stuck? then Reserved else Absent
    case Committed =>
      if c.target.Stuck? then Committed else if c.target.NotDurable? || c.record.Stuck? then Orphaned else Absent
  }

  /** Of the operations that raised in a failing put, in order: none of those it cannot make good. These are unlinking
      the artifact or the committed record; syncing the removal of the artifact, after a sync that failed the commit;
      and unlinking the pending record, after a write that left it torn. */
  predicate MadeGood(w: Deposit, raised: seq<Op>) {
    && Unlinking(TargetName(w.path)) !in raised
    && Unlinking(CommittedName(w.artifactId)) !in raised
    && !([SyncingIds] <= raised && SyncingParent in raised)
    && !([WritingMarker] <= raised && Unlinking(PendingName(w.artifactId)) in raised)
  }

  /** Raised alone, it is made good. */
  predicate MadeGoodAlone(op: Op) {
    op.Unlinking? ==> op.name.PendingName?
  }

  lemma AloneIsMadeGood(w: Deposit, raised: seq<Op>)
    requires raised == [] || exists op :: MadeGoodAlone(op) && raised == [op]
    ensures MadeGood(w, raised)
  {
  }

  /** A removal raised. */
  predicate GaveUp(c: Cleanup) {
    c.target.Stuck? || c.pending.Stuck? || c.record.Stuck?
  }

  /** A clean-up that gave up at the artifact. */
  lemma GivenUp(w: Deposit, why: Option<Op>, stage: Stage, target: Removal)
    requires Explained(CleanedUp(why, stage)) && stage in {Published, Committed} && target != Durable
    ensures var c := CleanedUp(why, stage).(target := target);
            && Explained(c) && RaisedAfter(w, c) == RaisedBy(TargetName(w.path), target)
            && (GaveUp(c) <==> target.Stuck?)
            && StageLeft(c) == if target.Stuck? then stage else if stage == Published then Reserved else Orphaned
  {
  }

  /** A clean-up that got to the identity files. */
  lemma GotToRecords(w: Deposit, why: Option<Op>, stage: Stage, pending: Removal, record: Removal)
    requires Explained(CleanedUp(why, stage)) && stage in {Reserved, Published, Committed}
    requires if stage == Committed then pending.Durable? else record.Durable?
    ensures var c := CleanedUp(why, stage).(pending := pending, record := record);
            && Explained(c) && (GaveUp(c) <==> pending.Stuck? || record.Stuck?)
            && RaisedAfter(w, c) == RaisedBy(PendingName(w.artifactId), pending)
                                    + (if pending.Stuck? then [] else RaisedBy(CommittedName(w.artifactId), record))
            && StageLeft(c) == if !pending.Stuck? && !record.Stuck? then Absent
                               else if stage == Committed then Orphaned else Reserved
  {
  }

  /** A clean-up of a reservation. */
  lemma ReservingFailed(w: Deposit, why: Op, stage: Stage, pending: Removal)
    requires Explained(CleanedUp(Some(why), stage)) && stage in {Absent, Tearing, Reserved}
    requires stage == Absent ==> pending.Durable?
    ensures var c := CleanedUp(Some(why), stage).(pending := pending);
            && Explained(c) && RaisedIn(w, c) == [why] + RaisedBy(PendingName(w.artifactId), pending)
            && StageLeft(c) == if pending.Stuck? then stage else Absent
  {
  }

  lemma RaisedRemovals(w: Deposit, c: Cleanup)
    ensures var raised := RaisedRemoving(w, c);
            && (Unlinking(TargetName(w.path)) in raised <==> c.target.Stuck?)
            && (SyncingParent in raised <==> c.target.NotDurable?)
            && (Unlinking(PendingName(w.artifactId)) in raised <==> c.target.Durable? && c.pending.Stuck?)
            && (c.target.Durable? && !c.pending.Stuck? && c.record.Stuck? <==>
                  Unlinking(CommittedName(w.artifactId)) in raised)
            && WritingMarker !in raised
  {
  }

  /** What raised decides whether a clean-up leaves the put as if it had never been, for recovery to see. */
  lemma MadeGoodExactly(w: Deposit, c: Cleanup)
    requires Explained(c)
    ensures MadeGood(w, RaisedIn(w, c)) <==> StageLeft(c) in {Absent, Reserved}
  {
    var raised, removing := RaisedIn(w, c), RaisedRemoving(w, c);
    RaisedRemovals(w, c);
    assert forall op <- {Unlinking(TargetName(w.path)), Unlinking(CommittedName(w.artifactId)),
                         Unlinking(PendingName(w.artifactId))} :: op in raised <==> op in removing;
    if c.stage == Tearing { assert [WritingMarker] <= raised; } else { assert WritingMarker !in raised; }
    if c.stage == Committed {
      assert raised[0] == SyncingIds && (SyncingParent in raised <==> SyncingParent in removing);
    } else if [SyncingIds] <= raised {
      assert raised[0] == SyncingIds;
      assert SyncingParent !in raised;
    }
  }

  /** A failed put is undone, at once or by the next recovery, exactly if what raised was all made good. */
  lemma UndoneExactly(cfg: Config, base: Disk, w: Deposit, c: Cleanup)
    requires base.pending == map[] && Sound(cfg, base) && Free(base, w) && Fits(cfg, w) && Explained(c)
    ensures var s := At(cfg, base, w, StageLeft(c));
            Sound(cfg, s) && Settle(s) == base <==> MadeGood(w, RaisedIn(w, c))
  {
    MadeGoodExactly(w, c);
    StageSettles(cfg, base, w, StageLeft(c));
    assert w.artifactId in At(cfg, base, w, Committed).committed;
  }

  /** One operation that misbehaves is always made good, and so is any number of failing syncs beside the artifact. */
  lemma FewRaisesAreMadeGood(w: Deposit, c: Cleanup, garbled: nat)
    requires Explained(c) && (c.why == None && c.stage == Reserved ==> garbled > 0)
    requires |RaisedIn(w, c)| + garbled <= 1 || (garbled == 0 && forall op <- RaisedIn(w, c) :: op == SyncingParent)
    ensures MadeGood(w, RaisedIn(w, c)) && !c.tempStuck
  {
    var raised := RaisedIn(w, c);
    RaisedRemovals(w, c);
    MadeGoodExactly(w, c);
    if |raised| + garbled <= 1 {
      if c.why.Some? || c.stage == Reserved { assert RaisedRemoving(w, c) == []; }
    } else {
      assert c.tempStuck ==> UnlinkingTemp in raised;
      assert Unlinking(TargetName(w.path)) !in raised && Unlinking(PendingName(w.artifactId)) !in raised;
      assert c.why.Some? ==> c.why.value in raised;
    }
  }

  /** Two raises are enough to miss it, in four ways: the write of the pending record and its unlink; the commit and
      the unlink of the published artifact, so that the next recovery commits the put that failed; the sync after the
      commit, and the unlink of the committed record or the sync before it, whose artifact is already gone. */
  lemma TwoRaisesMayStick(cfg: Config, base: Disk, w: Deposit)
    requires base.pending == map[] && Sound(cfg, base) && Free(base, w) && Fits(cfg, w)
    ensures var torn := Cleanup(Some(WritingMarker), Tearing, Durable, Stuck, Durable, false);
            Explained(torn) && |RaisedIn(w, torn)| == 2 && !Sound(cfg, At(cfg, base, w, StageLeft(torn)))
    ensures var kept := Cleanup(Some(RenamingMarker), Published, Stuck, Durable, Durable, false);
            var s := At(cfg, base, w, StageLeft(kept));
            && Explained(kept) && |RaisedIn(w, kept)| == 2
            && Sound(cfg, s) && Settle(s) == At(cfg, base, w, Committed) != base
    ensures var orphaned := Cleanup(Some(SyncingIds), Committed, Durable, Durable, Stuck, false);
            Explained(orphaned) && |RaisedIn(w, orphaned)| == 2 && !Sound(cfg, At(cfg, base, w, StageLeft(orphaned)))
    ensures var orphaned := Cleanup(Some(SyncingIds), Committed, NotDurable, Durable, Durable, false);
            Explained(orphaned) && |RaisedIn(w, orphaned)| == 2 && !Sound(cfg, At(cfg, base, w, StageLeft(orphaned)))
  {
    hide Sound, Settle, At;
    StageSettles(cfg, base, w, Tearing);
    StageSettles(cfg, base, w, Published);
    StageSettles(cfg, base, w, Orphaned);
    CommittedIsNew(cfg, base, w);
  }

  lemma CommittedIsNew(cfg: Config, base: Disk, w: Deposit)
    requires Free(base, w)
    ensures At(cfg, base, w, Committed) != base
  {
    assert w.artifactId in At(cfg, base, w, Committed).committed;
  }

  /** What a failed put has left, once its recovery had settled `d`. */
  lemma FailedPut(cfg: Config, d: Disk, w: Deposit, c: Cleanup)
    requires Sound(cfg, d) && Fits(cfg, w) && Explained(c) && (Free(Settle(d), w) || c == NOTHING_TO_CLEAN)
    ensures var s := At(cfg, Settle(d), w, StageLeft(c));
            && (Sound(cfg, s) <==> StageLeft(c) !in {Tearing, Orphaned})
            && (Sound(cfg, s) && SameFiles(Settle(s), Settle(d)) <==> MadeGood(w, RaisedIn(w, c)))
  {
    SettleTwice(cfg, d);
    if c == NOTHING_TO_CLEAN {
      assert At(cfg, Settle(d), w, Absent) == Settle(d);
    } else {
      StageSettles(cfg, Settle(d), w, StageLeft(c));
      UndoneExactly(cfg, Settle(d), w, c);
      assert Settle(At(cfg, Settle(d), w, StageLeft(c))).dirs == Settle(d).dirs;
    }
  }

  /** Everything committed, and every published file, is still there unchanged. */
  ghost predicate Keeps(d: Disk, s: Disk) {
    && (forall id <- d.committed :: id in s.committed && s.committed[id] == d.committed[id])
    && (forall path <- d.targets :: path in s.targets && s.targets[path] == d.targets[path])
    && d.dirs <= s.dirs
  }

  lemma SettledWhenNonePending(cfg: Config, d: Disk, s: Disk)
    requires PartlySettled(cfg, d, s) && s.pending == map[]
    ensures s == Settle(d)
  {
    assert s.committed.Keys == Settle(d).committed.Keys;
  }

  /** A completed recovery is one of the disks a recovery can show. */
  lemma SettleIsSettled(cfg: Config, d: Disk)
    requires Sound(cfg, d)
    ensures PartlySettled(cfg, d, Settle(d))
  {
    forall id <- d.pending ensures SoundPending(cfg, d, id) {}
  }

  /** What `read` checks before it returns the bytes at the path of `ref`. */
  predicate Readable(cfg: Config, d: Disk, ref: ArtifactRef) {
    && ref.artifactId != ""
    && ref.artifactId in d.committed && Reads(d.committed[ref.artifactId], ref.artifactId)
    && d.committed[ref.artifactId].record == Record(ref.artifactId, ref.byteSize, ref.path, ref.sha256)
    && ref.path in d.targets && Matches(cfg, d.committed[ref.artifactId].record, d.targets[ref.path])
  }

  /** The disk after recovery has dealt with one pending record. */
  function Resolve(d: Disk, id: string): Disk
    requires id in d.pending
  {
    d.(pending := d.pending - {id},
       committed := if Adoptable(d, id) then d.committed[id := d.pending[id]] else d.committed)
  }

  /** A recovery under way still sees what it saw at the start of the records it has not reached. */
  lemma SettlingLeavesRest(cfg: Config, d: Disk, s: Disk, id: string)
    requires PartlySettled(cfg, d, s)
    ensures id in s.pending ==> (SoundPending(cfg, s, id) <==> SoundPending(cfg, d, id))
    ensures id in d.committed ==> (SoundCommitted(cfg, s, id) <==> SoundCommitted(cfg, d, id))
  {
  }

  lemma ResolvingSettles(cfg: Config, d: Disk, s: Disk, id: string)
    requires PartlySettled(cfg, d, s) && id in s.pending && SoundPending(cfg, s, id)
    ensures PartlySettled(cfg, d, Resolve(s, id))
  {
    SettlingLeavesRest(cfg, d, s, id);
    assert Adoptable(s, id) <==> Adoptable(d, id);
  }

  /** A disk that a put of `w` on `d` can leave if its process is killed. Orphaned needs a raise. */
  ghost predicate Interrupted(cfg: Config, d: Disk, w: Deposit, faulty: bool, s: Disk) {
    || PartlySettled(cfg, d, s)
    || (Sound(cfg, d) && Fits(cfg, w) && Free(Settle(d), w) && Underway(cfg, Settle(d), w, faulty, s))
  }

  ghost predicate Underway(cfg: Config, base: Disk, w: Deposit, faulty: bool, s: Disk) {
    exists stage :: (faulty || stage != Orphaned) && s == At(cfg, base, w, stage)
  }

  /** The disk that a put of `w` on `d` leaves when it returns. */
  ghost predicate Returned(cfg: Config, d: Disk, w: Deposit, s: Disk) {
    Fits(cfg, w) && CanPut(cfg, d, w) && s == At(cfg, Base(d, w), w, Committed)
  }

  /** Nothing a put or a recovery shows, whatever raised, takes away what was there. */
  lemma InterruptionKeeps(cfg: Config, d: Disk, w: Deposit, faulty: bool, s: Disk)
    requires Interrupted(cfg, d, w, faulty, s)
    ensures Keeps(d, s)
  {
    if PartlySettled(cfg, d, s) {
      forall id <- d.committed ensures id in s.committed && s.committed[id] == d.committed[id] {
        if id in d.pending && id !in s.pending { assert SoundPending(cfg, d, id); }
      }
    } else {
      forall id <- d.committed ensures id in s.committed && s.committed[id] == d.committed[id] {
        if id in d.pending { assert SoundPending(cfg, d, id); }
      }
    }
  }

  /** A pending record whose artifact was never published, and whose path has become a directory since. */
  predicate Blocked(d: Disk, id: string)
    requires id in d.pending
  {
    d.pending[id].Whole? && d.pending[id].record.relativePath !in d.targets
    && d.pending[id].record.relativePath in d.dirs
  }

  predicate HasBlocked(d: Disk) {
    exists id <- d.pending :: Blocked(d, id)
  }

  lemma SettlingKeepsBlocked(cfg: Config, d: Disk, s: Disk)
    requires PartlySettled(cfg, d, s)
    ensures HasBlocked(s) <==> HasBlocked(d)
  {
    if id :| id in d.pending && Blocked(d, id) {
      assert !SoundPending(cfg, d, id);
      assert Blocked(s, id);
    }
    if id :| id in s.pending && Blocked(s, id) { assert Blocked(d, id); }
  }

  /** Making directories changes what recovery makes of no file, and can stop it only by blocking a record. */
  lemma ReadySettles(cfg: Config, d: Disk, path: Path)
    ensures Settle(Ready(d, path)) == Ready(Settle(d), path)
    ensures Sound(cfg, Ready(d, path)) <==> Sound(cfg, d) && !HasBlocked(Ready(d, path))
  {
    var s := Ready(d, path);
    assert Settle(s).committed == Settle(d).committed;
    forall id <- d.pending ensures SoundPending(cfg, s, id) <==> SoundPending(cfg, d, id) && !Blocked(s, id) {
      ReadyRecord(cfg, d, path, id);
    }
    assert forall id <- d.committed :: SoundCommitted(cfg, s, id) <==> SoundCommitted(cfg, d, id);
  }

  lemma ReadyRecord(cfg: Config, d: Disk, path: Path, id: string)
    requires id in d.pending
    ensures SoundPending(cfg, Ready(d, path), id) <==> SoundPending(cfg, d, id) && !Blocked(Ready(d, path), id)
  {
  }

  /** A disk that a put of `w` on `d` shows or leaves, from the making of its directories on. */
  ghost predicate PutShows(cfg: Config, d: Disk, w: Deposit, faulty: bool, s: Disk) {
    PartlyReady(d, w.path, s) || (Clear(d, w.path) && Interrupted(cfg, Ready(d, w.path), w, faulty, s))
  }

  /** The settled disk on which a put of `w` on `d` makes its changes. */
  function Base(d: Disk, w: Deposit): Disk {
    Settle(Ready(d, w.path))
  }

  /** When a put of `w` on `d` can return. */
  predicate CanPut(cfg: Config, d: Disk, w: Deposit) {
    Clear(d, w.path) && Sound(cfg, Ready(d, w.path)) && Free(Base(d, w), w)
  }

  lemma PutShowsKeeps(cfg: Config, d: Disk, w: Deposit, faulty: bool, s: Disk)
    requires PutShows(cfg, d, w, faulty, s)
    ensures Keeps(d, s)
  {
    if Clear(d, w.path) && Interrupted(cfg, Ready(d, w.path), w, faulty, s) {
      InterruptionKeeps(cfg, Ready(d, w.path), w, faulty, s);
    }
  }

  /** A put that did not get past its recovery leaves what recovery makes of every file as it was; it is harmful only
      if a directory it made blocks a record. */
  lemma StoppedOnReady(cfg: Config, d: Disk, path: Path, s: Disk)
    requires PartlySettled(cfg, Ready(d, path), s)
    ensures SameFiles(Settle(s), Settle(d))
    ensures Sound(cfg, s) <==> Sound(cfg, d) && !HasBlocked(s)
  {
    ReadySettles(cfg, d, path);
    InterruptedRecoveryConverges(cfg, Ready(d, path), s);
    SettlingKeepsBlocked(cfg, Ready(d, path), s);
  }

  lemma StoppedOnMaking(cfg: Config, d: Disk, path: Path, s: Disk)
    requires PartlyReady(d, path, s)
    ensures SameFiles(Settle(s), Settle(d))
    ensures Sound(cfg, s) <==> Sound(cfg, d) && !HasBlocked(s)
  {
    var k :| 0 <= k <= |path| && s == Ready(d, path[..k]);
    StoppedOnReady(cfg, d, path[..k], s);
  }

  /** A put that failed after its recovery blocks nothing, and is undone exactly if what raised was all made good. */
  lemma FailedOnReady(cfg: Config, d: Disk, w: Deposit, c: Cleanup)
    requires Sound(cfg, Ready(d, w.path)) && Fits(cfg, w) && Explained(c)
    requires Free(Base(d, w), w) || c == NOTHING_TO_CLEAN
    ensures var s := At(cfg, Base(d, w), w, StageLeft(c));
            && Sound(cfg, d) && !HasBlocked(s)
            && (Sound(cfg, s) && SameFiles(Settle(s), Settle(d)) <==> MadeGood(w, RaisedIn(w, c)))
  {
    ReadySettles(cfg, d, w.path);
    FailedPut(cfg, Ready(d, w.path), w, c);
  }
}
