/** The immutable artifact store: reserve, write and check, publish, commit; roll back; recover. */
module ArtifactStore {
  import opened Wrappers
  import opened StoreState
  import opened FileSystem

  datatype Failure = Invalid | Sensitive | Conflict | Integrity | IoError

  datatype ArtifactWrite = ArtifactWrite(artifactId: string, kind: string, path: Path, mimeType: string, content: Bytes)

  function DepositOf(req: ArtifactWrite): Deposit {
    Deposit(req.artifactId, req.path, req.content)
  }

  function RefOf(cfg: Config, req: ArtifactWrite): ArtifactRef {
    ArtifactRef(req.artifactId, req.kind, req.path, cfg.digest(req.content), |req.content|)
  }

  /** The disk `s` in a recovery of `d` that has still to check `todo`, and keeps the others in its cache `ids`. */
  ghost predicate Checked(cfg: Config, d: Disk, s: Disk, ids: set<string>, todo: set<Name>) {
    && ids <= s.committed.Keys
    && (forall name <- todo :: !name.TargetName? && Present(d, name))
    && (forall id <- d.pending :: id in s.pending <==> PendingName(id) in todo)
    && (forall id <- d.committed :: CommittedName(id) !in todo ==> SoundCommitted(cfg, d, id) && id in ids)
    && (forall id <- s.committed :: id !in d.committed ==> id in ids)
  }

  lemma NotYetChecked(cfg: Config, d: Disk, s: Disk, ids: set<string>, todo: set<Name>, name: Name)
    requires PartlySettled(cfg, d, s) && Checked(cfg, d, s, ids, todo) && name in todo
    ensures !name.TargetName? && Present(d, name) && Present(s, name) && ids <= s.committed.Keys
    ensures name.PendingName? ==> !SoundPending(cfg, d, name.id) ==> !Sound(cfg, d)
    ensures name.CommittedName? ==> !SoundCommitted(cfg, d, name.id) ==> !Sound(cfg, d)
  {
  }

  lemma PendingChecked(cfg: Config, d: Disk, s: Disk, ids: set<string>, todo: set<Name>, id: string)
    requires PartlySettled(cfg, d, s) && Checked(cfg, d, s, ids, todo) && PendingName(id) in todo
    requires id in s.pending && SoundPending(cfg, s, id)
    ensures Checked(cfg, d, Resolve(s, id), if Adoptable(s, id) then ids + {id} else ids, todo - {PendingName(id)})
  {
  }

  lemma CheckedIsKnown(cfg: Config, d: Disk, s: Disk, ids: set<string>, todo: set<Name>, id: string)
    requires Checked(cfg, d, s, ids, todo) && id in s.pending
    ensures (if Adoptable(s, id) then ids + {id} else ids) <= Resolve(s, id).committed.Keys
  {
  }

  lemma CommittedChecked(cfg: Config, d: Disk, s: Disk, ids: set<string>, todo: set<Name>, id: string)
    requires PartlySettled(cfg, d, s) && Checked(cfg, d, s, ids, todo) && CommittedName(id) in todo
    requires id in s.committed && SoundCommitted(cfg, s, id)
    ensures Checked(cfg, d, s, ids + {id}, todo - {CommittedName(id)})
  {
  }

  /** What recovery reports of an identity file it cannot accept. */
  function MarkerFault(marker: Marker, id: string): (f: Option<Failure>)
    ensures f == None <==> Reads(marker, id)
  {
    if marker.Torn? || marker.record.artifactId != id then Some(Integrity)
    else if !Allowed(marker.record.relativePath) then Some(Invalid)
    else None
  }

  /** Of a pending record: that its path is not allowed, that its artifact is not what it says, or that the id has been
      committed already. */
  function PendingFault(cfg: Config, d: Disk, id: string): (f: Option<Failure>)
    requires id in d.pending
    ensures f == None <==> SoundPending(cfg, d, id)
  {
    var marker := d.pending[id];
    if MarkerFault(marker, id) != None then MarkerFault(marker, id)
    else if !Taken(d, marker.record.relativePath) then None
    else if !Holds(cfg, d, marker.record) then Some(Integrity)
    else if id in d.committed then Some(Conflict)
    else None
  }

  function CommittedFault(cfg: Config, d: Disk, id: string): (f: Option<Failure>)
    requires id in d.committed
    ensures f == None <==> SoundCommitted(cfg, d, id)
  {
    var marker := d.committed[id];
    if MarkerFault(marker, id) != None then MarkerFault(marker, id)
    else if !Holds(cfg, d, marker.record) then Some(Integrity)
    else None
  }

  /** The artifact of `record` is there and is what it says. */
  predicate Holds(cfg: Config, d: Disk, record: Record) {
    record.relativePath in d.targets && Matches(cfg, record, d.targets[record.relativePath])
  }

  /** The identity record of `ref` is complete and says what `ref` says. */
  predicate Recorded(d: Disk, ref: ArtifactRef) {
    && ref.artifactId in d.committed && d.committed[ref.artifactId].Whole?
    && d.committed[ref.artifactId].record == Record(ref.artifactId, ref.byteSize, ref.path, ref.sha256)
  }

  /** Some identity file of `d` is at fault, and `f` is what recovery reports of it. */
  ghost predicate FaultOf(cfg: Config, d: Disk, f: Failure) {
    || (exists id <- d.pending :: PendingFault(cfg, d, id) == Some(f))
    || (exists id <- d.committed :: CommittedFault(cfg, d, id) == Some(f))
  }

  /** A recovery under way finds the faults that were there at its start. */
  lemma FaultsAlike(cfg: Config, d: Disk, s: Disk, id: string)
    requires PartlySettled(cfg, d, s)
    ensures id in s.pending && PendingFault(cfg, s, id).Some? ==> FaultOf(cfg, d, PendingFault(cfg, s, id).value)
    ensures id in s.committed && id in d.committed && CommittedFault(cfg, s, id).Some? ==>
              FaultOf(cfg, d, CommittedFault(cfg, s, id).value)
  {
    if id in s.pending {
      assert PendingFault(cfg, d, id) == PendingFault(cfg, s, id);
    }
    if id in s.committed && id in d.committed {
      assert CommittedFault(cfg, d, id) == CommittedFault(cfg, s, id);
    }
  }

  /** What the caller of a failed put gets: what raises in the clean-up takes the place of what failed the put, except
      that a sync after a removal may fail unnoticed. */
  function ErrorOf(c: Cleanup): Failure {
    if c.why.Some? || GaveUp(c) || c.tempStuck then IoError else if c.stage == Absent then Conflict else Integrity
  }

  /** What fails a put after its two conflict checks. */
  predicate AfterReserving(c: Cleanup) {
    c.why.Some? || c.stage == Reserved
  }

  lemma ErrorTold(w: Deposit, c: Cleanup, garbled: bool)
    requires Explained(c) && AfterReserving(c)
    requires c.why == None && c.stage == Reserved ==> garbled
    requires c.why == Some(SyncingIds) ==> !garbled
    ensures ErrorOf(c) == if garbled && RaisedIn(w, c) in {[], [SyncingIds]} then Integrity else IoError
  {
    var raised := RaisedIn(w, c);
    assert c.why.Some? ==> raised[0] == c.why.value;
    if c.why == None {
      if c.tempStuck {
        assert raised[|raised| - 1] == UnlinkingTemp;
      } else {
        assert raised == RaisedBy(PendingName(w.artifactId), c.pending);
      }
    }
  }

  class Store {
    const volume: Volume
    const cfg: Config
    const sensitive: ArtifactWrite -> bool
    var ids: set<string>

    /** The cache never runs ahead of the disk. */
    ghost predicate Valid()
      reads this, volume
    {
      ids <= volume.disk.committed.Keys
    }

    /** `__init__` up to its recovery; opening a store is this, then `Recover`. */
    constructor (volume: Volume, cfg: Config, sensitive: ArtifactWrite -> bool)
      ensures this.volume == volume && this.cfg == cfg && this.sensitive == sensitive && Valid()
    {
      this.volume, this.cfg, this.sensitive, this.ids := volume, cfg, sensitive, {};
    }

    /** Every disk shown since the old state is one that recovery of `d` can show. */
    twostate predicate OnlySettled(d: Disk)
      reads volume
    {
      && old(volume.seen) <= volume.seen
      && (forall s <- volume.seen[|old(volume.seen)|..] :: PartlySettled(cfg, d, s))
    }

    /** Recovery touches no temporary file and no artifact, and stops at the first operation that raises. */
    twostate predicate Aside()
      reads volume
    {
      && volume.temps == old(volume.temps) && volume.garbled == old(volume.garbled) && RaisedAtMostOne()
    }

    twostate predicate RaisedAtMostOne()
      reads volume
    {
      || volume.raised == old(volume.raised)
      || exists op :: MadeGoodAlone(op) && volume.raised == old(volume.raised) + [op]
    }

    /** The error that recovery of `d` stopped with since the old state. */
    twostate predicate Blames(d: Disk, error: Failure)
      reads volume
    {
      if volume.raised != old(volume.raised) then error == IoError else FaultOf(cfg, d, error)
    }

    method Recover() returns (r: Result<(), Failure>)
      requires Valid()
      modifies this, volume
      ensures Valid() && Aside()
      ensures OnlySettled(old(volume.disk)) && PartlySettled(cfg, old(volume.disk), volume.disk)
      ensures r.Ok? ==> Sound(cfg, old(volume.disk)) && volume.disk == Settle(old(volume.disk))
      ensures r.Ok? ==> ids == volume.disk.committed.Keys && volume.raised == old(volume.raised)
      ensures volume.raised == old(volume.raised) ==> (r.Ok? <==> Sound(cfg, old(volume.disk)))
      ensures r.Err? ==> Blames(old(volume.disk), r.error)
      ensures volume.durable.hasty <= old(volume.durable.hasty) + old(volume.disk).pending.Keys
    {
      var todo := (set id | id in volume.disk.pending :: PendingName(id))
                  + (set id | id in volume.disk.committed :: CommittedName(id));
      r := RecoverEach(todo);
    }

    method RecoverEach(names: set<Name>) returns (r: Result<(), Failure>)
      requires PartlySettled(cfg, volume.disk, volume.disk) && Handled(volume.disk, names)
      modifies this, volume
      ensures Valid() && Aside()
      ensures OnlySettled(old(volume.disk)) && PartlySettled(cfg, old(volume.disk), volume.disk)
      ensures r.Ok? ==> Sound(cfg, old(volume.disk)) && volume.disk == Settle(old(volume.disk))
      ensures r.Ok? ==> ids == volume.disk.committed.Keys && volume.raised == old(volume.raised)
      ensures volume.raised == old(volume.raised) && r.Err? ==> !Sound(cfg, old(volume.disk))
      ensures r.Err? ==> Blames(old(volume.disk), r.error)
      ensures volume.durable.hasty <= old(volume.durable.hasty) + old(volume.disk).pending.Keys
    {
      hide PartlySettled, Handled, Sound, FaultOf;
      ghost var d, shown := volume.disk, |volume.seen|;
      var todo := names;
      while todo != {}
        invariant old(volume.seen) <= volume.seen
        invariant forall k :: shown <= k < |volume.seen| ==> PartlySettled(cfg, d, volume.seen[k])
        invariant PartlySettled(cfg, d, volume.disk) && Handled(d, todo)
        invariant Aside() && volume.raised == old(volume.raised)
        invariant volume.durable.hasty <= old(volume.durable.hasty) + d.pending.Keys
        decreases todo
      {
        var name :| name in todo;
        r := RecoverEntry(name, d, todo);
        if r.Err? { return; }
        todo := todo - {name};
      }
      AllHandled(d);
      return Ok(());
    }

    lemma AllHandled(d: Disk)
      requires PartlySettled(cfg, d, volume.disk) && Handled(d, {})
      ensures Valid() && volume.disk == Settle(d) && Sound(cfg, d) && ids == volume.disk.committed.Keys
    {
      forall id <- d.pending ensures SoundPending(cfg, d, id) { assert id !in volume.disk.pending; }
      SettledWhenNonePending(cfg, d, volume.disk);
      assert forall id <- d.committed :: id in ids;
    }

    /** Of the disk `d` that recovery started on, everything but `todo` has been checked and recorded. */
    ghost predicate Handled(d: Disk, todo: set<Name>)
      reads this, volume
    {
      Checked(cfg, d, volume.disk, ids, todo)
    }

    method RecoverEntry(name: Name, ghost d: Disk, ghost todo: set<Name>) returns (r: Result<(), Failure>)
      requires PartlySettled(cfg, d, volume.disk) && Handled(d, todo) && name in todo
      modifies this`ids, volume
      ensures PartlySettled(cfg, d, volume.disk) && Valid() && Aside()
      ensures volume.seen == old(volume.seen) || volume.seen == old(volume.seen) + [volume.disk]
      ensures r.Ok? ==> volume.raised == old(volume.raised) && Handled(d, todo - {name})
      ensures r.Err? && volume.raised == old(volume.raised) ==> !Sound(cfg, d)
      ensures r.Err? ==> Blames(d, r.error)
      ensures volume.durable.hasty <= old(volume.durable.hasty) + d.pending.Keys
    {
      hide FaultOf, PendingFault, CommittedFault, PartlySettled, Checked, SoundPending, SoundCommitted, Resolve,
           Adoptable;
      ghost var s, known := volume.disk, ids;
      NotYetChecked(cfg, d, s, ids, todo, name);
      SettlingLeavesRest(cfg, d, s, name.id);
      FaultsAlike(cfg, d, s, name.id);
      match name {
        case PendingName(id) =>
          r := RecoverPending(id);
          if SoundPending(cfg, s, id) { ResolvingSettles(cfg, d, s, id); }
          if r.Ok? { PendingChecked(cfg, d, s, known, todo, id); }
          CheckedIsKnown(cfg, d, s, known, todo, id);
        case CommittedName(id) =>
          r := RecoverCommitted(id);
          if r.Ok? { CommittedChecked(cfg, d, s, known, todo, id); }
      }
    }

    method RecoverCommitted(id: string) returns (r: Result<(), Failure>)
      requires Valid() && id in volume.disk.committed
      modifies this`ids, volume
      ensures volume.disk == old(volume.disk) && volume.seen == old(volume.seen) && volume.temps == old(volume.temps)
      ensures volume.garbled == old(volume.garbled)
      ensures volume.raised in {old(volume.raised), old(volume.raised) + [Looking]}
      ensures r.Ok? ==> volume.raised == old(volume.raised)
      ensures volume.raised == old(volume.raised) ==> (r.Ok? <==> SoundCommitted(cfg, volume.disk, id))
      ensures r.Ok? ==> SoundCommitted(cfg, volume.disk, id)
      ensures r.Err? ==> if volume.raised != old(volume.raised) then r.error == IoError
                         else CommittedFault(cfg, volume.disk, id) == Some(r.error)
      ensures ids == if r.Ok? then old(ids) + {id} else old(ids)
      ensures volume.durable == old(volume.durable)
    {
      var readable := volume.Access();
      if !readable { return Err(IoError); }
      var marker := volume.disk.committed[id];
      if marker.Torn? || marker.record.artifactId != id { return Err(Integrity); }
      if !Allowed(marker.record.relativePath) { return Err(Invalid); }
      r := VerifyRecorded(marker.record);
      if r.Err? { return; }
      ids := ids + {id};
    }

    method VerifyRecorded(record: Record) returns (r: Result<(), Failure>)
      modifies volume
      ensures volume.disk == old(volume.disk) && volume.seen == old(volume.seen) && volume.temps == old(volume.temps)
      ensures volume.garbled == old(volume.garbled)
      ensures volume.raised in {old(volume.raised), old(volume.raised) + [Looking]}
      ensures volume.durable == old(volume.durable)
      ensures r.Ok? ==> volume.raised == old(volume.raised)
      ensures r.Ok? ==> Holds(cfg, volume.disk, record)
      ensures r.Err? && volume.raised == old(volume.raised) ==> !Holds(cfg, volume.disk, record)
      ensures r.Err? ==> r.error == if volume.raised == old(volume.raised) then Integrity else IoError
    {
      var statable := volume.Access();
      if !statable { return Err(IoError); }
      if record.relativePath !in volume.disk.targets {
        var refused := RefuseDirectory(record.relativePath);
        return Err(refused);
      }
      var content := volume.disk.targets[record.relativePath];
      if record.byteSize < 0 || record.byteSize > cfg.maxArtifactBytes || |content| != record.byteSize {
        return Err(Integrity);
      }
      var readable := volume.Access();
      if !readable { return Err(IoError); }
      if cfg.digest(content) != record.sha256 { return Err(Integrity); }
      return Ok(());
    }

    /** A directory in the place of an artifact: it has a size of its own, and if that is the one asked for, then
        reading it raises. */
    method RefuseDirectory(path: Path) returns (error: Failure)
      modifies volume
      ensures volume.disk == old(volume.disk) && volume.seen == old(volume.seen) && volume.temps == old(volume.temps)
      ensures volume.garbled == old(volume.garbled) && volume.durable == old(volume.durable)
      ensures volume.raised == if error == IoError then old(volume.raised) + [Looking] else old(volume.raised)
      ensures error == IoError || error == Integrity
      ensures path !in volume.disk.dirs ==> error == Integrity
    {
      var differs := true;
      if path in volume.disk.dirs { differs := volume.Access(); }
      return if differs then Integrity else IoError;
    }

    method RecoverPending(id: string) returns (r: Result<(), Failure>)
      requires Valid() && id in volume.disk.pending
      modifies this`ids, volume
      ensures Aside() && (r.Ok? ==> volume.raised == old(volume.raised))
      ensures volume.raised == old(volume.raised) ==> (r.Ok? <==> old(SoundPending(cfg, volume.disk, id)))
      ensures r.Err? ==> if volume.raised != old(volume.raised) then r.error == IoError
                         else PendingFault(cfg, old(volume.disk), id) == Some(r.error)
      ensures r.Ok? ==> old(SoundPending(cfg, volume.disk, id)) && volume.disk == Resolve(old(volume.disk), id)
      ensures (volume.disk == old(volume.disk) && volume.seen == old(volume.seen))
              || (old(SoundPending(cfg, volume.disk, id)) && volume.disk == Resolve(old(volume.disk), id)
                  && volume.seen == old(volume.seen) + [volume.disk])
      ensures ids == if r.Ok? && old(Adoptable(volume.disk, id)) then old(ids) + {id} else old(ids)
      ensures volume.durable.hasty <= old(volume.durable.hasty) + {id}
    {
      var readable := volume.Access();
      if !readable { return Err(IoError); }
      var marker := volume.disk.pending[id];
      if marker.Torn? || marker.record.artifactId != id { return Err(Integrity); }
      if !Allowed(marker.record.relativePath) { return Err(Invalid); }
      if !Taken(volume.disk, marker.record.relativePath) {
        var unlinked := volume.Unlink(PendingName(id));
        if !unlinked { return Err(IoError); }
        var synced := volume.SyncIds();
        return if synced then Ok(()) else Err(IoError);
      }
      r := VerifyRecorded(marker.record);
      if r.Err? { return; }
      r := CommitArtifactId(id);
      if r.Err? { return; }
      ids := ids + {id};
    }

    method CommitArtifactId(id: string) returns (r: Result<(), Failure>)
      requires id in volume.disk.pending
      modifies volume
      ensures volume.temps == old(volume.temps) && volume.garbled == old(volume.garbled)
      ensures volume.raised == old(volume.raised) + (if r.Ok? || r.error == Conflict then []
                                                     else if volume.disk == old(volume.disk) then [RenamingMarker]
                                                     else [SyncingIds])
      ensures r.Err? ==> r.error == if id in old(volume.disk.committed) then Conflict else IoError
      ensures r.Ok? ==> volume.disk != old(volume.disk)
      ensures (volume.disk == old(volume.disk) && volume.seen == old(volume.seen) && r.Err?)
              || (id !in old(volume.disk.committed)
                  && volume.disk == old(volume.disk).(
                       pending := old(volume.disk.pending) - {id},
                       committed := old(volume.disk.committed)[id := old(volume.disk.pending[id])])
                  && volume.seen == old(volume.seen) + [volume.disk])
      ensures volume.durable.hasty <= old(volume.durable.hasty) + {id}
      ensures old(volume.SafeTarget(volume.disk.pending[id])) ==> volume.durable.hasty == old(volume.durable.hasty)
      ensures r.Ok? && id in old(volume.durable.markers) ==> id in volume.durable.records
      ensures volume.durable.contents == old(volume.durable.contents)
      ensures volume.durable.entries == old(volume.durable.entries)
    {
      if id in volume.disk.committed { return Err(Conflict); }
      var renamed := volume.RenameMarker(id);
      if !renamed { return Err(IoError); }
      var synced := volume.SyncIds();
      return if synced then Ok(()) else Err(IoError);
    }

    /** `_remove_durably`: Stuck when the unlink itself raised. */
    method RemoveDurably(name: Name) returns (r: Removal)
      modifies volume
      ensures volume.temps == old(volume.temps) && volume.garbled == old(volume.garbled)
      ensures volume.durable.hasty == old(volume.durable.hasty)
      ensures r.Stuck? ==> volume.disk == old(volume.disk) && volume.seen == old(volume.seen)
      ensures !r.Stuck? ==> volume.disk == Without(old(volume.disk), name)
      ensures !r.Stuck? ==>
                volume.seen == old(volume.seen) + (if old(Present(volume.disk, name)) then [volume.disk] else [])
      ensures !r.Durable? ==> old(Present(volume.disk, name))
      ensures volume.raised == old(volume.raised) + RaisedBy(name, r)
    {
      var existed := Present(volume.disk, name);
      var unlinked := volume.Unlink(name);
      if !unlinked { return Stuck; }
      if !existed { return Durable; }
      var synced: bool;
      match name {
        case TargetName(path) => synced := volume.SyncParent(path);
        case _ => synced := volume.SyncIds();
      }
      return if synced then Durable else NotDurable;
    }

    /** The operations that have raised since the old state, in order. */
    twostate function NewlyRaised(): seq<Op>
      requires old(volume.raised) <= volume.raised
      reads volume
    {
      volume.raised[|old(volume.raised)|..]
    }

    /** The disks shown since the old state, in order. */
    twostate function NewlyShown(): seq<Disk>
      requires old(volume.seen) <= volume.seen
      reads volume
    {
      volume.seen[|old(volume.seen)|..]
    }

    /** Everything shown since the old state is one of the stages of depositing `w` on `base`. */
    twostate predicate OnlyStages(base: Disk, w: Deposit, faulty: bool)
      reads volume
    {
      old(volume.seen) <= volume.seen && AllStages(base, w, faulty, NewlyShown())
    }

    ghost predicate AllStages(base: Disk, w: Deposit, faulty: bool, shown: seq<Disk>) {
      forall s <- shown :: Underway(cfg, base, w, faulty, s)
    }

    lemma StagesJoin(base: Disk, w: Deposit, a: seq<Disk>, faulty: bool, b: seq<Disk>)
      requires AllStages(base, w, false, a) && AllStages(base, w, faulty, b)
      ensures AllStages(base, w, faulty, a + b)
    {
    }

    /** The disks of a failed put tell whether it had committed its record, and whether that has been without its
        artifact. */
    predicate Tells(base: Disk, w: Deposit, cleanup: Cleanup, shown: seq<Disk>) {
      && (cleanup.stage == Committed && !cleanup.target.Stuck? ==> At(cfg, base, w, Orphaned) in shown)
      && (Free(base, w) && At(cfg, base, w, Committed) in shown ==> cleanup.stage == Committed)
    }

    lemma TellsLater(base: Disk, w: Deposit, cleanup: Cleanup, a: seq<Disk>, b: seq<Disk>)
      requires Tells(base, w, cleanup, b) && (Free(base, w) ==> At(cfg, base, w, Committed) !in a)
      ensures Tells(base, w, cleanup, a + b)
    {
    }

    lemma TellsOfRollback(base: Disk, w: Deposit, cleanup: Cleanup, b: seq<Disk>)
      requires Free(base, w) && cleanup.stage in {Reserved, Published, Committed}
      requires cleanup.stage == Committed && !cleanup.target.Stuck? ==> At(cfg, base, w, Orphaned) in b
      requires At(cfg, base, w, Committed) !in b
      ensures Tells(base, w, cleanup, PublishedSince(base, w, cleanup.stage) + b)
    {
      assert w.artifactId in At(cfg, base, w, Committed).committed;
      assert w.artifactId !in At(cfg, base, w, Published).committed;
    }

    lemma PublishedStages(base: Disk, w: Deposit, stage: Stage)
      ensures AllStages(base, w, false, PublishedSince(base, w, stage))
    {
      assert Underway(cfg, base, w, false, At(cfg, base, w, Published));
      assert Underway(cfg, base, w, false, At(cfg, base, w, Committed));
    }

    /** `cleanup` tells how depositing `w` on `base` failed since the old state: it accounts for every operation that
        has raised, and for the stage that is left. */
    twostate predicate FailedAs(base: Disk, w: Deposit, new cleanup: Cleanup)
      reads volume
    {
      && Explained(cleanup) && volume.disk == At(cfg, base, w, StageLeft(cleanup))
      && volume.raised == old(volume.raised) + RaisedIn(w, cleanup)
      && volume.garbled >= old(volume.garbled)
      && (cleanup.why == None && cleanup.stage == Reserved ==> volume.garbled > old(volume.garbled))
      && (cleanup.why == Some(SyncingIds) ==> volume.garbled == old(volume.garbled))
      && (!cleanup.tempStuck ==> volume.temps == old(volume.temps))
      && old(volume.seen) <= volume.seen && Tells(base, w, cleanup, NewlyShown())
    }

    /** `_reserve_artifact_id`. */
    method Reserve(w: Deposit, ghost base: Disk) returns (r: Result<(), Failure>, ghost cleanup: Cleanup)
      requires volume.disk == base && base.pending == map[] && Free(base, w)
      modifies volume
      ensures volume.temps == old(volume.temps) && volume.garbled == old(volume.garbled)
      ensures volume.durable.hasty == old(volume.durable.hasty)
      ensures r.Ok? ==> volume.raised == old(volume.raised)
      ensures r.Ok? ==> volume.disk == At(cfg, base, w, Reserved) && w.artifactId in volume.durable.markers
      ensures r.Ok? ==> volume.seen == old(volume.seen) + [At(cfg, base, w, Tearing), volume.disk]
      ensures OnlyStages(base, w, false)
      ensures r.Err? ==> FailedAs(base, w, cleanup) && cleanup.why.Some? && cleanup.stage in {Absent, Tearing, Reserved}
      ensures r.Err? ==> r.error == IoError
    {
      hide At, RaisedIn, StageLeft, Explained;
      cleanup := CleanedUp(Some(Looking), Absent);
      ReservingFailed(w, Looking, Absent, Durable);
      StageRemovals(cfg, base, w);
      var validated := volume.Access();
      if !validated { return Err(IoError), cleanup; }
      if w.artifactId in volume.disk.committed { return Err(Conflict), cleanup; }
      ghost var stage, why;
      r, stage, why := WriteReservation(w, base);
      if r != Err(IoError) { return; }
      var pending := RemoveDurably(PendingName(w.artifactId));
      cleanup := CleanedUp(why, stage).(pending := pending);
      ReservingFailed(w, why.value, stage, pending);
      assert volume.disk in {At(cfg, base, w, stage), At(cfg, base, w, Absent)};
      BeforeOrBack(base, w, false, NewlyShown());
      assert volume.raised == old(volume.raised) + RaisedIn(w, cleanup);
    }

    lemma BeforeOrBack(base: Disk, w: Deposit, orphans: bool, shown: seq<Disk>)
      requires Free(base, w)
      requires forall s <- shown ::
                 || s == base || s == At(cfg, base, w, Tearing) || s == At(cfg, base, w, Reserved)
                 || (orphans && s == At(cfg, base, w, Orphaned))
      ensures AllStages(base, w, orphans, shown) && At(cfg, base, w, Committed) !in shown
    {
      assert base == At(cfg, base, w, Absent);
      NotYetCommitted(base, w, shown);
    }

    lemma NotYetCommitted(base: Disk, w: Deposit, shown: seq<Disk>)
      requires Free(base, w) && forall s <- shown :: w.path !in s.targets
      ensures At(cfg, base, w, Committed) !in shown
    {
      assert w.path in At(cfg, base, w, Committed).targets;
    }

    /** Create, fill and sync the pending record. */
    method WriteReservation(w: Deposit, ghost base: Disk)
      returns (r: Result<(), Failure>, ghost stage: Stage, ghost why: Option<Op>)
      requires volume.disk == base && base.pending == map[] && Free(base, w)
      modifies volume
      ensures volume.temps == old(volume.temps) && volume.garbled == old(volume.garbled)
      ensures volume.durable.hasty == old(volume.durable.hasty)
      ensures volume.raised == old(volume.raised) + Ops(why) && (r.Ok? <==> why == None)
      ensures r.Err? ==> r.error == IoError && Explained(CleanedUp(why, stage))
      ensures r.Ok? ==> stage == Reserved && w.artifactId in volume.durable.markers
      ensures stage in {Absent, Tearing, Reserved} && volume.disk == At(cfg, base, w, stage)
      ensures volume.seen == old(volume.seen)
              + (if stage == Absent then []
                 else if stage == Tearing then [At(cfg, base, w, Tearing)]
                 else [At(cfg, base, w, Tearing), At(cfg, base, w, Reserved)])
    {
      stage, why, r := Absent, Some(CreatingMarker), Err(IoError);
      var created := volume.CreateMarker(w.artifactId);
      if created == Exists { return Err(Conflict), stage, None; }
      if created == Raised { return; }
      stage, why := Tearing, Some(WritingMarker);
      var done := volume.WriteMarker(RecordOf(cfg, w), w.artifactId);
      if !done { return; }
      stage, why := Reserved, Some(SyncingMarker);
      assert base.pending[w.artifactId := Torn][w.artifactId := Whole(RecordOf(cfg, w))]
          == base.pending[w.artifactId := Whole(RecordOf(cfg, w))];
      done := volume.SyncMarker(w.artifactId);
      if !done { return; }
      done := volume.SyncIds();
      if done { r, why := Ok(()), None; } else { why := Some(SyncingIds); }
    }

    /** The body of `_put`'s `try`, from the temporary file to the committed record. */
    method Attempt(w: Deposit, ghost base: Disk)
      returns (failure: Option<Failure>, temp: Option<nat>, published: bool, ghost stage: Stage, ghost why: Option<Op>)
      requires base.pending == map[] && Free(base, w)
      requires volume.disk == At(cfg, base, w, Reserved) && w.artifactId in volume.durable.markers
      modifies volume
      ensures stage in {Reserved, Published, Committed} && volume.disk == At(cfg, base, w, stage)
      ensures published <==> stage != Reserved
      ensures failure == None ==> stage == Committed && temp == None
      ensures failure == None ==> w.artifactId in volume.durable.records
                                  && w.path in volume.durable.contents * volume.durable.entries
      ensures FailsBy(failure, stage, why) && volume.durable.hasty == old(volume.durable.hasty)
      ensures temp == None ==> volume.temps == old(volume.temps)
      ensures temp.Some? ==> volume.temps - {temp.value} == old(volume.temps)
      ensures volume.seen == old(volume.seen) + PublishedSince(base, w, stage)
    {
      published, stage := false, Reserved;
      failure, temp, why := WriteTemporary(w);
      if failure != None { return; }
      failure, temp, published, stage, why := Publish(w, temp.value, base);
    }

    /** Since the old state `why` has raised, or wrong bytes have been stored and found, exactly if there is a
        `failure`, and that is what can fail a put at `stage`. */
    twostate predicate FailsBy(new failure: Option<Failure>, stage: Stage, new why: Option<Op>)
      reads volume
    {
      && volume.raised == old(volume.raised) + Ops(why) && volume.garbled >= old(volume.garbled)
      && (failure != None <==> why.Some? || volume.garbled != old(volume.garbled))
      && (failure != None ==> Explained(CleanedUp(why, stage)) && (why.Some? || stage == Reserved))
      && (failure != None ==> failure.value == if why.Some? then IoError else Integrity)
      && (why == Some(SyncingIds) ==> volume.garbled == old(volume.garbled))
    }

    function PublishedSince(base: Disk, w: Deposit, stage: Stage): seq<Disk> {
      if stage == Published then [At(cfg, base, w, Published)]
      else if stage == Committed then [At(cfg, base, w, Published), At(cfg, base, w, Committed)]
      else []
    }

    /** Some operation raised, or stored the wrong bytes, exactly if `some`. */
    twostate predicate Trouble(some: bool)
      reads volume
    {
      && old(volume.raised) <= volume.raised && volume.garbled >= old(volume.garbled)
      && (some <==> volume.raised != old(volume.raised) || volume.garbled != old(volume.garbled))
    }

    /** Write the temporary file, sync it, and read it back. */
    method WriteTemporary(w: Deposit)
      returns (failure: Option<Failure>, temp: Option<nat>, ghost why: Option<Op>)
      modifies volume
      ensures volume.disk == old(volume.disk) && volume.seen == old(volume.seen)
      ensures volume.durable == old(volume.durable).(temps := volume.durable.temps)
      ensures FailsBy(failure, Reserved, why)
      ensures temp == None ==> failure != None && volume.temps == old(volume.temps)
      ensures temp.Some? ==> temp.value in volume.temps && volume.temps - {temp.value} == old(volume.temps)
      ensures failure == None ==> volume.temps[temp.value] == w.content && temp.value in volume.durable.temps
    {
      failure, why := Some(IoError), Some(CreatingTemp);
      temp := volume.CreateTemp();
      if temp == None { return; }
      var t := temp.value;
      assert volume.temps - {t} == old(volume.temps);
      why := Some(WritingTemp);
      var done := volume.WriteTemp(t, w.content);
      assert volume.temps - {t} == old(volume.temps);
      if !done { return; }
      why := Some(SyncingTemp);
      done := volume.SyncTemp(t);
      if !done { return; }
      why := Some(Looking);
      done := volume.Access();
      if !done { return; }
      failure, why := if volume.temps[t] == w.content then None else Some(Integrity), None;
    }

    /** Link the checked file at its path, drop the temporary name, and commit the record. */
    method Publish(w: Deposit, t: nat, ghost base: Disk)
      returns (failure: Option<Failure>, temp: Option<nat>, published: bool, ghost stage: Stage, ghost why: Option<Op>)
      requires base.pending == map[] && Free(base, w)
      requires volume.disk == At(cfg, base, w, Reserved) && w.artifactId in volume.durable.markers
      requires t in volume.temps && volume.temps[t] == w.content && t in volume.durable.temps
      modifies volume
      ensures stage in {Reserved, Published, Committed} && volume.disk == At(cfg, base, w, stage)
      ensures published <==> stage != Reserved
      ensures failure == None ==> stage == Committed && temp == None
      ensures failure == None ==> w.artifactId in volume.durable.records
                                  && w.path in volume.durable.contents * volume.durable.entries
      ensures FailsBy(failure, stage, why) && volume.garbled == old(volume.garbled)
      ensures volume.durable.hasty == old(volume.durable.hasty)
      ensures temp == None ==> volume.temps == old(volume.temps) - {t}
      ensures temp.Some? ==> temp.value == t && volume.temps == old(volume.temps)
      ensures volume.seen == old(volume.seen) + PublishedSince(base, w, stage)
    {
      failure, temp, published, stage, why := Some(IoError), Some(t), false, Reserved, Some(Linking);
      var linked := volume.Link(t, w.path);
      if linked != Done {
        failure := Some(if linked == Exists then Conflict else IoError);
        return;
      }
      published, stage, why := true, Published, Some(UnlinkingTemp);
      var done := volume.UnlinkTemp(t);
      if !done { return; }
      temp, why := None, Some(SyncingParent);
      done := volume.SyncParent(w.path);
      if !done { return; }
      assert volume.SafeTarget(volume.disk.pending[w.artifactId]);
      var committed := CommitArtifactId(w.artifactId);
      assert base.pending[w.artifactId := Whole(RecordOf(cfg, w))] - {w.artifactId} == base.pending;
      if w.artifactId in volume.disk.committed { stage := Committed; }
      if committed.Ok? { failure := None; }
      why := if committed.Ok? then None else Some(if stage == Committed then SyncingIds else RenamingMarker);
    }

    /** The `except` clause of `_put`. What each removal did decides what is left, and the moment at which a
        committed record has no artifact is there for others to see. */
    method Rollback(w: Deposit, published: bool, ghost base: Disk, ghost stage: Stage, ghost why: Option<Op>)
      returns (completed: bool, ghost cleanup: Cleanup)
      requires base.pending == map[] && Free(base, w) && volume.disk == At(cfg, base, w, stage)
      requires stage in {Reserved, Published, Committed} && (published <==> stage != Reserved)
      requires Explained(CleanedUp(why, stage))
      modifies volume
      ensures volume.temps == old(volume.temps) && volume.garbled == old(volume.garbled)
      ensures volume.durable.hasty == old(volume.durable.hasty)
      ensures RolledBack(w, base, stage, why, cleanup) && !cleanup.tempStuck && (completed <==> !GaveUp(cleanup))
      ensures Sound(cfg, base) && Fits(cfg, w) ==>
                (Sound(cfg, volume.disk) && Settle(volume.disk) == base <==> MadeGood(w, Ops(why) + NewlyRaised()))
    {
      completed, cleanup := RemoveAll(w, published, base, stage, why);
      assert RaisedIn(w, cleanup) == Ops(why) + NewlyRaised();
      if Sound(cfg, base) && Fits(cfg, w) { UndoneExactly(cfg, base, w, cleanup); }
    }

    /** A put that `why` failed at `stage` has been rolled back since the old state, as `cleanup` tells. */
    twostate predicate RolledBack(w: Deposit, base: Disk, stage: Stage, why: Option<Op>, new cleanup: Cleanup)
      reads volume
    {
      && Explained(cleanup) && cleanup.why == why && cleanup.stage == stage
      && volume.disk == At(cfg, base, w, StageLeft(cleanup))
      && volume.raised == old(volume.raised) + RaisedAfter(w, cleanup)
      && OnlyStages(base, w, stage == Committed)
      && (stage == Committed && !cleanup.target.Stuck? ==> At(cfg, base, w, Orphaned) in NewlyShown())
      && At(cfg, base, w, Committed) !in NewlyShown()
    }

    /** Its removals: the artifact first, and the identity files only once that is durable. */
    method RemoveAll(w: Deposit, published: bool, ghost base: Disk, ghost stage: Stage, ghost why: Option<Op>)
      returns (completed: bool, ghost cleanup: Cleanup)
      requires base.pending == map[] && Free(base, w) && volume.disk == At(cfg, base, w, stage)
      requires stage in {Reserved, Published, Committed} && (published <==> stage != Reserved)
      requires Explained(CleanedUp(why, stage))
      modifies volume
      ensures volume.temps == old(volume.temps) && volume.garbled == old(volume.garbled)
      ensures volume.durable.hasty == old(volume.durable.hasty)
      ensures RolledBack(w, base, stage, why, cleanup) && !cleanup.tempStuck && (completed <==> !GaveUp(cleanup))
    {
      hide At, Free, RaisedAfter, StageLeft, Explained, AllStages, GaveUp;
      completed, cleanup := true, CleanedUp(why, stage);
      StageRemovals(cfg, base, w);
      ghost var unpublishing: seq<Disk> := [];
      if published {
        var target := RemoveDurably(TargetName(w.path));
        completed, cleanup := target != Stuck, cleanup.(target := target);
        unpublishing := if target.Stuck? then [] else [volume.disk];
        assert NewlyShown() == unpublishing;
        BeforeOrBack(base, w, stage == Committed, unpublishing);
        if target != Durable {
          GivenUp(w, why, stage, target);
          return;
        }
      }
      var pending, record := DropRecords(w, base, if stage == Committed then Orphaned else Reserved);
      completed := pending != Stuck && record != Stuck;
      cleanup := cleanup.(pending := pending, record := record);
      GotToRecords(w, why, stage, pending, record);
      BackAtBase(base, w, stage == Committed, unpublishing, NewlyShown());
    }

    lemma BackAtBase(base: Disk, w: Deposit, orphans: bool, unpublishing: seq<Disk>, shown: seq<Disk>)
      requires Free(base, w)
      requires unpublishing == [] || unpublishing == [At(cfg, base, w, if orphans then Orphaned else Reserved)]
      requires shown == unpublishing || shown == unpublishing + [base]
      ensures AllStages(base, w, orphans, shown) && At(cfg, base, w, Committed) !in shown
      ensures unpublishing <= shown
    {
      hide At, AllStages;
      BeforeOrBack(base, w, orphans, shown);
    }

    /** The two removals of identity files that end a rollback; the first one that raises is the last. */
    method DropRecords(w: Deposit, ghost base: Disk, ghost stage: Stage)
      returns (pending: Removal, record: Removal)
      requires base.pending == map[] && Free(base, w) && volume.disk == At(cfg, base, w, stage)
      requires stage in {Reserved, Orphaned}
      modifies volume
      ensures volume.temps == old(volume.temps) && volume.garbled == old(volume.garbled)
      ensures volume.durable.hasty == old(volume.durable.hasty)
      ensures volume.raised == old(volume.raised) + RaisedBy(PendingName(w.artifactId), pending)
                               + (if pending.Stuck? then [] else RaisedBy(CommittedName(w.artifactId), record))
      ensures stage == Reserved ==> record.Durable?
      ensures stage == Orphaned ==> pending.Durable?
      ensures volume.disk == if pending.Stuck? || record.Stuck? then At(cfg, base, w, stage) else base
      ensures volume.seen == old(volume.seen) || volume.seen == old(volume.seen) + [base]
    {
      StageRemovals(cfg, base, w);
      record := Durable;
      var first := RemoveDurably(PendingName(w.artifactId));
      pending := first;
      if first == Stuck { return; }
      var second := RemoveDurably(CommittedName(w.artifactId));
      record := second;
    }

    /** `_put` once the id is reserved: its `try`, its `except` and its `finally`. */
    method Carry(w: Deposit, ghost base: Disk) returns (r: Result<(), Failure>, ghost cleanup: Cleanup)
      requires base.pending == map[] && Free(base, w)
      requires volume.disk == At(cfg, base, w, Reserved) && w.artifactId in volume.durable.markers
      modifies volume
      ensures Trouble(r.Err?) && volume.durable.hasty == old(volume.durable.hasty)
      ensures r.Ok? ==> volume.disk == At(cfg, base, w, Committed) && volume.temps == old(volume.temps)
      ensures r.Ok? ==> w.artifactId in volume.durable.records
                        && w.path in volume.durable.contents * volume.durable.entries
      ensures r.Ok? ==> volume.seen == old(volume.seen) + [At(cfg, base, w, Published), At(cfg, base, w, Committed)]
      ensures OnlyStages(base, w, volume.raised != old(volume.raised))
      ensures r.Err? ==> FailedAs(base, w, cleanup) && r.error == ErrorOf(cleanup) && AfterReserving(cleanup)
    {
      hide RaisedAfter, StageLeft, Explained, Free;
      cleanup := NOTHING_TO_CLEAN;
      ghost var stage, why;
      var failure, temp, published;
      failure, temp, published, stage, why := Attempt(w, base);
      if failure == None {
        PublishedStages(base, w, stage);
        assert NewlyShown() == PublishedSince(base, w, stage);
        return Ok(()), cleanup;
      }
      ghost var attempted, attempting := volume.seen, NewlyShown();
      assert attempting == PublishedSince(base, w, stage);
      var completed;
      completed, cleanup := Undo(w, published, temp, base, stage, why);
      r := Err(if completed then failure.value else IoError);
      ghost var since := volume.seen[|attempted|..];
      TellsOfRollback(base, w, cleanup, since);
      PublishedStages(base, w, stage);
      StagesJoin(base, w, attempting, stage == Committed, since);
      assert NewlyShown() == attempting + since;
      assert volume.raised == old(volume.raised) + RaisedIn(w, cleanup);
    }

    /** Its `except` and `finally`. */
    method Undo(w: Deposit, published: bool, temp: Option<nat>, ghost base: Disk, ghost stage: Stage,
                ghost why: Option<Op>)
      returns (completed: bool, ghost cleanup: Cleanup)
      requires base.pending == map[] && Free(base, w) && volume.disk == At(cfg, base, w, stage)
      requires stage in {Reserved, Published, Committed} && (published <==> stage != Reserved)
      requires Explained(CleanedUp(why, stage))
      modifies volume
      ensures volume.garbled == old(volume.garbled) && volume.durable.hasty == old(volume.durable.hasty)
      ensures !cleanup.tempStuck ==>
                volume.temps == if temp == None then old(volume.temps) else old(volume.temps) - {temp.value}
      ensures RolledBack(w, base, stage, why, cleanup) && (completed <==> !GaveUp(cleanup) && !cleanup.tempStuck)
    {
      completed, cleanup := Rollback(w, published, base, stage, why);
      ghost var removing := RaisedRemoving(w, cleanup);
      var tempStuck := DropTemp(temp);
      completed, cleanup := completed && !tempStuck, cleanup.(tempStuck := tempStuck);
      assert volume.raised == old(volume.raised) + (removing + if tempStuck then [UnlinkingTemp] else []);
    }

    /** The `finally` clause of `_put`. */
    method DropTemp(temp: Option<nat>) returns (stuck: bool)
      modifies volume
      ensures volume.disk == old(volume.disk) && volume.seen == old(volume.seen)
      ensures volume.durable == old(volume.durable) && volume.garbled == old(volume.garbled)
      ensures volume.raised == old(volume.raised) + (if stuck then [UnlinkingTemp] else [])
      ensures stuck ==> temp.Some?
      ensures !stuck ==> volume.temps == if temp == None then old(volume.temps) else old(volume.temps) - {temp.value}
    {
      stuck := false;
      if temp.Some? {
        var dropped := volume.UnlinkTemp(temp.value);
        stuck := !dropped;
      }
    }

    /** The part of `_put` that changes the disk after its recovery and its two conflict checks. */
    method Place(w: Deposit, ghost base: Disk) returns (r: Result<(), Failure>, ghost cleanup: Cleanup)
      requires volume.disk == base && base.pending == map[] && Free(base, w)
      modifies volume
      ensures Trouble(r.Err?) && volume.durable.hasty == old(volume.durable.hasty)
      ensures r.Ok? ==> volume.disk == At(cfg, base, w, Committed) && volume.temps == old(volume.temps)
      ensures r.Ok? ==> w.artifactId in volume.durable.records
                        && w.path in volume.durable.contents * volume.durable.entries
      ensures r.Ok? ==> volume.seen == old(volume.seen)
                          + [At(cfg, base, w, Tearing), At(cfg, base, w, Reserved),
                             At(cfg, base, w, Published), At(cfg, base, w, Committed)]
      ensures OnlyStages(base, w, volume.raised != old(volume.raised))
      ensures r.Err? ==> FailedAs(base, w, cleanup) && r.error == ErrorOf(cleanup) && AfterReserving(cleanup)
    {
      hide RaisedAfter, StageLeft, Explained, At, Tells;
      r, cleanup := Reserve(w, base);
      if r.Err? { return; }
      ghost var reserved, reserving := volume.seen, NewlyShown();
      assert reserving == [At(cfg, base, w, Tearing), At(cfg, base, w, Reserved)];
      BeforeOrBack(base, w, false, reserving);
      r, cleanup := Carry(w, base);
      ghost var carrying := volume.seen[|reserved|..];
      assert NewlyShown() == reserving + carrying;
      StagesJoin(base, w, reserving, volume.raised != old(volume.raised), carrying);
      if r.Err? { TellsLater(base, w, cleanup, reserving, carrying); }
    }

    /** One operation misbehaved: it raised, or it stored the wrong bytes. */
    twostate predicate RaisedOnce()
      reads volume
    {
      |volume.raised| - |old(volume.raised)| + volume.garbled - old(volume.garbled) <= 1
    }

    /** Nothing misbehaved but syncs of the artifact's directory. */
    twostate predicate RaisedOnlyByParents()
      requires old(volume.raised) <= volume.raised
      reads volume
    {
      volume.garbled == old(volume.garbled) && forall op <- NewlyRaised() :: op == SyncingParent
    }

    predicate WellFormed(req: ArtifactWrite) {
      req.kind != "" && Fits(cfg, DepositOf(req))
    }

    predicate Acceptable(req: ArtifactWrite) {
      WellFormed(req) && !sensitive(req)
    }

    /** Recovery can make the same files of the disk a failed put left as of the one it found. */
    twostate predicate Restored()
      reads volume
    {
      && SameFiles(Settle(volume.disk), Settle(old(volume.disk)))
      && (Sound(cfg, volume.disk) <==> Sound(cfg, old(volume.disk)))
    }

    /** Every disk shown since the old state, and the one there now, is one that a put of `w` can leave. */
    twostate predicate OnlyInterrupted(w: Deposit)
      reads volume
    {
      && old(volume.seen) <= volume.seen
      && AllInterrupted(old(volume.disk), w, volume.raised != old(volume.raised), NewlyShown() + [volume.disk])
    }

    ghost predicate AllInterrupted(d: Disk, w: Deposit, faulty: bool, shown: seq<Disk>) {
      forall s <- shown :: Interrupted(cfg, d, w, faulty, s)
    }

    lemma InterruptedJoin(d: Disk, w: Deposit, settling: seq<Disk>, faulty: bool, placing: seq<Disk>)
      requires forall s <- settling :: PartlySettled(cfg, d, s)
      requires Sound(cfg, d) && Fits(cfg, w) && (Free(Settle(d), w) || placing == [Settle(d)])
      requires AllStages(Settle(d), w, faulty, placing)
      ensures AllInterrupted(d, w, faulty, settling + placing)
    {
      SettleIsSettled(cfg, d);
    }

    /** The same from the making of directories on. */
    twostate predicate OnlyPutShows(w: Deposit)
      reads volume
    {
      && old(volume.seen) <= volume.seen
      && AllPutShows(old(volume.disk), w, volume.raised != old(volume.raised), NewlyShown() + [volume.disk])
    }

    ghost predicate AllPutShows(d: Disk, w: Deposit, faulty: bool, shown: seq<Disk>) {
      forall s <- shown :: PutShows(cfg, d, w, faulty, s)
    }

    lemma ShowsJoin(d: Disk, w: Deposit, making: seq<Disk>, faulty: bool, locked: seq<Disk>)
      requires forall s <- making :: PartlyReady(d, w.path, s)
      requires Clear(d, w.path) && AllInterrupted(Ready(d, w.path), w, faulty, locked)
      ensures AllPutShows(d, w, faulty, making + locked)
    {
    }

    /** What a put of `w` that returned has made of the disk on which `base` was settled, and what it has synced. */
    twostate predicate Stored(base: Disk, w: Deposit)
      reads volume
    {
      && volume.disk == At(cfg, base, w, Committed) && volume.temps == old(volume.temps)
      && old(volume.seen) <= volume.seen
      && At(cfg, base, w, Tearing) in NewlyShown() && At(cfg, base, w, Reserved) in NewlyShown()
      && w.artifactId in volume.durable.records && w.path in volume.durable.contents * volume.durable.entries
    }

    /** The part of `_put` under the lock. `recovered`: its recovery completed. */
    method PutLocked(w: Deposit) returns (r: Result<(), Failure>, ghost recovered: bool, ghost cleanup: Cleanup)
      requires Valid() && Fits(cfg, w)
      modifies this, volume
      ensures Valid() && old(volume.raised) <= volume.raised && OnlyInterrupted(w)
      ensures r.Ok? ==> Stored(Settle(old(volume.disk)), w)
      ensures r.Ok? ==> Sound(cfg, old(volume.disk)) && Free(Settle(old(volume.disk)), w)
      ensures Trouble(false) ==> (r.Ok? <==> Sound(cfg, old(volume.disk)) && Free(Settle(old(volume.disk)), w))
      ensures !recovered ==> r.Err? && cleanup == NOTHING_TO_CLEAN && PartlySettled(cfg, old(volume.disk), volume.disk)
      ensures !recovered ==> Aside() && OnlySettled(old(volume.disk)) && Blames(old(volume.disk), r.error)
      ensures r.Err? && recovered ==> FailedAs(Settle(old(volume.disk)), w, cleanup)
      ensures r.Err? && recovered ==>
                if Free(Settle(old(volume.disk)), w) then r.error == ErrorOf(cleanup) && AfterReserving(cleanup)
                else r.error == Conflict
      ensures (volume.raised == old(volume.raised) && Sound(cfg, old(volume.disk))) || r.Ok? ==> recovered
      ensures recovered ==> ids == Settle(old(volume.disk)).committed.Keys + (if r.Ok? then {w.artifactId} else {})
      ensures recovered ==> Sound(cfg, old(volume.disk))
      ensures volume.disk.dirs == old(volume.disk).dirs
      ensures recovered && !Free(Settle(old(volume.disk)), w) ==> cleanup == NOTHING_TO_CLEAN
      ensures volume.durable.hasty <= old(volume.durable.hasty) + old(volume.disk).pending.Keys
    {
      hide RaisedIn, StageLeft, Explained, Sound, At, Tells, AllStages;
      ghost var d := volume.disk;
      recovered, cleanup := false, NOTHING_TO_CLEAN;
      r := Recover();
      InterruptedRecoveryConverges(cfg, d, volume.disk);
      if r.Err? { return; }
      recovered := true;
      ghost var base, settled := volume.disk, volume.seen;
      if Free(base, w) { NotYetCommitted(base, w, settled[|old(volume.seen)|..]); }
      ghost var settling := NewlyShown();
      r, cleanup := PlaceIfFree(w, base);
      SettleTwice(cfg, d);
      ghost var placing := volume.seen[|settled|..];
      assert NewlyShown() == settling + placing && NewlyShown() + [volume.disk] == settling + (placing + [volume.disk]);
      InterruptedJoin(d, w, settling, volume.raised != old(volume.raised), placing + [volume.disk]);
      if r.Err? { TellsLater(base, w, cleanup, settling, placing); }
    }

    /** The part of `_put` after its recovery: the two conflict checks, and the rest. */
    method PlaceIfFree(w: Deposit, ghost base: Disk) returns (r: Result<(), Failure>, ghost cleanup: Cleanup)
      requires volume.disk == base && base.pending == map[]
      requires ids == base.committed.Keys
      modifies this`ids, volume
      ensures Valid() && old(volume.raised) <= volume.raised && volume.garbled >= old(volume.garbled)
      ensures !Free(base, w) ==>
                && r == Err(Conflict) && cleanup == NOTHING_TO_CLEAN
                && volume.seen == old(volume.seen) && volume.disk == base
      ensures old(volume.seen) <= volume.seen
      ensures AllStages(base, w, volume.raised != old(volume.raised), NewlyShown() + [volume.disk])
      ensures r.Ok? ==> Stored(base, w)
      ensures Trouble(false) ==> (r.Ok? <==> Free(base, w))
      ensures r.Err? ==> FailedAs(base, w, cleanup)
      ensures r.Err? && Free(base, w) ==> r.error == ErrorOf(cleanup) && AfterReserving(cleanup)
      ensures ids == base.committed.Keys + (if r.Ok? then {w.artifactId} else {})
      ensures volume.disk.dirs == base.dirs
      ensures volume.durable.hasty == old(volume.durable.hasty)
    {
      cleanup := NOTHING_TO_CLEAN;
      assert base == At(cfg, base, w, Absent);
      if w.artifactId in ids || Taken(volume.disk, w.path) { return Err(Conflict), cleanup; }
      r, cleanup := Place(w, base);
      if r.Err? {
        LeftIsUnderway(base, w, cleanup);
        return;
      }
      assert Underway(cfg, base, w, false, volume.disk);
      ids := ids + {w.artifactId};
    }

    lemma LeftIsUnderway(base: Disk, w: Deposit, c: Cleanup)
      requires Explained(c)
      ensures Underway(cfg, base, w, RaisedIn(w, c) != [], At(cfg, base, w, StageLeft(c)))
    {
      assert c.why.Some? ==> RaisedIn(w, c)[0] == c.why.value;
    }

    /** `_prepare_parent`, which needs no lock. */
    method Prepare(path: Path) returns (ok: bool)
      requires path != []
      modifies volume
      ensures Aside() && volume.durable == old(volume.durable)
      ensures old(volume.seen) <= volume.seen && forall s <- NewlyShown() :: PartlyReady(old(volume.disk), path, s)
      ensures PartlyReady(old(volume.disk), path, volume.disk) && (Valid() <==> old(Valid()))
      ensures ok ==> volume.raised == old(volume.raised)
      ensures ok ==> Clear(old(volume.disk), path) && volume.disk == Ready(old(volume.disk), path)
      ensures !ok && volume.raised == old(volume.raised) ==> !Clear(old(volume.disk), path)
    {
      ghost var d := volume.disk;
      assert Ready(d, path[..0]) == d;
      assert |path| > 0 ==> Ready(d, path[..1]) == d;
      for k := 1 to |path|
        invariant Aside() && volume.durable == old(volume.durable) && volume.raised == old(volume.raised)
        invariant volume.disk == Ready(d, path[..k]) && Clear(d, path[..k])
        invariant old(volume.seen) <= volume.seen && forall s <- NewlyShown() :: PartlyReady(d, path, s)
      {
        OneMoreAncestor(path, k);
        assert path[..k] in Ancestors(path);
        var made := volume.MakeDirectory(path[..k]);
        if made != Done { return false; }
        assert volume.disk == Ready(d, path[..k + 1]);
        var genuine := volume.Access();
        if !genuine { return false; }
      }
      assert path[..|path|] == path;
      return true;
    }

    /** What a put of `w` that failed since the old state has left. It is undone, but for directories it has made,
        exactly if what raised was all made good and no directory it made blocks another record; one misbehaving
        operation, or any number of failing directory syncs beside the artifact, is always made good. Once its record
        was committed, there was a moment without its artifact, unless unlinking that raised. */
    twostate predicate PutFailed(w: Deposit, recovered: bool, new cleanup: Cleanup)
      requires old(volume.raised) <= volume.raised && old(volume.seen) <= volume.seen
      reads volume
    {
      var d, base := old(volume.disk), Base(old(volume.disk), w);
      && (Restored() <==> MadeGood(w, NewlyRaised()) && (Sound(cfg, d) ==> !HasBlocked(volume.disk)))
      && (Sound(cfg, volume.disk) ==> Sound(cfg, d))
      && (RaisedOnce() || RaisedOnlyByParents() ==>
            MadeGood(w, NewlyRaised()) && volume.temps == old(volume.temps))
      && (Free(base, w) && At(cfg, base, w, Committed) in NewlyShown()
          && Unlinking(TargetName(w.path)) !in NewlyRaised() ==>
            recovered && At(cfg, base, w, Orphaned) in NewlyShown())
      && (if recovered then FailedAs(base, w, cleanup)
          else PartlyReady(d, w.path, volume.disk) || PartlySettled(cfg, Ready(d, w.path), volume.disk))
    }

    /** What the caller of a put of `w` that failed since the old state is told. The bytes it wrote come back wrong, and
        that is what it is told unless something else raised; a sync after a removal may fail unnoticed. */
    twostate predicate Reports(w: Deposit, recovered: bool, error: Failure)
      requires old(volume.raised) <= volume.raised
      reads volume
    {
      var ready := Ready(old(volume.disk), w.path);
      if !recovered then
        if volume.raised != old(volume.raised) || !Clear(old(volume.disk), w.path) then error == IoError
        else FaultOf(cfg, ready, error)
      else if !Free(Settle(ready), w) then error == Conflict
      else error == if volume.garbled > old(volume.garbled) && NewlyRaised() in {[], [SyncingIds]} then Integrity
                    else IoError
    }

    /** Store one artifact. Without trouble it is all or nothing. No trouble of any kind, and no kill, takes away what
        was there before. `recovered`: its recovery completed. */
    method Put(req: ArtifactWrite)
      returns (r: Result<ArtifactRef, Failure>, ghost recovered: bool, ghost cleanup: Cleanup)
      requires Valid()
      modifies this, volume
      ensures Valid() && old(volume.raised) <= volume.raised && OnlyPutShows(DepositOf(req))
      ensures !WellFormed(req) ==> r == Err(Invalid)
      ensures WellFormed(req) && sensitive(req) ==> r == Err(Sensitive)
      ensures Acceptable(req) && r.Err? ==> Reports(DepositOf(req), recovered, r.error)
      ensures Acceptable(req) && recovered && !Free(Base(old(volume.disk), DepositOf(req)), DepositOf(req)) ==>
                r == Err(Conflict)
      ensures r == Err(IoError) ==> volume.raised != old(volume.raised) || !Clear(old(volume.disk), req.path)
      ensures r == Err(Integrity) ==>
                volume.garbled > old(volume.garbled) || !Sound(cfg, Ready(old(volume.disk), req.path))
      ensures !Acceptable(req) ==>
                r.Err? && ids == old(ids) && volume.disk == old(volume.disk) && volume.seen == old(volume.seen)
      ensures r.Ok? ==> r.value.artifactId == req.artifactId && r.value.kind == req.kind && r.value.path == req.path
                        && r.value.sha256 == cfg.digest(req.content) && r.value.byteSize == |req.content|
      ensures r.Ok? ==> r.value == RefOf(cfg, req) && Returned(cfg, old(volume.disk), DepositOf(req), volume.disk)
                        && Stored(Base(old(volume.disk), DepositOf(req)), DepositOf(req))
      ensures Acceptable(req) && Trouble(false) ==> (r.Ok? <==> CanPut(cfg, old(volume.disk), DepositOf(req)))
      ensures r.Err? ==> PutFailed(DepositOf(req), recovered, cleanup)
      ensures Acceptable(req) && volume.raised == old(volume.raised) && Clear(old(volume.disk), req.path) ==>
                Ancestors(req.path) <= volume.disk.dirs
      ensures recovered ==> Acceptable(req) && Sound(cfg, Ready(old(volume.disk), req.path))
      ensures recovered && !Free(Base(old(volume.disk), DepositOf(req)), DepositOf(req)) ==> cleanup == NOTHING_TO_CLEAN
      ensures r.Ok? ==> recovered
      ensures Acceptable(req) && volume.raised == old(volume.raised) && Clear(old(volume.disk), req.path)
              && Sound(cfg, Ready(old(volume.disk), req.path)) ==>
                recovered
      ensures recovered ==> ids == Base(old(volume.disk), DepositOf(req)).committed.Keys
                                   + (if r.Ok? then {req.artifactId} else {})
      ensures volume.durable.hasty <= old(volume.durable.hasty) + old(volume.disk).pending.Keys
    {
      hide PartlyReady, MadeGood, HasBlocked, Sound, At, Settle;
      StoppedBefore(DepositOf(req), volume.disk);
      assert NewlyRaised() == [] && NewlyShown() == [];
      recovered, cleanup := false, NOTHING_TO_CLEAN;
      if req.artifactId == "" || !Allowed(req.path) { return Err(Invalid), recovered, cleanup; }
      if req.kind == "" || |req.content| > cfg.maxArtifactBytes { return Err(Invalid), recovered, cleanup; }
      if sensitive(req) { return Err(Sensitive), recovered, cleanup; }
      var placed;
      placed, recovered, cleanup := PutValid(DepositOf(req));
      r := if placed.Ok? then Ok(RefOf(cfg, req)) else Err(placed.error);
    }

    /** The part of `_put` that does something to the disk. */
    method PutValid(w: Deposit) returns (r: Result<(), Failure>, ghost recovered: bool, ghost cleanup: Cleanup)
      requires Valid() && Fits(cfg, w)
      modifies this, volume
      ensures Valid() && old(volume.raised) <= volume.raised && OnlyPutShows(w)
      ensures r.Ok? ==> recovered && Returned(cfg, old(volume.disk), w, volume.disk)
                        && Stored(Base(old(volume.disk), w), w)
      ensures Trouble(false) ==> (r.Ok? <==> CanPut(cfg, old(volume.disk), w))
      ensures r.Err? ==> PutFailed(w, recovered, cleanup) && Reports(w, recovered, r.error)
      ensures volume.raised == old(volume.raised) && Clear(old(volume.disk), w.path) ==>
                Ancestors(w.path) <= volume.disk.dirs && (Sound(cfg, Ready(old(volume.disk), w.path)) ==> recovered)
      ensures recovered ==> Sound(cfg, Ready(old(volume.disk), w.path))
      ensures recovered && !Free(Base(old(volume.disk), w), w) ==> cleanup == NOTHING_TO_CLEAN
      ensures recovered ==> ids == Base(old(volume.disk), w).committed.Keys + (if r.Ok? then {w.artifactId} else {})
      ensures volume.durable.hasty <= old(volume.durable.hasty) + old(volume.disk).pending.Keys
    {
      hide RaisedIn, MadeGood, StageLeft, Explained, HasBlocked, Sound, At, Interrupted, PartlySettled, PartlyReady,
           Tells, Free, Settle, SameFiles, FaultOf, ErrorOf;
      ghost var d, base := volume.disk, Base(volume.disk, w);
      recovered, cleanup := false, NOTHING_TO_CLEAN;
      var prepared := Prepare(w.path);
      ghost var ready, making := volume.seen, NewlyShown();
      MakingTells(d, w, making);
      if !prepared {
        AloneIsMadeGood(w, NewlyRaised());
        StoppedOnMaking(cfg, d, w.path, volume.disk);
        return Err(IoError), recovered, cleanup;
      }
      r, recovered, cleanup := PutLocked(w);
      ghost var locked := volume.seen[|ready|..];
      assert NewlyShown() == making + locked && making + (locked + [volume.disk]) == NewlyShown() + [volume.disk];
      ShowsJoin(d, w, making, volume.raised != old(volume.raised), locked + [volume.disk]);
      if r.Ok? { return; }
      if recovered {
        assert NewlyRaised() == RaisedIn(w, cleanup);
        TellsLater(base, w, cleanup, making, locked);
        OrphansUnlessStuck(base, w, cleanup, NewlyShown());
        if Free(base, w) { ErrorTold(w, cleanup, volume.garbled > old(volume.garbled)); }
        if RaisedOnce() || RaisedOnlyByParents() {
          FewRaisesAreMadeGood(w, cleanup, volume.garbled - old(volume.garbled));
        }
        FailedOnReady(cfg, d, w, cleanup);
      } else {
        AloneIsMadeGood(w, NewlyRaised());
        SettlingTells(d, w, making, locked);
        StoppedOnReady(cfg, d, w.path, volume.disk);
      }
    }

    lemma SettlingTells(d: Disk, w: Deposit, making: seq<Disk>, settling: seq<Disk>)
      requires forall s <- making :: PartlyReady(d, w.path, s)
      requires forall s <- settling :: PartlySettled(cfg, Ready(d, w.path), s)
      ensures Free(Base(d, w), w) ==> At(cfg, Base(d, w), w, Committed) !in making + settling
    {
      if Free(Base(d, w), w) { NotYetCommitted(Base(d, w), w, making + settling); }
    }

    lemma StoppedBefore(w: Deposit, d: Disk)
      ensures PartlyReady(d, w.path, d) && MadeGood(w, []) && (Sound(cfg, d) ==> !HasBlocked(d))
    {
      assert Ready(d, w.path[..0]) == d;
      if Sound(cfg, d) {
        forall id <- d.pending ensures !Blocked(d, id) { assert SoundPending(cfg, d, id); }
      }
    }

    lemma OrphansUnlessStuck(base: Disk, w: Deposit, cleanup: Cleanup, shown: seq<Disk>)
      requires Tells(base, w, cleanup, shown)
      ensures Free(base, w) && At(cfg, base, w, Committed) in shown ==>
                At(cfg, base, w, Orphaned) in shown || Unlinking(TargetName(w.path)) in RaisedIn(w, cleanup)
    {
      RaisedRemovals(w, cleanup);
    }

    lemma MakingTells(d: Disk, w: Deposit, making: seq<Disk>)
      requires forall s <- making :: PartlyReady(d, w.path, s)
      ensures Free(Base(d, w), w) ==> At(cfg, Base(d, w), w, Committed) !in making
    {
      if Free(Base(d, w), w) { NotYetCommitted(Base(d, w), w, making); }
    }

    method Read(ref: ArtifactRef) returns (r: Result<Bytes, Failure>)
      modifies volume
      ensures volume.disk == old(volume.disk) && volume.seen == old(volume.seen)
      ensures r.Ok? ==> Readable(cfg, volume.disk, ref) && r.value == volume.disk.targets[ref.path]
      ensures volume.raised == old(volume.raised) ==> (r.Ok? <==> Readable(cfg, volume.disk, ref))
      ensures r.Err? ==>
                if volume.raised != old(volume.raised) then r.error == IoError
                else if ref.artifactId == "" || (Recorded(volume.disk, ref) && !Allowed(ref.path)) then
                  r.error == Invalid
                else r.error == Integrity
    {
      if ref.artifactId == "" { return Err(Invalid); }
      if ref.artifactId !in volume.disk.committed { return Err(Integrity); }
      var readable := volume.Access();
      if !readable { return Err(IoError); }
      var marker := volume.disk.committed[ref.artifactId];
      if !marker.Whole? || marker.record.artifactId != ref.artifactId { return Err(Integrity); }
      var record := marker.record;
      if record.relativePath != ref.path || record.byteSize != ref.byteSize || record.sha256 != ref.sha256 {
        return Err(Integrity);
      }
      if !Allowed(ref.path) { return Err(Invalid); }
      if ref.path !in volume.disk.targets {
        var refused := RefuseDirectory(ref.path);
        return Err(refused);
      }
      var statable := volume.Access();
      if !statable { return Err(IoError); }
      var content := volume.disk.targets[ref.path];
      if |content| != ref.byteSize || |content| > cfg.maxArtifactBytes { return Err(Integrity); }
      readable := volume.Access();
      if !readable { return Err(IoError); }
      if cfg.digest(content) != ref.sha256 { return Err(Integrity); }
      return Ok(content);
    }
  }
}
