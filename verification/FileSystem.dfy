/** The file operations the store performs, each of which may raise, with every visible state recorded. */
module FileSystem {
  import opened Wrappers
  import opened StoreState

  datatype Io = Done | Raised | Exists

  predicate Present(d: Disk, name: Name) {
    match name
    case PendingName(id) => id in d.pending
    case CommittedName(id) => id in d.committed
    case TargetName(path) => path in d.targets
  }

  function Without(d: Disk, name: Name): Disk {
    match name
    case PendingName(id) => d.(pending := d.pending - {id})
    case CommittedName(id) => d.(committed := d.committed - {id})
    case TargetName(path) => d.(targets := d.targets - {path})
  }

  /** Each removal a rollback makes takes a put back one stage. */
  lemma StageRemovals(cfg: Config, base: Disk, w: Deposit)
    requires base.pending == map[] && Free(base, w)
    ensures At(cfg, base, w, Absent) == base
    ensures Present(At(cfg, base, w, Published), TargetName(w.path))
    ensures Present(At(cfg, base, w, Committed), TargetName(w.path))
    ensures Without(At(cfg, base, w, Published), TargetName(w.path)) == At(cfg, base, w, Reserved)
    ensures Without(At(cfg, base, w, Committed), TargetName(w.path)) == At(cfg, base, w, Orphaned)
    ensures Without(At(cfg, base, w, Tearing), PendingName(w.artifactId)) == base
    ensures Without(At(cfg, base, w, Reserved), PendingName(w.artifactId)) == base
    ensures Without(At(cfg, base, w, Orphaned), PendingName(w.artifactId)) == At(cfg, base, w, Orphaned)
    ensures Without(At(cfg, base, w, Orphaned), CommittedName(w.artifactId)) == base
    ensures Without(base, CommittedName(w.artifactId)) == base
  {
    assert base.targets[w.path := w.content] - {w.path} == base.targets;
    assert base.pending[w.artifactId := Torn] - {w.artifactId} == base.pending;
    assert base.pending[w.artifactId := Whole(RecordOf(cfg, w))] - {w.artifactId} == base.pending;
    assert base.committed[w.artifactId := Whole(RecordOf(cfg, w))] - {w.artifactId} == base.committed;
    assert base.committed - {w.artifactId} == base.committed;
  }

  /** What fsync calls have made safe against power loss, and which commits did not wait for it. */
  datatype Durability = Durability(
    markers: set<string>,   // pending files whose content was synced
    records: set<string>,   // committed records synced with their directory entry
    temps: set<nat>,        // temporary files whose content was synced
    contents: set<Path>,    // artifacts linked from a synced temporary file
    entries: set<Path>,     // artifacts whose directory entry was synced
    hasty: set<string>)     // ids committed before their artifact was safe

  /** One directory tree shared by every store of a run. A method that raises has no visible effect. */
  class Volume {
    var disk: Disk
    var temps: map<nat, Bytes>
    var seen: seq<Disk>             // every disk another process could have found, in order
    ghost var raised: seq<Op>       // every operation that raised, in order
    ghost var garbled: nat          // writes that stored other bytes without raising
    ghost var durable: Durability

    constructor ()
      ensures disk == EMPTY_DISK && temps == map[] && seen == [] && raised == [] && garbled == 0
    {
      disk, temps, seen, raised, garbled := EMPTY_DISK, map[], [], [], 0;
      durable := Durability({}, {}, {}, {}, {}, {});
    }

    twostate predicate Failed(op: Op)
      reads this
    {
      && disk == old(disk) && seen == old(seen) && temps == old(temps) && durable == old(durable)
      && raised == old(raised) + [op] && garbled == old(garbled)
    }

    twostate predicate Calm()
      reads this
    {
      raised == old(raised) && garbled == old(garbled)
    }

    twostate predicate Showed(d: Disk)
      reads this
    {
      disk == d && seen == old(seen) + [d] && temps == old(temps) && Calm()
    }

    twostate predicate Unseen()
      reads this
    {
      disk == old(disk) && seen == old(seen) && Calm()
    }

    /** Reading a file, or its attributes: only whether it raises matters here. */
    method Access() returns (ok: bool)
      modifies this
      ensures if ok then Unseen() && temps == old(temps) && durable == old(durable) else Failed(Looking)
    {
      ok := *;
      if !ok { raised := raised + [Looking]; }
    }

    /** `mkdir(exist_ok=True)`: a file in the way is an error, a directory is not. */
    method MakeDirectory(path: Path) returns (io: Io)
      modifies this
      ensures io == Raised ==> Failed(MakingDirectory)
      ensures io == Exists ==> path in disk.targets && Unseen()
      ensures io == Done && path in old(disk.dirs) ==> Unseen()
      ensures io == Done && path !in old(disk.dirs) ==> Showed(old(disk).(dirs := old(disk.dirs) + {path}))
      ensures io == Done ==> path !in disk.targets
      ensures temps == old(temps) && durable == old(durable)
    {
      if * {
        raised := raised + [MakingDirectory];
        return Raised;
      }
      if path in disk.targets { return Exists; }
      if path !in disk.dirs {
        disk := disk.(dirs := disk.dirs + {path});
        seen := seen + [disk];
      }
      return Done;
    }

    method CreateMarker(id: string) returns (io: Io)
      modifies this
      ensures io == Raised ==> Failed(CreatingMarker)
      ensures io == Exists ==> id in disk.pending && Unseen() && temps == old(temps) && durable == old(durable)
      ensures io == Done ==> id !in old(disk.pending)
                             && Showed(old(disk).(pending := old(disk.pending)[id := Torn]))
                             && durable == old(durable).(markers := old(durable.markers) - {id})
    {
      if * {
        raised := raised + [CreatingMarker];
        return Raised;
      }
      if id in disk.pending { return Exists; }
      disk := disk.(pending := disk.pending[id := Torn]);
      seen := seen + [disk];
      durable := durable.(markers := durable.markers - {id});
      return Done;
    }

    method WriteMarker(record: Record, id: string) returns (ok: bool)
      requires id in disk.pending
      modifies this
      ensures !ok ==> Failed(WritingMarker)
      ensures ok ==> Showed(old(disk).(pending := old(disk.pending)[id := Whole(record)])) && durable == old(durable)
    {
      if * {
        raised := raised + [WritingMarker];
        return false;
      }
      disk := disk.(pending := disk.pending[id := Whole(record)]);
      seen := seen + [disk];
      return true;
    }

    method SyncMarker(id: string) returns (ok: bool)
      modifies this
      ensures !ok ==> Failed(SyncingMarker)
      ensures ok ==> Unseen() && temps == old(temps)
                     && durable == old(durable).(markers := old(durable.markers) + {id})
    {
      ok := *;
      if ok {
        durable := durable.(markers := durable.markers + {id});
      } else {
        raised := raised + [SyncingMarker];
      }
    }

    method SyncIds() returns (ok: bool)
      modifies this
      ensures !ok ==> Failed(SyncingIds)
      ensures ok ==> Unseen() && temps == old(temps)
                     && durable == old(durable).(records := disk.committed.Keys * durable.markers)
    {
      ok := *;
      if ok {
        durable := durable.(records := disk.committed.Keys * durable.markers);
      } else {
        raised := raised + [SyncingIds];
      }
    }

    /** `os.replace(<id>.pending, <id>.json)` */
    method RenameMarker(id: string) returns (ok: bool)
      requires id in disk.pending
      modifies this
      ensures !ok ==> Failed(RenamingMarker)
      ensures ok ==> Showed(old(disk).(pending := old(disk.pending) - {id},
                                       committed := old(disk.committed)[id := old(disk.pending[id])]))
      ensures ok ==> durable == old(durable).(records := old(durable.records) - {id}, hasty := old(durable.hasty)
                       + (if old(SafeTarget(disk.pending[id])) then {} else {id}))
    {
      if * {
        raised := raised + [RenamingMarker];
        return false;
      }
      durable := durable.(records := durable.records - {id},
                          hasty := durable.hasty + (if SafeTarget(disk.pending[id]) then {} else {id}));
      disk := disk.(pending := disk.pending - {id}, committed := disk.committed[id := disk.pending[id]]);
      seen := seen + [disk];
      return true;
    }

    ghost predicate SafeTarget(marker: Marker)
      reads this
    {
      marker.Whole? && marker.record.relativePath in durable.contents * durable.entries
    }

    method Unlink(name: Name) returns (ok: bool)
      modifies this
      ensures !ok ==> Present(disk, name) && Failed(Unlinking(name))
      ensures ok && old(Present(disk, name)) ==> Showed(Without(old(disk), name))
      ensures ok && !old(Present(disk, name)) ==> Unseen() && temps == old(temps)
      ensures durable.hasty == old(durable.hasty)
    {
      ok := true;
      if Present(disk, name) {
        if * {
          raised := raised + [Unlinking(name)];
          return false;
        }
        disk := Without(disk, name);
        seen := seen + [disk];
        match name {
          case PendingName(id) => durable := durable.(markers := durable.markers - {id});
          case CommittedName(id) => durable := durable.(records := durable.records - {id});
          case TargetName(path) =>
            durable := durable.(contents := durable.contents - {path}, entries := durable.entries - {path});
        }
      }
    }

    method CreateTemp() returns (created: Option<nat>)
      modifies this
      ensures created == None ==> Failed(CreatingTemp)
      ensures created.Some? ==> Unseen() && created.value !in old(temps) && temps == old(temps)[created.value := []]
                                && durable == old(durable).(temps := old(durable.temps) - {created.value})
    {
      if * {
        raised := raised + [CreatingTemp];
        return None;
      }
      var t := FreshTemp();
      temps := temps[t := []];
      durable := durable.(temps := durable.temps - {t});
      return Some(t);
    }

    method FreshTemp() returns (t: nat)
      ensures t !in temps
    {
      t := 0;
      var left := temps.Keys;
      while t in left
        invariant forall u | u in temps :: u in left || u < t
        decreases left
      {
        left := left - {t};
        t := t + 1;
      }
    }

    /** A write that does not raise may still have stored other bytes. */
    method WriteTemp(t: nat, content: Bytes) returns (ok: bool)
      requires t in temps
      modifies this
      ensures disk == old(disk) && seen == old(seen) && durable == old(durable)
      ensures raised == old(raised) + (if ok then [] else [WritingTemp])
      ensures t in temps && temps == old(temps)[t := temps[t]]
      ensures garbled == old(garbled) + (if ok && temps[t] != content then 1 else 0)
    {
      var stored: Bytes := *;
      temps := temps[t := stored];
      ok := *;
      if !ok {
        raised := raised + [WritingTemp];
      } else if stored != content {
        garbled := garbled + 1;
      }
    }

    method SyncTemp(t: nat) returns (ok: bool)
      modifies this
      ensures !ok ==> Failed(SyncingTemp)
      ensures ok ==> Unseen() && temps == old(temps)
                     && durable == old(durable).(temps := old(durable.temps) + {t})
    {
      ok := *;
      if ok {
        durable := durable.(temps := durable.temps + {t});
      } else {
        raised := raised + [SyncingTemp];
      }
    }

    method UnlinkTemp(t: nat) returns (ok: bool)
      modifies this
      ensures !ok ==> Failed(UnlinkingTemp)
      ensures ok ==> Unseen() && temps == old(temps) - {t} && durable == old(durable)
    {
      ok := *;
      if ok {
        temps := temps - {t};
      } else {
        raised := raised + [UnlinkingTemp];
      }
    }

    /** `os.link(temporary, target)`: atomic, and never overwrites. */
    method Link(t: nat, path: Path) returns (io: Io)
      requires t in temps
      modifies this
      ensures io == Raised ==> Failed(Linking)
      ensures io == Exists ==> Taken(disk, path) && Unseen() && temps == old(temps) && durable == old(durable)
      ensures io == Done ==> !old(Taken(disk, path))
                             && Showed(old(disk).(targets := old(disk.targets)[path := old(temps[t])]))
                             && durable == old(durable).(
                                contents := if t in old(durable.temps) then old(durable.contents) + {path}
                                            else old(durable.contents) - {path},
                                entries := old(durable.entries) - {path})
    {
      if * {
        raised := raised + [Linking];
        return Raised;
      }
      if Taken(disk, path) { return Exists; }
      disk := disk.(targets := disk.targets[path := temps[t]]);
      seen := seen + [disk];
      durable := durable.(
        contents := if t in durable.temps then durable.contents + {path} else durable.contents - {path},
        entries := durable.entries - {path});
      return Done;
    }

    /** Sync the directory that holds the artifact at `path`. */
    method SyncParent(path: Path) returns (ok: bool)
      modifies this
      ensures disk == old(disk) && seen == old(seen) && temps == old(temps) && garbled == old(garbled)
      ensures raised == old(raised) + (if ok then [] else [SyncingParent])
      ensures durable == if !ok then old(durable)
                         else old(durable).(
                           entries := old(durable.entries) + (set p | p in disk.targets && Parent(p) == Parent(path)))
    {
      ok := *;
      if ok {
        durable := durable.(entries := durable.entries + (set p | p in disk.targets && Parent(p) == Parent(path)));
      } else {
        raised := raised + [SyncingParent];
      }
    }
  }
}
