/** Whole histories of one run directory: any number of stores, stopped anywhere, in any order. */
module ArtifactRuns {
  import opened Wrappers
  import opened StoreState
  import opened FileSystem
  import opened ArtifactStore

  /** One turn at the shared lock. A stopped turn was killed between two file operations, or raised. */
  datatype Turn =
    | Opened
    | OpenStopped
    | PutReturned(w: Deposit)
    | PutStopped(w: Deposit)

  /** Each case is what `Store.Recover` or `Store.Put` promises of the disks it shows. */
  ghost predicate Takes(cfg: Config, d: Disk, turn: Turn, faulty: bool, d': Disk) {
    match turn
    case Opened => Sound(cfg, d) && d' == Settle(d)
    case OpenStopped => PartlySettled(cfg, d, d')
    case PutReturned(w) => Returned(cfg, d, w, d')
    case PutStopped(w) => PutShows(cfg, d, w, faulty, d')
  }

  /** `faulty`: file operations may raise, any number of times. */
  ghost predicate History(cfg: Config, disks: seq<Disk>, turns: seq<Turn>, faulty: bool) {
    && |disks| == |turns| + 1 && disks[0] == EMPTY_DISK
    && forall i :: 0 <= i < |turns| ==> Takes(cfg, disks[i], turns[i], faulty, disks[i + 1])
  }

  predicate HasTorn(d: Disk) {
    exists id <- d.pending :: d.pending[id].Torn?
  }

  /** A committed record whose artifact is gone. */
  predicate HasOrphan(d: Disk) {
    exists id <- d.committed :: d.committed[id].Whole? && d.committed[id].record.relativePath !in d.targets
  }

  lemma SettlingKeepsDamage(cfg: Config, d: Disk, s: Disk)
    requires PartlySettled(cfg, d, s)
    ensures HasTorn(s) <==> HasTorn(d)
    ensures HasOrphan(s) <==> HasOrphan(d)
  {
    if id :| id in d.pending && d.pending[id].Torn? {
      assert !SoundPending(cfg, d, id);
      assert id in s.pending;
    }
    if id :| id in d.committed && d.committed[id].Whole? && d.committed[id].record.relativePath !in d.targets {
      assert id in s.committed;
    }
  }

  lemma SoundHasNoDamage(cfg: Config, d: Disk)
    requires Sound(cfg, d)
    ensures !HasTorn(d) && !HasOrphan(d) && !HasBlocked(d)
  {
    forall id <- d.committed ensures d.committed[id].record.relativePath in d.targets {
      assert SoundCommitted(cfg, d, id);
    }
    forall id <- d.pending ensures !d.pending[id].Torn? && !Blocked(d, id) {
      assert SoundPending(cfg, d, id);
    }
  }

  lemma StageDamage(cfg: Config, base: Disk, w: Deposit, stage: Stage)
    requires base.pending == map[] && Sound(cfg, base) && Free(base, w) && Fits(cfg, w)
    ensures HasTorn(At(cfg, base, w, stage)) <==> stage == Tearing
    ensures HasOrphan(At(cfg, base, w, stage)) <==> stage == Orphaned
    ensures !HasBlocked(At(cfg, base, w, stage))
  {
    var s := At(cfg, base, w, stage);
    SoundHasNoDamage(cfg, base);
    if stage == Tearing { assert s.pending[w.artifactId].Torn?; }
    if stage == Orphaned { assert s.committed[w.artifactId].record.relativePath !in s.targets; }
  }

  /** Recoverable, or damaged in one of the three known ways. */
  ghost predicate Accounted(cfg: Config, d: Disk) {
    Sound(cfg, d) <==> !HasTorn(d) && !HasOrphan(d) && !HasBlocked(d)
  }

  lemma ReadyAccounted(cfg: Config, d: Disk, path: Path)
    requires Accounted(cfg, d)
    ensures Accounted(cfg, Ready(d, path))
    ensures HasTorn(Ready(d, path)) <==> HasTorn(d)
    ensures HasOrphan(Ready(d, path)) <==> HasOrphan(d)
  {
    var s := Ready(d, path);
    ReadySettles(cfg, d, path);
    if id :| id in d.pending && Blocked(d, id) { assert Blocked(s, id); }
    if id :| id in d.pending && d.pending[id].Torn? { assert s.pending[id].Torn?; }
    assert forall id <- d.committed :: id in s.committed && s.committed[id] == d.committed[id];
  }

  lemma TurnAccounted(cfg: Config, d: Disk, turn: Turn, faulty: bool, d': Disk)
    requires Takes(cfg, d, turn, faulty, d') && Accounted(cfg, d)
    ensures Accounted(cfg, d')
    ensures !faulty && !HasOrphan(d) ==> !HasOrphan(d')
  {
    match turn
    case Opened =>
      SettleTwice(cfg, d);
      SoundHasNoDamage(cfg, d');
    case OpenStopped => SettlingAccounted(cfg, d, d');
    case PutReturned(w) =>
      SettleTwice(cfg, Ready(d, w.path));
      StageSettles(cfg, Base(d, w), w, Committed);
      SoundHasNoDamage(cfg, d');
    case PutStopped(w) =>
      if PartlyReady(d, w.path, d') {
        var k :| 0 <= k <= |w.path| && d' == Ready(d, w.path[..k]);
        ReadyAccounted(cfg, d, w.path[..k]);
      } else {
        ReadyAccounted(cfg, d, w.path);
        InterruptedAccounted(cfg, Ready(d, w.path), w, faulty, d');
      }
  }

  lemma SettlingAccounted(cfg: Config, d: Disk, s: Disk)
    requires PartlySettled(cfg, d, s) && Accounted(cfg, d)
    ensures Accounted(cfg, s) && (HasOrphan(s) <==> HasOrphan(d))
  {
    SettlingKeepsDamage(cfg, d, s);
    SettlingKeepsBlocked(cfg, d, s);
    InterruptedRecoveryConverges(cfg, d, s);
  }

  lemma InterruptedAccounted(cfg: Config, d: Disk, w: Deposit, faulty: bool, s: Disk)
    requires Interrupted(cfg, d, w, faulty, s) && Accounted(cfg, d)
    ensures Accounted(cfg, s) && (!faulty && !HasOrphan(d) ==> !HasOrphan(s))
  {
    if PartlySettled(cfg, d, s) {
      SettlingAccounted(cfg, d, s);
    } else {
      var stage := StageOf(cfg, Settle(d), w, faulty, s);
      SettleTwice(cfg, d);
      StageSettles(cfg, Settle(d), w, stage);
      StageDamage(cfg, Settle(d), w, stage);
    }
  }

  ghost function StageOf(cfg: Config, base: Disk, w: Deposit, faulty: bool, s: Disk): (stage: Stage)
    requires Underway(cfg, base, w, faulty, s)
    ensures (faulty || stage != Orphaned) && s == At(cfg, base, w, stage)
  {
    var stage :| (faulty || stage != Orphaned) && s == At(cfg, base, w, stage);
    stage
  }

  /** After any history, whatever raised and wherever it was killed, recovery can succeed exactly if no
      pending record is torn, no committed record has lost its artifact, and no artifact that was never published has
      had its path made a directory; the second kind of damage needs an operation that raised. */
  lemma {:induction false} RecoverableExactly(cfg: Config, disks: seq<Disk>, turns: seq<Turn>, faulty: bool, i: nat)
    requires History(cfg, disks, turns, faulty) && i < |disks|
    ensures Sound(cfg, disks[i]) <==> !HasTorn(disks[i]) && !HasOrphan(disks[i]) && !HasBlocked(disks[i])
    ensures !faulty ==> !HasOrphan(disks[i])
  {
    if i > 0 {
      RecoverableExactly(cfg, disks, turns, faulty, i - 1);
      TurnAccounted(cfg, disks[i - 1], turns[i - 1], faulty, disks[i]);
    }
  }

  /** The puts of a history ask for `a` and for a path below it. */
  ghost predicate Nested(turns: seq<Turn>) {
    exists t <- turns, u <- turns :: PutAbove(t, u)
  }

  predicate PutAbove(t: Turn, u: Turn) {
    (t.PutReturned? || t.PutStopped?) && (u.PutReturned? || u.PutStopped?) && t.w.path in Ancestors(u.w.path)
  }

  /** Every directory was made for a put, and every whole pending record is that of a put. */
  ghost predicate FromTurns(turns: seq<Turn>, d: Disk) {
    && (forall p <- d.dirs :: exists u <- turns :: (u.PutReturned? || u.PutStopped?) && p in Ancestors(u.w.path))
    && (forall id <- d.pending :: d.pending[id].Whole? ==>
          exists t <- turns :: (t.PutReturned? || t.PutStopped?) && t.w.path == d.pending[id].record.relativePath)
  }

  lemma TurnFromTurns(cfg: Config, turns: seq<Turn>, d: Disk, turn: Turn, faulty: bool, d': Disk)
    requires FromTurns(turns, d) && turn in turns && Takes(cfg, d, turn, faulty, d')
    ensures FromTurns(turns, d')
  {
    if turn.PutReturned? || turn.PutStopped? {
      TurnDirs(cfg, d, turn, faulty, d');
      TurnRecords(cfg, d, turn, faulty, d');
    }
  }

  lemma TurnDirs(cfg: Config, d: Disk, turn: Turn, faulty: bool, d': Disk)
    requires Takes(cfg, d, turn, faulty, d') && (turn.PutReturned? || turn.PutStopped?)
    ensures d'.dirs <= d.dirs + Ancestors(turn.w.path)
  {
    if turn.PutStopped? && PartlyReady(d, turn.w.path, d') {
      var k :| 0 <= k <= |turn.w.path| && d' == Ready(d, turn.w.path[..k]);
      forall p <- Ancestors(turn.w.path[..k]) ensures p in Ancestors(turn.w.path) {
        var i :| 1 <= i < k && p == turn.w.path[..k][..i];
        assert p == turn.w.path[..i];
      }
    }
  }

  lemma TurnRecords(cfg: Config, d: Disk, turn: Turn, faulty: bool, d': Disk)
    requires Takes(cfg, d, turn, faulty, d') && (turn.PutReturned? || turn.PutStopped?)
    ensures forall id <- d'.pending ::
              || (id in d.pending && d.pending[id] == d'.pending[id])
              || (d'.pending[id].Whole? ==> d'.pending[id].record.relativePath == turn.w.path)
  {
  }

  lemma {:induction false} AllFromTurns(cfg: Config, disks: seq<Disk>, turns: seq<Turn>, faulty: bool, i: nat)
    requires History(cfg, disks, turns, faulty) && i < |disks|
    ensures FromTurns(turns, disks[i])
  {
    if i > 0 {
      AllFromTurns(cfg, disks, turns, faulty, i - 1);
      TurnFromTurns(cfg, turns, disks[i - 1], turns[i - 1], faulty, disks[i]);
    }
  }

  /** The third kind of damage needs two puts, one to a path below the other's. */
  lemma OnlyNestedPathsBlock(cfg: Config, disks: seq<Disk>, turns: seq<Turn>, faulty: bool, i: nat)
    requires History(cfg, disks, turns, faulty) && i < |disks| && HasBlocked(disks[i])
    ensures Nested(turns)
  {
    AllFromTurns(cfg, disks, turns, faulty, i);
    var id :| id in disks[i].pending && Blocked(disks[i], id);
    var path := disks[i].pending[id].record.relativePath;
    var t :| t in turns && (t.PutReturned? || t.PutStopped?) && t.w.path == path;
    var u :| u in turns && (u.PutReturned? || u.PutStopped?) && path in Ancestors(u.w.path);
    assert PutAbove(t, u);
  }

  /** The abstract store never shows half a put, with any operations raising: recovery after any turn gives the files
      of before the turn, or these with the one whole artifact the turn put, unless the turn left a record without its
      artifact. A put that returned did the second. */
  lemma TurnIsAtomic(cfg: Config, d: Disk, turn: Turn, faulty: bool, d': Disk)
    requires Takes(cfg, d, turn, faulty, d') && (HasOrphan(d') ==> HasOrphan(d))
    ensures SameFiles(Settle(d'), Settle(d)) || Adds(cfg, Settle(d), turn, Settle(d'))
    ensures turn.PutReturned? ==> Adds(cfg, Settle(d), turn, Settle(d'))
  {
    SettleTwice(cfg, d);
    match turn
    case Opened =>
    case OpenStopped => InterruptedRecoveryConverges(cfg, d, d');
    case PutReturned(w) =>
      ReadySettles(cfg, d, w.path);
      SettleTwice(cfg, Ready(d, w.path));
      StageSettles(cfg, Base(d, w), w, Committed);
    case PutStopped(w) =>
      if PartlyReady(d, w.path, d') {
        var k :| 0 <= k <= |w.path| && d' == Ready(d, w.path[..k]);
        ReadySettles(cfg, d, w.path[..k]);
      } else {
        ReadySettles(cfg, d, w.path);
        assert HasOrphan(Ready(d, w.path)) ==> HasOrphan(d);
        InterruptedIsAtomic(cfg, Ready(d, w.path), w, faulty, d');
      }
  }

  lemma InterruptedIsAtomic(cfg: Config, d: Disk, w: Deposit, faulty: bool, s: Disk)
    requires Interrupted(cfg, d, w, faulty, s) && (HasOrphan(s) ==> HasOrphan(d))
    ensures SameFiles(Settle(s), Settle(d)) || Adds(cfg, Settle(d), PutStopped(w), Settle(s))
  {
    if PartlySettled(cfg, d, s) {
      InterruptedRecoveryConverges(cfg, d, s);
    } else {
      var stage := StageOf(cfg, Settle(d), w, faulty, s);
      NotOrphaned(cfg, d, w, stage);
      SettleTwice(cfg, d);
      StageSettles(cfg, Settle(d), w, stage);
      if stage == Tearing { assert Settle(s).committed == Settle(d).committed; }
    }
  }

  lemma NotOrphaned(cfg: Config, d: Disk, w: Deposit, stage: Stage)
    requires Sound(cfg, d) && Free(Settle(d), w) && Fits(cfg, w)
    requires HasOrphan(At(cfg, Settle(d), w, stage)) ==> HasOrphan(d)
    ensures stage != Orphaned
  {
    SettleTwice(cfg, d);
    SoundHasNoDamage(cfg, d);
    StageDamage(cfg, Settle(d), w, stage);
  }

  /** `after` is `before` with exactly the artifact of `turn`: its record, and the bytes that were put. */
  ghost predicate Adds(cfg: Config, before: Disk, turn: Turn, after: Disk) {
    && (turn.PutReturned? || turn.PutStopped?) && Free(before, turn.w)
    && after.pending == before.pending
    && after.committed == before.committed[turn.w.artifactId := Whole(RecordOf(cfg, turn.w))]
    && after.targets == before.targets[turn.w.path := turn.w.content]
  }

  /** Killed anywhere but inside the writing of a pending record, with nothing raised and no path asked for below
      another, every history can be opened again; what the opening finds is whole artifacts only, and the pending
      records are gone; opening again changes nothing. */
  lemma KillAnywhere(cfg: Config, disks: seq<Disk>, turns: seq<Turn>, i: nat)
    requires History(cfg, disks, turns, false) && i < |turns| && !HasTorn(disks[i + 1])
    requires !HasBlocked(disks[i + 1]) || !Nested(turns)
    ensures Sound(cfg, disks[i + 1])
    ensures Settle(disks[i + 1]).pending == map[] && Settle(Settle(disks[i + 1])) == Settle(disks[i + 1])
    ensures SameFiles(Settle(disks[i + 1]), Settle(disks[i]))
            || Adds(cfg, Settle(disks[i]), turns[i], Settle(disks[i + 1]))
    ensures turns[i].PutStopped? && SameFiles(Settle(disks[i + 1]), Settle(disks[i]))
            && Free(Settle(disks[i]), turns[i].w) ==>
              turns[i].w.path !in disks[i + 1].targets && turns[i].w.artifactId !in disks[i + 1].committed
  {
    RecoverableExactly(cfg, disks, turns, false, i + 1);
    if HasBlocked(disks[i + 1]) { OnlyNestedPathsBlock(cfg, disks, turns, false, i + 1); }
    TurnIsAtomic(cfg, disks[i], turns[i], false, disks[i + 1]);
    SettleTwice(cfg, disks[i + 1]);
    assert Settle(disks[i + 1]).targets == disks[i + 1].targets;
  }

  lemma TurnKeeps(cfg: Config, d: Disk, turn: Turn, faulty: bool, d': Disk)
    requires Takes(cfg, d, turn, faulty, d')
    ensures Keeps(d, d')
  {
    if turn.PutReturned? {
      assert Underway(cfg, Base(d, turn.w), turn.w, faulty, d');
      PutShowsKeeps(cfg, d, turn.w, faulty, d');
    } else if turn.PutStopped? {
      PutShowsKeeps(cfg, d, turn.w, faulty, d');
    } else {
      if turn.Opened? { SettleIsSettled(cfg, d); }
      InterruptionKeeps(cfg, d, Deposit("", [], []), faulty, d');
    }
  }

  /** Artifacts stand in directories, and none is one. */
  ghost predicate TreeShaped(d: Disk) {
    forall path <- d.targets :: path !in d.dirs && Ancestors(path) <= d.dirs
  }

  lemma TurnTree(cfg: Config, d: Disk, turn: Turn, faulty: bool, d': Disk)
    requires Takes(cfg, d, turn, faulty, d') && TreeShaped(d)
    ensures TreeShaped(d')
  {
    if turn.PutStopped? && PartlyReady(d, turn.w.path, d') {
      var k :| 0 <= k <= |turn.w.path| && d' == Ready(d, turn.w.path[..k]) && Clear(d, turn.w.path[..k]);
    } else if turn.PutReturned? || turn.PutStopped? {
      assert TreeShaped(Ready(d, turn.w.path));
    }
  }

  /** The paths of a directory stay a tree, in any history. */
  lemma {:induction false} StaysATree(cfg: Config, disks: seq<Disk>, turns: seq<Turn>, faulty: bool, i: nat)
    requires History(cfg, disks, turns, faulty) && i < |disks|
    ensures TreeShaped(disks[i])
  {
    if i > 0 {
      StaysATree(cfg, disks, turns, faulty, i - 1);
      TurnTree(cfg, disks[i - 1], turns[i - 1], faulty, disks[i]);
    }
  }

  /** Every whole record is that of a put, under its own id, and no id is both pending and committed. */
  predicate OwnRecords(d: Disk) {
    && (forall id <- d.pending :: (d.pending[id].Whole? ==> Reads(d.pending[id], id)) && id !in d.committed)
    && (forall id <- d.committed :: Reads(d.committed[id], id))
  }

  lemma SettlingOwnRecords(cfg: Config, d: Disk, s: Disk)
    requires PartlySettled(cfg, d, s) && OwnRecords(d)
    ensures OwnRecords(s)
  {
    forall id <- s.committed ensures Reads(s.committed[id], id) {
      if id !in d.committed { assert AdoptedFrom(d, s, id); }
    }
  }

  lemma StageOwnRecords(cfg: Config, base: Disk, w: Deposit, stage: Stage)
    requires base.pending == map[] && OwnRecords(base) && Free(base, w) && Fits(cfg, w)
    ensures OwnRecords(At(cfg, base, w, stage))
  {
  }

  lemma TurnOwnRecords(cfg: Config, d: Disk, turn: Turn, faulty: bool, d': Disk)
    requires Takes(cfg, d, turn, faulty, d') && OwnRecords(d)
    ensures OwnRecords(d')
  {
    hide At, PartlySettled, Sound;
    match turn
    case Opened =>
      SettleIsSettled(cfg, d);
      SettlingOwnRecords(cfg, d, d');
    case OpenStopped => SettlingOwnRecords(cfg, d, d');
    case PutReturned(w) =>
      SettleIsSettled(cfg, Ready(d, w.path));
      SettlingOwnRecords(cfg, Ready(d, w.path), Base(d, w));
      StageOwnRecords(cfg, Base(d, w), w, Committed);
    case PutStopped(w) =>
      if PartlySettled(cfg, Ready(d, w.path), d') {
        SettlingOwnRecords(cfg, Ready(d, w.path), d');
      } else if !PartlyReady(d, w.path, d') {
        SettleIsSettled(cfg, Ready(d, w.path));
        SettlingOwnRecords(cfg, Ready(d, w.path), Base(d, w));
        StageOwnRecords(cfg, Base(d, w), w, StageOf(cfg, Base(d, w), w, faulty, d'));
      }
  }

  /** Whatever raised, and wherever it was killed, a recovery that nothing raises in never reports a conflict, or a path
      that is not allowed. */
  lemma {:induction false} OnlyIntegrityIsReported(
      cfg: Config, disks: seq<Disk>, turns: seq<Turn>, faulty: bool, i: nat, fault: Failure)
    requires History(cfg, disks, turns, faulty) && i < |disks| && FaultOf(cfg, disks[i], fault)
    ensures fault == Integrity
  {
    AllOwnRecords(cfg, disks, turns, faulty, i);
  }

  lemma {:induction false} AllOwnRecords(cfg: Config, disks: seq<Disk>, turns: seq<Turn>, faulty: bool, i: nat)
    requires History(cfg, disks, turns, faulty) && i < |disks|
    ensures OwnRecords(disks[i])
  {
    if i > 0 {
      AllOwnRecords(cfg, disks, turns, faulty, i - 1);
      TurnOwnRecords(cfg, disks[i - 1], turns[i - 1], faulty, disks[i]);
    }
  }

  /** Once a put has returned, its reference reads back the bytes that were put, for ever after: nothing
      that is later put, rolled back, recovered or killed, with any operations raising, disturbs it. */
  lemma {:induction false} Permanence(
      cfg: Config, disks: seq<Disk>, turns: seq<Turn>, faulty: bool, i: nat, j: nat, kind: string)
    requires History(cfg, disks, turns, faulty) && i < j < |disks| && turns[i].PutReturned?
    ensures var w := turns[i].w;
            && Readable(cfg, disks[j], ArtifactRef(w.artifactId, kind, w.path, cfg.digest(w.content), |w.content|))
            && disks[j].targets[w.path] == w.content
  {
    if j > i + 1 {
      Permanence(cfg, disks, turns, faulty, i, j - 1, kind);
      TurnKeeps(cfg, disks[j - 1], turns[j - 1], faulty, disks[j]);
    }
  }

  /** Of any number of puts of one id, or to one path, by any stores, at most one returns. */
  lemma ReturnedPutsAreDistinct(cfg: Config, disks: seq<Disk>, turns: seq<Turn>, faulty: bool, i: nat, j: nat)
    requires History(cfg, disks, turns, faulty) && i < j < |turns| && turns[i].PutReturned? && turns[j].PutReturned?
    ensures turns[i].w.artifactId != turns[j].w.artifactId && turns[i].w.path != turns[j].w.path
  {
    Permanence(cfg, disks, turns, faulty, i, j, "");
    assert Takes(cfg, disks[j], turns[j], faulty, disks[j + 1]);
    assert turns[i].w.artifactId in Settle(disks[j]).committed;
  }

  /** The window the recovery does not cover: a kill between creating and filling a pending record. */
  lemma TornReservationBricks(cfg: Config, w: Deposit)
    requires Fits(cfg, w)
    ensures var torn := At(cfg, Base(EMPTY_DISK, w), w, Tearing);
            History(cfg, [EMPTY_DISK, torn], [PutStopped(w)], false) && !Sound(cfg, torn)
  {
    var torn := At(cfg, Base(EMPTY_DISK, w), w, Tearing);
    assert Underway(cfg, Base(EMPTY_DISK, w), w, false, torn);
    assert !SoundPending(cfg, torn, w.artifactId);
  }

  /** A rollback that could not finish after the commit leaves a record without its artifact. */
  lemma OrphanedRecordBricks(cfg: Config, w: Deposit)
    requires Fits(cfg, w)
    ensures var orphaned := At(cfg, Base(EMPTY_DISK, w), w, Orphaned);
            History(cfg, [EMPTY_DISK, orphaned], [PutStopped(w)], true) && !Sound(cfg, orphaned)
  {
    var orphaned := At(cfg, Base(EMPTY_DISK, w), w, Orphaned);
    assert Underway(cfg, Base(EMPTY_DISK, w), w, true, orphaned);
    assert !SoundCommitted(cfg, orphaned, w.artifactId);
  }

  /** A put killed with its record whole, and a put to a path below it: neither record is damaged, nothing raised, and
      recovery takes the directory for the artifact. */
  lemma NestedPathBricks(cfg: Config, w: Deposit, v: Deposit)
    requires Fits(cfg, w) && w.path in Ancestors(v.path)
    ensures var reserved := At(cfg, Base(EMPTY_DISK, w), w, Reserved);
            var blocked := Ready(reserved, v.path);
            && History(cfg, [EMPTY_DISK, reserved, blocked], [PutStopped(w), PutStopped(v)], false)
            && Sound(cfg, reserved) && !Sound(cfg, blocked) && !HasTorn(blocked) && !HasOrphan(blocked)
  {
    var reserved := At(cfg, Base(EMPTY_DISK, w), w, Reserved);
    var blocked := Ready(reserved, v.path);
    assert w.path !in Ancestors(w.path);
    StageSettles(cfg, Base(EMPTY_DISK, w), w, Reserved);
    assert Underway(cfg, Base(EMPTY_DISK, w), w, false, reserved);
    assert v.path[..|v.path|] == v.path;
    assert PartlyReady(reserved, v.path, blocked);
    assert !SoundPending(cfg, blocked, w.artifactId);
    var disks, turns := [EMPTY_DISK, reserved, blocked], [PutStopped(w), PutStopped(v)];
    assert Takes(cfg, disks[0], turns[0], false, disks[1]) && Takes(cfg, disks[1], turns[1], false, disks[2]);
  }

  /** Two stores of one directory, the second with a cache that knows nothing of the first's put. */
  method RacePuts(a: Store, b: Store, x: ArtifactWrite, y: ArtifactWrite)
    returns (first: Result<ArtifactRef, Failure>, second: Result<ArtifactRef, Failure>)
    requires a != b && a.volume == b.volume && a.cfg == b.cfg && a.Valid() && b.Valid()
    modifies a, b, a.volume
    ensures first.Ok? && second.Ok? ==> x.artifactId != y.artifactId && x.path != y.path
    ensures first.Ok? ==> Readable(a.cfg, a.volume.disk, first.value) && x.path in a.volume.disk.targets
                          && a.volume.disk.targets[x.path] == x.content
  {
    ghost var d, recovered, cleanup := a.volume.disk, false, NOTHING_TO_CLEAN;
    first, recovered, cleanup := a.Put(x);
    ghost var between, raised := a.volume.disk, a.volume.raised;
    PutShowsKeeps(a.cfg, d, DepositOf(x), a.volume.raised != old(a.volume.raised), between);
    second, recovered, cleanup := b.Put(y);
    PutShowsKeeps(a.cfg, between, DepositOf(y), a.volume.raised != raised, b.volume.disk);
  }

  lemma MoreMayRaise(cfg: Config, d: Disk, turn: Turn, faulty: bool, d': Disk)
    requires Takes(cfg, d, turn, faulty, d')
    ensures Takes(cfg, d, turn, true, d')
  {
    if turn.PutStopped? && !PartlyReady(d, turn.w.path, d') && !PartlySettled(cfg, Ready(d, turn.w.path), d') {
      var stage := StageOf(cfg, Base(d, turn.w), turn.w, faulty, d');
      assert d' == At(cfg, Base(d, turn.w), turn.w, stage);
    }
  }

  lemma OneMoreTurn(cfg: Config, disks: seq<Disk>, turns: seq<Turn>, before: bool, turn: Turn, now: bool, d': Disk)
    requires History(cfg, disks, turns, before) && Takes(cfg, disks[|turns|], turn, now, d')
    ensures History(cfg, disks + [d'], turns + [turn], before || now)
  {
    forall i | 0 <= i < |turns| ensures Takes(cfg, disks[i], turns[i], before || now, disks[i + 1]) {
      MoreMayRaise(cfg, disks[i], turns[i], before, disks[i + 1]);
    }
    MoreMayRaise(cfg, disks[|turns|], turn, now, d');
  }

  /** What a store is asked to do at its turn: open; put; or make the directories for a put whose own turn comes later,
      since a put does that before it waits for the lock. */
  datatype Request = Opening | Putting(req: ArtifactWrite) | Preparing(req: ArtifactWrite)

  /** What a live caller got: the result of a put, or None for anything else and for a put that was killed. */
  type Outcome = Option<Result<ArtifactRef, Failure>>

  /** `turn` is what `request` did, and it is a returned put exactly if its caller got a reference. */
  predicate Answers(cfg: Config, request: Request, turn: Turn, outcome: Outcome) {
    match request
    case Opening => (turn.Opened? || turn.OpenStopped?) && outcome == None
    case Preparing(req) => turn == PutStopped(DepositOf(req)) && outcome == None
    case Putting(req) =>
      && (turn.PutReturned? || turn.PutStopped?) && turn.w == DepositOf(req)
      && (turn.PutReturned? <==> outcome == Some(Ok(RefOf(cfg, req))))
      && (turn.PutStopped? ==> outcome == None || outcome.value.Err?)
  }

  function StoppedTurn(request: Request): Turn {
    if request.Opening? then OpenStopped else PutStopped(DepositOf(request.req))
  }

  /** One turn of a store: what it leaves, and every disk it shows on the way, is what a turn takes. */
  method TakeTurn(store: Store, request: Request) returns (outcome: Outcome, ghost turn: Turn)
    requires store.Valid()
    modifies store, store.volume
    ensures store.Valid() && old(store.volume.seen) <= store.volume.seen
    ensures old(store.volume.raised) <= store.volume.raised
    ensures Answers(store.cfg, request, turn, outcome)
    ensures request.Putting? ==> outcome.Some?
    ensures var volume, faulty := store.volume, store.volume.raised != old(store.volume.raised);
            && Takes(store.cfg, old(volume.disk), turn, faulty, volume.disk)
            && forall s <- volume.seen[|old(volume.seen)|..] ::
                 Takes(store.cfg, old(volume.disk), StoppedTurn(request), faulty, s)
  {
    outcome, turn := None, StoppedTurn(request);
    match request {
      case Opening =>
        var done := store.Recover();
        if done.Ok? { turn := Opened; }
      case Preparing(req) =>
        assert Ready(store.volume.disk, req.path[..0]) == store.volume.disk;
        if req.path != [] { var _ := store.Prepare(req.path); }
      case Putting(req) =>
        var placed, recovered, cleanup := store.Put(req);
        outcome := Some(placed);
        if placed.Ok? { turn := PutReturned(DepositOf(req)); }
    }
  }

  /** Stores of one directory, each with a cache of its own. */
  ghost predicate Sharing(stores: seq<Store>, volume: Volume, cfg: Config)
    reads volume, stores
  {
    && (forall s <- stores :: s.volume == volume && s.cfg == cfg && s.Valid())
    && (forall i, j :: 0 <= i < j < |stores| ==> stores[i] != stores[j])
  }

  lemma StoppedAtOnce(cfg: Config, d: Disk, request: Request)
    ensures Takes(cfg, d, StoppedTurn(request), false, d) && Takes(cfg, d, StoppedTurn(request), true, d)
  {
    if !request.Opening? {
      assert Ready(d, request.req.path[..0]) == d && Clear(d, request.req.path[..0]);
    }
  }

  /** The turn of a store that may be killed after any of its file operations; the others live on. */
  method TakeTurnOrDie(stores: seq<Store>, k: nat, volume: Volume, cfg: Config, request: Request)
    returns (left: seq<Store>, outcome: Outcome, killed: bool, ghost turn: Turn)
    requires k < |stores| && Sharing(stores, volume, cfg)
    modifies stores[k], volume
    ensures Sharing(left, volume, cfg) && (forall s <- left :: s in stores) && old(volume.raised) <= volume.raised
    ensures left == if killed then stores[..k] + stores[k + 1..] else stores
    ensures Takes(cfg, old(volume.disk), turn, volume.raised != old(volume.raised), volume.disk)
    ensures Answers(cfg, request, turn, outcome) && (killed ==> outcome == None)
    ensures !killed && request.Putting? ==> outcome.Some?
  {
    var start, shown := volume.disk, |volume.seen|;
    outcome, turn := TakeTurn(stores[k], request);
    left, killed := stores, *;
    if killed {
      var possible := [start] + volume.seen[shown..];
      var at :| 0 <= at < |possible|;
      assert at > 0 ==> possible[at] in volume.seen[shown..];
      StoppedAtOnce(cfg, start, request);
      volume.disk, outcome, turn := possible[at], None, StoppedTurn(request);
      left := stores[..k] + stores[k + 1..];
    }
    TurnKeeps(cfg, start, turn, volume.raised != old(volume.raised), volume.disk);
  }

  /** Any number of stores take turns at the lock, old ones and newly opened ones in any order. What their
      directory goes through is a history, in which the returned puts are those whose callers got a reference. */
  method AnyHistory(volume: Volume, cfg: Config, sensitive: ArtifactWrite -> bool, requests: seq<Request>)
    returns (outcomes: seq<Outcome>, ghost disks: seq<Disk>, ghost turns: seq<Turn>)
    requires volume.disk == EMPTY_DISK
    modifies volume
    ensures |turns| == |outcomes| == |requests| && History(cfg, disks, turns, volume.raised != old(volume.raised))
    ensures disks[|requests|] == volume.disk
    ensures forall i :: 0 <= i < |requests| ==> Answers(cfg, requests[i], turns[i], outcomes[i])
  {
    hide Takes, Answers;
    disks, turns, outcomes := [volume.disk], [], [];
    var stores: seq<Store> := [];
    for n := 0 to |requests|
      invariant |turns| == |outcomes| == n && old(volume.raised) <= volume.raised
      invariant History(cfg, disks, turns, volume.raised != old(volume.raised)) && disks[n] == volume.disk
      invariant forall i :: 0 <= i < n ==> Answers(cfg, requests[i], turns[i], outcomes[i])
      invariant Sharing(stores, volume, cfg) && forall s <- stores :: fresh(s)
    {
      ghost var raised := volume.raised;
      var store := new Store(volume, cfg, sensitive);
      stores := stores + [store];
      var k :| 0 <= k < |stores|;
      assert stores[k] in stores;
      ghost var turn;
      var outcome, killed;
      stores, outcome, killed, turn := TakeTurnOrDie(stores, k, volume, cfg, requests[n]);
      OneMoreTurn(cfg, disks, turns, raised != old(volume.raised), turn, volume.raised != raised, volume.disk);
      disks, turns, outcomes := disks + [volume.disk], turns + [turn], outcomes + [outcome];
    }
  }

  /** So every reference a caller ever got can be read at the end and holds the bytes put, and no two of them
      have the same id or the same path. */
  method AnyPuts(volume: Volume, cfg: Config, sensitive: ArtifactWrite -> bool, requests: seq<Request>)
    returns (outcomes: seq<Outcome>)
    requires volume.disk == EMPTY_DISK
    modifies volume
    ensures |outcomes| == |requests|
    ensures forall i | 0 <= i < |requests| && Got(outcomes[i]) ::
              requests[i].Putting? && Kept(cfg, volume.disk, requests[i].req, outcomes[i].value.value)
    ensures forall i, j | 0 <= i < j < |requests| && Got(outcomes[i]) && Got(outcomes[j]) ::
              && outcomes[i].value.value.artifactId != outcomes[j].value.value.artifactId
              && outcomes[i].value.value.path != outcomes[j].value.value.path
  {
    ghost var disks, turns;
    outcomes, disks, turns := AnyHistory(volume, cfg, sensitive, requests);
    ghost var faulty := volume.raised != old(volume.raised);
    forall i | 0 <= i < |requests| && Got(outcomes[i])
      ensures requests[i].Putting? && Kept(cfg, volume.disk, requests[i].req, outcomes[i].value.value)
    {
      assert Answers(cfg, requests[i], turns[i], outcomes[i]);
      Permanence(cfg, disks, turns, faulty, i, |requests|, requests[i].req.kind);
    }
    forall i, j | 0 <= i < j < |requests| && Got(outcomes[i]) && Got(outcomes[j])
      ensures outcomes[i].value.value.artifactId != outcomes[j].value.value.artifactId
      ensures outcomes[i].value.value.path != outcomes[j].value.value.path
    {
      assert Answers(cfg, requests[i], turns[i], outcomes[i]) && Answers(cfg, requests[j], turns[j], outcomes[j]);
      ReturnedPutsAreDistinct(cfg, disks, turns, faulty, i, j);
    }
  }

  predicate Got(outcome: Outcome) {
    outcome.Some? && outcome.value.Ok?
  }

  ghost predicate Kept(cfg: Config, d: Disk, req: ArtifactWrite, ref: ArtifactRef) {
    ref == RefOf(cfg, req) && Readable(cfg, d, ref) && d.targets[ref.path] == req.content
  }

  /** The window the recovery does not cover, opened by every put: killed between creating and filling its
      pending record, a put that would have returned leaves a directory that can never be opened again. */
  method KilledWhileReserving(store: Store, req: ArtifactWrite)
    returns (r: Result<ArtifactRef, Failure>, reopened: Result<(), Failure>)
    requires store.Valid()
    modifies store, store.volume
    ensures r.Ok? ==> reopened.Err?
  {
    var volume, start := store.volume, store.volume.disk;
    var before := |volume.seen|;
    ghost var recovered, cleanup;
    r, recovered, cleanup := store.Put(req);
    reopened := Err(Conflict);
    if r.Ok? {
      var torn := At(store.cfg, Base(start, DepositOf(req)), DepositOf(req), Tearing);
      var k :| before <= k < |volume.seen| && volume.seen[k] == torn;
      volume.disk := torn;
      SettleTwice(store.cfg, Ready(start, req.path));
      StageSettles(store.cfg, Base(start, DepositOf(req)), DepositOf(req), Tearing);
      var other := new Store(volume, store.cfg, store.sensitive);
      reopened := other.Recover();
    }
  }

  /** Opening the directory after a put that failed. If it succeeds, it finds the files that were there before exactly
      if what the put raised was all made good; if it fails on a directory that could be opened before the put, the put
      has left one of the three kinds of damage, or the opening raised. */
  method ReopenAfterFailure(store: Store, req: ArtifactWrite)
    returns (r: Result<ArtifactRef, Failure>, reopened: Result<(), Failure>)
    requires store.Valid()
    modifies store, store.volume
    ensures old(store.volume.raised) <= store.volume.raised
    ensures r.Err? && reopened.Ok? ==>
              (MadeGood(DepositOf(req), store.volume.raised[|old(store.volume.raised)|..]) <==>
                 SameFiles(store.volume.disk, Settle(old(store.volume.disk))))
    ensures var d := store.volume.disk;
            && (HasTorn(d) || HasOrphan(d) || HasBlocked(d) ==> reopened.Err?)
            && (r.Err? && reopened.Err? && Sound(store.cfg, old(store.volume.disk)) ==>
                  HasTorn(d) || HasOrphan(d) || HasBlocked(d) || store.volume.raised != old(store.volume.raised))
  {
    hide MadeGood, RaisedIn, StageLeft, Explained, Sound, HasTorn, HasOrphan, HasBlocked, Settle, SameFiles, At,
         PutShows, PartlySettled, PartlyReady;
    ghost var start := store.volume.disk;
    ghost var recovered, cleanup;
    r, recovered, cleanup := store.Put(req);
    ghost var left, raised := store.volume.disk, store.volume.raised;
    var other := new Store(store.volume, store.cfg, store.sensitive);
    reopened := other.Recover();
    if reopened.Ok? {
      SettleTwice(store.cfg, left);
      SoundHasNoDamage(store.cfg, left);
      SoundHasNoDamage(store.cfg, store.volume.disk);
    } else if r.Err? && Sound(store.cfg, start) {
      if recovered {
        FailureDamages(store.cfg, start, DepositOf(req), cleanup);
      } else {
        StoppedDamages(store.cfg, start, req.path, left);
      }
      SettlingKeepsDamage(store.cfg, left, store.volume.disk);
      SettlingKeepsBlocked(store.cfg, left, store.volume.disk);
    }
  }

  lemma StoppedDamages(cfg: Config, d: Disk, path: Path, s: Disk)
    requires Sound(cfg, d) && (PartlyReady(d, path, s) || PartlySettled(cfg, Ready(d, path), s))
    ensures Sound(cfg, s) || HasBlocked(s)
  {
    if PartlyReady(d, path, s) { StoppedOnMaking(cfg, d, path, s); } else { StoppedOnReady(cfg, d, path, s); }
  }

  lemma FailureDamages(cfg: Config, d: Disk, w: Deposit, c: Cleanup)
    requires Sound(cfg, Ready(d, w.path)) && Fits(cfg, w) && Explained(c)
    requires Free(Base(d, w), w) || c == NOTHING_TO_CLEAN
    ensures var s := At(cfg, Base(d, w), w, StageLeft(c)); Sound(cfg, s) || HasTorn(s) || HasOrphan(s)
  {
    SettleTwice(cfg, Ready(d, w.path));
    if c == NOTHING_TO_CLEAN {
      assert At(cfg, Base(d, w), w, Absent) == Base(d, w);
    } else {
      StageSettles(cfg, Base(d, w), w, StageLeft(c));
      StageDamage(cfg, Base(d, w), w, StageLeft(c));
    }
  }

  /** The same window for a put that fails once its record is committed: if its rollback got as far as the artifact, a
      kill before the record is gone leaves a directory that can never be opened again. */
  method KilledWhileRollingBack(store: Store, req: ArtifactWrite)
    returns (r: Result<ArtifactRef, Failure>, reopened: Result<(), Failure>)
    requires store.Valid()
    modifies store, store.volume
    ensures old(store.volume.raised) <= store.volume.raised && old(store.volume.seen) <= store.volume.seen
    ensures var w, base := DepositOf(req), Base(old(store.volume.disk), DepositOf(req));
            && r.Err? && Free(base, w)
            && At(store.cfg, base, w, Committed) in store.volume.seen[|old(store.volume.seen)|..]
            && Unlinking(TargetName(w.path)) !in store.volume.raised[|old(store.volume.raised)|..] ==>
              reopened.Err?
  {
    hide MadeGood, RaisedIn, StageLeft, Explained, Sound, HasBlocked, Settle, SameFiles, At, PutShows, PartlyReady,
         PartlySettled, Free;
    var volume, start := store.volume, store.volume.disk;
    var before := |volume.seen|;
    ghost var recovered, cleanup;
    r, recovered, cleanup := store.Put(req);
    ghost var w, base := DepositOf(req), Base(start, DepositOf(req));
    ghost var raising := volume.raised[|old(volume.raised)|..];
    ghost var showing, raised := volume.seen[before..], volume.raised;
    reopened := Err(Conflict);
    var orphaned := At(store.cfg, Base(start, DepositOf(req)), DepositOf(req), Orphaned);
    if orphaned in volume.seen[before..] {
      volume.disk := orphaned;
      var other := new Store(volume, store.cfg, store.sensitive);
      ghost var shown := volume.seen;
      reopened := other.Recover();
      if Free(base, w) { OrphanedForGood(store.cfg, start, w, volume.seen[|shown|..]); }
    }
    assert volume.seen[before..] == showing + volume.seen[before + |showing|..];
    assert volume.raised[|old(volume.raised)|..] == raising + volume.raised[|raised|..];
  }

  lemma OrphanedForGood(cfg: Config, d: Disk, w: Deposit, shown: seq<Disk>)
    requires Free(Base(d, w), w) && forall s <- shown :: PartlySettled(cfg, At(cfg, Base(d, w), w, Orphaned), s)
    ensures !Sound(cfg, At(cfg, Base(d, w), w, Orphaned)) && At(cfg, Base(d, w), w, Committed) !in shown
  {
    assert !SoundCommitted(cfg, At(cfg, Base(d, w), w, Orphaned), w.artifactId);
    assert w.path in At(cfg, Base(d, w), w, Committed).targets;
  }

  /** A record reserved for `w`, and the directories for a path below. */
  lemma NestingBlocks(cfg: Config, start: Disk, w: Deposit, path: Path, s: Disk)
    requires Free(Base(start, w), w) && w.path in Ancestors(path)
    ensures var reserved := At(cfg, Base(start, w), w, Reserved);
            && (Clear(start, path) ==> Clear(reserved, path))
            && !Sound(cfg, Ready(reserved, path))
            && (Ancestors(path) <= s.dirs
                && (PartlyReady(reserved, path, s) || PartlySettled(cfg, Ready(reserved, path), s)) ==>
                  !Sound(cfg, s))
  {
    var reserved := At(cfg, Base(start, w), w, Reserved);
    assert Blocked(Ready(reserved, path), w.artifactId);
    if Sound(cfg, Ready(reserved, path)) { SoundHasNoDamage(cfg, Ready(reserved, path)); }
    if PartlySettled(cfg, Ready(reserved, path), s) {
      SettlingKeepsBlocked(cfg, Ready(reserved, path), s);
    } else if Ancestors(path) <= s.dirs && PartlyReady(reserved, path, s) {
      assert Blocked(s, w.artifactId);
    }
    if Sound(cfg, s) { SoundHasNoDamage(cfg, s); }
  }

  /** The third window: a put killed once its pending record is whole, and before anything opens the directory, a put
      to a path below. From then on it can never be opened again, with nothing raised at all. */
  method KilledBeforeNesting(store: Store, x: ArtifactWrite, y: ArtifactWrite)
    returns (first: Result<ArtifactRef, Failure>, second: Result<ArtifactRef, Failure>,
             reopened: Result<(), Failure>)
    requires store.Valid()
    modifies store, store.volume
    ensures first.Ok? && x.path in Ancestors(y.path) && store.Acceptable(y) && Clear(old(store.volume.disk), y.path)
            && store.volume.raised == old(store.volume.raised) ==>
              second.Err? && reopened.Err?
  {
    hide MadeGood, RaisedIn, StageLeft, Explained, Sound, HasBlocked, Settle, SameFiles, At, Free, PutShows,
         PartlySettled, PartlyReady, Clear;
    var volume, start := store.volume, store.volume.disk;
    var before := |volume.seen|;
    ghost var recovered, cleanup;
    first, recovered, cleanup := store.Put(x);
    second, reopened := Err(Conflict), Err(Conflict);
    if first.Ok? {
      var reserved := At(store.cfg, Base(start, DepositOf(x)), DepositOf(x), Reserved);
      assert reserved in volume.seen[before..];
      volume.disk := reserved;
      var other := new Store(volume, store.cfg, store.sensitive);
      second, recovered, cleanup := other.Put(y);
      ghost var left := volume.disk;
      var third := new Store(volume, store.cfg, store.sensitive);
      reopened := third.Recover();
      if x.path in Ancestors(y.path) { NestingBlocks(store.cfg, start, DepositOf(x), y.path, left); }
    }
  }
}
