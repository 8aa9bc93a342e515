/**
  The steps that both stores take after their data is encoded: draw a
  temporary file, link a backup, replace, and roll back. Each store calls them
  in its own order with its own names.
 */
module SaveSteps {
  import opened DurableVolume
  import opened SaveProtocol

  const BACKUP := ".backup"

  /** The names a save may draw for itself. */
  ghost predicate IsScratch(prefix: string, suffix: string, name: string) {
    exists drawn: string :: name == prefix + drawn + suffix || name == prefix + drawn + suffix + BACKUP
  }

  /** Whatever is drawn for the temporary file, it and its backup name are free. */
  ghost predicate DrawsFree(v: Volume, prefix: string, suffix: string, names: Names) {
    forall t :: prefix + v.drawn(t) + suffix !in names && prefix + v.drawn(t) + suffix + BACKUP !in names
  }

  /** Draws the temporary file; the plan fixes what this save works on. */
  method Begin(v: Volume, path: string, data: Bytes, prefix: string, suffix: string)
    returns (ok: bool, name: string, ghost p: Plan)
    requires v.Valid() && !IsScratch(prefix, suffix, path)
    modifies v
    ensures v.Valid() && old(v.trace) <= v.trace
    ensures !ok ==> v.Now() == old(v.Now()) && v.durable == old(v.durable) && v.trace == old(v.trace)
    ensures ok ==>
              && WellPlanned(p) && p.path == path && p.tmp == name && p.backup == name + BACKUP && p.data == data
              && p.before == old(v.Now()) && v.names == WithTemp(p)
              && InodesKept(p, v.inodes) && v.inodes[p.ino].kind == File
              && Unreplaced(p, Settled(old(v.durable), old(v.names), path), v.names, v.inodes, v.durable)
    ensures forall k | |old(v.trace)| <= k < |v.trace| ::
              WholeThen(old(v.Now()), Settled(old(v.durable), old(v.names), path), path, data, v.trace[k])
    ensures v.Calm() && DrawsFree(v, prefix, suffix, old(v.names)) ==> ok && p.backup !in v.names
    ensures v.handles == old(v.handles) + if ok then 1 else 0
  {
    ghost var t := v.clock;
    assert DrawsFree(v, prefix, suffix, v.names) ==>
        prefix + v.drawn(t) + suffix !in v.names && prefix + v.drawn(t) + suffix + BACKUP !in v.names;
    hide DrawsFree;
    p := Plan(v.Now(), path, "", "", v.next, data);
    var err;
    err, name := v.CreateTemp(prefix, suffix);
    ok := err == Ok;
    if ok {
      p := p.(tmp := name, backup := name + BACKUP);
      assert WellPlanned(p);
      CreatedIsUnreplaced(p, Settled(old(v.durable), old(v.names), path), old(v.durable), v.inodes);
      assert v.trace == old(v.trace) + [Moment(Image(WithTemp(p), v.inodes), old(v.durable) + [WithTemp(p)])];
    }
  }

  /** Chmod, write and sync of the temporary file, whose inode is `i`. */
  method FillBytes(v: Volume, i: nat, data: Bytes) returns (ok: bool)
    requires v.Valid() && i in v.inodes && v.inodes[i].kind == File
    modifies v`inodes, v`clock, v`trace
    ensures v.Valid() && old(v.trace) <= v.trace
    ensures OnlyInode(old(v.inodes), v.inodes, i)
    ensures ok ==> v.inodes[i] == NewFile(data)
    ensures forall k | |old(v.trace)| <= k < |v.trace| ::
              v.trace[k].img.names == v.names && OnlyInode(old(v.inodes), v.trace[k].img.inodes, i) && v.trace[k].durable == v.durable
    ensures v.Calm() ==> ok
  {
    hide Volume.Valid;
    var err := v.Chmod(i, SECRET_MODE);
    if err != Ok {
      return false;
    }
    err := v.Write(i, data);
    if err != Ok {
      return false;
    }
    err := v.Fsync(i);
    return err == Ok;
  }

  /** Links the current file, if there is one, to the backup name and makes the link durable. */
  method MakeBackup(v: Volume, path: string, backup: string, ghost p: Plan, ghost settled: bool)
    returns (ok: bool, had: bool)
    requires v.Valid() && WellPlanned(p) && p.path == path && p.backup == backup
    requires v.names == WithTemp(p) && Written(p, v.inodes) && DurableOld(p, settled, v.durable)
    modifies v
    ensures v.Valid() && old(v.trace) <= v.trace && v.inodes == old(v.inodes)
    ensures Unreplaced(p, settled, v.names, v.inodes, v.durable)
    ensures ok ==> Found(p, had) && v.names == WithBackup(p, had) && (had ==> v.durable == [v.names])
    ensures forall k | |old(v.trace)| <= k < |v.trace| :: WholeThen(p.before, settled, p.path, p.data, v.trace[k])
    ensures v.Calm() && backup !in old(v.names) ==> ok
    ensures v.handles == old(v.handles)
    ensures !ok && v.Removable(backup) && backup !in old(v.names) ==> backup !in v.names
  {
    had := false;
    var err := v.Stat(path);
    if err == Failed {
      return false, had;
    }
    had := err == Ok;
    if had {
      ok := LinkBackup(v, path, backup, p, settled);
      return ok, had;
    }
    return true, had;
  }

  /** A second name for the old file, and a sync so that the disk has it too. */
  method LinkBackup(v: Volume, path: string, backup: string, ghost p: Plan, ghost settled: bool) returns (ok: bool)
    requires v.Valid() && WellPlanned(p) && p.path == path && p.backup == backup && Resolves(p.before, path)
    requires v.names == WithTemp(p) && Written(p, v.inodes) && DurableOld(p, settled, v.durable)
    modifies v
    ensures v.Valid() && old(v.trace) <= v.trace && v.inodes == old(v.inodes)
    ensures Unreplaced(p, settled, v.names, v.inodes, v.durable)
    ensures ok ==> Found(p, true) && v.names == WithBackup(p, true) && v.durable == [v.names]
    ensures forall k | |old(v.trace)| <= k < |v.trace| :: WholeThen(p.before, settled, p.path, p.data, v.trace[k])
    ensures v.Calm() && backup !in old(v.names) ==> ok
    ensures v.handles == old(v.handles)
    ensures !ok && v.Removable(backup) && backup !in old(v.names) ==> backup !in v.names
  {
    ghost var durable, linked := v.durable, WithBackup(p, true);
    if p.backup !in p.before.names {
      LinkedIsUnreplaced(p, settled, v.inodes, durable);
      UnreplacedThen(p, settled, linked, v.inodes, durable + [linked]);
    }
    StillWaiting(p, settled, v.names, v.inodes, durable);
    hide DurableOld;
    hide Written;
    hide WholeThen;
    hide Unreplaced;
    hide Volume.Valid;
    hide InodesKept;
    var err := v.Link(path, backup);
    if err != Ok {
      return false;
    }
    ok := SyncLink(v, backup, p, settled, durable);
  }

  method SyncLink(v: Volume, backup: string, ghost p: Plan, ghost settled: bool, ghost durable: seq<Names>)
    returns (ok: bool)
    requires v.Valid() && WellPlanned(p) && p.backup == backup && Found(p, true) && Written(p, v.inodes)
    requires v.names == WithBackup(p, true) && v.durable == durable + [v.names] && DurableOld(p, settled, durable)
    modifies v
    ensures v.Valid() && old(v.trace) <= v.trace && v.inodes == old(v.inodes)
    ensures Unreplaced(p, settled, v.names, v.inodes, v.durable)
    ensures ok ==> v.names == WithBackup(p, true) && v.durable == [v.names]
    ensures forall k | |old(v.trace)| <= k < |v.trace| :: WholeThen(p.before, settled, p.path, p.data, v.trace[k])
    ensures v.Calm() ==> ok
    ensures v.handles == old(v.handles)
    ensures !ok && v.Removable(backup) ==> backup !in v.names
  {
    ghost var linked := v.names;
    LinkedIsUnreplaced(p, settled, v.inodes, durable);
    UnreplacedThen(p, settled, linked, v.inodes, [linked]);
    UnreplacedThen(p, settled, linked - {p.backup}, v.inodes, durable + [linked] + [linked - {p.backup}]);
    hide WholeThen;
    hide Unreplaced;
    hide Volume.Valid;
    hide Written;
    hide Found;
    hide DurableOld;
    hide WithBackup;
    var err := v.SyncDir();
    if err != Ok {
      var _ := v.Remove(backup);
      return false;
    }
    return true;
  }

  lemma StillWaiting(p: Plan, settled: bool, names: Names, inodes: map<nat, Inode>, durable: seq<Names>)
    requires WellPlanned(p) && names == WithTemp(p) && InodesKept(p, inodes) && DurableOld(p, settled, durable)
    ensures Unreplaced(p, settled, names, inodes, durable)
  {
  }

  method Rollback(v: Volume, path: string, backup: string, hadPrevious: bool, ghost p: Plan)
    returns (err: Errno, backupRetained: bool)
    requires v.Valid() && WellPlanned(p) && p.path == path && p.backup == backup
    requires Found(p, hadPrevious) && v.names == Replaced(p, hadPrevious)
    modifies v
    ensures v.Valid() && old(v.trace) <= v.trace && v.inodes == old(v.inodes)
    ensures err == Ok ==> v.names == RolledBack(p, hadPrevious) && v.durable == [v.names] && !backupRetained
    ensures err != Ok && backupRetained ==> hadPrevious && v.names == old(v.names) && v.durable == old(v.durable)
    ensures err != Ok && !backupRetained ==>
              v.names == RolledBack(p, hadPrevious) || (!hadPrevious && v.names == old(v.names))
    ensures err != Ok && v.names != RolledBack(p, hadPrevious) ==> v.durable == old(v.durable)
    ensures err != Ok ==> v.durable == old(v.durable) || v.durable == old(v.durable) + [v.names]
    ensures forall k | |old(v.trace)| <= k < |v.trace| ::
              && v.trace[k].img == Image(RolledBack(p, hadPrevious), v.inodes)
              && (v.trace[k].durable == old(v.durable) + [RolledBack(p, hadPrevious)] || v.trace[k].durable == [RolledBack(p, hadPrevious)])
    ensures v.handles == old(v.handles)
  {
    hide Volume.Valid;
    err := Ok;
    if hadPrevious {
      RenameBackIsRolledBack(p);
      err := v.Rename(backup, path);
      if err != Ok {
        return err, true;
      }
    } else {
      err := v.Remove(path);
      if err == Failed {
        return err, false;
      }
      assert v.names == RolledBack(p, false);
    }
    err := v.SyncDir();
    return err, false;
  }

  /** Renames the new file into place; after a fault the old one is put back. */
  method Replace(v: Volume, tmp: string, path: string, backup: string, hadPrevious: bool, ghost p: Plan,
                 ghost settled: bool)
    returns (r: SaveResult, keepBackup: bool)
    requires v.Valid() && WellPlanned(p) && p.path == path && p.backup == backup != "" && p.tmp == tmp
    requires Found(p, hadPrevious) && v.names == WithBackup(p, hadPrevious) && Written(p, v.inodes)
    requires Unreplaced(p, settled, v.names, v.inodes, v.durable)
    requires hadPrevious ==> v.durable == [v.names]
    modifies v
    ensures v.Valid() && old(v.trace) <= v.trace
    ensures SaveState(p, settled, r, v.Now(), v.durable)
    ensures keepBackup <==> r == RollbackFailed(backup)
    ensures forall k | |old(v.trace)| <= k < |v.trace| :: WholeThen(p.before, settled, p.path, p.data, v.trace[k])
    ensures v.Calm() ==> r == Saved
    ensures v.handles == old(v.handles)
  {
    UnreplacedThen(p, settled, v.names, v.inodes, v.durable);
    RenameStaysWhole(p, settled, hadPrevious, v.inodes, v.durable);
    hide Volume.Valid;
    hide SaveState;
    hide WholeAt;
    hide DiskWhole;
    var err := v.Rename(tmp, path);
    if err != Ok {
      FailureMeans(p, settled, v.names, v.inodes, v.durable);
      return SaveFailed, false;
    }
    r, keepBackup := FinishReplace(v, path, backup, hadPrevious, p, settled);
  }

  /** The syncs and the removal of the backup behind a successful rename. */
  method FinishReplace(v: Volume, path: string, backup: string, hadPrevious: bool, ghost p: Plan, ghost settled: bool)
    returns (r: SaveResult, keepBackup: bool)
    requires v.Valid() && WellPlanned(p) && p.path == path && p.backup == backup != ""
    requires Found(p, hadPrevious) && v.names == Replaced(p, hadPrevious) && Written(p, v.inodes)
    requires hadPrevious ==> forall i | 0 <= i < |v.durable| ::
                               v.durable[i] == WithBackup(p, true) || v.durable[i] == Replaced(p, true)
    requires DiskWhole(p.before, settled, p.path, p.data, v.Now(), v.durable)
    modifies v
    ensures v.Valid() && old(v.trace) <= v.trace
    ensures SaveState(p, settled, r, v.Now(), v.durable)
    ensures keepBackup <==> r == RollbackFailed(backup)
    ensures forall k | |old(v.trace)| <= k < |v.trace| :: WholeThen(p.before, settled, p.path, p.data, v.trace[k])
    ensures v.Calm() ==> r == Saved
    ensures v.handles == old(v.handles)
  {
    ReplacedStaysWhole(p, settled, hadPrevious, v.inodes);
    hide Volume.Valid;
    hide SaveState;
    hide WholeAt;
    hide DiskWhole;
    var err := v.SyncDir();
    if err != Ok {
      r, keepBackup := Recover(v, path, backup, hadPrevious, p, settled);
      return;
    }
    if hadPrevious {
      r, keepBackup := RemoveBackup(v, path, backup, p, settled);
      return;
    }
    SavedMeans(p, settled, hadPrevious, v.names, v.inodes, v.durable);
    return Saved, false;
  }

  /** The new file is on disk: its backup goes, or, where it cannot, the save is undone. */
  method RemoveBackup(v: Volume, path: string, backup: string, ghost p: Plan, ghost settled: bool)
    returns (r: SaveResult, keepBackup: bool)
    requires v.Valid() && WellPlanned(p) && p.path == path && p.backup == backup != ""
    requires Found(p, true) && v.names == Replaced(p, true) && Written(p, v.inodes)
    requires v.durable == [v.names]
    modifies v
    ensures v.Valid() && old(v.trace) <= v.trace
    ensures SaveState(p, settled, r, v.Now(), v.durable)
    ensures keepBackup <==> r == RollbackFailed(backup)
    ensures forall k | |old(v.trace)| <= k < |v.trace| :: WholeThen(p.before, settled, p.path, p.data, v.trace[k])
    ensures v.Calm() ==> r == Saved
    ensures v.handles == old(v.handles)
  {
    ReplacedStaysWhole(p, settled, true, v.inodes);
    hide Volume.Valid;
    hide SaveState;
    hide WholeAt;
    hide DiskWhole;
    var err := v.Remove(backup);
    if err != Ok {
      r, keepBackup := Recover(v, path, backup, true, p, settled);
      return;
    }
    SavedMeans(p, settled, true, v.names, v.inodes, v.durable);
    return Saved, false;
  }

  /** A rollback and the error that reports it. */
  method Recover(v: Volume, path: string, backup: string, hadPrevious: bool, ghost p: Plan, ghost settled: bool)
    returns (r: SaveResult, keepBackup: bool)
    requires v.Valid() && WellPlanned(p) && p.path == path && p.backup == backup && backup != ""
    requires Found(p, hadPrevious) && v.names == Replaced(p, hadPrevious) && Written(p, v.inodes)
    requires hadPrevious ==> forall i | 0 <= i < |v.durable| ::
                               v.durable[i] == WithBackup(p, true) || v.durable[i] == Replaced(p, true)
    requires DiskWhole(p.before, settled, p.path, p.data, v.Now(), v.durable)
    modifies v
    ensures v.Valid() && old(v.trace) <= v.trace
    ensures SaveState(p, settled, r, v.Now(), v.durable)
    ensures keepBackup <==> r == RollbackFailed(backup)
    ensures forall k | |old(v.trace)| <= k < |v.trace| :: WholeThen(p.before, settled, p.path, p.data, v.trace[k])
    ensures v.inodes == old(v.inodes)
    ensures v.handles == old(v.handles)
    ensures r != Saved
  {
    ghost var durable := v.durable;
    assert durable[|durable| - 1] == Replaced(p, hadPrevious);
    hide Volume.Valid;
    hide SaveState;
    RollbackStaysWhole(p, settled, hadPrevious, v.names, v.inodes, durable);
    hide WholeAt;
    hide DiskWhole;
    var rollbackErr, backupRetained := Rollback(v, path, backup, hadPrevious, p);
    if rollbackErr != Ok {
      if backupRetained {
        RetainedMeans(p, settled, v.inodes, v.durable);
        return RollbackFailed(backup), true;
      }
      UnknownMeans(p, settled, hadPrevious, v.names, v.inodes, v.durable);
      return RollbackFailed(""), false;
    }
    RolledBackMeans(p, settled, hadPrevious, v.inodes);
    return SaveFailed, false;
  }

  /** The inode behind the open temporary file. */
  method TempInode(v: Volume, tmp: string, ghost p: Plan) returns (i: nat)
    requires v.names == WithTemp(p) && p.tmp == tmp && InodesKept(p, v.inodes)
    ensures i == p.ino && i in v.inodes
  {
    i := v.names[tmp];
  }

  /** A deferred removal whose error is ignored. */
  method Discard(v: Volume, name: string, ghost p: Plan, ghost settled: bool, ghost r: SaveResult)
    requires v.Valid() && p.path != p.tmp && p.path != p.backup && p.tmp != p.backup
    requires SaveState(p, settled, r, v.Now(), v.durable)
    requires name == p.tmp || (name == p.backup && r != RollbackFailed(p.backup))
    modifies v
    ensures v.Valid() && old(v.trace) <= v.trace
    ensures SaveState(p, settled, r, v.Now(), v.durable)
    ensures forall k | |old(v.trace)| <= k < |v.trace| :: WholeThen(p.before, settled, p.path, p.data, v.trace[k])
    ensures v.handles == old(v.handles)
    ensures v.Removable(name) ==> name !in v.names
    ensures forall f | f in v.names :: f in old(v.names)
  {
    hide Volume.Valid;
    ghost var img, durable := v.Now(), v.durable;
    CleanupKeepsMeaning(p, settled, r, img, durable, name, img.names - {name});
    var _ := v.Remove(name);
  }
}
