/** Store.Save of the configuration: validate, stage, back up, replace, or roll back. */
module ConfigStore {
  import opened DurableVolume
  import opened SaveProtocol
  import opened SaveSteps

  /** Normalization, validation and encoding of the configuration, done before any file is touched. */
  datatype Document = Encoded(data: Bytes) | Rejected

  const PREFIX := ".config-"
  const SUFFIX := ".json.tmp"

  /** Chmod, write, sync and close of the temporary file, whose inode is `i`. */
  method FillTemp(v: Volume, i: nat, data: Bytes) returns (ok: bool)
    requires v.Valid() && i in v.inodes && v.inodes[i].kind == File
    modifies v`inodes, v`clock, v`trace, v`handles
    ensures v.Valid() && old(v.trace) <= v.trace
    ensures OnlyInode(old(v.inodes), v.inodes, i)
    ensures ok ==> v.inodes[i] == NewFile(data)
    ensures forall k | |old(v.trace)| <= k < |v.trace| ::
              v.trace[k].img.names == v.names && OnlyInode(old(v.inodes), v.trace[k].img.inodes, i) && v.trace[k].durable == v.durable
    ensures v.Calm() ==> ok
    ensures v.handles == old(v.handles) - 1
    ensures ok ==> v.Passed(FileClose)
  {
    hide Volume.Valid;
    ok := FillBytes(v, i, data);
    var err := v.Close(FileClose);
    ok := ok && err == Ok;
  }

  /** Everything between the creation and the deferred removal of the temporary file. */
  method SaveStaged(v: Volume, tmp: string, path: string, data: Bytes, ghost p: Plan, ghost settled: bool)
    returns (r: SaveResult)
    requires v.Valid() && WellPlanned(p) && p.path == path && p.tmp == tmp && p.data == data
    requires p.backup == tmp + BACKUP
    requires v.names == WithTemp(p) && InodesKept(p, v.inodes) && v.inodes[p.ino].kind == File
    requires Unreplaced(p, settled, v.names, v.inodes, v.durable)
    modifies v
    ensures v.Valid() && old(v.trace) <= v.trace
    ensures SaveState(p, settled, r, v.Now(), v.durable)
    ensures forall k | |old(v.trace)| <= k < |v.trace| :: WholeThen(p.before, settled, p.path, p.data, v.trace[k])
    ensures v.Calm() && p.backup !in old(v.names) ==> r == Saved
    ensures v.handles == old(v.handles) - 1
    ensures r == Saved ==> v.Passed(FileClose)
    ensures v.Removable(p.backup) && p.backup !in old(v.names) && r != RollbackFailed(p.backup) ==> p.backup !in v.names
  {
    hide Volume.Valid;
    hide SaveState;
    hide WholeThen;
    hide Waiting;
    hide InodesKept;
    hide OnlyInode;
    hide DurableOld;
    hide WithBackup;
    var i := TempInode(v, tmp, p);
    ghost var inodes := v.inodes;
    var ok := FillTemp(v, i, data);
    TempIsInvisible(p, inodes, v.inodes);
    FillingIsInvisible(p, settled, inodes, v.durable, v.trace, |old(v.trace)|);
    if !ok {
      FailureMeans(p, settled, v.names, v.inodes, v.durable);
      return SaveFailed;
    }
    var backup := tmp + BACKUP;
    var hadPrevious;
    ok, hadPrevious := MakeBackup(v, path, backup, p, settled);
    if !ok {
      FailureMeans(p, settled, v.names, v.inodes, v.durable);
      return SaveFailed;
    }
    var keepBackup;
    r, keepBackup := Replace(v, tmp, path, backup, hadPrevious, p, settled);
    if !keepBackup {
      Discard(v, backup, p, settled, r);
    }
  }

  /**
    Saves a configuration document under `path`. The result says what is bound
    to the path, in memory and on the disk; every intermediate state shows the
    whole old file or the whole new one.
   */
  method Save(v: Volume, path: string, doc: Document) returns (r: SaveResult, ghost tmp: string)
    requires v.Valid() && !IsScratch(PREFIX, SUFFIX, path)
    modifies v
    ensures v.Valid() && old(v.trace) <= v.trace
    ensures doc.Rejected? ==> r == SaveFailed && v.Now() == old(v.Now()) && v.durable == old(v.durable)
    ensures doc.Encoded? ==>
              && SaveMeans(old(v.Now()), Settled(old(v.durable), old(v.names), path), path, doc.data, r, v.Now(), v.durable)
              && (forall k | |old(v.trace)| <= k < |v.trace| :: WholeThen(old(v.Now()), Settled(old(v.durable), old(v.names), path), path, doc.data, v.trace[k]))
    ensures OthersKept(old(v.names), v.names, {path, tmp, tmp + BACKUP})
    ensures r.RollbackFailed? ==> r.backupPath == "" || r.backupPath == tmp + BACKUP
    ensures OldIsKept(old(v.Now()), Settled(old(v.durable), old(v.names), path), path, tmp + BACKUP, r, v.names, v.durable)
    ensures r == Saved && tmp + BACKUP !in old(v.names) ==> OthersKept(old(v.names), v.names, {path})
    ensures v.Removable(tmp) && v.Removable(tmp + BACKUP) && tmp + BACKUP !in old(v.names) && r != RollbackFailed(tmp + BACKUP) ==>
              OthersKept(old(v.names), v.names, {path})
    ensures v.handles == old(v.handles) && (r == Saved ==> v.Passed(FileClose))
    ensures doc.Encoded? && v.Calm() && DrawsFree(v, PREFIX, SUFFIX, old(v.names)) ==> r == Saved
  {
    hide SaveMeans;
    hide OthersKept;
    hide WholeThen;
    hide Unreplaced;
    hide DrawsFree;
    hide InodesKept;
    hide WellPlanned;
    hide Volume.Valid;
    tmp := "";
    if doc.Rejected? {
      NothingDone(v.Now(), path, [], v.durable, {path, tmp, tmp + BACKUP}, tmp + BACKUP);
      return SaveFailed, tmp;
    }
    NothingDone(v.Now(), path, doc.data, v.durable, {path, tmp, tmp + BACKUP}, tmp + BACKUP);
    ghost var settled := Settled(v.durable, v.names, path);
    var ok, name;
    ghost var p;
    ok, name, p := Begin(v, path, doc.data, PREFIX, SUFFIX);
    if !ok {
      return SaveFailed, tmp;
    }
    tmp := name;
    PlannedNamesDiffer(p);
    r := SaveStaged(v, name, path, doc.data, p, settled);
    Discard(v, name, p, settled, r);
    OnlyThePath(p, v.names);
  }
}
