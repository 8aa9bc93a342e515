/**
  The credential store: validation and copying of its data, and the save of
  secretstore, which follows the protocol of the configuration store.
 */
module SecretStore {
  import opened Text
  import opened Secrets
  import opened DurableVolume
  import opened SaveProtocol
  import opened SaveSteps

  predicate Blank(s: string) {
    Trim(s) == ""
  }

  predicate Usable(name: string, c: Credentials) {
    && !Blank(name) && !Blank(c.serverURL) && !Blank(c.certificateName)
    && !Blank(c.certificateAPIKey) && !Blank(c.privateKeyAPIKey)
  }

  method Clone(d: Data) returns (clone: Data)
    ensures clone == d
  {
    clone := map[];
    var left := d.Keys;
    while left != {}
      invariant left <= d.Keys
      invariant clone == map name | name in d && name !in left :: d[name]
      decreases left
    {
      var name :| name in left;
      clone := clone[name := d[name]];
      left := left - {name};
    }
  }

  method Validate(d: Data) returns (ok: bool)
    ensures ok <==> forall name | name in d :: Usable(name, d[name])
  {
    var left := d.Keys;
    while left != {}
      invariant left <= d.Keys
      invariant forall name | name in d && name !in left :: Usable(name, d[name])
      decreases left
    {
      var name :| name in left;
      if !Usable(name, d[name]) {
        return false;
      }
      left := left - {name};
    }
    return true;
  }

  const PREFIX := ".secretstore-"
  const SUFFIX := ".tmp"

  /** Chmod, write, sync and close of the temporary file, whose inode is `i`. */
  method FillTemp(v: Volume, i: nat, data: Bytes) returns (ok: bool, closed: bool)
    requires v.Valid() && i in v.inodes && v.inodes[i].kind == File
    modifies v`inodes, v`clock, v`trace, v`handles
    ensures v.Valid() && old(v.trace) <= v.trace
    ensures OnlyInode(old(v.inodes), v.inodes, i)
    ensures ok ==> closed && v.inodes[i] == NewFile(data)
    ensures forall k | |old(v.trace)| <= k < |v.trace| ::
              v.trace[k].img.names == v.names && OnlyInode(old(v.inodes), v.trace[k].img.inodes, i) && v.trace[k].durable == v.durable
    ensures v.Calm() ==> ok
    ensures v.handles == old(v.handles) - if closed then 1 else 0
    ensures ok ==> v.Passed(FileClose)
  {
    hide Volume.Valid;
    ok := FillBytes(v, i, data);
    if !ok {
      return false, false;
    }
    var err := v.Close(FileClose);
    return err == Ok, true;
  }

  /** Everything between the creation and the deferred removal of the temporary file. */
  method SaveStaged(v: Volume, tmp: string, path: string, data: Bytes, ghost p: Plan, ghost settled: bool)
    returns (r: SaveResult, closed: bool)
    requires v.Valid() && WellPlanned(p) && p.path == path && p.tmp == tmp && p.data == data
    requires p.backup == tmp + BACKUP
    requires v.names == WithTemp(p) && InodesKept(p, v.inodes) && v.inodes[p.ino].kind == File
    requires Unreplaced(p, settled, v.names, v.inodes, v.durable)
    modifies v
    ensures v.Valid() && old(v.trace) <= v.trace
    ensures SaveState(p, settled, r, v.Now(), v.durable)
    ensures forall k | |old(v.trace)| <= k < |v.trace| :: WholeThen(p.before, settled, p.path, p.data, v.trace[k])
    ensures v.Calm() && p.backup !in old(v.names) ==> r == Saved
    ensures v.handles == old(v.handles) - if closed then 1 else 0
    ensures r == Saved ==> v.Passed(FileClose)
    ensures v.Removable(p.backup) && p.backup !in old(v.names) && r != RollbackFailed(p.backup) ==> p.backup !in v.names
  {
    hide Volume.Valid;
    hide SaveState;
    hide WholeThen;
    hide Waiting;
    hide InodesKept;
    hide OnlyInode;
    hide DurableOld;
    hide WithBackup;
    var i := TempInode(v, tmp, p);
    ghost var inodes := v.inodes;
    var ok;
    ok, closed := FillTemp(v, i, data);
    TempIsInvisible(p, inodes, v.inodes);
    FillingIsInvisible(p, settled, inodes, v.durable, v.trace, |old(v.trace)|);
    if !ok {
      FailureMeans(p, settled, v.names, v.inodes, v.durable);
      return SaveFailed, closed;
    }
    var backup := tmp + BACKUP;
    var hadPrevious;
    ok, hadPrevious := MakeBackup(v, path, backup, p, settled);
    if !ok {
      FailureMeans(p, settled, v.names, v.inodes, v.durable);
      return SaveFailed, closed;
    }
    var keepBackup;
    r, keepBackup := Replace(v, tmp, path, backup, hadPrevious, p, settled);
    if !keepBackup {
      Discard(v, backup, p, settled, r);
    }
  }

  /** From the created temporary file to its deferred close and removal. */
  method SaveCreated(v: Volume, tmp: string, path: string, data: Bytes, ghost p: Plan, ghost settled: bool)
    returns (r: SaveResult)
    requires v.Valid() && WellPlanned(p) && p.path == path && p.tmp == tmp && p.data == data
    requires p.backup == tmp + BACKUP
    requires v.names == WithTemp(p) && InodesKept(p, v.inodes) && v.inodes[p.ino].kind == File
    requires Unreplaced(p, settled, v.names, v.inodes, v.durable)
    modifies v
    ensures v.Valid() && old(v.trace) <= v.trace
    ensures SaveState(p, settled, r, v.Now(), v.durable)
    ensures forall k | |old(v.trace)| <= k < |v.trace| :: WholeThen(p.before, settled, p.path, p.data, v.trace[k])
    ensures v.Calm() && p.backup !in old(v.names) ==> r == Saved
    ensures v.handles == old(v.handles) - 1
    ensures r == Saved ==> v.Passed(FileClose)
    ensures v.Removable(p.backup) && p.backup !in old(v.names) && r != RollbackFailed(p.backup) ==> p.backup !in v.names
    ensures v.Removable(p.tmp) ==> p.tmp !in v.names
  {
    hide Volume.Valid;
    hide SaveState;
    hide WholeThen;
    var closed;
    r, closed := SaveStaged(v, tmp, path, data, p, settled);
    if !closed {
      var _ := v.Close(FileClose);
    }
    Discard(v, tmp, p, settled, r);
  }

  /** A save of data that passed the validation. */
  method SaveEncoded(v: Volume, path: string, data: Bytes) returns (r: SaveResult, ghost tmp: string)
    requires v.Valid() && !IsScratch(PREFIX, SUFFIX, path)
    modifies v
    ensures v.Valid() && old(v.trace) <= v.trace
    ensures SaveMeans(old(v.Now()), Settled(old(v.durable), old(v.names), path), path, data, r, v.Now(), v.durable)
    ensures forall k | |old(v.trace)| <= k < |v.trace| ::
              WholeThen(old(v.Now()), Settled(old(v.durable), old(v.names), path), path, data, v.trace[k])
    ensures OthersKept(old(v.names), v.names, {path, tmp, tmp + BACKUP})
    ensures r.RollbackFailed? ==> r.backupPath == "" || r.backupPath == tmp + BACKUP
    ensures OldIsKept(old(v.Now()), Settled(old(v.durable), old(v.names), path), path, tmp + BACKUP, r, v.names, v.durable)
    ensures r == Saved && tmp + BACKUP !in old(v.names) ==> OthersKept(old(v.names), v.names, {path})
    ensures v.Removable(tmp) && v.Removable(tmp + BACKUP) && tmp + BACKUP !in old(v.names) && r != RollbackFailed(tmp + BACKUP) ==>
              OthersKept(old(v.names), v.names, {path})
    ensures v.handles == old(v.handles) && (r == Saved ==> v.Passed(FileClose) && v.Passed(MkDir))
    ensures v.Calm() && DrawsFree(v, PREFIX, SUFFIX, old(v.names)) ==> r == Saved
  {
    hide SaveMeans;
    hide OthersKept;
    hide WholeThen;
    hide Unreplaced;
    hide DrawsFree;
    hide InodesKept;
    hide WellPlanned;
    hide Volume.Valid;
    tmp := "";
    NothingDone(v.Now(), path, data, v.durable, {path, tmp, tmp + BACKUP}, tmp + BACKUP);
    ghost var settled := Settled(v.durable, v.names, path);
    var err := v.Quiet(MkDir);
    if err != Ok {
      return SaveFailed, tmp;
    }
    var ok, name;
    ghost var p;
    ok, name, p := Begin(v, path, data, PREFIX, SUFFIX);
    if !ok {
      return SaveFailed, tmp;
    }
    tmp := name;
    r := SaveCreated(v, name, path, data, p, settled);
    OnlyThePath(p, v.names);
  }

  /**
    Validates a copy of the data and saves its encoding under `path`. The result
    says what is bound to the path, in memory and on the disk; every
    intermediate state shows the whole old file or the whole new one.
   */
  method Save(v: Volume, path: string, data: Data, encode: Data -> Bytes) returns (r: SaveResult, ghost tmp: string)
    requires v.Valid() && !IsScratch(PREFIX, SUFFIX, path)
    modifies v
    ensures v.Valid() && old(v.trace) <= v.trace
    ensures !(forall name | name in data :: Usable(name, data[name])) ==>
              r == SaveFailed && v.Now() == old(v.Now()) && v.durable == old(v.durable)
    ensures SaveMeans(old(v.Now()), Settled(old(v.durable), old(v.names), path), path, encode(data), r, v.Now(), v.durable)
    ensures forall k | |old(v.trace)| <= k < |v.trace| ::
              WholeThen(old(v.Now()), Settled(old(v.durable), old(v.names), path), path, encode(data), v.trace[k])
    ensures OthersKept(old(v.names), v.names, {path, tmp, tmp + BACKUP})
    ensures r.RollbackFailed? ==> r.backupPath == "" || r.backupPath == tmp + BACKUP
    ensures OldIsKept(old(v.Now()), Settled(old(v.durable), old(v.names), path), path, tmp + BACKUP, r, v.names, v.durable)
    ensures r == Saved && tmp + BACKUP !in old(v.names) ==> OthersKept(old(v.names), v.names, {path})
    ensures v.Removable(tmp) && v.Removable(tmp + BACKUP) && tmp + BACKUP !in old(v.names) && r != RollbackFailed(tmp + BACKUP) ==>
              OthersKept(old(v.names), v.names, {path})
    ensures v.handles == old(v.handles) && (r == Saved ==> v.Passed(FileClose) && v.Passed(MkDir))
    ensures (forall name | name in data :: Usable(name, data[name])) && v.Calm() && DrawsFree(v, PREFIX, SUFFIX, old(v.names)) ==> r == Saved
  {
    hide SaveMeans;
    hide OthersKept;
    hide WholeThen;
    hide DrawsFree;
    ghost var before := v.Now();
    var copy := Clone(data);
    var valid := Validate(copy);
    if !valid {
      tmp := "";
      NothingDone(before, path, encode(data), v.durable, {path, tmp, tmp + BACKUP}, tmp + BACKUP);
      return SaveFailed, tmp;
    }
    r, tmp := SaveEncoded(v, path, encode(copy));
  }
}
