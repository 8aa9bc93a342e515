/**
  The durable replacement of one file, with a hard link as the backup: what
  each step does to the name table, and what a caller may conclude from the
  result. The configuration store and the secret store both follow it.
 */
module SaveProtocol {
  import opened DurableVolume

  datatype SaveResult =
    | Saved
    | SaveFailed
    | RollbackFailed(backupPath: string)

  /** One save: the volume it found, its own temporary file and backup name, and the new contents. */
  datatype Plan = Plan(before: Image, path: string, tmp: string, backup: string, ino: nat, data: Bytes)

  ghost predicate SameAt(a: Names, b: Names, name: string) {
    (name in a <==> name in b) && (name in a ==> a[name] == b[name])
  }

  /** Everywhere on the disk the path is bound as it is in memory. */
  ghost predicate Settled(durable: seq<Names>, names: Names, path: string) {
    forall i | 0 <= i < |durable| :: SameAt(names, durable[i], path)
  }

  function NewFile(data: Bytes): Inode {
    Inode(File, SECRET_MODE, data, true)
  }

  ghost predicate WellPlanned(p: Plan) {
    && p.tmp !in p.before.names && p.ino !in p.before.inodes
    && p.path != p.tmp && p.path != p.backup && p.tmp != p.backup
    && (forall f | f in p.before.names :: p.before.names[f] in p.before.inodes)
  }

  /** No inode that existed before is changed; the new one is whole. */
  ghost predicate InodesKept(p: Plan, inodes: map<nat, Inode>) {
    && (forall i | i in p.before.inodes :: i in inodes && inodes[i] == p.before.inodes[i])
    && p.ino in inodes
  }

  ghost predicate Written(p: Plan, inodes: map<nat, Inode>) {
    InodesKept(p, inodes) && inodes[p.ino] == NewFile(p.data)
  }

  // The name tables that a save passes through.

  ghost function WithTemp(p: Plan): Names {
    p.before.names[p.tmp := p.ino]
  }

  ghost function WithBackup(p: Plan, had: bool): Names
    requires had ==> p.path in p.before.names
  {
    if had then WithTemp(p)[p.backup := p.before.names[p.path]] else WithTemp(p)
  }

  ghost function Replaced(p: Plan, had: bool): Names
    requires had ==> p.path in p.before.names
  {
    (WithBackup(p, had) - {p.tmp})[p.path := p.ino]
  }

  ghost function RolledBack(p: Plan, had: bool): Names
    requires had ==> p.path in p.before.names
  {
    if had then (Replaced(p, had) - {p.backup})[p.path := p.before.names[p.path]] else Replaced(p, had) - {p.path}
  }

  /** The previous file was found; a broken link counts as none. */
  ghost predicate Found(p: Plan, had: bool) {
    && (had ==> Resolves(p.before, p.path) && p.backup !in p.before.names)
    && (!had ==> !Resolves(p.before, p.path))
  }

  // What a caller may conclude.

  /** Names other than the save's own are left alone. */
  ghost predicate OthersKept(before: Names, names: Names, mine: set<string>) {
    && (forall f | f in before && f !in mine :: f in names && names[f] == before[f])
    && (forall f | f in names && f !in mine :: f in before)
  }

  /** The whole old binding, the whole new file, or nothing where nothing could be read before. */
  ghost predicate WholeAt(before: Image, path: string, data: Bytes, img: Image) {
    && (forall i | i in before.inodes :: i in img.inodes && img.inodes[i] == before.inodes[i])
    && (|| SameAt(before.names, img.names, path)
        || (path in img.names && img.names[path] in img.inodes && img.inodes[img.names[path]] == NewFile(data))
        || (path !in img.names && !Resolves(before, path)))
  }

  /** The old binding, or nothing where nothing could be read before. */
  ghost predicate OldAt(before: Image, path: string, names: Names) {
    SameAt(before.names, names, path) || (path !in names && !Resolves(before, path))
  }

  ghost predicate NewAt(path: string, data: Bytes, img: Image, names: Names) {
    path in names && names[path] in img.inodes && img.inodes[names[path]] == NewFile(data)
  }

  ghost predicate BackupAt(before: Image, path: string, backup: string, names: Names) {
    path in before.names && backup in names && names[backup] == before.names[path]
  }

  /** The old file can still be reached, under its own name or under the backup's. */
  ghost predicate StillNamed(before: Image, path: string, backup: string, names: Names) {
    SameAt(before.names, names, path) || BackupAt(before, path, backup, names)
  }

  /**
    Without success a file that could be read before is not lost, in memory or
    on the disk; where its own name no longer leads to it, the result names the backup.
   */
  ghost predicate OldIsKept(before: Image, settled: bool, path: string, backup: string, r: SaveResult,
                            names: Names, durable: seq<Names>) {
    Resolves(before, path) && r != Saved ==>
      && StillNamed(before, path, backup, names)
      && (settled ==> forall i | 0 <= i < |durable| :: StillNamed(before, path, backup, durable[i]))
      && (!SameAt(before.names, names, path) ==> r == RollbackFailed(backup))
  }

  /** Every name table that the disk may hold binds the path to the whole old or the whole new file. */
  ghost predicate DiskWhole(before: Image, settled: bool, path: string, data: Bytes, img: Image, durable: seq<Names>) {
    settled ==> forall i | 0 <= i < |durable| :: OldAt(before, path, durable[i]) || NewAt(path, data, img, durable[i])
  }

  /** One moment of a save, in memory and on the disk. */
  ghost predicate WholeThen(before: Image, settled: bool, path: string, data: Bytes, m: Moment) {
    WholeAt(before, path, data, m.img) && DiskWhole(before, settled, path, data, m.img, m.durable)
  }

  /** The meaning of each result, in memory and on the disk. */
  ghost predicate SaveMeans(before: Image, settled: bool, path: string, data: Bytes, r: SaveResult,
                            img: Image, durable: seq<Names>) {
    && WholeThen(before, settled, path, data, Moment(img, durable))
    && match r {
       case Saved =>
         && NewAt(path, data, img, img.names)
         && Settled(durable, img.names, path)
       case SaveFailed =>
         && OldAt(before, path, img.names)
         && (settled ==> forall i | 0 <= i < |durable| :: OldAt(before, path, durable[i]))
       case RollbackFailed(backup) =>
         backup != "" ==>
           && Resolves(before, path)
           && BackupAt(before, path, backup, img.names)
           && (forall i | 0 <= i < |durable| :: BackupAt(before, path, backup, durable[i]))
    }
    && (r.RollbackFailed? ==> !(OldAt(before, path, img.names) && Settled(durable, img.names, path)))
  }

  // The lemmas both stores rest on.

  /** While the path has not been touched. */
  ghost predicate Waiting(p: Plan, names: Names) {
    SameAt(p.before.names, names, p.path) && OthersKept(p.before.names, names, {p.path, p.tmp, p.backup})
  }

  lemma WaitingIsWhole(p: Plan, names: Names, inodes: map<nat, Inode>)
    requires Waiting(p, names) && InodesKept(p, inodes)
    ensures WholeAt(p.before, p.path, p.data, Image(names, inodes))
    ensures OldAt(p.before, p.path, names)
  {
  }

  lemma ReplacedIsWhole(p: Plan, had: bool, inodes: map<nat, Inode>)
    requires WellPlanned(p) && Found(p, had) && Written(p, inodes)
    ensures var names := Replaced(p, had);
            && WholeAt(p.before, p.path, p.data, Image(names, inodes))
            && NewAt(p.path, p.data, Image(names, inodes), names)
            && OthersKept(p.before.names, names, {p.path, p.tmp, p.backup})
            && (had ==> BackupAt(p.before, p.path, p.backup, names))
            && p.tmp !in names
    ensures var names := Replaced(p, had) - {p.backup};
            && WholeAt(p.before, p.path, p.data, Image(names, inodes))
            && NewAt(p.path, p.data, Image(names, inodes), names)
            && OthersKept(p.before.names, names, {p.path, p.tmp, p.backup})
    ensures had ==> BackupAt(p.before, p.path, p.backup, WithBackup(p, had))
  {
  }

  lemma RolledBackIsOld(p: Plan, had: bool, inodes: map<nat, Inode>)
    requires WellPlanned(p) && Found(p, had) && InodesKept(p, inodes)
    ensures var names := RolledBack(p, had);
            && WholeAt(p.before, p.path, p.data, Image(names, inodes))
            && OldAt(p.before, p.path, names)
            && OthersKept(p.before.names, names, {p.path, p.tmp, p.backup})
  {
  }

  /** The rollback's rename of the backup gives the table the protocol names. */
  lemma RenameBackIsRolledBack(p: Plan)
    requires WellPlanned(p) && Found(p, true)
    ensures (Replaced(p, true) - {p.backup})[p.path := Replaced(p, true)[p.backup]] == RolledBack(p, true)
  {
  }

  /** What one save has left, in terms of its plan. */
  ghost predicate SaveState(p: Plan, settled: bool, r: SaveResult, img: Image, durable: seq<Names>) {
    && SaveMeans(p.before, settled, p.path, p.data, r, img, durable)
    && OthersKept(p.before.names, img.names, {p.path, p.tmp, p.backup})
    && (r == RollbackFailed(p.backup) || (r.RollbackFailed? ==> r.backupPath == ""))
    && OldIsKept(p.before, settled, p.path, p.backup, r, img.names, durable)
    && (r == Saved ==> p.tmp !in img.names && (p.backup !in p.before.names ==> p.backup !in img.names))
  }

  lemma CleanTableIsWhole(p: Plan, img: Image, names: Names)
    requires WholeAt(p.before, p.path, p.data, img) && SameAt(img.names, names, p.path)
    ensures OldAt(p.before, p.path, names) || NewAt(p.path, p.data, Image(names, img.inodes), names)
  {
  }

  lemma CleanupKeepsOld(p: Plan, settled: bool, r: SaveResult, names: Names, durable: seq<Names>, name: string)
    requires OldIsKept(p.before, settled, p.path, p.backup, r, names, durable)
    requires name == p.tmp || (name == p.backup && r != RollbackFailed(p.backup))
    requires p.path != p.tmp && p.path != p.backup && p.tmp != p.backup
    ensures OldIsKept(p.before, settled, p.path, p.backup, r, names - {name}, durable + [names - {name}])
  {
    var all := durable + [names - {name}];
    assert forall i | 0 <= i < |durable| :: all[i] == durable[i];
  }

  lemma CleanupSettlesNothing(durable: seq<Names>, names: Names, after: Names, path: string)
    requires SameAt(names, after, path)
    ensures Settled(durable + [after], after, path) ==> Settled(durable, names, path)
    ensures Settled(durable, names, path) ==> Settled(durable + [after], after, path)
  {
    var all := durable + [after];
    assert forall i | 0 <= i < |durable| :: all[i] == durable[i];
  }

  /** Removing the save's own leftovers never changes what the result means. */
  lemma CleanupKeepsMeaning(p: Plan, settled: bool, r: SaveResult, img: Image, durable: seq<Names>,
                            name: string, names: Names)
    requires SaveState(p, settled, r, img, durable)
    requires name == p.tmp || (name == p.backup && r != RollbackFailed(p.backup))
    requires p.path != p.tmp && p.path != p.backup && p.tmp != p.backup
    requires names == img.names - {name}
    ensures SaveState(p, settled, r, Image(names, img.inodes), durable + [names])
  {
    var img' := Image(names, img.inodes);
    assert SameAt(img.names, names, p.path);
    assert WholeAt(p.before, p.path, p.data, img');
    CleanTableIsWhole(p, img, names);
    OneMoreTable(p.before, settled, p.path, p.data, img', durable);
    CleanupKeepsOld(p, settled, r, img.names, durable, name);
    CleanupSettlesNothing(durable, img.names, names, p.path);
    hide OldIsKept;
    hide Settled;
    forall i | 0 <= i < |durable + [names]|
      ensures r == Saved ==> SameAt(names, (durable + [names])[i], p.path)
      ensures r == SaveFailed && settled ==> OldAt(p.before, p.path, (durable + [names])[i])
      ensures r == RollbackFailed(p.backup) && p.backup != "" ==>
                BackupAt(p.before, p.path, p.backup, (durable + [names])[i])
    {
      if i < |durable| {
        assert (durable + [names])[i] == durable[i];
      }
    }
  }

  /** If the volume was settled, the disk can only hold the old binding. */
  ghost predicate DurableOld(p: Plan, settled: bool, durable: seq<Names>) {
    settled ==> forall i | 0 <= i < |durable| :: OldAt(p.before, p.path, durable[i])
  }

  /** Where a save stands before its rename: the path waits, in memory and on the disk. */
  ghost predicate Unreplaced(p: Plan, settled: bool, names: Names, inodes: map<nat, Inode>, durable: seq<Names>) {
    Waiting(p, names) && InodesKept(p, inodes) && DurableOld(p, settled, durable)
  }

  lemma FailureMeans(p: Plan, settled: bool, names: Names, inodes: map<nat, Inode>, durable: seq<Names>)
    requires Unreplaced(p, settled, names, inodes, durable)
    ensures SaveState(p, settled, SaveFailed, Image(names, inodes), durable)
  {
    WaitingIsWhole(p, names, inodes);
  }

  ghost predicate OnlyInode(a: map<nat, Inode>, b: map<nat, Inode>, i: nat) {
    && i in a && i in b
    && (forall k | k in a && k != i :: k in b && b[k] == a[k])
  }

  /** Filling the temporary file is invisible under the path. */
  lemma TempIsInvisible(p: Plan, inodes: map<nat, Inode>, after: map<nat, Inode>)
    requires WellPlanned(p) && InodesKept(p, inodes) && OnlyInode(inodes, after, p.ino)
    ensures InodesKept(p, after)
    ensures WholeAt(p.before, p.path, p.data, Image(WithTemp(p), after))
  {
  }

  lemma FillingIsInvisible(p: Plan, settled: bool, inodes: map<nat, Inode>, durable: seq<Names>, trace: seq<Moment>,
                           lo: nat)
    requires WellPlanned(p) && InodesKept(p, inodes) && DurableOld(p, settled, durable)
    requires forall k | lo <= k < |trace| ::
               trace[k].img.names == WithTemp(p) && OnlyInode(inodes, trace[k].img.inodes, p.ino) && trace[k].durable == durable
    ensures forall k | lo <= k < |trace| :: WholeThen(p.before, settled, p.path, p.data, trace[k])
  {
    forall k | lo <= k < |trace|
      ensures WholeThen(p.before, settled, p.path, p.data, trace[k])
    {
      TempIsInvisible(p, inodes, trace[k].img.inodes);
    }
  }

  /** While the path waits, so it does on the disk. */
  lemma UnreplacedThen(p: Plan, settled: bool, names: Names, inodes: map<nat, Inode>, durable: seq<Names>)
    requires Unreplaced(p, settled, names, inodes, durable)
    ensures WholeThen(p.before, settled, p.path, p.data, Moment(Image(names, inodes), durable))
  {
    WaitingIsWhole(p, names, inodes);
  }

  /** The path goes on waiting behind a link to the backup, its sync, and its removal. */
  lemma LinkedIsUnreplaced(p: Plan, settled: bool, inodes: map<nat, Inode>, durable: seq<Names>)
    requires WellPlanned(p) && Found(p, true) && Written(p, inodes) && DurableOld(p, settled, durable)
    ensures var linked, dropped := WithBackup(p, true), WithBackup(p, true) - {p.backup};
            && Unreplaced(p, settled, linked, inodes, durable + [linked])
            && Unreplaced(p, settled, linked, inodes, [linked])
            && Unreplaced(p, settled, dropped, inodes, durable + [linked] + [dropped])
  {
  }

  /** One more whole table keeps the disk whole, and so does a sync of it. */
  lemma OneMoreTable(before: Image, settled: bool, path: string, data: Bytes, img: Image, durable: seq<Names>)
    requires DiskWhole(before, settled, path, data, img, durable)
    requires OldAt(before, path, img.names) || NewAt(path, data, img, img.names)
    ensures DiskWhole(before, settled, path, data, img, durable + [img.names])
    ensures DiskWhole(before, settled, path, data, img, [img.names])
  {
  }

  /** The rename adds one whole table to a disk on which the path was waiting. */
  lemma RenameStaysWhole(p: Plan, settled: bool, had: bool, inodes: map<nat, Inode>, durable: seq<Names>)
    requires WellPlanned(p) && Found(p, had) && Written(p, inodes) && DurableOld(p, settled, durable)
    ensures WholeThen(p.before, settled, p.path, p.data, Moment(Image(Replaced(p, had), inodes), durable + [Replaced(p, had)]))
    ensures DiskWhole(p.before, settled, p.path, p.data, Image(Replaced(p, had), inodes), durable + [Replaced(p, had)])
  {
    ReplacedIsWhole(p, had, inodes);
  }

  /** Behind the rename, the sync and the removal of the backup leave only tables with the new file. */
  lemma ReplacedStaysWhole(p: Plan, settled: bool, had: bool, inodes: map<nat, Inode>)
    requires WellPlanned(p) && Found(p, had) && Written(p, inodes)
    ensures var a, b := Replaced(p, had), Replaced(p, had) - {p.backup};
            && WholeThen(p.before, settled, p.path, p.data, Moment(Image(a, inodes), [a]))
            && WholeThen(p.before, settled, p.path, p.data, Moment(Image(b, inodes), [a] + [b]))
            && DiskWhole(p.before, settled, p.path, p.data, Image(a, inodes), [a])
  {
    ReplacedIsWhole(p, had, inodes);
  }

  /** A rollback adds the old table to a whole disk, and may then sync it. */
  lemma RollbackStaysWhole(p: Plan, settled: bool, had: bool, names: Names, inodes: map<nat, Inode>,
                           durable: seq<Names>)
    requires WellPlanned(p) && Found(p, had) && InodesKept(p, inodes)
    requires DiskWhole(p.before, settled, p.path, p.data, Image(names, inodes), durable)
    ensures var back := RolledBack(p, had);
            && WholeThen(p.before, settled, p.path, p.data, Moment(Image(back, inodes), durable + [back]))
            && WholeThen(p.before, settled, p.path, p.data, Moment(Image(back, inodes), [back]))
            && DiskWhole(p.before, settled, p.path, p.data, Image(back, inodes), durable + [back])
            && DiskWhole(p.before, settled, p.path, p.data, Image(back, inodes), durable)
  {
    RolledBackIsOld(p, had, inodes);
  }

  lemma SavedMeans(p: Plan, settled: bool, had: bool, names: Names, inodes: map<nat, Inode>, durable: seq<Names>)
    requires WellPlanned(p) && Found(p, had) && Written(p, inodes)
    requires names == if had then Replaced(p, had) - {p.backup} else Replaced(p, had)
    requires forall i | 0 <= i < |durable| ::
              durable[i] == Replaced(p, had) || durable[i] == Replaced(p, had) - {p.backup}
    ensures SaveState(p, settled, Saved, Image(names, inodes), durable)
  {
    ReplacedIsWhole(p, had, inodes);
  }

  lemma RolledBackMeans(p: Plan, settled: bool, had: bool, inodes: map<nat, Inode>)
    requires WellPlanned(p) && Found(p, had) && InodesKept(p, inodes)
    ensures SaveState(p, settled, SaveFailed, Image(RolledBack(p, had), inodes), [RolledBack(p, had)])
  {
    RolledBackIsOld(p, had, inodes);
  }

  lemma RetainedMeans(p: Plan, settled: bool, inodes: map<nat, Inode>, durable: seq<Names>)
    requires WellPlanned(p) && Found(p, true) && Written(p, inodes)
    requires forall i | 0 <= i < |durable| :: durable[i] == WithBackup(p, true) || durable[i] == Replaced(p, true)
    requires DiskWhole(p.before, settled, p.path, p.data, Image(Replaced(p, true), inodes), durable)
    ensures SaveState(p, settled, RollbackFailed(p.backup), Image(Replaced(p, true), inodes), durable)
  {
    ReplacedIsWhole(p, true, inodes);
  }

  lemma UnknownMeans(p: Plan, settled: bool, had: bool, names: Names, inodes: map<nat, Inode>, durable: seq<Names>)
    requires WellPlanned(p) && Found(p, had) && Written(p, inodes)
    requires (names == RolledBack(p, had) && Replaced(p, had) in durable) || (!had && names == Replaced(p, had))
    requires had ==> forall i | 0 <= i < |durable| ::
                       durable[i] == WithBackup(p, true) || durable[i] == Replaced(p, true) || durable[i] == RolledBack(p, true)
    requires DiskWhole(p.before, settled, p.path, p.data, Image(names, inodes), durable)
    ensures SaveState(p, settled, RollbackFailed(""), Image(names, inodes), durable)
  {
    ReplacedIsWhole(p, had, inodes);
    RolledBackIsOld(p, had, inodes);
  }

  /** A fresh temporary file leaves the path and the disk as they were. */
  lemma CreatedIsUnreplaced(p: Plan, settled: bool, durable: seq<Names>, inodes: map<nat, Inode>)
    requires WellPlanned(p) && settled == Settled(durable, p.before.names, p.path)
    requires InodesKept(p, inodes)
    ensures Unreplaced(p, settled, WithTemp(p), inodes, durable + [WithTemp(p)])
    ensures WholeThen(p.before, settled, p.path, p.data, Moment(Image(WithTemp(p), inodes), durable + [WithTemp(p)]))
  {
    var all := durable + [WithTemp(p)];
    forall i | 0 <= i < |all|
      ensures settled ==> OldAt(p.before, p.path, all[i])
    {
      if i < |durable| {
        assert all[i] == durable[i];
      }
    }
  }

  /** Once its temporary file and its backup are gone, a save has touched nothing but the path. */
  lemma OnlyThePath(p: Plan, names: Names)
    requires WellPlanned(p) && OthersKept(p.before.names, names, {p.path, p.tmp, p.backup})
    ensures p.tmp !in names && p.backup !in names && p.backup !in p.before.names ==>
              OthersKept(p.before.names, names, {p.path})
  {
  }

  lemma PlannedNamesDiffer(p: Plan)
    requires WellPlanned(p)
    ensures p.path != p.tmp && p.path != p.backup && p.tmp != p.backup
  {
  }

  /** A save that gives up before it touches anything. */
  lemma NothingDone(before: Image, path: string, data: Bytes, durable: seq<Names>, mine: set<string>, backup: string)
    ensures SaveMeans(before, Settled(durable, before.names, path), path, data, SaveFailed, before, durable)
    ensures OldIsKept(before, Settled(durable, before.names, path), path, backup, SaveFailed, before.names, durable)
    ensures OthersKept(before.names, before.names, mine) && OthersKept(before.names, before.names, {path})
  {
  }
}
