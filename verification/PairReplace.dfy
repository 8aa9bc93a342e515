/**
  Transactional replacement of a certificate file and its private key file.

  The two files are staged, the old ones are renamed to backups, the new ones
  are renamed into place, read back and synced, and the backups are dropped.
  Any fault before the commit point rolls both files back.
 */
module PairReplace {
  import opened Options
  import opened PairNames
  import opened PairDirectory
  import opened PairStates

  class OldEntry {
    const path: string
    var backupPath: string
    var existed: bool
    var backedUp: bool

    constructor (path: string)
      ensures this.path == path && backupPath == "" && !existed && !backedUp
    {
      this.path := path;
      backupPath, existed, backedUp := "", false, false;
    }
  }

  /** The run may use every name of its target's footprint. */
  ghost predicate Reaches(d: Directory, target: string) {
    forall f | InFootprint(target, f) :: f in d.reach
  }

  /** A replacement needs its footprint, and no more. */
  lemma FootprintIsEnough(d: Directory, target: string)
    requires d.reach == Footprint(target)
    ensures Reaches(d, target)
  {
  }

  lemma TempsInReach(d: Directory, target: string, kind: TempKind)
    requires Reaches(d, target)
    ensures forall f | IsTemp(target, kind, f) :: f in d.reach
  {
    forall f | IsTemp(target, kind, f)
      ensures f in d.reach
    {
      TempInFootprint(target, kind, f);
    }
  }

  /** Its removal is never refused. */
  ghost predicate Removable(d: Directory, name: string) {
    forall t :: d.answers(t, Op.Remove(name)).Proceed?
  }

  /** Removes the staging files that an earlier run may have left. */
  method CleanupStaging(d: Directory, target: string) returns (err: Errno)
    requires Reaches(d, target)
    requires d.Valid()
    modifies d
    ensures d.Valid() && old(d.trace) <= d.trace
    ensures forall i | |old(d.trace)| <= i < |d.trace| :: Untouched(target, old(d.entries), d.trace[i])
    ensures Untouched(target, old(d.entries), d.entries)
    ensures err == Ok ==> d.entries == PartlySwept(old(d.entries), target, {}) && d.Passed(ReadDir)
    ensures d.CalmButLstat() ==> err == Ok
    ensures err == Ok || err == Failed
    ensures forall kind | d.DrawsFree(target, kind, old(d.entries)) :: d.DrawsFree(target, kind, d.entries)
    ensures err == Ok ==> d.DrawsFree(target, CertSync, d.entries) && d.DrawsFree(target, KeySync, d.entries)
  {
    var before := d.entries;
    err := d.Quiet(ReadDir);
    if err != Ok {
      return;
    }
    var left := before.Keys;
    assert d.entries == PartlySwept(before, target, left);
    PartlySweptIsUntouched(before, target, left);
    while left != {}
      invariant d.Valid() && old(d.trace) <= d.trace
      invariant err == Ok
      invariant d.entries == PartlySwept(before, target, left)
      invariant Untouched(target, before, d.entries)
      invariant forall i | |old(d.trace)| <= i < |d.trace| :: Untouched(target, before, d.trace[i])
      decreases left
    {
      var f :| f in left;
      SweepOne(before, target, left, f);
      left := left - {f};
      PartlySweptIsUntouched(before, target, left);
      if Swept(target, f) {
        var removed := d.Remove(f);
        if removed == Failed {
          err := Failed;
          return;
        }
      }
    }
    SweptDrawsFree(d, target, CertSync, before);
    SweptDrawsFree(d, target, KeySync, before);
  }

  /** Creates, fills, chmods, syncs and closes a staging file; removes it again on any fault. */
  method WriteTemp(d: Directory, target: string, kind: TempKind, data: Bytes, mode: nat)
    returns (err: Errno, name: string)
    requires Reaches(d, target)
    requires d.Valid()
    modifies d
    ensures d.Valid() && old(d.trace) <= d.trace
    ensures err == Ok || err == Failed
    ensures name != "" ==> name !in old(d.entries) && IsTemp(target, kind, name)
    ensures name == "" ==> d.entries == old(d.entries) && d.trace == old(d.trace)
    ensures err == Ok ==> name != "" && d.entries == old(d.entries)[name := Entry(Regular, mode, data, true)]
    ensures SameExcept(old(d.entries), d.entries, {name})
    ensures forall i | |old(d.trace)| <= i < |d.trace| :: SameExcept(old(d.entries), d.trace[i], {name})
    ensures err == Ok ==> d.Passed(Op.Close(name))
    ensures err != Ok && Removable(d, name) ==> d.entries == old(d.entries)
    ensures d.open <= old(d.open)
    ensures d.CalmButLstat() && d.DrawsFree(target, kind, old(d.entries)) ==> err == Ok
  {
    hide TempName;
    TempsInReach(d, target, kind);
    err, name := d.CreateTemp(target, kind);
    if err != Ok {
      err, name := Failed, "";
      return;
    }
    TempIsNotEmpty(target, kind, name);
    hide IsTemp;
    err := FillOrRemove(d, name, data, mode);
  }

  /** Fills the new file, and closes it whatever happened; on any fault it is removed again. */
  method FillOrRemove(d: Directory, name: string, data: Bytes, mode: nat) returns (err: Errno)
    requires name in d.reach
    requires d.Valid() && name in d.entries && d.entries[name].kind == Regular
    modifies d
    ensures d.Valid() && old(d.trace) <= d.trace
    ensures err == Ok || err == Failed
    ensures err == Ok ==> d.entries == old(d.entries)[name := Entry(Regular, mode, data, true)]
    ensures SameExcept(old(d.entries), d.entries, {name})
    ensures forall i | |old(d.trace)| <= i < |d.trace| :: SameExcept(old(d.entries), d.trace[i], {name})
    ensures err == Ok ==> d.Passed(Op.Close(name))
    ensures err != Ok && Removable(d, name) ==> name !in d.entries
    ensures d.open == old(d.open) - {name}
    ensures d.CalmButLstat() ==> err == Ok
  {
    err := FillTemp(d, name, data, mode);
    var _ := d.Close(name);
    if err != Ok {
      var _ := d.Remove(name);
    }
  }

  /** The calls on the open staging file. */
  method FillTemp(d: Directory, name: string, data: Bytes, mode: nat) returns (err: Errno)
    requires name in d.reach
    requires d.Valid() && name in d.entries && d.entries[name].kind == Regular
    modifies d
    ensures d.Valid() && old(d.trace) <= d.trace
    ensures err == Ok || err == Failed
    ensures err == Ok ==> d.entries == old(d.entries)[name := Entry(Regular, mode, data, true)]
    ensures SameExcept(old(d.entries), d.entries, {name})
    ensures forall i | |old(d.trace)| <= i < |d.trace| :: SameExcept(old(d.entries), d.trace[i], {name})
    ensures err == Ok ==> d.Passed(Op.Close(name))
    ensures d.open == old(d.open) || d.open == old(d.open) - {name}
    ensures (forall t, o | o in {Op.Write(name), Op.Chmod(name), Fsync(name), Op.Close(name)} :: d.CalmAnswer(t, o)) ==>
              err == Ok
  {
    err := WriteAndChmod(d, name, data, mode);
    if err != Ok {
      return Failed;
    }
    err := d.Flush(name);
    if err != Ok {
      return;
    }
    err := d.Close(name);
  }

  method WriteAndChmod(d: Directory, name: string, data: Bytes, mode: nat) returns (err: Errno)
    requires name in d.reach
    requires d.Valid() && name in d.entries && d.entries[name].kind == Regular
    modifies d
    ensures d.Valid() && old(d.trace) <= d.trace && d.open == old(d.open)
    ensures err == Ok || err == Failed
    ensures err == Ok ==> d.entries == old(d.entries)[name := Entry(Regular, mode, data, false)]
    ensures name in d.entries && SameExcept(old(d.entries), d.entries, {name})
    ensures forall i | |old(d.trace)| <= i < |d.trace| :: SameExcept(old(d.entries), d.trace[i], {name})
    ensures (forall t, o | o in {Op.Write(name), Op.Chmod(name)} :: d.CalmAnswer(t, o)) ==> err == Ok
  {
    err := d.Write(name, data);
    if err != Ok {
      return Failed;
    }
    err := d.Chmod(name, mode);
  }

  datatype Preparation = Prepared | ProbeFailed | BackupFailed

  /** Moves the current file, if there is one, to a fresh backup name. */
  method PrepareBackup(d: Directory, entry: OldEntry, target: string, kind: TempKind)
    returns (res: Preparation, ghost mark: string)
    requires Reaches(d, target) && entry.path in d.reach
    requires d.Valid() && !IsStaging(kind)
    requires !entry.existed && !entry.backedUp && entry.backupPath == ""
    modifies d, entry
    ensures d.Valid() && old(d.trace) <= d.trace
    ensures res == ProbeFailed <==> d.answers(old(d.clock), Op.Lstat(entry.path)).Refuse?
    ensures res == BackupFailed && Removable(d, mark) ==> d.entries == old(d.entries)
    ensures res == Prepared ==> d.Passed(Op.Lstat(entry.path))
    ensures mark != "" ==> mark !in old(d.entries) && IsTemp(target, kind, mark)
    ensures mark == "" ==> d.entries == old(d.entries) && d.trace == old(d.trace)
    ensures res == ProbeFailed || (res == Prepared && !entry.existed) ==>
              && d.entries == old(d.entries) && d.trace == old(d.trace)
              && !entry.existed && !entry.backedUp && entry.backupPath == ""
    ensures res == Prepared ==> (entry.existed <==> entry.path in old(d.entries)) && entry.backedUp == entry.existed
    ensures !entry.existed ==> mark == ""
    ensures !entry.backedUp ==> entry.backupPath == ""
    ensures res == Prepared && entry.existed ==>
              && entry.backupPath == mark != ""
              && d.entries == MoveAway(old(d.entries), entry.path, mark)
    ensures res == BackupFailed ==>
              && entry.path in old(d.entries) && entry.existed && !entry.backedUp
              && SameExcept(old(d.entries), d.entries, {mark})
    ensures forall i | |old(d.trace)| <= i < |d.trace| :: BackupStates(old(d.entries), d.trace[i], entry.path, mark)
    ensures BackupStates(old(d.entries), d.entries, entry.path, mark)
    ensures d.CalmButLstat() && d.DrawsFree(target, kind, old(d.entries)) ==> res != BackupFailed
    ensures d.Calm() && d.DrawsFree(target, kind, old(d.entries)) ==> res == Prepared
  {
    mark := "";
    assert d.Calm() ==> d.CalmButLstat();
    var err, _ := d.Lstat(entry.path);
    if err == NotExist {
      return Prepared, mark;
    }
    if err != Ok {
      return ProbeFailed, mark;
    }
    entry.existed := true;
    TempsInReach(d, target, kind);
    err, mark := ReserveName(d, entry, target, kind);
    if err != Ok {
      return BackupFailed, mark;
    }
    err := d.Rename(entry.path, entry.backupPath);
    if err != Ok {
      entry.backupPath := "";
      return BackupFailed, mark;
    }
    entry.backedUp := true;
    return Prepared, mark;
  }

  /** Creates a marker file to draw an unused name, then frees the name again. */
  method ReserveName(d: Directory, entry: OldEntry, target: string, kind: TempKind)
    returns (err: Errno, ghost mark: string)
    requires Reaches(d, target)
    requires d.Valid()
    modifies d, entry`backupPath
    ensures d.Valid() && old(d.trace) <= d.trace
    ensures mark != "" ==> mark !in old(d.entries) && IsTemp(target, kind, mark)
    ensures mark == "" ==> err != Ok && d.entries == old(d.entries) && d.trace == old(d.trace)
    ensures err == Ok ==> entry.backupPath == mark && d.entries == old(d.entries)
    ensures err != Ok ==> entry.backupPath == "" || (mark == "" && entry.backupPath == old(entry.backupPath))
    ensures SameExcept(old(d.entries), d.entries, {mark})
    ensures forall i | |old(d.trace)| <= i < |d.trace| :: SameExcept(old(d.entries), d.trace[i], {mark})
    ensures err == Ok ==> d.Passed(Op.Close(mark))
    ensures err != Ok && mark != "" && Removable(d, mark) ==> d.entries == old(d.entries)
    ensures d.open <= old(d.open)
    ensures d.CalmButLstat() && d.DrawsFree(target, kind, old(d.entries)) ==> err == Ok
  {
    hide Directory.DrawsFree;
    hide Directory.Valid;
    hide TempName;
    mark := "";
    var name;
    TempsInReach(d, target, kind);
    err, name := d.CreateTemp(target, kind);
    if err != Ok {
      return;
    }
    TempIsNotEmpty(target, kind, name);
    hide IsTemp;
    mark := name;
    hide Reaches;
    hide Directory.CalmButLstat;
    err := ReleaseName(d, entry, name);
  }

  /** The file that reserved the name is closed and removed; the name is remembered if both succeed. */
  method ReleaseName(d: Directory, entry: OldEntry, name: string) returns (err: Errno)
    requires d.Valid() && name in d.reach && name in d.entries
    modifies d, entry`backupPath
    ensures d.Valid() && old(d.trace) <= d.trace && d.open == old(d.open) - {name}
    ensures entry.backupPath == if err == Ok then name else ""
    ensures d.entries == old(d.entries) || d.entries == old(d.entries) - {name}
    ensures forall i | |old(d.trace)| <= i < |d.trace| ::
              d.trace[i] == old(d.entries) - {name} || d.trace[i] == old(d.entries)
    ensures err == Ok ==> d.Passed(Op.Close(name)) && d.entries == old(d.entries) - {name}
    ensures Removable(d, name) ==> d.entries == old(d.entries) - {name}
    ensures d.CalmButLstat() ==> err == Ok
  {
    entry.backupPath := name;
    err := d.Close(name);
    if err != Ok {
      var _ := d.Remove(name);
      entry.backupPath := "";
      return;
    }
    err := d.Remove(name);
    if err != Ok {
      entry.backupPath := "";
    }
  }

  ghost function BookOf(entry: OldEntry): Book
    reads entry
  {
    Book(entry.existed, entry.backedUp, entry.backupPath)
  }

  /** Puts one file back as it was before the run, as far as the bookkeeping knows. */
  method RestoreEntry(d: Directory, entry: OldEntry) returns (state: RestoreState)
    requires entry.path in d.reach && (entry.backedUp ==> entry.backupPath in d.reach)
    requires d.Valid()
    requires entry.backedUp ==> entry.existed && entry.backupPath in d.entries && entry.backupPath != entry.path
    modifies d, entry`backedUp, entry`backupPath
    ensures d.Valid() && old(d.trace) <= d.trace
    ensures BookOf(entry) == if state == Restored then Book(true, false, "") else old(BookOf(entry))
    ensures state == Unchanged <==> entry.existed && !old(entry.backedUp)
    ensures state == Unchanged ==> d.entries == old(d.entries) && d.trace == old(d.trace)
    ensures state == Restored ==>
              old(entry.backedUp) && d.entries == MoveBack(old(d.entries), entry.path, old(entry.backupPath))
    ensures state == Absent ==> !entry.existed && d.entries == old(d.entries) - {entry.path}
    ensures state == Unknown ==>
              || d.entries == old(d.entries)
              || (old(entry.backedUp) && d.entries == old(d.entries) - {entry.path})
    ensures forall i | |old(d.trace)| <= i < |d.trace| ::
              RestoreStates(old(d.entries), d.trace[i], entry.path, old(BookOf(entry)))
    ensures state == Unknown && !entry.existed ==>
              forall i | |old(d.trace)| <= i < |d.trace| :: d.trace[i] == old(d.entries)
    ensures (forall t :: && d.CalmAnswer(t, Op.Remove(entry.path))
                         && d.CalmAnswer(t, Op.Rename(old(entry.backupPath), entry.path)))
            ==> state != Unknown
    ensures d.CalmFrom(old(d.clock)) ==> state != Unknown
    ensures !entry.existed ==> (state == Absent <==> d.answers(old(d.clock), Op.Remove(entry.path)).Proceed?)
    ensures old(entry.backedUp) ==>
              (state == Restored <==>
               && d.answers(old(d.clock), Op.Remove(entry.path)).Proceed?
               && d.answers(old(d.clock) + 1, Op.Rename(old(entry.backupPath), entry.path)).Proceed?)
    ensures d.clock >= old(d.clock)
  {
    if entry.existed {
      if !entry.backedUp {
        return Unchanged;
      }
      var err := d.Remove(entry.path);
      if err == Failed {
        return Unknown;
      }
      err := d.Rename(entry.backupPath, entry.path);
      if err != Ok {
        return Unknown;
      }
      entry.backedUp := false;
      entry.backupPath := "";
      return Restored;
    }
    var err := d.Remove(entry.path);
    return if err == Failed then Unknown else Absent;
  }

  function ReadingCalls(certPath: string, keyPath: string): set<Op> {
    {Op.Lstat(certPath), Op.Lstat(keyPath), Op.ReadFile(certPath), Op.ReadFile(keyPath)}
  }

  /** Reads a pair and validates it; NoDigest stands for every error. */
  method ReadPairAt(d: Directory, certPath: string, keyPath: string, check: Checker) returns (r: Digest)
    requires certPath in d.reach && keyPath in d.reach
    requires d.Valid()
    modifies d`clock
    ensures d.Valid()
    ensures r != NoDigest ==> r == CheckEntries(d.entries, certPath, keyPath, check)
    ensures r != NoDigest ==> forall op | op in ReadingCalls(certPath, keyPath) :: d.Passed(op)
    ensures d.CalmFrom(old(d.clock)) ==> r == CheckEntries(d.entries, certPath, keyPath, check)
  {
    var certErr, certInfo := d.Lstat(certPath);
    var keyErr, keyInfo := d.Lstat(keyPath);
    if certErr != Ok || keyErr != Ok {
      return NoDigest;
    }
    if certInfo.kind == Symlink || keyInfo.kind == Symlink {
      return NoDigest;
    }
    if certInfo.kind != Regular || keyInfo.kind != Regular {
      return NoDigest;
    }
    var certReadErr, certPEM := d.ReadFile(certPath);
    var keyReadErr, keyPEM := d.ReadFile(keyPath);
    if certReadErr != Ok || keyReadErr != Ok {
      return NoDigest;
    }
    if certInfo.mode != CERT_MODE || keyInfo.mode != KEY_MODE {
      return NoDigest;
    }
    return check(certPEM, keyPEM);
  }

  /** The calls that put both files back are never refused. */
  ghost predicate RestoreCallsPass(d: Directory, target: string, certBackup: string, keyBackup: string) {
    && (forall t :: d.answers(t, Op.Remove(CertFile(target))).Proceed?)
    && (forall t :: d.answers(t, Op.Remove(KeyFile(target))).Proceed?)
    && (forall t :: d.answers(t, Op.Rename(certBackup, CertFile(target))).Proceed?)
    && (forall t :: d.answers(t, Op.Rename(keyBackup, KeyFile(target))).Proceed?)
  }

  /** Restores the certificate, then the key; s1 and c1 are the directory and the book in between. */
  method RestoreBoth(d: Directory, certOld: OldEntry, keyOld: OldEntry, ghost run: Run)
    returns (cert: RestoreState, key: RestoreState, ghost mid: nat, ghost s1: Listing, ghost c1: Book, ghost drop: nat)
    requires Reaches(d, run.target)
    requires d.Valid() && certOld != keyOld
    requires certOld.path == CertFile(run.target) && keyOld.path == KeyFile(run.target)
    requires InFlight(run, d.entries, certOld.path, BookOf(certOld), keyOld.path, BookOf(keyOld))
    modifies d, certOld`backedUp, certOld`backupPath, keyOld`backedUp, keyOld`backupPath
    ensures d.Valid() && |old(d.trace)| <= mid <= |d.trace| && old(d.trace) <= d.trace
    ensures RestoredTo(run, old(d.entries), s1, certOld.path, old(BookOf(certOld)), c1, cert)
    ensures RestoredTo(run, s1, d.entries, keyOld.path, old(BookOf(keyOld)), BookOf(keyOld), key)
    ensures forall i | |old(d.trace)| <= i < mid ::
              RestoreStates(old(d.entries), d.trace[i], certOld.path, old(BookOf(certOld)))
    ensures forall i | mid <= i < |d.trace| :: RestoreStates(s1, d.trace[i], keyOld.path, old(BookOf(keyOld)))
    ensures key == Unknown && !keyOld.existed ==>
              d.entries == s1 && forall i | mid <= i < |d.trace| :: d.trace[i] == s1
    ensures keyOld.existed == old(keyOld.existed)
    ensures RestoreStates(old(d.entries), s1, certOld.path, old(BookOf(certOld)))
    ensures RestoreStates(s1, d.entries, keyOld.path, old(BookOf(keyOld)))
    ensures d.CalmButLstat() || d.CalmFrom(old(d.clock)) ==> cert != Unknown && key != Unknown
    ensures forall keyBackup | old(keyOld.backedUp) ==> keyBackup == old(keyOld.backupPath) ::
              RestoreCallsPass(d, run.target, old(certOld.backupPath), keyBackup) ==> cert != Unknown && key != Unknown
    ensures !old(keyOld.existed) ==> (key == Absent <==> d.answers(drop, Op.Remove(keyOld.path)).Proceed?)
    ensures d.clock >= old(d.clock)
  {
    hide Confined;
    hide InFlight;
    ghost var s0, c0, k0 := d.entries, BookOf(certOld), BookOf(keyOld);
    FlightReady(run, s0, certOld.path, c0, keyOld.path, k0);
    cert := RestoreEntry(d, certOld);
    mid, s1, c1 := |d.trace|, d.entries, BookOf(certOld);
    RestoreDone(run, s0, s1, certOld.path, c0, c1, cert, keyOld.path, k0);
    FlightReady(run, s1, keyOld.path, k0, certOld.path, c1);
    drop := d.clock;
    key := RestoreEntry(d, keyOld);
  }

  /** Turns back: both files are restored, the directory is synced and the pair is read again. */
  method FailWithRollback(d: Directory, certOld: OldEntry, keyOld: OldEntry, check: Checker, ghost run: Run)
    returns (cert: RestoreState, key: RestoreState, clean: bool, ghost drop: nat)
    requires Reaches(d, run.target)
    requires d.Valid() && certOld != keyOld
    requires certOld.path == CertFile(run.target) && keyOld.path == KeyFile(run.target)
    requires InFlight(run, d.entries, certOld.path, BookOf(certOld), keyOld.path, BookOf(keyOld))
    requires certOld.existed || certOld.path !in run.before
    requires !keyOld.existed && keyOld.path in run.before ==> SameAt(run.before, d.entries, keyOld.path)
    requires !NewCertOldKey(run, d.entries)
    modifies d, certOld`backedUp, certOld`backupPath, keyOld`backedUp, keyOld`backupPath
    ensures d.Valid() && old(d.trace) <= d.trace
    ensures RollbackResult(run, d.entries, old(BookOf(certOld)), old(BookOf(keyOld)), cert, key)
    ensures clean ==> cert != Unknown && key != Unknown && d.stable == |d.trace| - 1
    ensures clean && certOld.existed && keyOld.existed ==>
              CheckEntries(d.entries, certOld.path, keyOld.path, check) != NoDigest
    ensures d.CalmFrom(old(d.clock))
            && (certOld.existed && keyOld.existed ==>
                  CheckEntries(d.entries, certOld.path, keyOld.path, check) != NoDigest) ==>
              clean
    ensures forall keyBackup | old(keyOld.backedUp) ==> keyBackup == old(keyOld.backupPath) ::
              RestoreCallsPass(d, run.target, old(certOld.backupPath), keyBackup) ==> cert != Unknown && key != Unknown
    ensures NoMoreStaging(run.target, old(d.entries), d.entries)
    ensures !old(keyOld.existed) ==> (key == Absent <==> d.answers(drop, Op.Remove(keyOld.path)).Proceed?)
    ensures d.CalmButLstat() ==> cert != Unknown && key != Unknown
    ensures forall i | |old(d.trace)| <= i < |d.trace| ::
              RollbackStep(run, old(d.entries), d.trace[i], old(BookOf(certOld)), old(BookOf(keyOld)),
                           cert == Unknown, KeySafe(run, old(BookOf(keyOld)), key))
    ensures RollbackStep(run, old(d.entries), d.entries, old(BookOf(certOld)), old(BookOf(keyOld)),
                         cert == Unknown, KeySafe(run, old(BookOf(keyOld)), key))
  {
    hide InFlight;
    hide RestoredTo;
    hide RollbackStep;
    hide RollbackResult;
    ghost var s0, c0, k0 := d.entries, BookOf(certOld), BookOf(keyOld);
    ghost var mid, s1, c1;
    cert, key, mid, s1, c1, drop := RestoreBoth(d, certOld, keyOld, run);
    RollbackFacts(run, d.trace, |old(d.trace)|, mid, s0, s1, d.entries, c0, c1, k0, BookOf(keyOld), cert, key);
    RollbackEnds(run, s0, s1, d.entries, c0, c1, k0, BookOf(keyOld), cert, key);
    RestoreAddsNoStaging(run.target, s0, s1, certOld.path, c0);
    RestoreAddsNoStaging(run.target, s1, d.entries, keyOld.path, k0);
    var dirErr := d.Sync();
    clean := cert != Unknown && key != Unknown && dirErr == Ok;
    if certOld.existed && keyOld.existed && cert != Unknown && key != Unknown {
      var restored := ReadPairAt(d, certOld.path, keyOld.path, check);
      clean := clean && restored != NoDigest;
    }
  }

  predicate IsCommitted(r: Outcome) {
    r.Installed? || r.CommittedUnclean?
  }

  /** The probe of the key was reached unless the run was refused, and it decides whether the run turns back there. */
  ghost predicate Probed(d: Directory, target: string, r: Outcome, probe: Option<nat>, drop: nat) {
    && (probe.None? <==> r.Refused?)
    && (probe.Some? ==>
          (r.RolledBack? && r.stage == ProbeKey <==> d.answers(probe.value, Op.Lstat(KeyFile(target))).Refuse?))
    && (r.RolledBack? && r.stage == ProbeKey ==>
          (r.key == Absent <==> d.answers(drop, Op.Remove(KeyFile(target))).Proceed?))
  }

  /** The old key is under neither of its names, with no new pair in place, exactly after a blind removal. */
  lemma KeyLossIsBlind(d: Directory, run: Run, r: Outcome, certBackup: string, keyBackup: string, probe: Option<nat>,
                       drop: nat)
    requires Ends(run, d.entries, r, certBackup, keyBackup) && Probed(d, run.target, r, probe, drop)
    requires "" !in run.before && (r.RolledBack? && r.stage == ProbeKey ==> keyBackup == "")
    ensures !IsCommitted(r) && !Kept(run.before, d.entries, KeyFile(run.target), keyBackup) <==>
            KeyFile(run.target) in run.before && BlindDrop(d, run.target, probe, drop)
  {
    if r.RolledBack? {
      NoEmptyEntry(run, d.entries);
    }
  }

  datatype BackupResult = Moved | CertStays | KeyStays(stage: Stage)

  /** Every call succeeds, except perhaps an lstat of the key. */
  ghost predicate OthersCalm(d: Directory, target: string) {
    && d.CalmButLstat()
    && (forall t :: d.answers(t, Op.Lstat(CertFile(target))).Proceed?)
  }

  /** The key was probed in vain, and the rollback's removal went through. */
  ghost predicate BlindDrop(d: Directory, target: string, probe: Option<nat>, drop: nat) {
    && probe.Some?
    && d.answers(probe.value, Op.Lstat(KeyFile(target))).Refuse?
    && d.answers(drop, Op.Remove(KeyFile(target))).Proceed?
  }

  method MoveCertAway(d: Directory, target: string, certOld: OldEntry,
                      ghost run: Run, ghost certTmp: string, ghost keyTmp: string)
    returns (ok: bool, ghost mark: string)
    requires Reaches(d, target)
    requires d.Valid() && target == run.target && certOld.path == CertFile(target)
    requires BookOf(certOld) == Book(false, false, "")
    requires Untouched(target, run.before, d.entries)
    requires Staged(run, d.entries, certTmp, keyTmp) && Lean(run, d.entries, {certTmp, keyTmp})
    modifies d, certOld
    ensures d.Valid() && old(d.trace) <= d.trace
    ensures forall i, k | |old(d.trace)| <= i < |d.trace| :: Unmixed(run, d.trace[i], mark, k, true)
    ensures forall k :: Unmixed(run, d.entries, mark, k, true)
    ensures mark == "" || IsTemp(target, CertBackup, mark)
    ensures NoMoreStaging(target, old(d.entries), d.entries)
    ensures !ok ==> Untouched(target, run.before, d.entries)
    ensures ok ==> d.Passed(Op.Lstat(CertFile(target)))
    ensures ok ==>
              && CertAway(run, d.entries, BookOf(certOld)) && mark == certOld.backupPath
              && Staged(run, d.entries, certTmp, keyTmp) && Lean(run, d.entries, {certTmp, keyTmp, mark})
    ensures OthersCalm(d, target) && d.DrawsFree(target, CertBackup, old(d.entries)) ==> ok
    ensures d.Calm() && d.DrawsFree(target, CertBackup, old(d.entries)) ==> ok
    ensures d.DrawsFree(target, KeyBackup, old(d.entries)) ==> d.DrawsFree(target, KeyBackup, d.entries)
  {
    hide Unmixed;
    hide Confined;
    hide Lean;
    hide Staged;
    ghost var s0 := d.entries;
    DestinationsAreDistinct(target, target);
    var prepared;
    prepared, mark := PrepareBackup(d, certOld, target, CertBackup);
    forall i, k | |old(d.trace)| <= i < |d.trace|
      ensures Unmixed(run, d.trace[i], mark, k, true)
    {
      CertBackupStates(run, s0, d.trace[i], mark, k);
    }
    forall k
      ensures Unmixed(run, d.entries, mark, k, true)
    {
      CertBackupStates(run, s0, d.entries, mark, k);
    }
    CertBackupStates(run, s0, d.entries, mark, "");
    AwayAddsNoStaging(target, s0, d.entries, certOld.path, mark, CertBackup);
    hide NoMoreStaging;
    if d.DrawsFree(target, KeyBackup, s0) {
      AwayDrawsFree(d, target, CertBackup, KeyBackup, s0, d.entries, certOld.path, mark);
    }
    ok := prepared == Prepared;
    if ok {
      CertMoved(run, s0, d.entries, BookOf(certOld));
      AwayKeepsTemps(run, s0, d.entries, certOld.path, mark, certTmp, keyTmp, {certTmp, keyTmp});
      assert {certTmp, keyTmp} + {mark} == {certTmp, keyTmp, mark};
    }
  }

  method MoveKeyAway(d: Directory, target: string, keyOld: OldEntry,
                     ghost run: Run, ghost c: Book, ghost certTmp: string, ghost keyTmp: string)
    returns (prepared: Preparation, ghost mark: string)
    requires Reaches(d, target)
    requires d.Valid() && target == run.target && keyOld.path == KeyFile(target)
    requires BookOf(keyOld) == Book(false, false, "")
    requires CertAway(run, d.entries, c)
    requires Staged(run, d.entries, certTmp, keyTmp) && Lean(run, d.entries, {certTmp, keyTmp, c.backup})
    modifies d, keyOld
    ensures d.Valid() && old(d.trace) <= d.trace
    ensures forall i | |old(d.trace)| <= i < |d.trace| :: Unmixed(run, d.trace[i], c.backup, mark, true)
    ensures Unmixed(run, d.entries, c.backup, mark, true)
    ensures mark == "" || IsTemp(target, KeyBackup, mark)
    ensures NoMoreStaging(target, old(d.entries), d.entries)
    ensures prepared == Prepared ==> d.Passed(Op.Lstat(KeyFile(target)))
    ensures prepared == ProbeFailed ==> mark == ""
    ensures prepared != Prepared ==>
              && InFlight(run, d.entries, CertFile(target), c, KeyFile(target), BookOf(keyOld))
              && SameAt(run.before, d.entries, KeyFile(target))
              && BookOf(keyOld) == Book(prepared == BackupFailed, false, "")
    ensures prepared == Prepared ==>
              && BothAway(run, d.entries, c, BookOf(keyOld)) && mark == keyOld.backupPath
              && Staged(run, d.entries, certTmp, keyTmp) && Lean(run, d.entries, {certTmp, keyTmp, c.backup, mark})
    ensures prepared == ProbeFailed <==> d.answers(old(d.clock), Op.Lstat(KeyFile(target))).Refuse?
    ensures d.CalmButLstat() && d.DrawsFree(target, KeyBackup, old(d.entries)) ==> prepared != BackupFailed
    ensures d.Calm() && d.DrawsFree(target, KeyBackup, old(d.entries)) ==> prepared == Prepared
  {
    hide Unmixed;
    hide Confined;
    hide Lean;
    hide Staged;
    hide InFlight;
    ghost var s0 := d.entries;
    prepared, mark := PrepareBackup(d, keyOld, target, KeyBackup);
    forall i | |old(d.trace)| <= i < |d.trace|
      ensures Unmixed(run, d.trace[i], c.backup, mark, true)
    {
      KeyBackupStates(run, s0, d.trace[i], c, mark);
    }
    KeyBackupStates(run, s0, d.entries, c, mark);
    AwayAddsNoStaging(target, s0, d.entries, keyOld.path, mark, KeyBackup);
    hide NoMoreStaging;
    if prepared == Prepared {
      KeyMoved(run, s0, d.entries, c, BookOf(keyOld));
      AwayKeepsTemps(run, s0, d.entries, keyOld.path, mark, certTmp, keyTmp, {certTmp, keyTmp, c.backup});
      assert {certTmp, keyTmp, c.backup} + {mark} == {certTmp, keyTmp, c.backup, mark};
    }
  }

  method BackupBoth(d: Directory, target: string, certOld: OldEntry, keyOld: OldEntry,
                    ghost run: Run, ghost certTmp: string, ghost keyTmp: string)
    returns (res: BackupResult, ghost certBackup: string, ghost keyBackup: string, ghost probe: Option<nat>)
    requires Reaches(d, target)
    requires d.Valid() && certOld != keyOld && target == run.target
    requires certOld.path == CertFile(target) && keyOld.path == KeyFile(target)
    requires BookOf(certOld) == BookOf(keyOld) == Book(false, false, "")
    requires Untouched(target, run.before, d.entries)
    requires Staged(run, d.entries, certTmp, keyTmp) && Lean(run, d.entries, {certTmp, keyTmp})
    modifies d, certOld, keyOld
    ensures d.Valid() && old(d.trace) <= d.trace
    ensures forall i | |old(d.trace)| <= i < |d.trace| :: Unmixed(run, d.trace[i], certBackup, keyBackup, true)
    ensures Unmixed(run, d.entries, certBackup, keyBackup, true)
    ensures BackupNames(target, certBackup, keyBackup)
    ensures NoMoreStaging(target, old(d.entries), d.entries)
    ensures res.Moved? ==> d.Passed(Op.Lstat(certOld.path)) && d.Passed(Op.Lstat(keyOld.path))
    ensures res == KeyStays(ProbeKey) ==> keyBackup == ""
    ensures res.CertStays? ==> Untouched(target, run.before, d.entries)
    ensures res.KeyStays? ==>
              && InFlight(run, d.entries, certOld.path, BookOf(certOld), keyOld.path, BookOf(keyOld))
              && (certOld.existed <==> certOld.path in run.before) && certBackup == certOld.backupPath
              && (res.stage == ProbeKey || res.stage == BackupKey)
              && (res.stage == ProbeKey ==>
                    BookOf(keyOld) == Book(false, false, "") && SameAt(run.before, d.entries, keyOld.path))
              && (res.stage == BackupKey ==> BookOf(keyOld) == Book(true, false, ""))
    ensures res.Moved? ==>
              && BothAway(run, d.entries, BookOf(certOld), BookOf(keyOld))
              && certBackup == certOld.backupPath && keyBackup == keyOld.backupPath
              && Staged(run, d.entries, certTmp, keyTmp)
              && Lean(run, d.entries, {certTmp, keyTmp, certBackup, keyBackup})
    ensures probe.None? <==> res.CertStays?
    ensures probe.Some? ==> (res == KeyStays(ProbeKey) <==> d.answers(probe.value, Op.Lstat(keyOld.path)).Refuse?)
    ensures OthersCalm(d, target) && d.DrawsFree(target, CertBackup, old(d.entries)) ==> probe.Some?
    ensures d.Calm() && d.DrawsFree(target, CertBackup, old(d.entries))
            && d.DrawsFree(target, KeyBackup, old(d.entries)) ==>
              res == Moved
  {
    hide Unmixed;
    hide Confined;
    hide InFlight;
    hide MoveAway;
    hide SameExcept;
    hide Lean;
    hide BothAway;
    hide CertAway;
    keyBackup, probe := "", None;
    var ok;
    ok, certBackup := MoveCertAway(d, target, certOld, run, certTmp, keyTmp);
    if !ok {
      return CertStays, certBackup, keyBackup, probe;
    }
    CertAwayBook(run, d.entries, BookOf(certOld));
    probe := Some(d.clock);
    var prepared;
    prepared, keyBackup := MoveKeyAway(d, target, keyOld, run, BookOf(certOld), certTmp, keyTmp);
    if prepared != Prepared {
      return KeyStays(if prepared == ProbeFailed then ProbeKey else BackupKey), certBackup, keyBackup, probe;
    }
    return Moved, certBackup, keyBackup, probe;
  }

  datatype SwapResult = Committed | TurnBack(at: Stage)

  /** Renames both files into place, the certificate first. */
  method PublishBoth(d: Directory, certOld: OldEntry, keyOld: OldEntry, certTmp: string, keyTmp: string, ghost run: Run)
    returns (res: SwapResult)
    requires Reaches(d, run.target)
    requires d.Valid()
    requires certOld.path == CertFile(run.target) && keyOld.path == KeyFile(run.target)
    requires BothAway(run, d.entries, BookOf(certOld), BookOf(keyOld))
    requires Staged(run, d.entries, certTmp, keyTmp)
    requires Lean(run, d.entries, {certTmp, keyTmp, certOld.backupPath, keyOld.backupPath})
    modifies d
    ensures d.Valid() && old(d.trace) <= d.trace
    ensures forall i | |old(d.trace)| <= i < |d.trace| ::
              Unmixed(run, d.trace[i], certOld.backupPath, keyOld.backupPath, true)
    ensures InFlight(run, d.entries, certOld.path, BookOf(certOld), keyOld.path, BookOf(keyOld))
    ensures Unmixed(run, d.entries, certOld.backupPath, keyOld.backupPath, true)
    ensures res == Committed ==>
              && BothNew(run, d.entries, BookOf(certOld), BookOf(keyOld))
              && Lean(run, d.entries, {certOld.backupPath, keyOld.backupPath})
    ensures res.TurnBack? ==> res.at in {PublishCert, PublishKey} && keyOld.path !in d.entries
    ensures NoMoreStaging(run.target, old(d.entries), d.entries)
    ensures d.Calm() ==> res == Committed
  {
    hide Unmixed;
    hide Confined;
    hide Lean;
    hide InFlight;
    hide Published;
    hide BothNew;
    ghost var c, k := BookOf(certOld), BookOf(keyOld);
    ghost var s0 := d.entries;
    BothAwayUnmixed(run, s0, c, k);
    var err := d.Rename(certTmp, certOld.path);
    if err != Ok {
      return TurnBack(PublishCert);
    }
    ghost var s1 := d.entries;
    assert s1 == Published(s0, certTmp, certOld.path) by {
      PublishedIs(s0, certTmp, certOld.path);
    }
    CertPublished(run, s0, c, k, certTmp, keyTmp);
    PublishAddsNoStaging(run.target, s0, certTmp, certOld.path);
    StagedIsApart(run, s0, c, k, certTmp, CertSync);
    PublishKeepsLean(run, s0, certTmp, certOld.path, {certTmp, keyTmp, c.backup, k.backup});
    res := PublishKeyFile(d, certOld, keyOld, keyTmp, run, {certTmp, keyTmp, c.backup, k.backup} - {certTmp});
    if res == Committed {
      LeanMonotone(run, d.entries, {certTmp, keyTmp, c.backup, k.backup} - {certTmp} - {keyTmp}, {c.backup, k.backup});
    }
  }

  /** The second rename, with the new certificate already in place. */
  method PublishKeyFile(d: Directory, certOld: OldEntry, keyOld: OldEntry, keyTmp: string, ghost run: Run,
                        ghost temps: set<string>)
    returns (res: SwapResult)
    requires Reaches(d, run.target)
    requires d.Valid()
    requires certOld.path == CertFile(run.target) && keyOld.path == KeyFile(run.target)
    requires InFlight(run, d.entries, certOld.path, BookOf(certOld), keyOld.path, BookOf(keyOld))
    requires Truthful(run, BookOf(certOld), BookOf(keyOld))
    requires Unmixed(run, d.entries, certOld.backupPath, keyOld.backupPath, true)
    requires certOld.path in d.entries && d.entries[certOld.path] == run.cert && keyOld.path !in d.entries
    requires IsTemp(run.target, KeySync, keyTmp) && keyTmp in d.entries && d.entries[keyTmp] == run.key
    requires Lean(run, d.entries, temps)
    modifies d
    ensures d.Valid() && old(d.trace) <= d.trace
    ensures forall i | |old(d.trace)| <= i < |d.trace| ::
              Unmixed(run, d.trace[i], certOld.backupPath, keyOld.backupPath, true)
    ensures InFlight(run, d.entries, certOld.path, BookOf(certOld), keyOld.path, BookOf(keyOld))
    ensures Unmixed(run, d.entries, certOld.backupPath, keyOld.backupPath, true)
    ensures res == Committed ==>
              BothNew(run, d.entries, BookOf(certOld), BookOf(keyOld)) && Lean(run, d.entries, temps - {keyTmp})
    ensures res.TurnBack? ==> res.at == PublishKey && keyOld.path !in d.entries
    ensures NoMoreStaging(run.target, old(d.entries), d.entries)
    ensures d.Calm() ==> res == Committed
  {
    ghost var c, k := BookOf(certOld), BookOf(keyOld);
    ghost var s1 := d.entries;
    KeyPublished(run, s1, c, k, keyTmp);
    StagedIsApart(run, s1, c, k, keyTmp, KeySync);
    PublishKeepsLean(run, s1, keyTmp, keyOld.path, temps);
    PublishedIs(s1, keyTmp, keyOld.path);
    PublishAddsNoStaging(run.target, s1, keyTmp, keyOld.path);
    hide Unmixed;
    hide Confined;
    hide Lean;
    hide InFlight;
    hide BothNew;
    hide Published;
    hide Truthful;
    var err := d.Rename(keyTmp, keyOld.path);
    if err != Ok {
      return TurnBack(PublishKey);
    }
    assert d.entries == Published(s1, keyTmp, keyOld.path);
    BothNewUnmixed(run, d.entries, c, k);
    BothNewInFlight(run, d.entries, c, k);
    return Committed;
  }

  /** Publishes both files, checks what is installed and syncs the directory. */
  method Swap(d: Directory, certOld: OldEntry, keyOld: OldEntry, certTmp: string, keyTmp: string,
              check: Checker, expected: Digest, ghost run: Run)
    returns (res: SwapResult)
    requires Reaches(d, run.target)
    requires d.Valid()
    requires certOld.path == CertFile(run.target) && keyOld.path == KeyFile(run.target)
    requires BothAway(run, d.entries, BookOf(certOld), BookOf(keyOld))
    requires Staged(run, d.entries, certTmp, keyTmp)
    requires Lean(run, d.entries, {certTmp, keyTmp, certOld.backupPath, keyOld.backupPath})
    requires expected != NoDigest
    modifies d
    ensures d.Valid() && old(d.trace) <= d.trace
    ensures forall i | |old(d.trace)| <= i < |d.trace| ::
              Unmixed(run, d.trace[i], certOld.backupPath, keyOld.backupPath, true)
    ensures InFlight(run, d.entries, certOld.path, BookOf(certOld), keyOld.path, BookOf(keyOld))
    ensures Unmixed(run, d.entries, certOld.backupPath, keyOld.backupPath, true)
    ensures res == Committed ==>
              && BothNew(run, d.entries, BookOf(certOld), BookOf(keyOld))
              && Lean(run, d.entries, {certOld.backupPath, keyOld.backupPath})
              && CheckEntries(d.entries, certOld.path, keyOld.path, check) == expected
              && d.stable == |d.trace| - 1 && d.Passed(SyncDir)
              && forall op | op in ReadingCalls(certOld.path, keyOld.path) :: d.Passed(op)
    ensures NoMoreStaging(run.target, old(d.entries), d.entries)
    ensures res.TurnBack? ==> res.at in {PublishCert, PublishKey, CheckPair, SyncPair}
    ensures res.TurnBack? && res.at in {PublishCert, PublishKey} ==> keyOld.path !in d.entries
    ensures d.Calm() && Ordinary(run) && check(run.cert.bytes, run.key.bytes) == expected ==> res == Committed
  {
    hide Unmixed;
    hide Confined;
    hide Lean;
    hide InFlight;
    hide BothNew;
    hide BothAway;
    hide Staged;
    res := PublishBoth(d, certOld, keyOld, certTmp, keyTmp, run);
    if res != Committed {
      return;
    }
    if Ordinary(run) {
      OrdinaryPasses(run, d.entries, BookOf(certOld), BookOf(keyOld), check);
    }
    var installed := ReadPairAt(d, certOld.path, keyOld.path, check);
    if installed != expected {
      return TurnBack(CheckPair);
    }
    var err := d.Sync();
    if err != Ok {
      return TurnBack(SyncPair);
    }
    return Committed;
  }

  /** The disk is never known to be less far than it was. */
  ghost predicate KeepsSteady(d: Directory, stable: nat, stables: seq<nat>)
    reads d
  {
    stables <= d.stables && d.SteadyFrom(|stables|, stable)
  }

  method DropBackup(d: Directory, entry: OldEntry) returns (ok: bool)
    requires entry.backupPath != "" ==> entry.backupPath in d.reach
    requires d.Valid()
    modifies d, entry`backupPath
    ensures d.Valid() && old(d.trace) <= d.trace
    ensures forall i | |old(d.trace)| <= i < |d.trace| ::
              || d.trace[i] == old(d.entries)
              || (old(entry.backupPath) != "" && d.trace[i] == old(d.entries) - {old(entry.backupPath)})
    ensures || d.entries == old(d.entries)
            || (old(entry.backupPath) != "" && d.entries == old(d.entries) - {old(entry.backupPath)})
    ensures ok && old(entry.backupPath) != "" ==> d.entries == old(d.entries) - {old(entry.backupPath)}
    ensures ok ==> entry.backupPath == ""
    ensures KeepsSteady(d, old(d.stable), old(d.stables))
    ensures d.Calm() ==> ok
  {
    if entry.backupPath != "" {
      var err := d.Remove(entry.backupPath);
      if err == Failed {
        return false;
      }
      entry.backupPath := "";
    }
    return true;
  }

  method DropBackups(d: Directory, certOld: OldEntry, keyOld: OldEntry, ghost run: Run) returns (clean: bool)
    requires Reaches(d, run.target)
    requires d.Valid() && certOld != keyOld && "" !in run.before
    requires BothNew(run, d.entries, BookOf(certOld), BookOf(keyOld))
    requires Lean(run, d.entries, {certOld.backupPath, keyOld.backupPath})
    requires (certOld.backupPath != "" ==> certOld.backedUp) && (keyOld.backupPath != "" ==> keyOld.backedUp)
    modifies d, certOld`backupPath, keyOld`backupPath
    ensures d.Valid() && old(d.trace) <= d.trace
    ensures forall i | |old(d.trace)| <= i < |d.trace| :: NewPairIn(run, d.trace[i])
    ensures NewPairIn(run, d.entries)
    ensures clean ==> Lean(run, d.entries, {}) && d.stable == |d.trace| - 1
    ensures NoMoreStaging(run.target, old(d.entries), d.entries)
    ensures KeepsSteady(d, old(d.stable), old(d.stables))
    ensures d.Calm() ==> clean
  {
    hide Confined;
    hide InFlight;
    hide BothNew;
    hide Lean;
    hide NewPairIn;
    hide IsDestination;
    ghost var s0, cb, kb := d.entries, certOld.backupPath, keyOld.backupPath;
    BothNewIsNewPair(run, s0, BookOf(certOld), BookOf(keyOld));
    BackupsInFootprint(run, s0, BookOf(certOld), BookOf(keyOld));
    var ok := DropBackup(d, certOld);
    ghost var s1, mid := d.entries, |d.trace|;
    forall i | |old(d.trace)| <= i < mid
      ensures NewPairIn(run, d.trace[i])
    {
      DropFrom(run, s0, d.trace[i], cb);
    }
    DropFrom(run, s0, s1, cb);
    if !ok {
      return false;
    }
    ok := DropBackup(d, keyOld);
    forall i | |old(d.trace)| <= i < |d.trace|
      ensures NewPairIn(run, d.trace[i])
    {
      if mid <= i {
        DropFrom(run, s1, d.trace[i], kb);
      }
    }
    DropFrom(run, s1, d.entries, kb);
    if !ok {
      return false;
    }
    DropBothLean(run, s0, s1, d.entries, cb, kb);
    var err := d.Sync();
    return err == Ok;
  }

  /** What a run has recorded: its listings, and which of them the disk was known to hold. */
  datatype Record = Record(trace: seq<Listing>, stable: nat, stables: seq<nat>)

  ghost function RecordOf(d: Directory): Record
    reads d
  {
    Record(d.trace, d.stable, d.stables)
  }

  /** From the commit on the disk was known to hold the new pair, the backups' removal included. */
  ghost predicate CommitIsDurable(w: Record, run: Run, commit: nat) {
    && 0 < commit <= |w.trace| == |w.stables| && NewPairIn(run, w.trace[commit - 1])
    && commit - 1 <= w.stable && forall i | commit <= i < |w.stables| :: w.stables[i] >= commit - 1
  }

  /** A clean rollback has read a valid pair where there was one, unless it is the key's probe that failed. */
  ghost predicate CleanMeansValid(run: Run, s: Listing, r: Outcome, check: Checker) {
    r.RolledBack? && r.clean && r.stage != ProbeKey
    && CertFile(run.target) in run.before && KeyFile(run.target) in run.before ==>
      CheckEntries(s, CertFile(run.target), KeyFile(run.target), check) != NoDigest
  }

  /** What the disk and the calls say for each outcome. */
  ghost predicate Vouched(d: Directory, w: Record, run: Run, check: Checker, r: Outcome,
                          certBackup: string, keyBackup: string)
    requires w.stable < |w.trace|
  {
    && (r.Installed? || (r.RolledBack? && r.clean) ==> Ends(run, w.trace[w.stable], r, certBackup, keyBackup))
    && CleanMeansValid(run, w.trace[w.stable], r, check)
    && (r.RolledBack? && RestoreCallsPass(d, run.target, certBackup, keyBackup) ==>
          r.cert != Unknown && r.key != Unknown)
  }

  /** A committed run has made its calls with success, and its new pair was on the disk before a backup went. */
  ghost predicate Sealed(d: Directory, w: Record, run: Run, r: Outcome, commit: nat) {
    IsCommitted(r) ==>
      && CommitIsDurable(w, run, commit)
      && forall op | op in Gates(run.target) && op != Mkdir && op != ReadDir :: d.Passed(op)
  }

  /** The calls that every committed run has made with success. */
  function Gates(target: string): set<Op> {
    {Mkdir, ReadDir, SyncDir} + ReadingCalls(CertFile(target), KeyFile(target))
  }

  lemma RefusedIsVouched(d: Directory, w: Record, run: Run, check: Checker, reason: Reason,
                         certBackup: string, keyBackup: string, commit: nat)
    requires w.stable < |w.trace|
    ensures Vouched(d, w, run, check, Refused(reason), certBackup, keyBackup)
    ensures Sealed(d, w, run, Refused(reason), commit)
  {
  }

  lemma TurnedIsVouched(d: Directory, w: Record, run: Run, check: Checker, r: Outcome,
                        certBackup: string, keyBackup: string)
    requires r.RolledBack? && w.stable < |w.trace| && (r.clean ==> w.stable == |w.trace| - 1)
    requires Ends(run, w.trace[|w.trace| - 1], r, certBackup, keyBackup)
    requires CleanMeansValid(run, w.trace[|w.trace| - 1], r, check)
    requires RestoreCallsPass(d, run.target, certBackup, keyBackup) ==> r.cert != Unknown && r.key != Unknown
    ensures Vouched(d, w, run, check, r, certBackup, keyBackup)
  {
    hide Ends;
    hide CheckEntries;
  }

  /** What was vouched for stays so while the disk is known to be no less far. */
  lemma VouchKept(d: Directory, w0: Record, w: Record, run: Run, check: Checker, r: Outcome,
                  certBackup: string, keyBackup: string, commit: nat)
    requires w0.stable < |w0.trace| == |w0.stables| && |w.trace| == |w.stables|
    requires Vouched(d, w0, run, check, r, certBackup, keyBackup) && Sealed(d, w0, run, r, commit)
    requires w0.trace <= w.trace && w.stable == w0.stable && w0.stables <= w.stables
    requires forall i | |w0.stables| <= i < |w.stables| :: w.stables[i] >= w0.stable
    ensures Vouched(d, w, run, check, r, certBackup, keyBackup) && Sealed(d, w, run, r, commit)
  {
    hide Ends;
    hide NewPairIn;
    hide CheckEntries;
  }

  /** One rollback seen from the run: from the failing stage to the final directory. */
  method TurnAround(d: Directory, certOld: OldEntry, keyOld: OldEntry, check: Checker, stage: Stage,
                    ghost run: Run, ghost keyBackup: string)
    returns (r: Outcome, ghost drop: nat)
    requires Reaches(d, run.target)
    requires d.Valid() && certOld != keyOld
    requires certOld.path == CertFile(run.target) && keyOld.path == KeyFile(run.target)
    requires InFlight(run, d.entries, certOld.path, BookOf(certOld), keyOld.path, BookOf(keyOld))
    requires certOld.existed || certOld.path !in run.before
    requires stage == ProbeKey ==> !keyOld.existed && SameAt(run.before, d.entries, keyOld.path)
    requires stage != ProbeKey ==> keyOld.existed || keyOld.path !in run.before
    requires keyOld.backupPath == keyBackup || (keyOld.backupPath == "" && !keyOld.backedUp && "" !in run.before)
    requires !NewCertOldKey(run, d.entries)
    requires keyOld.path in d.entries && d.entries[keyOld.path] == run.key
             && !(keyOld.path in run.before && run.before[keyOld.path] == run.key)
             ==> stage == CheckPair || stage == SyncPair
    modifies d, certOld`backedUp, certOld`backupPath, keyOld`backedUp, keyOld`backupPath
    ensures d.Valid() && old(d.trace) <= d.trace
    ensures r.RolledBack? && r.stage == stage
    ensures Ends(run, d.entries, r, old(certOld.backupPath), keyBackup)
    ensures forall i | |old(d.trace)| <= i < |d.trace| ::
              BeforeCommit(run, d.trace[i], r, old(certOld.backupPath), keyBackup)
    ensures BeforeCommit(run, d.entries, r, old(certOld.backupPath), keyBackup)
    ensures stage == ProbeKey ==> (r.key == Absent <==> d.answers(drop, Op.Remove(keyOld.path)).Proceed?)
    ensures d.CalmButLstat() ==> r.cert != Unknown && r.key != Unknown
    ensures Vouched(d, RecordOf(d), run, check, r, old(certOld.backupPath), keyBackup)
    ensures forall commit :: Sealed(d, RecordOf(d), run, r, commit)
    ensures NoMoreStaging(run.target, old(d.entries), d.entries)
    ensures d.CalmFrom(old(d.clock))
            && (certOld.existed && keyOld.existed ==>
                  CheckEntries(d.entries, certOld.path, keyOld.path, check) != NoDigest) ==>
              r.clean
  {
    hide Directory.CalmFrom;
    hide Directory.CalmButLstat;
    hide NewCertOldKey;
    hide InFlight;
    hide Confined;
    hide RollbackStep;
    hide RollbackResult;
    hide Ends;
    hide BeforeCommit;
    hide Vouched;
    hide RestoreCallsPass;
    hide CheckEntries;
    ghost var s0, c0, k0 := d.entries, BookOf(certOld), BookOf(keyOld);
    var cert, key, clean;
    cert, key, clean, drop := FailWithRollback(d, certOld, keyOld, check, run);
    r := RolledBack(stage, cert, key, clean);
    StepConfined(run, s0, d.entries, c0, k0, cert == Unknown, KeySafe(run, k0, key));
    RollbackEndsWell(run, d.entries, c0, k0, r);
    forall i | |old(d.trace)| <= i < |d.trace|
      ensures BeforeCommit(run, d.trace[i], r, c0.backup, k0.backup)
    {
      RollbackIsBeforeCommit(run, s0, d.trace[i], c0, k0, r);
    }
    RollbackIsBeforeCommit(run, s0, d.entries, c0, k0, r);
    if k0.backup != keyBackup {
      AnyKeyBackup(run, d.trace, |old(d.trace)|, d.entries, r, c0.backup, keyBackup);
    }
    StableIsThere(d);
    TurnedIsVouched(d, RecordOf(d), run, check, r, c0.backup, keyBackup);
  }

  /** The new pair is in place, read back and on the disk: what is left to do is to drop the backups. */
  method CommitSwapped(d: Directory, certOld: OldEntry, keyOld: OldEntry, check: Checker, ghost run: Run)
    returns (r: Outcome)
    requires Reaches(d, run.target)
    requires d.Valid() && certOld != keyOld && "" !in run.before
    requires certOld.path == CertFile(run.target) && keyOld.path == KeyFile(run.target)
    requires BothNew(run, d.entries, BookOf(certOld), BookOf(keyOld))
    requires Lean(run, d.entries, {certOld.backupPath, keyOld.backupPath})
    requires CheckEntries(d.entries, certOld.path, keyOld.path, check) != NoDigest
    requires d.stable == |d.trace| - 1 && d.Passed(SyncDir)
    requires forall op | op in ReadingCalls(certOld.path, keyOld.path) :: d.Passed(op)
    modifies d, certOld, keyOld
    ensures d.Valid() && old(d.trace) <= d.trace && IsCommitted(r)
    ensures forall i | |old(d.trace)| <= i < |d.trace| :: NewPairIn(run, d.trace[i])
    ensures Ends(run, d.entries, r, old(certOld.backupPath), old(keyOld.backupPath))
    ensures Sealed(d, RecordOf(d), run, r, |old(d.trace)|)
    ensures Vouched(d, RecordOf(d), run, check, r, old(certOld.backupPath), old(keyOld.backupPath))
    ensures NoMoreStaging(run.target, old(d.entries), d.entries)
    ensures check(run.cert.bytes, run.key.bytes) == old(CheckEntries(d.entries, certOld.path, keyOld.path, check))
    ensures d.Calm() ==> r == Installed
  {
    hide Confined;
    hide Lean;
    hide InFlight;
    hide Ends;
    hide NewPairIn;
    hide BothNew;
    ghost var c, k := BookOf(certOld), BookOf(keyOld);
    BothNewIsNewPair(run, d.entries, c, k);
    BothNewChecked(run, d.entries, c, k, check);
    hide CheckEntries;
    BothNewBooks(run, d.entries, c, k);
    var clean := DropBackups(d, certOld, keyOld, run);
    r := if clean then Installed else CommittedUnclean;
    EndsInstalled(run, d.entries, r, c.backup, k.backup);
  }

  lemma BothNewBooks(run: Run, s: Listing, c: Book, k: Book)
    requires BothNew(run, s, c, k)
    ensures (c.backup != "" ==> c.backedUp) && (k.backup != "" ==> k.backedUp)
  {
  }

  /** Publishes what is staged and commits, or turns back. */
  method SwapAndCommit(d: Directory, certOld: OldEntry, keyOld: OldEntry, certTmp: string, keyTmp: string,
                       check: Checker, expected: Digest, ghost run: Run)
    returns (r: Outcome, ghost commit: nat)
    requires Reaches(d, run.target)
    requires d.Valid() && certOld != keyOld && "" !in run.before && expected != NoDigest
    requires certOld.path == CertFile(run.target) && keyOld.path == KeyFile(run.target)
    requires BothAway(run, d.entries, BookOf(certOld), BookOf(keyOld))
    requires Staged(run, d.entries, certTmp, keyTmp)
    requires Lean(run, d.entries, {certTmp, keyTmp, certOld.backupPath, keyOld.backupPath})
    modifies d, certOld, keyOld
    ensures d.Valid() && old(d.trace) <= d.trace
    ensures |old(d.trace)| <= commit <= |d.trace|
    ensures forall i | |old(d.trace)| <= i < commit ::
              BeforeCommit(run, d.trace[i], r, old(certOld.backupPath), old(keyOld.backupPath))
    ensures forall i | commit <= i < |d.trace| :: NewPairIn(run, d.trace[i])
    ensures !(r.Installed? || r.CommittedUnclean?) ==> commit == |d.trace|
    ensures Ends(run, d.entries, r, old(certOld.backupPath), old(keyOld.backupPath))
    ensures !(r.Installed? || r.CommittedUnclean?) ==>
              BeforeCommit(run, d.entries, r, old(certOld.backupPath), old(keyOld.backupPath))
    ensures !r.Refused?
    ensures r.Installed? || r.CommittedUnclean? ==> check(run.cert.bytes, run.key.bytes) == expected
    ensures r.RolledBack? ==> r.stage != ProbeKey
    ensures Sealed(d, RecordOf(d), run, r, commit)
    ensures Vouched(d, RecordOf(d), run, check, r, old(certOld.backupPath), old(keyOld.backupPath))
    ensures NoMoreStaging(run.target, old(d.entries), d.entries)
    ensures d.CalmButLstat() && r.RolledBack? ==> r.cert != Unknown && r.key != Unknown
    ensures d.Calm() && Ordinary(run) && check(run.cert.bytes, run.key.bytes) == expected ==> r == Installed
  {
    hide Unmixed;
    hide Confined;
    hide Lean;
    hide InFlight;
    hide BeforeCommit;
    hide Ends;
    hide NewPairIn;
    hide BothAway;
    hide BothNew;
    hide Staged;
    hide CheckEntries;
    hide RestoreCallsPass;
    ghost var start := |d.trace|;
    ghost var c, k := BookOf(certOld), BookOf(keyOld);
    BothAwayFacts(run, d.entries, c, k);
    var swap := Swap(d, certOld, keyOld, certTmp, keyTmp, check, expected, run);
    ghost var done := |d.trace|;
    UnmixedIsNotNewCertOldKey(run, d.entries, c.backup, k.backup);
    if swap.TurnBack? {
      ghost var drop;
      r, drop := TurnAround(d, certOld, keyOld, check, swap.at, run, k.backup);
      commit := |d.trace|;
      EarlyTrace(run, d.trace, start, done, r, c.backup, k.backup);
      return;
    }
    commit := done;
    r := CommitSwapped(d, certOld, keyOld, check, run);
    EarlyTrace(run, d.trace, start, done, r, c.backup, k.backup);
  }

  /** Backs up, publishes and commits, or turns back. */
  method Publish(d: Directory, target: string, certTmp: string, keyTmp: string,
                 check: Checker, expected: Digest, ghost run: Run)
    returns (r: Outcome, ghost certBackup: string, ghost keyBackup: string, ghost commit: nat,
             ghost probe: Option<nat>, ghost drop: nat)
    requires Reaches(d, target)
    requires d.Valid() && target == run.target && "" !in run.before && expected != NoDigest
    requires Untouched(target, run.before, d.entries)
    requires Staged(run, d.entries, certTmp, keyTmp) && Lean(run, d.entries, {certTmp, keyTmp})
    modifies d
    ensures d.Valid() && old(d.trace) <= d.trace
    ensures |old(d.trace)| <= commit <= |d.trace|
    ensures forall i | |old(d.trace)| <= i < commit :: BeforeCommit(run, d.trace[i], r, certBackup, keyBackup)
    ensures forall i | commit <= i < |d.trace| :: NewPairIn(run, d.trace[i])
    ensures !(r.Installed? || r.CommittedUnclean?) ==> commit == |d.trace|
    ensures Ends(run, d.entries, r, certBackup, keyBackup)
    ensures !(r.Installed? || r.CommittedUnclean?) ==> BeforeCommit(run, d.entries, r, certBackup, keyBackup)
    ensures BackupNames(target, certBackup, keyBackup)
    ensures r.RolledBack? && r.stage == ProbeKey ==> keyBackup == ""
    ensures r.Refused? ==> r.reason == BackupCertFailed
    ensures Sealed(d, RecordOf(d), run, r, commit) && Vouched(d, RecordOf(d), run, check, r, certBackup, keyBackup)
    ensures NoMoreStaging(run.target, old(d.entries), d.entries)
    ensures r.Installed? || r.CommittedUnclean? ==> check(run.cert.bytes, run.key.bytes) == expected
    ensures Probed(d, target, r, probe, drop)
    ensures OthersCalm(d, target) && d.DrawsFree(target, CertBackup, old(d.entries)) ==> probe.Some?
    ensures OthersCalm(d, target) && r.RolledBack? ==> r.cert != Unknown && r.key != Unknown
    ensures d.Calm() && Ordinary(run) && check(run.cert.bytes, run.key.bytes) == expected
            && d.DrawsFree(target, CertBackup, old(d.entries)) && d.DrawsFree(target, KeyBackup, old(d.entries)) ==>
              r == Installed
  {
    hide Unmixed;
    hide Confined;
    hide Lean;
    hide InFlight;
    hide BeforeCommit;
    hide Ends;
    hide NewPairIn;
    hide BothAway;
    hide BothNew;
    hide Staged;
    hide Directory.Valid;
    hide BackupNames;
    hide Untouched;
    hide Vouched;
    hide Sealed;
    drop := 0;
    var certOld := new OldEntry(CertFile(target));
    var keyOld := new OldEntry(KeyFile(target));
    ghost var start := |d.trace|;
    var backup;
    backup, certBackup, keyBackup, probe := BackupBoth(d, target, certOld, keyOld, run, certTmp, keyTmp);
    if backup.CertStays? {
      r, commit := Refused(BackupCertFailed), |d.trace|;
      EarlyTrace(run, d.trace, start, commit, r, certBackup, keyBackup);
      UntouchedIsBeforeCommit(run, d.entries, r, certBackup, keyBackup);
      EndsUntouched(run, d.entries, r, certBackup, keyBackup);
      StableIsThere(d);
      RefusedIsVouched(d, RecordOf(d), run, check, BackupCertFailed, certBackup, keyBackup, commit);
      return;
    }
    ghost var mid := |d.trace|;
    ghost var c, k := BookOf(certOld), BookOf(keyOld);
    UnmixedIsNotNewCertOldKey(run, d.entries, certBackup, keyBackup);
    if backup.KeyStays? {
      KeyNotYetNew(run, d.entries, c, k, backup.stage);
      r, drop := TurnAround(d, certOld, keyOld, check, backup.stage, run, keyBackup);
      commit := |d.trace|;
      EarlyTrace(run, d.trace, start, mid, r, certBackup, keyBackup);
      return;
    }
    r, commit := SwapAndCommit(d, certOld, keyOld, certTmp, keyTmp, check, expected, run);
    EarlyTrace(run, d.trace, start, mid, r, certBackup, keyBackup);
  }

  /** No removal of a staging file is ever refused. */
  ghost predicate StagingRemovable(d: Directory, target: string) {
    forall f | Swept(target, f) :: Removable(d, f)
  }

  ghost predicate NoStaging(target: string, s: Listing) {
    forall f | f in s :: !Swept(target, f)
  }

  /** Everything up to two complete staging files. */
  method StageBoth(d: Directory, target: string, cert: Bytes, key: Bytes, ghost run: Run)
    returns (refused: bool, reason: Reason, certTmp: string, keyTmp: string)
    requires Reaches(d, target)
    requires d.Valid() && run == Run(d.entries, target, NewCert(cert), NewKey(key))
    modifies d
    ensures d.Valid() && old(d.trace) <= d.trace
    ensures forall i | |old(d.trace)| <= i < |d.trace| :: Untouched(target, run.before, d.trace[i])
    ensures Untouched(target, run.before, d.entries)
    ensures !refused ==> Staged(run, d.entries, certTmp, keyTmp) && Lean(run, d.entries, {certTmp, keyTmp})
    ensures refused ==> reason in {MkdirFailed, SweepFailed, StageCertFailed, StageKeyFailed}
    ensures !refused ==>
              d.Passed(Mkdir) && d.Passed(ReadDir) && d.Passed(Op.Close(certTmp)) && d.Passed(Op.Close(keyTmp))
    ensures refused && reason != MkdirFailed && reason != SweepFailed && StagingRemovable(d, target) ==>
              NoStaging(target, d.entries)
    ensures d.CalmButLstat()
            && d.DrawsFree(target, CertBackup, old(d.entries)) && d.DrawsFree(target, KeyBackup, old(d.entries)) ==>
              !refused && d.DrawsFree(target, CertBackup, d.entries) && d.DrawsFree(target, KeyBackup, d.entries)
  {
    hide Untouched;
    hide Lean;
    hide NoStaging;
    hide StagingRemovable;
    hide PartlySwept;
    StartIsUntouched(run);
    certTmp, keyTmp := "", "";
    var err := d.Quiet(Mkdir);
    if err != Ok {
      return true, MkdirFailed, "", "";
    }
    err := CleanupStaging(d, target);
    if err != Ok {
      return true, SweepFailed, "", "";
    }
    refused, reason, certTmp, keyTmp := StageFiles(d, target, cert, key, run);
  }

  /** The two staging files of a directory that has been swept. */
  method StageFiles(d: Directory, target: string, cert: Bytes, key: Bytes, ghost run: Run)
    returns (refused: bool, reason: Reason, certTmp: string, keyTmp: string)
    requires Reaches(d, target)
    requires d.Valid() && run == Run(run.before, target, NewCert(cert), NewKey(key))
    requires d.entries == PartlySwept(run.before, target, {}) && Untouched(target, run.before, d.entries)
    requires d.DrawsFree(target, CertSync, d.entries) && d.DrawsFree(target, KeySync, d.entries)
    modifies d
    ensures d.Valid() && old(d.trace) <= d.trace
    ensures forall i | |old(d.trace)| <= i < |d.trace| :: Untouched(target, run.before, d.trace[i])
    ensures Untouched(target, run.before, d.entries)
    ensures !refused ==> Staged(run, d.entries, certTmp, keyTmp) && Lean(run, d.entries, {certTmp, keyTmp})
    ensures !refused ==> d.Passed(Op.Close(certTmp)) && d.Passed(Op.Close(keyTmp))
    ensures refused ==> reason in {StageCertFailed, StageKeyFailed}
    ensures refused && StagingRemovable(d, target) ==> NoStaging(target, d.entries)
    ensures d.CalmButLstat()
            && d.DrawsFree(target, CertBackup, old(d.entries)) && d.DrawsFree(target, KeyBackup, old(d.entries)) ==>
              !refused && d.DrawsFree(target, CertBackup, d.entries) && d.DrawsFree(target, KeyBackup, d.entries)
  {
    hide Confined;
    hide Lean;
    hide Untouched;
    hide PartlySwept;
    hide NoStaging;
    hide StagingRemovable;
    ghost var s0 := d.entries;
    SweptHasNoStaging(run.before, target);
    keyTmp := "";
    var err;
    err, certTmp := StageFile(d, target, CertSync, cert, CERT_MODE, run);
    if StagingRemovable(d, target) && certTmp != "" {
      StagingIsRemovable(d, target, CertSync, certTmp);
    }
    if err != Ok {
      return true, StageCertFailed, "", "";
    }
    err, keyTmp := StageFile(d, target, KeySync, key, KEY_MODE, run);
    if err != Ok {
      ghost var s2 := d.entries;
      if StagingRemovable(d, target) && keyTmp != "" {
        StagingIsRemovable(d, target, KeySync, keyTmp);
      }
      var _ := d.Remove(certTmp);
      StagingIsUntouched(run, s2, d.entries, CertSync, certTmp);
      assert s0[certTmp := Entry(Regular, CERT_MODE, cert, true)] - {certTmp} == s0;
      return true, StageKeyFailed, "", "";
    }
    BothStaged(run, s0, cert, key, certTmp, keyTmp);
    return false, StageKeyFailed, certTmp, keyTmp;
  }

  lemma SweptHasNoStaging(before: Listing, target: string)
    ensures NoStaging(target, PartlySwept(before, target, {}))
  {
  }

  lemma StagingIsRemovable(d: Directory, target: string, kind: TempKind, name: string)
    requires StagingRemovable(d, target) && IsStaging(kind) && IsTemp(target, kind, name)
    ensures Removable(d, name)
  {
    var random :| Digits(random) && name == TempName(target, kind, random);
    SweepReach(target, target, kind, random);
  }

  method StageFile(d: Directory, target: string, kind: TempKind, data: Bytes, mode: nat, ghost run: Run)
    returns (err: Errno, name: string)
    requires Reaches(d, target)
    requires d.Valid() && target == run.target && IsStaging(kind)
    requires Untouched(target, run.before, d.entries)
    modifies d
    ensures d.Valid() && old(d.trace) <= d.trace
    ensures forall i | |old(d.trace)| <= i < |d.trace| :: Untouched(target, run.before, d.trace[i])
    ensures Untouched(target, run.before, d.entries)
    ensures name != "" ==> IsTemp(target, kind, name)
    ensures err == Ok ==> name != "" && d.entries == old(d.entries)[name := Entry(Regular, mode, data, true)]
    ensures err == Ok ==> d.Passed(Op.Close(name)) && name !in old(d.entries)
    ensures err != Ok && (name != "" ==> Removable(d, name)) ==> d.entries == old(d.entries)
    ensures d.CalmButLstat() && d.DrawsFree(target, kind, old(d.entries)) ==> err == Ok
    ensures forall other | other != kind && d.DrawsFree(target, other, old(d.entries)) ::
              d.DrawsFree(target, other, d.entries)
  {
    hide Confined;
    hide Untouched;
    ghost var s0 := d.entries;
    err, name := WriteTemp(d, target, kind, data, mode);
    forall i | |old(d.trace)| <= i < |d.trace|
      ensures Untouched(target, run.before, d.trace[i])
    {
      StagingIsUntouched(run, s0, d.trace[i], kind, name);
    }
    StagingIsUntouched(run, s0, d.entries, kind, name);
    forall other | other != kind && d.DrawsFree(target, other, s0)
      ensures d.DrawsFree(target, other, d.entries)
    {
      DrawsFreeAfter(d, target, kind, other, name, s0, d.entries);
    }
  }

  /** The deferred removal of a staging file, whose name is free if it was published. */
  method DropStaged(d: Directory, ghost kind: TempKind, name: string,
                    ghost run: Run, r: Outcome, ghost certBackup: string, ghost keyBackup: string)
    requires Reaches(d, run.target)
    requires d.Valid() && IsStaging(kind) && IsTemp(run.target, kind, name)
    requires BackupNames(run.target, certBackup, keyBackup)
    requires Ends(run, d.entries, r, certBackup, keyBackup)
    requires r.Installed? || r.CommittedUnclean? || BeforeCommit(run, d.entries, r, certBackup, keyBackup)
    modifies d
    ensures d.Valid() && d.trace == old(d.trace) + [d.entries]
    ensures KeepsSteady(d, old(d.stable), old(d.stables)) && d.stable == old(d.stable)
    ensures NoMoreStaging(run.target, old(d.entries), d.entries) && (Removable(d, name) ==> name !in d.entries)
    ensures Ends(run, d.entries, r, certBackup, keyBackup)
    ensures if r.Installed? || r.CommittedUnclean? then NewPairIn(run, d.entries)
            else BeforeCommit(run, d.entries, r, certBackup, keyBackup)
  {
    hide BeforeCommit;
    hide Ends;
    hide NewPairIn;
    ghost var s0 := d.entries;
    var _ := d.Remove(name);
    DropTempKeeps(run, s0, d.entries, kind, name, r, certBackup, keyBackup);
    DropTempEnds(run, s0, d.entries, kind, name, r, certBackup, keyBackup);
    EndsNewPair(run, d.entries, r, certBackup, keyBackup);
  }

  /** The digest of a valid pair that is expected, or nothing in particular is. */
  predicate Acceptable(digest: Digest, expected: Digest) {
    digest != NoDigest && (expected == NoDigest || expected == digest)
  }

  /** The deferred removal of both staging files. */
  method DropBothStaged(d: Directory, certTmp: string, keyTmp: string,
                        ghost run: Run, r: Outcome, ghost certBackup: string, ghost keyBackup: string,
                        ghost check: Checker, ghost commit: nat)
    requires Reaches(d, run.target)
    requires d.Valid() && IsTemp(run.target, CertSync, certTmp) && IsTemp(run.target, KeySync, keyTmp)
    requires BackupNames(run.target, certBackup, keyBackup)
    requires Ends(run, d.entries, r, certBackup, keyBackup)
    requires r.Installed? || r.CommittedUnclean? || BeforeCommit(run, d.entries, r, certBackup, keyBackup)
    requires Vouched(d, RecordOf(d), run, check, r, certBackup, keyBackup) && Sealed(d, RecordOf(d), run, r, commit)
    modifies d
    ensures d.Valid() && old(d.trace) <= d.trace
    ensures Vouched(d, RecordOf(d), run, check, r, certBackup, keyBackup) && Sealed(d, RecordOf(d), run, r, commit)
    ensures NoMoreStaging(run.target, old(d.entries), d.entries)
    ensures Removable(d, certTmp) && Removable(d, keyTmp) ==> certTmp !in d.entries && keyTmp !in d.entries
    ensures Ends(run, d.entries, r, certBackup, keyBackup)
    ensures forall i | |old(d.trace)| <= i < |d.trace| ::
              if r.Installed? || r.CommittedUnclean? then NewPairIn(run, d.trace[i])
              else BeforeCommit(run, d.trace[i], r, certBackup, keyBackup)
  {
    hide BeforeCommit;
    hide Ends;
    hide NewPairIn;
    hide Vouched;
    hide Sealed;
    ghost var w0 := RecordOf(d);
    DropStaged(d, CertSync, certTmp, run, r, certBackup, keyBackup);
    DropStaged(d, KeySync, keyTmp, run, r, certBackup, keyBackup);
    VouchKept(d, w0, RecordOf(d), run, check, r, certBackup, keyBackup, commit);
  }

  /** The run got past its sweep. */
  predicate Began(r: Outcome) {
    !(r.Refused? && r.reason in {InvalidPair, PathRefused, MkdirFailed, SweepFailed})
  }

  /**
    Replaces the pair of `target`. An empty expected digest means the digest of
    the given pair. The trace of the directory is split by `commit`: before it
    the old files are still there, from it on the new pair is.
   */
  method ReplacePair(d: Directory, target: string, pathAllowed: bool, cert: Bytes, key: Bytes,
                     check: Checker, expectedDigest: Digest)
    returns (r: Outcome, ghost certBackup: string, ghost keyBackup: string, ghost commit: nat,
             ghost probe: Option<nat>, ghost drop: nat)
    requires Reaches(d, target)
    requires d.Valid() && "" !in d.entries
    modifies d
    ensures d.Valid() && old(d.trace) <= d.trace
    ensures |old(d.trace)| <= commit <= |d.trace|
    ensures forall i | |old(d.trace)| <= i < commit ::
              BeforeCommit(RunOf(old(d.entries), target, cert, key), d.trace[i], r, certBackup, keyBackup)
    ensures forall i | commit <= i < |d.trace| :: NewPairIn(RunOf(old(d.entries), target, cert, key), d.trace[i])
    ensures !(r.Installed? || r.CommittedUnclean?) ==> commit == |d.trace|
    ensures Ends(RunOf(old(d.entries), target, cert, key), d.entries, r, certBackup, keyBackup)
    ensures r.Installed? ==> d.entries == Replaced(old(d.entries), target, cert, key)
    ensures r.Installed? || r.CommittedUnclean? ==>
              check(cert, key) == (if expectedDigest == NoDigest then check(cert, key) else expectedDigest) != NoDigest
    ensures check(cert, key) == NoDigest ==> r == Refused(InvalidPair) && d.trace == old(d.trace)
    ensures check(cert, key) != NoDigest && !pathAllowed ==> r == Refused(PathRefused) && d.trace == old(d.trace)
    ensures r.Refused? && r.reason in {InvalidPair, PathRefused} ==> d.clock == old(d.clock)
    ensures Vouched(d, RecordOf(d), RunOf(old(d.entries), target, cert, key), check, r, certBackup, keyBackup)
    ensures Sealed(d, RecordOf(d), RunOf(old(d.entries), target, cert, key), r, commit)
    ensures IsCommitted(r) ==> d.Passed(Mkdir) && d.Passed(ReadDir)
    ensures r.Installed? ==> d.trace[d.stable] == Replaced(old(d.entries), target, cert, key)
    ensures Began(r) && StagingRemovable(d, target) ==> NoStaging(target, d.entries)
    ensures !IsCommitted(r) && !Kept(old(d.entries), d.entries, KeyFile(target), keyBackup) <==>
            KeyFile(target) in old(d.entries) && BlindDrop(d, target, probe, drop)
    ensures Probed(d, target, r, probe, drop)
    ensures Acceptable(check(cert, key), expectedDigest) && pathAllowed && OthersCalm(d, target)
            && d.DrawsFree(target, CertBackup, old(d.entries)) && d.DrawsFree(target, KeyBackup, old(d.entries)) ==>
              probe.Some? && (r.RolledBack? ==> r.cert != Unknown && r.key != Unknown)
    ensures Acceptable(check(cert, key), expectedDigest) && pathAllowed && d.Calm()
            && d.DrawsFree(target, CertBackup, old(d.entries)) && d.DrawsFree(target, KeyBackup, old(d.entries)) ==>
              r == Installed
  {
    hide BeforeCommit;
    hide NewPairIn;
    hide Ends;
    hide Untouched;
    hide Replaced;
    certBackup, keyBackup, commit, probe, drop := "", "", |d.trace|, None, 0;
    ghost var run := RunOf(d.entries, target, cert, key);
    StartIsUntouched(run);
    var info := check(cert, key);
    if info == NoDigest {
      r := Refused(InvalidPair);
      EndsUntouched(run, d.entries, r, "", "");
      return;
    }
    var expected := if expectedDigest == NoDigest then info else expectedDigest;
    if !pathAllowed {
      r := Refused(PathRefused);
      EndsUntouched(run, d.entries, r, "", "");
      return;
    }
    r, certBackup, keyBackup, commit, probe, drop := StageAndPublish(d, target, cert, key, check, expected, run);
    KeyLossIsBlind(d, run, r, certBackup, keyBackup, probe, drop);
    if r.Installed? {
      EndsReplaced(run, d.trace[d.stable], r, certBackup, keyBackup, cert, key);
    }
  }

  /** The part of a replacement that touches the directory, once pair and path have been accepted. */
  method StageAndPublish(d: Directory, target: string, cert: Bytes, key: Bytes, check: Checker, expected: Digest,
                         ghost run: Run)
    returns (r: Outcome, ghost certBackup: string, ghost keyBackup: string, ghost commit: nat,
             ghost probe: Option<nat>, ghost drop: nat)
    requires Reaches(d, target)
    requires d.Valid() && "" !in d.entries && run == RunOf(d.entries, target, cert, key)
    requires expected != NoDigest
    modifies d
    ensures d.Valid() && old(d.trace) <= d.trace
    ensures |old(d.trace)| <= commit <= |d.trace|
    ensures forall i | |old(d.trace)| <= i < commit :: BeforeCommit(run, d.trace[i], r, certBackup, keyBackup)
    ensures forall i | commit <= i < |d.trace| :: NewPairIn(run, d.trace[i])
    ensures !(r.Installed? || r.CommittedUnclean?) ==> commit == |d.trace|
    ensures Ends(run, d.entries, r, certBackup, keyBackup)
    ensures r.Installed? ==> d.entries == Replaced(run.before, target, cert, key)
    ensures r.Installed? || r.CommittedUnclean? ==> check(cert, key) == expected
    ensures r.RolledBack? && r.stage == ProbeKey ==> keyBackup == ""
    ensures r.Refused? ==> r.reason !in {InvalidPair, PathRefused}
    ensures Vouched(d, RecordOf(d), run, check, r, certBackup, keyBackup) && Sealed(d, RecordOf(d), run, r, commit)
    ensures IsCommitted(r) ==> d.Passed(Mkdir) && d.Passed(ReadDir)
    ensures Began(r) && StagingRemovable(d, target) ==> NoStaging(target, d.entries)
    ensures Probed(d, target, r, probe, drop)
    ensures OthersCalm(d, target)
            && d.DrawsFree(target, CertBackup, old(d.entries)) && d.DrawsFree(target, KeyBackup, old(d.entries)) ==>
              probe.Some? && (r.RolledBack? ==> r.cert != Unknown && r.key != Unknown)
    ensures d.Calm() && check(cert, key) == expected
            && d.DrawsFree(target, CertBackup, old(d.entries)) && d.DrawsFree(target, KeyBackup, old(d.entries)) ==>
              r == Installed
  {
    hide BeforeCommit;
    hide NewPairIn;
    hide Ends;
    hide Staged;
    hide Lean;
    hide Untouched;
    hide Probed;
    hide CleanMeansValid;
    hide NoStaging;
    hide StagingRemovable;
    hide Replaced;
    hide Directory.Valid;
    hide Vouched;
    hide Sealed;
    ghost var start := |d.trace|;
    StartIsUntouched(run);
    certBackup, keyBackup, probe, drop := "", "", None, 0;
    var refused, reason, certTmp, keyTmp := StageBoth(d, target, cert, key, run);
    ghost var staged := |d.trace|;
    if refused {
      r, commit := Refused(reason), staged;
      QuietTrace(run, d.trace, start, staged, r, "", "");
      EndsUntouched(run, d.entries, r, "", "");
      RefusedIsProbed(d, target, reason, drop);
      StableIsThere(d);
      RefusedIsVouched(d, RecordOf(d), run, check, reason, "", "", commit);
      return;
    }
    r, certBackup, keyBackup, commit, probe, drop := PublishAndTidy(d, target, certTmp, keyTmp, check, expected, run);
    QuietTrace(run, d.trace, start, staged, r, certBackup, keyBackup);
    if r.Installed? {
      EndsReplaced(run, d.entries, r, certBackup, keyBackup, cert, key);
    }
  }

  lemma StableIsThere(d: Directory)
    requires d.Valid()
    ensures d.stable < |d.trace|
  {
  }

  lemma RefusedIsProbed(d: Directory, target: string, reason: Reason, drop: nat)
    ensures Probed(d, target, Refused(reason), None, drop)
  {
  }

  /** Publishes, and then removes what has been left of the staging files. */
  method PublishAndTidy(d: Directory, target: string, certTmp: string, keyTmp: string,
                        check: Checker, expected: Digest, ghost run: Run)
    returns (r: Outcome, ghost certBackup: string, ghost keyBackup: string, ghost commit: nat,
             ghost probe: Option<nat>, ghost drop: nat)
    requires Reaches(d, target)
    requires d.Valid() && target == run.target && "" !in run.before && expected != NoDigest
    requires Untouched(target, run.before, d.entries)
    requires Staged(run, d.entries, certTmp, keyTmp) && Lean(run, d.entries, {certTmp, keyTmp})
    modifies d
    ensures d.Valid() && old(d.trace) <= d.trace
    ensures |old(d.trace)| <= commit <= |d.trace|
    ensures forall i | |old(d.trace)| <= i < commit :: BeforeCommit(run, d.trace[i], r, certBackup, keyBackup)
    ensures forall i | commit <= i < |d.trace| :: NewPairIn(run, d.trace[i])
    ensures !IsCommitted(r) ==> commit == |d.trace|
    ensures Ends(run, d.entries, r, certBackup, keyBackup)
    ensures r.RolledBack? && r.stage == ProbeKey ==> keyBackup == ""
    ensures r.Refused? ==> r.reason == BackupCertFailed
    ensures IsCommitted(r) ==> check(run.cert.bytes, run.key.bytes) == expected
    ensures Vouched(d, RecordOf(d), run, check, r, certBackup, keyBackup) && Sealed(d, RecordOf(d), run, r, commit)
    ensures StagingRemovable(d, target) ==> NoStaging(target, d.entries)
    ensures Probed(d, target, r, probe, drop)
    ensures OthersCalm(d, target) && d.DrawsFree(target, CertBackup, old(d.entries)) ==> probe.Some?
    ensures OthersCalm(d, target) && r.RolledBack? ==> r.cert != Unknown && r.key != Unknown
    ensures d.Calm() && Ordinary(run) && check(run.cert.bytes, run.key.bytes) == expected
            && d.DrawsFree(target, CertBackup, old(d.entries)) && d.DrawsFree(target, KeyBackup, old(d.entries)) ==>
              r == Installed
  {
    hide BeforeCommit;
    hide NewPairIn;
    hide Ends;
    hide Staged;
    hide Lean;
    hide Untouched;
    hide Probed;
    hide CheckEntries;
    StagedNames(run, d.entries, certTmp, keyTmp);
    LeanHasOnlyTemps(run, d.entries, certTmp, keyTmp);
    hide Vouched;
    hide Sealed;
    r, certBackup, keyBackup, commit, probe, drop := Publish(d, target, certTmp, keyTmp, check, expected, run);
    DropBothStaged(d, certTmp, keyTmp, run, r, certBackup, keyBackup, check, commit);
    if !IsCommitted(r) {
      commit := |d.trace|;
      TurnedIsSealed(d, run, r, commit);
    }
  }

  lemma TurnedIsSealed(d: Directory, run: Run, r: Outcome, commit: nat)
    requires !IsCommitted(r)
    ensures Sealed(d, RecordOf(d), run, r, commit)
  {
  }

  lemma LeanHasOnlyTemps(run: Run, s: Listing, certTmp: string, keyTmp: string)
    requires Lean(run, s, {certTmp, keyTmp})
    ensures forall f | f in s && Swept(run.target, f) :: f == certTmp || f == keyTmp
  {
    DestinationsAreNotSwept(run.target);
  }
}
