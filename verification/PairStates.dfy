/**
  The directories that a pair replacement may pass through, and the facts that
  survive each of its steps. Nothing here touches the directory itself.
 */
module PairStates {
  import opened PairNames
  import opened PairDirectory

  const CERT_MODE: nat := 0x1A4 // 0644
  const KEY_MODE: nat := 0x180 // 0600

  /** The certificate checks, taken as a fixed partial function to a bundle digest. */
  datatype Digest = NoDigest | Digest(text: string)
  type Checker = (Bytes, Bytes) -> Digest

  datatype RestoreState = Unchanged | Restored | Absent | Unknown

  datatype Reason =
    | InvalidPair | PathRefused | MkdirFailed | SweepFailed
    | StageCertFailed | StageKeyFailed | BackupCertFailed

  /** Where a run was when it turned back. */
  datatype Stage = ProbeKey | BackupKey | PublishCert | PublishKey | CheckPair | SyncPair

  datatype Outcome =
    | Installed
    | Refused(reason: Reason)
    | RolledBack(stage: Stage, cert: RestoreState, key: RestoreState, clean: bool)
    | CommittedUnclean

  function NewCert(cert: Bytes): Entry { Entry(Regular, CERT_MODE, cert, true) }

  function NewKey(key: Bytes): Entry { Entry(Regular, KEY_MODE, key, true) }

  /** The directory that a replacement without any fault leaves. */
  ghost function Replaced(before: Listing, target: string, cert: Bytes, key: Bytes): Listing {
    (map f | f in before && !Swept(target, f) :: before[f])
      [CertFile(target) := NewCert(cert)][KeyFile(target) := NewKey(key)]
  }

  /** An entry of the old directory is still there, under its own name or as its backup. */
  ghost predicate Kept(before: Listing, s: Listing, path: string, backup: string) {
    path in before ==>
      || (path in s && s[path] == before[path])
      || (backup in s && s[backup] == before[path])
  }

  /** What the directory holds under `path` is the old entry, the new one, or nothing. */
  ghost predicate OldOrNew(before: Listing, s: Listing, path: string, incoming: Entry) {
    path in s ==> s[path] == incoming || (path in before && s[path] == before[path])
  }

  /** Only names of this target differ, and its kept backups are all still there. */
  ghost predicate Confined(target: string, before: Listing, s: Listing) {
    && (forall f | f in before && f != CertFile(target) && f != KeyFile(target) && !Swept(target, f) ::
          f in s && s[f] == before[f])
    && (forall f | f in s && f !in before ::
          f == CertFile(target) || f == KeyFile(target) || IsOwnTemp(target, f))
  }

  /** Both destination names are as they were. */
  ghost predicate Untouched(target: string, before: Listing, s: Listing) {
    && SameAt(before, s, CertFile(target))
    && SameAt(before, s, KeyFile(target))
    && Confined(target, before, s)
  }

  /** The directory in the middle of a sweep: the names in `left` are still to be looked at. */
  ghost function PartlySwept(before: Listing, target: string, left: set<string>): Listing {
    map f | f in before && (f in left || !Swept(target, f)) :: before[f]
  }

  lemma PartlySweptIsUntouched(before: Listing, target: string, left: set<string>)
    ensures Untouched(target, before, PartlySwept(before, target, left))
  {
    DestinationIsNotTemp(target, CertFile(target));
    DestinationIsNotTemp(target, KeyFile(target));
  }

  lemma SweepOne(before: Listing, target: string, left: set<string>, name: string)
    requires name in left
    ensures PartlySwept(before, target, left - {name}) ==
            if Swept(target, name) then PartlySwept(before, target, left) - {name}
            else PartlySwept(before, target, left)
  {
  }

  lemma TempIsNotEmpty(target: string, kind: TempKind, name: string)
    requires IsTemp(target, kind, name)
    ensures name != ""
  {
  }

  /** The directories that PrepareBackup passes through. */
  ghost predicate BackupStates(s0: Listing, s: Listing, path: string, mark: string) {
    || SameExcept(s0, s, {mark})
    || (path in s0 && s == MoveAway(s0, path, mark))
  }

  /** No staging file of the target has come in addition. */
  ghost predicate NoMoreStaging(target: string, s0: Listing, s: Listing) {
    forall f | f in s && Swept(target, f) :: f in s0
  }

  lemma DestinationsAreNotSwept(target: string)
    ensures !Swept(target, CertFile(target)) && !Swept(target, KeyFile(target))
  {
    DestinationIsNotTemp(target, CertFile(target));
    DestinationIsNotTemp(target, KeyFile(target));
  }

  lemma AwayAddsNoStaging(target: string, s0: Listing, s: Listing, path: string, mark: string, kind: TempKind)
    requires BackupStates(s0, s, path, mark) && !IsStaging(kind)
    requires mark != "" ==> IsTemp(target, kind, mark)
    requires mark == "" ==> s == s0
    ensures NoMoreStaging(target, s0, s)
  {
    if mark != "" {
      OwnBackupIsNotSwept(target, mark);
    }
    hide Swept;
    hide IsTemp;
  }

  lemma RestoreAddsNoStaging(target: string, s0: Listing, s: Listing, path: string, e: Book)
    requires RestoreStates(s0, s, path, e) && (path == CertFile(target) || path == KeyFile(target))
    ensures NoMoreStaging(target, s0, s)
  {
    DestinationsAreNotSwept(target);
    hide Swept;
  }

  lemma PublishAddsNoStaging(target: string, s0: Listing, temp: string, path: string)
    requires temp in s0 && (path == CertFile(target) || path == KeyFile(target))
    ensures NoMoreStaging(target, s0, Published(s0, temp, path))
  {
    DestinationsAreNotSwept(target);
    hide Swept;
  }

  ghost function MoveAway(s: Listing, path: string, backup: string): Listing
    requires path in s
  {
    (s - {path})[backup := s[path]]
  }

  ghost function MoveBack(s: Listing, path: string, backup: string): Listing
    requires backup in s
  {
    ((s - {path}) - {backup})[path := s[backup]]
  }

  /** The value of an OldEntry. */
  datatype Book = Book(existed: bool, backedUp: bool, backup: string)

  /** The directories that restoring one file can pass through. */
  ghost predicate RestoreStates(s0: Listing, s: Listing, path: string, e: Book) {
    || s == s0
    || ((e.backedUp || !e.existed) && s == s0 - {path})
    || (e.backedUp && e.backup in s0 && s == MoveBack(s0, path, e.backup))
  }

  function CheckEntries(s: Listing, certPath: string, keyPath: string, check: Checker): Digest {
    if certPath in s && keyPath in s
       && s[certPath].kind == Regular && s[keyPath].kind == Regular
       && s[certPath].mode == CERT_MODE && s[keyPath].mode == KEY_MODE
    then check(s[certPath].bytes, s[keyPath].bytes)
    else NoDigest
  }

  /** The fixed facts of one run: the directory it found and the two entries it brings. */
  datatype Run = Run(before: Listing, target: string, cert: Entry, key: Entry)

  ghost function Incoming(run: Run, path: string): Entry {
    if path == CertFile(run.target) then run.cert else run.key
  }

  ghost predicate IsDestination(run: Run, path: string) {
    path == CertFile(run.target) || path == KeyFile(run.target)
  }

  /** The bookkeeping of one file describes the directory. */
  ghost predicate Tracks(run: Run, s: Listing, path: string, e: Book) {
    && (e.existed ==> path in run.before)
    && (e.backedUp ==>
          && e.existed && e.backup !in run.before && !IsDestination(run, e.backup)
          && e.backup in s && s[e.backup] == run.before[path]
          && (path in s ==> s[path] == Incoming(run, path)))
    && (e.existed && !e.backedUp ==> SameAt(run.before, s, path))
    && (!e.existed ==> OldOrNew(run.before, s, path, Incoming(run, path)))
  }

  ghost predicate InFlight(run: Run, s: Listing, p: string, ep: Book, q: string, eq: Book) {
    && IsDestination(run, p) && IsDestination(run, q) && p != q
    && Confined(run.target, run.before, s)
    && Tracks(run, s, p, ep) && Tracks(run, s, q, eq)
    && (ep.backedUp && eq.backedUp ==> ep.backup != eq.backup)
  }

  lemma RestoreStep(run: Run, s0: Listing, s: Listing, p: string, ep: Book, q: string, eq: Book)
    requires InFlight(run, s0, p, ep, q, eq)
    requires RestoreStates(s0, s, p, ep)
    ensures Confined(run.target, run.before, s)
    ensures SameAt(s0, s, q) && (eq.backedUp ==> SameAt(s0, s, eq.backup))
    ensures ep.existed || p !in run.before ==> Kept(run.before, s, p, ep.backup)
    ensures eq.existed || q !in run.before ==> Kept(run.before, s, q, eq.backup)
    ensures OldOrNew(run.before, s, p, Incoming(run, p)) && OldOrNew(run.before, s, q, Incoming(run, q))
  {
  }

  lemma FlightKeeps(run: Run, s: Listing, p: string, ep: Book, q: string, eq: Book)
    requires InFlight(run, s, p, ep, q, eq)
    ensures ep.existed || p !in run.before ==> Kept(run.before, s, p, ep.backup)
    ensures OldOrNew(run.before, s, p, Incoming(run, p))
    ensures InFlight(run, s, q, eq, p, ep)
  {
  }

  lemma FlightReady(run: Run, s: Listing, p: string, ep: Book, q: string, eq: Book)
    requires InFlight(run, s, p, ep, q, eq)
    ensures ep.backedUp ==> ep.existed && ep.backup in s && ep.backup != p
    ensures InFootprint(run.target, p) && (ep.backedUp ==> InFootprint(run.target, ep.backup))
  {
    if ep.backedUp && IsOwnTemp(run.target, ep.backup) {
      OwnTempInFootprint(run.target, ep.backup);
    }
  }

  /** What RestoreEntry has achieved, read off its result. */
  ghost predicate RestoredTo(run: Run, s0: Listing, s: Listing, p: string, e0: Book, e: Book, state: RestoreState) {
    && e.existed == e0.existed
    && (state == Unchanged <==> e0.existed && !e0.backedUp)
    && (state == Unchanged ==> s == s0 && e == e0)
    && (state == Restored ==> e0.backedUp && e0.backup in s0 && s == MoveBack(s0, p, e0.backup) && !e.backedUp)
    && (state == Absent ==> !e0.existed && s == s0 - {p} && e == e0)
    && (state == Unknown ==> e == e0 && (s == s0 || (e0.backedUp && s == s0 - {p})))
  }

  lemma RestoreDone(run: Run, s0: Listing, s: Listing, p: string, e0: Book, e: Book, state: RestoreState, q: string,
                    eq: Book)
    requires InFlight(run, s0, p, e0, q, eq)
    requires RestoredTo(run, s0, s, p, e0, e, state)
    ensures InFlight(run, s, q, eq, p, e)
    ensures state != Unknown && (e0.existed || p !in run.before) ==> SameAt(run.before, s, p)
    ensures state == Absent ==> p !in s
    ensures state == Unknown && !e0.existed ==> s == s0
  {
  }

  /** The new certificate stands beside the old key. */
  ghost predicate NewCertOldKey(run: Run, s: Listing) {
    var pem, key := CertFile(run.target), KeyFile(run.target);
    && pem in s && s[pem] == run.cert && !(pem in run.before && run.before[pem] == run.cert)
    && key in s && key in run.before && s[key] == run.before[key] && run.before[key] != run.key
  }

  /** The old certificate stands beside the new key. */
  ghost predicate OldCertNewKey(run: Run, s: Listing) {
    var pem, key := CertFile(run.target), KeyFile(run.target);
    && pem in s && pem in run.before && s[pem] == run.before[pem] && run.before[pem] != run.cert
    && key in s && s[key] == run.key && !(key in run.before && run.before[key] == run.key)
  }

  /** The facts about one intermediate directory that no fault before the commit point breaks. */
  ghost predicate StepOk(run: Run, s: Listing, certBackup: string, keyBackup: string, keyProbed: bool) {
    var pem, key := CertFile(run.target), KeyFile(run.target);
    && Confined(run.target, run.before, s)
    && Kept(run.before, s, pem, certBackup)
    && (keyProbed ==> Kept(run.before, s, key, keyBackup))
    && OldOrNew(run.before, s, pem, run.cert)
    && OldOrNew(run.before, s, key, run.key)
  }

  /** What holds of every directory that a rollback started at `s0` passes through. */
  ghost predicate RollbackStep(run: Run, s0: Listing, s: Listing, c0: Book, k0: Book, certUnknown: bool,
                               keySafe: bool) {
    && StepOk(run, s, c0.backup, k0.backup, keySafe)
    && (NewCertOldKey(run, s) ==> certUnknown)
    && (OldCertNewKey(run, s) ==> KeyFile(run.target) in s0 && s0[KeyFile(run.target)] == run.key)
  }

  /** The key can be lost only if it was there, its probe failed and its removal succeeded. */
  ghost predicate KeySafe(run: Run, k0: Book, key: RestoreState) {
    k0.existed || KeyFile(run.target) !in run.before || key == Unknown
  }

  lemma CertRestoreStates(run: Run, s0: Listing, s: Listing, c0: Book, k0: Book)
    requires InFlight(run, s0, CertFile(run.target), c0, KeyFile(run.target), k0)
    requires c0.existed || CertFile(run.target) !in run.before
    requires !NewCertOldKey(run, s0)
    requires RestoreStates(s0, s, CertFile(run.target), c0)
    requires !k0.existed && KeyFile(run.target) in run.before ==> SameAt(run.before, s0, KeyFile(run.target))
    ensures RollbackStep(run, s0, s, c0, k0, false, true)
  {
    RestoreStep(run, s0, s, CertFile(run.target), c0, KeyFile(run.target), k0);
    FlightKeeps(run, s0, CertFile(run.target), c0, KeyFile(run.target), k0);
  }

  lemma KeyRestoreStates(run: Run, s0: Listing, s1: Listing, s: Listing, c0: Book, c1: Book, k0: Book,
                         cert: RestoreState, key: RestoreState)
    requires InFlight(run, s0, CertFile(run.target), c0, KeyFile(run.target), k0)
    requires RestoredTo(run, s0, s1, CertFile(run.target), c0, c1, cert)
    requires c0.existed || CertFile(run.target) !in run.before
    requires RestoreStates(s1, s, KeyFile(run.target), k0)
    requires !k0.existed && KeyFile(run.target) in run.before ==> SameAt(run.before, s0, KeyFile(run.target))
    requires key == Unknown && !k0.existed ==> s == s1
    ensures RollbackStep(run, s0, s, c0, k0, cert == Unknown, KeySafe(run, k0, key))
  {
    var pem, path := CertFile(run.target), KeyFile(run.target);
    RestoreDone(run, s0, s1, pem, c0, c1, cert, path, k0);
    RestoreStep(run, s1, s, path, k0, pem, c1);
    CertKept(run, s0, s1, s, c0, c1, k0, cert);
    FlightKeeps(run, s1, path, k0, pem, c1);
    RestoreStep(run, s0, s1, pem, c0, path, k0);
  }

  /** The certificate's fate is settled before its key is looked at. */
  lemma CertKept(run: Run, s0: Listing, s1: Listing, s: Listing, c0: Book, c1: Book, k0: Book, cert: RestoreState)
    requires InFlight(run, s0, CertFile(run.target), c0, KeyFile(run.target), k0)
    requires RestoredTo(run, s0, s1, CertFile(run.target), c0, c1, cert)
    requires c0.existed || CertFile(run.target) !in run.before
    requires RestoreStates(s1, s, KeyFile(run.target), k0)
    ensures SameAt(s1, s, CertFile(run.target))
    ensures Kept(run.before, s, CertFile(run.target), c0.backup)
  {
  }

  lemma StepOkWeaken(run: Run, s: Listing, certBackup: string, keyBackup: string, keyProbed: bool)
    requires StepOk(run, s, certBackup, keyBackup, true)
    ensures StepOk(run, s, certBackup, keyBackup, keyProbed)
  {
  }

  /** What a whole rollback leaves and passes through, from what the two restorations did. */
  lemma RollbackFacts(run: Run, trace: seq<Listing>, lo: nat, mid: nat, s0: Listing, s1: Listing, s2: Listing,
                      c0: Book, c1: Book, k0: Book, k2: Book, cert: RestoreState, key: RestoreState)
    requires InFlight(run, s0, CertFile(run.target), c0, KeyFile(run.target), k0)
    requires c0.existed || CertFile(run.target) !in run.before
    requires !NewCertOldKey(run, s0)
    requires lo <= mid <= |trace|
    requires RestoredTo(run, s0, s1, CertFile(run.target), c0, c1, cert)
    requires RestoredTo(run, s1, s2, KeyFile(run.target), k0, k2, key)
    requires forall i | lo <= i < mid :: RestoreStates(s0, trace[i], CertFile(run.target), c0)
    requires forall i | mid <= i < |trace| :: RestoreStates(s1, trace[i], KeyFile(run.target), k0)
    requires RestoreStates(s1, s2, KeyFile(run.target), k0)
    requires !k0.existed && KeyFile(run.target) in run.before ==> SameAt(run.before, s0, KeyFile(run.target))
    requires key == Unknown && !k0.existed ==> s2 == s1 && forall i | mid <= i < |trace| :: trace[i] == s1
    ensures forall i | lo <= i < |trace| ::
              RollbackStep(run, s0, trace[i], c0, k0, cert == Unknown, KeySafe(run, k0, key))
    ensures RollbackStep(run, s0, s2, c0, k0, cert == Unknown, KeySafe(run, k0, key))
  {
    hide StepOk;
    hide Confined;
    hide InFlight;
    forall i | lo <= i < |trace|
      ensures RollbackStep(run, s0, trace[i], c0, k0, cert == Unknown, KeySafe(run, k0, key))
    {
      if i < mid {
        CertRestoreStates(run, s0, trace[i], c0, k0);
        StepOkWeaken(run, trace[i], c0.backup, k0.backup, KeySafe(run, k0, key));
      } else {
        KeyRestoreStates(run, s0, s1, trace[i], c0, c1, k0, cert, key);
      }
    }
    KeyRestoreStates(run, s0, s1, s2, c0, c1, k0, cert, key);
  }

  /** How the two destination names look after a rollback. */
  ghost predicate RollbackResult(run: Run, s: Listing, c0: Book, k0: Book, cert: RestoreState, key: RestoreState) {
    var pem, keyPath := CertFile(run.target), KeyFile(run.target);
    && (cert != Unknown ==> SameAt(run.before, s, pem))
    && (cert == Unknown ==> Kept(run.before, s, pem, c0.backup))
    && (!k0.existed ==> key == Absent || key == Unknown)
    && (k0.existed || keyPath !in run.before ==>
          && (key != Unknown ==> SameAt(run.before, s, keyPath))
          && (key == Unknown ==> Kept(run.before, s, keyPath, k0.backup)))
    && (!k0.existed && keyPath in run.before ==>
          || (key == Absent && keyPath !in s)
          || (key == Unknown && SameAt(run.before, s, keyPath)))
  }

  lemma RollbackEnds(run: Run, s0: Listing, s1: Listing, s2: Listing,
                     c0: Book, c1: Book, k0: Book, k2: Book, cert: RestoreState, key: RestoreState)
    requires InFlight(run, s0, CertFile(run.target), c0, KeyFile(run.target), k0)
    requires c0.existed || CertFile(run.target) !in run.before
    requires !k0.existed && KeyFile(run.target) in run.before ==> SameAt(run.before, s0, KeyFile(run.target))
    requires RestoredTo(run, s0, s1, CertFile(run.target), c0, c1, cert)
    requires RestoredTo(run, s1, s2, KeyFile(run.target), k0, k2, key)
    requires RestoreStates(s1, s2, KeyFile(run.target), k0)
    ensures RollbackResult(run, s2, c0, k0, cert, key)
  {
    hide Confined;
    var pem, keyPath := CertFile(run.target), KeyFile(run.target);
    RestoreDone(run, s0, s1, pem, c0, c1, cert, keyPath, k0);
    CertKept(run, s0, s1, s2, c0, c1, k0, cert);
    RestoreDone(run, s1, s2, keyPath, k0, k2, key, pem, c1);
    FlightKeeps(run, s2, keyPath, k2, pem, c1);
  }

  /** A directory before publication has begun to mix the pair. */
  ghost predicate Unmixed(run: Run, s: Listing, certBackup: string, keyBackup: string, keyProbed: bool) {
    && StepOk(run, s, certBackup, keyBackup, keyProbed)
    && !NewCertOldKey(run, s)
    && !OldCertNewKey(run, s)
  }

  /** The two staged files wait under their own names. */
  ghost predicate Staged(run: Run, s: Listing, certTmp: string, keyTmp: string) {
    && IsTemp(run.target, CertSync, certTmp) && IsTemp(run.target, KeySync, keyTmp)
    && certTmp in s && s[certTmp] == run.cert
    && keyTmp in s && s[keyTmp] == run.key
  }

  lemma TempNamesDiffer(target: string, kind: TempKind, kind': TempKind, name: string, name': string)
    requires kind != kind' && IsTemp(target, kind, name) && IsTemp(target, kind', name')
    ensures name != name'
  {
    var random :| Digits(random) && name == TempName(target, kind, random);
    var random' :| Digits(random') && name' == TempName(target, kind', random');
    if name == name' {
      TempNameInjective(target, kind, random, target, kind', random');
    }
  }

  /** A name drawn for a backup is new to the run: it was not there and nothing of it is swept. */
  lemma BackupNameIsNew(run: Run, s: Listing, kind: TempKind, name: string)
    requires Confined(run.target, run.before, s)
    requires !IsStaging(kind) && IsTemp(run.target, kind, name) && name !in s
    ensures name !in run.before && !IsDestination(run, name) && IsOwnTemp(run.target, name)
  {
    OwnBackupIsNotSwept(run.target, name);
    DestinationIsNotTemp(run.target, CertFile(run.target));
    DestinationIsNotTemp(run.target, KeyFile(run.target));
  }

  lemma CertBackupStates(run: Run, s0: Listing, s: Listing, mark: string, keyBackup: string)
    requires Untouched(run.target, run.before, s0)
    requires BackupStates(s0, s, CertFile(run.target), mark)
    requires mark != "" ==> mark !in s0 && IsTemp(run.target, CertBackup, mark)
    requires mark == "" ==> s == s0
    ensures Unmixed(run, s, mark, keyBackup, true)
    ensures SameExcept(s0, s, {mark}) ==> Untouched(run.target, run.before, s)
  {
    DestinationsAreDistinct(run.target, run.target);
    if mark != "" {
      BackupNameIsNew(run, s0, CertBackup, mark);
    }
  }

  /** After the certificate has been moved away, or found absent. */
  ghost predicate CertAway(run: Run, s: Listing, c: Book) {
    && Confined(run.target, run.before, s)
    && (c.existed <==> CertFile(run.target) in run.before) && c.backedUp == c.existed
    && CertFile(run.target) !in s
    && (!c.existed ==> c.backup == "")
    && (c.existed ==>
          && c.backup !in run.before && IsTemp(run.target, CertBackup, c.backup)
          && c.backup in s && s[c.backup] == run.before[CertFile(run.target)])
    && SameAt(run.before, s, KeyFile(run.target))
  }

  lemma CertMoved(run: Run, s0: Listing, s: Listing, c: Book)
    requires Untouched(run.target, run.before, s0)
    requires (c.existed <==> CertFile(run.target) in s0) && c.backedUp == c.existed
    requires c.existed ==> c.backup !in s0 && IsTemp(run.target, CertBackup, c.backup)
                           && s == MoveAway(s0, CertFile(run.target), c.backup)
    requires !c.existed ==> s == s0 && c.backup == ""
    ensures CertAway(run, s, c)
  {
    DestinationsAreDistinct(run.target, run.target);
    if c.existed {
      BackupNameIsNew(run, s0, CertBackup, c.backup);
    }
  }

  lemma KeyBackupConfined(run: Run, s0: Listing, s: Listing, c: Book, mark: string)
    requires CertAway(run, s0, c)
    requires BackupStates(s0, s, KeyFile(run.target), mark)
    requires mark != "" ==> mark !in s0 && IsTemp(run.target, KeyBackup, mark)
    requires mark == "" ==> s == s0
    ensures Confined(run.target, run.before, s)
  {
    DestinationsAreDistinct(run.target, run.target);
    if mark != "" {
      BackupNameIsNew(run, s0, KeyBackup, mark);
    }
  }

  /** What the certificate and the key are while the key is moved away. */
  lemma KeyBackupEntries(run: Run, s0: Listing, s: Listing, c: Book, mark: string)
    requires CertAway(run, s0, c)
    requires BackupStates(s0, s, KeyFile(run.target), mark)
    requires mark != "" ==> mark !in s0 && IsTemp(run.target, KeyBackup, mark)
    requires mark == "" ==> s == s0
    ensures CertFile(run.target) !in s
    ensures CertFile(run.target) in run.before ==> c.backup in s && s[c.backup] == run.before[CertFile(run.target)]
    ensures
      || SameAt(run.before, s, KeyFile(run.target))
      || (KeyFile(run.target) !in s && KeyFile(run.target) in run.before
          && mark in s && s[mark] == run.before[KeyFile(run.target)])
  {
    DestinationsAreDistinct(run.target, run.target);
    DestinationIsNotTemp(run.target, CertFile(run.target));
    DestinationIsNotTemp(run.target, KeyFile(run.target));
    if c.existed && mark != "" {
      TempNamesDiffer(run.target, CertBackup, KeyBackup, c.backup, mark);
    }
    hide Confined;
    hide IsTemp;
  }

  lemma KeyBackupUnmixed(run: Run, s0: Listing, s: Listing, c: Book, mark: string)
    requires CertAway(run, s0, c)
    requires BackupStates(s0, s, KeyFile(run.target), mark)
    requires mark != "" ==> mark !in s0 && IsTemp(run.target, KeyBackup, mark)
    requires mark == "" ==> s == s0
    ensures Unmixed(run, s, c.backup, mark, true)
  {
    KeyBackupConfined(run, s0, s, c, mark);
    KeyBackupEntries(run, s0, s, c, mark);
    hide Confined;
    hide IsTemp;
    hide BackupStates;
    hide CertAway;
  }

  lemma KeyBackupInFlight(run: Run, s0: Listing, s: Listing, c: Book, mark: string)
    requires CertAway(run, s0, c)
    requires BackupStates(s0, s, KeyFile(run.target), mark)
    requires mark != "" ==> mark !in s0 && IsTemp(run.target, KeyBackup, mark)
    requires mark == "" ==> s == s0
    requires SameExcept(s0, s, {mark})
    ensures InFlight(run, s, CertFile(run.target), c, KeyFile(run.target), Book(false, false, ""))
    ensures KeyFile(run.target) in run.before ==>
              InFlight(run, s, CertFile(run.target), c, KeyFile(run.target), Book(true, false, ""))
    ensures SameAt(run.before, s, KeyFile(run.target))
  {
    DestinationsAreDistinct(run.target, run.target);
    if mark != "" {
      BackupNameIsNew(run, s0, KeyBackup, mark);
    }
    if c.existed && mark != "" {
      TempNamesDiffer(run.target, CertBackup, KeyBackup, c.backup, mark);
    }
    if c.existed {
      DestinationIsNotTemp(run.target, CertFile(run.target));
      DestinationIsNotTemp(run.target, KeyFile(run.target));
    }
  }

  lemma KeyBackupStates(run: Run, s0: Listing, s: Listing, c: Book, mark: string)
    requires CertAway(run, s0, c)
    requires BackupStates(s0, s, KeyFile(run.target), mark)
    requires mark != "" ==> mark !in s0 && IsTemp(run.target, KeyBackup, mark)
    requires mark == "" ==> s == s0
    ensures Unmixed(run, s, c.backup, mark, true)
    ensures SameExcept(s0, s, {mark}) ==>
              && InFlight(run, s, CertFile(run.target), c, KeyFile(run.target), Book(false, false, ""))
              && (KeyFile(run.target) in run.before ==> InFlight(run, s, CertFile(run.target), c, KeyFile(run.target), Book(true, false, "")))
              && SameAt(run.before, s, KeyFile(run.target))
  {
    hide Unmixed;
    hide InFlight;
    hide CertAway;
    hide BackupStates;
    KeyBackupUnmixed(run, s0, s, c, mark);
    if SameExcept(s0, s, {mark}) {
      KeyBackupInFlight(run, s0, s, c, mark);
    }
  }

  /** After both files have been moved away, or found absent. */
  ghost predicate BothAway(run: Run, s: Listing, c: Book, k: Book) {
    var pem, key := CertFile(run.target), KeyFile(run.target);
    && InFlight(run, s, pem, c, key, k)
    && pem !in s && key !in s
    && Truthful(run, c, k)
  }

  /** The books say exactly what was there, and name backups of their own kind. */
  ghost predicate Truthful(run: Run, c: Book, k: Book) {
    && (c.existed <==> CertFile(run.target) in run.before) && c.backedUp == c.existed
    && (k.existed <==> KeyFile(run.target) in run.before) && k.backedUp == k.existed
    && (c.backedUp ==> IsTemp(run.target, CertBackup, c.backup))
    && (k.backedUp ==> IsTemp(run.target, KeyBackup, k.backup))
    && (!c.existed ==> c.backup == "") && (!k.existed ==> k.backup == "")
  }

  lemma KeyMoved(run: Run, s0: Listing, s: Listing, c: Book, k: Book)
    requires CertAway(run, s0, c)
    requires (k.existed <==> KeyFile(run.target) in s0) && k.backedUp == k.existed
    requires k.existed ==> k.backup !in s0 && IsTemp(run.target, KeyBackup, k.backup)
                           && s == MoveAway(s0, KeyFile(run.target), k.backup)
    requires !k.existed ==> s == s0 && k.backup == ""
    ensures BothAway(run, s, c, k)
  {
    DestinationsAreDistinct(run.target, run.target);
    DestinationIsNotTemp(run.target, CertFile(run.target));
    DestinationIsNotTemp(run.target, KeyFile(run.target));
    if k.existed {
      BackupNameIsNew(run, s0, KeyBackup, k.backup);
    }
    if c.existed && k.existed {
      TempNamesDiffer(run.target, CertBackup, KeyBackup, c.backup, k.backup);
    }
  }

  /** Nothing is left of the old staging files, and nothing of this run but `temps`. */
  ghost predicate Lean(run: Run, s: Listing, temps: set<string>) {
    forall f | f in s :: (f in run.before && !Swept(run.target, f)) || IsDestination(run, f) || f in temps
  }

  /** A backup has a name of its own kind, or none. */
  ghost predicate BackupNames(target: string, certBackup: string, keyBackup: string) {
    && (certBackup == "" || IsTemp(target, CertBackup, certBackup))
    && (keyBackup == "" || IsTemp(target, KeyBackup, keyBackup))
  }

  lemma AwayKeepsTemps(run: Run, s0: Listing, s: Listing, path: string, mark: string,
                       certTmp: string, keyTmp: string, temps: set<string>)
    requires IsDestination(run, path) && BackupStates(s0, s, path, mark)
    requires mark != "" ==> mark !in s0
    requires mark == "" ==> s == s0
    requires Staged(run, s0, certTmp, keyTmp) && Lean(run, s0, temps)
    ensures Staged(run, s, certTmp, keyTmp) && Lean(run, s, temps + {mark})
  {
    DestinationIsNotTemp(run.target, path);
  }

  lemma CertAwayBook(run: Run, s: Listing, c: Book)
    requires CertAway(run, s, c)
    ensures c.existed <==> CertFile(run.target) in run.before
  {
  }

  /** Renaming a staged file to its destination. */
  ghost function Published(s: Listing, temp: string, path: string): Listing
    requires temp in s
  {
    (s - {temp})[path := s[temp]]
  }

  lemma CertPublished(run: Run, s0: Listing, c: Book, k: Book, certTmp: string, keyTmp: string)
    requires BothAway(run, s0, c, k) && Staged(run, s0, certTmp, keyTmp)
    ensures var s := Published(s0, certTmp, CertFile(run.target));
            && InFlight(run, s, CertFile(run.target), c, KeyFile(run.target), k)
            && Unmixed(run, s, c.backup, k.backup, true)
            && CertFile(run.target) in s && s[CertFile(run.target)] == run.cert && KeyFile(run.target) !in s
            && keyTmp in s && s[keyTmp] == run.key
  {
    StagedIsApart(run, s0, c, k, certTmp, CertSync);
    DestinationsAreDistinct(run.target, run.target);
    TempNamesDiffer(run.target, CertSync, KeySync, certTmp, keyTmp);
    DestinationIsNotTemp(run.target, CertFile(run.target));
  }

  /** A staged file is no destination, no backup and nothing the run must keep. */
  lemma StagedIsApart(run: Run, s: Listing, c: Book, k: Book, temp: string, kind: TempKind)
    requires IsStaging(kind) && IsTemp(run.target, kind, temp)
    requires c.backedUp ==> IsTemp(run.target, CertBackup, c.backup)
    requires k.backedUp ==> IsTemp(run.target, KeyBackup, k.backup)
    ensures !IsDestination(run, temp) && Swept(run.target, temp) && IsOwnTemp(run.target, temp)
    ensures c.backedUp ==> temp != c.backup
    ensures k.backedUp ==> temp != k.backup
  {
    DestinationIsNotTemp(run.target, CertFile(run.target));
    DestinationIsNotTemp(run.target, KeyFile(run.target));
    var random :| Digits(random) && temp == TempName(run.target, kind, random);
    SweepReach(run.target, run.target, kind, random);
    if c.backedUp {
      TempNamesDiffer(run.target, kind, CertBackup, temp, c.backup);
    }
    if k.backedUp {
      TempNamesDiffer(run.target, kind, KeyBackup, temp, k.backup);
    }
  }

  /** Both new files are in place, the backups still hold the old ones. */
  ghost predicate BothNew(run: Run, s: Listing, c: Book, k: Book) {
    var pem, key := CertFile(run.target), KeyFile(run.target);
    && InFlight(run, s, pem, c, key, k) && Truthful(run, c, k)
    && pem in s && s[pem] == run.cert
    && key in s && s[key] == run.key
  }

  /** Renaming a staged file to its destination keeps the listing confined. */
  lemma PublishedConfined(run: Run, s0: Listing, temp: string, path: string)
    requires Confined(run.target, run.before, s0) && temp in s0
    requires IsDestination(run, path) && !IsDestination(run, temp) && Swept(run.target, temp)
    ensures Confined(run.target, run.before, Published(s0, temp, path))
  {
    hide Swept;
    hide IsOwnTemp;
  }

  lemma PublishedTracks(run: Run, s0: Listing, temp: string, path: string, other: string, e: Book)
    requires Tracks(run, s0, other, e) && temp in s0 && IsDestination(run, path) && IsDestination(run, other)
    requires temp != other && (e.backedUp ==> temp != e.backup)
    requires path == other ==> s0[temp] == Incoming(run, path) && e.backedUp == e.existed
    ensures Tracks(run, Published(s0, temp, path), other, e)
  {
    hide IsDestination;
    hide Incoming;
    assert e.backedUp ==> e.backup != path by {
      assert e.backedUp ==> !IsDestination(run, e.backup);
    }
  }

  lemma KeyPublished(run: Run, s0: Listing, c: Book, k: Book, keyTmp: string)
    requires InFlight(run, s0, CertFile(run.target), c, KeyFile(run.target), k) && Truthful(run, c, k)
    requires CertFile(run.target) in s0 && s0[CertFile(run.target)] == run.cert && KeyFile(run.target) !in s0
    requires IsTemp(run.target, KeySync, keyTmp) && keyTmp in s0 && s0[keyTmp] == run.key
    ensures BothNew(run, Published(s0, keyTmp, KeyFile(run.target)), c, k)
  {
    var pem, key := CertFile(run.target), KeyFile(run.target);
    DestinationsAreDistinct(run.target, run.target);
    StagedIsApart(run, s0, c, k, keyTmp, KeySync);
    assert IsDestination(run, pem) && IsDestination(run, key) && Incoming(run, key) == run.key && keyTmp != pem && keyTmp != key;
    PublishedConfined(run, s0, keyTmp, key);
    hide Confined;
    hide IsTemp;
    hide CertFile;
    hide KeyFile;
    PublishedTracks(run, s0, keyTmp, key, pem, c);
    PublishedTracks(run, s0, keyTmp, key, key, k);
    hide Tracks;
  }

  lemma BothNewUnmixed(run: Run, s: Listing, c: Book, k: Book)
    requires BothNew(run, s, c, k)
    ensures Unmixed(run, s, c.backup, k.backup, true)
  {
  }

  lemma BackupsInFootprint(run: Run, s: Listing, c: Book, k: Book)
    requires BothNew(run, s, c, k)
    ensures c.backedUp ==> InFootprint(run.target, c.backup)
    ensures k.backedUp ==> InFootprint(run.target, k.backup)
  {
    FlightReady(run, s, CertFile(run.target), c, KeyFile(run.target), k);
    FlightReady(run, s, KeyFile(run.target), k, CertFile(run.target), c);
  }

  lemma BothNewInFlight(run: Run, s: Listing, c: Book, k: Book)
    requires BothNew(run, s, c, k)
    ensures InFlight(run, s, CertFile(run.target), c, KeyFile(run.target), k)
  {
  }

  lemma PublishKeepsLean(run: Run, s0: Listing, temp: string, path: string, temps: set<string>)
    requires temp in s0 && IsDestination(run, path) && Lean(run, s0, temps)
    requires temp !in run.before || Swept(run.target, temp)
    ensures Lean(run, Published(s0, temp, path), temps - {temp})
  {
  }

  lemma PublishedIs(s: Listing, temp: string, path: string)
    requires temp in s
    ensures Published(s, temp, path) == (s - {temp})[path := s[temp]]
  {
  }

  lemma LeanMonotone(run: Run, s: Listing, temps: set<string>, more: set<string>)
    requires Lean(run, s, temps) && temps <= more
    ensures Lean(run, s, more)
  {
  }

  lemma BothAwayUnmixed(run: Run, s: Listing, c: Book, k: Book)
    requires BothAway(run, s, c, k)
    ensures Unmixed(run, s, c.backup, k.backup, true)
  {
  }

  /** The new pair is installed, and nothing of another target is touched. */
  ghost predicate NewPairIn(run: Run, s: Listing) {
    var pem, key := CertFile(run.target), KeyFile(run.target);
    && Confined(run.target, run.before, s)
    && pem in s && s[pem] == run.cert
    && key in s && s[key] == run.key
  }

  lemma BothNewIsNewPair(run: Run, s: Listing, c: Book, k: Book)
    requires BothNew(run, s, c, k)
    ensures NewPairIn(run, s)
    ensures c.backedUp ==> c.backup !in run.before && !IsDestination(run, c.backup)
    ensures k.backedUp ==> k.backup !in run.before && !IsDestination(run, k.backup)
  {
  }

  lemma DropKeepsPair(run: Run, s0: Listing, s: Listing, backup: string)
    requires NewPairIn(run, s0) && backup !in run.before && !IsDestination(run, backup)
    requires s == s0 || s == s0 - {backup}
    ensures NewPairIn(run, s)
  {
  }

  /** A directory without leftovers is the one a faultless run leaves. */
  lemma LeanIsReplaced(run: Run, s: Listing, cert: Bytes, key: Bytes)
    requires run.cert == NewCert(cert) && run.key == NewKey(key)
    requires NewPairIn(run, s) && Lean(run, s, {})
    ensures s == Replaced(run.before, run.target, cert, key)
  {
    DestinationIsNotTemp(run.target, CertFile(run.target));
    DestinationIsNotTemp(run.target, KeyFile(run.target));
  }

  /** An entry without a backup name has nothing to drop. */
  lemma NoEmptyName(run: Run, s: Listing, temps: set<string>)
    requires Confined(run.target, run.before, s) && "" !in run.before
    requires Lean(run, s, temps)
    ensures "" !in s && Lean(run, s, temps - {""})
  {
  }

  lemma DropFrom(run: Run, s0: Listing, s: Listing, backup: string)
    requires NewPairIn(run, s0)
    requires s == s0 || (backup != "" && s == s0 - {backup})
    requires backup != "" ==> backup !in run.before && !IsDestination(run, backup)
    ensures NewPairIn(run, s)
  {
    if s != s0 {
      DropKeepsPair(run, s0, s, backup);
    }
  }

  lemma DropBothLean(run: Run, s0: Listing, s1: Listing, s2: Listing, cb: string, kb: string)
    requires Lean(run, s0, {cb, kb}) && "" !in run.before
    requires NewPairIn(run, s0)
    requires s1 == if cb != "" then s0 - {cb} else s0
    requires s2 == if kb != "" then s1 - {kb} else s1
    ensures Lean(run, s2, {})
  {
    NoEmptyName(run, s0, {cb, kb});
  }

  /** The one way to lose a file: the key was there, its probe failed, and the rollback removed it. */
  ghost predicate KeyLost(run: Run, r: Outcome) {
    r.RolledBack? && r.stage == ProbeKey && KeyFile(run.target) in run.before && r.key == Absent
  }

  /** Every directory before the commit point. */
  ghost predicate BeforeCommit(run: Run, s: Listing, r: Outcome, certBackup: string, keyBackup: string) {
    && StepOk(run, s, certBackup, keyBackup, !KeyLost(run, r))
    && (NewCertOldKey(run, s) ==> r.RolledBack? && r.cert == Unknown)
    && (OldCertNewKey(run, s) ==> r.RolledBack? && (r.stage == CheckPair || r.stage == SyncPair))
  }

  /** The final directory, outcome by outcome. */
  ghost predicate Ends(run: Run, s: Listing, r: Outcome, certBackup: string, keyBackup: string) {
    var pem, key := CertFile(run.target), KeyFile(run.target);
    match r
    case Installed => NewPairIn(run, s) && Lean(run, s, {})
    case Refused(_) => Untouched(run.target, run.before, s)
    case CommittedUnclean => NewPairIn(run, s)
    case RolledBack(stage, cert, keyState, clean) =>
      && Confined(run.target, run.before, s)
      && (clean ==> cert != Unknown && keyState != Unknown)
      && (stage == ProbeKey ==> keyState == Absent || keyState == Unknown)
      && (cert != Unknown ==> SameAt(run.before, s, pem))
      && (cert == Unknown ==> Kept(run.before, s, pem, certBackup))
      && (KeyLost(run, r) ==> key !in s)
      && (!KeyLost(run, r) && keyState != Unknown ==> SameAt(run.before, s, key))
      && (!KeyLost(run, r) && keyState == Unknown ==> Kept(run.before, s, key, keyBackup))
  }

  lemma UnmixedIsBeforeCommit(run: Run, s: Listing, r: Outcome, certBackup: string, keyBackup: string)
    requires Unmixed(run, s, certBackup, keyBackup, true)
    ensures BeforeCommit(run, s, r, certBackup, keyBackup)
  {
  }

  lemma RollbackIsBeforeCommit(run: Run, s0: Listing, s: Listing, c0: Book, k0: Book, r: Outcome)
    requires r.RolledBack?
    requires RollbackStep(run, s0, s, c0, k0, r.cert == Unknown, KeySafe(run, k0, r.key))
    requires r.stage != ProbeKey ==> k0.existed || KeyFile(run.target) !in run.before
    requires r.stage == ProbeKey && KeyFile(run.target) in run.before ==> r.key == Absent || r.key == Unknown
    requires KeyFile(run.target) in s0 && s0[KeyFile(run.target)] == run.key
             && !(KeyFile(run.target) in run.before && run.before[KeyFile(run.target)] == run.key)
             ==> r.stage == CheckPair || r.stage == SyncPair
    ensures BeforeCommit(run, s, r, c0.backup, k0.backup)
  {
  }

  lemma RollbackEndsWell(run: Run, s: Listing, c0: Book, k0: Book, r: Outcome)
    requires r.RolledBack? && Confined(run.target, run.before, s)
    requires RollbackResult(run, s, c0, k0, r.cert, r.key)
    requires r.clean ==> r.cert != Unknown && r.key != Unknown
    requires r.stage == ProbeKey ==> !k0.existed
    requires r.stage != ProbeKey ==> k0.existed || KeyFile(run.target) !in run.before
    ensures Ends(run, s, r, c0.backup, k0.backup)
    ensures r.stage == ProbeKey && KeyFile(run.target) in run.before ==> r.key == Absent || r.key == Unknown
  {
  }

  lemma StepConfined(run: Run, s0: Listing, s: Listing, c0: Book, k0: Book, certUnknown: bool, keySafe: bool)
    requires RollbackStep(run, s0, s, c0, k0, certUnknown, keySafe)
    ensures Confined(run.target, run.before, s)
  {
  }

  lemma EarlyTrace(run: Run, trace: seq<Listing>, lo: nat, hi: nat, r: Outcome, certBackup: string, keyBackup: string)
    requires lo <= hi <= |trace|
    requires forall i | lo <= i < hi :: Unmixed(run, trace[i], certBackup, keyBackup, true)
    ensures forall i | lo <= i < hi :: BeforeCommit(run, trace[i], r, certBackup, keyBackup)
  {
    hide Unmixed;
    hide BeforeCommit;
    forall i | lo <= i < hi
      ensures BeforeCommit(run, trace[i], r, certBackup, keyBackup)
    {
      UnmixedIsBeforeCommit(run, trace[i], r, certBackup, keyBackup);
    }
  }

  lemma EndsUntouched(run: Run, s: Listing, r: Outcome, certBackup: string, keyBackup: string)
    requires r.Refused? && Untouched(run.target, run.before, s)
    ensures Ends(run, s, r, certBackup, keyBackup)
  {
  }

  lemma EndsInstalled(run: Run, s: Listing, r: Outcome, certBackup: string, keyBackup: string)
    requires r.Installed? || r.CommittedUnclean?
    requires NewPairIn(run, s) && (r.Installed? ==> Lean(run, s, {}))
    ensures Ends(run, s, r, certBackup, keyBackup)
  {
  }

  lemma UnmixedIsNotNewCertOldKey(run: Run, s: Listing, certBackup: string, keyBackup: string)
    requires Unmixed(run, s, certBackup, keyBackup, true)
    ensures !NewCertOldKey(run, s)
  {
  }

  lemma KeyNotYetNew(run: Run, s: Listing, c: Book, k: Book, stage: Stage)
    requires InFlight(run, s, CertFile(run.target), c, KeyFile(run.target), k)
    requires stage == ProbeKey || stage == BackupKey
    requires stage == ProbeKey ==> SameAt(run.before, s, KeyFile(run.target))
    requires stage == BackupKey ==> k.existed && !k.backedUp
    ensures k.existed ==> KeyFile(run.target) in run.before
    ensures !(KeyFile(run.target) in s && s[KeyFile(run.target)] == run.key
              && !(KeyFile(run.target) in run.before && run.before[KeyFile(run.target)] == run.key))
  {
  }

  lemma BothAwayFacts(run: Run, s: Listing, c: Book, k: Book)
    requires BothAway(run, s, c, k)
    ensures Truthful(run, c, k)
  {
  }

  lemma BothNewChecked(run: Run, s: Listing, c: Book, k: Book, check: Checker)
    requires BothNew(run, s, c, k)
    ensures CheckEntries(s, CertFile(run.target), KeyFile(run.target), check) != NoDigest ==>
              CheckEntries(s, CertFile(run.target), KeyFile(run.target), check) == check(run.cert.bytes, run.key.bytes)
  {
  }

  /** While no backup of the key was made, the key stands under its own name, so any name will do. */
  lemma AnyKeyBackup(run: Run, trace: seq<Listing>, lo: nat, last: Listing, r: Outcome, certBackup: string,
                     keyBackup: string)
    requires "" !in run.before && lo <= |trace|
    requires forall i | lo <= i < |trace| :: BeforeCommit(run, trace[i], r, certBackup, "")
    requires r.RolledBack? && Ends(run, last, r, certBackup, "") && BeforeCommit(run, last, r, certBackup, "")
    ensures forall i | lo <= i < |trace| :: BeforeCommit(run, trace[i], r, certBackup, keyBackup)
    ensures Ends(run, last, r, certBackup, keyBackup) && BeforeCommit(run, last, r, certBackup, keyBackup)
  {
    forall i | lo <= i < |trace|
      ensures BeforeCommit(run, trace[i], r, certBackup, keyBackup)
    {
      NoEmptyEntry(run, trace[i]);
    }
    NoEmptyEntry(run, last);
  }

  lemma NoEmptyEntry(run: Run, s: Listing)
    requires "" !in run.before
    ensures Confined(run.target, run.before, s) ==> "" !in s
  {
  }

  lemma UntouchedIsBeforeCommit(run: Run, s: Listing, r: Outcome, certBackup: string, keyBackup: string)
    requires Untouched(run.target, run.before, s)
    ensures BeforeCommit(run, s, r, certBackup, keyBackup)
  {
  }

  lemma StagingIsUntouched(run: Run, s0: Listing, s: Listing, kind: TempKind, name: string)
    requires Untouched(run.target, run.before, s0) && SameExcept(s0, s, {name})
    requires IsStaging(kind) && (name != "" ==> IsTemp(run.target, kind, name)) && (name == "" ==> s == s0)
    ensures Untouched(run.target, run.before, s)
  {
    if name != "" {
      StagedIsApart(run, s0, Book(false, false, ""), Book(false, false, ""), name, kind);
    }
  }

  /** Removing a staging file changes nothing that any contract speaks of. */
  lemma DropTempKeeps(run: Run, s0: Listing, s: Listing, kind: TempKind, name: string,
                      r: Outcome, certBackup: string, keyBackup: string)
    requires IsStaging(kind) && IsTemp(run.target, kind, name)
    requires s == s0 || s == s0 - {name}
    requires BackupNames(run.target, certBackup, keyBackup)
    ensures BeforeCommit(run, s0, r, certBackup, keyBackup) ==> BeforeCommit(run, s, r, certBackup, keyBackup)
    ensures NewPairIn(run, s0) ==> NewPairIn(run, s)
  {
    hide Lean;
    hide IsTemp;
    DropTempFrame(run, s0, s, kind, name, certBackup, keyBackup);
    hide Confined;
  }

  lemma DropTempEnds(run: Run, s0: Listing, s: Listing, kind: TempKind, name: string,
                     r: Outcome, certBackup: string, keyBackup: string)
    requires IsStaging(kind) && IsTemp(run.target, kind, name)
    requires s == s0 || s == s0 - {name}
    requires BackupNames(run.target, certBackup, keyBackup)
    requires Ends(run, s0, r, certBackup, keyBackup)
    ensures Ends(run, s, r, certBackup, keyBackup)
  {
    hide Lean;
    hide IsTemp;
    DropTempFrame(run, s0, s, kind, name, certBackup, keyBackup);
    hide Confined;
  }

  lemma DropTempFrame(run: Run, s0: Listing, s: Listing, kind: TempKind, name: string, certBackup: string,
                      keyBackup: string)
    requires IsStaging(kind) && IsTemp(run.target, kind, name)
    requires s == s0 || s == s0 - {name}
    requires BackupNames(run.target, certBackup, keyBackup)
    ensures SameAt(s0, s, CertFile(run.target)) && SameAt(s0, s, KeyFile(run.target))
    ensures SameAt(s0, s, certBackup) && SameAt(s0, s, keyBackup)
    ensures Confined(run.target, run.before, s0) ==> Confined(run.target, run.before, s)
    ensures forall temps :: Lean(run, s0, temps) ==> Lean(run, s, temps)
  {
    StagedIsApart(run, s0, Book(false, false, ""), Book(false, false, ""), name, kind);
    TempIsNotEmpty(run.target, kind, name);
    if certBackup != "" {
      TempNamesDiffer(run.target, kind, CertBackup, name, certBackup);
    }
    if keyBackup != "" {
      TempNamesDiffer(run.target, kind, KeyBackup, name, keyBackup);
    }
  }

  /** A temporary file of one kind takes no name that another kind draws. */
  lemma DrawsFreeAfter(d: Directory, target: string, kind: TempKind, other: TempKind, name: string, s0: Listing,
                       s: Listing)
    requires other != kind && d.DrawsFree(target, other, s0) && SameExcept(s0, s, {name})
    requires (name != "" && IsTemp(target, kind, name)) || s == s0
    ensures d.DrawsFree(target, other, s)
  {
    forall t | d.CalmAnswer(t, Op.CreateTemp(target, other))
      ensures TempName(target, other, d.answers(t, Op.CreateTemp(target, other)).random) !in s
    {
      var drawn := TempName(target, other, d.answers(t, Op.CreateTemp(target, other)).random);
      assert IsTemp(target, other, drawn);
      if s != s0 {
        TempNamesDiffer(target, kind, other, name, drawn);
      }
    }
  }

  lemma AwayDrawsFree(d: Directory, target: string, kind: TempKind, other: TempKind, s0: Listing, s: Listing,
                      path: string, mark: string)
    requires other != kind && d.DrawsFree(target, other, s0) && BackupStates(s0, s, path, mark)
    requires IsTemp(target, kind, mark) || s == s0
    ensures d.DrawsFree(target, other, s)
  {
    forall t | d.CalmAnswer(t, Op.CreateTemp(target, other))
      ensures TempName(target, other, d.answers(t, Op.CreateTemp(target, other)).random) !in s
    {
      var drawn := TempName(target, other, d.answers(t, Op.CreateTemp(target, other)).random);
      assert IsTemp(target, other, drawn);
      if s != s0 {
        TempNamesDiffer(target, kind, other, mark, drawn);
      }
      assert drawn in s ==> drawn in s0 || drawn == mark;
    }
  }

  /** Once the sweep is over, every name that a staging file draws is free. */
  lemma SweptDrawsFree(d: Directory, target: string, kind: TempKind, before: Listing)
    requires IsStaging(kind)
    ensures d.DrawsFree(target, kind, PartlySwept(before, target, {}))
  {
    forall t | d.CalmAnswer(t, Op.CreateTemp(target, kind))
      ensures TempName(target, kind, d.answers(t, Op.CreateTemp(target, kind)).random) !in PartlySwept(before, target, {})
    {
      SweepReach(target, target, kind, d.answers(t, Op.CreateTemp(target, kind)).random);
    }
  }

  /** The run brings a certificate and a key with the modes that are checked afterwards. */
  predicate Ordinary(run: Run) {
    run.cert == NewCert(run.cert.bytes) && run.key == NewKey(run.key.bytes)
  }

  lemma OrdinaryPasses(run: Run, s: Listing, c: Book, k: Book, check: Checker)
    requires BothNew(run, s, c, k) && Ordinary(run)
    ensures CheckEntries(s, CertFile(run.target), KeyFile(run.target), check) == check(run.cert.bytes, run.key.bytes)
  {
  }

  lemma StartIsUntouched(run: Run)
    ensures Untouched(run.target, run.before, run.before)
  {
  }

  lemma BothStaged(run: Run, s0: Listing, cert: Bytes, key: Bytes, certTmp: string, keyTmp: string)
    requires run.cert == NewCert(cert) && run.key == NewKey(key)
    requires s0 == PartlySwept(run.before, run.target, {})
    requires IsTemp(run.target, CertSync, certTmp) && IsTemp(run.target, KeySync, keyTmp)
    ensures var s := s0[certTmp := NewCert(cert)][keyTmp := NewKey(key)];
            Staged(run, s, certTmp, keyTmp) && Lean(run, s, {certTmp, keyTmp})
  {
    TempNamesDiffer(run.target, CertSync, KeySync, certTmp, keyTmp);
  }

  lemma QuietTrace(run: Run, trace: seq<Listing>, lo: nat, hi: nat, r: Outcome, certBackup: string, keyBackup: string)
    requires lo <= hi <= |trace|
    requires forall i | lo <= i < hi :: Untouched(run.target, run.before, trace[i])
    ensures forall i | lo <= i < hi :: BeforeCommit(run, trace[i], r, certBackup, keyBackup)
  {
    hide Untouched;
    hide BeforeCommit;
    forall i | lo <= i < hi
      ensures BeforeCommit(run, trace[i], r, certBackup, keyBackup)
    {
      UntouchedIsBeforeCommit(run, trace[i], r, certBackup, keyBackup);
    }
  }

  lemma StagedNames(run: Run, s: Listing, certTmp: string, keyTmp: string)
    requires Staged(run, s, certTmp, keyTmp)
    ensures IsTemp(run.target, CertSync, certTmp) && IsTemp(run.target, KeySync, keyTmp)
  {
  }

  lemma EndsReplaced(run: Run, s: Listing, r: Outcome, certBackup: string, keyBackup: string, cert: Bytes, key: Bytes)
    requires run.cert == NewCert(cert) && run.key == NewKey(key)
    requires r.Installed? && Ends(run, s, r, certBackup, keyBackup)
    ensures s == Replaced(run.before, run.target, cert, key)
  {
    LeanIsReplaced(run, s, cert, key);
  }

  lemma EndsNewPair(run: Run, s: Listing, r: Outcome, certBackup: string, keyBackup: string)
    requires Ends(run, s, r, certBackup, keyBackup)
    ensures r.Installed? || r.CommittedUnclean? ==> NewPairIn(run, s)
  {
  }

  ghost function RunOf(before: Listing, target: string, cert: Bytes, key: Bytes): Run {
    Run(before, target, NewCert(cert), NewKey(key))
  }
}
