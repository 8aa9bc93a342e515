/**
  The threads of the manager, one program counter value per lock operation of
  the code. A thread's locks follow from where it stands, and so does what it
  needs before it can go on.

  A section that takes one lock, reads or writes memory, and lets go without
  taking another is one step; a writer of a read-write lock takes two, because
  it shuts out new readers from the moment it starts to wait.
 */
module ManagerThreads {
  import opened Options
  import opened ConfigRules
  import opened Secrets
  import opened ManagerState

  // ---------------------------------------------------------------- locks

  datatype Lock =
    | ApplyMu
    | FbApply                                   // fallbackApplyMu
    | Target(dir: string, name: string)         // destinationLock
    | Mu
    | FbMu                                      // fallbackMu
    | PairFile(dir: string, name: string)       // replacement lock of a pair
    | FbFile(dir: string)                       // replacement lock of a fallback.json

  datatype Grip = No | Shares | Owns

  datatype Need = Nothing | Read(lock: Lock) | Announce(lock: Lock) | Write(lock: Lock) | Join(watch: Watch)

  // ---------------------------------------------------------------- threads

  datatype Origin = ByHand | ByApply | ByWatcher(watch: Watch)

  datatype SyncPc =
    | AtGen | AtLook | AtGuard | AtResolve | AtTarget
    | AtFetchAnnounce | AtFetchEnter | AtFetch | AtQueryAnnounce | AtQueryEnter
    | AtPublish | Publishing | FallbackFile | MarkPending | AtLeave
    | AtRecordAnnounce | AtRecordEnter | RecordPending
    | Ended

  /** One run of syncGenerationContext; `guarded` and `locked` are its deferred unlocks. */
  datatype SyncRun = SyncRun(
    name: string,
    gen: nat,
    origin: Origin,
    at: SyncPc,
    entry: Entry,
    dir: string,
    key: Option<Credentials>,
    fetched: bool,
    guarded: bool,
    locked: bool)

  const ZeroEntry := Entry("", false, Source("", "", "", None), Destination("", ""), SyncConfig(false, false, 0), false)

  function StartSync(name: string, gen: nat, origin: Origin): SyncRun {
    SyncRun(name, gen, origin, if origin.ByHand? then AtGen else AtLook, ZeroEntry, "", None, false, false, false)
  }

  datatype ApplyPc =
    | AtApply | AtSnapshot | AtLoadRuntime | AtReadOld | AtReadGen
    | Starting | AtReconcileAnnounce | AtReconcileEnter | Reconciling
    | SavingConfig | MarkingPending | Resaving | ReadingPending
    | AtActivateAnnounce | AtActivateEnter | AtRelease | StoppingOld | InlineSyncs
    | RollingBack | AtReleaseFailed | StoppingNew
    | AtEnd | Over

  /** One apply: its candidate, what it read of the old configuration, and the loops it is in. */
  datatype ApplyRun = ApplyRun(
    candidate: seq<Entry>,
    secrets: Data,
    at: ApplyPc,
    before: seq<Entry>,
    oldWatches: set<Watch>,
    gen: nat,
    watches: set<Watch>,
    todo: set<Watch>,            // watchers still to start, or still to stop
    joining: Option<Watch>,
    was: map<string, string>,    // the fallback files when it took their lock; an account only
    dirs: set<string>,
    left: set<string>,           // directories still to reconcile
    names: set<string>,          // entries still to sync inline
    sync: Option<SyncRun>)

  function StartApply(candidate: seq<Entry>, secrets: Data): ApplyRun {
    ApplyRun(candidate, secrets, AtApply, [], {}, 0, {}, {}, None, map[], {}, {}, {}, None)
  }

  /** One critical section of a status query or a validation. */
  datatype Errand = ReadState | WriteState | UsePending

  /** An acknowledgement empties the record, and then clears the flags under another lock. */
  datatype AckPc = AtEmpty | AtClearAnnounce | AtClearEnter | Acked

  datatype Thread =
    | Syncing(y: SyncRun)
    | Applying(a: ApplyRun)
    | Visiting(errands: seq<Errand>, announced: bool)
    | Acknowledging(k: AckPc)

  /** What the environment decides: outcomes, and the order of the loops over maps. */
  datatype Choice = Choice(ok: bool, written: bool, dir: string, watch: Watch, name: string)

  // ---------------------------------------------------------------- a sync

  function End(y: SyncRun): SyncRun {
    y.(at := Ended, guarded := false, locked := false)
  }

  predicate Stale(sh: Shared, y: SyncRun) {
    Find(sh.active.cfg, y.name).None? || sh.active.gen != y.gen
  }

  function SyncNext(sh: Shared, y: SyncRun, c: Choice): SyncRun {
    match y.at
    case AtGen => y.(gen := sh.active.gen, at := AtLook)
    case AtLook =>
      if Stale(sh, y) then End(y)
      else
        var entry := Find(sh.active.cfg, y.name).value;
        y.(entry := entry, at := if entry.fallback then AtGuard else AtResolve)
    case AtGuard => y.(guarded := true, at := AtResolve)
    case AtResolve =>
      if c.ok then y.(dir := Dir(sh.policy, y.entry), at := AtTarget) else y.(at := AtRecordAnnounce)
    case AtTarget => y.(locked := true, at := if Remote(y.entry) then AtFetchAnnounce else AtPublish)
    case AtFetchAnnounce => y.(at := AtFetchEnter)
    case AtFetchEnter => if Stale(sh, y) then End(y) else y.(key := Key(sh.active.secrets, y.name), at := AtFetch)
    case AtFetch => y.(fetched := c.ok && Fits(y.key, y.entry), at := AtQueryAnnounce)
    case AtQueryAnnounce => y.(at := AtQueryEnter)
    case AtQueryEnter => if y.fetched then y.(at := AtPublish) else End(y)
    case AtPublish => if Stale(sh, y) then End(y) else y.(at := Publishing)
    case Publishing => y.(at := if c.ok && y.entry.fallback then FallbackFile else AtLeave)
    case FallbackFile => y.(at := if c.written then MarkPending else AtLeave)
    case MarkPending => y.(at := AtLeave)
    case AtLeave => y.(at := AtRecordAnnounce)
    case AtRecordAnnounce => y.(at := AtRecordEnter)
    case AtRecordEnter =>
      if !Stale(sh, y) && y.locked && Find(sh.active.cfg, y.name).value.fallback then y.(at := RecordPending)
      else End(y)
    case RecordPending => End(y)
    case Ended => y
  }

  /** The two steps of a sync that change what is shared: the pair, and the fallback file. */
  function SyncEffect(sh: Shared, y: SyncRun, c: Choice): Shared {
    if y.at == Publishing && c.written then
      sh.(history := sh.history + [Published(y.name, y.gen, y.entry, y.key)])
    else if y.at == FallbackFile && c.written then
      sh.(fallback := SetFallback(sh.fallback, y.dir, Some(y.entry.destination.targetName)),
          spoiled := sh.spoiled || !y.entry.enabled)
    else sh
  }

  function SyncGrip(y: SyncRun, lock: Lock): Grip {
    match lock
    case FbApply => if y.guarded then Shares else No
    case Target(dir, name) => if y.locked && dir == y.dir && name == y.entry.destination.targetName then Owns else No
    case Mu =>
      if y.at == Publishing || y.at == FallbackFile || y.at == MarkPending || y.at == AtLeave then Shares
      else if y.at == RecordPending then Owns else No
    case _ => No
  }

  predicate SyncAnnounced(y: SyncRun, lock: Lock) {
    lock == Mu && (y.at == AtFetchEnter || y.at == AtQueryEnter || y.at == AtRecordEnter)
  }

  function SyncNeed(y: SyncRun): Need {
    match y.at
    case AtGen => Read(Mu)
    case AtLook => Read(Mu)
    case AtGuard => Read(FbApply)
    case AtResolve => Nothing
    case AtTarget => Write(Target(y.dir, y.entry.destination.targetName))
    case AtFetchAnnounce => Announce(Mu)
    case AtFetchEnter => Write(Mu)
    case AtFetch => Nothing
    case AtQueryAnnounce => Announce(Mu)
    case AtQueryEnter => Write(Mu)
    case AtPublish => Read(Mu)
    case Publishing => Write(PairFile(y.dir, y.entry.destination.targetName))
    case FallbackFile => Write(FbFile(y.dir))
    case MarkPending => Write(FbMu)
    case AtLeave => Nothing
    case AtRecordAnnounce => Announce(Mu)
    case AtRecordEnter => Write(Mu)
    case RecordPending => Write(FbMu)
    case Ended => Nothing
  }

  // ---------------------------------------------------------------- an apply

  /** The next stop of a loop over watchers: a Stop that begins, or a join that ends. */
  function StopNext(a: ApplyRun, c: Choice, after: ApplyPc): ApplyRun {
    if a.joining.Some? then a.(todo := a.todo - {a.joining.value}, joining := None)
    else if a.todo != {} then a.(joining := Some(c.watch))
    else a.(at := after)
  }

  ghost function ApplyNext(sh: Shared, a: ApplyRun, c: Choice): ApplyRun {
    match a.at
    case AtApply => a.(at := AtSnapshot)
    case AtSnapshot => a.(at := if c.ok && Admissible(sh.policy, a.candidate, a.secrets) then AtLoadRuntime else AtEnd)
    case AtLoadRuntime => a.(at := if c.ok then AtReadOld else AtEnd)
    case AtReadOld => a.(before := sh.active.cfg, at := AtReadGen)
    case AtReadGen =>
      if !c.ok then a.(at := AtEnd)
      else
        var watches := WatchesFor(sh.groups, sh.active.gen + 1, a.candidate);
        a.(gen := sh.active.gen + 1, watches := watches, todo := watches, at := Starting)
    case Starting =>
      if !c.ok then a.(todo := a.watches, at := StoppingNew)
      else if a.todo == {} then a.(at := AtReconcileAnnounce)
      else a.(todo := a.todo - {c.watch})
    case AtReconcileAnnounce => a.(at := AtReconcileEnter)
    case AtReconcileEnter =>
      var dirs := DirsOfBoth(sh.policy, a.before, a.candidate);
      a.(was := sh.fallback, dirs := dirs, left := dirs, at := Reconciling)
    case Reconciling =>
      if !c.ok then a.(left := a.dirs, at := RollingBack)
      else if a.left == {} then a.(at := SavingConfig)
      else a.(left := a.left - {c.dir})
    case SavingConfig => if c.ok then a.(at := MarkingPending) else a.(left := a.dirs, at := RollingBack)
    case MarkingPending => if c.ok then a.(left := a.dirs, at := ReadingPending) else a.(at := Resaving)
    case Resaving => a.(left := a.dirs, at := RollingBack)
    case ReadingPending => if a.left == {} then a.(at := AtActivateAnnounce) else a.(left := a.left - {c.dir})
    case AtActivateAnnounce => a.(at := AtActivateEnter)
    case AtActivateEnter => a.(oldWatches := sh.active.watches, at := AtRelease)
    case AtRelease => a.(todo := a.oldWatches, at := StoppingOld)
    case StoppingOld =>
      var names := if a.joining.None? && a.todo == {} then EnabledNames(a.candidate) else a.names;
      StopNext(a.(names := names), c, InlineSyncs)
    case InlineSyncs =>
      if a.sync.Some? then
        var y := SyncNext(sh, a.sync.value, c);
        a.(sync := if y.at == Ended then None else Some(y))
      else if a.names != {} then
        a.(names := a.names - {c.name}, sync := Some(StartSync(c.name, a.gen, ByApply)))
      else a.(at := AtEnd)
    case RollingBack =>
      if !c.ok || a.left == {} then a.(at := AtReleaseFailed) else a.(left := a.left - {c.dir})
    case AtReleaseFailed => a.(todo := a.watches, at := StoppingNew)
    case StoppingNew => StopNext(a, c, AtEnd)
    case AtEnd => a.(at := Over)
    case Over => a
  }

  function EnabledNames(entries: seq<Entry>): set<string> {
    set e | e in entries && e.enabled :: e.name
  }

  /** A reconciliation writes the wanted name, or removes the file, in one directory. */
  function Reconcile(sh: Shared, entries: seq<Entry>, c: Choice): Shared {
    sh.(fallback := SetFallback(sh.fallback, c.dir, Wanted(sh.policy, entries, c.dir)))
  }

  ghost function ApplyEffect(sh: Shared, a: ApplyRun, c: Choice): Shared {
    match a.at
    case AtReadGen =>
      if c.ok then sh.(trial := WatchesFor(sh.groups, sh.active.gen + 1, a.candidate), groups := sh.groups + 1) else sh
    case Starting => if c.ok && a.todo != {} then sh.(live := sh.live + {c.watch}) else sh
    case Reconciling =>
      if a.left != {} && (c.ok || c.written) then Reconcile(sh, a.candidate, c) else sh
    case RollingBack =>
      if a.left == {} then sh.(spoiled := false, uncompensated := false)
      else
        var sh1 := if c.ok || c.written then Reconcile(sh, a.before, c) else sh;
        if c.ok then sh1 else sh1.(uncompensated := true)
    case AtActivateEnter =>
      var now := Active(a.gen, a.candidate, a.secrets, a.watches);
      sh.(active := now, trial := {}, retired := sh.active.watches, spoiled := false, uncompensated := false,
          history := sh.history + [Activated(now)])
    case StoppingOld =>
      if a.joining.None? then sh
      else sh.(live := sh.live - {a.joining.value}, retired := sh.retired - {a.joining.value})
    case StoppingNew =>
      if a.joining.None? then sh
      else sh.(live := sh.live - {a.joining.value}, trial := sh.trial - {a.joining.value})
    case InlineSyncs => if a.sync.Some? then SyncEffect(sh, a.sync.value, c) else sh
    case _ => sh
  }

  /** Choices that pick from what a loop has left. */
  predicate Sensible(a: ApplyRun, c: Choice) {
    match a.at
    case Starting => a.todo != {} ==> c.watch in a.todo
    case StoppingOld => a.todo != {} ==> c.watch in a.todo
    case StoppingNew => a.todo != {} ==> c.watch in a.todo
    case Reconciling => a.left != {} ==> c.dir in a.left
    case ReadingPending => a.left != {} ==> c.dir in a.left
    case RollingBack => a.left != {} ==> c.dir in a.left
    case InlineSyncs => a.names != {} ==> c.name in a.names
    case _ => true
  }

  predicate HoldsFbApply(at: ApplyPc) {
    || at == Reconciling || at == SavingConfig || at == MarkingPending || at == Resaving || at == ReadingPending
    || at == AtActivateAnnounce || at == AtActivateEnter || at == AtRelease
    || at == RollingBack || at == AtReleaseFailed
  }

  function ApplyGrip(a: ApplyRun, lock: Lock): Grip {
    match lock
    case ApplyMu => if a.at == AtApply || a.at == Over then No else Owns
    case FbApply => if HoldsFbApply(a.at) then Owns else if a.sync.Some? then SyncGrip(a.sync.value, lock) else No
    case _ => if a.sync.Some? then SyncGrip(a.sync.value, lock) else No
  }

  predicate ApplyAnnounced(a: ApplyRun, lock: Lock) {
    || (lock == FbApply && a.at == AtReconcileEnter)
    || (lock == Mu && a.at == AtActivateEnter)
    || (a.sync.Some? && SyncAnnounced(a.sync.value, lock))
  }

  function ApplyNeed(a: ApplyRun, c: Choice): Need {
    match a.at
    case AtApply => Write(ApplyMu)
    case AtSnapshot => Read(Mu)
    case AtLoadRuntime => Write(FbMu)
    case AtReadOld => Read(Mu)
    case AtReadGen => Read(Mu)
    case AtReconcileAnnounce => Announce(FbApply)
    case AtReconcileEnter => Write(FbApply)
    case Reconciling => if a.left == {} then Nothing else Write(FbFile(c.dir))
    case MarkingPending => Write(FbMu)
    case ReadingPending => if a.left == {} || !c.ok then Nothing else Write(FbMu)
    case AtActivateAnnounce => Announce(Mu)
    case AtActivateEnter => Write(Mu)
    case StoppingOld => if a.joining.Some? then Join(a.joining.value) else Nothing
    case StoppingNew => if a.joining.Some? then Join(a.joining.value) else Nothing
    case InlineSyncs => if a.sync.Some? then SyncNeed(a.sync.value) else Nothing
    case RollingBack => if a.left == {} then Nothing else Write(FbFile(c.dir))
    case _ => Nothing
  }

  // ---------------------------------------------------------------- an acknowledgement

  function AckNext(sh: Shared, k: AckPc, c: Choice): AckPc {
    match k
    case AtEmpty => if sh.notice.pending != {} && c.ok then AtClearAnnounce else Acked
    case AtClearAnnounce => AtClearEnter
    case _ => Acked
  }

  function AckNeed(k: AckPc): Need {
    match k
    case AtEmpty => Write(FbMu)
    case AtClearAnnounce => Announce(Mu)
    case AtClearEnter => Write(Mu)
    case Acked => Nothing
  }

  // ---------------------------------------------------------------- the record and the flags

  /** recordSync: the entry's flag becomes what the record says. */
  function Reflag(n: Notice, dir: string): Notice {
    n.(flagged := if dir in n.pending then n.flagged + {dir} else n.flagged - {dir}, crossed := n.crossed - {dir})
  }

  /** recordSync for a destination that did not resolve: the flag goes, whatever the record says. */
  function Unflag(n: Notice, dir: string): Notice {
    n.(flagged := n.flagged - {dir}, crossed := if dir in n.pending then n.crossed + {dir} else n.crossed - {dir})
  }

  function SyncNotice(sh: Shared, y: SyncRun, c: Choice): Notice {
    var n := sh.notice;
    match y.at
    case MarkPending => if c.ok then n.(pending := n.pending + {y.dir}) else n
    case AtRecordEnter =>
      if Stale(sh, y) || y.locked || !Find(sh.active.cfg, y.name).value.fallback then n
      else Unflag(n, Dir(sh.policy, Find(sh.active.cfg, y.name).value))
    case RecordPending => Reflag(n, y.dir)
    case _ => n
  }

  /** An apply marks what its reconciliation changed, then flags its candidate, then activates both. */
  ghost function ApplyNotice(sh: Shared, a: ApplyRun, c: Choice): Notice {
    var n := sh.notice;
    match a.at
    case AtReconcileEnter => n.(touched := {})
    case Reconciling =>
      if a.left != {} && c.ok && (c.written || FallbackAt(sh.fallback, c.dir) != Wanted(sh.policy, a.candidate, c.dir))
      then n.(touched := n.touched + {c.dir}) else n
    case MarkingPending =>
      if c.ok then n.(pending := n.pending + n.touched, ahead := {}, missed := {}, acked := false) else n
    case ReadingPending =>
      if a.left == {} || c.dir !in FallbackDirs(sh.policy, a.candidate) || c.dir !in n.pending then n
      else if c.ok then n.(ahead := n.ahead + {c.dir})
      else n.(missed := n.missed + {c.dir})
    case AtActivateEnter => n.(flagged := n.ahead, crossed := if n.acked then n.ahead else n.missed)
    case InlineSyncs => if a.sync.Some? then SyncNotice(sh, a.sync.value, c) else n
    case _ => n
  }

  ghost function AckNotice(sh: Shared, k: AckPc, c: Choice): Notice {
    var n := sh.notice;
    match k
    case AtEmpty => if n.pending != {} && c.ok then n.(pending := {}, acked := true) else n
    case AtClearEnter => n.(flagged := {}, crossed := FallbackDirs(sh.policy, sh.active.cfg) * n.pending)
    case _ => n
  }

  // ---------------------------------------------------------------- all threads

  predicate Finished(th: Thread) {
    match th
    case Syncing(y) => y.at == Ended
    case Applying(a) => a.at == Over
    case Visiting(errands, _) => errands == []
    case Acknowledging(k) => k == Acked
  }

  ghost function Next(sh: Shared, th: Thread, c: Choice): Thread {
    match th
    case Syncing(y) => Syncing(SyncNext(sh, y, c))
    case Applying(a) => Applying(ApplyNext(sh, a, c))
    case Visiting(errands, announced) =>
      if errands == [] then th
      else if errands[0] == WriteState && !announced then Visiting(errands, true)
      else Visiting(errands[1..], false)
    case Acknowledging(k) => Acknowledging(AckNext(sh, k, c))
  }

  /** What a step does to all that is shared except the record and the flags, ... */
  ghost function Effect(sh: Shared, th: Thread, c: Choice): Shared {
    match th
    case Syncing(y) => SyncEffect(sh, y, c)
    case Applying(a) => ApplyEffect(sh, a, c)
    case Visiting(_, _) => sh
    case Acknowledging(_) => sh
  }

  /** ... and what it does to those. */
  ghost function NoticeAfter(sh: Shared, th: Thread, c: Choice): Notice {
    match th
    case Syncing(y) => SyncNotice(sh, y, c)
    case Applying(a) => ApplyNotice(sh, a, c)
    case Visiting(_, _) => sh.notice
    case Acknowledging(k) => AckNotice(sh, k, c)
  }

  function GripOf(th: Thread, lock: Lock): Grip {
    match th
    case Syncing(y) => SyncGrip(y, lock)
    case Applying(a) => ApplyGrip(a, lock)
    case Visiting(_, _) => No
    case Acknowledging(_) => No
  }

  predicate Announced(th: Thread, lock: Lock) {
    match th
    case Syncing(y) => SyncAnnounced(y, lock)
    case Applying(a) => ApplyAnnounced(a, lock)
    case Visiting(errands, announced) => lock == Mu && announced
    case Acknowledging(k) => lock == Mu && k == AtClearEnter
  }

  function NeedOf(th: Thread, c: Choice): Need {
    match th
    case Syncing(y) => SyncNeed(y)
    case Applying(a) => ApplyNeed(a, c)
    case Acknowledging(k) => AckNeed(k)
    case Visiting(errands, announced) =>
      if errands == [] then Nothing
      else
        match errands[0]
        case ReadState => Read(Mu)
        case WriteState => if announced then Write(Mu) else Announce(Mu)
        case UsePending => Write(FbMu)
  }

  predicate SensibleChoice(th: Thread, c: Choice) {
    th.Applying? ==> Sensible(th.a, c)
  }

  /** A callback of that watcher that has not returned. */
  predicate CallbackOf(th: Thread, w: Watch) {
    th.Syncing? && th.y.origin == ByWatcher(w)
  }

  /** Another thread stands in the way of that need. */
  predicate Blocks(other: Thread, need: Need) {
    match need
    case Nothing => false
    case Read(lock) => GripOf(other, lock) == Owns || Announced(other, lock)
    case Announce(lock) => GripOf(other, lock) == Owns || Announced(other, lock)
    case Write(lock) => GripOf(other, lock) != No
    case Join(w) => CallbackOf(other, w)
  }

  /** Two threads that can hold what they hold at the same time. */
  predicate Compatible(a: Thread, b: Thread, lock: Lock) {
    !(GripOf(a, lock) == Owns && GripOf(b, lock) != No) && !(GripOf(b, lock) == Owns && GripOf(a, lock) != No)
  }
}
