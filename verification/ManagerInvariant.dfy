/**
  What holds of the shared state and of each thread, and why a step of one
  thread does not spoil it: for the state, for the thread itself, and for any
  other thread whose locks are compatible.
 */
module ManagerInvariant {
  import opened Options
  import opened ConfigRules
  import opened Secrets
  import opened ManagerState
  import opened ManagerThreads

  // ---------------------------------------------------------------- what holds

  ghost predicate WatchesOk(sh: Shared) {
    && (forall w | w in sh.active.watches :: w.gen == sh.active.gen && Watched(sh.active.cfg, w.name))
    && (forall w | w in sh.trial :: w.gen == sh.active.gen + 1)
    && (forall w | w in sh.retired :: w.gen < sh.active.gen)
    && sh.active.watches <= sh.live <= sh.active.watches + sh.trial + sh.retired
    && Serves(sh.active.watches, sh.active.cfg)
  }

  ghost predicate HistoryOk(sh: Shared) {
    sh.history != [] && Sound(sh.history) && LastActive(sh.history) == Some(sh.active)
  }

  ghost predicate SharedOk(sh: Shared) {
    Admissible(sh.policy, sh.active.cfg, sh.active.secrets) && WatchesOk(sh) && HistoryOk(sh)
  }

  /** No apply is under way. */
  ghost predicate IdleOk(sh: Shared) {
    sh.trial == {} && sh.retired == {}
  }

  /** The sync has read its entry. */
  predicate Captured(y: SyncRun) {
    !(y.at == AtGen || y.at == AtLook || y.at == Ended)
  }

  predicate PastFetchEnter(at: SyncPc) {
    || at == AtFetch || at == AtQueryAnnounce || at == AtQueryEnter || at == AtPublish || at == Publishing
  }

  predicate InPublication(at: SyncPc) {
    at == Publishing || at == FallbackFile || at == MarkPending || at == AtLeave
  }

  predicate OriginOk(sh: Shared, y: SyncRun) {
    match y.origin
    case ByHand => y.at != AtGen ==> y.gen <= sh.active.gen
    case ByApply =>
      y.at != AtGen && y.gen <= sh.active.gen
      && (y.gen == sh.active.gen ==> Find(sh.active.cfg, y.name).Some? && Find(sh.active.cfg, y.name).value.enabled)
    case ByWatcher(w) => y.at != AtGen && y.name == w.name && y.gen == w.gen && w in sh.live
  }

  predicate EntryOk(sh: Shared, y: SyncRun) {
    Captured(y) ==>
      && y.gen <= sh.active.gen
      && (y.gen == sh.active.gen ==> Find(sh.active.cfg, y.name) == Some(y.entry))
      && (!y.origin.ByHand? ==> y.entry.enabled)
      && (if y.at == AtGuard then y.entry.fallback else y.guarded == y.entry.fallback)
      && (y.locked ==> y.dir == Dir(sh.policy, y.entry))
      && (y.at == RecordPending ==> y.locked && y.entry.fallback)
      && (y.at != AtGuard && y.at != AtResolve && y.at != AtRecordAnnounce && y.at != AtRecordEnter ==>
            y.dir == Dir(sh.policy, y.entry))
  }

  predicate KeyOk(sh: Shared, y: SyncRun) {
    && (PastFetchEnter(y.at) && Remote(y.entry) && y.gen == sh.active.gen ==> y.key == Key(sh.active.secrets, y.name))
    && (y.at == AtPublish || y.at == Publishing ==> Remote(y.entry) ==> Fits(y.key, y.entry))
    && (y.fetched ==> Fits(y.key, y.entry))
  }

  /** From the fetch to the end of the publication a sync holds the lock of its destination. */
  predicate BehindTarget(at: SyncPc) {
    || at == AtFetchAnnounce || at == AtFetchEnter || at == AtFetch || at == AtQueryAnnounce || at == AtQueryEnter
    || at == AtPublish || InPublication(at)
  }

  predicate LocksOk(y: SyncRun) {
    HoldsWhatItNeeds(y) && HoldsNothingYet(y)
  }

  predicate HoldsWhatItNeeds(y: SyncRun) {
    && (BehindTarget(y.at) ==> y.locked)
    && (y.at == FallbackFile || y.at == MarkPending ==> y.entry.fallback)
  }

  /** The points before the fetch has an answer. */
  predicate Unfetched(at: SyncPc) {
    || at == AtGen || at == AtLook || at == AtGuard || at == AtResolve || at == AtTarget
    || at == AtFetchAnnounce || at == AtFetchEnter || at == AtFetch
  }

  predicate HoldsNothingYet(y: SyncRun) {
    && (y.at == AtGen || y.at == AtLook || y.at == AtGuard || y.at == Ended ==> !y.guarded && !y.locked)
    && (y.at == AtResolve || y.at == AtTarget ==> !y.locked)
    && (Unfetched(y.at) ==> !y.fetched)
  }

  predicate SyncOk(sh: Shared, y: SyncRun) {
    && OriginOk(sh, y) && EntryOk(sh, y) && KeyOk(sh, y) && LocksOk(y)
    && (InPublication(y.at) ==> y.gen == sh.active.gen)
  }

  // -------- an apply, phase by phase

  predicate Early(at: ApplyPc) {
    at == AtSnapshot || at == AtLoadRuntime || at == AtReadOld || at == AtReadGen || at == AtEnd
  }

  /** From the first watcher that is started until the activation, or until the watchers are stopped again. */
  predicate Trying(at: ApplyPc) {
    || at == Starting || at == AtReconcileAnnounce || at == AtReconcileEnter || at == Reconciling || at == SavingConfig
    || at == MarkingPending || at == Resaving || at == ReadingPending
    || at == AtActivateAnnounce || at == AtActivateEnter || at == RollingBack || at == AtReleaseFailed
  }

  predicate Reconciled(at: ApplyPc) {
    || at == SavingConfig || at == MarkingPending || at == ReadingPending
    || at == AtActivateAnnounce || at == AtActivateEnter
  }

  predicate BeforeActivation(at: ApplyPc) {
    at == AtReadGen || Trying(at) || at == StoppingNew
  }

  ghost predicate TrialOk(sh: Shared, a: ApplyRun) {
    && sh.trial == a.watches && sh.retired == {}
    && a.gen == sh.active.gen + 1
    && (forall w | w in a.watches :: w.gen == a.gen && Watched(a.candidate, w.name))
    && Serves(a.watches, a.candidate)
    && Admissible(sh.policy, a.candidate, a.secrets)
    && a.todo <= a.watches
    && (a.at == Starting ==> a.watches - a.todo <= sh.live)
    && (a.at != Starting && a.at != RollingBack && a.at != AtReleaseFailed ==> a.watches <= sh.live)
  }

  ghost predicate ReconcileOk(sh: Shared, a: ApplyRun) {
    && (a.at == Reconciling || a.at == RollingBack ==> a.left <= a.dirs)
    && (HoldsFbApply(a.at) && Trying(a.at) ==> a.dirs == DirsOfBoth(sh.policy, a.before, a.candidate))
    && (a.at == Reconciling ==> Matches(sh.policy, sh.fallback, a.candidate, a.dirs - a.left))
    && (Reconciled(a.at) ==> Matches(sh.policy, sh.fallback, a.candidate, a.dirs))
    && (a.at == RollingBack ==> Matches(sh.policy, sh.fallback, a.before, a.dirs - a.left))
    && (a.at == AtRelease || a.at == AtReleaseFailed ==> sh.uncompensated || (!sh.spoiled && FallbacksMatch(sh)))
  }

  ghost predicate StopOk(sh: Shared, a: ApplyRun) {
    a.joining.Some? ==> a.joining.value in a.todo
  }

  ghost predicate ActivatedOk(sh: Shared, a: ApplyRun) {
    a.gen == sh.active.gen && a.candidate == sh.active.cfg && sh.trial == {}
  }

  ghost predicate ApplyOk(sh: Shared, a: ApplyRun) {
    && (a.at != InlineSyncs ==> a.sync == None)
    && (a.at != StoppingOld && a.at != StoppingNew ==> a.joining == None)
    && (Early(a.at) ==> IdleOk(sh))
    && (a.at == AtLoadRuntime || a.at == AtReadOld || a.at == AtReadGen ==>
          Admissible(sh.policy, a.candidate, a.secrets))
    && (BeforeActivation(a.at) ==> a.before == sh.active.cfg)
    && (Trying(a.at) ==> TrialOk(sh, a))
    && ReconcileOk(sh, a)
    && (a.at == StoppingNew ==> sh.trial == a.todo && sh.retired == {} && StopOk(sh, a))
    && (a.at == AtRelease ==> ActivatedOk(sh, a) && sh.retired == a.oldWatches)
    && (a.at == StoppingOld ==> ActivatedOk(sh, a) && sh.retired == a.todo && StopOk(sh, a))
    && (a.at == InlineSyncs ==> ActivatedOk(sh, a) && InlineOk(sh, a))
  }

  ghost predicate InlineOk(sh: Shared, a: ApplyRun) {
    && sh.retired == {}
    && (forall n | n in a.names :: Find(a.candidate, n).Some? && Find(a.candidate, n).value.enabled)
    && (a.sync.Some? ==> SyncOk(sh, a.sync.value) && a.sync.value.origin == ByApply && a.sync.value.at != Ended)
  }

  ghost predicate ThreadOk(sh: Shared, th: Thread) {
    match th
    case Syncing(y) => SyncOk(sh, y)
    case Applying(a) => ApplyOk(sh, a)
    case Visiting(_, announced) => announced ==> th.errands != [] && th.errands[0] == WriteState
    case Acknowledging(_) => true
  }

  // ---------------------------------------------------------------- the record and the flags are apart

  lemma NoticeIsApart(sh: Shared, n: Notice)
    ensures SharedOk(sh) ==> SharedOk(sh.(notice := n))
    ensures IdleOk(sh) ==> IdleOk(sh.(notice := n))
    ensures FilesAsSynced(sh) ==> FilesAsSynced(sh.(notice := n))
  {
    hide Admissible;
    hide Watched;
    hide Serves;
    if sh.spoiled && FilesAsSynced(sh) {
      var e :| SpoiledBy(sh, e);
      assert SpoiledBy(sh.(notice := n), e);
    }
  }

  lemma NoticeOfApply(sh: Shared, n: Notice, a: ApplyRun)
    requires ApplyOk(sh, a)
    ensures ApplyOk(sh.(notice := n), a)
  {
    var sh1 := sh.(notice := n);
    assert TrialOk(sh, a) ==> TrialOk(sh1, a);
    assert ReconcileOk(sh, a) ==> ReconcileOk(sh1, a);
    assert ActivatedOk(sh, a) ==> ActivatedOk(sh1, a);
    assert StopOk(sh, a) ==> StopOk(sh1, a);
    if a.at == InlineSyncs && a.sync.Some? {
      hide SyncOk;
      SyncOkFrame(sh, sh1, a.sync.value);
    }
    hide SyncOk;
    hide TrialOk;
    hide ReconcileOk;
    hide ActivatedOk;
    hide StopOk;
    hide Admissible;
  }

  /** Nothing a thread claims depends on the record or the flags. */
  lemma NoticeOfThread(sh: Shared, n: Notice, th: Thread)
    requires ThreadOk(sh, th)
    ensures ThreadOk(sh.(notice := n), th)
  {
    hide SyncOk;
    hide ApplyOk;
    match th
    case Syncing(y) => SyncOkFrame(sh, sh.(notice := n), y);
    case Applying(a) => NoticeOfApply(sh, n, a);
    case Visiting(_, _) =>
    case Acknowledging(_) =>
  }

  // ---------------------------------------------------------------- a step of a sync

  lemma LookCaptures(sh: Shared, y: SyncRun, c: Choice)
    requires OriginOk(sh, y) && LocksOk(y) && y.at == AtLook
    requires WatchesOk(sh)
    ensures EntryOk(sh, SyncNext(sh, y, c)) && KeyOk(sh, SyncNext(sh, y, c))
  {
  }

  lemma SyncKeepsOrigin(sh: Shared, y: SyncRun, c: Choice)
    requires OriginOk(sh, y)
    ensures OriginOk(sh, SyncNext(sh, y, c))
  {
    if y.at == AtLook {
    } else {
    }
  }

  lemma SyncKeepsEntry(sh: Shared, y: SyncRun, c: Choice)
    requires EntryOk(sh, y) && LocksOk(y) && y.at != AtLook
    ensures EntryOk(sh, SyncNext(sh, y, c))
  {
  }

  lemma SyncKeepsKey(sh: Shared, y: SyncRun, c: Choice)
    requires KeyOk(sh, y) && LocksOk(y) && y.at != AtLook
    ensures KeyOk(sh, SyncNext(sh, y, c))
  {
  }

  lemma SyncKeepsHolding(sh: Shared, y: SyncRun, c: Choice)
    requires HoldsWhatItNeeds(y)
    ensures HoldsWhatItNeeds(SyncNext(sh, y, c))
  {
    TargetIsHeld(sh, y, c);
    hide BehindTarget;
    hide Stale;
    hide Find;
    hide Fits;
  }

  lemma TargetIsHeld(sh: Shared, y: SyncRun, c: Choice)
    requires BehindTarget(y.at) ==> y.locked
    ensures BehindTarget(SyncNext(sh, y, c).at) ==> SyncNext(sh, y, c).locked
  {
    if y.at == AtTarget {
      hide BehindTarget;
    } else if BehindTarget(y.at) {
      LockedTillTheEnd(sh, y, c);
      hide SyncNext;
    } else {
      hide Stale;
      hide Find;
      hide Fits;
    }
  }

  lemma LockedTillTheEnd(sh: Shared, y: SyncRun, c: Choice)
    requires y.locked
    ensures SyncNext(sh, y, c).locked || SyncNext(sh, y, c).at == Ended
  {
    hide Stale;
    hide Find;
    hide Fits;
  }

  /** Whoever is past the fetch stays past it, and lets go of everything at its end. */
  lemma OnlyLater(sh: Shared, y: SyncRun, c: Choice)
    requires !Unfetched(y.at) && y.at != Ended
    ensures !Unfetched(SyncNext(sh, y, c).at)
    ensures SyncNext(sh, y, c).at == Ended ==> !SyncNext(sh, y, c).guarded && !SyncNext(sh, y, c).locked
  {
    hide Stale;
    hide Find;
    hide Fits;
  }

  lemma SyncKeepsWaiting(sh: Shared, y: SyncRun, c: Choice)
    requires HoldsNothingYet(y)
    ensures HoldsNothingYet(SyncNext(sh, y, c))
  {
    hide Stale;
    hide Find;
    hide Fits;
    if !Unfetched(y.at) && y.at != Ended {
      OnlyLater(sh, y, c);
      hide SyncNext;
    }
  }

  lemma SyncKeepsLocks(sh: Shared, y: SyncRun, c: Choice)
    requires LocksOk(y)
    ensures LocksOk(SyncNext(sh, y, c))
  {
    SyncKeepsHolding(sh, y, c);
    SyncKeepsWaiting(sh, y, c);
  }

  lemma PublishingIsCurrent(sh: Shared, y: SyncRun, c: Choice)
    requires InPublication(y.at) ==> y.gen == sh.active.gen
    ensures var z := SyncNext(sh, y, c); InPublication(z.at) ==> z.gen == sh.active.gen
  {
    if y.at == AtPublish {
      hide Find;
    } else {
      OnlyFromAtPublish(sh, y, c);
      hide SyncNext;
    }
  }

  lemma OnlyFromAtPublish(sh: Shared, y: SyncRun, c: Choice)
    requires y.at != AtPublish
    ensures InPublication(SyncNext(sh, y, c).at) ==> InPublication(y.at) && SyncNext(sh, y, c).gen == y.gen
  {
    hide Stale;
    hide Find;
    hide Fits;
  }

  /** Nothing of a sync's own claims depends on the fallback files or the history. */
  lemma SyncOkFrame(sh: Shared, sh1: Shared, y: SyncRun)
    requires SyncOk(sh, y) && sh1.policy == sh.policy && sh1.active == sh.active
    requires y.origin.ByWatcher? && y.origin.watch in sh.live ==> y.origin.watch in sh1.live
    ensures SyncOk(sh1, y)
  {
  }

  lemma SyncKeepsItself(sh: Shared, y: SyncRun, c: Choice)
    requires WatchesOk(sh) && SyncOk(sh, y)
    ensures SyncOk(SyncEffect(sh, y, c), SyncNext(sh, y, c))
  {
    SyncKeepsOrigin(sh, y, c);
    SyncKeepsLocks(sh, y, c);
    PublishingIsCurrent(sh, y, c);
    if y.at == AtLook {
      LookCaptures(sh, y, c);
    } else {
      SyncKeepsEntry(sh, y, c);
      SyncKeepsKey(sh, y, c);
    }
    hide SyncNext;
    hide OriginOk;
    hide EntryOk;
    hide KeyOk;
    hide LocksOk;
    assert SyncOk(sh, SyncNext(sh, y, c));
    SyncOkFrame(sh, SyncEffect(sh, y, c), SyncNext(sh, y, c));
  }

  /** A publication is recorded only of the active configuration, with its credentials. */
  lemma SyncKeepsShared(sh: Shared, y: SyncRun, c: Choice)
    requires SharedOk(sh) && SyncOk(sh, y)
    ensures SharedOk(SyncEffect(sh, y, c))
  {
    hide Admissible;
    if y.at == Publishing && c.written {
      var m := Published(y.name, y.gen, y.entry, y.key);
      assert Current(sh.active, m);
      hide SyncOk;
      hide Sound;
      hide LastActive;
      SoundExtends(sh.history, m);
    }
  }

  /** A sync writes fallback.json rightly if and only if its entry is enabled. */
  lemma SyncWritesRightly(sh: Shared, y: SyncRun, c: Choice)
    requires SharedOk(sh) && SyncOk(sh, y) && FallbacksMatch(sh)
    requires y.at == FallbackFile && c.written
    ensures FallbacksMatch(SyncEffect(sh, y, c)) <==> y.entry.enabled
    ensures !y.entry.enabled ==> SpoiledBy(SyncEffect(sh, y, c), y.entry)
  {
    assert y.entry in sh.active.cfg;
    if y.entry.enabled {
      WantedIsUnique(sh.policy, sh.active.cfg, y.entry);
    } else {
      SpoiledIsWrong(SyncEffect(sh, y, c), y.entry);
    }
  }

  /** What is spoiled stays so: another sync writes to another directory. */
  lemma SpoiledStays(sh: Shared, y: SyncRun, c: Choice, e: Entry)
    requires SharedOk(sh) && SyncOk(sh, y) && SpoiledBy(sh, e)
    ensures SpoiledBy(SyncEffect(sh, y, c), e)
  {
    if y.at == FallbackFile && c.written && y.entry != e {
      assert y.entry in sh.active.cfg;
      var i :| 0 <= i < |sh.active.cfg| && sh.active.cfg[i] == y.entry;
      var j :| 0 <= j < |sh.active.cfg| && sh.active.cfg[j] == e;
      assert Dir(sh.policy, sh.active.cfg[i]) != Dir(sh.policy, sh.active.cfg[j]);
    }
  }

  /** Syncs keep the account of the files: right, or spoiled by a disabled entry. */
  lemma SyncKeepsFallbacks(sh: Shared, y: SyncRun, c: Choice)
    requires SharedOk(sh) && SyncOk(sh, y)
    requires sh.uncompensated || FilesAsSynced(sh)
    ensures SyncEffect(sh, y, c).uncompensated || FilesAsSynced(SyncEffect(sh, y, c))
  {
    if !sh.uncompensated {
      if !(y.at == FallbackFile && c.written) {
        FilesFrame(sh, SyncEffect(sh, y, c));
      } else if sh.spoiled {
        var e :| SpoiledBy(sh, e);
        SpoiledStays(sh, y, c, e);
      } else {
        SyncWritesRightly(sh, y, c);
      }
    }
  }

  lemma FilesFrame(sh: Shared, sh1: Shared)
    requires FilesAsSynced(sh)
    requires sh1.policy == sh.policy && sh1.active == sh.active && sh1.fallback == sh.fallback
    requires sh1.spoiled == sh.spoiled
    ensures FilesAsSynced(sh1)
  {
    if sh.spoiled {
      var e :| SpoiledBy(sh, e);
      assert SpoiledBy(sh1, e);
    }
  }

  lemma SyncKeepsOther(sh: Shared, y: SyncRun, c: Choice, u: Thread)
    requires SyncOk(sh, y) && ThreadOk(sh, u)
    requires y.guarded ==> !(u.Applying? && HoldsFbApply(u.a.at))
    ensures ThreadOk(SyncEffect(sh, y, c), u)
  {
    var sh1 := SyncEffect(sh, y, c);
    if u.Syncing? {
      hide SyncOk;
      SyncOkFrame(sh, sh1, u.y);
    } else if u.Applying? {
      SyncKeepsApply(sh, y, c, u.a);
    }
  }

  lemma SyncKeepsApply(sh: Shared, y: SyncRun, c: Choice, a: ApplyRun)
    requires SyncOk(sh, y) && ApplyOk(sh, a)
    requires y.guarded ==> !HoldsFbApply(a.at)
    ensures ApplyOk(SyncEffect(sh, y, c), a)
  {
    var sh1 := SyncEffect(sh, y, c);
    assert HoldsFbApply(a.at) ==> sh1.fallback == sh.fallback && sh1.spoiled == sh.spoiled;
    assert sh1.uncompensated == sh.uncompensated && sh1.policy == sh.policy;
    assert sh1.active == sh.active && sh1.trial == sh.trial && sh1.retired == sh.retired && sh1.live == sh.live;
    if a.at == InlineSyncs && a.sync.Some? {
      hide SyncOk;
      SyncOkFrame(sh, sh1, a.sync.value);
    }
  }

  // ---------------------------------------------------------------- a step of an apply

  /** Before its first watcher, and at its end, an apply claims no more than this. */
  lemma EarlyClaims(sh: Shared, a: ApplyRun)
    requires Early(a.at) || a.at == Over
    requires a.sync == None && a.joining == None && (Early(a.at) ==> IdleOk(sh))
    requires a.at == AtLoadRuntime || a.at == AtReadOld || a.at == AtReadGen ==>
              Admissible(sh.policy, a.candidate, a.secrets)
    requires a.at == AtReadGen ==> a.before == sh.active.cfg
    ensures ApplyOk(sh, a)
  {
    hide Admissible;
    hide IdleOk;
    hide TrialOk;
    hide InlineOk;
    hide ActivatedOk;
  }

  lemma PreparingKeeps(sh: Shared, a: ApplyRun, c: Choice)
    requires a.at == AtApply || (Early(a.at) && a.at != AtReadGen) || a.at == Over
    requires ApplyOk(sh, a) && (a.at == AtApply ==> IdleOk(sh))
    ensures ApplyOk(ApplyEffect(sh, a, c), ApplyNext(sh, a, c))
  {
    assert a.sync == None && a.joining == None && (a.at != Over ==> IdleOk(sh));
    assert a.at == AtLoadRuntime || a.at == AtReadOld ==> Admissible(sh.policy, a.candidate, a.secrets);
    hide ApplyOk;
    hide Admissible;
    hide IdleOk;
    EarlyClaims(ApplyEffect(sh, a, c), ApplyNext(sh, a, c));
  }

  lemma WatchesForAre(group: nat, gen: nat, entries: seq<Entry>)
    ensures forall w | w in WatchesFor(group, gen, entries) ::
              w.gen == gen && w.group == group && Watched(entries, w.name)
    ensures Serves(WatchesFor(group, gen, entries), entries)
  {
    forall e | e in entries && Watched(entries, e.name)
      ensures exists w :: w in WatchesFor(group, gen, entries) && w.name == e.name
    {
      assert Watch(group, gen, e.name) in WatchesFor(group, gen, entries);
    }
  }

  lemma ReadGenKeeps(sh: Shared, a: ApplyRun, c: Choice)
    requires a.at == AtReadGen
    requires ApplyOk(sh, a)
    ensures ApplyOk(ApplyEffect(sh, a, c), ApplyNext(sh, a, c))
  {
    assert a.sync == None && a.joining == None && IdleOk(sh) && a.before == sh.active.cfg;
    assert Admissible(sh.policy, a.candidate, a.secrets);
    hide ApplyOk;
    hide Admissible;
    if c.ok {
      TrialBegins(sh, a, c);
    } else {
      EarlyClaims(ApplyEffect(sh, a, c), ApplyNext(sh, a, c));
    }
  }

  lemma TrialBegins(sh: Shared, a: ApplyRun, c: Choice)
    requires a.at == AtReadGen && c.ok && a.sync == None && a.joining == None
    requires IdleOk(sh) && a.before == sh.active.cfg && Admissible(sh.policy, a.candidate, a.secrets)
    ensures ApplyOk(ApplyEffect(sh, a, c), ApplyNext(sh, a, c))
  {
    var sh1, a1 := ApplyEffect(sh, a, c), ApplyNext(sh, a, c);
    WatchesForAre(sh.groups, sh.active.gen + 1, a.candidate);
    hide WatchesFor;
    hide Admissible;
    hide Watched;
    hide Serves;
    assert TrialOk(sh1, a1);
    StartingClaims(sh1, a1);
  }

  lemma StartingClaims(sh: Shared, a: ApplyRun)
    requires a.at == Starting && a.sync == None && a.joining == None && a.before == sh.active.cfg && TrialOk(sh, a)
    ensures ApplyOk(sh, a)
  {
    hide TrialOk;
    hide InlineOk;
    hide ActivatedOk;
    hide Admissible;
  }

  lemma StartingKeeps(sh: Shared, a: ApplyRun, c: Choice)
    requires a.at == Starting || a.at == AtReconcileAnnounce || a.at == AtReconcileEnter
    requires ApplyOk(sh, a) && Sensible(a, c)
    ensures ApplyOk(ApplyEffect(sh, a, c), ApplyNext(sh, a, c))
  {
    hide DirsOfBoth;
    hide InlineOk;
    hide Admissible;
    hide FallbacksMatch;
    hide Watched;
    hide Serves;
  }

  /** While a candidate is on trial, an apply claims no more than this. */
  lemma TrialClaims(sh: Shared, a: ApplyRun)
    requires Trying(a.at) && a.sync == None && a.joining == None && a.before == sh.active.cfg
    requires TrialOk(sh, a) && ReconcileOk(sh, a)
    ensures ApplyOk(sh, a)
  {
    hide TrialOk;
    hide ReconcileOk;
    hide Admissible;
    hide InlineOk;
    hide ActivatedOk;
    hide IdleOk;
  }

  lemma TrialFacts(sh: Shared, a: ApplyRun)
    requires Trying(a.at) && ApplyOk(sh, a)
    ensures a.sync == None && a.joining == None && a.before == sh.active.cfg && TrialOk(sh, a) && ReconcileOk(sh, a)
  {
  }

  /** One more directory is as wanted once it has been written; an empty set of directories always is. */
  lemma OneMoreMatches(policy: Policy, files: map<string, string>, entries: seq<Entry>, dirs: set<string>,
                       left: set<string>, d: string)
    requires Matches(policy, files, entries, dirs - left)
    ensures Matches(policy, SetFallback(files, d, Wanted(policy, entries, d)), entries, dirs - (left - {d}))
    ensures left == {} ==> Matches(policy, files, entries, dirs)
  {
    assert left == {} ==> dirs - left == dirs;
    hide Wanted;
    hide SetFallback;
  }

  lemma NothingToMatch(policy: Policy, files: map<string, string>, entries: seq<Entry>, dirs: set<string>)
    ensures Matches(policy, files, entries, dirs - dirs)
  {
  }

  /** A step inside a trial keeps the trial when it moves neither watchers nor generation. */
  lemma TrialGoesOn(sh: Shared, sh1: Shared, a: ApplyRun, a1: ApplyRun)
    requires TrialOk(sh, a) && a.at != Starting
    requires sh1.trial == sh.trial && sh1.retired == sh.retired && sh1.active == sh.active && sh1.live == sh.live
    requires sh1.policy == sh.policy
    requires a1.watches == a.watches && a1.todo == a.todo && a1.gen == a.gen && a1.candidate == a.candidate
    requires a1.secrets == a.secrets
    requires || a1.at == RollingBack || a1.at == AtReleaseFailed
             || (a1.at != Starting && a.at != RollingBack && a.at != AtReleaseFailed)
    ensures TrialOk(sh1, a1)
  {
    hide Watched;
    hide Serves;
    hide Admissible;
  }

  lemma ReconcilingGoesOn(sh: Shared, a: ApplyRun, c: Choice)
    requires a.at == Reconciling && TrialOk(sh, a) && ReconcileOk(sh, a) && Sensible(a, c) && c.ok
    ensures TrialOk(ApplyEffect(sh, a, c), ApplyNext(sh, a, c))
    ensures ReconcileOk(ApplyEffect(sh, a, c), ApplyNext(sh, a, c))
  {
    OneMoreMatches(sh.policy, sh.fallback, a.candidate, a.dirs, a.left, c.dir);
    hide TrialOk;
    hide Matches;
    hide Wanted;
    hide SetFallback;
    TrialGoesOn(sh, ApplyEffect(sh, a, c), a, ApplyNext(sh, a, c));
  }

  lemma ReconcilingFails(sh: Shared, a: ApplyRun, c: Choice)
    requires a.at == Reconciling && TrialOk(sh, a) && ReconcileOk(sh, a) && !c.ok
    ensures TrialOk(ApplyEffect(sh, a, c), ApplyNext(sh, a, c))
    ensures ReconcileOk(ApplyEffect(sh, a, c), ApplyNext(sh, a, c))
  {
    NothingToMatch(sh.policy, ApplyEffect(sh, a, c).fallback, a.before, a.dirs);
    hide TrialOk;
    hide Matches;
    hide Wanted;
    hide SetFallback;
    TrialGoesOn(sh, ApplyEffect(sh, a, c), a, ApplyNext(sh, a, c));
  }

  lemma ReconcilingKeeps(sh: Shared, a: ApplyRun, c: Choice)
    requires a.at == Reconciling
    requires ApplyOk(sh, a) && Sensible(a, c)
    ensures ApplyOk(ApplyEffect(sh, a, c), ApplyNext(sh, a, c))
  {
    TrialFacts(sh, a);
    hide ApplyOk;
    hide TrialOk;
    hide ReconcileOk;
    hide Sensible;
    if c.ok {
      ReconcilingGoesOn(sh, a, c);
    } else {
      ReconcilingFails(sh, a, c);
    }
    TrialClaims(ApplyEffect(sh, a, c), ApplyNext(sh, a, c));
  }

  /** From the configuration save to the announcement of the activation. */
  predicate Saving(at: ApplyPc) {
    at == SavingConfig || at == MarkingPending || at == Resaving || at == ReadingPending || at == AtActivateAnnounce
  }

  lemma SavingKeeps(sh: Shared, a: ApplyRun, c: Choice)
    requires Saving(a.at)
    requires ApplyOk(sh, a)
    ensures ApplyOk(ApplyEffect(sh, a, c), ApplyNext(sh, a, c))
  {
    TrialFacts(sh, a);
    hide ApplyOk;
    hide TrialOk;
    hide ReconcileOk;
    hide ApplyNext;
    hide ApplyEffect;
    SavingGoesOn(sh, a, c);
    SavingStaysTrying(sh, a, c);
    TrialClaims(ApplyEffect(sh, a, c), ApplyNext(sh, a, c));
  }

  lemma SavingStaysTrying(sh: Shared, a: ApplyRun, c: Choice)
    requires Saving(a.at)
    ensures var a1 := ApplyNext(sh, a, c);
            Trying(a1.at) && a1.sync == a.sync && a1.joining == a.joining && a1.before == a.before
    ensures ApplyEffect(sh, a, c) == sh
  {
    hide DirsOfBoth;
  }

  lemma SavingGoesOn(sh: Shared, a: ApplyRun, c: Choice)
    requires Saving(a.at)
    requires TrialOk(sh, a) && ReconcileOk(sh, a)
    ensures TrialOk(ApplyEffect(sh, a, c), ApplyNext(sh, a, c))
    ensures ReconcileOk(ApplyEffect(sh, a, c), ApplyNext(sh, a, c))
  {
    NothingToMatch(sh.policy, sh.fallback, a.before, a.dirs);
    hide TrialOk;
    hide Matches;
    hide Wanted;
    hide DirsOfBoth;
    TrialGoesOn(sh, ApplyEffect(sh, a, c), a, ApplyNext(sh, a, c));
  }

  lemma ActivatingKeeps(sh: Shared, a: ApplyRun, c: Choice)
    requires a.at == AtActivateEnter || a.at == AtRelease || a.at == AtReleaseFailed
    requires SharedOk(sh) && ApplyOk(sh, a)
    ensures ApplyOk(ApplyEffect(sh, a, c), ApplyNext(sh, a, c))
  {
    assert a.sync == None && a.joining == None;
    hide SharedOk;
    if a.at == AtActivateEnter {
      assert TrialOk(sh, a) && ReconcileOk(sh, a);
      hide ApplyOk;
      TakesOver(sh, a, c);
    } else if a.at == AtRelease {
      assert ActivatedOk(sh, a) && sh.retired == a.oldWatches;
      hide ApplyOk;
      LetsGo(sh, a, c);
    } else {
      assert TrialOk(sh, a) && a.before == sh.active.cfg;
      hide ApplyOk;
      LetsGo(sh, a, c);
    }
  }

  lemma TakesOver(sh: Shared, a: ApplyRun, c: Choice)
    requires a.at == AtActivateEnter && a.sync == None && a.joining == None && TrialOk(sh, a) && ReconcileOk(sh, a)
    ensures ApplyOk(ApplyEffect(sh, a, c), ApplyNext(sh, a, c))
  {
    hide Admissible;
    hide Serves;
    hide Watched;
    hide Wanted;
    hide WatchesFor;
  }

  lemma LetsGo(sh: Shared, a: ApplyRun, c: Choice)
    requires a.sync == None && a.joining == None
    requires || (a.at == AtRelease && ActivatedOk(sh, a) && sh.retired == a.oldWatches)
             || (a.at == AtReleaseFailed && TrialOk(sh, a) && a.before == sh.active.cfg)
    ensures ApplyOk(ApplyEffect(sh, a, c), ApplyNext(sh, a, c))
  {
    hide Admissible;
    hide Serves;
    hide Watched;
    hide FallbacksMatch;
    hide WatchesFor;
  }

  lemma RolledBackMatches(sh: Shared, a: ApplyRun)
    requires ReconcileOk(sh, a) && a.at == RollingBack && a.left == {} && a.before == sh.active.cfg
    ensures FallbacksMatch(sh)
  {
    assert a.dirs - a.left == a.dirs;
  }

  lemma RollingBackGoesOn(sh: Shared, a: ApplyRun, c: Choice)
    requires a.at == RollingBack && TrialOk(sh, a) && ReconcileOk(sh, a) && a.left != {} && c.dir in a.left && c.ok
    ensures TrialOk(ApplyEffect(sh, a, c), ApplyNext(sh, a, c))
    ensures ReconcileOk(ApplyEffect(sh, a, c), ApplyNext(sh, a, c))
  {
    OneMoreMatches(sh.policy, sh.fallback, a.before, a.dirs, a.left, c.dir);
    hide TrialOk;
    hide Matches;
    hide Wanted;
    hide SetFallback;
    hide Dirs;
    TrialGoesOn(sh, ApplyEffect(sh, a, c), a, ApplyNext(sh, a, c));
  }

  lemma RollingBackEnds(sh: Shared, a: ApplyRun, c: Choice)
    requires a.at == RollingBack && TrialOk(sh, a) && ReconcileOk(sh, a) && a.before == sh.active.cfg
    requires a.left == {} || !c.ok
    ensures TrialOk(ApplyEffect(sh, a, c), ApplyNext(sh, a, c))
    ensures ReconcileOk(ApplyEffect(sh, a, c), ApplyNext(sh, a, c))
  {
    hide DirsOfBoth;
    if a.left == {} {
      RolledBackMatches(sh, a);
    }
    hide TrialOk;
    hide Matches;
    hide Wanted;
    hide SetFallback;
    hide Dirs;
    TrialGoesOn(sh, ApplyEffect(sh, a, c), a, ApplyNext(sh, a, c));
  }

  lemma RollingBackKeeps(sh: Shared, a: ApplyRun, c: Choice)
    requires a.at == RollingBack
    requires ApplyOk(sh, a) && Sensible(a, c)
    ensures ApplyOk(ApplyEffect(sh, a, c), ApplyNext(sh, a, c))
  {
    TrialFacts(sh, a);
    hide ApplyOk;
    hide TrialOk;
    hide ReconcileOk;
    if a.left == {} || !c.ok {
      RollingBackEnds(sh, a, c);
    } else {
      RollingBackGoesOn(sh, a, c);
    }
    TrialClaims(ApplyEffect(sh, a, c), ApplyNext(sh, a, c));
  }

  lemma EnabledNamesAreEnabled(entries: seq<Entry>)
    requires NamesDiffer(entries)
    ensures forall n | n in EnabledNames(entries) :: Find(entries, n).Some? && Find(entries, n).value.enabled
  {
    forall n | n in EnabledNames(entries)
      ensures Find(entries, n).Some? && Find(entries, n).value.enabled
    {
      var e :| e in entries && e.enabled && e.name == n;
      FindIsUnique(entries, e);
    }
  }

  lemma StoppingOldKeeps(sh: Shared, a: ApplyRun, c: Choice)
    requires a.at == StoppingOld
    requires SharedOk(sh) && ApplyOk(sh, a) && Sensible(a, c)
    ensures ApplyOk(ApplyEffect(sh, a, c), ApplyNext(sh, a, c))
  {
    EnabledNamesAreEnabled(a.candidate);
    hide EnabledNames;
    hide SharedOk;
    hide Admissible;
    hide Find;
  }

  lemma StoppingNewKeeps(sh: Shared, a: ApplyRun, c: Choice)
    requires a.at == StoppingNew
    requires ApplyOk(sh, a) && Sensible(a, c)
    ensures ApplyOk(ApplyEffect(sh, a, c), ApplyNext(sh, a, c))
  {
    hide Admissible;
    hide EnabledNames;
    hide TrialOk;
    hide ActivatedOk;
    hide InlineOk;
  }

  /** At the inline syncs, and after them, an apply claims no more than this. */
  lemma InlineClaims(sh: Shared, a: ApplyRun)
    requires a.joining == None && sh.trial == {} && sh.retired == {}
    requires a.at == InlineSyncs ==> ActivatedOk(sh, a) && InlineOk(sh, a)
    requires a.at == InlineSyncs || (a.at == AtEnd && a.sync == None)
    ensures ApplyOk(sh, a)
  {
    hide InlineOk;
    hide ActivatedOk;
    hide TrialOk;
  }

  lemma InlineBegins(sh: Shared, a: ApplyRun, name: string)
    requires ActivatedOk(sh, a) && InlineOk(sh, a) && name in a.names
    ensures SyncOk(sh, StartSync(name, a.gen, ByApply))
  {
  }

  lemma InlineSyncSteps(sh: Shared, a: ApplyRun, c: Choice)
    requires a.at == InlineSyncs && a.sync.Some? && a.joining == None
    requires ActivatedOk(sh, a) && InlineOk(sh, a) && WatchesOk(sh)
    ensures ApplyOk(ApplyEffect(sh, a, c), ApplyNext(sh, a, c))
  {
    var sh1, a1 := ApplyEffect(sh, a, c), ApplyNext(sh, a, c);
    hide WatchesOk;
    hide SyncOk;
    hide SyncNext;
    hide Find;
    hide ApplyOk;
    SyncKeepsItself(sh, a.sync.value, c);
    SameOrigin(sh, a.sync.value, c);
    InlineClaims(sh1, a1);
  }

  lemma NextInlineSync(sh: Shared, a: ApplyRun, c: Choice)
    requires a.at == InlineSyncs && a.sync == None && a.joining == None && Sensible(a, c)
    requires ActivatedOk(sh, a) && InlineOk(sh, a)
    ensures ApplyOk(ApplyEffect(sh, a, c), ApplyNext(sh, a, c))
  {
    if a.names != {} {
      InlineBegins(sh, a, c.name);
    }
    hide SyncOk;
    hide Find;
    hide ApplyOk;
    InlineClaims(ApplyEffect(sh, a, c), ApplyNext(sh, a, c));
  }

  lemma InlineKeeps(sh: Shared, a: ApplyRun, c: Choice)
    requires a.at == InlineSyncs
    requires SharedOk(sh) && ApplyOk(sh, a) && Sensible(a, c)
    ensures ApplyOk(ApplyEffect(sh, a, c), ApplyNext(sh, a, c))
  {
    hide ActivatedOk;
    hide InlineOk;
    hide WatchesOk;
    hide ApplyNext;
    hide ApplyEffect;
    hide Sensible;
    assert a.joining == None && ActivatedOk(sh, a) && InlineOk(sh, a);
    if a.sync.Some? {
      InlineSyncSteps(sh, a, c);
    } else {
      NextInlineSync(sh, a, c);
    }
  }

  lemma SameOrigin(sh: Shared, y: SyncRun, c: Choice)
    ensures SyncNext(sh, y, c).origin == y.origin
  {
  }

  /** Every step of an apply keeps what holds of it. */
  lemma ApplyKeepsItself(sh: Shared, a: ApplyRun, c: Choice)
    requires SharedOk(sh) && ApplyOk(sh, a) && Sensible(a, c) && (a.at == AtApply ==> IdleOk(sh))
    ensures ApplyOk(ApplyEffect(sh, a, c), ApplyNext(sh, a, c))
  {
    hide ApplyOk;
    hide ApplyEffect;
    hide ApplyNext;
    hide Sensible;
    hide SharedOk;
    hide IdleOk;
    match a.at
    case AtReadGen => ReadGenKeeps(sh, a, c);
    case Starting => StartingKeeps(sh, a, c);
    case AtReconcileAnnounce => StartingKeeps(sh, a, c);
    case AtReconcileEnter => StartingKeeps(sh, a, c);
    case Reconciling => ReconcilingKeeps(sh, a, c);
    case SavingConfig => SavingKeeps(sh, a, c);
    case MarkingPending => SavingKeeps(sh, a, c);
    case Resaving => SavingKeeps(sh, a, c);
    case ReadingPending => SavingKeeps(sh, a, c);
    case AtActivateAnnounce => SavingKeeps(sh, a, c);
    case AtActivateEnter => ActivatingKeeps(sh, a, c);
    case AtRelease => ActivatingKeeps(sh, a, c);
    case AtReleaseFailed => ActivatingKeeps(sh, a, c);
    case StoppingOld => StoppingOldKeeps(sh, a, c);
    case StoppingNew => StoppingNewKeeps(sh, a, c);
    case InlineSyncs => InlineKeeps(sh, a, c);
    case RollingBack => RollingBackKeeps(sh, a, c);
    case _ => PreparingKeeps(sh, a, c);
  }

  lemma ActivationKeepsShared(sh: Shared, a: ApplyRun, c: Choice)
    requires SharedOk(sh) && ApplyOk(sh, a) && a.at == AtActivateEnter
    ensures SharedOk(ApplyEffect(sh, a, c))
  {
    hide Admissible;
    hide Watched;
    hide Serves;
    var now := Active(a.gen, a.candidate, a.secrets, a.watches);
    SoundExtends(sh.history, Activated(now));
    hide Sound;
    hide LastActive;
  }

  lemma ApplyKeepsShared(sh: Shared, a: ApplyRun, c: Choice)
    requires SharedOk(sh) && ApplyOk(sh, a) && Sensible(a, c)
    ensures SharedOk(ApplyEffect(sh, a, c))
  {
    if a.at == AtActivateEnter {
      ActivationKeepsShared(sh, a, c);
    } else if a.at == InlineSyncs {
      if a.sync.Some? {
        hide SyncOk;
        SyncKeepsShared(sh, a.sync.value, c);
      }
    } else {
      hide Admissible;
      hide Sound;
      hide LastActive;
      hide Watched;
    hide Serves;
      PlainApplyStep(sh, a, c);
    }
  }

  /** The steps that move watchers. */
  predicate MovesWatchers(at: ApplyPc) {
    at == AtReadGen || at == Starting || at == StoppingOld || at == StoppingNew
  }

  lemma StoppingKeepsWatches(sh: Shared, a: ApplyRun, c: Choice)
    requires (a.at == StoppingOld || a.at == StoppingNew) && WatchesOk(sh) && ApplyOk(sh, a)
    ensures ApplyEffect(sh, a, c).policy == sh.policy && ApplyEffect(sh, a, c).active == sh.active
    ensures ApplyEffect(sh, a, c).history == sh.history
    ensures WatchesOk(ApplyEffect(sh, a, c))
  {
    hide Watched;
    hide Serves;
    if a.joining.Some? {
      assert a.joining.value in (if a.at == StoppingOld then sh.retired else sh.trial);
      assert a.joining.value !in sh.active.watches;
    }
    hide ApplyOk;
  }

  lemma StartingKeepsWatches(sh: Shared, a: ApplyRun, c: Choice)
    requires (a.at == AtReadGen || a.at == Starting) && WatchesOk(sh) && ApplyOk(sh, a) && Sensible(a, c)
    ensures ApplyEffect(sh, a, c).policy == sh.policy && ApplyEffect(sh, a, c).active == sh.active
    ensures ApplyEffect(sh, a, c).history == sh.history
    ensures WatchesOk(ApplyEffect(sh, a, c))
  {
    assert a.at == AtReadGen ==> sh.trial == {};
    assert a.at == Starting && a.todo != {} ==> c.watch in sh.trial;
    hide ApplyOk;
    if a.at == AtReadGen {
      BuildingKeepsWatches(sh, a, c);
    } else {
      OneStartKeepsWatches(sh, a, c);
    }
  }

  lemma BuildingKeepsWatches(sh: Shared, a: ApplyRun, c: Choice)
    requires a.at == AtReadGen && WatchesOk(sh) && sh.trial == {}
    ensures var sh1 := ApplyEffect(sh, a, c);
            sh1.policy == sh.policy && sh1.active == sh.active && sh1.history == sh.history && WatchesOk(sh1)
  {
    WatchesForAre(sh.groups, sh.active.gen + 1, a.candidate);
    hide WatchesFor;
    hide Watched;
    hide Serves;
  }

  lemma OneStartKeepsWatches(sh: Shared, a: ApplyRun, c: Choice)
    requires a.at == Starting && WatchesOk(sh) && (a.todo != {} ==> c.watch in sh.trial)
    ensures var sh1 := ApplyEffect(sh, a, c);
            sh1.policy == sh.policy && sh1.active == sh.active && sh1.history == sh.history && WatchesOk(sh1)
  {
    hide Watched;
    hide Serves;
  }

  lemma PlainApplyStep(sh: Shared, a: ApplyRun, c: Choice)
    requires a.at != AtActivateEnter && a.at != InlineSyncs
    requires WatchesOk(sh) && ApplyOk(sh, a) && Sensible(a, c)
    ensures var sh1 := ApplyEffect(sh, a, c);
            sh1.policy == sh.policy && sh1.active == sh.active && sh1.history == sh.history && WatchesOk(sh1)
  {
    hide ApplyOk;
    if a.at == StoppingOld || a.at == StoppingNew {
      StoppingKeepsWatches(sh, a, c);
      hide ApplyEffect;
    } else if MovesWatchers(a.at) {
      StartingKeepsWatches(sh, a, c);
      hide ApplyEffect;
    } else {
      WatchesStay(sh, a, c);
      hide ApplyEffect;
    }
  }

  lemma WatchesStay(sh: Shared, a: ApplyRun, c: Choice)
    requires !MovesWatchers(a.at) && a.at != AtActivateEnter && a.at != InlineSyncs
    ensures var sh1 := ApplyEffect(sh, a, c);
            && sh1.policy == sh.policy && sh1.active == sh.active && sh1.history == sh.history
            && sh1.live == sh.live && sh1.trial == sh.trial && sh1.retired == sh.retired
  {
    hide Wanted;
    hide SetFallback;
  }

  /** When an apply lets go of the fallback lock, or does not hold it, the account of the files is true. */
  lemma ApplyKeepsFallbacks(sh: Shared, a: ApplyRun, c: Choice)
    requires SharedOk(sh) && ApplyOk(sh, a) && Sensible(a, c)
    requires HoldsFbApply(a.at) || sh.uncompensated || FilesAsSynced(sh)
    requires !HoldsFbApply(ApplyNext(sh, a, c).at)
    ensures ApplyEffect(sh, a, c).uncompensated || FilesAsSynced(ApplyEffect(sh, a, c))
  {
    if a.at == InlineSyncs && a.sync.Some? {
      assert SyncOk(sh, a.sync.value);
      hide SharedOk;
      hide SyncOk;
      hide FilesAsSynced;
      SyncKeepsFallbacks(sh, a.sync.value, c);
    } else if a.at == AtRelease || a.at == AtReleaseFailed {
      hide SharedOk;
    } else {
      hide SharedOk;
      hide ApplyOk;
      hide FilesAsSynced;
      AwayFromTheFiles(sh, a, c);
      if !sh.uncompensated {
        FilesFrame(sh, ApplyEffect(sh, a, c));
      }
    }
  }

  lemma AwayFromTheFiles(sh: Shared, a: ApplyRun, c: Choice)
    requires a.at != AtRelease && a.at != AtReleaseFailed && !(a.at == InlineSyncs && a.sync.Some?)
    requires !HoldsFbApply(ApplyNext(sh, a, c).at)
    ensures !HoldsFbApply(a.at)
    ensures var sh1 := ApplyEffect(sh, a, c);
            && sh1.policy == sh.policy && sh1.active == sh.active && sh1.fallback == sh.fallback
            && sh1.spoiled == sh.spoiled && sh1.uncompensated == sh.uncompensated
  {
    hide ApplyNext;
    hide HoldsFbApply;
    if HoldsFbApply(a.at) {
      OnlyReleasesLetGo(sh, a, c);
    }
    FilesLeftAlone(sh, a, c);
    hide ApplyEffect;
  }

  lemma FilesLeftAlone(sh: Shared, a: ApplyRun, c: Choice)
    requires !HoldsFbApply(a.at) && !(a.at == InlineSyncs && a.sync.Some?)
    ensures var sh1 := ApplyEffect(sh, a, c);
            && sh1.policy == sh.policy && sh1.active == sh.active && sh1.fallback == sh.fallback
            && sh1.spoiled == sh.spoiled && sh1.uncompensated == sh.uncompensated
  {
    if a.at == Reconciling || a.at == RollingBack || a.at == AtActivateEnter {
      assert false;
    } else {
      hide HoldsFbApply;
      hide WatchesFor;
      hide SyncEffect;
    }
  }

  lemma OnlyReleasesLetGo(sh: Shared, a: ApplyRun, c: Choice)
    requires HoldsFbApply(a.at) && a.at != AtRelease && a.at != AtReleaseFailed
    ensures HoldsFbApply(ApplyNext(sh, a, c).at)
  {
    hide Admissible;
    hide SyncNext;
  }

  // -------- other threads

  lemma StopKeepsSync(sh: Shared, a: ApplyRun, c: Choice, y: SyncRun)
    requires a.at == StoppingNew || a.at == StoppingOld
    requires SyncOk(sh, y)
    requires a.joining.Some? ==> y.origin != ByWatcher(a.joining.value)
    ensures SyncOk(ApplyEffect(sh, a, c), y)
  {
    hide SyncOk;
    SyncOkFrame(sh, ApplyEffect(sh, a, c), y);
  }

  lemma EnteringKnowsItsGeneration(sh: Shared, a: ApplyRun)
    requires ApplyOk(sh, a) && a.at == AtActivateEnter
    ensures a.gen == sh.active.gen + 1
  {
    hide ReconcileOk;
    hide Admissible;
    hide Watched;
    hide Serves;
  }

  lemma CallbacksAreRecent(sh: Shared, y: SyncRun)
    requires SyncOk(sh, y) && WatchesOk(sh)
    ensures y.origin.ByWatcher? ==> y.gen <= sh.active.gen + 1
  {
    hide EntryOk;
    hide KeyOk;
    hide LocksOk;
    hide Watched;
    hide Serves;
  }

  /** An activation overtakes no publication, and every callback keeps a place in the new generation. */
  lemma ActivationKeepsSync(sh: Shared, a: ApplyRun, c: Choice, y: SyncRun)
    requires a.at == AtActivateEnter && ApplyOk(sh, a) && SyncOk(sh, y) && WatchesOk(sh)
    requires !InPublication(y.at)
    ensures SyncOk(ApplyEffect(sh, a, c), y)
  {
    hide ApplyOk;
    hide WatchesOk;
    hide SyncOk;
    EnteringKnowsItsGeneration(sh, a);
    CallbacksAreRecent(sh, y);
    NextGeneration(sh, Active(a.gen, a.candidate, a.secrets, a.watches), y);
    SyncOkFrame(sh.(active := Active(a.gen, a.candidate, a.secrets, a.watches)), ApplyEffect(sh, a, c), y);
  }

  /** A sync that is not publishing claims nothing of a newer generation. */
  lemma NextGeneration(sh: Shared, now: Active, y: SyncRun)
    requires SyncOk(sh, y) && !InPublication(y.at) && now.gen == sh.active.gen + 1
    requires y.origin.ByWatcher? ==> y.gen <= now.gen
    ensures SyncOk(sh.(active := now), y)
  {
    hide Find;
    hide Fits;
    hide Dir;
  }

  lemma ApplyKeepsSync(sh: Shared, a: ApplyRun, c: Choice, y: SyncRun)
    requires ApplyOk(sh, a) && SyncOk(sh, y) && WatchesOk(sh) && Sensible(a, c)
    requires a.at == AtActivateEnter ==> !InPublication(y.at)
    requires (a.at == StoppingOld || a.at == StoppingNew) && a.joining.Some? ==> y.origin != ByWatcher(a.joining.value)
    ensures SyncOk(ApplyEffect(sh, a, c), y)
  {
    hide SyncOk;
    hide ApplyOk;
    if a.at == AtActivateEnter {
      ActivationKeepsSync(sh, a, c, y);
    } else if a.at == StoppingOld || a.at == StoppingNew {
      StopKeepsSync(sh, a, c, y);
    } else {
      SyncOkFrame(sh, ApplyEffect(sh, a, c), y);
    }
  }
}
