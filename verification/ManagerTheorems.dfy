/** What every reachable state and every run of the manager guarantees. */
module ManagerTheorems {
  import opened Options
  import opened ConfigRules
  import opened Secrets
  import opened ManagerState
  import opened ManagerThreads
  import opened ManagerInvariant
  import opened ManagerRuns
  import opened ManagerProgress
  import opened ManagerFuel

  // ---------------------------------------------------------------- publications

  /**
    Every publication of every run is of the entry, and of material fetched
    with the credentials, of the configuration that was active at that moment;
    activations take consecutive generations, and after one of them nothing of
    an older generation is published.
   */
  lemma PublicationsAreCurrent(s: State, i: nat, j: nat)
    requires Reachable(s) && i < j < |s.sh.history| && s.sh.history[i].Activated?
    ensures s.sh.history[j].Published? ==> s.sh.history[j].gen >= s.sh.history[i].now.gen
    ensures (forall k | i < k < j :: !s.sh.history[k].Activated?) ==>
              match s.sh.history[j]
              case Activated(now) => now.gen == s.sh.history[i].now.gen + 1
              case Published(_, _, _, _) => Current(s.sh.history[i].now, s.sh.history[j])
  {
    ReachableInv(s);
    NothingStaleIsPublished(s.sh.history, i, j);
  }

  lemma PublicationHoldsMu(sh: Shared, y: SyncRun)
    requires SyncOk(sh, y) && InPublication(y.at)
    ensures SyncGrip(y, Mu) == Shares && y.gen == sh.active.gen && Find(sh.active.cfg, y.name) == Some(y.entry)
  {
  }

  /** While a thread is publishing, no activation can overtake it. */
  lemma NobodyOvertakesAPublication(s: State, t: nat, u: nat, c: Choice)
    requires Reachable(s) && t in s.threads && u in s.threads
    requires s.threads[t].Syncing? && InPublication(s.threads[t].y.at)
    requires s.threads[u].Applying? && s.threads[u].a.at == AtActivateEnter
    ensures !Enabled(s, Step(u, c))
    ensures s.threads[t].y.gen == s.sh.active.gen
    ensures Find(s.sh.active.cfg, s.threads[t].y.name) == Some(s.threads[t].y.entry)
  {
    ReachableInv(s);
    assert ThreadOk(s.sh, s.threads[t]);
    hide Inv;
    hide Enabled;
    hide SyncOk;
    PublicationHoldsMu(s.sh, s.threads[t].y);
    ActivationNeedsMu(s, t, u, c);
  }

  lemma ActivationNeedsMu(s: State, t: nat, u: nat, c: Choice)
    requires t in s.threads && u in s.threads && t != u
    requires s.threads[t].Syncing? && SyncGrip(s.threads[t].y, Mu) == Shares
    requires s.threads[u].Applying? && s.threads[u].a.at == AtActivateEnter
    ensures !Enabled(s, Step(u, c))
  {
    assert Blocks(s.threads[t], NeedOf(s.threads[u], c));
  }

  /** The sync that a thread is in, on its own or inside an apply. */
  function SyncOf(th: Thread): Option<SyncRun> {
    match th
    case Syncing(y) => Some(y)
    case Applying(a) => a.sync
    case Visiting(_, _) => None
    case Acknowledging(_) => None
  }

  lemma SyncHoldsTarget(sh: Shared, th: Thread)
    requires ThreadOk(sh, th) && SyncOf(th).Some? && BehindTarget(SyncOf(th).value.at)
    ensures var y := SyncOf(th).value; GripOf(th, Target(y.dir, y.entry.destination.targetName)) == Owns
  {
    hide TrialOk;
    hide ReconcileOk;
  }

  /** From fetching to publishing, no two syncs ever work on the same destination. */
  lemma OneSyncPerDestination(s: State, t: nat, u: nat)
    requires Reachable(s) && t in s.threads && u in s.threads
    requires SyncOf(s.threads[t]).Some? && SyncOf(s.threads[u]).Some?
    requires BehindTarget(SyncOf(s.threads[t]).value.at) && BehindTarget(SyncOf(s.threads[u]).value.at)
    requires SyncOf(s.threads[t]).value.dir == SyncOf(s.threads[u]).value.dir
    requires SyncOf(s.threads[t]).value.entry.destination.targetName ==
             SyncOf(s.threads[u]).value.entry.destination.targetName
    ensures t == u
  {
    ReachableInv(s);
    var y := SyncOf(s.threads[t]).value;
    assert ThreadOk(s.sh, s.threads[t]) && ThreadOk(s.sh, s.threads[u]);
    hide SharedOk;
    hide ThreadOk;
    hide BehindTarget;
    hide SyncOf;
    SyncHoldsTarget(s.sh, s.threads[t]);
    SyncHoldsTarget(s.sh, s.threads[u]);
    var lock := Target(y.dir, y.entry.destination.targetName);
    assert t != u ==> Compatible(s.threads[t], s.threads[u], lock);
  }

  /** Only a request by hand ever syncs an entry that is switched off. */
  lemma OnlyEnabledEntriesUnlessByHand(s: State, t: nat)
    requires Reachable(s) && t in s.threads && s.threads[t].Syncing?
    requires Captured(s.threads[t].y) && !s.threads[t].y.origin.ByHand?
    ensures s.threads[t].y.entry.enabled
  {
    ReachableInv(s);
    assert ThreadOk(s.sh, s.threads[t]);
  }

  /**
    Between applies exactly the active configuration's watchers are live, and
    every running callback is one of theirs: a candidate that failed, or a
    configuration that was replaced, leaves none behind.
   */
  lemma NoWatcherIsLeftBehind(s: State)
    requires Reachable(s) && NoOwner(s.threads, ApplyMu)
    ensures s.sh.live == s.sh.active.watches
    ensures forall t | t in s.threads && s.threads[t].Syncing? && s.threads[t].y.origin.ByWatcher? ::
              s.threads[t].y.origin.watch in s.sh.active.watches && s.threads[t].y.gen == s.sh.active.gen
  {
    ReachableInv(s);
    forall t | t in s.threads && s.threads[t].Syncing? && s.threads[t].y.origin.ByWatcher?
      ensures s.threads[t].y.origin.watch in s.sh.active.watches && s.threads[t].y.gen == s.sh.active.gen
    {
      assert ThreadOk(s.sh, s.threads[t]);
    }
  }

  // ---------------------------------------------------------------- fallback files

  /**
    While no apply is between its reconciliation and its release, and every
    compensation since the last one succeeded, the fallback files are right if
    and only if no disabled entry has been written since.
   */
  lemma FallbackFilesAreRightExactly(s: State)
    requires Reachable(s) && NoOwner(s.threads, FbApply) && !s.sh.uncompensated
    ensures FallbacksMatch(s.sh) <==> !s.sh.spoiled
  {
    ReachableInv(s);
    if s.sh.spoiled {
      var e :| SpoiledBy(s.sh, e);
      SpoiledIsWrong(s.sh, e);
    }
  }

  /** Right means: each directory's file names its one enabled fallback entry, and is absent where there is none. */
  lemma WhatRightMeans(s: State, e: Entry)
    requires Reachable(s) && FallbacksMatch(s.sh) && e in s.sh.active.cfg
    ensures e.enabled && e.fallback ==> FallbackAt(s.sh.fallback, Dir(s.sh.policy, e)) == Some(e.destination.targetName)
    ensures (forall f | f in s.sh.active.cfg :: !WantsFallback(s.sh.policy, f, Dir(s.sh.policy, e))) ==>
              FallbackAt(s.sh.fallback, Dir(s.sh.policy, e)) == None
  {
    ReachableInv(s);
    assert Dir(s.sh.policy, e) in Dirs(s.sh.policy, s.sh.active.cfg);
    if e.enabled && e.fallback {
      WantedIsUnique(s.sh.policy, s.sh.active.cfg, e);
    }
  }

  /** The one step that spoils the files: a sync by hand that writes the file of a disabled entry. */
  predicate SpoilingStep(th: Thread, c: Choice) {
    th.Syncing? && th.y.at == FallbackFile && c.written && !th.y.entry.enabled
  }

  /** The one step that leaves them uncompensated: a reconciliation that fails while an apply is undone. */
  predicate FailingCompensation(th: Thread, c: Choice) {
    th.Applying? && th.a.at == RollingBack && th.a.left != {} && !c.ok
  }

  lemma WhatSpoilsTheFiles(s: State, t: nat, c: Choice)
    requires Inv(s) && Enabled(s, Step(t, c))
    ensures !s.sh.spoiled ==> (After(s, Step(t, c)).sh.spoiled <==> SpoilingStep(s.threads[t], c))
    ensures SpoilingStep(s.threads[t], c) ==> s.threads[t].y.origin == ByHand
    ensures !s.sh.uncompensated ==> (After(s, Step(t, c)).sh.uncompensated <==> FailingCompensation(s.threads[t], c))
  {
    assert ThreadOk(s.sh, s.threads[t]);
    hide Inv;
    hide SyncOk;
    hide ApplyOk;
    hide SyncEffect;
    hide ApplyEffect;
    match s.threads[t]
    case Syncing(y) => SyncSpoils(s.sh, y, c);
    case Applying(a) => ApplySpoils(s.sh, a, c);
    case Visiting(_, _) =>
    case Acknowledging(_) =>
  }

  lemma SyncSpoils(sh: Shared, y: SyncRun, c: Choice)
    requires SyncOk(sh, y)
    ensures !sh.spoiled ==> (SyncEffect(sh, y, c).spoiled <==> y.at == FallbackFile && c.written && !y.entry.enabled)
    ensures y.at == FallbackFile && !y.entry.enabled ==> y.origin == ByHand
    ensures SyncEffect(sh, y, c).uncompensated == sh.uncompensated
  {
  }

  lemma ApplySpoils(sh: Shared, a: ApplyRun, c: Choice)
    requires ApplyOk(sh, a)
    ensures !sh.spoiled ==> !ApplyEffect(sh, a, c).spoiled
    ensures !sh.uncompensated ==>
              (ApplyEffect(sh, a, c).uncompensated <==> a.at == RollingBack && a.left != {} && !c.ok)
  {
    if a.at == InlineSyncs && a.sync.Some? {
      assert SyncOk(sh, a.sync.value) && a.sync.value.origin == ByApply;
      hide ApplyOk;
      hide SyncOk;
      hide SyncEffect;
      SyncSpoils(sh, a.sync.value, c);
    } else {
      hide ApplyOk;
      OwnStepSpoils(sh, a, c);
      hide ApplyEffect;
    }
  }

  lemma OwnStepSpoils(sh: Shared, a: ApplyRun, c: Choice)
    requires !(a.at == InlineSyncs && a.sync.Some?)
    ensures !sh.spoiled ==> !ApplyEffect(sh, a, c).spoiled
    ensures !sh.uncompensated ==>
              (ApplyEffect(sh, a, c).uncompensated <==> a.at == RollingBack && a.left != {} && !c.ok)
  {
    hide SyncEffect;
    hide WatchesFor;
    hide SetFallback;
    hide Wanted;
  }

  /** An activation, or a compensation that succeeds, sets the files right again. */
  lemma ActivationHeals(s: State, t: nat, c: Choice)
    requires Inv(s) && Enabled(s, Step(t, c)) && s.threads[t].Applying?
    requires s.threads[t].a.at == AtActivateEnter || (s.threads[t].a.at == RollingBack && s.threads[t].a.left == {})
    ensures var sh := After(s, Step(t, c)).sh; !sh.spoiled && !sh.uncompensated && FallbacksMatch(sh)
  {
    assert ThreadOk(s.sh, s.threads[t]);
    hide SharedOk;
    hide Exclusion;
    hide Wanted;
  }

  // ---------------------------------------------------------------- the disabled entry

  lemma Prepend(s: State, e: Event, events: seq<Event>)
    requires Enabled(s, e) && IsRun(After(s, e), events)
    ensures IsRun(s, [e] + events) && Outcome(s, [e] + events) == Outcome(After(s, e), events)
  {
    assert ([e] + events)[1..] == events;
  }

  const Smooth := Choice(true, true, "", Watch(0, 0, ""), "")

  predicate Fetching(at: SyncPc) {
    || at == AtFetchAnnounce || at == AtFetchEnter || at == AtFetch || at == AtQueryAnnounce || at == AtQueryEnter
  }

  /** A sync of that entry that has met no obstacle, up to its publication and its fallback file. */
  predicate OnTheWay(sh: Shared, y: SyncRun, e: Entry) {
    && Find(sh.active.cfg, y.name) == Some(e)
    && (Remote(e) ==> Fits(Key(sh.active.secrets, y.name), e))
    && ToGo(y.at) > 0
    && (y.at != AtGen ==> y.gen == sh.active.gen)
    && (y.at != AtGen && y.at != AtLook ==> y.entry == e)
    && (ToGo(y.at) < 10 ==> y.dir == Dir(sh.policy, e))
    && (Fetching(y.at) ==> Remote(e))
    && (y.at == AtGuard || y.at == FallbackFile ==> e.fallback)
    && y.key == (if Remote(e) && ToGo(y.at) <= 6 then Key(sh.active.secrets, y.name) else None)
    && (y.at == AtQueryAnnounce || y.at == AtQueryEnter ==> y.fetched)
  }

  function ToGo(at: SyncPc): nat {
    match at
    case AtGen => 13
    case AtLook => 12
    case AtGuard => 11
    case AtResolve => 10
    case AtTarget => 9
    case AtFetchAnnounce => 8
    case AtFetchEnter => 7
    case AtFetch => 6
    case AtQueryAnnounce => 5
    case AtQueryEnter => 4
    case AtPublish => 3
    case Publishing => 2
    case FallbackFile => 1
    case _ => 0
  }

  lemma FirstHalfMoves(sh: Shared, y: SyncRun, e: Entry)
    requires OnTheWay(sh, y, e) && ToGo(y.at) > 8
    ensures OnTheWay(sh, SyncNext(sh, y, Smooth), e) && ToGo(SyncNext(sh, y, Smooth).at) < ToGo(y.at)
  {
    hide Find;
    hide Fits;
    hide Dir;
  }

  lemma FetchMoves(sh: Shared, y: SyncRun, e: Entry)
    requires OnTheWay(sh, y, e) && 3 < ToGo(y.at) <= 8
    ensures OnTheWay(sh, SyncNext(sh, y, Smooth), e) && ToGo(SyncNext(sh, y, Smooth).at) < ToGo(y.at)
  {
    hide Find;
    hide Fits;
    hide Dir;
  }

  lemma LastHalfMoves(sh: Shared, y: SyncRun, e: Entry)
    requires OnTheWay(sh, y, e) && 1 < ToGo(y.at) <= 3 && (y.at == Publishing ==> e.fallback)
    ensures OnTheWay(sh, SyncNext(sh, y, Smooth), e) && ToGo(SyncNext(sh, y, Smooth).at) < ToGo(y.at)
  {
    hide Find;
    hide Fits;
    hide Dir;
  }

  lemma OnTheWayMoves(sh: Shared, y: SyncRun, e: Entry)
    requires OnTheWay(sh, y, e) && y.at != FallbackFile && (y.at == Publishing ==> e.fallback)
    ensures OnTheWay(SyncEffect(sh, y, Smooth), SyncNext(sh, y, Smooth), e)
    ensures ToGo(SyncNext(sh, y, Smooth).at) < ToGo(y.at)
    ensures SyncNext(sh, y, Smooth).at != Ended
    ensures SyncEffect(sh, y, Smooth).active == sh.active && SyncEffect(sh, y, Smooth).policy == sh.policy
  {
    if ToGo(y.at) > 8 {
      FirstHalfMoves(sh, y, e);
    } else if ToGo(y.at) > 3 {
      FetchMoves(sh, y, e);
    } else {
      LastHalfMoves(sh, y, e);
    }
    hide SyncNext;
    hide Find;
    hide Fits;
    hide Dir;
  }

  lemma NoticeIsAside(sh: Shared, n: Notice, y: SyncRun, e: Entry)
    ensures OnTheWay(sh, y, e) <==> OnTheWay(sh.(notice := n), y, e)
  {
  }

  lemma LastOnTheWay(sh: Shared, y: SyncRun, e: Entry)
    requires OnTheWay(sh, y, e) && y.at == FallbackFile
    ensures SyncNext(sh, y, Smooth).at != Ended
    ensures var sh1 := SyncEffect(sh, y, Smooth);
            && sh1.active == sh.active && sh1.policy == sh.policy
            && FallbackAt(sh1.fallback, Dir(sh.policy, e)) == Some(e.destination.targetName)
  {
    hide Find;
    hide Fits;
    hide Dir;
  }

  lemma NoSyncOwnsTheApply(threads: map<nat, Thread>)
    requires forall t | t in threads :: threads[t].Syncing?
    ensures NoOwner(threads, FbApply) && NoOwner(threads, ApplyMu)
  {
  }

  lemma {:induction false} WritesItsFile(s: State, t: nat, y: SyncRun, e: Entry) returns (events: seq<Event>)
    requires s.threads == map[t := Syncing(y)] && OnTheWay(s.sh, y, e) && e.fallback
    ensures IsRun(s, events)
    ensures var r := Outcome(s, events);
            && r.sh.active == s.sh.active && r.sh.policy == s.sh.policy
            && NoOwner(r.threads, FbApply) && NoOwner(r.threads, ApplyMu)
            && FallbackAt(r.sh.fallback, Dir(s.sh.policy, e)) == Some(e.destination.targetName)
    decreases ToGo(y.at)
  {
    hide OnTheWay;
    hide SyncNotice;
    hide SyncEffect;
    hide SyncNext;
    var step := Step(t, Smooth);
    Alone(s, t, Syncing(y), Smooth);
    var s1 := After(s, step);
    assert s1.sh == SyncEffect(s.sh, y, Smooth).(notice := SyncNotice(s.sh, y, Smooth));
    if y.at == FallbackFile {
      LastOnTheWay(s.sh, y, e);
      NoSyncOwnsTheApply(s1.threads);
      assert IsRun(s1, []) && Outcome(s1, []) == s1;
      Prepend(s, step, []);
      events := [step] + [];
    } else {
      hide Enabled;
      OnTheWayMoves(s.sh, y, e);
      NoticeIsAside(SyncEffect(s.sh, y, Smooth), SyncNotice(s.sh, y, Smooth), SyncNext(s.sh, y, Smooth), e);
      hide ToGo;
      assert s1.threads == map[t := Syncing(SyncNext(s.sh, y, Smooth))];
      var rest := WritesItsFile(s1, t, SyncNext(s.sh, y, Smooth), e);
      Prepend(s, step, rest);
      events := [step] + rest;
    }
  }

  /**
    A sync does not ask whether its entry is enabled. From every quiet state a
    request by hand for a disabled fallback entry, local or remote, can end
    with that entry's name in fallback.json, where the configuration wants
    none: the files are wrong with no apply in flight.
   */
  lemma DisabledEntrySpoilsTheFallback(s: State, e: Entry) returns (events: seq<Event>)
    requires Inv(s) && s.threads == map[] && e in s.sh.active.cfg
    requires e.fallback && !e.enabled
    ensures IsRun(s, events)
    ensures NoOwner(Outcome(s, events).threads, FbApply) && !FallbacksMatch(Outcome(s, events).sh)
  {
    hide Dir;
    hide Find;
    var arrive := Spawn(0, Syncing(StartSync(e.name, 0, ByHand)));
    FindIsUnique(s.sh.active.cfg, e);
    assert Credentialed(e, s.sh.active.secrets);
    assert OneFallbackPerDir(s.sh.policy, s.sh.active.cfg);
    hide Inv;
    hide FallbacksMatch;
    hide OneFallbackPerDir;
    hide NoOwner;
    var s1 := After(s, arrive);
    var rest := WritesItsFile(s1, 0, StartSync(e.name, 0, ByHand), e);
    Prepend(s, arrive, rest);
    events := [arrive] + rest;
    SpoiledIsWrong(Outcome(s, events).sh, e);
  }

  // ---------------------------------------------------------------- an apply can succeed

  /** How far an apply that meets no obstacle is from its activation. */
  function Stages(at: ApplyPc): nat {
    match at
    case AtApply => 13
    case AtSnapshot => 12
    case AtLoadRuntime => 11
    case AtReadOld => 10
    case AtReadGen => 9
    case Starting => 8
    case AtReconcileAnnounce => 7
    case AtReconcileEnter => 6
    case Reconciling => 5
    case SavingConfig => 4
    case MarkingPending => 3
    case ReadingPending => 2
    case AtActivateAnnounce => 1
    case _ => 0
  }

  predicate Upward(at: ApplyPc) {
    Stages(at) > 0 || at == AtActivateEnter
  }

  /** The next choice of such an apply: every outcome is good, and loops take what they have. */
  lemma GoodChoice(a: ApplyRun) returns (c: Choice)
    ensures c.ok && Sensible(a, c)
  {
    c := SomeChoice(Applying(a));
    c := c.(ok := true);
  }

  /** What is left of the loop an apply is in. */
  function Round(a: ApplyRun): nat {
    match a.at
    case Starting => |a.todo|
    case Reconciling => |a.left|
    case ReadingPending => |a.left|
    case _ => 0
  }

  predicate Closer(a: ApplyRun, a1: ApplyRun) {
    Upward(a1.at) && a1.candidate == a.candidate && a1.secrets == a.secrets
    && (Stages(a1.at) < Stages(a.at) || (Stages(a1.at) == Stages(a.at) && Round(a1) < Round(a)))
  }

  lemma GoodStart(sh: Shared, a: ApplyRun, c: Choice)
    requires a.at == Starting && c.ok && Sensible(a, c)
    ensures Closer(a, ApplyNext(sh, a, c))
  {
    LessOne(a.todo, c.watch);
  }

  lemma GoodReconciliation(sh: Shared, a: ApplyRun, c: Choice)
    requires (a.at == Reconciling || a.at == ReadingPending) && c.ok && Sensible(a, c)
    ensures Closer(a, ApplyNext(sh, a, c))
  {
    LessOne(a.left, c.dir);
  }

  lemma GoodStraightStep(sh: Shared, a: ApplyRun, c: Choice)
    requires Upward(a.at) && a.at != AtActivateEnter
    requires a.at != Starting && a.at != Reconciling && a.at != ReadingPending
    requires c.ok && Admissible(sh.policy, a.candidate, a.secrets)
    ensures Closer(a, ApplyNext(sh, a, c))
  {
    hide Admissible;
    hide WatchesFor;
    hide DirsOfBoth;
    hide Round;
  }

  lemma ActiveStays(sh: Shared, a: ApplyRun, c: Choice)
    requires Upward(a.at) && a.at != AtActivateEnter
    ensures ApplyEffect(sh, a, c).policy == sh.policy && ApplyEffect(sh, a, c).active == sh.active
  {
    hide WatchesFor;
  }

  /** A thread with nobody else around can always step. */
  lemma Alone(s: State, t: nat, th: Thread, c: Choice)
    requires s.threads == map[t := th] && SensibleChoice(th, c)
    ensures Enabled(s, Step(t, c))
    ensures After(s, Step(t, c)).sh == Effect(s.sh, th, c).(notice := NoticeAfter(s.sh, th, c))
    ensures !Finished(Next(s.sh, th, c)) ==> After(s, Step(t, c)).threads == map[t := Next(s.sh, th, c)]
  {
    hide Next;
    hide Effect;
    hide SensibleChoice;
    hide NeedOf;
    hide Finished;
    assert s.threads[t] == th;
  }

  /** An apply alone in the manager, meeting no fault, gets its candidate activated. */
  lemma {:induction false} Activates(s: State, t: nat, a: ApplyRun) returns (events: seq<Event>)
    requires Inv(s) && s.threads == map[t := Applying(a)]
    requires Upward(a.at) && Admissible(s.sh.policy, a.candidate, a.secrets)
    ensures IsRun(s, events)
    ensures var r := Outcome(s, events).sh.active;
            r.cfg == a.candidate && r.secrets == a.secrets && r.gen == s.sh.active.gen + 1
    decreases Stages(a.at), Round(a)
  {
    var c := GoodChoice(a);
    var step := Step(t, c);
    Alone(s, t, Applying(a), c);
    StepKeepsInv(s, step);
    var s1 := After(s, step);
    if a.at == AtActivateEnter {
      assert ThreadOk(s.sh, s.threads[t]);
      EnteringKnowsItsGeneration(s.sh, a);
      Prepend(s, step, []);
      events := [step] + [];
      hide Inv;
    } else {
      hide Inv;
      hide Admissible;
      hide Sensible;
      var a1 := NextOnTheWay(s.sh, a, c);
      var rest := Activates(s1, t, a1);
      Prepend(s, step, rest);
      events := [step] + rest;
    }
  }

  lemma NextOnTheWay(sh: Shared, a: ApplyRun, c: Choice) returns (a1: ApplyRun)
    requires Upward(a.at) && a.at != AtActivateEnter && c.ok && Sensible(a, c)
    requires Admissible(sh.policy, a.candidate, a.secrets)
    ensures Next(sh, Applying(a), c) == Applying(a1) && !Finished(Applying(a1)) && Closer(a, a1)
    ensures Effect(sh, Applying(a), c).policy == sh.policy && Effect(sh, Applying(a), c).active == sh.active
  {
    a1 := ApplyNext(sh, a, c);
    ActiveStays(sh, a, c);
    if a.at == Starting {
      GoodStart(sh, a, c);
    } else if a.at == Reconciling || a.at == ReadingPending {
      GoodReconciliation(sh, a, c);
    } else {
      GoodStraightStep(sh, a, c);
    }
    hide ApplyNext;
    hide ApplyEffect;
    hide Sensible;
    NotOver(a1);
  }

  lemma NotOver(a: ApplyRun)
    requires Upward(a.at)
    ensures !Finished(Applying(a))
  {
  }

  /** From every quiet state any acceptable candidate can be brought in. */
  lemma AnApplyCanSucceed(s: State, candidate: seq<Entry>, secrets: Data) returns (events: seq<Event>)
    requires Inv(s) && s.threads == map[] && Admissible(s.sh.policy, candidate, secrets)
    ensures IsRun(s, events)
    ensures var r := Outcome(s, events).sh.active;
            r.cfg == candidate && r.secrets == secrets && r.gen == s.sh.active.gen + 1
  {
    var arrive := Spawn(0, Applying(StartApply(candidate, secrets)));
    StepKeepsInv(s, arrive);
    var rest := Activates(After(s, arrive), 0, StartApply(candidate, secrets));
    Prepend(s, arrive, rest);
    events := [arrive] + rest;
  }
}
