/**
  What the manager gets done: which steps publish, that every active entry can
  be published by hand and by its watcher, and that an apply that is over has
  synced each of its enabled entries.
 */
module ManagerPublishes {
  import opened Options
  import opened ConfigRules
  import opened Secrets
  import opened ManagerState
  import opened ManagerThreads
  import opened ManagerInvariant
  import opened ManagerRuns
  import opened ManagerTheorems

  // ---------------------------------------------------------------- the history, step by step

  /** The pair is written at this step. */
  predicate PublishingStep(th: Thread, c: Choice) {
    SyncOf(th).Some? && SyncOf(th).value.at == Publishing && c.written
  }

  predicate ActivatingStep(th: Thread) {
    th.Applying? && th.a.at == AtActivateEnter
  }

  /**
    The history grows by a publication exactly at a step that writes a pair, and
    by an activation exactly at the step that activates. The publication is of
    the stepping sync's entry, under its generation and with the key it fetched
    with, and all three are those of the active configuration.
   */
  lemma WhatEntersTheHistory(s: State, t: nat, c: Choice)
    requires Inv(s) && Enabled(s, Step(t, c))
    ensures var h, h1 := s.sh.history, After(s, Step(t, c)).sh.history;
            && (PublishingStep(s.threads[t], c) <==> exists p: Mark :: p.Published? && h1 == h + [p])
            && (ActivatingStep(s.threads[t]) <==> exists now :: h1 == h + [Activated(now)])
            && (h1 == h || |h1| == |h| + 1)
    ensures PublishingStep(s.threads[t], c) ==>
              var p := PublicationAt(s.threads[t]);
              After(s, Step(t, c)).sh.history == s.sh.history + [p] && Current(s.sh.active, p)
    ensures ActivatingStep(s.threads[t]) ==>
              After(s, Step(t, c)).sh.history == s.sh.history + [Activated(After(s, Step(t, c)).sh.active)]
    ensures !ActivatingStep(s.threads[t]) ==> After(s, Step(t, c)).sh.active == s.sh.active
  {
    var th := s.threads[t];
    assert ThreadOk(s.sh, th);
    hide Inv;
    hide ThreadOk;
    hide Current;
    hide Effect;
    hide NoticeAfter;
    hide Next;
    hide NeedOf;
    hide Finished;
    StepEntersTheHistory(s.sh, th, c);
    var h, h1 := s.sh.history, After(s, Step(t, c)).sh.history;
    assert h1 == Effect(s.sh, th, c).history;
    hide PublishingStep;
    hide ActivatingStep;
    if PublishingStep(th, c) {
      GrowthTells(h, h1, PublicationAt(th));
    } else if ActivatingStep(th) {
      GrowthTells(h, h1, Activated(Effect(s.sh, th, c).active));
    }
  }

  function PublicationAt(th: Thread): Mark
    requires SyncOf(th).Some?
  {
    var y := SyncOf(th).value;
    Published(y.name, y.gen, y.entry, y.key)
  }

  /** What was appended can be read off the longer history. */
  lemma GrowthTells(h: seq<Mark>, h1: seq<Mark>, m: Mark)
    requires h1 == h + [m]
    ensures forall p: Mark :: h1 == h + [p] ==> p == m
  {
    forall p: Mark | h1 == h + [p]
      ensures p == m
    {
      assert h1[|h|] == p;
    }
  }

  lemma StepEntersTheHistory(sh: Shared, th: Thread, c: Choice)
    requires ThreadOk(sh, th)
    ensures var sh1 := Effect(sh, th, c);
            && (PublishingStep(th, c) ==>
                  sh1.history == sh.history + [PublicationAt(th)] && Current(sh.active, PublicationAt(th)))
            && (ActivatingStep(th) ==> sh1.history == sh.history + [Activated(sh1.active)])
            && (!PublishingStep(th, c) && !ActivatingStep(th) ==> sh1.history == sh.history)
            && (!ActivatingStep(th) ==> sh1.active == sh.active)
            && !(PublishingStep(th, c) && ActivatingStep(th))
  {
    hide SyncOk;
    hide ApplyOk;
    hide Current;
    hide SyncEffect;
    hide ApplyEffect;
    match th
    case Syncing(y) => SyncEntersTheHistory(sh, y, c);
    case Applying(a) => ApplyEntersTheHistory(sh, a, c);
    case Visiting(_, _) =>
    case Acknowledging(_) =>
  }

  lemma SyncEntersTheHistory(sh: Shared, y: SyncRun, c: Choice)
    requires SyncOk(sh, y)
    ensures SyncEffect(sh, y, c).active == sh.active
    ensures y.at == Publishing && c.written ==>
              var p := Published(y.name, y.gen, y.entry, y.key);
              SyncEffect(sh, y, c).history == sh.history + [p] && Current(sh.active, p)
    ensures !(y.at == Publishing && c.written) ==> SyncEffect(sh, y, c).history == sh.history
  {
  }

  lemma ApplyEntersTheHistory(sh: Shared, a: ApplyRun, c: Choice)
    requires ApplyOk(sh, a)
    ensures var sh1 := ApplyEffect(sh, a, c);
            if a.at == AtActivateEnter then sh1.history == sh.history + [Activated(sh1.active)] && a.sync == None
            else
              && sh1.active == sh.active
              && if a.sync.Some? && a.sync.value.at == Publishing && c.written then
                   var y := a.sync.value;
                   var p := Published(y.name, y.gen, y.entry, y.key);
                   sh1.history == sh.history + [p] && Current(sh.active, p)
                 else sh1.history == sh.history
  {
    if a.sync.Some? {
      assert a.at == InlineSyncs && SyncOk(sh, a.sync.value);
      hide ApplyOk;
      hide SyncOk;
      hide Current;
      SyncEntersTheHistory(sh, a.sync.value, c);
      hide SyncEffect;
    } else {
      hide ApplyOk;
      hide Current;
      OwnStepEntersTheHistory(sh, a, c);
      hide ApplyEffect;
    }
  }

  lemma OwnStepEntersTheHistory(sh: Shared, a: ApplyRun, c: Choice)
    requires a.sync == None
    ensures var sh1 := ApplyEffect(sh, a, c);
            if a.at == AtActivateEnter then sh1.history == sh.history + [Activated(sh1.active)]
            else sh1.active == sh.active && sh1.history == sh.history
  {
    hide WatchesFor;
    hide Wanted;
    hide SetFallback;
    hide SyncEffect;
  }

  // ---------------------------------------------------------------- what the state lock protects

  predicate OwnedByAnother(s: State, t: nat, lock: Lock) {
    exists u :: u in s.threads && u != t && GripOf(s.threads[u], lock) == Owns
  }

  predicate FreeOfOthers(s: State, t: nat, lock: Lock) {
    forall u | u in s.threads && u != t :: GripOf(s.threads[u], lock) == No
  }

  /**
    While another thread owns the lock of the manager's state, no step depends
    on the active configuration, whatever it is. The active configuration and
    the flags only change when no other thread holds that lock in any mode.
   */
  lemma TheStateIsRaceFree(s: State, t: nat, c: Choice, other: Active)
    requires Inv(s) && Enabled(s, Step(t, c))
    ensures OwnedByAnother(s, t, Mu) ==>
              && Next(s.sh.(active := other), s.threads[t], c) == Next(s.sh, s.threads[t], c)
              && NoticeAfter(s.sh.(active := other), s.threads[t], c) == NoticeAfter(s.sh, s.threads[t], c)
    ensures var sh1 := After(s, Step(t, c)).sh;
            sh1.active != s.sh.active || sh1.notice.flagged != s.sh.notice.flagged ==> FreeOfOthers(s, t, Mu)
  {
    var th := s.threads[t];
    hide SharedOk;
    hide ThreadsOk;
    hide IdleOk;
    hide FilesAsSynced;
    hide Next;
    hide Effect;
    hide NoticeAfter;
    hide NeedOf;
    hide GripOf;
    hide Announced;
    hide SensibleChoice;
    StateLockIsNeeded(s.sh, th, c, other);
    StateLockIsHeld(s.sh, th, c);
    assert forall u | u in s.threads && u != t :: !Blocks(s.threads[u], NeedOf(th, c));
    assert forall u | u in s.threads && u != t :: Compatible(th, s.threads[u], Mu);
  }

  /** A step that asks nothing of the lock does not look at what is active, ... */
  lemma StateLockIsNeeded(sh: Shared, th: Thread, c: Choice, other: Active)
    ensures NeedOf(th, c) == Read(Mu) || NeedOf(th, c) == Write(Mu)
            || (&& Next(sh.(active := other), th, c) == Next(sh, th, c)
                && NoticeAfter(sh.(active := other), th, c) == NoticeAfter(sh, th, c))
  {
    match th
    case Syncing(y) => SyncNeedsTheLock(sh, y, c, other);
    case Applying(a) => ApplyNeedsTheLock(sh, a, c, other);
    case Visiting(_, _) =>
    case Acknowledging(_) =>
  }

  lemma SyncNeedsTheLock(sh: Shared, y: SyncRun, c: Choice, other: Active)
    ensures SyncNeed(y) == Read(Mu) || SyncNeed(y) == Write(Mu)
            || (&& SyncNext(sh.(active := other), y, c) == SyncNext(sh, y, c)
                && SyncNotice(sh.(active := other), y, c) == SyncNotice(sh, y, c))
  {
    hide Find;
    hide Fits;
    hide Stale;
  }

  lemma ApplyNeedsTheLock(sh: Shared, a: ApplyRun, c: Choice, other: Active)
    ensures ApplyNeed(a, c) == Read(Mu) || ApplyNeed(a, c) == Write(Mu)
            || (&& ApplyNext(sh.(active := other), a, c) == ApplyNext(sh, a, c)
                && ApplyNotice(sh.(active := other), a, c) == ApplyNotice(sh, a, c))
  {
    if a.at == InlineSyncs && a.sync.Some? {
      SyncNeedsTheLock(sh, a.sync.value, c, other);
    }
    hide SyncNext;
    hide SyncNotice;
    hide SyncNeed;
    hide Admissible;
    hide WatchesFor;
    hide FallbackDirs;
    hide Wanted;
  }

  /** ... and one that changes what it guards waits for all others to let go, or owns it. */
  lemma StateLockIsHeld(sh: Shared, th: Thread, c: Choice)
    ensures Effect(sh, th, c).active != sh.active || NoticeAfter(sh, th, c).flagged != sh.notice.flagged ==>
              NeedOf(th, c) == Write(Mu) || GripOf(th, Mu) == Owns
  {
    hide SetFallback;
    hide WatchesFor;
    hide Wanted;
    hide FallbackDirs;
    hide Find;
  }

  /** A query is only made under the generation that is active when it begins, with that generation's key. */
  lemma QueriesAreCurrent(s: State, t: nat, c: Choice)
    requires Inv(s) && Enabled(s, Step(t, c)) && SyncOf(s.threads[t]).Some?
    ensures var y := SyncOf(Next(s.sh, s.threads[t], c));
            y.Some? && y.value.at == AtFetch ==>
              && y.value.gen == s.sh.active.gen && Find(s.sh.active.cfg, y.value.name) == Some(y.value.entry)
              && y.value.key == Key(s.sh.active.secrets, y.value.name) && y.value.locked
  {
    var th := s.threads[t];
    assert ThreadOk(s.sh, th);
    hide Inv;
    hide Enabled;
    hide SyncOk;
    hide SyncNext;
    hide ApplyOk;
    hide ApplyNext;
    if th.Applying? {
      InlineSyncMoves(s.sh, th.a, c);
    }
    QueryIsCurrent(s.sh, SyncOf(th).value, c);
  }

  lemma InlineSyncMoves(sh: Shared, a: ApplyRun, c: Choice)
    requires ApplyOk(sh, a) && a.sync.Some?
    ensures SyncOk(sh, a.sync.value)
    ensures var y := SyncNext(sh, a.sync.value, c);
            ApplyNext(sh, a, c).sync == if y.at == Ended then None else Some(y)
  {
    assert a.at == InlineSyncs && InlineOk(sh, a);
    hide ApplyOk;
    hide SyncOk;
    hide SyncNext;
  }

  lemma OneWayToTheQuery(sh: Shared, y: SyncRun, c: Choice)
    requires SyncNext(sh, y, c).at == AtFetch
    ensures y.at == AtFetchEnter && !Stale(sh, y)
  {
    hide Stale;
    hide Find;
    hide Fits;
  }

  lemma QueryIsCurrent(sh: Shared, y: SyncRun, c: Choice)
    requires SyncOk(sh, y)
    ensures var y1 := SyncNext(sh, y, c);
            y1.at == AtFetch ==>
            && y1.gen == sh.active.gen && Find(sh.active.cfg, y1.name) == Some(y1.entry)
            && y1.key == Key(sh.active.secrets, y1.name) && y1.locked
  {
    if SyncNext(sh, y, c).at == AtFetch {
      OneWayToTheQuery(sh, y, c);
    } else {
      hide SyncNext;
    }
  }

  // ---------------------------------------------------------------- faults

  /** The points at which an apply can still be refused. */
  predicate CanBeRefused(at: ApplyPc) {
    || at == AtSnapshot || at == AtLoadRuntime || at == AtReadGen || at == Starting
    || at == Reconciling || at == SavingConfig || at == MarkingPending
  }

  /** As long as that thread stays in the run, it never comes to activate. */
  ghost predicate NeverActivates(s: State, events: seq<Event>, t: nat)
    requires IsRun(s, events)
    decreases |events|
  {
    && (t in s.threads ==> !ActivatingStep(s.threads[t]))
    && (events != [] && t in After(s, events[0]).threads ==> NeverActivates(After(s, events[0]), events[1..], t))
  }

  lemma RefusalLeadsAway(sh: Shared, a: ApplyRun, c: Choice)
    requires (CanBeRefused(a.at) && !c.ok) || !Upward(a.at)
    ensures !Upward(ApplyNext(sh, a, c).at)
  {
    hide EnabledNames;
    if a.at == StoppingOld || a.at == StoppingNew {
      StoppingLeadsAway(sh, a, c);
      hide ApplyNext;
    } else {
      hide StopNext;
      hide Admissible;
      hide WatchesFor;
      hide DirsOfBoth;
      hide SyncNext;
    }
  }

  lemma StoppingLeadsAway(sh: Shared, a: ApplyRun, c: Choice)
    requires a.at == StoppingOld || a.at == StoppingNew
    ensures !Upward(ApplyNext(sh, a, c).at)
  {
    hide EnabledNames;
  }

  lemma {:induction false} NoWayBack(s: State, events: seq<Event>, t: nat)
    requires IsRun(s, events) && t in s.threads && s.threads[t].Applying? && !Upward(s.threads[t].a.at)
    ensures NeverActivates(s, events, t)
    decreases |events|
  {
    if events != [] && t in After(s, events[0]).threads {
      StaysAway(s, events[0], t);
      hide After;
      hide Enabled;
      NoWayBack(After(s, events[0]), events[1..], t);
    }
  }

  lemma StaysAway(s: State, e: Event, t: nat)
    requires Enabled(s, e) && t in s.threads && s.threads[t].Applying? && t in After(s, e).threads
    requires !Upward(s.threads[t].a.at) || (e.Step? && e.t == t && CanBeRefused(s.threads[t].a.at) && !e.c.ok)
    ensures After(s, e).threads[t].Applying? && !Upward(After(s, e).threads[t].a.at)
  {
    hide ApplyNext;
    hide Effect;
    hide NoticeAfter;
    hide NeedOf;
    hide SensibleChoice;
    hide Unblocked;
    hide Spawnable;
    hide Upward;
    if e.Step? && e.t == t {
      RefusalLeadsAway(s.sh, s.threads[t].a, e.c);
    }
  }

  /** An apply to which any call is refused before its activation never activates, in any run. */
  lemma ARefusedApplyNeverActivates(s: State, t: nat, c: Choice, events: seq<Event>)
    requires Enabled(s, Step(t, c)) && s.threads[t].Applying? && CanBeRefused(s.threads[t].a.at) && !c.ok
    requires IsRun(After(s, Step(t, c)), events) && t in After(s, Step(t, c)).threads
    ensures NeverActivates(After(s, Step(t, c)), events, t)
  {
    StaysAway(s, Step(t, c), t);
    hide After;
    hide Enabled;
    NoWayBack(After(s, Step(t, c)), events, t);
  }

  // ---------------------------------------------------------------- a publication can happen

  /** The publication of that entry under that configuration. */
  function PublicationOf(now: Active, e: Entry): Mark {
    Published(e.name, now.gen, e, if Remote(e) then Key(now.secrets, e.name) else None)
  }

  lemma ApproachesPublication(sh: Shared, y: SyncRun, e: Entry)
    requires OnTheWay(sh, y, e) && ToGo(y.at) > 2
    ensures SyncEffect(sh, y, Smooth) == sh && 2 <= ToGo(SyncNext(sh, y, Smooth).at)
  {
    hide Find;
    hide Fits;
    hide Dir;
  }

  lemma ReachesPublication(sh: Shared, y: SyncRun, e: Entry)
    requires OnTheWay(sh, y, e) && ToGo(y.at) == 2
    ensures SyncEffect(sh, y, Smooth).history == sh.history + [PublicationOf(sh.active, e)]
    ensures SyncEffect(sh, y, Smooth).active == sh.active
  {
  }

  lemma {:induction false} PublishesAlone(s: State, t: nat, y: SyncRun, e: Entry) returns (events: seq<Event>)
    requires s.threads == map[t := Syncing(y)] && OnTheWay(s.sh, y, e) && ToGo(y.at) >= 2
    ensures IsRun(s, events)
    ensures Outcome(s, events).sh.history == s.sh.history + [PublicationOf(s.sh.active, e)]
    ensures Outcome(s, events).sh.active == s.sh.active
    decreases ToGo(y.at)
  {
    var step := Step(t, Smooth);
    Alone(s, t, Syncing(y), Smooth);
    var s1 := After(s, step);
    assert s1.sh == SyncEffect(s.sh, y, Smooth).(notice := SyncNotice(s.sh, y, Smooth));
    hide SyncNotice;
    hide Fits;
    hide Find;
    hide Enabled;
    if ToGo(y.at) == 2 {
      ReachesPublication(s.sh, y, e);
      assert IsRun(s1, []) && Outcome(s1, []) == s1;
      Prepend(s, step, []);
      events := [step] + [];
    } else {
      OnTheWayMoves(s.sh, y, e);
      ApproachesPublication(s.sh, y, e);
      hide OnTheWay;
      hide ToGo;
      hide SyncEffect;
      assert s1.threads == map[t := Syncing(SyncNext(s.sh, y, Smooth))];
      var rest := PublishesAlone(s1, t, SyncNext(s.sh, y, Smooth), e);
      Prepend(s, step, rest);
      events := [step] + rest;
    }
  }

  /** From every quiet state a request by hand can publish any active entry. */
  lemma AnEntryCanBePublished(s: State, e: Entry) returns (events: seq<Event>)
    requires Inv(s) && s.threads == map[] && e in s.sh.active.cfg
    ensures IsRun(s, events)
    ensures Outcome(s, events).sh.history == s.sh.history + [PublicationOf(s.sh.active, e)]
    ensures Outcome(s, events).sh.active == s.sh.active
  {
    var arrive := Spawn(0, Syncing(StartSync(e.name, 0, ByHand)));
    FindIsUnique(s.sh.active.cfg, e);
    assert Credentialed(e, s.sh.active.secrets);
    var rest := PublishesAlone(After(s, arrive), 0, StartSync(e.name, 0, ByHand), e);
    Prepend(s, arrive, rest);
    events := [arrive] + rest;
  }

  // ---------------------------------------------------------------- watchers

  /**
    Between applies the entries with a live watcher are exactly the enabled ones
    that sync by themselves, and no entry has two.
   */
  lemma AutoEntriesAreWatched(s: State, e: Entry)
    requires Reachable(s) && NoOwner(s.threads, ApplyMu) && e in s.sh.active.cfg
    ensures e.enabled && e.sync.autoSync <==> exists w :: w in s.sh.live && w.name == e.name
    ensures forall v, w | v in s.sh.live && w in s.sh.live && v.name == e.name == w.name :: v == w
  {
    ReachableInv(s);
    NoWatcherIsLeftBehind(s);
    FindIsUnique(s.sh.active.cfg, e);
    assert Serves(s.sh.active.watches, s.sh.active.cfg);
    assert e.enabled && e.sync.autoSync <==> Watched(s.sh.active.cfg, e.name);
  }

  /** A callback of that watcher, alone in the manager, publishes the entry. */
  lemma CallbackPublishes(s: State, e: Entry, w: Watch) returns (events: seq<Event>)
    requires Inv(s) && s.threads == map[] && e in s.sh.active.cfg
    requires w in s.sh.live && w.name == e.name && w.gen == s.sh.active.gen
    ensures events != [] && events[0] == Spawn(0, Syncing(StartSync(w.name, w.gen, ByWatcher(w))))
    ensures IsRun(s, events)
    ensures Outcome(s, events).sh.history == s.sh.history + [PublicationOf(s.sh.active, e)]
  {
    FindIsUnique(s.sh.active.cfg, e);
    assert Credentialed(e, s.sh.active.secrets);
    hide Inv;
    var arrive := Spawn(0, Syncing(StartSync(w.name, w.gen, ByWatcher(w))));
    var rest := PublishesAlone(After(s, arrive), 0, StartSync(w.name, w.gen, ByWatcher(w)), e);
    Prepend(s, arrive, rest);
    events := [arrive] + rest;
  }

  /** The watcher of such an entry can publish it, from every quiet state that is reachable. */
  lemma AWatcherCanPublish(s: State, e: Entry) returns (w: Watch, events: seq<Event>)
    requires Reachable(s) && s.threads == map[] && e in s.sh.active.cfg && e.enabled && e.sync.autoSync
    ensures w in s.sh.live && w.name == e.name
    ensures events != [] && events[0] == Spawn(0, Syncing(StartSync(w.name, w.gen, ByWatcher(w))))
    ensures IsRun(s, events)
    ensures Outcome(s, events).sh.history == s.sh.history + [PublicationOf(s.sh.active, e)]
  {
    ReachableInv(s);
    AutoEntriesAreWatched(s, e);
    NoWatcherIsLeftBehind(s);
    w :| w in s.sh.live && w.name == e.name;
    events := CallbackPublishes(s, e, w);
  }

  // ---------------------------------------------------------------- inline syncs

  /** That thread is an apply in the middle of its own sync of that name, under that generation. */
  predicate SyncsInline(s: State, t: nat, name: string, gen: nat) {
    && t in s.threads && s.threads[t].Applying? && s.threads[t].a.sync.Some?
    && var y := s.threads[t].a.sync.value;
       y.name == name && y.gen == gen && y.origin == ByApply
  }

  /** At some moment of the run it is. */
  ghost predicate ComesToSync(s: State, events: seq<Event>, t: nat, name: string, gen: nat)
    requires IsRun(s, events)
    decreases |events|
  {
    SyncsInline(s, t, name, gen)
    || (events != [] && ComesToSync(After(s, events[0]), events[1..], t, name, gen))
  }

  /** The apply has activated, and its sync of that name is still to come. */
  predicate StillToSync(a: ApplyRun, name: string, gen: nat) {
    && a.gen == gen
    && match a.at
       case AtRelease => name in EnabledNames(a.candidate)
       case StoppingOld => name in EnabledNames(a.candidate)
       case InlineSyncs => name in a.names
       case _ => false
  }

  lemma OwnStepComesCloser(sh: Shared, a: ApplyRun, c: Choice, name: string, gen: nat)
    requires ApplyOk(sh, a) && StillToSync(a, name, gen)
    ensures var a1 := ApplyNext(sh, a, c);
            || StillToSync(a1, name, gen)
            || (a1.at == InlineSyncs && a1.sync == Some(StartSync(name, gen, ByApply)))
  {
    hide ApplyOk;
    hide SyncNext;
    hide EnabledNames;
  }

  lemma StepComesCloser(s: State, e: Event, t: nat, name: string, gen: nat)
    requires Inv(s) && Enabled(s, e)
    requires t in s.threads && s.threads[t].Applying? && StillToSync(s.threads[t].a, name, gen)
    ensures var s1 := After(s, e);
            && t in s1.threads && s1.threads[t].Applying?
            && (StillToSync(s1.threads[t].a, name, gen) || SyncsInline(s1, t, name, gen))
  {
    hide Spawnable;
    assert ThreadOk(s.sh, s.threads[t]);
    hide Inv;
    hide ApplyOk;
    hide ApplyNext;
    hide StillToSync;
    hide Effect;
    hide NoticeAfter;
    hide NeedOf;
    hide SensibleChoice;
    hide Unblocked;
    if e.Step? && e.t == t {
      OwnStepComesCloser(s.sh, s.threads[t].a, e.c, name, gen);
      StillInline(ApplyNext(s.sh, s.threads[t].a, e.c), name, gen);
    }
  }

  lemma StillInline(a: ApplyRun, name: string, gen: nat)
    ensures StillToSync(a, name, gen) ==> a.at != Over
  {
  }

  lemma {:induction false} NoneIsPassedOver(s: State, events: seq<Event>, t: nat, name: string, gen: nat)
    requires Inv(s) && IsRun(s, events)
    requires t in s.threads && s.threads[t].Applying? && StillToSync(s.threads[t].a, name, gen)
    requires t !in Outcome(s, events).threads
    ensures ComesToSync(s, events, t, name, gen)
    decreases |events|
  {
    if events != [] {
      var s1 := After(s, events[0]);
      StepKeepsInv(s, events[0]);
      StepComesCloser(s, events[0], t, name, gen);
      hide Inv;
      hide Enabled;
      hide After;
      hide StillToSync;
      if !SyncsInline(s1, t, name, gen) {
        NoneIsPassedOver(s1, events[1..], t, name, gen);
      }
    }
  }

  lemma ActivationHasItsSyncsToCome(s: State, t: nat, c: Choice, e: Entry)
    requires Inv(s) && Enabled(s, Step(t, c)) && ActivatingStep(s.threads[t])
    requires e in s.threads[t].a.candidate && e.enabled
    ensures var s1 := After(s, Step(t, c));
            && t in s1.threads && s1.threads[t].Applying?
            && StillToSync(s1.threads[t].a, e.name, s1.sh.active.gen)
  {
    ActivatingLeaves(s.sh, s.threads[t].a, c, e);
    hide Inv;
    hide ApplyNext;
    hide ApplyEffect;
    hide NoticeAfter;
    hide NeedOf;
    hide SensibleChoice;
    hide StillToSync;
    hide Unblocked;
  }

  lemma ActivatingLeaves(sh: Shared, a: ApplyRun, c: Choice, e: Entry)
    requires a.at == AtActivateEnter && e in a.candidate && e.enabled
    ensures StillToSync(ApplyNext(sh, a, c), e.name, ApplyEffect(sh, a, c).active.gen)
    ensures ApplyNext(sh, a, c).at == AtRelease
  {
    assert e.name in EnabledNames(a.candidate);
    hide EnabledNames;
  }

  /** An apply that is over has synced every enabled entry of what it activated, under the generation it took. */
  lemma EveryEnabledEntryIsSynced(s: State, t: nat, c: Choice, events: seq<Event>, e: Entry)
    requires Inv(s) && Enabled(s, Step(t, c)) && ActivatingStep(s.threads[t])
    requires IsRun(After(s, Step(t, c)), events) && t !in Outcome(After(s, Step(t, c)), events).threads
    requires e in s.threads[t].a.candidate && e.enabled
    ensures ComesToSync(After(s, Step(t, c)), events, t, e.name, After(s, Step(t, c)).sh.active.gen)
  {
    var s1 := After(s, Step(t, c));
    StepKeepsInv(s, Step(t, c));
    ActivationHasItsSyncsToCome(s, t, c, e);
    hide Inv;
    hide Enabled;
    hide After;
    hide StillToSync;
    hide ActivatingStep;
    NoneIsPassedOver(s1, events, t, e.name, s1.sh.active.gen);
  }
}
