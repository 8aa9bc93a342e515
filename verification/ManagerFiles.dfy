/**
  The fallback files under their lock: which steps touch them, and that an
  apply marks for a restart just what it has changed.
 */
module ManagerFiles {
  import opened Options
  import opened ConfigRules
  import opened Secrets
  import opened ManagerState
  import opened ManagerThreads
  import opened ManagerInvariant
  import opened ManagerRuns
  import opened ManagerNotices
  import opened ManagerTheorems

  // ---------------------------------------------------------------- who touches the files

  /**
    A step changes at most one fallback file: the one whose own lock it takes,
    with the fallback lock in hand, and only where the environment let it write.
   */
  lemma WhatTouchesTheFiles(s: State, t: nat, c: Choice)
    requires Inv(s) && Enabled(s, Step(t, c)) && After(s, Step(t, c)).sh.fallback != s.sh.fallback
    ensures GripOf(s.threads[t], FbApply) != No && (c.ok || c.written)
    ensures var need := NeedOf(s.threads[t], c);
            && need.Write? && need.lock.FbFile?
            && forall d | d != need.lock.dir ::
                 FallbackAt(After(s, Step(t, c)).sh.fallback, d) == FallbackAt(s.sh.fallback, d)
  {
    assert ThreadOk(s.sh, s.threads[t]);
    hide Inv;
    hide Enabled;
    hide ThreadOk;
    hide Effect;
    hide NoticeAfter;
    hide Next;
    hide Finished;
    OneFileAtATime(s.sh, s.threads[t], c);
  }

  lemma OneFileAtATime(sh: Shared, th: Thread, c: Choice)
    requires ThreadOk(sh, th)
    ensures var sh1, need := Effect(sh, th, c), NeedOf(th, c);
            sh1.fallback != sh.fallback ==>
              && GripOf(th, FbApply) != No && (c.ok || c.written) && need.Write? && need.lock.FbFile?
              && forall d | d != need.lock.dir :: FallbackAt(sh1.fallback, d) == FallbackAt(sh.fallback, d)
  {
    hide SyncOk;
    hide ApplyOk;
    hide SyncEffect;
    hide ApplyEffect;
    hide SyncGrip;
    hide ApplyGrip;
    hide SyncNeed;
    hide ApplyNeed;
    hide FallbackAt;
    match th
    case Syncing(y) => SyncTouchesOne(sh, y, c);
    case Applying(a) => ApplyTouchesOne(sh, a, c);
    case Visiting(_, _) =>
    case Acknowledging(_) =>
  }

  lemma SyncTouchesOne(sh: Shared, y: SyncRun, c: Choice)
    requires SyncOk(sh, y)
    ensures SyncEffect(sh, y, c).fallback != sh.fallback ==>
              SyncGrip(y, FbApply) == Shares && c.written && SyncNeed(y) == Write(FbFile(y.dir))
    ensures forall d | d != y.dir :: FallbackAt(SyncEffect(sh, y, c).fallback, d) == FallbackAt(sh.fallback, d)
  {
  }

  lemma ApplyTouchesOne(sh: Shared, a: ApplyRun, c: Choice)
    requires ApplyOk(sh, a)
    ensures var need := ApplyNeed(a, c);
            ApplyEffect(sh, a, c).fallback != sh.fallback ==>
            && ApplyGrip(a, FbApply) != No && (c.ok || c.written) && need.Write? && need.lock.FbFile?
            && forall d | d != need.lock.dir ::
                 FallbackAt(ApplyEffect(sh, a, c).fallback, d) == FallbackAt(sh.fallback, d)
  {
    if a.at == InlineSyncs && a.sync.Some? {
      assert SyncOk(sh, a.sync.value);
      hide ApplyOk;
      hide SyncOk;
      SyncTouchesOne(sh, a.sync.value, c);
      hide SyncEffect;
      hide SyncNeed;
      hide SyncGrip;
    } else {
      assert a.sync == None;
      hide ApplyOk;
      OwnTouchIsOne(sh, a, c);
      hide ApplyEffect;
      hide ApplyNeed;
    }
  }

  lemma OwnTouchIsOne(sh: Shared, a: ApplyRun, c: Choice)
    requires a.sync == None
    ensures ApplyEffect(sh, a, c).fallback != sh.fallback ==>
              && HoldsFbApply(a.at) && (c.ok || c.written) && ApplyNeed(a, c) == Write(FbFile(c.dir))
              && forall d | d != c.dir :: FallbackAt(ApplyEffect(sh, a, c).fallback, d) == FallbackAt(sh.fallback, d)
  {
    if a.at != Reconciling && a.at != RollingBack {
      hide FallbackAt;
    }
    hide WatchesFor;
    hide Wanted;
    hide SyncEffect;
    hide SyncNeed;
  }

  // ---------------------------------------------------------------- what an apply marks

  /** From the fallback lock to the activation. */
  predicate Marking(at: ApplyPc) {
    at == Reconciling || at == SavingConfig || at == MarkingPending || Looking(at)
  }

  /** Every directory whose file is not what it was when the apply took the lock is on its list, and no foreign one. */
  ghost predicate TouchedOk(sh: Shared, a: ApplyRun) {
    Marking(a.at) ==>
      && sh.notice.touched <= a.dirs
      && forall d :: FallbackAt(sh.fallback, d) != FallbackAt(a.was, d) ==> d in sh.notice.touched
  }

  lemma OthersTouchNothing(sh: Shared, th: Thread, c: Choice, a: ApplyRun)
    requires ThreadOk(sh, th) && TouchedOk(sh, a)
    requires Compatible(th, Applying(a), FbApply) && Compatible(th, Applying(a), ApplyMu)
    ensures TouchedOk(SharedAfter(sh, th, c), a)
  {
    if Marking(a.at) {
      assert ApplyGrip(a, FbApply) == Owns && ApplyGrip(a, ApplyMu) == Owns;
      MarksUnderTheLock(sh, th, c);
      OneFileAtATime(sh, th, c);
    }
    hide ThreadOk;
    hide Effect;
    hide NoticeAfter;
    hide FallbackAt;
  }

  lemma ReconcilingMarks(sh: Shared, a: ApplyRun, c: Choice)
    requires a.at == Reconciling && a.left <= a.dirs && TouchedOk(sh, a) && Sensible(a, c)
    ensures TouchedOk(SharedAfter(sh, Applying(a), c), ApplyNext(sh, a, c))
  {
    hide Wanted;
    hide FallbackDirs;
  }

  lemma LockingMarksNothing(sh: Shared, a: ApplyRun, c: Choice)
    requires a.at == AtReconcileEnter
    ensures TouchedOk(SharedAfter(sh, Applying(a), c), ApplyNext(sh, a, c))
  {
    hide DirsOfBoth;
    hide FallbackDirs;
  }

  lemma ListIsKept(sh: Shared, a: ApplyRun, c: Choice)
    requires a.at != Reconciling && a.at != AtReconcileEnter && TouchedOk(sh, a)
    ensures TouchedOk(SharedAfter(sh, Applying(a), c), ApplyNext(sh, a, c))
  {
    var sh1, a1 := SharedAfter(sh, Applying(a), c), ApplyNext(sh, a, c);
    ListGoesOn(sh, a, c);
    if Marking(a1.at) {
      TouchesNothing(sh, a, c);
    }
    hide FallbackAt;
    hide ApplyNext;
    hide ApplyNotice;
    hide ApplyEffect;
  }

  lemma ListGoesOn(sh: Shared, a: ApplyRun, c: Choice)
    requires a.at != Reconciling && a.at != AtReconcileEnter
    ensures var a1 := ApplyNext(sh, a, c); Marking(a1.at) ==> Marking(a.at) && a1.was == a.was && a1.dirs == a.dirs
  {
    hide Admissible;
    hide WatchesFor;
    hide SyncNext;
    hide EnabledNames;
  }

  lemma TouchesNothing(sh: Shared, a: ApplyRun, c: Choice)
    requires Marking(a.at) && a.at != Reconciling
    ensures ApplyEffect(sh, a, c).fallback == sh.fallback && ApplyNotice(sh, a, c).touched == sh.notice.touched
  {
    hide FallbackDirs;
  }

  lemma OwnStepMarks(sh: Shared, a: ApplyRun, c: Choice)
    requires ApplyOk(sh, a) && TouchedOk(sh, a) && Sensible(a, c)
    ensures TouchedOk(SharedAfter(sh, Applying(a), c), ApplyNext(sh, a, c))
  {
    assert a.at == Reconciling ==> a.left <= a.dirs;
    hide ApplyOk;
    hide TouchedOk;
    hide SharedAfter;
    hide ApplyNext;
    hide Sensible;
    if a.at == Reconciling {
      ReconcilingMarks(sh, a, c);
    } else if a.at == AtReconcileEnter {
      LockingMarksNothing(sh, a, c);
    } else {
      ListIsKept(sh, a, c);
    }
  }

  /** A directory only comes onto the list when its file has been written, or differs, by that step. */
  lemma OnlyWrittenDirectoriesAreListed(s: State, t: nat, c: Choice, d: string)
    requires Inv(s) && Enabled(s, Step(t, c))
    requires d in After(s, Step(t, c)).sh.notice.touched && d !in s.sh.notice.touched
    ensures NeedOf(s.threads[t], c) == Write(FbFile(d)) && c.ok
    ensures c.written || FallbackAt(After(s, Step(t, c)).sh.fallback, d) != FallbackAt(s.sh.fallback, d)
  {
    assert ThreadOk(s.sh, s.threads[t]);
    hide Inv;
    hide Enabled;
    hide ThreadOk;
    hide Effect;
    hide NoticeAfter;
    hide NeedOf;
    hide Next;
    hide Finished;
    ListedWhenWritten(s.sh, s.threads[t], c, d);
  }

  lemma ListedWhenWritten(sh: Shared, th: Thread, c: Choice, d: string)
    requires ThreadOk(sh, th) && d in NoticeAfter(sh, th, c).touched && d !in sh.notice.touched
    ensures NeedOf(th, c) == Write(FbFile(d)) && c.ok
    ensures c.written || FallbackAt(Effect(sh, th, c).fallback, d) != FallbackAt(sh.fallback, d)
  {
    hide ThreadOk;
    hide FallbackDirs;
    hide Wanted;
    hide Find;
  }

  /** The record of that directory is being written: by a sync that wrote its file, or by an apply that lists it. */
  predicate Recording(sh: Shared, th: Thread, d: string) {
    || (SyncOf(th).Some? && SyncOf(th).value.at == MarkPending && SyncOf(th).value.dir == d)
    || (th.Applying? && th.a.at == MarkingPending && d in sh.notice.touched)
  }

  /** A directory comes on record exactly by such a step that succeeds. */
  lemma WhatIsRecorded(s: State, t: nat, c: Choice, d: string)
    requires Inv(s) && Enabled(s, Step(t, c)) && d !in s.sh.notice.pending
    ensures d in After(s, Step(t, c)).sh.notice.pending <==> c.ok && Recording(s.sh, s.threads[t], d)
  {
    assert ThreadOk(s.sh, s.threads[t]);
    hide Inv;
    hide Enabled;
    hide ThreadOk;
    hide Effect;
    hide NoticeAfter;
    hide Next;
    hide Finished;
    hide Recording;
    RecordedExactly(s.sh, s.threads[t], c, d);
  }

  lemma RecordedExactly(sh: Shared, th: Thread, c: Choice, d: string)
    requires ThreadOk(sh, th) && d !in sh.notice.pending
    ensures d in NoticeAfter(sh, th, c).pending <==> c.ok && Recording(sh, th, d)
  {
    hide FallbackDirs;
    hide Find;
    hide SyncOk;
    hide FallbackAt;
    if th.Applying? {
      assert th.a.sync.Some? ==> th.a.at == InlineSyncs;
    }
    hide ThreadOk;
  }

  /** A sync that changes its fallback.json goes straight on to record it. */
  lemma WritersGoOnToRecord(s: State, t: nat, c: Choice)
    requires Inv(s) && Enabled(s, Step(t, c)) && SyncOf(s.threads[t]).Some?
    requires After(s, Step(t, c)).sh.fallback != s.sh.fallback
    ensures NeedOf(s.threads[t], c).Write? && NeedOf(s.threads[t], c).lock.FbFile?
    ensures Recording(s.sh, Next(s.sh, s.threads[t], c), NeedOf(s.threads[t], c).lock.dir)
  {
    assert ThreadOk(s.sh, s.threads[t]);
    hide Inv;
    hide Enabled;
    hide ThreadOk;
    hide Effect;
    hide NoticeAfter;
    hide Next;
    hide Finished;
    hide NeedOf;
    hide Recording;
    WriterGoesOn(s.sh, s.threads[t], c);
  }

  lemma WriterGoesOn(sh: Shared, th: Thread, c: Choice)
    requires ThreadOk(sh, th) && SyncOf(th).Some? && Effect(sh, th, c).fallback != sh.fallback
    ensures NeedOf(th, c).Write? && NeedOf(th, c).lock.FbFile?
    ensures Recording(sh, Next(sh, th, c), NeedOf(th, c).lock.dir)
  {
    hide SyncOk;
    if th.Applying? {
      assert th.a.at == InlineSyncs;
    }
    hide ApplyOk;
    hide SyncEffect;
    hide SyncNext;
    hide SyncNeed;
    WriterMarks(sh, SyncOf(th).value, c);
  }

  lemma WriterMarks(sh: Shared, y: SyncRun, c: Choice)
    ensures SyncEffect(sh, y, c).fallback != sh.fallback ==>
              && SyncNeed(y) == Write(FbFile(y.dir))
              && SyncNext(sh, y, c).at == MarkPending && SyncNext(sh, y, c).dir == y.dir
  {
    hide Stale;
    hide Find;
    hide Fits;
  }

  ghost predicate MarksOk(s: State) {
    forall t | t in s.threads && s.threads[t].Applying? :: TouchedOk(s.sh, s.threads[t].a)
  }

  lemma StepKeepsTouchedOf(s: State, t: nat, c: Choice, u: nat)
    requires Inv(s) && MarksOk(s) && Enabled(s, Step(t, c))
    requires u in After(s, Step(t, c)).threads && After(s, Step(t, c)).threads[u].Applying?
    ensures TouchedOk(After(s, Step(t, c)).sh, After(s, Step(t, c)).threads[u].a)
  {
    var th := s.threads[t];
    assert ThreadOk(s.sh, th);
    assert After(s, Step(t, c)).sh == SharedAfter(s.sh, th, c);
    assert u in s.threads && u != t ==>
        Compatible(th, s.threads[u], ApplyMu) && Compatible(th, s.threads[u], FbApply);
    hide Inv;
    hide ThreadOk;
    hide SharedAfter;
    hide Compatible;
    hide TouchedOk;
    hide Unblocked;
    hide Finished;
    hide NeedOf;
    hide Effect;
    hide NoticeAfter;
    if u == t {
      NextKind(s.sh, th, c);
      assert ApplyOk(s.sh, th.a);
      hide ApplyNext;
      hide Sensible;
      OwnStepMarks(s.sh, th.a, c);
    } else {
      hide Next;
      OthersTouchNothing(s.sh, th, c, s.threads[u].a);
    }
  }

  lemma EventKeepsMarks(s: State, e: Event)
    requires Inv(s) && MarksOk(s) && Enabled(s, e)
    ensures MarksOk(After(s, e))
  {
    hide Next;
    hide Effect;
    hide NoticeAfter;
    hide Finished;
    hide NeedOf;
    hide Unblocked;
    hide GripOf;
    if e.Spawn? {
      assert e.th.Applying? ==> TouchedOk(s.sh, e.th.a);
      hide TouchedOk;
    } else {
      hide TouchedOk;
      hide Enabled;
      hide Inv;
      forall u | u in After(s, e).threads && After(s, e).threads[u].Applying?
        ensures TouchedOk(After(s, e).sh, After(s, e).threads[u].a)
      {
        StepKeepsTouchedOf(s, e.t, e.c, u);
      }
    }
  }

  lemma {:induction false} RunKeepsMarks(s: State, events: seq<Event>)
    requires Inv(s) && MarksOk(s) && IsRun(s, events)
    ensures MarksOk(Outcome(s, events))
    decreases |events|
  {
    hide Inv;
    hide MarksOk;
    if events != [] {
      StepKeepsInv(s, events[0]);
      EventKeepsMarks(s, events[0]);
      RunKeepsMarks(After(s, events[0]), events[1..]);
    }
  }

  lemma ReachableMarks(s: State)
    requires Reachable(s)
    ensures MarksOk(s)
  {
    var start, events :| Initial(start) && IsRun(start, events) && Outcome(start, events) == s;
    InitialInv(start);
    assert MarksOk(start);
    RunKeepsMarks(start, events);
  }

  /**
    When an apply activates, every directory whose fallback.json is not what it
    was when the apply took the fallback lock is on record, unless a restart
    has been acknowledged in between.
   */
  lemma ChangesAreOnRecord(s: State, t: nat)
    requires Reachable(s) && t in s.threads && Activating(s.threads[t])
    ensures s.sh.notice.acked
            || forall d :: FallbackAt(s.sh.fallback, d) != FallbackAt(s.threads[t].a.was, d) ==>
                             d in s.sh.notice.pending
  {
    ReachableNotices(s);
    ReachableMarks(s);
    assert AheadOk(s.sh, s.threads[t].a) && TouchedOk(s.sh, s.threads[t].a);
  }

  /** What an apply puts on record is a directory of its own or of the configuration it replaces. */
  lemma OnlyItsDirectoriesAreMarked(s: State, t: nat, c: Choice)
    requires Reachable(s) && Enabled(s, Step(t, c)) && s.threads[t].Applying? && s.threads[t].a.at == MarkingPending
    ensures After(s, Step(t, c)).sh.notice.pending <=
            s.sh.notice.pending + DirsOfBoth(s.sh.policy, s.sh.active.cfg, s.threads[t].a.candidate)
  {
    ReachableInv(s);
    ReachableMarks(s);
    assert ThreadOk(s.sh, s.threads[t]) && TouchedOk(s.sh, s.threads[t].a);
    hide Inv;
    hide Enabled;
    hide DirsOfBoth;
    hide FallbackDirs;
  }
}
