/**
  The record of pending restarts and the flags shown beside the entries: an
  apply, a sync and an acknowledgement each bring the two together under
  different locks, so that one of them can get in between the steps of another.
 */
module ManagerNotices {
  import opened Options
  import opened ConfigRules
  import opened Secrets
  import opened ManagerState
  import opened ManagerThreads
  import opened ManagerInvariant
  import opened ManagerRuns

  // ---------------------------------------------------------------- what holds

  /** The flag of that directory's active entry says what the record says. */
  predicate Told(n: Notice, d: string) {
    d in n.flagged <==> d in n.pending
  }

  /** The account is true of that directory. */
  predicate Accounted(n: Notice, d: string) {
    Told(n, d) <==> d !in n.crossed
  }

  /** The sync may have marked its directory and is on its way to set the flag. */
  predicate SyncHoldsUp(sh: Shared, y: SyncRun, d: string) {
    && (y.at == AtLeave || y.at == AtRecordAnnounce || y.at == AtRecordEnter || y.at == RecordPending)
    && y.locked && y.dir == d && y.entry.fallback
    && y.gen == sh.active.gen && Find(sh.active.cfg, y.name) == Some(y.entry)
  }

  /** The apply has marked what it changed and has not activated its flags yet. */
  predicate Looking(at: ApplyPc) {
    at == ReadingPending || at == AtActivateAnnounce || at == AtActivateEnter
  }

  /** A thread between two steps that belong together: the flag of `d` is still to come. */
  predicate HoldsUp(sh: Shared, th: Thread, d: string) {
    match th
    case Syncing(y) => SyncHoldsUp(sh, y, d)
    case Applying(a) => Looking(a.at) || (a.sync.Some? && SyncHoldsUp(sh, a.sync.value, d))
    case Visiting(_, _) => false
    case Acknowledging(k) => k == AtClearAnnounce || k == AtClearEnter
  }

  ghost function Seen(sh: Shared, a: ApplyRun): set<string> {
    FallbackDirs(sh.policy, a.candidate) - if a.at == ReadingPending then a.left else {}
  }

  /**
    What an apply has flagged so far: the pending directories among those it
    has looked at, apart from those that did not resolve; unless the record
    has been emptied since.
   */
  ghost predicate AheadOk(sh: Shared, a: ApplyRun) {
    var n := sh.notice;
    Looking(a.at) ==>
      && n.ahead <= Seen(sh, a) && n.missed <= Seen(sh, a) && n.ahead !! n.missed
      && (if n.acked then n.pending == {}
          else n.touched <= n.pending && forall d | d in Seen(sh, a) :: d in n.pending <==> d in n.ahead + n.missed)
  }

  ghost predicate HeldUp(s: State, d: string) {
    exists t :: t in s.threads && HoldsUp(s.sh, s.threads[t], d)
  }

  ghost predicate NoticesOk(s: State) {
    && (forall t | t in s.threads && s.threads[t].Applying? :: AheadOk(s.sh, s.threads[t].a))
    && (forall d | d in FallbackDirs(s.sh.policy, s.sh.active.cfg) :: Accounted(s.sh.notice, d) || HeldUp(s, d))
  }

  // ---------------------------------------------------------------- what a step leaves alone

  ghost function SharedAfter(sh: Shared, th: Thread, c: Choice): Shared {
    Effect(sh, th, c).(notice := NoticeAfter(sh, th, c))
  }

  predicate Activating(th: Thread) {
    th.Applying? && th.a.at == AtActivateEnter
  }

  lemma EffectFrame(sh: Shared, th: Thread, c: Choice)
    ensures Effect(sh, th, c).policy == sh.policy
    ensures !Activating(th) ==> Effect(sh, th, c).active == sh.active
  {
    hide WatchesFor;
    hide Wanted;
    hide SetFallback;
    hide FallbackDirs;
  }

  // ---------------------------------------------------------------- what an apply has flagged so far

  /** Only a thread that holds the fallback lock marks directories. */
  lemma MarksUnderTheLock(sh: Shared, th: Thread, c: Choice)
    requires ThreadOk(sh, th) && GripOf(th, FbApply) == No && GripOf(th, ApplyMu) == No
    ensures var n := NoticeAfter(sh, th, c);
            && n.touched == sh.notice.touched && n.ahead == sh.notice.ahead && n.missed == sh.notice.missed
            && ((n.pending == sh.notice.pending && n.acked == sh.notice.acked) || (n.pending == {} && n.acked))
  {
    match th
    case Syncing(y) =>
      assert y.at == MarkPending ==> y.guarded;
      hide SyncOk;
      hide Stale;
      hide Find;
    case Applying(a) =>
      assert a.at != InlineSyncs;
      hide ApplyOk;
    case Visiting(_, _) =>
    case Acknowledging(_) =>
  }

  lemma AheadOfOther(sh: Shared, th: Thread, c: Choice, a: ApplyRun)
    requires ThreadOk(sh, th) && AheadOk(sh, a)
    requires Compatible(th, Applying(a), FbApply) && Compatible(th, Applying(a), ApplyMu)
    ensures AheadOk(SharedAfter(sh, th, c), a)
  {
    EffectFrame(sh, th, c);
    if Looking(a.at) {
      assert ApplyGrip(a, FbApply) == Owns && ApplyGrip(a, ApplyMu) == Owns;
      MarksUnderTheLock(sh, th, c);
    }
    hide ThreadOk;
    hide Effect;
    hide NoticeAfter;
    hide Compatible;
    hide FallbackDirs;
  }

  lemma LookingBegins(sh: Shared, a: ApplyRun, c: Choice)
    requires a.at == MarkingPending && FallbackDirs(sh.policy, a.candidate) <= a.dirs
    ensures AheadOk(sh.(notice := ApplyNotice(sh, a, c)), ApplyNext(sh, a, c))
  {
    hide FallbackDirs;
  }

  /** One more directory looked at, or the end of the loop. */
  lemma LookingGoesOn(sh: Shared, a: ApplyRun, c: Choice)
    requires a.at == ReadingPending && AheadOk(sh, a) && Sensible(a, c)
    ensures AheadOk(sh.(notice := ApplyNotice(sh, a, c)), ApplyNext(sh, a, c))
  {
    var n1, a1 := ApplyNotice(sh, a, c), ApplyNext(sh, a, c);
    hide FallbackDirs;
    var all := FallbackDirs(sh.policy, a.candidate);
    if a.left == {} {
      assert Seen(sh, a1) == Seen(sh, a);
    } else {
      assert Seen(sh, a1) == Seen(sh, a) + (if c.dir in all then {c.dir} else {});
      assert c.dir !in Seen(sh, a);
    }
  }

  lemma AheadOfItself(sh: Shared, a: ApplyRun, c: Choice)
    requires ApplyOk(sh, a) && AheadOk(sh, a) && Sensible(a, c)
    ensures AheadOk(SharedAfter(sh, Applying(a), c), ApplyNext(sh, a, c))
  {
    EffectFrame(sh, Applying(a), c);
    assert a.at == MarkingPending ==> FallbackDirs(sh.policy, a.candidate) <= a.dirs;
    hide Effect;
    hide ApplyOk;
    hide FallbackDirs;
    if a.at == MarkingPending {
      LookingBegins(sh, a, c);
    } else if a.at == ReadingPending {
      LookingGoesOn(sh, a, c);
    } else if a.at != AtActivateAnnounce {
      NotYetLooking(sh, a, c);
      hide ApplyNext;
    }
    hide Sensible;
    AheadElsewhere(sh.(notice := ApplyNotice(sh, a, c)), SharedAfter(sh, Applying(a), c), ApplyNext(sh, a, c));
  }

  lemma AheadElsewhere(sh: Shared, sh1: Shared, a: ApplyRun)
    requires sh1.notice == sh.notice && sh1.policy == sh.policy
    ensures AheadOk(sh, a) <==> AheadOk(sh1, a)
  {
    hide FallbackDirs;
  }

  lemma NotYetLooking(sh: Shared, a: ApplyRun, c: Choice)
    requires a.at != MarkingPending && a.at != ReadingPending && a.at != AtActivateAnnounce
    ensures !Looking(ApplyNext(sh, a, c).at)
  {
    hide Admissible;
    hide SyncNext;
  }

  // ---------------------------------------------------------------- the account, step by step

  /** An activation shows the record exactly, except for what was overtaken or missed. */
  lemma ActivationIsAccounted(sh: Shared, a: ApplyRun, c: Choice, d: string)
    requires a.at == AtActivateEnter && AheadOk(sh, a) && d in FallbackDirs(sh.policy, a.candidate)
    ensures Accounted(ApplyNotice(sh, a, c), d)
  {
    hide FallbackDirs;
  }

  /** A sync on its way to its flag gets there. */
  lemma SyncGetsThere(sh: Shared, y: SyncRun, c: Choice, d: string)
    requires SyncHoldsUp(sh, y, d)
    ensures Accounted(SyncNotice(sh, y, c), d) || SyncHoldsUp(sh, SyncNext(sh, y, c), d)
  {
    hide Fits;
    hide Find;
  }

  lemma SyncMarks(sh: Shared, y: SyncRun, c: Choice)
    requires SyncOk(sh, y) && y.at == MarkPending
    ensures SyncHoldsUp(sh, SyncNext(sh, y, c), y.dir)
  {
  }

  lemma SyncIsAccounted(sh: Shared, y: SyncRun, c: Choice, d: string)
    requires SyncOk(sh, y)
    requires Accounted(sh.notice, d) || SyncHoldsUp(sh, y, d)
    ensures Accounted(SyncNotice(sh, y, c), d) || SyncHoldsUp(sh, SyncNext(sh, y, c), d)
  {
    if SyncHoldsUp(sh, y, d) {
      SyncGetsThere(sh, y, c, d);
      hide SyncOk;
    } else if y.at == MarkPending {
      SyncMarks(sh, y, c);
      hide SyncOk;
    } else {
      hide SyncOk;
      hide SyncHoldsUp;
      hide SyncNext;
      hide Stale;
      hide Find;
      hide Dir;
    }
  }

  lemma ApplyIsAccounted(sh: Shared, a: ApplyRun, c: Choice, d: string)
    requires ApplyOk(sh, a) && a.at != AtActivateEnter
    requires Accounted(sh.notice, d) || HoldsUp(sh, Applying(a), d)
    ensures Accounted(ApplyNotice(sh, a, c), d) || HoldsUp(sh, Applying(ApplyNext(sh, a, c)), d)
  {
    if a.at == InlineSyncs && a.sync.Some? {
      assert SyncOk(sh, a.sync.value);
      hide ApplyOk;
      hide SyncOk;
      SyncIsAccounted(sh, a.sync.value, c, d);
      hide SyncNotice;
      hide SyncNext;
    } else {
      assert a.at != InlineSyncs ==> a.sync == None;
      hide ApplyOk;
      hide Admissible;
      hide SyncHoldsUp;
      hide FallbackDirs;
      hide Wanted;
    }
  }

  /** A step leaves the account true of a directory, or its own thread between two steps. */
  lemma StepIsAccounted(sh: Shared, th: Thread, c: Choice, d: string)
    requires ThreadOk(sh, th) && !Activating(th) && d in FallbackDirs(sh.policy, sh.active.cfg)
    requires Accounted(sh.notice, d) || HoldsUp(sh, th, d)
    ensures Accounted(NoticeAfter(sh, th, c), d) || HoldsUp(SharedAfter(sh, th, c), Next(sh, th, c), d)
  {
    EffectFrame(sh, th, c);
    hide Effect;
    hide SyncOk;
    hide ApplyOk;
    match th
    case Syncing(y) =>
      SyncIsAccounted(sh, y, c, d);
    case Applying(a) =>
      ApplyIsAccounted(sh, a, c, d);
    case Visiting(_, _) =>
    case Acknowledging(_) =>
  }

  lemma OtherHoldsUp(sh: Shared, th: Thread, c: Choice, u: Thread, d: string)
    requires HoldsUp(sh, u, d) && !Activating(th)
    ensures HoldsUp(SharedAfter(sh, th, c), u, d)
  {
    EffectFrame(sh, th, c);
    hide Effect;
    hide NoticeAfter;
  }

  lemma FinishedHoldsNothingUp(sh: Shared, th: Thread, d: string)
    requires Finished(th) && ThreadOk(sh, th)
    ensures !HoldsUp(sh, th, d)
  {
  }

  // ---------------------------------------------------------------- every run

  lemma ArrivalKeepsNotices(s: State, t: nat, th: Thread)
    requires NoticesOk(s) && Enabled(s, Spawn(t, th))
    ensures NoticesOk(After(s, Spawn(t, th)))
  {
    var s1 := After(s, Spawn(t, th));
    assert th.Applying? ==> AheadOk(s.sh, th.a);
    assert forall u | u in s.threads :: u in s1.threads && s1.threads[u] == s.threads[u];
    hide AheadOk;
    hide Accounted;
    hide HoldsUp;
    hide FallbackDirs;
    forall d | HeldUp(s, d)
      ensures HeldUp(s1, d)
    {
      var u :| u in s.threads && HoldsUp(s.sh, s.threads[u], d);
      assert HoldsUp(s1.sh, s1.threads[u], d);
    }
  }

  /** A step keeps what any apply has flagged so far, its own included. */
  lemma StepKeepsAheadOf(sh: Shared, th: Thread, c: Choice, u: Thread)
    requires ThreadOk(sh, th) && u.Applying? && AheadOk(sh, u.a)
    requires Compatible(th, u, ApplyMu) && Compatible(th, u, FbApply)
    ensures AheadOk(SharedAfter(sh, th, c), u.a)
  {
    hide ThreadOk;
    hide Compatible;
    hide SharedAfter;
    hide AheadOk;
    AheadOfOther(sh, th, c, u.a);
  }

  lemma StepKeepsOwnAhead(sh: Shared, th: Thread, c: Choice)
    requires ThreadOk(sh, th) && SensibleChoice(th, c) && th.Applying? && AheadOk(sh, th.a)
    ensures Next(sh, th, c).Applying? && AheadOk(SharedAfter(sh, th, c), Next(sh, th, c).a)
  {
    hide ApplyOk;
    hide AheadOk;
    hide SharedAfter;
    hide ApplyNext;
    hide Sensible;
    AheadOfItself(sh, th.a, c);
  }

  lemma NextKind(sh: Shared, th: Thread, c: Choice)
    ensures Next(sh, th, c).Applying? <==> th.Applying?
  {
  }

  lemma StepKeepsAhead(s: State, t: nat, c: Choice)
    requires Inv(s) && NoticesOk(s) && Enabled(s, Step(t, c))
    ensures var s1 := After(s, Step(t, c));
            forall u | u in s1.threads && s1.threads[u].Applying? :: AheadOk(s1.sh, s1.threads[u].a)
  {
    var th, s1 := s.threads[t], After(s, Step(t, c));
    assert s1.sh == SharedAfter(s.sh, th, c);
    assert ThreadOk(s.sh, th);
    assert forall u | u in s.threads && u != t ::
        Compatible(th, s.threads[u], ApplyMu) && Compatible(th, s.threads[u], FbApply);
    hide Inv;
    hide Compatible;
    hide SharedAfter;
    hide AheadOk;
    hide HeldUp;
    hide Accounted;
    hide ThreadOk;
    hide Next;
    hide Unblocked;
    hide Finished;
    hide SensibleChoice;
    hide NeedOf;
    hide FallbackDirs;
    NextKind(s.sh, th, c);
    forall u | u in s1.threads && s1.threads[u].Applying?
      ensures AheadOk(s1.sh, s1.threads[u].a)
    {
      if u == t {
        StepKeepsOwnAhead(s.sh, th, c);
      } else {
        StepKeepsAheadOf(s.sh, th, c, s.threads[u]);
      }
    }
  }

  lemma StepKeepsAccount(s: State, t: nat, c: Choice, d: string)
    requires Inv(s) && Enabled(s, Step(t, c)) && !Activating(s.threads[t])
    requires d in FallbackDirs(s.sh.policy, s.sh.active.cfg)
    requires Accounted(s.sh.notice, d) || HeldUp(s, d)
    ensures var s1 := After(s, Step(t, c)); Accounted(s1.sh.notice, d) || HeldUp(s1, d)
  {
    var th, s1 := s.threads[t], After(s, Step(t, c));
    var next := Next(s.sh, th, c);
    assert s1.sh == SharedAfter(s.sh, th, c) && s1.sh.notice == NoticeAfter(s.sh, th, c);
    OwnThreadAfter(s, t, c);
    assert ThreadOk(s.sh, th);
    hide Inv;
    hide ThreadOk;
    hide SharedAfter;
    hide NoticeAfter;
    hide Next;
    hide Accounted;
    hide HoldsUp;
    hide Activating;
    hide Unblocked;
    hide Finished;
    hide SensibleChoice;
    hide FallbackDirs;
    if Accounted(s.sh.notice, d) || HoldsUp(s.sh, th, d) {
      StepIsAccounted(s.sh, th, c, d);
      if HoldsUp(s1.sh, next, d) {
        if Finished(next) {
          FinishedHoldsNothingUp(s1.sh, next, d);
        } else {
          assert t in s1.threads && s1.threads[t] == next;
        }
      }
    } else {
      var u :| u in s.threads && HoldsUp(s.sh, s.threads[u], d);
      OtherHoldsUp(s.sh, th, c, s.threads[u], d);
      assert u in s1.threads && s1.threads[u] == s.threads[u];
    }
  }

  lemma ActivationKeepsAccount(s: State, t: nat, c: Choice, d: string)
    requires NoticesOk(s) && Enabled(s, Step(t, c)) && Activating(s.threads[t])
    requires d in FallbackDirs(s.sh.policy, After(s, Step(t, c)).sh.active.cfg)
    ensures Accounted(After(s, Step(t, c)).sh.notice, d)
  {
    var a := s.threads[t].a;
    assert AheadOk(s.sh, a);
    EffectFrame(s.sh, s.threads[t], c);
    ActivatesItsCandidate(s.sh, a, c);
    hide Effect;
    hide AheadOk;
    hide FallbackDirs;
    ActivationIsAccounted(s.sh, a, c, d);
  }

  lemma ActivatesItsCandidate(sh: Shared, a: ApplyRun, c: Choice)
    requires a.at == AtActivateEnter
    ensures ApplyEffect(sh, a, c).active.cfg == a.candidate
  {
  }

  lemma StepKeepsAccounts(s: State, t: nat, c: Choice)
    requires Inv(s) && NoticesOk(s) && Enabled(s, Step(t, c))
    ensures var s1 := After(s, Step(t, c));
            forall d | d in FallbackDirs(s1.sh.policy, s1.sh.active.cfg) :: Accounted(s1.sh.notice, d) || HeldUp(s1, d)
  {
    var s1 := After(s, Step(t, c));
    EffectFrame(s.sh, s.threads[t], c);
    hide Inv;
    hide AheadOk;
    hide Accounted;
    hide HeldUp;
    hide FallbackDirs;
    hide Effect;
    hide NoticeAfter;
    hide Next;
    hide Unblocked;
    hide Activating;
    hide SensibleChoice;
    hide NeedOf;
    hide Finished;
    forall d | d in FallbackDirs(s1.sh.policy, s1.sh.active.cfg)
      ensures Accounted(s1.sh.notice, d) || HeldUp(s1, d)
    {
      if Activating(s.threads[t]) {
        ActivationKeepsAccount(s, t, c, d);
      } else {
        StepKeepsAccount(s, t, c, d);
      }
    }
  }

  lemma StepKeepsNotices(s: State, e: Event)
    requires Inv(s) && NoticesOk(s) && Enabled(s, e)
    ensures NoticesOk(After(s, e))
  {
    hide Inv;
    hide Enabled;
    hide After;
    hide AheadOk;
    hide Accounted;
    hide HeldUp;
    if e.Spawn? {
      ArrivalKeepsNotices(s, e.t, e.th);
    } else {
      StepKeepsAhead(s, e.t, e.c);
      StepKeepsAccounts(s, e.t, e.c);
    }
  }

  lemma {:induction false} RunKeepsNotices(s: State, events: seq<Event>)
    requires Inv(s) && NoticesOk(s) && IsRun(s, events)
    ensures Inv(Outcome(s, events)) && NoticesOk(Outcome(s, events))
    decreases |events|
  {
    hide Inv;
    hide NoticesOk;
    if events != [] {
      StepKeepsInv(s, events[0]);
      StepKeepsNotices(s, events[0]);
      RunKeepsNotices(After(s, events[0]), events[1..]);
    }
  }

  lemma ReachableNotices(s: State)
    requires Reachable(s)
    ensures Inv(s) && NoticesOk(s)
  {
    var start, events :| Initial(start) && IsRun(start, events) && Outcome(start, events) == s;
    InitialInv(start);
    assert NoticesOk(start);
    RunKeepsNotices(start, events);
  }

  // ---------------------------------------------------------------- theorems

  /**
    Wherever no thread is between two steps that belong together, and so in
    every quiet state, an active fallback entry is shown as pending a restart
    exactly when its directory is recorded, if and only if no step has set the
    two apart since they were last brought together.
   */
  lemma FlagsFollowTheRecordExactly(s: State, e: Entry)
    requires Reachable(s) && e in s.sh.active.cfg && e.fallback
    requires !HeldUp(s, Dir(s.sh.policy, e))
    ensures var d, n := Dir(s.sh.policy, e), s.sh.notice;
            (d in n.flagged <==> d in n.pending) <==> d !in n.crossed
  {
    ReachableNotices(s);
    assert Dir(s.sh.policy, e) in FallbackDirs(s.sh.policy, s.sh.active.cfg);
  }

  /** An acknowledgement that finds something to acknowledge. */
  predicate Empties(sh: Shared, th: Thread, c: Choice) {
    th.Acknowledging? && th.k == AtEmpty && sh.notice.pending != {} && c.ok
  }

  /** An activation shows a flag that was set before an acknowledgement emptied the record. */
  predicate Overtaken(sh: Shared, th: Thread, d: string) {
    Activating(th) && sh.notice.acked && d in sh.notice.ahead
  }

  /** An activation shows no flag for a pending directory that did not resolve while the apply looked. */
  predicate Missed(sh: Shared, th: Thread, d: string) {
    Activating(th) && !sh.notice.acked && d in sh.notice.missed
  }

  /** An acknowledgement clears the flag of a directory that was marked again after it had emptied the record. */
  ghost predicate MarkedAgain(sh: Shared, th: Thread, d: string) {
    && th.Acknowledging? && th.k == AtClearEnter
    && d in FallbackDirs(sh.policy, sh.active.cfg) && d in sh.notice.pending
  }

  /** A sync whose destination did not resolve clears the flag of a pending directory. */
  predicate Unresolved(sh: Shared, th: Thread, d: string) {
    var y := if th.Syncing? then Some(th.y) else if th.Applying? && th.a.at == InlineSyncs then th.a.sync else None;
    && y.Some? && y.value.at == AtRecordEnter && !y.value.locked && !Stale(sh, y.value)
    && var e := Find(sh.active.cfg, y.value.name).value; e.fallback && Dir(sh.policy, e) == d && d in sh.notice.pending
  }

  /** The four ways to set the flag of a directory apart from its record. */
  ghost predicate SetsApart(sh: Shared, th: Thread, d: string) {
    Overtaken(sh, th, d) || Missed(sh, th, d) || MarkedAgain(sh, th, d) || Unresolved(sh, th, d)
  }

  lemma SyncSetsApart(sh: Shared, y: SyncRun, c: Choice, d: string)
    requires d !in sh.notice.crossed
    ensures d in SyncNotice(sh, y, c).crossed <==> Unresolved(sh, Syncing(y), d)
    ensures SyncNotice(sh, y, c).acked == sh.notice.acked && sh.notice.pending <= SyncNotice(sh, y, c).pending
  {
    hide Find;
    hide Dir;
  }

  lemma NoticeSetsApart(sh: Shared, th: Thread, c: Choice, d: string)
    requires d !in sh.notice.crossed
    ensures d in NoticeAfter(sh, th, c).crossed <==> SetsApart(sh, th, d)
    ensures !sh.notice.acked ==> (NoticeAfter(sh, th, c).acked <==> Empties(sh, th, c))
    ensures !(sh.notice.pending <= NoticeAfter(sh, th, c).pending) ==> Empties(sh, th, c)
  {
    if th.Syncing? {
      SyncSetsApart(sh, th.y, c, d);
      hide SyncNotice;
    } else if th.Applying? && th.a.at == InlineSyncs && th.a.sync.Some? {
      SyncSetsApart(sh, th.a.sync.value, c, d);
      hide SyncNotice;
    }
    hide Stale;
    hide Find;
    hide FallbackDirs;
    hide Wanted;
    hide Dir;
  }

  /** Those four are all that sets a flag apart from the record, and only an acknowledgement ever empties it. */
  lemma WhatSetsThemApart(s: State, t: nat, c: Choice, d: string)
    requires Enabled(s, Step(t, c)) && d !in s.sh.notice.crossed
    ensures d in After(s, Step(t, c)).sh.notice.crossed <==> SetsApart(s.sh, s.threads[t], d)
    ensures !s.sh.notice.acked ==> (After(s, Step(t, c)).sh.notice.acked <==> Empties(s.sh, s.threads[t], c))
    ensures !(s.sh.notice.pending <= After(s, Step(t, c)).sh.notice.pending) ==> Empties(s.sh, s.threads[t], c)
  {
    hide Effect;
    hide NoticeAfter;
    hide SetsApart;
    hide Empties;
    hide Next;
    hide Unblocked;
    NoticeSetsApart(s.sh, s.threads[t], c, d);
  }

  lemma ActivationIsExact(sh: Shared, a: ApplyRun, c: Choice)
    requires a.at == AtActivateEnter && AheadOk(sh, a)
    ensures var n := ApplyNotice(sh, a, c);
            (forall d | d in FallbackDirs(sh.policy, a.candidate) :: d in n.flagged <==> d in n.pending)
            <==> if sh.notice.acked then sh.notice.ahead == {} else sh.notice.missed == {}
  {
    hide FallbackDirs;
    var apart := if sh.notice.acked then sh.notice.ahead else sh.notice.missed;
    assert apart <= FallbackDirs(sh.policy, a.candidate);
    forall d | d in FallbackDirs(sh.policy, a.candidate)
      ensures Told(ApplyNotice(sh, a, c), d) <==> d !in apart
    {
      ActivationIsAccounted(sh, a, c, d);
    }
    hide AheadOk;
    hide ApplyNotice;
  }

  /**
    An activation shows all of its configuration's flags rightly if and only
    if no acknowledgement came between a flag it had set and this step, or,
    with none at all, every pending directory resolved when it looked.
   */
  lemma ActivationShowsTheRecordExactly(s: State, t: nat, c: Choice)
    requires Reachable(s) && Enabled(s, Step(t, c)) && Activating(s.threads[t])
    ensures var sh1 := After(s, Step(t, c)).sh;
            (forall d | d in FallbackDirs(sh1.policy, sh1.active.cfg) ::
               d in sh1.notice.flagged <==> d in sh1.notice.pending)
            <==> if s.sh.notice.acked then s.sh.notice.ahead == {} else s.sh.notice.missed == {}
  {
    ReachableNotices(s);
    var a, sh1 := s.threads[t].a, After(s, Step(t, c)).sh;
    assert AheadOk(s.sh, a);
    hide Inv;
    hide NoticesOk;
    hide AheadOk;
    hide FallbackDirs;
    hide Unblocked;
    hide Next;
    EffectFrame(s.sh, s.threads[t], c);
    ActivatesItsCandidate(s.sh, a, c);
    ActivationIsExact(s.sh, a, c);
    assert sh1.notice == ApplyNotice(s.sh, a, c);
    hide ApplyNotice;
    hide ApplyEffect;
  }

  /** An acknowledgement goes on to clear the flags exactly when it has emptied a record; otherwise it is over. */
  lemma OnlyAnEmptiedRecordIsCleared(s: State, t: nat, c: Choice)
    requires Enabled(s, Step(t, c)) && s.threads[t] == Acknowledging(AtEmpty)
    ensures var s1 := After(s, Step(t, c));
            && (t in s1.threads <==> s.sh.notice.pending != {} && s1.sh.notice.pending == {})
            && (t in s1.threads ==> s1.threads[t] == Acknowledging(AtClearAnnounce))
            && (t !in s1.threads ==> s1.sh.notice == s.sh.notice)
  {
    hide FallbackDirs;
    assert s.threads[t].k == AtEmpty;
  }
}
