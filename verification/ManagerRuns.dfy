/**
  Whole runs of the manager: any number of threads, arriving and stepping in
  any order that the locks allow.
 */
module ManagerRuns {
  import opened Options
  import opened ConfigRules
  import opened Secrets
  import opened ManagerState
  import opened ManagerThreads
  import opened ManagerInvariant

  datatype State = State(sh: Shared, threads: map<nat, Thread>)

  datatype Event = Spawn(t: nat, th: Thread) | Step(t: nat, c: Choice)

  /** The threads that can arrive: a request, or a callback of a watcher that is still live. */
  predicate Spawnable(sh: Shared, th: Thread) {
    match th
    case Syncing(y) =>
      || y == StartSync(y.name, y.gen, ByHand)
      || (y.origin.ByWatcher? && y.origin.watch in sh.live
          && y == StartSync(y.origin.watch.name, y.origin.watch.gen, y.origin))
    case Applying(a) => a == StartApply(a.candidate, a.secrets)
    case Visiting(_, announced) => !announced
    case Acknowledging(k) => k == AtEmpty
  }

  predicate Unblocked(s: State, t: nat, need: Need) {
    forall u | u in s.threads && u != t :: !Blocks(s.threads[u], need)
  }

  predicate Enabled(s: State, e: Event) {
    match e
    case Spawn(t, th) => t !in s.threads && Spawnable(s.sh, th)
    case Step(t, c) =>
      && t in s.threads && SensibleChoice(s.threads[t], c)
      && Unblocked(s, t, NeedOf(s.threads[t], c))
  }

  ghost function After(s: State, e: Event): State
    requires Enabled(s, e)
  {
    match e
    case Spawn(t, th) => s.(threads := s.threads[t := th])
    case Step(t, c) =>
      var th := Next(s.sh, s.threads[t], c);
      State(Effect(s.sh, s.threads[t], c).(notice := NoticeAfter(s.sh, s.threads[t], c)),
            if Finished(th) then s.threads - {t} else s.threads[t := th])
  }

  ghost predicate IsRun(s: State, events: seq<Event>)
    decreases |events|
  {
    events != [] ==> Enabled(s, events[0]) && IsRun(After(s, events[0]), events[1..])
  }

  ghost function Outcome(s: State, events: seq<Event>): State
    requires IsRun(s, events)
    decreases |events|
  {
    if events == [] then s else Outcome(After(s, events[0]), events[1..])
  }

  /** The manager as main builds it: an empty configuration and no watchers. */
  ghost predicate Initial(s: State) {
    && s.threads == map[]
    && s.sh.active.gen == 0 && s.sh.active.cfg == [] && s.sh.active.watches == {}
    && !s.sh.spoiled && !s.sh.uncompensated && s.sh.live == {} && s.sh.trial == {} && s.sh.retired == {}
    && s.sh.history == [Activated(s.sh.active)] && s.sh.notice.flagged == {} && s.sh.notice.crossed == {}
  }

  // ---------------------------------------------------------------- invariant

  ghost predicate NoOwner(threads: map<nat, Thread>, lock: Lock) {
    forall t | t in threads :: GripOf(threads[t], lock) != Owns
  }

  ghost predicate Exclusion(threads: map<nat, Thread>) {
    forall t, u, lock | t in threads && u in threads && t != u :: Compatible(threads[t], threads[u], lock)
  }

  ghost predicate ThreadsOk(s: State) {
    forall t | t in s.threads :: ThreadOk(s.sh, s.threads[t])
  }

  ghost predicate Inv(s: State) {
    && SharedOk(s.sh)
    && ThreadsOk(s)
    && Exclusion(s.threads)
    && (NoOwner(s.threads, ApplyMu) ==> IdleOk(s.sh))
    && (NoOwner(s.threads, FbApply) ==> s.sh.uncompensated || FilesAsSynced(s.sh))
  }

  lemma InitialInv(s: State)
    requires Initial(s)
    ensures Inv(s)
  {
  }

  // ---------------------------------------------------------------- one step, seen from another thread

  lemma SyncGripAfter(sh: Shared, y: SyncRun, c: Choice, lock: Lock)
    requires LocksOk(y)
    ensures var g := SyncGrip(SyncNext(sh, y, c), lock);
            || g == No || g == SyncGrip(y, lock)
            || (g == Shares && SyncNeed(y) == Read(lock)) || (g == Owns && SyncNeed(y) == Write(lock))
  {
    hide Stale;
    hide Find;
    hide Fits;
    hide BehindTarget;
    if lock == Mu {
      SyncMuAfter(sh, y, c);
      hide SyncNext;
      hide SyncGrip;
      hide SyncNeed;
    }
  }

  lemma SyncMuAfter(sh: Shared, y: SyncRun, c: Choice)
    ensures var g := SyncGrip(SyncNext(sh, y, c), Mu);
            || g == No || g == SyncGrip(y, Mu)
            || (g == Shares && SyncNeed(y) == Read(Mu)) || (g == Owns && SyncNeed(y) == Write(Mu))
  {
    hide Stale;
    hide Find;
    hide Fits;
    if y.at != AtPublish && !InPublication(y.at) && y.at != AtRecordEnter {
      AwayFromMu(sh, y, c);
      hide SyncNext;
    }
  }

  lemma AwayFromMu(sh: Shared, y: SyncRun, c: Choice)
    requires y.at != AtPublish && !InPublication(y.at) && y.at != AtRecordEnter
    ensures SyncGrip(SyncNext(sh, y, c), Mu) == No
  {
    hide Stale;
    hide Find;
    hide Fits;
  }

  /** A step keeps a lock, drops it, or has needed just what it now holds. */
  lemma GripAfter(sh: Shared, th: Thread, c: Choice, lock: Lock)
    requires ThreadOk(sh, th)
    ensures var g := GripOf(Next(sh, th, c), lock);
            || g == No || g == GripOf(th, lock)
            || (g == Shares && NeedOf(th, c) == Read(lock)) || (g == Owns && NeedOf(th, c) == Write(lock))
  {
    match th
    case Syncing(y) => SyncGripAfter(sh, y, c, lock);
    case Applying(a) => ApplyGripAfter(sh, a, c, lock);
    case Visiting(_, _) =>
    case Acknowledging(_) =>
  }

  lemma ApplyGripAfter(sh: Shared, a: ApplyRun, c: Choice, lock: Lock)
    requires ApplyOk(sh, a)
    ensures var g := ApplyGrip(ApplyNext(sh, a, c), lock);
            || g == No || g == ApplyGrip(a, lock)
            || (g == Shares && ApplyNeed(a, c) == Read(lock)) || (g == Owns && ApplyNeed(a, c) == Write(lock))
  {
    assert a.at == InlineSyncs ==> InlineOk(sh, a);
    hide ApplyOk;
    if a.at == InlineSyncs {
      if a.sync.Some? {
        SyncGripAfter(sh, a.sync.value, c, lock);
        hide SyncNext;
        hide SyncGrip;
        hide SyncNeed;
      }
    } else {
      OwnGripAfter(sh, a, c, lock);
    }
  }

  lemma OwnGripAfter(sh: Shared, a: ApplyRun, c: Choice, lock: Lock)
    requires a.sync == None && a.at != InlineSyncs
    ensures var g := ApplyGrip(ApplyNext(sh, a, c), lock);
            || g == No || g == ApplyGrip(a, lock) || (g == Owns && ApplyNeed(a, c) == Write(lock))
  {
    hide SyncNext;
    hide SyncGrip;
    hide SyncNeed;
    hide Admissible;
  }

  lemma StaysCompatible(sh: Shared, th: Thread, c: Choice, u: Thread, lock: Lock)
    requires ThreadOk(sh, th) && Compatible(th, u, lock) && !Blocks(u, NeedOf(th, c))
    ensures Compatible(Next(sh, th, c), u, lock)
  {
    GripAfter(sh, th, c, lock);
    hide ThreadOk;
    hide Next;
    hide NeedOf;
    hide GripOf;
    hide Announced;
  }

  lemma ThreadKeepsItself(sh: Shared, th: Thread, c: Choice)
    requires SharedOk(sh) && ThreadOk(sh, th) && SensibleChoice(th, c)
    requires th.Applying? && th.a.at == AtApply ==> IdleOk(sh)
    ensures SharedOk(Effect(sh, th, c)) && ThreadOk(Effect(sh, th, c), Next(sh, th, c))
  {
    hide SyncOk;
    hide ApplyOk;
    hide SyncEffect;
    hide ApplyEffect;
    hide SyncNext;
    hide ApplyNext;
    hide Sensible;
    hide IdleOk;
    match th
    case Syncing(y) =>
      SyncKeepsItself(sh, y, c);
      SyncKeepsShared(sh, y, c);
    case Applying(a) =>
      hide SharedOk;
      ApplyKeepsItself(sh, a, c);
      ApplyKeepsShared(sh, a, c);
    case Visiting(_, _) =>
    case Acknowledging(_) =>
  }

  /** An apply that has not started, or is over, claims nothing of the shared state. */
  lemma ResidentKeeps(sh: Shared, sh1: Shared, a: ApplyRun)
    requires ApplyOk(sh, a) && (a.at == AtApply || a.at == Over)
    ensures ApplyOk(sh1, a)
  {
    assert a.sync == None && a.joining == None;
    hide ApplyOk;
    if a.at == Over {
      EarlyClaims(sh1, a);
    } else {
      ArrivedClaims(sh1, a);
    }
  }

  lemma ArrivedClaims(sh: Shared, a: ApplyRun)
    requires a.at == AtApply && a.sync == None && a.joining == None
    ensures ApplyOk(sh, a)
  {
    hide TrialOk;
    hide InlineOk;
    hide ActivatedOk;
    hide Admissible;
    hide IdleOk;
  }

  lemma ApplyKeepsOther(sh: Shared, a: ApplyRun, c: Choice, u: Thread)
    requires SharedOk(sh) && ApplyOk(sh, a) && ThreadOk(sh, u) && Sensible(a, c)
    requires Compatible(Applying(a), u, ApplyMu) && !Blocks(u, ApplyNeed(a, c))
    ensures ThreadOk(ApplyEffect(sh, a, c), u)
  {
    hide SyncOk;
    hide ApplyOk;
    hide Sensible;
    if u.Syncing? {
      assert a.at == AtActivateEnter ==> !InPublication(u.y.at);
      hide ApplyEffect;
      ApplyKeepsSync(sh, a, c, u.y);
    } else if u.Applying? && a.at != AtApply && a.at != Over {
      hide ApplyEffect;
      ResidentKeeps(sh, ApplyEffect(sh, a, c), u.a);
    }
  }

  lemma OtherKeeps(sh: Shared, th: Thread, c: Choice, u: Thread)
    requires SharedOk(sh) && ThreadOk(sh, th) && ThreadOk(sh, u) && SensibleChoice(th, c)
    requires !Blocks(u, NeedOf(th, c))
    requires Compatible(th, u, ApplyMu) && Compatible(th, u, FbApply)
    ensures ThreadOk(Effect(sh, th, c), u)
  {
    match th
    case Syncing(y) =>
      assert y.guarded ==> !(u.Applying? && HoldsFbApply(u.a.at));
      assert SyncOk(sh, y);
      hide ThreadOk;
      hide SharedOk;
      hide SyncOk;
      SyncKeepsOther(sh, y, c, u);
    case Applying(a) =>
      assert ApplyOk(sh, a);
      hide ThreadOk;
      hide SharedOk;
      hide ApplyOk;
      hide Sensible;
      ApplyKeepsOther(sh, a, c, u);
    case Visiting(_, _) =>
    case Acknowledging(_) =>
  }

  // ---------------------------------------------------------------- one step of the system

  lemma ArrivalIsOk(sh: Shared, th: Thread)
    requires SharedOk(sh) && Spawnable(sh, th)
    ensures ThreadOk(sh, th)
    ensures forall lock :: GripOf(th, lock) == No
  {
    hide SharedOk;
    if th.Applying? {
      ApplyArrivalIsOk(sh, th.a);
    }
  }

  lemma ApplyArrivalIsOk(sh: Shared, a: ApplyRun)
    requires a == StartApply(a.candidate, a.secrets)
    ensures ApplyOk(sh, a)
  {
  }

  lemma ArrivalKeepsExclusion(threads: map<nat, Thread>, t: nat, th: Thread)
    requires t !in threads && Exclusion(threads) && forall lock :: GripOf(th, lock) == No
    ensures Exclusion(threads[t := th])
  {
    hide GripOf;
    var all := threads[t := th];
    assert forall u | u in threads :: all[u] == threads[u];
    forall u, v, lock | u in all && v in all && u != v
      ensures Compatible(all[u], all[v], lock)
    {
      if u != t && v != t {
        assert Compatible(threads[u], threads[v], lock);
      }
    }
  }

  lemma ArrivalKeepsNoOwner(threads: map<nat, Thread>, t: nat, th: Thread, lock: Lock)
    requires t !in threads && NoOwner(threads[t := th], lock)
    ensures NoOwner(threads, lock)
  {
    hide GripOf;
    assert forall u | u in threads :: u in threads[t := th] && threads[t := th][u] == threads[u];
  }

  lemma SpawnKeepsInv(s: State, t: nat, th: Thread)
    requires Inv(s) && Enabled(s, Spawn(t, th))
    ensures Inv(After(s, Spawn(t, th)))
  {
    var s1 := After(s, Spawn(t, th));
    ArrivalIsOk(s.sh, th);
    hide SharedOk;
    hide ThreadOk;
    hide GripOf;
    hide FilesAsSynced;
    hide IdleOk;
    ArrivalKeepsExclusion(s.threads, t, th);
    hide Exclusion;
    if NoOwner(s1.threads, ApplyMu) {
      ArrivalKeepsNoOwner(s.threads, t, th, ApplyMu);
    }
    if NoOwner(s1.threads, FbApply) {
      ArrivalKeepsNoOwner(s.threads, t, th, FbApply);
    }
  }

  lemma ApplyMuIsFree(s: State, t: nat, c: Choice)
    requires Inv(s) && Enabled(s, Step(t, c)) && s.threads[t].Applying? && s.threads[t].a.at == AtApply
    ensures IdleOk(s.sh)
  {
    forall u | u in s.threads
      ensures GripOf(s.threads[u], ApplyMu) != Owns
    {
      if u != t {
        assert !Blocks(s.threads[u], NeedOf(s.threads[t], c));
      }
    }
  }

  lemma OwnThreadAfter(s: State, t: nat, c: Choice)
    requires Inv(s) && Enabled(s, Step(t, c))
    ensures SharedOk(After(s, Step(t, c)).sh)
    ensures ThreadOk(After(s, Step(t, c)).sh, Next(s.sh, s.threads[t], c))
  {
    var th := s.threads[t];
    assert ThreadOk(s.sh, th);
    if th.Applying? && th.a.at == AtApply {
      ApplyMuIsFree(s, t, c);
    }
    hide ThreadOk;
    hide SharedOk;
    hide IdleOk;
    hide FilesAsSynced;
    hide Exclusion;
    hide NoOwner;
    hide Next;
    hide Effect;
    hide NoticeAfter;
    hide SensibleChoice;
    hide Unblocked;
    ThreadKeepsItself(s.sh, th, c);
    NoticeIsApart(Effect(s.sh, th, c), NoticeAfter(s.sh, th, c));
    NoticeOfThread(Effect(s.sh, th, c), NoticeAfter(s.sh, th, c), Next(s.sh, th, c));
  }

  lemma OtherThreadAfter(s: State, t: nat, c: Choice, u: nat)
    requires Inv(s) && Enabled(s, Step(t, c)) && u in s.threads && u != t
    ensures ThreadOk(After(s, Step(t, c)).sh, s.threads[u])
  {
    var th := s.threads[t];
    assert ThreadOk(s.sh, th) && ThreadOk(s.sh, s.threads[u]);
    assert Compatible(th, s.threads[u], ApplyMu) && Compatible(th, s.threads[u], FbApply);
    assert !Blocks(s.threads[u], NeedOf(th, c));
    hide ThreadOk;
    hide SharedOk;
    hide IdleOk;
    hide FilesAsSynced;
    hide Exclusion;
    hide NoOwner;
    hide Unblocked;
    hide Compatible;
    hide Blocks;
    hide NeedOf;
    hide Next;
    hide Effect;
    hide NoticeAfter;
    hide SensibleChoice;
    OtherKeeps(s.sh, th, c, s.threads[u]);
    NoticeOfThread(Effect(s.sh, th, c), NoticeAfter(s.sh, th, c), s.threads[u]);
  }

  lemma WhoIsLeft(s: State, t: nat, c: Choice, u: nat)
    requires Enabled(s, Step(t, c)) && u in After(s, Step(t, c)).threads
    ensures u in s.threads
    ensures After(s, Step(t, c)).threads[u] == if u == t then Next(s.sh, s.threads[t], c) else s.threads[u]
  {
    hide Next;
    hide Effect;
    hide NoticeAfter;
    hide Finished;
    hide SensibleChoice;
    hide Unblocked;
  }

  lemma StepKeepsThreads(s: State, t: nat, c: Choice)
    requires Inv(s) && Enabled(s, Step(t, c))
    ensures SharedOk(After(s, Step(t, c)).sh) && ThreadsOk(After(s, Step(t, c)))
  {
    var s1 := After(s, Step(t, c));
    hide Inv;
    hide SharedOk;
    hide ThreadOk;
    hide Effect;
    hide NoticeAfter;
    hide Next;
    hide Finished;
    hide Enabled;
    OwnThreadAfter(s, t, c);
    forall u | u in s1.threads
      ensures ThreadOk(s1.sh, s1.threads[u])
    {
      WhoIsLeft(s, t, c, u);
      hide After;
      if u != t {
        OtherThreadAfter(s, t, c, u);
      }
    }
  }

  lemma StepKeepsExclusion(s: State, t: nat, c: Choice)
    requires ThreadsOk(s) && Exclusion(s.threads) && Enabled(s, Step(t, c))
    ensures Exclusion(After(s, Step(t, c)).threads)
  {
    var th := s.threads[t];
    var s1 := After(s, Step(t, c));
    hide ThreadOk;
    hide Next;
    hide Effect;
    hide NeedOf;
    hide Blocks;
    hide SensibleChoice;
    hide Finished;
    hide GripOf;
    forall u, v, lock | u in s1.threads && v in s1.threads && u != v
      ensures Compatible(s1.threads[u], s1.threads[v], lock)
    {
      if u == t {
        StaysCompatible(s.sh, th, c, s.threads[v], lock);
      } else if v == t {
        StaysCompatible(s.sh, th, c, s.threads[u], lock);
      }
    }
  }

  /** The last step of an apply leaves nothing on trial; no other step touches what is on trial. */
  lemma ReleaseIsIdle(sh: Shared, th: Thread, c: Choice)
    requires ThreadOk(sh, th) && SensibleChoice(th, c)
    requires GripOf(th, ApplyMu) != Owns ==> IdleOk(sh)
    requires GripOf(Next(sh, th, c), ApplyMu) != Owns
    ensures IdleOk(Effect(sh, th, c))
  {
    if th.Applying? {
      assert Early(th.a.at) ==> IdleOk(sh);
      hide ThreadOk;
      hide SensibleChoice;
      ApplyEnds(sh, th.a, c);
    }
  }

  lemma ApplyEnds(sh: Shared, a: ApplyRun, c: Choice)
    requires a.at == AtApply || a.at == Over || a.at == AtEnd || ApplyGrip(ApplyNext(sh, a, c), ApplyMu) != Owns
    requires a.at == AtApply || a.at == Over || a.at == AtEnd ==> IdleOk(sh)
    ensures a.at == AtApply || a.at == Over || a.at == AtEnd
    ensures IdleOk(ApplyEffect(sh, a, c))
  {
    hide SyncNext;
    hide SyncGrip;
    hide SyncEffect;
    hide Admissible;
    hide IdleOk;
  }

  lemma ReleaseMatches(sh: Shared, th: Thread, c: Choice)
    requires SharedOk(sh) && ThreadOk(sh, th) && SensibleChoice(th, c)
    requires GripOf(th, FbApply) != Owns ==> sh.uncompensated || FilesAsSynced(sh)
    requires GripOf(Next(sh, th, c), FbApply) != Owns
    ensures Effect(sh, th, c).uncompensated || FilesAsSynced(Effect(sh, th, c))
  {
    match th
    case Syncing(y) =>
      hide SyncOk;
      hide SyncNext;
      SyncKeepsFallbacks(sh, y, c);
    case Applying(a) =>
      SyncNeverOwns(a);
      assert HoldsFbApply(a.at) || sh.uncompensated || FilesAsSynced(sh);
      assert !HoldsFbApply(ApplyNext(sh, a, c).at);
      hide ApplyOk;
      hide ApplyNext;
      hide Sensible;
      hide SharedOk;
      hide FilesAsSynced;
      ApplyKeepsFallbacks(sh, a, c);
    case Visiting(_, _) =>
    case Acknowledging(_) =>
  }

  lemma SyncNeverOwns(a: ApplyRun)
    ensures ApplyGrip(a, FbApply) == Owns <==> HoldsFbApply(a.at)
  {
  }

  lemma FinishedOwnsNothing(th: Thread)
    requires Finished(th)
    ensures GripOf(th, ApplyMu) != Owns && GripOf(th, FbApply) != Owns
  {
  }

  lemma NoOwnerBefore(s: State, t: nat, c: Choice, lock: Lock)
    requires Enabled(s, Step(t, c)) && (lock == ApplyMu || lock == FbApply)
    requires NoOwner(After(s, Step(t, c)).threads, lock)
    ensures GripOf(Next(s.sh, s.threads[t], c), lock) != Owns
    ensures GripOf(s.threads[t], lock) != Owns ==> NoOwner(s.threads, lock)
  {
    var th := Next(s.sh, s.threads[t], c);
    var s1 := After(s, Step(t, c));
    if Finished(th) {
      FinishedOwnsNothing(th);
    } else {
      assert t in s1.threads && s1.threads[t] == th;
    }
    hide Next;
    hide GripOf;
    hide Finished;
    hide Effect;
    assert forall u | u in s.threads && u != t :: u in s1.threads && s1.threads[u] == s.threads[u];
  }

  /** Every arrival and every step keeps the invariant. */
  lemma StepKeepsInv(s: State, e: Event)
    requires Inv(s) && Enabled(s, e)
    ensures Inv(After(s, e))
  {
    if e.Spawn? {
      SpawnKeepsInv(s, e.t, e.th);
    } else {
      var t, c := e.t, e.c;
      var s1 := After(s, e);
      var th := s.threads[t];
      StepKeepsThreads(s, t, c);
      StepKeepsExclusion(s, t, c);
      hide SharedOk;
      hide ThreadOk;
      hide IdleOk;
      hide FilesAsSynced;
      hide Next;
      hide Effect;
      hide GripOf;
      hide SensibleChoice;
      hide NoticeAfter;
      NoticeIsApart(Effect(s.sh, th, c), NoticeAfter(s.sh, th, c));
      if NoOwner(s1.threads, ApplyMu) {
        NoOwnerBefore(s, t, c, ApplyMu);
        ReleaseIsIdle(s.sh, th, c);
      }
      if NoOwner(s1.threads, FbApply) {
        NoOwnerBefore(s, t, c, FbApply);
        ReleaseMatches(s.sh, th, c);
      }
    }
  }

  lemma {:induction false} RunKeepsInv(s: State, events: seq<Event>)
    requires Inv(s) && IsRun(s, events)
    ensures Inv(Outcome(s, events))
    decreases |events|
  {
    hide Inv;
    if events != [] {
      StepKeepsInv(s, events[0]);
      RunKeepsInv(After(s, events[0]), events[1..]);
    }
  }

  ghost predicate Reachable(s: State) {
    exists start: State, events: seq<Event> :: Initial(start) && IsRun(start, events) && Outcome(start, events) == s
  }

  lemma ReachableInv(s: State)
    requires Reachable(s)
    ensures Inv(s)
  {
    var start, events :| Initial(start) && IsRun(start, events) && Outcome(start, events) == s;
    InitialInv(start);
    RunKeepsInv(start, events);
  }
}
