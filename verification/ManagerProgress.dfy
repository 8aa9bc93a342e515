/**
  Why the manager cannot deadlock, and why it cannot run for ever on a finite
  amount of work. Locks are ranked; a thread only ever waits above what it
  holds; and every step of a thread uses up some of its fuel.
 */
module ManagerProgress {
  import opened Options
  import opened ManagerState
  import opened ManagerThreads
  import opened ManagerInvariant
  import opened ManagerRuns

  // ---------------------------------------------------------------- ranks

  function Rank(lock: Lock): nat {
    match lock
    case ApplyMu => 0
    case FbApply => 2
    case Target(_, _) => 3
    case Mu => 4
    case _ => 5
  }

  /** A writer that has announced itself waits a little higher than those it shuts out. */
  function Level(need: Need): nat {
    match need
    case Nothing => 12
    case Read(lock) => 2 * Rank(lock)
    case Announce(lock) => 2 * Rank(lock)
    case Write(lock) => 2 * Rank(lock) + 1
    case Join(_) => 2
  }

  lemma SyncWaitsAbove(y: SyncRun, lock: Lock)
    requires LocksOk(y) && SyncGrip(y, lock) != No
    ensures Level(SyncNeed(y)) > 2 * Rank(lock) + 1
  {
  }

  lemma SyncWaitsHigh(y: SyncRun)
    ensures Level(SyncNeed(y)) > 3
  {
  }

  lemma ApplyWaitsAbove(sh: Shared, a: ApplyRun, c: Choice, lock: Lock)
    requires ApplyOk(sh, a) && ApplyGrip(a, lock) != No
    ensures Level(ApplyNeed(a, c)) > 2 * Rank(lock) + 1
  {
    hide StopOk;
    hide ActivatedOk;
    hide WatchesFor;
    hide TrialOk;
    hide ReconcileOk;
    hide Admissible;
    if a.sync.Some? {
      assert LocksOk(a.sync.value);
      SyncWaitsHigh(a.sync.value);
      hide SyncNeed;
      if SyncGrip(a.sync.value, lock) != No {
        SyncWaitsAbove(a.sync.value, lock);
      }
      hide SyncGrip;
    }
  }

  /** Whoever holds a lock waits only for something ranked above it. */
  lemma WaitsAboveWhatItHolds(sh: Shared, th: Thread, c: Choice, lock: Lock)
    requires ThreadOk(sh, th) && GripOf(th, lock) != No
    ensures Level(NeedOf(th, c)) > 2 * Rank(lock) + 1
  {
    match th
    case Syncing(y) => SyncWaitsAbove(y, lock);
    case Applying(a) => ApplyWaitsAbove(sh, a, c, lock);
    case Visiting(_, _) =>
    case Acknowledging(_) =>
  }

  /** An announced writer is waiting for that very lock. */
  lemma AnnouncedWaits(sh: Shared, th: Thread, c: Choice, lock: Lock)
    requires ThreadOk(sh, th) && Announced(th, lock)
    ensures NeedOf(th, c) == Write(lock)
  {
    hide TrialOk;
    hide ReconcileOk;
    hide Admissible;
  }

  lemma BlockerWaitsHigher(sh: Shared, u: Thread, need: Need, c: Choice)
    requires ThreadOk(sh, u) && Blocks(u, need)
    ensures Level(NeedOf(u, c)) > Level(need)
  {
    match need
    case Nothing =>
    case Read(lock) =>
      if Announced(u, lock) { AnnouncedWaits(sh, u, c, lock); } else { WaitsAboveWhatItHolds(sh, u, c, lock); }
    case Announce(lock) =>
      if Announced(u, lock) { AnnouncedWaits(sh, u, c, lock); } else { WaitsAboveWhatItHolds(sh, u, c, lock); }
    case Write(lock) => WaitsAboveWhatItHolds(sh, u, c, lock);
    case Join(w) => SyncWaitsHigh(u.y);
  }

  /** A choice that picks from whatever loop the thread is in. */
  lemma SomeChoice(th: Thread) returns (c: Choice)
    ensures SensibleChoice(th, c)
  {
    c := Choice(true, true, "", Watch(0, 0, ""), "");
    if th.Applying? {
      var a := th.a;
      if a.todo != {} {
        var w :| w in a.todo;
        c := c.(watch := w);
      }
      if a.left != {} {
        var d :| d in a.left;
        c := c.(dir := d);
      }
      if a.names != {} {
        var n :| n in a.names;
        c := c.(name := n);
      }
    }
  }

  /** Following whoever stands in the way leads, rank by rank, to a thread that can step. */
  lemma {:induction false} FollowTheBlockers(s: State, t: nat, c: Choice) returns (u: nat, d: Choice)
    requires ThreadsOk(s) && t in s.threads && SensibleChoice(s.threads[t], c)
    ensures Enabled(s, Step(u, d))
    decreases 12 - Level(NeedOf(s.threads[t], c))
  {
    hide ThreadOk;
    hide NeedOf;
    hide SensibleChoice;
    hide Blocks;
    var need := NeedOf(s.threads[t], c);
    if Unblocked(s, t, need) {
      return t, c;
    }
    var b :| b in s.threads && b != t && Blocks(s.threads[b], need);
    var cb := SomeChoice(s.threads[b]);
    BlockerWaitsHigher(s.sh, s.threads[b], need, cb);
    LevelBound(NeedOf(s.threads[b], cb));
    u, d := FollowTheBlockers(s, b, cb);
  }

  lemma LevelBound(need: Need)
    ensures Level(need) <= 12
  {
  }

  /** Deadlock freedom: in every reachable state with a thread left, some thread can step. */
  lemma NoDeadlock(s: State) returns (t: nat, c: Choice)
    requires Reachable(s) && s.threads != map[]
    ensures Enabled(s, Step(t, c))
  {
    ReachableInv(s);
    var first :| first in s.threads;
    var some := SomeChoice(s.threads[first]);
    t, c := FollowTheBlockers(s, first, some);
  }
}
