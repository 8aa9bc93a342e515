/**
  Every run without new arrivals is finite: each step of a thread burns fuel,
  and the fuel of all threads together is a number. With deadlock freedom,
  every thread that has arrived gets to its end.
 */
module ManagerFuel {
  import opened Options
  import opened ConfigRules
  import opened Secrets
  import opened ManagerState
  import opened ManagerThreads
  import opened ManagerInvariant
  import opened ManagerRuns
  import opened ManagerProgress

  // ---------------------------------------------------------------- fuel of one thread

  function SyncFuel(at: SyncPc): nat {
    match at
    case AtGen => 18
    case AtLook => 17
    case AtGuard => 16
    case AtResolve => 15
    case AtTarget => 14
    case AtFetchAnnounce => 13
    case AtFetchEnter => 12
    case AtFetch => 11
    case AtQueryAnnounce => 10
    case AtQueryEnter => 9
    case AtPublish => 8
    case Publishing => 7
    case FallbackFile => 6
    case MarkPending => 5
    case AtLeave => 4
    case AtRecordAnnounce => 3
    case AtRecordEnter => 2
    case RecordPending => 1
    case Ended => 0
  }

  function StopFuel(a: ApplyRun): int {
    2 * |a.todo| - (if a.joining.Some? then 1 else 0)
  }

  /** `k` bounds the entries of every configuration in play. */
  function ApplyFuel(a: ApplyRun, k: nat): int {
    var inline := 2 + 18 * k;
    var last := inline + 2 * k + 6;
    match a.at
    case AtApply => last + 7 * k + 16
    case AtSnapshot => last + 7 * k + 15
    case AtLoadRuntime => last + 7 * k + 14
    case AtReadOld => last + 7 * k + 13
    case AtReadGen => last + 7 * k + 12
    case Starting => last + 6 * k + 11 + |a.todo|
    case AtReconcileAnnounce => last + 6 * k + 10
    case AtReconcileEnter => last + 6 * k + 9
    case Reconciling => last + 4 * k + 8 + |a.left|
    case SavingConfig => last + 4 * k + 7
    case MarkingPending => last + 4 * k + 6
    case Resaving => 4 * k + 5
    case ReadingPending => inline + 2 * k + 5 + |a.left|
    case AtActivateAnnounce => inline + 2 * k + 4
    case AtActivateEnter => inline + 2 * k + 3
    case AtRelease => inline + 2 * k + 2
    case StoppingOld => inline + 1 + StopFuel(a)
    case InlineSyncs => 2 + 18 * |a.names| + (if a.sync.Some? then SyncFuel(a.sync.value.at) else 0)
    case RollingBack => 2 * k + 4 + |a.left|
    case AtReleaseFailed => 2 * k + 3
    case StoppingNew => 2 + StopFuel(a)
    case AtEnd => 1
    case Over => 0
  }

  function AckFuel(k: AckPc): nat {
    match k
    case AtEmpty => 3
    case AtClearAnnounce => 2
    case AtClearEnter => 1
    case Acked => 0
  }

  function Fuel(th: Thread, k: nat): int {
    match th
    case Syncing(y) => SyncFuel(y.at)
    case Applying(a) => ApplyFuel(a, k)
    case Visiting(errands, announced) => 2 * |errands| - (if announced then 1 else 0)
    case Acknowledging(k) => AckFuel(k)
  }

  // ---------------------------------------------------------------- bounds

  predicate Bounded(a: ApplyRun, k: nat) {
    && |a.candidate| <= k && |a.before| <= k && |a.watches| <= k && |a.oldWatches| <= k && |a.todo| <= k
    && |a.names| <= k && |a.dirs| <= 2 * k && |a.left| <= 2 * k
  }

  predicate ThreadBounded(th: Thread, k: nat) {
    th.Applying? ==> Bounded(th.a, k)
  }

  predicate SharedBounded(sh: Shared, k: nat) {
    |sh.active.cfg| <= k && |sh.active.watches| <= k
  }

  lemma SubsetSize<T>(a: set<T>, b: set<T>)
    requires a <= b
    ensures |a| <= |b|
  {
    assert b == a + (b - a);
  }

  lemma {:induction false} DirsSize(policy: Policy, entries: seq<Entry>)
    ensures |Dirs(policy, entries)| <= |entries|
  {
    if entries != [] {
      var n := |entries| - 1;
      DirsSize(policy, entries[..n]);
      assert entries == entries[..n] + [entries[n]];
      assert Dirs(policy, entries) == Dirs(policy, entries[..n]) + {Dir(policy, entries[n])};
    }
  }

  lemma {:induction false} EnabledNamesSize(entries: seq<Entry>)
    ensures |EnabledNames(entries)| <= |entries|
  {
    if entries != [] {
      var n := |entries| - 1;
      EnabledNamesSize(entries[..n]);
      assert entries == entries[..n] + [entries[n]];
      assert EnabledNames(entries) == EnabledNames(entries[..n]) + if entries[n].enabled then {entries[n].name} else {};
    }
  }

  function NamesOf(entries: seq<Entry>): set<string> {
    set e | e in entries :: e.name
  }

  lemma {:induction false} NamesSize(entries: seq<Entry>)
    ensures |NamesOf(entries)| <= |entries|
  {
    if entries != [] {
      var n := |entries| - 1;
      NamesSize(entries[..n]);
      assert entries == entries[..n] + [entries[n]];
      assert NamesOf(entries) == NamesOf(entries[..n]) + {entries[n].name};
    }
  }

  lemma {:induction false} WatchesByName(group: nat, gen: nat, names: set<string>)
    ensures |set n | n in names :: Watch(group, gen, n)| == |names|
  {
    if names != {} {
      var n :| n in names;
      WatchesByName(group, gen, names - {n});
      assert (set m | m in names :: Watch(group, gen, m)) ==
             (set m | m in names - {n} :: Watch(group, gen, m)) + {Watch(group, gen, n)};
    }
  }

  lemma WatchesSize(group: nat, gen: nat, entries: seq<Entry>)
    ensures |WatchesFor(group, gen, entries)| <= |entries|
  {
    NamesSize(entries);
    WatchesByName(group, gen, NamesOf(entries));
    SubsetSize(WatchesFor(group, gen, entries), set n | n in NamesOf(entries) :: Watch(group, gen, n));
  }

  // ---------------------------------------------------------------- one step

  lemma EntryBurns(sh: Shared, y: SyncRun, c: Choice)
    requires y.at == AtGen || y.at == AtLook || y.at == AtGuard || y.at == AtResolve || y.at == AtTarget
    ensures SyncFuel(SyncNext(sh, y, c).at) < SyncFuel(y.at)
  {
    hide Stale;
    hide Find;
    hide Fits;
  }

  lemma FetchBurns(sh: Shared, y: SyncRun, c: Choice)
    requires || y.at == AtFetchAnnounce || y.at == AtFetchEnter || y.at == AtFetch
             || y.at == AtQueryAnnounce || y.at == AtQueryEnter
    ensures SyncFuel(SyncNext(sh, y, c).at) < SyncFuel(y.at)
  {
    hide Stale;
    hide Find;
    hide Fits;
  }

  lemma PublicationBurns(sh: Shared, y: SyncRun, c: Choice)
    requires y.at == AtPublish || y.at == Publishing || y.at == FallbackFile || y.at == MarkPending || y.at == AtLeave
    ensures SyncFuel(SyncNext(sh, y, c).at) < SyncFuel(y.at)
  {
    hide Stale;
    hide Find;
    hide Fits;
  }

  lemma RecordBurns(sh: Shared, y: SyncRun, c: Choice)
    requires y.at == AtRecordAnnounce || y.at == AtRecordEnter || y.at == RecordPending
    ensures SyncFuel(SyncNext(sh, y, c).at) < SyncFuel(y.at)
  {
    hide Stale;
    hide Find;
    hide Fits;
  }

  lemma SyncBurns(sh: Shared, y: SyncRun, c: Choice)
    requires y.at != Ended
    ensures SyncFuel(SyncNext(sh, y, c).at) < SyncFuel(y.at)
  {
    hide SyncNext;
    hide SyncFuel;
    match y.at
    case AtGen => EntryBurns(sh, y, c);
    case AtLook => EntryBurns(sh, y, c);
    case AtGuard => EntryBurns(sh, y, c);
    case AtResolve => EntryBurns(sh, y, c);
    case AtTarget => EntryBurns(sh, y, c);
    case AtFetchAnnounce => FetchBurns(sh, y, c);
    case AtFetchEnter => FetchBurns(sh, y, c);
    case AtFetch => FetchBurns(sh, y, c);
    case AtQueryAnnounce => FetchBurns(sh, y, c);
    case AtQueryEnter => FetchBurns(sh, y, c);
    case AtPublish => PublicationBurns(sh, y, c);
    case Publishing => PublicationBurns(sh, y, c);
    case FallbackFile => PublicationBurns(sh, y, c);
    case MarkPending => PublicationBurns(sh, y, c);
    case AtLeave => PublicationBurns(sh, y, c);
    case AtRecordAnnounce => RecordBurns(sh, y, c);
    case AtRecordEnter => RecordBurns(sh, y, c);
    case RecordPending => RecordBurns(sh, y, c);
    case Ended =>
  }

  /** The sizes that a step of an apply can bring in. */
  lemma NewSizes(sh: Shared, a: ApplyRun, k: nat)
    requires Bounded(a, k) && SharedBounded(sh, k)
    ensures |WatchesFor(sh.groups, sh.active.gen + 1, a.candidate)| <= k
    ensures |DirsOfBoth(sh.policy, a.before, a.candidate)| <= 2 * k
    ensures |EnabledNames(a.candidate)| <= k
  {
    WatchesSize(sh.groups, sh.active.gen + 1, a.candidate);
    DirsSize(sh.policy, a.before);
    DirsSize(sh.policy, a.candidate);
    EnabledNamesSize(a.candidate);
  }

  /** The steps that take an element from a loop, or end it. */
  predicate Looping(at: ApplyPc) {
    || at == Starting || at == Reconciling || at == ReadingPending || at == RollingBack || at == StoppingOld
    || at == StoppingNew || at == InlineSyncs
  }

  lemma LessOne<T>(s: set<T>, x: T)
    ensures |s - {x}| <= |s|
    ensures x in s ==> |s - {x}| < |s|
  {
  }

  lemma TodoStaysBounded(sh: Shared, a: ApplyRun, c: Choice, k: nat)
    requires Bounded(a, k) && |EnabledNames(a.candidate)| <= k
    requires a.at == Starting || a.at == StoppingOld || a.at == StoppingNew
    ensures Bounded(ApplyNext(sh, a, c), k)
  {
    TodoMoves(sh, a, c);
    hide ApplyNext;
    hide EnabledNames;
    LessOne(a.todo, c.watch);
    if a.joining.Some? {
      LessOne(a.todo, a.joining.value);
    }
  }

  lemma TodoMoves(sh: Shared, a: ApplyRun, c: Choice)
    requires a.at == Starting || a.at == StoppingOld || a.at == StoppingNew
    ensures var a1 := ApplyNext(sh, a, c);
            && a1.(at := a.at, joining := a.joining, todo := a.todo, names := a.names) == a
            && (|| a1.todo == a.todo || a1.todo == a.watches || a1.todo == a.todo - {c.watch}
                || (a.joining.Some? && a1.todo == a.todo - {a.joining.value}))
            && (a1.names == a.names || a1.names == EnabledNames(a.candidate))
  {
    hide EnabledNames;
  }

  lemma LeftStaysBounded(sh: Shared, a: ApplyRun, c: Choice, k: nat)
    requires Bounded(a, k) && (a.at == Reconciling || a.at == ReadingPending || a.at == RollingBack)
    ensures Bounded(ApplyNext(sh, a, c), k)
  {
    LessOne(a.left, c.dir);
  }

  lemma NamesStayBounded(sh: Shared, a: ApplyRun, c: Choice, k: nat)
    requires Bounded(a, k) && a.at == InlineSyncs
    ensures Bounded(ApplyNext(sh, a, c), k)
  {
    hide EnabledNames;
    hide StopNext;
    hide WatchesFor;
    hide DirsOfBoth;
    hide Admissible;
    hide SyncNext;
    var a1 := ApplyNext(sh, a, c);
    LessOne(a.names, c.name);
    assert a1.names == a.names || a1.names == a.names - {c.name};
    assert a1.(at := a.at, sync := a.sync, names := a.names) == a;
    hide ApplyNext;
  }

  /** The steps that set up a loop. */
  predicate Opening(at: ApplyPc) {
    || at == AtReadGen || at == AtReconcileEnter || at == SavingConfig || at == MarkingPending || at == Resaving
    || at == AtActivateEnter || at == AtRelease || at == AtReleaseFailed
  }

  lemma LoadingStaysBounded(sh: Shared, a: ApplyRun, c: Choice, k: nat)
    requires Bounded(a, k) && (a.at == AtReadGen || a.at == AtReconcileEnter)
    requires |WatchesFor(sh.groups, sh.active.gen + 1, a.candidate)| <= k
    requires |DirsOfBoth(sh.policy, a.before, a.candidate)| <= 2 * k
    ensures Bounded(ApplyNext(sh, a, c), k)
  {
    hide WatchesFor;
    hide DirsOfBoth;
  }

  lemma OpeningStaysBounded(sh: Shared, a: ApplyRun, c: Choice, k: nat)
    requires Bounded(a, k) && SharedBounded(sh, k) && Opening(a.at) && a.at != AtReadGen && a.at != AtReconcileEnter
    ensures Bounded(ApplyNext(sh, a, c), k)
  {
  }

  lemma PlainStaysBounded(sh: Shared, a: ApplyRun, c: Choice, k: nat)
    requires Bounded(a, k) && SharedBounded(sh, k) && !Opening(a.at) && !Looping(a.at)
    ensures Bounded(ApplyNext(sh, a, c), k)
  {
    hide Admissible;
  }

  lemma ApplyStaysBounded(sh: Shared, a: ApplyRun, c: Choice, k: nat)
    requires Bounded(a, k) && SharedBounded(sh, k)
    ensures Bounded(ApplyNext(sh, a, c), k)
  {
    hide ApplyNext;
    hide Bounded;
    NewSizes(sh, a, k);
    if a.at == Reconciling || a.at == ReadingPending || a.at == RollingBack {
      LeftStaysBounded(sh, a, c, k);
    } else if a.at == InlineSyncs {
      NamesStayBounded(sh, a, c, k);
    } else if Looping(a.at) {
      TodoStaysBounded(sh, a, c, k);
    } else if a.at == AtReadGen || a.at == AtReconcileEnter {
      LoadingStaysBounded(sh, a, c, k);
    } else if Opening(a.at) {
      OpeningStaysBounded(sh, a, c, k);
    } else {
      PlainStaysBounded(sh, a, c, k);
    }
  }

  lemma EffectStaysBounded(sh: Shared, th: Thread, c: Choice, k: nat)
    requires ThreadBounded(th, k) && SharedBounded(sh, k)
    ensures SharedBounded(Effect(sh, th, c), k)
  {
    hide WatchesFor;
  }

  lemma ReadGenBurns(sh: Shared, a: ApplyRun, c: Choice, k: nat)
    requires a.at == AtReadGen && |WatchesFor(sh.groups, sh.active.gen + 1, a.candidate)| <= k
    ensures ApplyFuel(ApplyNext(sh, a, c), k) < ApplyFuel(a, k)
  {
    hide WatchesFor;
  }

  lemma EnterBurns(sh: Shared, a: ApplyRun, c: Choice, k: nat)
    requires a.at == AtReconcileEnter && |DirsOfBoth(sh.policy, a.before, a.candidate)| <= 2 * k
    ensures ApplyFuel(ApplyNext(sh, a, c), k) < ApplyFuel(a, k)
  {
    hide DirsOfBoth;
  }

  lemma SavingBurns(sh: Shared, a: ApplyRun, c: Choice, k: nat)
    requires |a.dirs| <= 2 * k
    requires a.at == SavingConfig || a.at == MarkingPending || a.at == Resaving || a.at == AtActivateEnter
    ensures ApplyFuel(ApplyNext(sh, a, c), k) < ApplyFuel(a, k)
  {
  }

  lemma ReleaseBurns(sh: Shared, a: ApplyRun, c: Choice, k: nat)
    requires |a.watches| <= k && |a.oldWatches| <= k && (a.at == AtRelease || a.at == AtReleaseFailed)
    ensures ApplyFuel(ApplyNext(sh, a, c), k) < ApplyFuel(a, k)
  {
  }

  lemma PlainBurns(sh: Shared, a: ApplyRun, c: Choice, k: nat)
    requires !Opening(a.at) && !Looping(a.at) && a.at != Over
    ensures ApplyFuel(ApplyNext(sh, a, c), k) < ApplyFuel(a, k)
  {
    hide Admissible;
  }

  lemma StartingBurns(sh: Shared, a: ApplyRun, c: Choice, k: nat)
    requires Bounded(a, k) && Sensible(a, c) && a.at == Starting
    ensures ApplyFuel(ApplyNext(sh, a, c), k) < ApplyFuel(a, k)
  {
    assert a.todo != {} ==> |a.todo - {c.watch}| < |a.todo|;
  }

  lemma ReconcilingBurns(sh: Shared, a: ApplyRun, c: Choice, k: nat)
    requires Bounded(a, k) && Sensible(a, c) && (a.at == Reconciling || a.at == ReadingPending || a.at == RollingBack)
    ensures ApplyFuel(ApplyNext(sh, a, c), k) < ApplyFuel(a, k)
  {
    assert a.left != {} ==> |a.left - {c.dir}| < |a.left|;
  }

  lemma StopBurns(sh: Shared, a: ApplyRun, c: Choice, k: nat)
    requires Bounded(a, k) && Sensible(a, c) && |EnabledNames(a.candidate)| <= k
    requires a.at == StoppingOld || a.at == StoppingNew
    requires a.sync == None && (a.joining.Some? ==> a.joining.value in a.todo)
    ensures ApplyFuel(ApplyNext(sh, a, c), k) < ApplyFuel(a, k)
  {
    hide EnabledNames;
    if a.joining.Some? {
      assert |a.todo - {a.joining.value}| == |a.todo| - 1;
    }
  }

  lemma StoppingIsSound(sh: Shared, a: ApplyRun)
    requires ApplyOk(sh, a) && (a.at == StoppingOld || a.at == StoppingNew)
    ensures a.sync == None && (a.joining.Some? ==> a.joining.value in a.todo)
  {
  }

  lemma InlineSyncBurns(sh: Shared, a: ApplyRun, c: Choice, k: nat)
    requires a.at == InlineSyncs && a.sync.Some? && a.sync.value.at != Ended
    ensures ApplyFuel(ApplyNext(sh, a, c), k) < ApplyFuel(a, k)
  {
    SyncBurns(sh, a.sync.value, c);
    hide SyncNext;
    hide SyncFuel;
  }

  lemma InlineTakeBurns(sh: Shared, a: ApplyRun, c: Choice, k: nat)
    requires Sensible(a, c) && a.at == InlineSyncs && a.sync == None
    ensures ApplyFuel(ApplyNext(sh, a, c), k) < ApplyFuel(a, k)
  {
    LessOne(a.names, c.name);
  }

  lemma InlineBurns(sh: Shared, a: ApplyRun, c: Choice, k: nat)
    requires Sensible(a, c) && a.at == InlineSyncs
    requires a.sync.Some? ==> a.sync.value.at != Ended
    ensures ApplyFuel(ApplyNext(sh, a, c), k) < ApplyFuel(a, k)
  {
    hide ApplyNext;
    hide ApplyFuel;
    if a.sync.Some? {
      InlineSyncBurns(sh, a, c, k);
    } else {
      InlineTakeBurns(sh, a, c, k);
    }
  }

  lemma InlineRuns(sh: Shared, a: ApplyRun)
    requires ApplyOk(sh, a) && a.at == InlineSyncs
    ensures a.sync.Some? ==> a.sync.value.at != Ended
  {
  }

  /** Every step of a thread leaves it with less fuel. */
  lemma StepBurns(sh: Shared, th: Thread, c: Choice, k: nat)
    requires ThreadOk(sh, th) && SensibleChoice(th, c) && !Finished(th)
    requires ThreadBounded(th, k) && SharedBounded(sh, k)
    ensures ThreadBounded(Next(sh, th, c), k)
    ensures Fuel(Next(sh, th, c), k) < Fuel(th, k)
  {
    match th
    case Syncing(y) => SyncBurns(sh, y, c);
    case Applying(a) =>
      hide ApplyOk;
      hide ApplyFuel;
      hide ApplyNext;
      hide Sensible;
      ApplyStaysBounded(sh, a, c, k);
      if a.at == StoppingOld || a.at == StoppingNew {
        NewSizes(sh, a, k);
        StoppingIsSound(sh, a);
        StopBurns(sh, a, c, k);
      } else if a.at == InlineSyncs {
        InlineRuns(sh, a);
        InlineBurns(sh, a, c, k);
      } else if a.at == Starting {
        StartingBurns(sh, a, c, k);
      } else if a.at == Reconciling || a.at == ReadingPending || a.at == RollingBack {
        ReconcilingBurns(sh, a, c, k);
      } else if a.at == AtReadGen {
        NewSizes(sh, a, k);
        ReadGenBurns(sh, a, c, k);
      } else if a.at == AtReconcileEnter {
        NewSizes(sh, a, k);
        EnterBurns(sh, a, c, k);
      } else if a.at == AtRelease || a.at == AtReleaseFailed {
        ReleaseBurns(sh, a, c, k);
      } else if Opening(a.at) {
        SavingBurns(sh, a, c, k);
      } else {
        PlainBurns(sh, a, c, k);
      }
    case Visiting(_, _) =>
    case Acknowledging(_) =>
  }

  lemma JoiningIsToDo(sh: Shared, a: ApplyRun)
    requires ApplyOk(sh, a)
    ensures a.joining.Some? ==> a.joining.value in a.todo
  {
    hide TrialOk;
    hide ReconcileOk;
    hide InlineOk;
    hide Admissible;
  }

  lemma ApplyFuelIsNatural(a: ApplyRun, k: nat)
    requires a.joining.Some? ==> a.joining.value in a.todo
    ensures ApplyFuel(a, k) >= 0
  {
    assert StopFuel(a) >= 0 by {
      if a.joining.Some? {
        LessOne(a.todo, a.joining.value);
      }
    }
    hide StopFuel;
    hide SyncFuel;
  }

  lemma FuelIsNatural(sh: Shared, th: Thread, k: nat)
    requires ThreadOk(sh, th)
    ensures Fuel(th, k) >= 0
  {
    if th.Applying? {
      JoiningIsToDo(sh, th.a);
      ApplyFuelIsNatural(th.a, k);
      hide ThreadOk;
      hide ApplyFuel;
    }
  }

  // ---------------------------------------------------------------- all threads

  /** A thread's share of the total: its fuel, and one for leaving. */
  function Share(th: Thread, k: nat): nat {
    if Fuel(th, k) < 0 then 1 else Fuel(th, k) + 1
  }

  ghost function Total(threads: map<nat, Thread>, k: nat): nat
    decreases |threads|
  {
    if threads == map[] then 0
    else
      var t :| t in threads;
      Share(threads[t], k) + Total(threads - {t}, k)
  }

  lemma {:induction false} TotalSplits(threads: map<nat, Thread>, t: nat, k: nat)
    requires t in threads
    ensures Total(threads, k) == Share(threads[t], k) + Total(threads - {t}, k)
    decreases |threads|
  {
    hide Share;
    var u :| u in threads && Total(threads, k) == Share(threads[u], k) + Total(threads - {u}, k);
    if u != t {
      TotalSplits(threads - {u}, t, k);
      TotalSplits(threads - {t}, u, k);
      assert threads - {u} - {t} == threads - {t} - {u};
    }
  }

  ghost predicate AllBounded(s: State, k: nat) {
    SharedBounded(s.sh, k) && forall t | t in s.threads :: ThreadBounded(s.threads[t], k)
  }

  function SizeOf(th: Thread): nat {
    match th
    case Applying(a) =>
      |a.candidate| + |a.before| + |a.watches| + |a.oldWatches| + |a.todo| + |a.names| + |a.dirs| + |a.left|
    case _ => 0
  }

  ghost function SizeOfAll(threads: map<nat, Thread>): (k: nat)
    ensures forall t | t in threads :: SizeOf(threads[t]) <= k
    decreases |threads|
  {
    if threads == map[] then 0
    else
      var t :| t in threads;
      var k := SizeOfAll(threads - {t});
      assert forall u | u in threads && u != t :: u in threads - {t};
      SizeOf(threads[t]) + k
  }

  /** Some bound always fits. */
  lemma SomeBound(s: State) returns (k: nat)
    ensures AllBounded(s, k)
  {
    k := |s.sh.active.cfg| + |s.sh.active.watches| + SizeOfAll(s.threads);
    forall t | t in s.threads
      ensures ThreadBounded(s.threads[t], k)
    {
      assert SizeOf(s.threads[t]) <= SizeOfAll(s.threads);
    }
  }

  /** Replacing a thread by one with a smaller share, or dropping it, lowers the total. */
  lemma TotalShrinks(threads: map<nat, Thread>, t: nat, next: Thread, k: nat)
    requires t in threads
    ensures Total(threads - {t}, k) < Total(threads, k)
    ensures Share(next, k) < Share(threads[t], k) ==> Total(threads[t := next], k) < Total(threads, k)
  {
    var updated := threads[t := next];
    TotalSplits(threads, t, k);
    TotalSplits(updated, t, k);
    assert updated - {t} == threads - {t};
    ShareIsPositive(threads[t], k);
    hide Share;
  }

  lemma ShareIsPositive(th: Thread, k: nat)
    ensures Share(th, k) > 0
  {
  }

  lemma ShareShrinks(sh: Shared, th: Thread, c: Choice, k: nat)
    requires SharedOk(sh) && ThreadOk(sh, th) && SensibleChoice(th, c) && !Finished(th)
    requires ThreadOk(Effect(sh, th, c), Next(sh, th, c))
    requires ThreadBounded(th, k) && SharedBounded(sh, k)
    ensures ThreadBounded(Next(sh, th, c), k) && Share(Next(sh, th, c), k) < Share(th, k)
  {
    StepBurns(sh, th, c, k);
    FuelIsNatural(sh, th, k);
    FuelIsNatural(Effect(sh, th, c), Next(sh, th, c), k);
    hide ThreadOk;
    hide Next;
    hide Effect;
    hide Fuel;
    hide ThreadBounded;
  }

  lemma NoticeHasNoSize(sh: Shared, n: Notice, k: nat)
    requires SharedBounded(sh, k)
    ensures SharedBounded(sh.(notice := n), k)
  {
  }

  /** What a step leaves of a thread: nothing, or less fuel than before. */
  lemma StepBurnsShare(s: State, t: nat, c: Choice, k: nat)
    requires Inv(s) && AllBounded(s, k) && Enabled(s, Step(t, c))
    ensures var next := Next(s.sh, s.threads[t], c);
            Finished(next) || (ThreadBounded(next, k) && Share(next, k) < Share(s.threads[t], k))
  {
    var th := s.threads[t];
    assert ThreadOk(s.sh, th);
    if th.Applying? && th.a.at == AtApply {
      ApplyMuIsFree(s, t, c);
    }
    hide Inv;
    hide NoOwner;
    hide Unblocked;
    hide Next;
    hide Finished;
    hide SensibleChoice;
    hide ThreadOk;
    hide SharedBounded;
    hide ThreadBounded;
    hide Share;
    hide IdleOk;
    assert SharedOk(s.sh) by { SharedPart(s); }
    ThreadKeepsItself(s.sh, th, c);
    if Finished(th) {
      FinishedStays(s.sh, th, c);
    } else {
      ShareShrinks(s.sh, th, c, k);
    }
  }

  lemma SharedPart(s: State)
    requires Inv(s)
    ensures SharedOk(s.sh)
  {
  }

  /** A step of the system burns some of the total. */
  lemma StepBurnsTotal(s: State, t: nat, c: Choice, k: nat)
    requires Inv(s) && AllBounded(s, k) && Enabled(s, Step(t, c))
    ensures AllBounded(After(s, Step(t, c)), k)
    ensures Total(After(s, Step(t, c)).threads, k) < Total(s.threads, k)
  {
    StepBurnsShare(s, t, c, k);
    hide Inv;
    hide Unblocked;
    hide Effect;
    hide Next;
    hide NoticeAfter;
    hide Finished;
    hide SensibleChoice;
    hide SharedBounded;
    hide ThreadBounded;
    hide Share;
    EffectStaysBounded(s.sh, s.threads[t], c, k);
    NoticeHasNoSize(Effect(s.sh, s.threads[t], c), NoticeAfter(s.sh, s.threads[t], c), k);
    TotalShrinks(s.threads, t, Next(s.sh, s.threads[t], c), k);
  }

  lemma FinishedStays(sh: Shared, th: Thread, c: Choice)
    requires Finished(th)
    ensures Finished(Next(sh, th, c))
  {
  }

  ghost predicate OnlySteps(events: seq<Event>) {
    forall i | 0 <= i < |events| :: events[i].Step?
  }

  /** Without new arrivals every run is at most as long as the fuel there is. */
  lemma {:induction false} RunsAreFinite(s: State, events: seq<Event>, k: nat)
    requires Inv(s) && AllBounded(s, k) && IsRun(s, events) && OnlySteps(events)
    ensures |events| <= Total(s.threads, k)
    decreases |events|
  {
    hide Inv;
    hide AllBounded;
    if events != [] {
      StepBurnsTotal(s, events[0].t, events[0].c, k);
      StepKeepsInv(s, events[0]);
      RunsAreFinite(After(s, events[0]), events[1..], k);
    }
  }

  /** One more step, and what it leaves to burn. */
  lemma OneMoreStep(s: State, k: nat) returns (e: Event)
    requires Inv(s) && AllBounded(s, k) && s.threads != map[]
    ensures e.Step? && Enabled(s, e) && Inv(After(s, e)) && AllBounded(After(s, e), k)
    ensures Total(After(s, e).threads, k) < Total(s.threads, k)
  {
    assert ThreadsOk(s);
    hide Inv;
    hide AllBounded;
    hide ThreadsOk;
    hide Enabled;
    var first :| first in s.threads;
    var some := SomeChoice(s.threads[first]);
    var t, c := FollowTheBlockers(s, first, some);
    e := Step(t, c);
    StepBurnsTotal(s, t, c, k);
    StepKeepsInv(s, e);
  }

  lemma {:induction false} RunToTheEnd(s: State, k: nat) returns (events: seq<Event>)
    requires Inv(s) && AllBounded(s, k)
    ensures IsRun(s, events) && OnlySteps(events) && Outcome(s, events).threads == map[]
    decreases Total(s.threads, k)
  {
    hide Inv;
    hide AllBounded;
    hide Enabled;
    hide After;
    if s.threads == map[] {
      return [];
    }
    var e := OneMoreStep(s, k);
    var rest := RunToTheEnd(After(s, e), k);
    events := [e] + rest;
    assert events[1..] == rest;
  }

  /**
    No deadlock and no livelock: from every reachable state, however the
    scheduler and the environment choose, the threads that have arrived make
    only finitely many steps, and they can all get to their end.
   */
  lemma EveryThreadCanFinish(s: State) returns (bound: nat, events: seq<Event>)
    requires Reachable(s)
    ensures forall run | IsRun(s, run) && OnlySteps(run) :: |run| <= bound
    ensures IsRun(s, events) && OnlySteps(events) && Outcome(s, events).threads == map[]
  {
    ReachableInv(s);
    var k := SomeBound(s);
    bound := Total(s.threads, k);
    forall run | IsRun(s, run) && OnlySteps(run)
      ensures |run| <= bound
    {
      RunsAreFinite(s, run, k);
    }
    events := RunToTheEnd(s, k);
  }
}
