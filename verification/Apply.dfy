/**
  Applying a configuration: nothing of the manager's active state changes
  until every file is saved and every watcher runs, and a failure undoes what
  was done outside.
 */
module Apply {
  import opened Options
  import opened ConfigRules
  import opened Secrets
  import opened ApplyWorld
  import FallbackFile

  datatype EntryState = EntryState(config: Entry, fallbackPendingRestart: bool)

  datatype Stage =
    | MissingCredentials | SecretsSave | Cancelled | BadConfig | Runtime
    | Watchers | Fallbacks | ConfigSave | PendingSave

  /** `clean` says that the failing save kept its file and that every compensation reported success. */
  datatype Outcome = Applied | Failed(stage: Stage, clean: bool)

  /** The stages at which no file but the credential store has been written. */
  predicate BeforeTheFiles(stage: Stage) {
    stage != Fallbacks && stage != ConfigSave && stage != PendingSave
  }

  /** The stages at which a call was refused; the others refuse the candidate, or the record, for what it says. */
  predicate ByRefusal(stage: Stage) {
    stage != MissingCredentials && stage != BadConfig && stage != Runtime
  }

  ghost predicate CarriesAll(world: World, policy: Policy, entries: seq<Entry>, dirs: set<string>,
                             files: map<string, FileEntry>) {
    forall d | d in dirs :: FallbackFile.Carries(world.codec, NodeAt(files, d), Wanted(policy, entries, d))
  }

  ghost predicate SameElsewhere(a: map<string, FileEntry>, b: map<string, FileEntry>, dirs: set<string>) {
    forall d | d !in dirs :: NodeAt(a, d) == NodeAt(b, d)
  }

  function AutoNames(entries: seq<Entry>): set<string> {
    set e | e in entries && e.enabled && e.sync.autoSync :: e.name
  }

  ghost predicate StatesOf(entries: seq<Entry>, states: map<string, EntryState>) {
    && (forall e | e in entries :: e.name in states && states[e.name].config == e)
    && (forall n | n in states :: exists e :: e in entries && e.name == n)
  }

  predicate Distinct(watchers: map<string, nat>) {
    forall m, n | m in watchers && n in watchers && m != n :: watchers[m] != watchers[n]
  }

  // ---------------------------------------------------------------- watchers

  method StopWatchers(world: World, watchers: map<string, nat>)
    modifies world`live
    ensures world.live == old(world.live) - watchers.Values
  {
    var left := watchers.Keys;
    while left != {}
      invariant left <= watchers.Keys
      invariant forall h :: h in world.live <==>
                            h in old(world.live) && !(exists n :: n in watchers && n !in left && watchers[n] == h)
    {
      var n :| n in left;
      world.StopWatch(watchers[n]);
      left := left - {n};
    }
  }

  /** One watcher per entry that is enabled and syncs by itself; none of them runs yet. */
  method MakeWatchers(world: World, entries: seq<Entry>) returns (ok: bool, watchers: map<string, nat>)
    requires NamesDiffer(entries)
    modifies world`clock, world`made, world`live
    ensures world.made >= old(world.made)
    ensures forall n | n in watchers :: old(world.made) <= watchers[n] < world.made
    ensures Distinct(watchers)
    ensures ok ==> watchers.Keys == AutoNames(entries) && world.live == old(world.live)
    ensures !ok ==> world.live == old(world.live) - watchers.Values
    ensures world.Grants(WatchMaking) ==> ok
    ensures old(world.clock) <= world.clock
    ensures !ok ==> old(world.clock) < world.clock && !world.answers(world.clock - 1, WatchMaking).ok
  {
    watchers := map[];
    for i := 0 to |entries|
      invariant world.made >= old(world.made) && world.live == old(world.live) && world.clock >= old(world.clock)
      invariant forall n | n in watchers :: old(world.made) <= watchers[n] < world.made
      invariant Distinct(watchers)
      invariant watchers.Keys == AutoNames(entries[..i])
    {
      var e := entries[i];
      assert entries[..i + 1] == entries[..i] + [e];
      assert AutoNames(entries[..i + 1]) ==
             AutoNames(entries[..i]) + if e.enabled && e.sync.autoSync then {e.name} else {};
      if e.enabled && e.sync.autoSync {
        var handle;
        ok, handle := world.MakeWatch();
        if !ok {
          StopWatchers(world, watchers);
          return;
        }
        watchers := watchers[e.name := handle];
      }
    }
    assert entries[..|entries|] == entries;
    ok := true;
  }

  /** Starts them one by one; the first that refuses stops them all. */
  method StartWatchers(world: World, watchers: map<string, nat>) returns (ok: bool)
    requires world.live !! watchers.Values
    modifies world`clock, world`live
    ensures world.live == old(world.live) + if ok then watchers.Values else {}
    ensures world.Grants(WatchStarting) ==> ok
    ensures old(world.clock) <= world.clock
    ensures !ok ==> old(world.clock) < world.clock && !world.answers(world.clock - 1, WatchStarting).ok
  {
    var left := watchers.Keys;
    while left != {}
      invariant left <= watchers.Keys
      invariant old(world.live) <= world.live <= old(world.live) + watchers.Values && world.clock >= old(world.clock)
      invariant forall n | n in watchers && n !in left :: watchers[n] in world.live
    {
      var n :| n in left;
      ok := world.StartWatch(watchers[n]);
      if !ok {
        StopWatchers(world, watchers);
        return;
      }
      left := left - {n};
    }
    ok := true;
  }

  // ---------------------------------------------------------------- fallback files

  /** The table of wanted names is filled entry by entry; a later entry overwrites an earlier one. */
  method DesiredFallbacks(policy: Policy, entries: seq<Entry>) returns (desired: map<string, string>)
    ensures forall d :: (if d in desired then Some(desired[d]) else None) == Wanted(policy, entries, d)
  {
    desired := map[];
    for i := 0 to |entries|
      invariant forall d :: (if d in desired then Some(desired[d]) else None) == Wanted(policy, entries[..i], d)
    {
      assert entries[..i + 1][..i] == entries[..i];
      if entries[i].enabled && entries[i].fallback {
        desired := desired[Dir(policy, entries[i]) := entries[i].destination.targetName];
      }
    }
    assert entries[..|entries|] == entries;
  }

  method AllDirectories(policy: Policy, before: seq<Entry>, after: seq<Entry>) returns (dirs: set<string>)
    ensures dirs == DirsOfBoth(policy, before, after)
  {
    dirs := {};
    for i := 0 to |before|
      invariant dirs == Dirs(policy, before[..i])
    {
      assert before[..i + 1] == before[..i] + [before[i]];
      dirs := dirs + {Dir(policy, before[i])};
    }
    assert before[..|before|] == before;
    for i := 0 to |after|
      invariant dirs == Dirs(policy, before) + Dirs(policy, after[..i])
    {
      assert after[..i + 1] == after[..i] + [after[i]];
      dirs := dirs + {Dir(policy, after[i])};
    }
    assert after[..|after|] == after;
  }

  /** The call for one of these directories was refused at that time. */
  ghost predicate RefusedOneOf(world: World, turn: nat, dirs: set<string>) {
    exists d :: d in dirs && !world.answers(turn, Ensuring(d)).ok
  }

  /** One directory: its file says what is wanted, or the call failed. */
  method ReconcileOne(world: World, policy: Policy, after: seq<Entry>, desired: map<string, string>, d: string)
    returns (changed: bool, ok: bool)
    requires FallbackFile.Faithful(world.codec)
    requires (if d in desired then Some(desired[d]) else None) == Wanted(policy, after, d)
    modifies world`clock, world`files
    ensures NodeAt(world.files, d) == if changed then FallbackFile.Written(world.codec, Wanted(policy, after, d))
                                      else NodeAt(old(world.files), d)
    ensures forall other | other != d :: NodeAt(world.files, other) == NodeAt(old(world.files), other)
    ensures ok ==> FallbackFile.Carries(world.codec, NodeAt(world.files, d), Wanted(policy, after, d))
    ensures world.clock == old(world.clock) + 1
    ensures NoSymlinks(old(world.files)) ==>
              NoSymlinks(world.files) && (ok <==> world.answers(old(world.clock), Ensuring(d)).ok)
  {
    changed, ok := world.Ensure(d, if d in desired then Some(desired[d]) else None);
  }

  /**
    Brings the fallback file of every directory of both configurations to what
    the new one wants, and stops at the first that fails.
   */
  method ReconcileFallbacks(world: World, policy: Policy, before: seq<Entry>, after: seq<Entry>)
    returns (changed: set<string>, ok: bool)
    requires FallbackFile.Faithful(world.codec)
    modifies world`clock, world`files
    ensures SameElsewhere(old(world.files), world.files, DirsOfBoth(policy, before, after))
    ensures ok ==> CarriesAll(world, policy, after, DirsOfBoth(policy, before, after), world.files)
    ensures changed <= DirsOfBoth(policy, before, after)
    ensures forall d :: NodeAt(world.files, d) ==
                        if d in changed then FallbackFile.Written(world.codec, Wanted(policy, after, d))
                        else NodeAt(old(world.files), d)
    ensures old(world.clock) <= world.clock
    ensures NoSymlinks(old(world.files)) ==> NoSymlinks(world.files)
    ensures NoSymlinks(old(world.files)) && world.FilesGrantedFrom(old(world.clock)) ==> ok
    ensures NoSymlinks(old(world.files)) && !ok ==>
              old(world.clock) < world.clock && RefusedOneOf(world, world.clock - 1, DirsOfBoth(policy, before, after))
  {
    hide FallbackFile.Faithful;
    hide FallbackFile.Carries;
    hide FallbackFile.Written;
    hide Wanted;
    hide NoSymlinks;
    hide DirsOfBoth;
    hide NodeAt;
    var dirs := AllDirectories(policy, before, after);
    var desired := DesiredFallbacks(policy, after);
    changed := {};
    var left := dirs;
    while left != {}
      invariant left <= dirs && changed <= dirs - left
      invariant world.clock >= old(world.clock) && (NoSymlinks(old(world.files)) ==> NoSymlinks(world.files))
      invariant CarriesAll(world, policy, after, dirs - left, world.files)
      invariant forall d :: NodeAt(world.files, d) ==
                            if d in changed then FallbackFile.Written(world.codec, Wanted(policy, after, d))
                            else NodeAt(old(world.files), d)
    {
      var d :| d in left;
      var wasChanged;
      wasChanged, ok := ReconcileOne(world, policy, after, desired, d);
      if wasChanged {
        changed := changed + {d};
      }
      if !ok {
        return;
      }
      left := left - {d};
    }
    assert dirs - left == dirs;
    ok := true;
  }

  // ---------------------------------------------------------------- states

  /** A fresh state per entry. */
  method BuildStates(entries: seq<Entry>) returns (states: map<string, EntryState>)
    requires NamesDiffer(entries)
    ensures StatesOf(entries, states)
    ensures forall n | n in states :: !states[n].fallbackPendingRestart
  {
    states := map[];
    for i := 0 to |entries|
      invariant forall k | 0 <= k < i ::
                entries[k].name in states && states[entries[k].name] == EntryState(entries[k], false)
      invariant forall n | n in states ::
                !states[n].fallbackPendingRestart && exists k :: 0 <= k < i && entries[k].name == n
    {
      states := states[entries[i].name := EntryState(entries[i], false)];
    }
    forall n | n in states
      ensures exists e :: e in entries && e.name == n
    {
      var k :| 0 <= k < |entries| && entries[k].name == n;
      assert entries[k] in entries;
    }
  }

  predicate Flagged(policy: Policy, pending: set<string>, s: EntryState) {
    s.fallbackPendingRestart == (s.config.fallback && Dir(policy, s.config) in pending)
  }

  /** Marks the fallback entries whose directory still waits for a restart. */
  method FlagPending(policy: Policy, pending: set<string>, unflagged: map<string, EntryState>)
    returns (states: map<string, EntryState>)
    requires forall n | n in unflagged :: !unflagged[n].fallbackPendingRestart
    ensures states.Keys == unflagged.Keys
    ensures forall n | n in states :: states[n].config == unflagged[n].config && Flagged(policy, pending, states[n])
  {
    states := unflagged;
    var left := states.Keys;
    while left != {}
      invariant left <= unflagged.Keys && states.Keys == unflagged.Keys
      invariant forall n | n in states && n in left :: states[n] == unflagged[n]
      invariant forall n | n in states && n !in left ::
                states[n].config == unflagged[n].config && Flagged(policy, pending, states[n])
    {
      var n :| n in left;
      if states[n].config.fallback {
        states := states[n := states[n].(fallbackPendingRestart := Dir(policy, states[n].config) in pending)];
      }
      left := left - {n};
    }
  }

  lemma FlagsKeepStates(entries: seq<Entry>, a: map<string, EntryState>, b: map<string, EntryState>)
    requires StatesOf(entries, a) && b.Keys == a.Keys && forall n | n in b :: b[n].config == a[n].config
    ensures StatesOf(entries, b)
  {
  }

  /** A deep copy of the candidate, normalised in place. */
  method CloneAndNormalize(candidate: Config) returns (staged: Config)
    ensures staged == Staged(candidate)
  {
    var n := |candidate.certificates|;
    var certificates := new Entry[n](i requires 0 <= i < n => candidate.certificates[i]);
    assert certificates[..] == candidate.certificates;
    NormalizeInPlace(certificates);
    staged := Config(certificates[..], NormalizedLevel(candidate.logLevel));
  }

  // ---------------------------------------------------------------- the manager

  function Staged(candidate: Config): Config {
    Config(AllNormalized(candidate.certificates), NormalizedLevel(candidate.logLevel))
  }

  ghost predicate Acceptable(policy: Policy, staged: Config, secrets: Data) {
    && ValidLevel(staged.logLevel) && WellFormed(policy, staged.certificates)
    && AllCredentialed(staged.certificates, secrets)
  }

  /** Everything an apply may replace, and only replaces as a whole. */
  datatype Active = Active(
    cfg: Config,
    secrets: Data,
    states: map<string, EntryState>,
    watchers: map<string, nat>,
    generation: nat)

  class Manager {
    const policy: Policy
    const world: World
    var cfg: Config
    var secrets: Data
    var states: map<string, EntryState>
    var watchers: map<string, nat>
    var generation: nat
    var pending: set<string>
    var runtimeLoaded: bool

    ghost function Now(): Active
      reads this
    {
      Active(cfg, secrets, states, watchers, generation)
    }

    /** The active watchers are exactly the ones that run. */
    ghost predicate Valid()
      reads this, world
    {
      && FallbackFile.Faithful(world.codec)
      && WellFormed(policy, cfg.certificates)
      && StatesOf(cfg.certificates, states)
      && watchers.Keys == AutoNames(cfg.certificates)
      && Distinct(watchers)
      && world.live == watchers.Values
      && forall n | n in watchers :: watchers[n] < world.made
    }

    /** As main builds it: an empty configuration, whatever the disk holds. */
    constructor (policy: Policy, world: World, secrets: Data)
      requires FallbackFile.Faithful(world.codec) && world.live == {}
      ensures Valid() && Now() == Active(Config([], "info"), secrets, map[], map[], 0)
      ensures this.policy == policy && this.world == world && pending == {} && !runtimeLoaded
    {
      this.policy, this.world, this.secrets := policy, world, secrets;
      cfg, states, watchers, generation := Config([], "info"), map[], map[], 0;
      pending, runtimeLoaded := {}, false;
    }

    /** The entries with a running watcher are exactly the enabled ones that sync by themselves. */
    lemma AutoEntriesAreWatched(e: Entry)
      requires Valid() && e in cfg.certificates
      ensures e.enabled && e.sync.autoSync <==> e.name in watchers && watchers[e.name] in world.live
    {
      if e.name in watchers {
        var other :| other in cfg.certificates && other.enabled && other.sync.autoSync && other.name == e.name;
        FindIsUnique(cfg.certificates, e);
        FindIsUnique(cfg.certificates, other);
      }
    }

    /** A recorded directory has to resolve to itself. */
    predicate Canonical(destination: string) {
      destination in policy.destinations && policy.destinations[destination] == destination
    }

    /** The record has been read, or can be. */
    ghost predicate RecordReadable()
      reads this, world
    {
      runtimeLoaded || forall d | d in world.pendingFile :: Canonical(d)
    }

    /** Reads the record of pending restarts, the first time only. */
    method LoadRuntimeState() returns (ok: bool)
      modifies this`pending, this`runtimeLoaded, world`clock
      ensures old(runtimeLoaded) ==> ok && pending == old(pending)
      ensures !old(runtimeLoaded) && ok ==> pending == world.pendingFile && forall d | d in pending :: Canonical(d)
      ensures runtimeLoaded == (ok || old(runtimeLoaded))
      ensures old(world.clock) <= world.clock
      ensures !old(runtimeLoaded) ==> (ok <==> world.answers(old(world.clock), LoadRuntime).ok && old(RecordReadable()))
    {
      if runtimeLoaded {
        return true;
      }
      pending := {};
      var a := world.Ask(LoadRuntime);
      if !a.ok {
        return false;
      }
      var left := world.pendingFile;
      while left != {}
        invariant left <= world.pendingFile && pending == world.pendingFile - left
        invariant forall d | d in pending :: Canonical(d)
        invariant !runtimeLoaded && world.clock > old(world.clock)
      {
        var destination :| destination in left;
        if !Canonical(destination) {
          return false;
        }
        pending := pending + {destination};
        left := left - {destination};
      }
      runtimeLoaded := true;
      ok := true;
    }

    /** Records that Zoraxy has to be restarted for these directories; in memory only once it is on disk. */
    method MarkFallbackPending(destinations: set<string>) returns (ok: bool)
      modifies this`pending, world`clock, world`pendingFile
      ensures pending == if ok then old(pending) + destinations else old(pending)
      ensures destinations == {} ==> ok && world.pendingFile == old(world.pendingFile)
      ensures ok && destinations != {} ==> world.pendingFile == pending
      ensures destinations != {} ==>
                world.clock == old(world.clock) + 1 && (ok <==> world.answers(old(world.clock), PendingSaving).ok)
    {
      if destinations == {} {
        return true;
      }
      var next := pending + destinations;
      ok := world.SavePending(next);
      if ok {
        pending := next;
      }
    }

    method AcknowledgeFallbackRestart(cancelled: bool) returns (ok: bool)
      modifies this`pending, this`states, world`clock, world`pendingFile
      ensures !ok ==> pending == old(pending) && states == old(states)
      ensures cancelled ==> !ok
      ensures ok ==> pending == {} && (old(pending) != {} ==> world.pendingFile == {})
      ensures ok && old(pending) == {} ==> states == old(states)
      ensures states.Keys == old(states).Keys
      ensures forall n | n in states :: states[n].config == old(states)[n].config
      ensures ok && old(pending) != {} ==> forall n | n in states :: !states[n].fallbackPendingRestart
      ensures world.Grants(PendingSaving) && !cancelled ==> ok
    {
      if cancelled {
        return false;
      }
      if pending == {} {
        return true;
      }
      ok := world.SavePending({});
      if !ok {
        return;
      }
      pending := {};
      ClearPendingStates();
    }

    method ClearPendingStates()
      modifies this`states
      ensures states.Keys == old(states).Keys
      ensures forall n | n in states :: states[n] == old(states)[n].(fallbackPendingRestart := false)
    {
      var left := states.Keys;
      while left != {}
        invariant left <= old(states).Keys && states.Keys == old(states).Keys
        invariant forall n | n in states && n in left :: states[n] == old(states)[n]
        invariant forall n | n in states && n !in left :: states[n] == old(states)[n].(fallbackPendingRestart := false)
      {
        var n :| n in left;
        states := states[n := states[n].(fallbackPendingRestart := false)];
        left := left - {n};
      }
    }

    // -------------------------------------------------------------- applying

    ghost function Both(staged: seq<Entry>): set<string>
      reads this
    {
      DirsOfBoth(policy, cfg.certificates, staged)
    }

    /** What a failed apply leaves of the files, which were `files` and `config` before it. */
    ghost predicate FailureLeaves(r: Outcome, staged: seq<Entry>, files: map<string, FileEntry>, config: Option<Config>)
      reads this, world`files, world`configFile
      requires r.Failed?
    {
      && (BeforeTheFiles(r.stage) ==> world.files == files && world.configFile == config)
      && (r.clean ==> world.configFile == if r.stage == PendingSave then Some(cfg) else config)
      && (r.clean && !BeforeTheFiles(r.stage) ==>
            CarriesAll(world, policy, cfg.certificates, Both(staged), world.files))
    }

    /** What an apply that succeeds leaves, for `before` and `files` as they were. */
    ghost predicate SuccessLeaves(staged: Config, before: Config, files: map<string, FileEntry>)
      reads this, world`files, world`configFile
    {
      && cfg == staged && world.configFile == Some(cfg)
      && CarriesAll(world, policy, cfg.certificates,
                    DirsOfBoth(policy, before.certificates, cfg.certificates), world.files)
      && (forall d | NodeAt(world.files, d) != NodeAt(files, d) :: d in pending)
      && (forall n | n in states :: Flagged(policy, pending, states[n]))
    }

    /**
      How an apply ends when nothing is refused but, perhaps, the configuration
      save or the record of pending restarts; `files` and `dirs` are the files
      and the directories of both configurations as they were.
     */
    ghost predicate EndsAsForetold(r: Outcome, staged: seq<Entry>, files: map<string, FileEntry>, dirs: set<string>) {
      && (world.Grants(ConfigSaving) && world.Grants(PendingSaving) ==> r == Applied)
      && (world.Refuses(ConfigSaving) ==> r == Failed(ConfigSave, true))
      && (world.Grants(ConfigSaving) && world.Refuses(PendingSaving)
             && !CarriesAll(world, policy, staged, dirs, files) ==>
            r == Failed(PendingSave, true))
    }

    /** What failed at that turn. */
    ghost predicate RefusedAt(stage: Stage, turn: nat, staged: seq<Entry>)
      reads this
    {
      match stage
      case SecretsSave => !world.answers(turn, SecretsSaving).ok
      case Cancelled => !world.answers(turn, Context).ok
      case Watchers => !world.answers(turn, WatchMaking).ok || !world.answers(turn, WatchStarting).ok
      case Fallbacks => RefusedOneOf(world, turn, Both(staged))
      case ConfigSave => !world.answers(turn, ConfigSaving).ok
      case PendingSave => !world.answers(turn, PendingSaving).ok
      case _ => !ByRefusal(stage)
    }

    /** The failing save kept its file, and every call that undoes that stage is granted from `turn` on. */
    ghost predicate CanUndo(stage: Stage, turn: nat, files: map<string, FileEntry>) {
      && (!BeforeTheFiles(stage) ==> NoSymlinks(files) && world.FilesGrantedFrom(turn))
      && (stage == ConfigSave ==> turn > 0 && !world.answers(turn - 1, ConfigSaving).changed)
      && (stage == PendingSave ==> world.GrantsFrom(turn, ConfigSaving))
    }

    /** The same for the credential file: it was kept, or can be saved back. */
    ghost predicate CanRestoreSecrets(stage: Stage, turn: nat) {
      if stage == SecretsSave then turn > 0 && !world.answers(turn - 1, SecretsSaving).changed
      else world.GrantsFrom(turn, SecretsSaving)
    }

    /** The failure at `turn`: the call before it was refused, and what can be undone from there has been undone. */
    ghost predicate Undone(r: Outcome, turn: nat, staged: seq<Entry>, files: map<string, FileEntry>, start: nat)
      reads this, world
    {
      r.Failed? ==>
        && start <= turn <= world.clock
        && (ByRefusal(r.stage) && NoSymlinks(files) ==> start < turn && RefusedAt(r.stage, turn - 1, staged))
        && (CanUndo(r.stage, turn, files) ==> r.clean)
        && (!BeforeTheFiles(r.stage) && NoSymlinks(files) && world.FilesGrantedFrom(turn) ==>
              CarriesAll(world, policy, cfg.certificates, Both(staged), world.files))
        && (r.stage == PendingSave && world.GrantsFrom(turn, ConfigSaving) ==> world.configFile == Some(cfg))
    }

    /** The same for the whole apply, credentials included. */
    ghost predicate AllUndone(r: Outcome, turn: nat, staged: seq<Entry>, files: map<string, FileEntry>, start: nat)
      reads this, world
    {
      r.Failed? ==>
        && start <= turn <= world.clock
        && (ByRefusal(r.stage) && NoSymlinks(files) ==> start < turn && RefusedAt(r.stage, turn - 1, staged))
        && (CanUndo(r.stage, turn, files) && CanRestoreSecrets(r.stage, turn) ==> r.clean)
        && (!BeforeTheFiles(r.stage) && NoSymlinks(files) && world.FilesGrantedFrom(turn) ==>
              CarriesAll(world, policy, cfg.certificates, Both(staged), world.files))
        && (r.stage == PendingSave && world.GrantsFrom(turn, ConfigSaving) ==> world.configFile == Some(cfg))
    }

    /** The compensation of the fallback files, and how it went. */
    method UndoFallbacks(staged: seq<Entry>) returns (ok: bool)
      requires FallbackFile.Faithful(world.codec)
      modifies world`clock, world`files
      ensures SameElsewhere(old(world.files), world.files, DirsOfBoth(policy, cfg.certificates, staged))
      ensures ok ==>
                CarriesAll(world, policy, cfg.certificates, DirsOfBoth(policy, cfg.certificates, staged), world.files)
      ensures NoSymlinks(old(world.files)) && world.FilesGrantedFrom(old(world.clock)) ==> ok
      ensures old(world.clock) <= world.clock
    {
      var changed;
      changed, ok := ReconcileFallbacks(world, policy, staged, cfg.certificates);
      assert DirsOfBoth(policy, staged, cfg.certificates) == DirsOfBoth(policy, cfg.certificates, staged);
    }

    lemma SameNodesCarry(entries: seq<Entry>, dirs: set<string>, before: map<string, FileEntry>)
      requires CarriesAll(world, policy, entries, dirs, world.files)
      requires forall d :: NodeAt(world.files, d) == NodeAt(before, d)
      ensures CarriesAll(world, policy, entries, dirs, before)
    {
      forall d | d in dirs
        ensures FallbackFile.Carries(world.codec, NodeAt(before, d), Wanted(policy, entries, d))
      {
        assert NodeAt(world.files, d) == NodeAt(before, d);
      }
    }

    /** The files of a candidate: fallback files, the configuration, and the record of pending restarts. */
    method PersistCandidate(staged: Config) returns (r: Outcome, changed: set<string>, ghost turn: nat)
      requires FallbackFile.Faithful(world.codec)
      modifies this`pending, world`clock, world`files, world`configFile, world`pendingFile
      ensures r.Failed? ==> !BeforeTheFiles(r.stage) && pending == old(pending)
      ensures r.Failed? ==> FailureLeaves(r, staged.certificates, old(world.files), old(world.configFile))
      ensures SameElsewhere(old(world.files), world.files, Both(staged.certificates))
      ensures Undone(r, turn, staged.certificates, old(world.files), old(world.clock))
      ensures r == Applied ==> world.configFile == Some(staged) && pending == old(pending) + changed
      ensures r == Applied ==> CarriesAll(world, policy, staged.certificates, Both(staged.certificates), world.files)
      ensures r == Applied ==> forall d | NodeAt(world.files, d) != NodeAt(old(world.files), d) :: d in pending
      ensures world.Obliging() && NoSymlinks(old(world.files)) ==>
                EndsAsForetold(r, staged.certificates, old(world.files), Both(staged.certificates))
    {
      hide FallbackFile.Faithful;
      hide CarriesAll;
      hide NoSymlinks;
      hide NodeAt;
      hide RefusedOneOf;
      hide DirsOfBoth;
      var ok;
      changed, ok := ReconcileFallbacks(world, policy, cfg.certificates, staged.certificates);
      turn := world.clock;
      if !ok {
        var undone := UndoFallbacks(staged.certificates);
        return Failed(Fallbacks, undone), changed, turn;
      }
      if changed == {} {
        SameNodesCarry(staged.certificates, Both(staged.certificates), old(world.files));
      }
      r, turn := SaveCandidate(staged, changed);
    }

    /** The configuration and the record of pending restarts, behind a reconciliation that changed these directories. */
    method SaveCandidate(staged: Config, changed: set<string>) returns (r: Outcome, ghost turn: nat)
      requires FallbackFile.Faithful(world.codec)
      modifies this`pending, world`clock, world`files, world`configFile, world`pendingFile
      ensures r.Failed? ==> r.stage in {ConfigSave, PendingSave} && pending == old(pending)
      ensures r.Failed? ==> FailureLeaves(r, staged.certificates, old(world.files), old(world.configFile))
      ensures Undone(r, turn, staged.certificates, old(world.files), old(world.clock))
      ensures SameElsewhere(old(world.files), world.files, Both(staged.certificates))
      ensures r == Applied ==>
                world.files == old(world.files) && world.configFile == Some(staged) && pending == old(pending) + changed
      ensures world.Grants(ConfigSaving) && (world.Grants(PendingSaving) || changed == {}) ==> r == Applied
      ensures world.Refuses(ConfigSaving) ==> r.Failed? && r.stage == ConfigSave
      ensures world.Grants(ConfigSaving) && world.Refuses(PendingSaving) && changed != {} ==>
                r.Failed? && r.stage == PendingSave
    {
      hide FallbackFile.Faithful;
      hide CarriesAll;
      hide NoSymlinks;
      hide NodeAt;
      hide RefusedOneOf;
      hide DirsOfBoth;
      var saved := world.SaveConfig(staged);
      turn := world.clock;
      if saved != Saved {
        var undone := UndoFallbacks(staged.certificates);
        return Failed(ConfigSave, undone && saved == Kept), turn;
      }
      var ok := MarkFallbackPending(changed);
      turn := world.clock;
      if !ok {
        saved := world.SaveConfig(cfg);
        var undone := UndoFallbacks(staged.certificates);
        return Failed(PendingSave, undone && saved == Saved), turn;
      }
      r := Applied;
    }

    /** The candidate's watchers, made and started; otherwise nothing runs that did not run before. */
    method WatchCandidate(entries: seq<Entry>) returns (ok: bool, candidates: map<string, nat>)
      requires Valid() && NamesDiffer(entries)
      modifies world`clock, world`made, world`live
      ensures world.made >= old(world.made)
      ensures ok ==> candidates.Keys == AutoNames(entries) && Distinct(candidates)
      ensures ok ==> world.live == old(world.live) + candidates.Values
      ensures ok ==> forall n | n in candidates :: old(world.made) <= candidates[n] < world.made
      ensures !ok ==> world.live == old(world.live)
      ensures world.Grants(WatchMaking) && world.Grants(WatchStarting) ==> ok
      ensures old(world.clock) <= world.clock
      ensures !ok ==> old(world.clock) < world.clock &&
                      (|| !world.answers(world.clock - 1, WatchMaking).ok
                       || !world.answers(world.clock - 1, WatchStarting).ok)
    {
      hide FallbackFile.Faithful;
      hide WellFormed;
      hide StatesOf;
      ghost var running := world.live;
      ok, candidates := MakeWatchers(world, entries);
      assert running !! candidates.Values;
      if ok {
        ok := StartWatchers(world, candidates);
      }
    }

    /** What can refuse a candidate before anything outside is touched. */
    method CheckCandidate(candidate: Option<Config>, stagedSecrets: Data)
      returns (refused: Option<Stage>, staged: Config)
      modifies this`pending, this`runtimeLoaded, world`clock
      ensures old(world.clock) <= world.clock
      ensures old(runtimeLoaded) ==> pending == old(pending)
      ensures refused.Some? ==> refused.value in {Cancelled, BadConfig, MissingCredentials, Runtime}
      ensures refused == Some(Cancelled) <==> !world.answers(old(world.clock), Context).ok
      ensures refused == Some(Cancelled) ==> world.clock == old(world.clock) + 1
      ensures refused == None ==>
                && candidate.Some? && staged == Staged(candidate.value) && WellFormed(policy, staged.certificates)
                && ValidLevel(staged.logLevel) && AllCredentialed(staged.certificates, stagedSecrets) && runtimeLoaded
      ensures refused == Some(BadConfig) && candidate.Some? ==>
                var s := Staged(candidate.value); !(ValidLevel(s.logLevel) && WellFormed(policy, s.certificates))
      ensures refused == Some(MissingCredentials) ==>
                candidate.Some? && !AllCredentialed(Staged(candidate.value).certificates, stagedSecrets)
      ensures world.Grants(Context) && world.Grants(LoadRuntime) && old(RecordReadable())
              && candidate.Some? && Acceptable(policy, Staged(candidate.value), stagedSecrets) ==>
                refused == None
    {
      staged := Config([], "");
      var context := world.Ask(Context);
      if !context.ok {
        return Some(Cancelled), staged;
      }
      if candidate == None {
        return Some(BadConfig), staged;
      }
      staged := CloneAndNormalize(candidate.value);
      var verdict := Validate(policy, staged);
      if verdict != Accepted {
        return Some(BadConfig), staged;
      }
      var ok := ValidateRemoteCredentials(staged.certificates, stagedSecrets);
      if !ok {
        return Some(MissingCredentials), staged;
      }
      ok := LoadRuntimeState();
      refused := if ok then None else Some(Runtime);
    }

    /** Validity does not depend on the oracle's clock or on the record of pending restarts. */
    twostate lemma StaysValid()
      requires old(Valid())
      requires Now() == old(Now()) && world.live == old(world.live) && world.made >= old(world.made)
      ensures Valid()
    {
    }

    /** The activation: everything the manager serves from is replaced at once, then the old watchers stop. */
    method Activate(staged: Config, stagedSecrets: Data, newStates: map<string, EntryState>,
                    newWatchers: map<string, nat>)
      requires FallbackFile.Faithful(world.codec) && WellFormed(policy, staged.certificates)
      requires StatesOf(staged.certificates, newStates) && Distinct(newWatchers)
      requires newWatchers.Keys == AutoNames(staged.certificates)
      requires world.live == watchers.Values + newWatchers.Values && watchers.Values !! newWatchers.Values
      requires forall n | n in newWatchers :: newWatchers[n] < world.made
      modifies this`cfg, this`secrets, this`states, this`watchers, this`generation, world`live
      ensures Valid() && Now() == Active(staged, stagedSecrets, newStates, newWatchers, old(generation) + 1)
    {
      hide FallbackFile.Faithful;
      hide WellFormed;
      hide StatesOf;
      var oldWatchers := watchers;
      cfg := staged;
      secrets := stagedSecrets;
      states := newStates;
      watchers := newWatchers;
      generation := generation + 1;
      StopWatchers(world, oldWatchers);
    }

    /**
      applyConfigLocked up to the inline syncs: all or nothing. A failure leaves
      the active state as it was and stops every watcher made for the candidate.
     */
    method ApplyConfigLocked(candidate: Option<Config>, stagedSecrets: Data) returns (r: Outcome, ghost turn: nat)
      requires Valid()
      modifies this, world`clock, world`made, world`live, world`files, world`configFile, world`pendingFile
      ensures Valid()
      ensures r.Failed? ==> r.stage != SecretsSave
      ensures !world.answers(old(world.clock), Context).ok ==> r == Failed(Cancelled, true)
      ensures candidate.Some? ==>
                Undone(r, turn, Staged(candidate.value).certificates, old(world.files), old(world.clock))
      ensures r.Failed? ==> Now() == old(Now()) && (old(runtimeLoaded) ==> pending == old(pending))
      ensures r.Failed? && BeforeTheFiles(r.stage) ==> r.clean
      ensures candidate == None ==>
                && r.Failed? && BeforeTheFiles(r.stage)
                && world.files == old(world.files) && world.configFile == old(world.configFile)
      ensures r.Failed? && candidate.Some? ==>
                FailureLeaves(r, Staged(candidate.value).certificates, old(world.files), old(world.configFile))
      ensures candidate.Some? ==>
                SameElsewhere(old(world.files), world.files, old(Both(Staged(candidate.value).certificates)))
      ensures r == Applied ==> candidate.Some? && SuccessLeaves(Staged(candidate.value), old(cfg), old(world.files))
      ensures r == Applied ==> secrets == stagedSecrets && generation == old(generation) + 1
      ensures r == Applied ==> AllCredentialed(cfg.certificates, secrets)
      ensures r == Applied ==> forall n | n in watchers :: watchers[n] >= old(world.made)
      ensures world.Obliging() && old(RecordReadable()) && NoSymlinks(old(world.files))
              && candidate.Some? && Acceptable(policy, Staged(candidate.value), stagedSecrets) ==>
                var certificates := Staged(candidate.value).certificates;
                EndsAsForetold(r, certificates, old(world.files), old(Both(certificates)))
    {
      hide CarriesAll;
      hide Valid;
      hide WellFormed;
      hide AllCredentialed;
      hide Staged;
      hide Flagged;
      hide DirsOfBoth;
      hide Acceptable;
      hide ValidLevel;
      var refused, staged := CheckCandidate(candidate, stagedSecrets);
      if refused.Some? {
        StaysValid();
        return Failed(refused.value, true), world.clock;
      }
      StaysValid();
      r, turn := CommitCandidate(staged, stagedSecrets);
    }

    /** From the first watcher to the activation, for a candidate that was accepted. */
    method CommitCandidate(staged: Config, stagedSecrets: Data) returns (r: Outcome, ghost turn: nat)
      requires Valid() && WellFormed(policy, staged.certificates)
      modifies this`pending, this`cfg, this`secrets, this`states, this`watchers, this`generation
      modifies world`clock, world`made, world`live, world`files, world`configFile, world`pendingFile
      ensures Valid()
      ensures r.Failed? ==> r.stage != SecretsSave
      ensures Undone(r, turn, staged.certificates, old(world.files), old(world.clock))
      ensures r.Failed? ==> Now() == old(Now()) && pending == old(pending)
      ensures r.Failed? && BeforeTheFiles(r.stage) ==> r.clean
      ensures r.Failed? ==> FailureLeaves(r, staged.certificates, old(world.files), old(world.configFile))
      ensures SameElsewhere(old(world.files), world.files, old(Both(staged.certificates)))
      ensures r == Applied ==> SuccessLeaves(staged, old(cfg), old(world.files))
      ensures r == Applied ==> secrets == stagedSecrets && generation == old(generation) + 1
      ensures r == Applied ==> forall n | n in watchers :: watchers[n] >= old(world.made)
      ensures world.Obliging() && NoSymlinks(old(world.files)) ==>
                EndsAsForetold(r, staged.certificates, old(world.files), old(Both(staged.certificates)))
    {
      assert NamesDiffer(staged.certificates);
      hide FallbackFile.Faithful;
      hide WellFormed;
      hide StatesOf;
      hide CarriesAll;
      hide Dirs;
      hide Flagged;
      hide AutoNames;
      var newStates := BuildStates(staged.certificates);
      var ok, newWatchers := WatchCandidate(staged.certificates);
      if !ok {
        return Failed(Watchers, true), world.clock;
      }
      r, turn := FinishCandidate(staged, stagedSecrets, newStates, newWatchers);
      if r.Failed? {
        StaysValid();
      }
    }

    /** The last look at the context, the files and the activation, with the candidate's watchers running. */
    method FinishCandidate(staged: Config, stagedSecrets: Data, newStates: map<string, EntryState>,
                           newWatchers: map<string, nat>)
      returns (r: Outcome, ghost turn: nat)
      requires FallbackFile.Faithful(world.codec) && WellFormed(policy, staged.certificates)
      requires StatesOf(staged.certificates, newStates)
      requires forall n | n in newStates :: !newStates[n].fallbackPendingRestart
      requires newWatchers.Keys == AutoNames(staged.certificates) && Distinct(newWatchers)
      requires world.live == watchers.Values + newWatchers.Values && watchers.Values !! newWatchers.Values
      requires forall n | n in newWatchers :: newWatchers[n] < world.made
      modifies this`pending, this`cfg, this`secrets, this`states, this`watchers, this`generation
      modifies world`clock, world`live, world`files, world`configFile, world`pendingFile
      ensures r == Applied ==> Valid() && SuccessLeaves(staged, old(cfg), old(world.files))
      ensures r.Failed? && r.stage == Cancelled <==> !world.answers(old(world.clock), Context).ok
      ensures r == Applied ==> secrets == stagedSecrets && watchers == newWatchers && generation == old(generation) + 1
      ensures r.Failed? ==> r.stage != SecretsSave
      ensures Undone(r, turn, staged.certificates, old(world.files), old(world.clock))
      ensures r.Failed? ==> Now() == old(Now()) && pending == old(pending) && world.live == watchers.Values
      ensures r.Failed? && BeforeTheFiles(r.stage) ==> r.clean
      ensures r.Failed? ==> FailureLeaves(r, staged.certificates, old(world.files), old(world.configFile))
      ensures SameElsewhere(old(world.files), world.files, old(Both(staged.certificates)))
      ensures world.Obliging() && NoSymlinks(old(world.files)) ==>
                EndsAsForetold(r, staged.certificates, old(world.files), old(Both(staged.certificates)))
    {
      hide FallbackFile.Faithful;
      hide WellFormed;
      hide StatesOf;
      hide CarriesAll;
      hide Dirs;
      hide Flagged;
      hide Valid;
      hide AutoNames;
      hide Distinct;
      var context := world.Ask(Context);
      if !context.ok {
        StopWatchers(world, newWatchers);
        return Failed(Cancelled, true), world.clock;
      }
      var changed;
      r, changed, turn := PersistCandidate(staged);
      if r.Failed? {
        StopWatchers(world, newWatchers);
        return;
      }
      var flagged := FlagPending(policy, pending, newStates);
      FlagsKeepStates(staged.certificates, newStates, flagged);
      Activate(staged, stagedSecrets, flagged, newWatchers);
    }

    /** That fallback.json says what it said before exactly when it agreed with the active configuration. */
    ghost predicate SaysTheSameIfAgreed(before: map<string, FileEntry>, d: string)
      reads this, world`files
    {
      FallbackFile.Says(world.codec, NodeAt(world.files, d)) == FallbackFile.Says(world.codec, NodeAt(before, d)) <==>
      FallbackFile.Carries(world.codec, NodeAt(before, d), Wanted(policy, cfg.certificates, d))
    }

    lemma UndoneSaysExactly(r: Outcome, staged: seq<Entry>, before: map<string, FileEntry>, config: Option<Config>)
      requires r.Failed? && r.clean && !BeforeTheFiles(r.stage) && FailureLeaves(r, staged, before, config)
      ensures forall d | d in Both(staged) :: SaysTheSameIfAgreed(before, d)
    {
      forall d | d in Both(staged)
        ensures SaysTheSameIfAgreed(before, d)
      {
        var wanted := Wanted(policy, cfg.certificates, d);
        FallbackFile.CarriesIsSaying(world.codec, NodeAt(world.files, d), wanted);
        FallbackFile.CarriesIsSaying(world.codec, NodeAt(before, d), wanted);
        assert FallbackFile.Carries(world.codec, NodeAt(world.files, d), wanted);
      }
    }

    /** The credentials fit the candidate as it was sent and as it is staged, and it breaks no rule. */
    ghost predicate CanApply(candidate: Config, requested: Data) {
      && AllCredentialed(candidate.certificates, Pruned(candidate.certificates, requested))
      && Acceptable(policy, Staged(candidate), Pruned(candidate.certificates, requested))
    }

    /** Disk and memory agree on what an apply of `staged` could touch. */
    ghost predicate Agrees(staged: seq<Entry>)
      reads this, world
    {
      && world.configFile == Some(cfg) && world.secretsFile == secrets
      && CarriesAll(world, policy, cfg.certificates, DirsOfBoth(policy, cfg.certificates, staged), world.files)
    }

    /**
      The whole apply, credentials first. Failing leaves the active state alone;
      failing cleanly leaves disk and memory in agreement if they agreed before.
      Succeeding leaves exactly one set of keys per remote entry.

      A clean failure past the configuration save leaves the active configuration
      on disk: on the first apply that is the empty one main starts with.
     */
    method ApplyConfigAndSecrets(candidate: Option<Config>, requested: Data) returns (r: Outcome, ghost turn: nat)
      requires Valid()
      modifies this, world
      ensures Valid()
      ensures candidate.Some? ==>
                AllUndone(r, turn, Staged(candidate.value).certificates, old(world.files), old(world.clock))
      ensures r.Failed? && r.stage != SecretsSave && world.GrantsFrom(turn, SecretsSaving)
              && old(world.secretsFile) == secrets ==>
                world.secretsFile == secrets
      ensures candidate == None ==>
                && r == Failed(MissingCredentials, true) && world.secretsFile == old(world.secretsFile)
                && world.files == old(world.files) && world.configFile == old(world.configFile)
      ensures r.Failed? ==> Now() == old(Now()) && (old(runtimeLoaded) ==> pending == old(pending))
      ensures r.Failed? && candidate.Some? ==>
                FailureLeaves(r, Staged(candidate.value).certificates, old(world.files), old(world.configFile))
      ensures r.Failed? && r.clean && candidate.Some? && old(Agrees(Staged(candidate.value).certificates)) ==>
                Agrees(Staged(candidate.value).certificates)
      ensures r.Failed? && r.clean ==>
                (world.configFile == old(world.configFile) <==>
                 r.stage != PendingSave || old(world.configFile) == Some(cfg))
      ensures r.Failed? && r.clean && !BeforeTheFiles(r.stage) ==>
                && candidate.Some?
                && forall d | d in Both(Staged(candidate.value).certificates) ::
                     SaysTheSameIfAgreed(old(world.files), d)
      ensures candidate.Some? ==>
                SameElsewhere(old(world.files), world.files, old(Both(Staged(candidate.value).certificates)))
      ensures r == Applied ==> candidate.Some? && SuccessLeaves(Staged(candidate.value), old(cfg), old(world.files))
      ensures r == Applied ==> generation == old(generation) + 1
      ensures r == Applied ==> secrets == Pruned(candidate.value.certificates, requested)
      ensures r == Applied ==>
                secrets.Keys == RemoteNames(cfg.certificates) && AllCredentialed(cfg.certificates, secrets)
      ensures candidate.Some? && old(secrets) == Pruned(candidate.value.certificates, requested) ==>
                world.secretsFile == old(world.secretsFile)
      ensures r == Applied ==> (old(world.secretsFile) == old(secrets) ==> world.secretsFile == secrets)
      ensures r == Applied ==> forall n | n in watchers :: watchers[n] >= old(world.made)
      ensures world.Obliging() && old(RecordReadable()) && NoSymlinks(old(world.files))
              && candidate.Some? && CanApply(candidate.value, requested) ==>
                var certificates := Staged(candidate.value).certificates;
                EndsAsForetold(r, certificates, old(world.files), old(Both(certificates)))
    {
      turn := world.clock;
      if candidate == None {
        return Failed(MissingCredentials, true), turn;
      }
      hide EndsAsForetold;
      hide RefusedAt;
      hide SuccessLeaves;
      hide CanUndo;
      hide Acceptable;
      hide CanRestoreSecrets;
      hide CarriesAll;
      hide DirsOfBoth;
      hide Flagged;
      hide Staged;
      hide Valid;
      hide AllCredentialed;
      hide Pruned;
      hide RemoteNames;
      hide NodeAt;
      hide SaysTheSameIfAgreed;
      var nextSecrets := PruneSecrets(candidate.value.certificates, requested);
      var ok := ValidateRemoteCredentials(candidate.value.certificates, nextSecrets);
      if !ok {
        return Failed(MissingCredentials, true), turn;
      }
      r, turn := ApplyWithSecrets(candidate.value, nextSecrets);
      if r == Applied {
        OneKeyPerRemote(candidate.value, requested);
      }
    }

    lemma NothingLeft(stage: Stage, clean: bool, staged: seq<Entry>)
      requires BeforeTheFiles(stage)
      ensures FailureLeaves(Failed(stage, clean), staged, world.files, world.configFile)
    {
    }

    /** An outcome that is no cleaner promises no more, and a clean one brings the agreement back. */
    lemma LeavesNoMore(r: Outcome, worse: Outcome, staged: seq<Entry>, files: map<string, FileEntry>,
                       config: Option<Config>)
      requires r.Failed? && worse.Failed? && worse.stage == r.stage && (worse.clean ==> r.clean)
      requires FailureLeaves(r, staged, files, config)
      ensures FailureLeaves(worse, staged, files, config)
      ensures worse.clean && config == Some(cfg) && CarriesAll(world, policy, cfg.certificates, Both(staged), files) ==>
                world.configFile == Some(cfg) && CarriesAll(world, policy, cfg.certificates, Both(staged), world.files)
    {
    }

    /** What was undone without the credentials was undone with them, where those need not be saved back. */
    lemma UndoneInAll(r: Outcome, turn: nat, staged: seq<Entry>, files: map<string, FileEntry>, start: nat,
                      earlier: nat)
      requires Undone(r, turn, staged, files, start) && earlier <= start
      ensures AllUndone(r, turn, staged, files, earlier)
    {
      hide RefusedAt;
      hide CanUndo;
      hide CarriesAll;
    }

    /** The new credentials go to their file first, when they are not the stored ones. */
    method StoreSecrets(same: bool, nextSecrets: Data) returns (saved: SaveResult)
      modifies world`clock, world`secretsFile
      ensures same ==> saved == Saved && world.clock == old(world.clock) && world.secretsFile == old(world.secretsFile)
      ensures !same ==>
                && world.clock == old(world.clock) + 1
                && (saved == Saved <==> world.answers(old(world.clock), SecretsSaving).ok)
                && (saved == Kept ==> world.secretsFile == old(world.secretsFile))
                && (saved == Unsure ==> world.answers(old(world.clock), SecretsSaving).changed)
                && (saved == Saved ==> world.secretsFile == nextSecrets)
    {
      if same {
        return Saved;
      }
      saved := world.SaveSecrets(nextSecrets);
    }

    /** The old credentials are saved back behind a failed apply; a failure of that save makes the outcome unclean. */
    method RestoreSecrets(same: bool, failed: Outcome, oldSecrets: Data, ghost turn: nat, ghost staged: seq<Entry>,
                          ghost files: map<string, FileEntry>, ghost start: nat, ghost earlier: nat,
                          ghost config: Option<Config>)
      returns (r: Outcome)
      requires failed.Failed? && failed.stage != SecretsSave
      requires Undone(failed, turn, staged, files, start) && earlier <= start
      requires FailureLeaves(failed, staged, files, config)
      modifies world`clock, world`secretsFile
      ensures r.Failed? && r.stage == failed.stage
      ensures same ==> r == failed && world.secretsFile == old(world.secretsFile)
      ensures !same ==> (r.clean <==> failed.clean && world.answers(old(world.clock), SecretsSaving).ok)
      ensures !same && (r.clean || world.GrantsFrom(turn, SecretsSaving)) ==> world.secretsFile == oldSecrets
      ensures AllUndone(r, turn, staged, files, earlier)
      ensures FailureLeaves(r, staged, files, config)
    {
      hide RefusedAt;
      hide CanUndo;
      hide CarriesAll;
      hide FailureLeaves;
      if same {
        UndoneInAll(failed, turn, staged, files, start, earlier);
        return failed;
      }
      var restored := world.SaveSecrets(oldSecrets);
      r := Failed(failed.stage, failed.clean && restored == Saved);
      LeavesNoMore(failed, r, staged, files, config);
    }

    /** The two saves of the credential file around an apply, when they differ from the stored ones. */
    method ApplyWithSecrets(candidate: Config, nextSecrets: Data) returns (r: Outcome, ghost turn: nat)
      requires Valid()
      modifies this, world
      ensures Valid()
      ensures AllUndone(r, turn, Staged(candidate).certificates, old(world.files), old(world.clock))
      ensures r.Failed? ==> Now() == old(Now()) && (old(runtimeLoaded) ==> pending == old(pending))
      ensures r.Failed? && r.clean && old(world.secretsFile) == secrets ==> world.secretsFile == secrets
      ensures r.Failed? && r.stage != SecretsSave && world.GrantsFrom(turn, SecretsSaving)
              && old(world.secretsFile) == secrets ==>
                world.secretsFile == secrets
      ensures r.Failed? && r.clean && old(Agrees(Staged(candidate).certificates)) ==>
                Agrees(Staged(candidate).certificates)
      ensures r.Failed? ==> FailureLeaves(r, Staged(candidate).certificates, old(world.files), old(world.configFile))
      ensures r.Failed? && r.clean && !BeforeTheFiles(r.stage) ==>
                forall d | d in Both(Staged(candidate).certificates) :: SaysTheSameIfAgreed(old(world.files), d)
      ensures SameElsewhere(old(world.files), world.files, old(Both(Staged(candidate).certificates)))
      ensures r == Applied ==> SuccessLeaves(Staged(candidate), old(cfg), old(world.files))
      ensures r == Applied ==> secrets == nextSecrets && generation == old(generation) + 1
      ensures r == Applied ==> AllCredentialed(cfg.certificates, secrets)
      ensures old(secrets) == nextSecrets ==> world.secretsFile == old(world.secretsFile)
      ensures r == Applied ==> (old(world.secretsFile) == old(secrets) ==> world.secretsFile == secrets)
      ensures r == Applied ==> forall n | n in watchers :: watchers[n] >= old(world.made)
      ensures world.Obliging() && old(RecordReadable()) && NoSymlinks(old(world.files))
              && Acceptable(policy, Staged(candidate), nextSecrets) ==>
                var certificates := Staged(candidate).certificates;
                EndsAsForetold(r, certificates, old(world.files), old(Both(certificates)))
    {
      hide EndsAsForetold;
      hide RefusedOneOf;
      hide FailureLeaves;
      hide SuccessLeaves;
      hide CanUndo;
      hide Acceptable;
      hide CarriesAll;
      hide DirsOfBoth;
      hide Flagged;
      hide Staged;
      hide Valid;
      hide AllCredentialed;
      hide NoSymlinks;
      hide NodeAt;
      hide SaysTheSameIfAgreed;
      var oldSecrets := secrets;
      var same := SecretsEqual(oldSecrets, nextSecrets);
      var saved := StoreSecrets(same, nextSecrets);
      StaysValid();
      if saved != Saved {
        NothingLeft(SecretsSave, saved == Kept, Staged(candidate).certificates);
        return Failed(SecretsSave, saved == Kept), world.clock;
      }
      ghost var start := world.clock;
      r, turn := ApplyConfigLocked(Some(candidate), nextSecrets);
      label Applied:
      hide Undone;
      hide AllUndone;
      hide CanRestoreSecrets;
      if r.Failed? {
        r := RestoreSecrets(same, r, oldSecrets, turn, Staged(candidate).certificates, old(world.files), start,
                            old(world.clock), old(world.configFile));
      }
      StaysValid@Applied();
      if r.Failed? {
        LeavesNoMore(r, r, Staged(candidate).certificates, old(world.files), old(world.configFile));
      }
      if r.Failed? && r.clean && !BeforeTheFiles(r.stage) {
        UndoneSaysExactly(r, Staged(candidate).certificates, old(world.files), old(world.configFile));
      }
    }

    lemma OneKeyPerRemote(candidate: Config, requested: Data)
      requires Valid() && cfg == Staged(candidate)
      requires secrets == Pruned(candidate.certificates, requested)
      requires AllCredentialed(candidate.certificates, secrets) && AllCredentialed(cfg.certificates, secrets)
      ensures secrets.Keys == RemoteNames(cfg.certificates)
    {
      StoredSecretsAreTheRemoteOnes(candidate.certificates, requested);
    }
  }
}
