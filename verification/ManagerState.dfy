/**
  What the manager's threads share: the active configuration with its
  generation, credentials and watchers, the watchers that are running, the
  fallback files, and a history of activations and publications.
 */
module ManagerState {
  import opened Options
  import opened ConfigRules
  import opened Secrets

  /** One watcher or poller, built by one apply for one entry under the generation that apply computed. */
  datatype Watch = Watch(group: nat, gen: nat, name: string)

  datatype Active = Active(gen: nat, cfg: seq<Entry>, secrets: Data, watches: set<Watch>)

  datatype Mark =
    | Activated(now: Active)
    | Published(name: string, gen: nat, entry: Entry, key: Option<Credentials>)

  /**
    What is remembered of changed fallback files until a restart is
    acknowledged. A directory stands for its one fallback entry.
   */
  datatype Notice = Notice(
    pending: set<string>,         // the record: directories whose fallback.json has changed
    flagged: set<string>,         // directories whose active entry is shown as pending a restart
    touched: set<string>,         // what the apply under way has changed
    ahead: set<string>,           // what it has flagged of its candidate so far
    missed: set<string>,          // pending directories that did not resolve when it looked
    acked: bool,                  // an acknowledgement has emptied the record since it began to look
    crossed: set<string>)         // an account of the steps that set the flags apart from the record

  datatype Shared = Shared(
    policy: Policy,
    active: Active,
    groups: nat,
    live: set<Watch>,             // watchers that may still start callbacks
    trial: set<Watch>,            // those of the candidate that is being applied
    retired: set<Watch>,          // those of the previous configuration, not yet joined
    fallback: map<string, string>,  // fallback.json by canonical directory
    spoiled: bool,                // a disabled entry was written since the files were last reconciled
    uncompensated: bool,          // so was a candidate that could not be undone
    history: seq<Mark>,
    notice: Notice)

  /** An entry that gets a watcher. */
  predicate Watched(entries: seq<Entry>, name: string) {
    var e := Find(entries, name);
    e.Some? && e.value.enabled && e.value.sync.autoSync
  }

  ghost function WatchesFor(group: nat, gen: nat, entries: seq<Entry>): set<Watch> {
    set e | e in entries && Watched(entries, e.name) :: Watch(group, gen, e.name)
  }

  /** Every entry that syncs by itself has one of these watchers, and no entry has two. */
  ghost predicate Serves(watches: set<Watch>, entries: seq<Entry>) {
    && (forall e | e in entries && Watched(entries, e.name) :: exists w :: w in watches && w.name == e.name)
    && (forall v, w | v in watches && w in watches && v.name == w.name :: v == w)
  }

  /** What an apply checks of its candidate before it starts a watcher. */
  ghost predicate Admissible(policy: Policy, entries: seq<Entry>, secrets: Data) {
    WellFormed(policy, entries) && AllCredentialed(entries, secrets)
  }

  // ---------------------------------------------------------------- fallback files

  function FallbackAt(files: map<string, string>, dir: string): Option<string> {
    if dir in files then Some(files[dir]) else None
  }

  function SetFallback(files: map<string, string>, dir: string, wanted: Option<string>): (r: map<string, string>)
    ensures FallbackAt(r, dir) == wanted
    ensures forall d | d != dir :: FallbackAt(r, d) == FallbackAt(files, d)
  {
    match wanted
    case Some(name) => files[dir := name]
    case None => files - {dir}
  }

  /** In those directories fallback.json names the one entry that wants it, or is absent. */
  ghost predicate Matches(policy: Policy, files: map<string, string>, entries: seq<Entry>, dirs: set<string>) {
    forall d | d in dirs :: FallbackAt(files, d) == Wanted(policy, entries, d)
  }

  ghost predicate FallbacksMatch(sh: Shared) {
    Matches(sh.policy, sh.fallback, sh.active.cfg, Dirs(sh.policy, sh.active.cfg))
  }

  /** That directory carries the name of a disabled entry, which nothing wants there. */
  predicate SpoiledBy(sh: Shared, e: Entry) {
    && e in sh.active.cfg && e.fallback && !e.enabled
    && FallbackAt(sh.fallback, Dir(sh.policy, e)) == Some(e.destination.targetName)
  }

  /** The files are right, or a disabled entry stands in one of them. */
  ghost predicate FilesAsSynced(sh: Shared) {
    if sh.spoiled then exists e :: SpoiledBy(sh, e) else FallbacksMatch(sh)
  }

  lemma NobodyWantsIt(policy: Policy, entries: seq<Entry>, e: Entry)
    requires OneFallbackPerDir(policy, entries) && e in entries && e.fallback && !e.enabled
    ensures Wanted(policy, entries, Dir(policy, e)) == None
  {
    forall f | f in entries
      ensures !WantsFallback(policy, f, Dir(policy, e))
    {
      var i :| 0 <= i < |entries| && entries[i] == e;
      var j :| 0 <= j < |entries| && entries[j] == f;
      assert f.fallback && e.fallback && i != j ==> Dir(policy, entries[i]) != Dir(policy, entries[j]);
    }
  }

  /** A spoiled file is wrong. */
  lemma SpoiledIsWrong(sh: Shared, e: Entry)
    requires OneFallbackPerDir(sh.policy, sh.active.cfg) && SpoiledBy(sh, e)
    ensures !FallbacksMatch(sh)
  {
    NobodyWantsIt(sh.policy, sh.active.cfg, e);
    assert Dir(sh.policy, e) in Dirs(sh.policy, sh.active.cfg);
  }

  ghost function FallbackDirs(policy: Policy, entries: seq<Entry>): set<string> {
    set e | e in entries && e.fallback :: Dir(policy, e)
  }

  // ---------------------------------------------------------------- history

  function LastActive(history: seq<Mark>): Option<Active> {
    if history == [] then None
    else
      match history[|history| - 1]
      case Activated(now) => Some(now)
      case Published(_, _, _, _) => LastActive(history[..|history| - 1])
  }

  /** A publication is of an entry of the configuration active at that moment, fetched with its credentials. */
  predicate Current(now: Active, p: Mark)
    requires p.Published?
  {
    && p.gen == now.gen
    && Find(now.cfg, p.name) == Some(p.entry)
    && (Remote(p.entry) ==> p.key == Key(now.secrets, p.name) && Fits(p.key, p.entry))
  }

  /** Every activation takes the next generation, and every publication belongs to the last activation before it. */
  ghost predicate Sound(history: seq<Mark>) {
    forall i | 0 < i < |history| ::
      && LastActive(history[..i]).Some?
      && match history[i]
      case Activated(now) => now.gen == LastActive(history[..i]).value.gen + 1
      case Published(_, _, _, _) => Current(LastActive(history[..i]).value, history[i])
  }

  lemma SoundExtends(history: seq<Mark>, m: Mark)
    requires history != [] && Sound(history) && LastActive(history).Some?
    requires match m
             case Activated(now) => now.gen == LastActive(history).value.gen + 1
             case Published(_, _, _, _) => Current(LastActive(history).value, m)
    ensures Sound(history + [m])
    ensures LastActive(history + [m]) == if m.Activated? then Some(m.now) else LastActive(history)
  {
    var h := history + [m];
    assert h[..|history|] == history;
    forall i | 0 < i < |h|
      ensures LastActive(h[..i]).Some?
      ensures match h[i]
              case Activated(now) => now.gen == LastActive(h[..i]).value.gen + 1
              case Published(_, _, _, _) => Current(LastActive(h[..i]).value, h[i])
    {
      if i < |history| {
        assert h[..i] == history[..i] && h[i] == history[i];
      }
    }
  }

  /** Generations never go down along a sound history. */
  lemma {:induction false} GenerationsRise(history: seq<Mark>, i: nat, j: nat)
    requires Sound(history) && 0 < i <= j <= |history|
    ensures LastActive(history[..i]).Some? && LastActive(history[..j]).Some? ==>
              LastActive(history[..i]).value.gen <= LastActive(history[..j]).value.gen
    decreases j
  {
    if i < j {
      GenerationsRise(history, i, j - 1);
      assert history[..j][..j - 1] == history[..j - 1];
      assert history[..j][j - 1] == history[j - 1];
    }
  }

  /** Once a generation is active, nothing of an older one is published any more. */
  lemma NothingStaleIsPublished(history: seq<Mark>, i: nat, j: nat)
    requires Sound(history) && 0 <= i < j < |history| && history[i].Activated?
    ensures history[j].Published? ==> history[j].gen >= history[i].now.gen
    ensures (forall k | i < k < j :: !history[k].Activated?) ==>
              match history[j]
              case Activated(now) => now.gen == history[i].now.gen + 1
              case Published(_, _, _, _) => Current(history[i].now, history[j])
  {
    assert history[..i + 1][i] == history[i];
    assert LastActive(history[..i + 1]) == Some(history[i].now);
    GenerationsRise(history, i + 1, j);
    if forall k | i < k < j :: !history[k].Activated? {
      LastStays(history, i, j);
    }
  }

  lemma {:induction false} LastStays(history: seq<Mark>, i: nat, j: nat)
    requires i < j <= |history| && history[i].Activated?
    requires forall k | i < k < j :: !history[k].Activated?
    ensures LastActive(history[..j]) == Some(history[i].now)
    decreases j
  {
    assert history[..j][j - 1] == history[j - 1];
    if i < j - 1 {
      LastStays(history, i, j - 1);
      assert history[..j][..j - 1] == history[..j - 1];
    }
  }
}
