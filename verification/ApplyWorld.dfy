/**
  What an apply acts on outside the manager's memory: the configuration and
  credential files, the fallback file of each directory, the record of pending
  restarts, and the watchers that are running. An oracle answers every call.
 */
module ApplyWorld {
  import opened Options
  import opened ConfigRules
  import opened Secrets
  import FallbackFile
  import PairDirectory

  type FileEntry = PairDirectory.Entry
  type Codec = FallbackFile.Codec

  /** A save that fails either kept the old file, or could not say what it left. */
  datatype SaveResult = Saved | Kept | Unsure

  datatype Answer = Answer(ok: bool, changed: bool, leftConfig: Option<Config>, leftSecrets: Data)

  datatype Call =
    | Context
    | LoadRuntime
    | ConfigSaving
    | SecretsSaving
    | PendingSaving
    | Ensuring(dir: string)
    | WatchMaking
    | WatchStarting

  function NodeAt(files: map<string, FileEntry>, dir: string): Option<FileEntry> {
    if dir in files then Some(files[dir]) else None
  }

  function WithNode(files: map<string, FileEntry>, dir: string, node: Option<FileEntry>): (r: map<string, FileEntry>)
    ensures NodeAt(r, dir) == node
    ensures forall d | d != dir :: NodeAt(r, d) == NodeAt(files, d)
  {
    match node
    case Some(f) => files[dir := f]
    case None => files - {dir}
  }

  ghost predicate NoSymlinks(files: map<string, FileEntry>) {
    forall d | d in files :: files[d].kind != PairDirectory.Symlink
  }

  class World {
    const codec: Codec
    const answers: (nat, Call) -> Answer
    var clock: nat
    var configFile: Option<Config>
    var secretsFile: Data
    var pendingFile: set<string>
    var files: map<string, FileEntry>
    var live: set<nat>
    var made: nat

    constructor (codec: Codec, answers: (nat, Call) -> Answer, configFile: Option<Config>, files: map<string, FileEntry>)
      ensures this.codec == codec && this.answers == answers && this.configFile == configFile && this.files == files
      ensures secretsFile == map[] && pendingFile == {} && live == {} && made == 0
    {
      this.codec, this.answers, this.configFile, this.files := codec, answers, configFile, files;
      clock, secretsFile, pendingFile, live, made := 0, map[], {}, {}, 0;
    }

    ghost predicate Grants(c: Call) {
      GrantsFrom(0, c)
    }

    /** From that turn on the call is never refused. */
    ghost predicate GrantsFrom(turn: nat, c: Call) {
      forall t: nat | turn <= t :: answers(t, c).ok
    }

    ghost predicate FilesGrantedFrom(turn: nat) {
      forall d :: GrantsFrom(turn, Ensuring(d))
    }

    /** The call always fails and changes nothing. */
    ghost predicate Refuses(c: Call) {
      forall t :: !answers(t, c).ok && !answers(t, c).changed
    }

    /** No call is refused but, perhaps, one of the last two saves of an apply. */
    ghost predicate Obliging() {
      && Grants(Context) && Grants(LoadRuntime) && Grants(SecretsSaving) && Grants(WatchMaking) && Grants(WatchStarting)
      && FilesGrantedFrom(0)
    }

    method Ask(c: Call) returns (a: Answer)
      modifies this`clock
      ensures a == answers(old(clock), c) && clock == old(clock) + 1
    {
      a := answers(clock, c);
      clock := clock + 1;
    }

    method SaveConfig(config: Config) returns (res: SaveResult)
      modifies this`clock, this`configFile
      ensures res == Saved ==> configFile == Some(config)
      ensures res == Kept ==> configFile == old(configFile)
      ensures clock == old(clock) + 1
      ensures res == Saved <==> answers(old(clock), ConfigSaving).ok
      ensures res == Unsure <==> !answers(old(clock), ConfigSaving).ok && answers(old(clock), ConfigSaving).changed
      ensures res == Unsure ==> configFile == answers(old(clock), ConfigSaving).leftConfig
    {
      var a := Ask(ConfigSaving);
      if a.ok {
        configFile := Some(config);
        return Saved;
      } else if a.changed {
        configFile := a.leftConfig;
        return Unsure;
      }
      res := Kept;
    }

    method SaveSecrets(data: Data) returns (res: SaveResult)
      modifies this`clock, this`secretsFile
      ensures res == Saved ==> secretsFile == data
      ensures res == Kept ==> secretsFile == old(secretsFile)
      ensures clock == old(clock) + 1
      ensures res == Saved <==> answers(old(clock), SecretsSaving).ok
      ensures res == Unsure <==> !answers(old(clock), SecretsSaving).ok && answers(old(clock), SecretsSaving).changed
      ensures res == Unsure ==> secretsFile == answers(old(clock), SecretsSaving).leftSecrets
    {
      var a := Ask(SecretsSaving);
      if a.ok {
        secretsFile := data;
        return Saved;
      } else if a.changed {
        secretsFile := a.leftSecrets;
        return Unsure;
      }
      res := Kept;
    }

    /** The record is renamed into place before its directory is synced, so a failure may still have written it. */
    method SavePending(pending: set<string>) returns (ok: bool)
      modifies this`clock, this`pendingFile
      ensures ok ==> pendingFile == pending
      ensures clock == old(clock) + 1
      ensures ok <==> answers(old(clock), PendingSaving).ok
      ensures pendingFile == if ok || answers(old(clock), PendingSaving).changed then pending else old(pendingFile)
    {
      var a := Ask(PendingSaving);
      ok := a.ok;
      if a.ok || a.changed {
        pendingFile := pending;
      }
    }

    /** One call of EnsureFallback, with any outcome that its own contract allows. */
    method Ensure(dir: string, wanted: Option<string>) returns (changed: bool, ok: bool)
      requires FallbackFile.Faithful(codec)
      modifies this`clock, this`files
      ensures FallbackFile.EnsureOutcome(codec, NodeAt(old(files), dir), wanted, NodeAt(files, dir), changed, ok)
      ensures forall d | d != dir :: NodeAt(files, d) == NodeAt(old(files), d)
      ensures clock == old(clock) + 1
      ensures NoSymlinks(old(files)) ==> NoSymlinks(files) && (ok <==> answers(old(clock), Ensuring(dir)).ok)
    {
      var a := Ask(Ensuring(dir));
      var node := NodeAt(files, dir);
      if node.Some? && node.value.kind == PairDirectory.Symlink {
        return false, false;
      }
      if a.ok && (FallbackFile.Carries(codec, node, wanted) && (!a.changed || node.None?)) {
        return false, true;
      }
      if !a.ok && (!a.changed || (wanted.None? && node.None?)) {
        return false, false;
      }
      files := WithNode(files, dir, FallbackFile.Written(codec, wanted));
      return true, a.ok;
    }

    method MakeWatch() returns (ok: bool, handle: nat)
      modifies this`clock, this`made
      ensures ok ==> handle == old(made) && made == old(made) + 1
      ensures !ok ==> made == old(made)
      ensures clock == old(clock) + 1 && (ok <==> answers(old(clock), WatchMaking).ok)
    {
      var a := Ask(WatchMaking);
      handle, ok := made, a.ok;
      if ok {
        made := made + 1;
      }
    }

    method StartWatch(handle: nat) returns (ok: bool)
      modifies this`clock, this`live
      ensures live == if ok then old(live) + {handle} else old(live)
      ensures clock == old(clock) + 1 && (ok <==> answers(old(clock), WatchStarting).ok)
    {
      var a := Ask(WatchStarting);
      ok := a.ok;
      if ok {
        live := live + {handle};
      }
    }

    /** Stop returns when the watcher's callbacks have; a watcher that never started just stays stopped. */
    method StopWatch(handle: nat)
      modifies this`live
      ensures live == old(live) - {handle}
    {
      live := live - {handle};
    }
  }
}
