/**
  Two applies that fail cleanly, undo all they did, and still do not leave the
  disk as they found it.
 */
module ApplyShortfalls {
  import opened Options
  import opened Text
  import opened ConfigRules
  import opened ApplyWorld
  import opened Apply
  import FallbackFile
  import PairDirectory

  const DIRECTORY := "/d"

  const POLICY := Policy(map["/s" := "/s"], map[DIRECTORY := DIRECTORY], {})

  function OneEntry(fallback: bool): Config {
    Config([Entry("a", true, Source(LOCAL, "/s", "/s", None), Destination(DIRECTORY, "t"), SyncConfig(false, false, 10), fallback)], "info")
  }

  /** Every call is granted but the refused one, which changes nothing. */
  function AllBut(refused: Call): (nat, Call) -> Answer {
    (t: nat, c: Call) => Answer(c != refused, false, None, map[])
  }

  /** Visible ASCII, no capitals: nothing for normalising to change. */
  predicate Plain(s: string) {
    s != "" && forall c | c in s :: '!' <= c <= '~' && !('A' <= c <= 'Z')
  }

  lemma VisibleIsNoSpace(c: char)
    requires '!' <= c <= '~'
    ensures !IsSpace(c)
  {
  }

  lemma PlainIsTrimmed(s: string)
    requires Plain(s)
    ensures Trim(s) == s
  {
    assert s[0] in s && s[|s| - 1] in s;
    VisibleIsNoSpace(s[0]);
    VisibleIsNoSpace(s[|s| - 1]);
    hide IsSpace;
    assert TrimLeft(s) == s;
  }

  lemma PlainIsLower(s: string)
    requires Plain(s)
    ensures ToLower(s) == s
  {
    assert forall i | 0 <= i < |s| :: s[i] in s;
  }

  lemma AllPlain()
    ensures Plain("a") && Plain("t") && Plain("/s") && Plain(DIRECTORY) && Plain("info")
  {
  }

  lemma OneEntryIsNormal(fallback: bool)
    ensures Staged(OneEntry(fallback)) == OneEntry(fallback)
  {
    AllPlain();
    hide Plain;
    hide Trim;
    hide ToLower;
    PlainIsTrimmed("a");
    PlainIsTrimmed("t");
    PlainIsTrimmed("/s");
    PlainIsTrimmed(DIRECTORY);
    PlainIsTrimmed("info");
    PlainIsLower("info");
    var e := OneEntry(fallback).certificates[0];
    assert Normalized(e) == e;
    hide Normalized;
    assert AllNormalized(OneEntry(fallback).certificates) == [e];
  }

  lemma OneEntryIsFine(fallback: bool)
    ensures ValidLevel("info") && WellFormed(POLICY, OneEntry(fallback).certificates)
    ensures Dirs(POLICY, OneEntry(fallback).certificates) == {DIRECTORY}
    ensures Wanted(POLICY, OneEntry(fallback).certificates, DIRECTORY) == if fallback then Some("t") else None
  {
    var e := OneEntry(fallback).certificates[0];
    assert OneEntry(fallback).certificates == [e];
    assert OneEntry(fallback).certificates[..0] == [];
    assert ValidEntry(POLICY, e);
    assert Dir(POLICY, e) == DIRECTORY;
  }

  /** The manager that main builds, over a disk with these files. */
  method FreshManager(codec: FallbackFile.Codec, refused: Call, configFile: Option<Config>,
                      files: map<string, FileEntry>)
    returns (m: Manager)
    requires FallbackFile.Faithful(codec) && (refused == ConfigSaving || refused == PendingSaving)
    ensures fresh(m) && fresh(m.world) && m.Valid() && m.policy == POLICY && m.cfg == Config([], "info")
    ensures m.secrets == map[]
    ensures m.RecordReadable() && m.world.codec == codec && m.world.configFile == configFile && m.world.files == files
    ensures m.world.Obliging() && m.world.Refuses(refused)
    ensures refused == PendingSaving ==> m.world.Grants(ConfigSaving)
  {
    var world := new World(codec, AllBut(refused), configFile, files);
    m := new Manager(POLICY, world, map[]);
  }

  lemma CanApplyOneEntry(m: Manager, fallback: bool)
    requires m.policy == POLICY && m.cfg == Config([], "info")
    ensures m.CanApply(OneEntry(fallback), map[])
    ensures m.Both(Staged(OneEntry(fallback)).certificates) == {DIRECTORY}
  {
    OneEntryIsNormal(fallback);
    OneEntryIsFine(fallback);
    assert Dirs(POLICY, []) == {};
  }

  /**
    The save of the candidate's configuration is refused. The directory is used
    by the candidate alone and has a fallback.json that names "kept"; the apply
    undoes everything it did, reports so, and the file is gone.
   */
  method RefusedSaveDropsAFile(codec: FallbackFile.Codec)
    returns (m: Manager, before: map<string, FileEntry>, r: Outcome)
    requires FallbackFile.Faithful(codec)
    ensures before == map[DIRECTORY := PairDirectory.Entry(PairDirectory.Regular, FallbackFile.FALLBACK_MODE, codec.encode("kept"), true)]
    ensures r == Failed(ConfigSave, true) && m.cfg.certificates == []
    ensures NodeAt(m.world.files, DIRECTORY) == None
  {
    before := map[DIRECTORY := PairDirectory.Entry(PairDirectory.Regular, FallbackFile.FALLBACK_MODE, codec.encode("kept"), true)];
    m := FreshManager(codec, ConfigSaving, None, before);
    CanApplyOneEntry(m, false);
    assert NoSymlinks(before);
    hide NoSymlinks;
    hide CarriesAll;
    hide SameElsewhere;
    hide Manager.SaysTheSameIfAgreed;
    hide Manager.Both;
    hide Manager.Agrees;
    hide FallbackFile.Faithful;
    hide Staged;
    hide WellFormed;
    hide Manager.Valid;
    hide Manager.CanApply;
    ghost var turn;
    r, turn := m.ApplyConfigAndSecrets(Some(OneEntry(false)), map[]);
    FileIsGone(m, Staged(OneEntry(false)).certificates);
  }

  lemma FileIsGone(m: Manager, staged: seq<Entry>)
    requires m.policy == POLICY && m.cfg.certificates == [] && DIRECTORY in m.Both(staged)
    requires CarriesAll(m.world, m.policy, m.cfg.certificates, m.Both(staged), m.world.files)
    ensures NodeAt(m.world.files, DIRECTORY) == None
  {
    assert FallbackFile.Carries(m.world.codec, NodeAt(m.world.files, DIRECTORY), Wanted(POLICY, [], DIRECTORY));
  }

  /**
    The first apply after a start, with the configuration that the disk holds.
    The record of pending restarts cannot be saved, so the apply puts "the old
    configuration" back: the empty one, in the place of the real one.
   */
  method FirstApplyWritesTheStub(codec: FallbackFile.Codec) returns (m: Manager, before: Option<Config>, r: Outcome)
    requires FallbackFile.Faithful(codec)
    ensures before == Some(OneEntry(true))
    ensures r == Failed(PendingSave, true)
    ensures m.world.configFile == Some(Config([], "info")) != before
  {
    before := Some(OneEntry(true));
    m := FreshManager(codec, PendingSaving, before, map[]);
    CanApplyOneEntry(m, true);
    OneEntryIsNormal(true);
    OneEntryIsFine(true);
    assert !FallbackFile.Carries(codec, NodeAt(map[], DIRECTORY), Wanted(POLICY, OneEntry(true).certificates, DIRECTORY));
    ghost var turn;
    r, turn := m.ApplyConfigAndSecrets(before, map[]);
  }
}
