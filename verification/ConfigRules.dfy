/**
  The configuration: trimming and defaults, the rules a configuration has to
  meet, and the fallback name each destination directory is meant to carry.
 */
module ConfigRules {
  import opened Options
  import opened Text

  datatype CertWardenSource = CertWardenSource(serverURL: string, certificateName: string)

  datatype Source = Source(kind: string, certificate: string, privateKey: string, certWarden: Option<CertWardenSource>)

  const LOCAL := "local"
  const CERT_WARDEN := "cert_warden"

  datatype Destination = Destination(targetDirectory: string, targetName: string)

  datatype SyncConfig = SyncConfig(autoSync: bool, filesystemWatch: bool, pollIntervalSeconds: int)

  datatype Entry = Entry(name: string, enabled: bool, source: Source, destination: Destination, sync: SyncConfig, fallback: bool)

  datatype Config = Config(certificates: seq<Entry>, logLevel: string)

  /**
    What the path policy and the URL parser answer. A source or a destination
    path that the policy accepts is mapped to its canonical form.
   */
  datatype Policy = Policy(sources: map<string, string>, destinations: map<string, string>, origins: set<string>)

  // ---------------------------------------------------------------- normalising

  const DEFAULT_POLL := 10
  const DEFAULT_REMOTE_POLL := 300

  function Normalized(e: Entry): Entry {
    var kind := if e.source.kind == "" then LOCAL else e.source.kind;
    var remote := match e.source.certWarden
                  case None => None
                  case Some(w) => Some(CertWardenSource(Trim(w.serverURL), Trim(w.certificateName)));
    var poll := if e.sync.pollIntervalSeconds != 0 then e.sync.pollIntervalSeconds
                else if kind == CERT_WARDEN then DEFAULT_REMOTE_POLL
                else DEFAULT_POLL;
    Entry(Trim(e.name), e.enabled,
          Source(kind, Trim(e.source.certificate), Trim(e.source.privateKey), remote),
          Destination(Trim(e.destination.targetDirectory), Trim(e.destination.targetName)),
          e.sync.(pollIntervalSeconds := poll), e.fallback)
  }

  function AllNormalized(entries: seq<Entry>): (r: seq<Entry>)
    ensures |r| == |entries|
    ensures forall i | 0 <= i < |r| :: r[i] == Normalized(entries[i])
  {
    seq(|entries|, i requires 0 <= i < |entries| => Normalized(entries[i]))
  }

  function ToLower(s: string): string {
    seq(|s|, i requires 0 <= i < |s| => if 'A' <= s[i] <= 'Z' then (s[i] as int + 32) as char else s[i])
  }

  function NormalizedLevel(level: string): string {
    var l := ToLower(Trim(level));
    if l == "" then "info" else l
  }

  /** Normalising is a fixed point after one pass, so checking a normalised copy checks what is kept. */
  lemma NormalizedTwice(e: Entry)
    ensures Normalized(Normalized(e)) == Normalized(e)
  {
    TrimTwice(e.name);
    TrimTwice(e.source.certificate);
    TrimTwice(e.source.privateKey);
    TrimTwice(e.destination.targetDirectory);
    TrimTwice(e.destination.targetName);
    if e.source.certWarden.Some? {
      TrimTwice(e.source.certWarden.value.serverURL);
      TrimTwice(e.source.certWarden.value.certificateName);
    }
  }

  predicate Trimmed(s: string) {
    Trim(s) == s
  }

  predicate TrimmedThroughout(e: Entry) {
    && Trimmed(e.name) && Trimmed(e.source.certificate) && Trimmed(e.source.privateKey)
    && Trimmed(e.destination.targetDirectory) && Trimmed(e.destination.targetName)
    && (e.source.certWarden.Some? ==>
          Trimmed(e.source.certWarden.value.serverURL) && Trimmed(e.source.certWarden.value.certificateName))
  }

  /**
    Normalising leaves an entry as it is exactly when nothing of it is to be
    trimmed, and neither its kind nor its interval is left to the defaults.
   */
  lemma NormalExactly(e: Entry)
    ensures Normalized(e) == e <==> TrimmedThroughout(e) && e.source.kind != "" && e.sync.pollIntervalSeconds != 0
  {
    hide Trim;
  }

  /** Normalize walks the entries and rewrites each in its place. */
  method NormalizeInPlace(certificates: array<Entry>)
    modifies certificates
    ensures certificates[..] == AllNormalized(old(certificates[..]))
  {
    hide Normalized;
    var i := 0;
    while i < certificates.Length
      invariant 0 <= i <= certificates.Length
      invariant forall k | 0 <= k < i :: certificates[k] == Normalized(old(certificates[k]))
      invariant forall k | i <= k < certificates.Length :: certificates[k] == old(certificates[k])
    {
      certificates[i] := Normalized(certificates[i]);
      i := i + 1;
    }
  }

  // ---------------------------------------------------------------- rules of one entry

  predicate ValidName(s: string) {
    s != [] && forall c | c in s :: 'a' <= c <= 'z' || 'A' <= c <= 'Z' || '0' <= c <= '9' || c in "._-"
  }

  predicate ValidSource(policy: Policy, s: Source, watch: bool) {
    if s.kind == LOCAL then
      s.certWarden.None? && s.certificate in policy.sources && s.privateKey in policy.sources
    else
      && s.kind == CERT_WARDEN && s.certificate == "" && s.privateKey == "" && !watch
      && s.certWarden.Some? && s.certWarden.value.serverURL in policy.origins
      && s.certWarden.value.certificateName != "" && forall c | c in s.certWarden.value.certificateName :: c !in "\r\n"
  }

  /** The intervals an entry of that kind may have. */
  predicate ValidInterval(kind: string, seconds: int) {
    (if kind == CERT_WARDEN then 60 else 1) <= seconds <= 86400
  }

  predicate ValidEntry(policy: Policy, e: Entry) {
    && ValidName(e.name)
    && ValidSource(policy, e.source, e.sync.filesystemWatch)
    && e.destination.targetDirectory in policy.destinations
    && ValidName(e.destination.targetName)
    && ValidInterval(e.source.kind, e.sync.pollIntervalSeconds)
  }

  /**
    An interval that is left out is never the fault: the entry is accepted
    exactly when it would be with any interval that its kind allows, and it is
    then polled every 300 seconds if it is remote, and every 10 if it is not.
   */
  lemma IntervalCanBeLeftOut(policy: Policy, e: Entry, seconds: int)
    requires e.sync.pollIntervalSeconds == 0 && ValidInterval(e.source.kind, seconds)
    ensures ValidEntry(policy, Normalized(e)) <==>
            ValidEntry(policy, Normalized(e.(sync := e.sync.(pollIntervalSeconds := seconds))))
    ensures Normalized(e).sync.pollIntervalSeconds == if e.source.kind == CERT_WARDEN then 300 else 10
  {
    hide Trim;
    hide ValidName;
    hide ValidSource;
  }

  /** An interval that is given is kept, and accepted only within the bounds of its kind. */
  lemma IntervalIsChecked(policy: Policy, e: Entry)
    requires e.sync.pollIntervalSeconds != 0 && ValidEntry(policy, Normalized(e))
    ensures Normalized(e).sync == e.sync && ValidInterval(e.source.kind, e.sync.pollIntervalSeconds)
  {
    hide Trim;
  }

  /**
    What an accepted candidate reads from: both files of a local entry are under
    the source policy, and a remote one has an accepted origin, a certificate
    name, and neither local files nor a file watch.
   */
  lemma AcceptedSources(policy: Policy, entries: seq<Entry>, i: nat)
    requires WellFormed(policy, AllNormalized(entries)) && i < |entries|
    ensures var given, s := entries[i].source, AllNormalized(entries)[i].source;
            if given.kind == "" || given.kind == LOCAL then
              && s.kind == LOCAL && s.certWarden.None?
              && Trim(given.certificate) in policy.sources && Trim(given.privateKey) in policy.sources
            else
              && given.kind == CERT_WARDEN && !entries[i].sync.filesystemWatch
              && Trim(given.certificate) == "" && Trim(given.privateKey) == ""
              && given.certWarden.Some? && Trim(given.certWarden.value.serverURL) in policy.origins
              && Trim(given.certWarden.value.certificateName) != ""
  {
    assert ValidEntry(policy, AllNormalized(entries)[i]);
    hide Trim;
    hide ValidName;
  }

  predicate ValidLevel(level: string) {
    level in ["debug", "info", "warn", "error"]
  }

  /** The canonical directory of an entry that has one. */
  function Dir(policy: Policy, e: Entry): string {
    if e.destination.targetDirectory in policy.destinations then policy.destinations[e.destination.targetDirectory] else ""
  }

  // ---------------------------------------------------------------- rules across entries

  ghost predicate NamesDiffer(entries: seq<Entry>) {
    forall i, j | 0 <= i < j < |entries| :: entries[i].name != entries[j].name
  }

  ghost predicate DestinationsDiffer(policy: Policy, entries: seq<Entry>) {
    forall i, j | 0 <= i < j < |entries| ::
      Dir(policy, entries[i]) != Dir(policy, entries[j]) || entries[i].destination.targetName != entries[j].destination.targetName
  }

  ghost predicate OneFallbackPerDir(policy: Policy, entries: seq<Entry>) {
    forall i, j | 0 <= i < j < |entries| && entries[i].fallback && entries[j].fallback ::
      Dir(policy, entries[i]) != Dir(policy, entries[j])
  }

  ghost predicate WellFormed(policy: Policy, entries: seq<Entry>) {
    && (forall i | 0 <= i < |entries| :: ValidEntry(policy, entries[i]))
    && NamesDiffer(entries)
    && DestinationsDiffer(policy, entries)
    && OneFallbackPerDir(policy, entries)
  }

  datatype Verdict = Accepted | BadLogLevel | Invalid(index: nat) | Conflict(index: nat)

  /** The entries before `n` break no rule. */
  ghost predicate FineUpTo(policy: Policy, entries: seq<Entry>, n: nat)
    requires n <= |entries|
  {
    WellFormed(policy, entries[..n])
  }

  /** Entry `n` takes a name, a destination or a directory's fallback that an earlier entry has. */
  ghost predicate Clashes(policy: Policy, entries: seq<Entry>, n: nat)
    requires n < |entries|
  {
    exists k | 0 <= k < n ::
      || entries[k].name == entries[n].name
      || (Dir(policy, entries[k]) == Dir(policy, entries[n]) && entries[k].destination.targetName == entries[n].destination.targetName)
      || (entries[k].fallback && entries[n].fallback && Dir(policy, entries[k]) == Dir(policy, entries[n]))
  }

  lemma FineExtends(policy: Policy, entries: seq<Entry>, n: nat)
    requires n < |entries| && FineUpTo(policy, entries, n)
    ensures FineUpTo(policy, entries, n + 1) <==> ValidEntry(policy, entries[n]) && !Clashes(policy, entries, n)
  {
    var a, b := entries[..n], entries[..n + 1];
    assert b == a + [entries[n]];
    if FineUpTo(policy, entries, n + 1) {
      forall k | 0 <= k < n
        ensures entries[k].name != entries[n].name
        ensures Dir(policy, entries[k]) != Dir(policy, entries[n]) || entries[k].destination.targetName != entries[n].destination.targetName
        ensures !(entries[k].fallback && entries[n].fallback && Dir(policy, entries[k]) == Dir(policy, entries[n]))
      {
        assert b[k] == entries[k] && b[n] == entries[n];
      }
      assert b[n] == entries[n];
    }
  }

  /**
    The validation loop with its seen-maps accepts exactly the configurations
    whose entries are valid and clash in no pair, and it names the first entry
    that breaks a rule.
   */
  method Validate(policy: Policy, config: Config) returns (v: Verdict)
    ensures v == Accepted <==> ValidLevel(config.logLevel) && WellFormed(policy, config.certificates)
    ensures v == BadLogLevel <==> !ValidLevel(config.logLevel)
    ensures v.Invalid? ==> v.index < |config.certificates| && FineUpTo(policy, config.certificates, v.index)
                           && !ValidEntry(policy, config.certificates[v.index])
    ensures v.Conflict? ==> v.index < |config.certificates| && FineUpTo(policy, config.certificates, v.index)
                            && ValidEntry(policy, config.certificates[v.index])
                            && Clashes(policy, config.certificates, v.index)
  {
    if !ValidLevel(config.logLevel) {
      return BadLogLevel;
    }
    var entries := config.certificates;
    var seenNames: set<string> := {};
    var seenDestinations: set<(string, string)> := {};
    var fallbackDirectories: set<string> := {};
    var i := 0;
    assert FineUpTo(policy, entries, 0);
    hide WellFormed;
    hide ValidEntry;
    hide Dir;
    while i < |entries|
      invariant 0 <= i <= |entries| && FineUpTo(policy, entries, i)
      invariant forall s :: s in seenNames <==> exists k :: 0 <= k < i && entries[k].name == s
      invariant forall d :: d in seenDestinations <==>
                            exists k :: 0 <= k < i && (Dir(policy, entries[k]), entries[k].destination.targetName) == d
      invariant forall d :: d in fallbackDirectories <==>
                            exists k :: 0 <= k < i && entries[k].fallback && Dir(policy, entries[k]) == d
    {
      var e := entries[i];
      FineExtends(policy, entries, i);
      if !ValidEntry(policy, e) {
        NotFine(policy, entries, i);
        return Invalid(i);
      }
      var destination := (Dir(policy, e), e.destination.targetName);
      if e.name in seenNames || destination in seenDestinations || (e.fallback && Dir(policy, e) in fallbackDirectories) {
        assert Clashes(policy, entries, i);
        NotFine(policy, entries, i);
        return Conflict(i);
      }
      seenNames := seenNames + {e.name};
      seenDestinations := seenDestinations + {destination};
      if e.fallback {
        fallbackDirectories := fallbackDirectories + {Dir(policy, e)};
      }
      i := i + 1;
    }
    assert entries[..|entries|] == entries;
    v := Accepted;
  }

  lemma NotFine(policy: Policy, entries: seq<Entry>, n: nat)
    requires n < |entries| && !FineUpTo(policy, entries, n + 1)
    ensures !WellFormed(policy, entries)
  {
    if WellFormed(policy, entries) {
      var b := entries[..n + 1];
      assert forall k | 0 <= k < |b| :: b[k] == entries[k];
      assert false;
    }
  }

  // ---------------------------------------------------------------- lookups

  /** The entry of that name, as a lookup in the manager's states finds it. */
  function Find(entries: seq<Entry>, name: string): (r: Option<Entry>)
    ensures r.Some? ==> r.value in entries && r.value.name == name
    ensures r.None? ==> forall e | e in entries :: e.name != name
  {
    if entries == [] then None
    else
      var last := entries[|entries| - 1];
      if last.name == name then Some(last) else Find(entries[..|entries| - 1], name)
  }

  lemma FindIsUnique(entries: seq<Entry>, e: Entry)
    requires NamesDiffer(entries) && e in entries
    ensures Find(entries, e.name) == Some(e)
  {
    var f := Find(entries, e.name).value;
    var i :| 0 <= i < |entries| && entries[i] == e;
    var j :| 0 <= j < |entries| && entries[j] == f;
    assert i == j;
  }

  predicate WantsFallback(policy: Policy, e: Entry, dir: string) {
    e.enabled && e.fallback && Dir(policy, e) == dir
  }

  /** The table of wanted fallbacks is filled in order: a later entry overwrites an earlier one. */
  function Wanted(policy: Policy, entries: seq<Entry>, dir: string): (r: Option<string>)
    ensures r.None? <==> forall e | e in entries :: !WantsFallback(policy, e, dir)
  {
    if entries == [] then None
    else
      var last := entries[|entries| - 1];
      if WantsFallback(policy, last, dir) then Some(last.destination.targetName) else Wanted(policy, entries[..|entries| - 1], dir)
  }

  lemma {:induction false} WantedIsWanted(policy: Policy, entries: seq<Entry>, dir: string)
    requires Wanted(policy, entries, dir).Some?
    ensures exists e :: e in entries && WantsFallback(policy, e, dir) && e.destination.targetName == Wanted(policy, entries, dir).value
  {
    var last := entries[|entries| - 1];
    if !WantsFallback(policy, last, dir) {
      WantedIsWanted(policy, entries[..|entries| - 1], dir);
    } else {
      assert last in entries;
    }
  }

  /** In an accepted configuration the order does not matter: each directory has at most one entry to name. */
  lemma WantedIsUnique(policy: Policy, entries: seq<Entry>, e: Entry)
    requires OneFallbackPerDir(policy, entries) && e in entries && e.enabled && e.fallback
    ensures Wanted(policy, entries, Dir(policy, e)) == Some(e.destination.targetName)
  {
    var dir := Dir(policy, e);
    assert WantsFallback(policy, e, dir);
    WantedIsWanted(policy, entries, dir);
    var f :| f in entries && WantsFallback(policy, f, dir) && f.destination.targetName == Wanted(policy, entries, dir).value;
    var i :| 0 <= i < |entries| && entries[i] == e;
    var j :| 0 <= j < |entries| && entries[j] == f;
    assert i == j;
  }

  /** The canonical directories that a configuration writes to. */
  function Dirs(policy: Policy, entries: seq<Entry>): set<string> {
    set e | e in entries :: Dir(policy, e)
  }

  /** The directories of the old and of the new configuration. */
  function DirsOfBoth(policy: Policy, before: seq<Entry>, candidate: seq<Entry>): set<string> {
    Dirs(policy, before) + Dirs(policy, candidate)
  }
}
