/**
  What the contract of ReplacePair means for the files of a target, for the
  files of its neighbours, and where the code falls short.
 */
module PairTheorems {
  import opened Options
  import opened PairNames
  import opened PairDirectory
  import opened PairStates
  import opened PairReplace

  /** In every intermediate directory the files of a target with a non-interfering name are untouched. */
  lemma NeighbourUntouched(run: Run, s: Listing, other: string, name: string)
    requires Confined(run.target, run.before, s)
    requires other != run.target && !Interferes(run.target, other) && !Interferes(other, run.target)
    requires InFootprint(other, name)
    ensures SameAt(run.before, s, name)
  {
    FootprintsDisjoint(run.target, other, name);
    if name in s && name !in run.before {
      OwnTempInFootprint(run.target, name);
    }
  }

  /** A backup that another target has kept survives a replacement exactly when the names do not interfere. */
  lemma NeighbourBackupSurvives(before: Listing, target: string, other: string, kind: TempKind, random: string,
                                cert: Bytes, key: Bytes)
    requires Digits(random) && !IsStaging(kind)
    requires TempName(other, kind, random) in before
    ensures TempName(other, kind, random) in Replaced(before, target, cert, key) <==> !Interferes(target, other)
    ensures !Interferes(target, other) ==>
              Replaced(before, target, cert, key)[TempName(other, kind, random)] == before[TempName(other, kind, random)]
  {
    var name := TempName(other, kind, random);
    SweepReach(target, other, kind, random);
    SuffixOfSum(Stem(other, kind) + random, SUFFIX);
    DestinationIsNotTemp(target, CertFile(target));
    DestinationIsNotTemp(target, KeyFile(target));
  }

  /**
    The same for every intermediate directory of every run, finished or not: a
    backup of a target that does not interfere is never touched, and one that
    does is gone as soon as the sweep is over.
   */
  lemma NeighbourBackupMeanwhile(run: Run, s: Listing, other: string, kind: TempKind, random: string)
    requires Digits(random) && !IsStaging(kind) && TempName(other, kind, random) in run.before
    ensures Confined(run.target, run.before, s) && !Interferes(run.target, other) ==>
              SameAt(run.before, s, TempName(other, kind, random))
    ensures TempName(other, kind, random) in PartlySwept(run.before, run.target, {}) <==> !Interferes(run.target, other)
  {
    SweepReach(run.target, other, kind, random);
    SuffixOfSum(Stem(other, kind) + random, SUFFIX);
    DestinationIsNotTemp(run.target, CertFile(run.target));
    DestinationIsNotTemp(run.target, KeyFile(run.target));
  }

  /** Two accepted target names that do interfere, so the condition above is not idle. */
  lemma InterferenceExists()
    ensures Interferes("site", "site-cert-sync")
    ensures var name := TempName("site-cert-sync", KeyBackup, "7");
            forall before: Listing, cert, key | name in before :: name !in Replaced(before, "site", cert, key)
  {
    var a, b := "site", "site-cert-sync";
    assert a + "-cert-sync-" == b + "-";
    forall before: Listing, cert, key | TempName(b, KeyBackup, "7") in before
      ensures TempName(b, KeyBackup, "7") !in Replaced(before, a, cert, key)
    {
      NeighbourBackupSurvives(before, a, b, KeyBackup, "7", cert, key);
    }
  }

  /** Complete replacements of two targets commute. */
  lemma ReplacementsCommute(before: Listing, a: string, certA: Bytes, keyA: Bytes, b: string, certB: Bytes, keyB: Bytes)
    requires a != b
    ensures Replaced(Replaced(before, a, certA, keyA), b, certB, keyB) ==
            Replaced(Replaced(before, b, certB, keyB), a, certA, keyA)
  {
    var ab := Replaced(Replaced(before, a, certA, keyA), b, certB, keyB);
    var ba := Replaced(Replaced(before, b, certB, keyB), a, certA, keyA);
    forall f
      ensures (f in ab <==> f in ba) && (f in ab ==> ab[f] == ba[f])
    {
      TwiceReplacedAt(before, a, certA, keyA, b, certB, keyB, f);
      TwiceReplacedAt(before, b, certB, keyB, a, certA, keyA, f);
    }
  }

  /** One name after two replacements: the destinations, or what neither sweep removes. */
  lemma TwiceReplacedAt(before: Listing, a: string, certA: Bytes, keyA: Bytes, b: string, certB: Bytes, keyB: Bytes,
                        f: string)
    requires a != b
    ensures var s := Replaced(Replaced(before, a, certA, keyA), b, certB, keyB);
            if f == CertFile(a) then f in s && s[f] == NewCert(certA)
            else if f == KeyFile(a) then f in s && s[f] == NewKey(keyA)
            else if f == CertFile(b) then f in s && s[f] == NewCert(certB)
            else if f == KeyFile(b) then f in s && s[f] == NewKey(keyB)
            else SameAt(s, PartlySwept(PartlySwept(before, a, {}), b, {}), f)
    ensures PartlySwept(PartlySwept(before, a, {}), b, {}) == PartlySwept(PartlySwept(before, b, {}), a, {})
  {
    DestinationsAreDistinct(a, b);
    DestinationsAreDistinct(b, a);
    DestinationsAreDistinct(a, a);
    DestinationsAreDistinct(b, b);
    DestinationIsNotTemp(a, CertFile(a));
    DestinationIsNotTemp(a, KeyFile(a));
    ReplacedAt(before, a, certA, keyA, f);
    ReplacedAt(Replaced(before, a, certA, keyA), b, certB, keyB, f);
    SweepsCommute(before, a, b);
  }

  lemma SweepsCommute(before: Listing, a: string, b: string)
    ensures PartlySwept(PartlySwept(before, a, {}), b, {}) == PartlySwept(PartlySwept(before, b, {}), a, {})
  {
  }

  lemma ReplacedAt(before: Listing, target: string, cert: Bytes, key: Bytes, f: string)
    ensures var s := Replaced(before, target, cert, key);
            if f == KeyFile(target) then f in s && s[f] == NewKey(key)
            else if f == CertFile(target) then f in s && s[f] == NewCert(cert)
            else SameAt(s, PartlySwept(before, target, {}), f)
  {
  }

  /** lstat of the key either never answers or always does. */
  ghost predicate KeyProbeIsSettled(d: Directory, target: string) {
    || (forall t :: d.answers(t, Op.Lstat(KeyFile(target))).Refuse?)
    || (forall t :: d.answers(t, Op.Lstat(KeyFile(target))).Proceed?)
  }

  /**
    When no other call is refused, a caller can tell beforehand: the key will
    be lost if and only if it is in the directory and its lstat is refused.
   */
  method KeyLossForeseen(d: Directory, target: string, cert: Bytes, key: Bytes, check: Checker) returns (r: Outcome)
    requires d.Valid() && "" !in d.entries && check(cert, key) != NoDigest
    requires Reaches(d, target) && OthersCalm(d, target) && KeyProbeIsSettled(d, target)
    requires d.DrawsFree(target, CertBackup, d.entries) && d.DrawsFree(target, KeyBackup, d.entries)
    modifies d
    ensures (KeyFile(target) in old(d.entries) && KeyFile(target) !in d.entries) <==>
            KeyFile(target) in old(d.entries) && d.answers(0, Op.Lstat(KeyFile(target))).Refuse?
    ensures d.answers(0, Op.Lstat(KeyFile(target))).Refuse? ==> r.RolledBack? && r.stage == ProbeKey && r.key == Absent
  {
    ghost var run := RunOf(d.entries, target, cert, key);
    hide BeforeCommit;
    hide NewPairIn;
    hide Replaced;
    hide Ends;
    ghost var certBackup, keyBackup, commit, probe, drop;
    r, certBackup, keyBackup, commit, probe, drop := ReplacePair(d, target, true, cert, key, check, NoDigest);
    assert d.CalmAnswer(drop, Op.Remove(KeyFile(target)));
    KeyAfterwards(run, d.entries, r, certBackup, keyBackup);
  }

  /** A run whose rollback reached both files keeps the key under its name, unless it turned back at the probe. */
  lemma KeyAfterwards(run: Run, s: Listing, r: Outcome, certBackup: string, keyBackup: string)
    requires Ends(run, s, r, certBackup, keyBackup)
    requires r.RolledBack? ==> r.key != Unknown
    ensures !(r.RolledBack? && r.stage == ProbeKey) && KeyFile(run.target) in run.before ==> KeyFile(run.target) in s
    ensures r.RolledBack? && r.stage == ProbeKey ==> r.key == Absent && KeyFile(run.target) !in s
  {
  }

  /**
    The bad case is real. The directory holds a certificate and its key, every
    call works except that lstat of the key fails with something other than
    "not exist": the run reports that the key is absent again, and it is gone.
   */
  method ProbeFailureLosesTheKey(cert: Bytes, key: Bytes, check: Checker)
    returns (d: Directory, r: Outcome)
    requires check(cert, key) != NoDigest
    ensures r.RolledBack? && r.stage == ProbeKey && r.key == Absent
    ensures KeyFile("site") !in d.entries
    ensures CertFile("site") in d.entries && d.entries[CertFile("site")] == NewCert([1])
  {
    d := DirectoryWithBlindKey();
    ghost var run := RunOf(d.entries, "site", cert, key);
    hide BeforeCommit;
    hide NewPairIn;
    hide Replaced;
    hide Ends;
    ghost var certBackup, keyBackup, commit, probe, drop;
    r, certBackup, keyBackup, commit, probe, drop := ReplacePair(d, "site", true, cert, key, check, NoDigest);
    BlindEnd(run, d.entries, r, certBackup, keyBackup);
  }

  /** A certificate and its key, in a directory where lstat of the key never answers. */
  method DirectoryWithBlindKey() returns (d: Directory)
    ensures fresh(d) && d.Valid() && "" !in d.entries
    ensures d.entries == map[CertFile("site") := NewCert([1]), KeyFile("site") := NewKey([2])]
    ensures Reaches(d, "site") && OthersCalm(d, "site")
    ensures d.DrawsFree("site", CertBackup, d.entries) && d.DrawsFree("site", KeyBackup, d.entries)
    ensures forall t :: d.answers(t, Op.Lstat(KeyFile("site"))).Refuse?
  {
    var answers := (t: nat, op: Op) => if op == Op.Lstat(KeyFile("site")) then Refuse(0) else Proceed("7");
    var initial: Listing := map[CertFile("site") := NewCert([1]), KeyFile("site") := NewKey([2])];
    d := new Directory(initial, answers, Footprint("site"));
    FootprintIsEnough(d, "site");
    DestinationsAreDistinct("site", "site");
    DestinationIsNotTemp("site", CertFile("site"));
    DestinationIsNotTemp("site", KeyFile("site"));
  }

  lemma BlindEnd(run: Run, s: Listing, r: Outcome, certBackup: string, keyBackup: string)
    requires Ends(run, s, r, certBackup, keyBackup)
    requires r.RolledBack? && r.stage == ProbeKey && r.cert != Unknown && r.key != Unknown
    requires CertFile(run.target) in run.before && KeyFile(run.target) in run.before
    ensures r.key == Absent && KeyFile(run.target) !in s && SameAt(run.before, s, CertFile(run.target))
  {
  }
}
