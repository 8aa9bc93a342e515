/**
  Installing material that is already in memory: nothing is written when the
  destination already carries the bundle, and otherwise the pair is replaced;
  a fallback entry then has fallback.json name it.
 */
module SyncMaterial {
  import opened Options
  import opened PairNames
  import opened PairDirectory
  import opened PairStates
  import opened PairReplace
  import opened FallbackFile

  datatype Report = Report(synced: bool, noChanges: bool, fallback: bool, fallbackChanged: bool, failed: bool)

  /** The destination holds a pair with the right modes and that digest. */
  predicate Carrying(entries: Listing, target: string, check: Checker, digest: Digest) {
    CheckEntries(entries, CertFile(target), KeyFile(target), check) == digest
  }

  lemma FallbackIsNoPairFile(target: string)
    ensures FALLBACK != CertFile(target) && FALLBACK != KeyFile(target)
  {
    var f := FALLBACK;
    assert f[|f| - 1] == 'n';
    assert CertFile(target)[|CertFile(target)| - 1] == 'm';
    assert KeyFile(target)[|KeyFile(target)| - 1] == 'y';
  }

  /** Reconciling the fallback file leaves the pair as it is. */
  lemma PairSurvives(codec: Codec, before: Listing, after: Listing, wanted: Option<string>, target: string,
                     check: Checker)
    requires WholeOrWritten(codec, before, after, wanted)
    requires CertFile(target) in before && KeyFile(target) in before
    ensures NewFilesSurvive(before, after, target)
    ensures OnlyItsNames(target, before, after)
    ensures CheckEntries(after, CertFile(target), KeyFile(target), check) == CheckEntries(before, CertFile(target), KeyFile(target), check)
  {
    FallbackIsNoPairFile(target);
  }

  lemma InstalledCarries(run: Run, s: Listing, r: Outcome, certBackup: string, keyBackup: string, check: Checker)
    requires r == Installed && Ends(run, s, r, certBackup, keyBackup) && Ordinary(run)
    ensures Carrying(s, run.target, check, check(run.cert.bytes, run.key.bytes))
    ensures NewFilesIn(s, run.target, run.cert.bytes, run.key.bytes)
  {
  }

  /** Both files are the new ones, with their modes, and on the disk. */
  predicate NewFilesIn(s: Listing, target: string, cert: Bytes, key: Bytes) {
    && CertFile(target) in s && s[CertFile(target)] == NewCert(cert)
    && KeyFile(target) in s && s[KeyFile(target)] == NewKey(key)
  }

  ghost predicate NewFilesSurvive(before: Listing, after: Listing, target: string) {
    SameAt(before, after, CertFile(target)) && SameAt(before, after, KeyFile(target))
  }

  /** Nothing differs but names of the target, fallback.json and its scratch files. */
  ghost predicate OnlyItsNames(target: string, before: Listing, s: Listing) {
    forall f | !InFootprint(target, f) && f != FALLBACK && !IsScratch(f) :: SameAt(before, s, f)
  }

  ghost predicate ScratchIsFree(d: Directory, s: Listing) {
    d.ScratchFree(".fallback-", ".json.tmp", s)
  }

  /** No name that a sync draws is taken, and what it has to write for a fallback entry can be written. */
  ghost predicate NamesAreFree(d: Directory, target: string, fallback: bool)
    reads d
  {
    && d.DrawsFree(target, CertBackup, d.entries) && d.DrawsFree(target, KeyBackup, d.entries)
    && (fallback ==>
          && IsBasename(target) && ScratchIsFree(d, d.entries)
          && !(FALLBACK in d.entries && d.entries[FALLBACK].kind == Symlink))
  }

  lemma OwnNamesOnly(target: string, s: Listing)
    ensures OnlyItsNames(target, s, s)
  {
  }

  lemma EndsConfined(run: Run, s: Listing, r: Outcome, certBackup: string, keyBackup: string)
    requires Ends(run, s, r, certBackup, keyBackup)
    ensures Confined(run.target, run.before, s)
  {
  }

  lemma FallbackIsNoneOfItsNames(target: string)
    ensures FALLBACK != CertFile(target) && FALLBACK != KeyFile(target)
    ensures !Swept(target, FALLBACK) && !IsOwnTemp(target, FALLBACK)
  {
    FallbackIsNoPairFile(target);
    assert FALLBACK[0] == 'f';
  }

  lemma ConfinedIsOwn(run: Run, s: Listing)
    requires Confined(run.target, run.before, s)
    ensures OnlyItsNames(run.target, run.before, s)
    ensures FileAt(s) == FileAt(run.before)
  {
    FallbackIsNoneOfItsNames(run.target);
    forall f | !InFootprint(run.target, f)
      ensures SameAt(run.before, s, f)
    {
      OutsideIsKept(run, s, f);
    }
  }

  lemma OutsideIsKept(run: Run, s: Listing, f: string)
    requires Confined(run.target, run.before, s) && !InFootprint(run.target, f)
    ensures SameAt(run.before, s, f)
  {
    if IsOwnTemp(run.target, f) {
      OwnTempInFootprint(run.target, f);
    }
  }

  lemma ScratchStaysFree(d: Directory, before: Listing, s: Listing, target: string, cert: Bytes, key: Bytes)
    requires s == Replaced(before, target, cert, key)
    ensures ScratchIsFree(d, before) ==> ScratchIsFree(d, s)
  {
    if ScratchIsFree(d, before) {
      forall t | d.CalmAnswer(t, Op.CreateScratch(".fallback-", ".json.tmp"))
        ensures ".fallback-" + d.answers(t, Op.CreateScratch(".fallback-", ".json.tmp")).random + ".json.tmp" !in s
      {
        ScratchIsNoPairFile(target, d.answers(t, Op.CreateScratch(".fallback-", ".json.tmp")).random);
      }
    }
  }

  lemma ScratchIsNoPairFile(target: string, random: string)
    ensures var f := ".fallback-" + random + ".json.tmp"; f != CertFile(target) && f != KeyFile(target)
  {
    var f := ".fallback-" + random + ".json.tmp";
    assert f[|f| - 1] == 'p';
    assert CertFile(target)[|CertFile(target)| - 1] == 'm';
    assert KeyFile(target)[|KeyFile(target)| - 1] == 'y';
  }

  method Sync(d: Directory, codec: Codec, target: string, accepted: bool, fallback: bool, cert: Bytes, key: Bytes,
              check: Checker)
    returns (info: Digest, res: Report)
    requires Reaches(d, target) && ReachesFallback(d)
    requires d.Valid() && "" !in d.entries && Faithful(codec)
    modifies d
    ensures d.Valid()
    ensures info == if accepted then check(cert, key) else NoDigest
    ensures info == NoDigest ==> res == Report(false, false, false, false, true) && d.entries == old(d.entries)
    ensures !(res.synced && res.noChanges)
    ensures !res.failed ==>
              info != NoDigest && Carrying(d.entries, target, check, info) && (res.synced || res.noChanges)
    ensures !res.failed ==> res.fallback == fallback && (fallback ==> Carries(codec, FileAt(d.entries), Some(target)))
    ensures res.noChanges ==> Carrying(old(d.entries), target, check, info)
    ensures res.noChanges && !res.fallbackChanged ==> FileAt(d.entries) == FileAt(old(d.entries))
    ensures res.noChanges && !fallback ==> d.entries == old(d.entries)
    ensures d.Calm() && Carrying(old(d.entries), target, check, info) && info != NoDigest ==> res.noChanges
    ensures d.Calm() && info != NoDigest && old(NamesAreFree(d, target, fallback)) ==>
              !res.failed && (res.synced <==> !Carrying(old(d.entries), target, check, info))
    ensures res.synced ==> NewFilesIn(d.entries, target, cert, key)
    ensures OnlyItsNames(target, old(d.entries), d.entries)
  {
    res := Report(false, false, false, false, true);
    info := NoDigest;
    if !accepted {
      return;
    }
    info := check(cert, key);
    if info == NoDigest {
      return;
    }
    var installed := ReadPairAt(d, CertFile(target), KeyFile(target), check);
    if installed == info {
      res := res.(noChanges := true);
    } else {
      OwnNamesOnly(target, d.entries);
      var r := Replace(d, target, cert, key, check, info);
      if r != Installed {
        return;
      }
      res := res.(synced := true);
    }
    if !fallback {
      res := res.(failed := false);
      return;
    }
    res := WithFallback(d, codec, target, check, res);
  }

  /** replacePair as the sync calls it, with what an installed pair passes. */
  method Replace(d: Directory, target: string, cert: Bytes, key: Bytes, check: Checker, expected: Digest)
    returns (r: Outcome)
    requires Reaches(d, target)
    requires d.Valid() && "" !in d.entries && expected == check(cert, key) != NoDigest
    modifies d
    ensures d.Valid()
    ensures r == Installed ==> Carrying(d.entries, target, check, expected) && NewFilesIn(d.entries, target, cert, key)
    ensures d.Calm() && d.DrawsFree(target, CertBackup, old(d.entries)) && d.DrawsFree(target, KeyBackup, old(d.entries)) ==>
              r == Installed
    ensures OnlyItsNames(target, old(d.entries), d.entries)
    ensures r == Installed && ScratchIsFree(d, old(d.entries)) ==> ScratchIsFree(d, d.entries)
    ensures FileAt(d.entries) == FileAt(old(d.entries))
  {
    hide BeforeCommit;
    hide NewPairIn;
    hide Replaced;
    hide Ends;
    ghost var run := RunOf(d.entries, target, cert, key);
    ghost var certBackup, keyBackup, commit, probe, drop;
    r, certBackup, keyBackup, commit, probe, drop := ReplacePair(d, target, true, cert, key, check, expected);
    EndsConfined(run, d.entries, r, certBackup, keyBackup);
    ConfinedIsOwn(run, d.entries);
    if r == Installed {
      InstalledCarries(run, d.entries, r, certBackup, keyBackup, check);
      ScratchStaysFree(d, run.before, d.entries, target, cert, key);
    }
  }

  method WithFallback(d: Directory, codec: Codec, target: string, check: Checker, before: Report) returns (res: Report)
    requires ReachesFallback(d)
    requires d.Valid() && Faithful(codec) && CertFile(target) in d.entries && KeyFile(target) in d.entries
    modifies d
    ensures d.Valid()
    ensures CheckEntries(d.entries, CertFile(target), KeyFile(target), check) == old(CheckEntries(d.entries, CertFile(target), KeyFile(target), check))
    ensures res.synced == before.synced && res.noChanges == before.noChanges && res.fallback == !res.failed
    ensures NewFilesSurvive(old(d.entries), d.entries, target) && OnlyItsNames(target, old(d.entries), d.entries)
    ensures d.Calm() && IsBasename(target) && ScratchIsFree(d, old(d.entries))
            && !(FALLBACK in old(d.entries) && old(d.entries)[FALLBACK].kind == Symlink) ==>
              !res.failed
    ensures !res.failed ==> Carries(codec, FileAt(d.entries), Some(target))
    ensures !res.fallbackChanged ==> FileAt(d.entries) == old(FileAt(d.entries))
  {
    ghost var entries := d.entries;
    var changed, ok := EnsureFallback(d, codec, true, Some(target));
    PairSurvives(codec, entries, d.entries, Some(target), target, check);
    res := before.(fallback := ok, fallbackChanged := changed, failed := !ok);
  }
}
