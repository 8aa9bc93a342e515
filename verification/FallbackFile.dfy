/**
  Reconciling fallback.json in one directory: the file is left alone when it
  already names the wanted certificate, replaced whole, or removed.
 */
module FallbackFile {
  import opened Options
  import opened PairDirectory
  import PairReplace

  const FALLBACK := "fallback.json"
  const FALLBACK_MODE: nat := 0x1A4 // 0644

  /** The JSON encoding of the file, and what a parser makes of some bytes. */
  datatype Codec = Codec(encode: string -> Bytes, parse: Bytes -> Option<string>)

  ghost predicate Faithful(codec: Codec) {
    forall n :: codec.parse(codec.encode(n)) == Some(n)
  }

  function FileAt(entries: Listing): Option<Entry> {
    if FALLBACK in entries then Some(entries[FALLBACK]) else None
  }

  /** The file names the wanted certificate with the right mode, or is absent as wanted. */
  predicate Carries(codec: Codec, file: Option<Entry>, wanted: Option<string>) {
    match wanted
    case None => file == None
    case Some(n) => file.Some? && file.value.kind == Regular && file.value.mode == FALLBACK_MODE && codec.parse(file.value.bytes) == Some(n)
  }

  /** What a file says to a reconciliation: nothing wanted, a name with the right mode, or nothing it accepts. */
  function Says(codec: Codec, file: Option<Entry>): Option<Option<string>> {
    match file
    case None => Some(None)
    case Some(f) =>
      if f.kind == Regular && f.mode == FALLBACK_MODE && codec.parse(f.bytes).Some? then Some(codec.parse(f.bytes)) else None
  }

  lemma CarriesIsSaying(codec: Codec, file: Option<Entry>, wanted: Option<string>)
    ensures Carries(codec, file, wanted) <==> Says(codec, file) == Some(wanted)
  {
  }

  /** What a reconciliation writes. */
  function Written(codec: Codec, wanted: Option<string>): Option<Entry> {
    match wanted
    case None => None
    case Some(n) => Some(Entry(Regular, FALLBACK_MODE, codec.encode(n), true))
  }

  /** filepath.Base(s) == s for a non-empty s. */
  predicate IsBasename(s: string) {
    s == "/" || (s != "" && '/' !in s)
  }

  /** All that one reconciliation can do to the file, and what it reports about it. */
  ghost predicate EnsureOutcome(codec: Codec, before: Option<Entry>, wanted: Option<string>, after: Option<Entry>,
                                changed: bool, ok: bool) {
    && after == (if changed then Written(codec, wanted) else before)
    && (ok ==> Carries(codec, after, wanted))
    && (changed && wanted.None? ==> before.Some?)
    && (before.Some? && before.value.kind == Symlink ==> !changed && !ok)
  }

  predicate IsScratch(name: string) {
    name != FALLBACK && |name| >= 10 && name[..10] == ".fallback-"
  }

  /** Only the file and scratch names that were free differ, and the file is whole: the old one or the new one. */
  ghost predicate WholeOrWritten(codec: Codec, before: Listing, s: Listing, wanted: Option<string>) {
    && (FileAt(s) == FileAt(before) || FileAt(s) == Written(codec, wanted))
    && (forall f | f in before && f != FALLBACK :: f in s && s[f] == before[f])
    && (forall f | f in s && f !in before :: f == FALLBACK || IsScratch(f))
  }

  lemma ScratchIsScratch(name: string, random: string)
    requires name == ".fallback-" + random + ".json.tmp"
    ensures IsScratch(name)
  {
    assert name[..10] == ".fallback-";
    assert name[0] == '.' && FALLBACK[0] == 'f';
  }

  lemma OnlyScratchDiffers(codec: Codec, before: Listing, s: Listing, name: string, wanted: Option<string>)
    requires SameExcept(before, s, {name}) && name !in before && IsScratch(name)
    ensures WholeOrWritten(codec, before, s, wanted) && FileAt(s) == FileAt(before)
  {
  }

  /** The client may use fallback.json and its scratch names. */
  ghost predicate ReachesFallback(d: Directory) {
    && FALLBACK in d.reach
    && (forall random: string :: ".fallback-" + random + ".json.tmp" in d.reach)
  }

  /** No call is refused, and no scratch name is taken. */
  ghost predicate Smooth(d: Directory)
    reads d
  {
    && d.Calm()
    && d.ScratchFree(".fallback-", ".json.tmp", d.entries)
  }

  /** The disk holds the file as it is now. */
  ghost predicate OnDisk(d: Directory)
    reads d
  {
    d.stable < |d.trace| && FileAt(d.trace[d.stable]) == FileAt(d.entries)
  }

  /** Where no removal of a scratch file is refused, none is left behind. */
  ghost predicate TidyScratch(d: Directory, before: Listing)
    reads d
  {
    (forall f | IsScratch(f) :: PairReplace.Removable(d, f)) ==> forall f | f in d.entries && IsScratch(f) :: f in before
  }

  method EnsureFallback(d: Directory, codec: Codec, resolves: bool, desired: Option<string>)
    returns (changed: bool, ok: bool)
    requires ReachesFallback(d)
    requires d.Valid() && Faithful(codec)
    modifies d
    ensures d.Valid() && old(d.trace) <= d.trace
    ensures EnsureOutcome(codec, FileAt(old(d.entries)), desired, FileAt(d.entries), changed, ok)
    ensures !resolves || (desired.Some? && !IsBasename(desired.value)) ==> !ok && !changed
    ensures forall i | |old(d.trace)| <= i < |d.trace| :: WholeOrWritten(codec, old(d.entries), d.trace[i], desired)
    ensures WholeOrWritten(codec, old(d.entries), d.entries, desired)
    ensures old(Smooth(d)) && resolves && (desired.Some? ==> IsBasename(desired.value))
            && !(FALLBACK in old(d.entries) && old(d.entries)[FALLBACK].kind == Symlink) ==>
              ok && (changed <==> !Carries(codec, FileAt(old(d.entries)), desired))
    ensures ok && changed ==> OnDisk(d) && (desired.Some? ==> d.Passed(Mkdir))
    ensures TidyScratch(d, old(d.entries)) && d.open <= old(d.open)
  {
    if !resolves {
      return false, false;
    }
    var statErr, info := d.Lstat(FALLBACK);
    if statErr == Failed {
      return false, false;
    }
    if statErr == Ok && info.kind == Symlink {
      return false, false;
    }
    if desired == None {
      if statErr == NotExist {
        return false, true;
      }
      changed, ok := RemoveFile(d, codec);
      return;
    }
    if !IsBasename(desired.value) {
      return false, false;
    }
    if statErr == Ok && info.kind == Regular && info.mode == FALLBACK_MODE {
      var readErr, data := d.ReadFile(FALLBACK);
      if readErr == Ok && codec.parse(data) == Some(desired.value) {
        return false, true;
      }
    }
    var err := d.Quiet(Mkdir);
    if err != Ok {
      return false, false;
    }
    changed, ok := WriteFile(d, codec, desired.value);
  }

  method RemoveFile(d: Directory, codec: Codec) returns (changed: bool, ok: bool)
    requires ReachesFallback(d)
    requires d.Valid() && FALLBACK in d.entries && d.entries[FALLBACK].kind != Symlink
    modifies d
    ensures d.Valid() && old(d.trace) <= d.trace
    ensures EnsureOutcome(codec, FileAt(old(d.entries)), None, FileAt(d.entries), changed, ok)
    ensures forall i | |old(d.trace)| <= i < |d.trace| :: WholeOrWritten(codec, old(d.entries), d.trace[i], None)
    ensures WholeOrWritten(codec, old(d.entries), d.entries, None)
    ensures d.Calm() ==> ok && changed
    ensures ok && changed ==> OnDisk(d)
    ensures TidyScratch(d, old(d.entries)) && d.open <= old(d.open)
  {
    var err := d.Remove(FALLBACK);
    if err != Ok {
      return false, false;
    }
    err := d.Sync();
    return true, err == Ok;
  }

  /** writeTempFileFS, rename and directory sync, with the deferred removal of the scratch name. */
  method WriteFile(d: Directory, codec: Codec, name: string) returns (changed: bool, ok: bool)
    requires ReachesFallback(d)
    requires d.Valid() && Faithful(codec)
    requires FALLBACK in d.entries ==> d.entries[FALLBACK].kind != Symlink
    modifies d
    ensures d.Valid() && old(d.trace) <= d.trace
    ensures EnsureOutcome(codec, FileAt(old(d.entries)), Some(name), FileAt(d.entries), changed, ok)
    ensures forall i | |old(d.trace)| <= i < |d.trace| :: WholeOrWritten(codec, old(d.entries), d.trace[i], Some(name))
    ensures WholeOrWritten(codec, old(d.entries), d.entries, Some(name))
    ensures old(Smooth(d)) ==> ok && changed
    ensures ok && changed ==> OnDisk(d)
    ensures TidyScratch(d, old(d.entries)) && d.open <= old(d.open)
  {
    ghost var before := d.entries;
    var err, tmp := d.CreateScratch(".fallback-", ".json.tmp");
    if err != Ok {
      return false, false;
    }
    ghost var random :| tmp == ".fallback-" + random + ".json.tmp";
    ScratchIsScratch(tmp, random);
    changed, ok := FillAndRename(d, codec, tmp, name, before);
  }

  method FillAndRename(d: Directory, codec: Codec, tmp: string, name: string, ghost before: Listing)
    returns (changed: bool, ok: bool)
    requires ReachesFallback(d) && tmp in d.reach
    requires d.Valid() && Faithful(codec) && tmp !in before && IsScratch(tmp)
    requires FALLBACK in before ==> before[FALLBACK].kind != Symlink
    requires d.entries == before[tmp := Entry(Regular, TEMP_MODE, [], false)]
    modifies d
    ensures d.Valid() && old(d.trace) <= d.trace
    ensures EnsureOutcome(codec, FileAt(before), Some(name), FileAt(d.entries), changed, ok)
    ensures forall i | |old(d.trace)| <= i < |d.trace| :: WholeOrWritten(codec, before, d.trace[i], Some(name))
    ensures WholeOrWritten(codec, before, d.entries, Some(name))
    ensures d.Calm() ==> ok && changed
    ensures ok && changed ==> OnDisk(d)
    ensures TidyScratch(d, before) && d.open <= old(d.open) - {tmp}
  {
    hide Faithful;
    var err := FillScratch(d, codec, tmp, name, before);
    if err != Ok {
      return false, false;
    }
    changed, ok := RenameScratch(d, codec, tmp, name, before);
  }

  lemma WrittenMeans(codec: Codec, before: Listing, name: string)
    requires Faithful(codec) && (FALLBACK in before ==> before[FALLBACK].kind != Symlink)
    ensures var s := before[FALLBACK := Entry(Regular, FALLBACK_MODE, codec.encode(name), true)];
            && WholeOrWritten(codec, before, s, Some(name))
            && (forall ok :: EnsureOutcome(codec, FileAt(before), Some(name), FileAt(s), true, ok))
    ensures EnsureOutcome(codec, FileAt(before), Some(name), FileAt(before), false, false)
  {
  }

  method RenameScratch(d: Directory, codec: Codec, tmp: string, name: string, ghost before: Listing)
    returns (changed: bool, ok: bool)
    requires ReachesFallback(d) && tmp in d.reach
    requires d.Valid() && Faithful(codec) && tmp !in before && IsScratch(tmp)
    requires FALLBACK in before ==> before[FALLBACK].kind != Symlink
    requires d.entries == before[tmp := Entry(Regular, FALLBACK_MODE, codec.encode(name), true)]
    modifies d
    ensures d.Valid() && old(d.trace) <= d.trace
    ensures EnsureOutcome(codec, FileAt(before), Some(name), FileAt(d.entries), changed, ok)
    ensures forall i | |old(d.trace)| <= i < |d.trace| :: WholeOrWritten(codec, before, d.trace[i], Some(name))
    ensures WholeOrWritten(codec, before, d.entries, Some(name))
    ensures d.Calm() ==> ok && changed
    ensures ok && changed ==> OnDisk(d)
    ensures TidyScratch(d, before) && d.open <= old(d.open)
  {
    hide WholeOrWritten;
    hide EnsureOutcome;
    hide Faithful;
    WrittenMeans(codec, before, name);
    var err := d.Rename(tmp, FALLBACK);
    if err != Ok {
      OnlyScratchDiffers(codec, before, d.entries, tmp, Some(name));
      var _ := d.Remove(tmp);
      OnlyScratchDiffers(codec, before, d.entries, tmp, Some(name));
      return false, false;
    }
    assert d.entries == before[FALLBACK := Entry(Regular, FALLBACK_MODE, codec.encode(name), true)];
    err := d.Sync();
    var _ := d.Remove(tmp);
    assert d.entries == before[FALLBACK := Entry(Regular, FALLBACK_MODE, codec.encode(name), true)];
    return true, err == Ok;
  }

  /** writeTempFileFS on the scratch file: filled, or removed again. */
  method FillScratch(d: Directory, codec: Codec, tmp: string, name: string, ghost before: Listing) returns (err: Errno)
    requires ReachesFallback(d) && tmp in d.reach
    requires d.Valid() && tmp !in before && IsScratch(tmp)
    requires d.entries == before[tmp := Entry(Regular, TEMP_MODE, [], false)]
    modifies d
    ensures d.Valid() && old(d.trace) <= d.trace && (err == Ok || err == Failed)
    ensures err == Ok ==> d.entries == before[tmp := Entry(Regular, FALLBACK_MODE, codec.encode(name), true)]
    ensures WholeOrWritten(codec, before, d.entries, Some(name)) && FileAt(d.entries) == FileAt(before)
    ensures forall i | |old(d.trace)| <= i < |d.trace| :: WholeOrWritten(codec, before, d.trace[i], Some(name))
    ensures err != Ok ==> TidyScratch(d, before)
    ensures d.open == old(d.open) - {tmp}
    ensures d.Calm() ==> err == Ok
  {
    err := PairReplace.FillOrRemove(d, tmp, codec.encode(name), FALLBACK_MODE);
    forall i | |old(d.trace)| <= i < |d.trace|
      ensures WholeOrWritten(codec, before, d.trace[i], Some(name))
    {
      assert SameExcept(before, d.trace[i], {tmp});
      OnlyScratchDiffers(codec, before, d.trace[i], tmp, Some(name));
    }
    OnlyScratchDiffers(codec, before, d.entries, tmp, Some(name));
  }
}
