/**
  The polling half of the watcher: what a snapshot of a file is, when two of
  them count as different, and what one poll over the watched paths reports.
 */
module FilePolling {
  import opened Options

  type Path = string

  /** The mode bits, split into what the code asks of them. */
  datatype FileMode = FileMode(regular: bool, bits: nat)

  datatype FileSnapshot = FileSnapshot(
    present: bool,
    size: nat,
    modTime: int,
    mode: FileMode,
    info: Option<nat>,      // the file's identity, as os.SameFile compares it
    digest: seq<bv8>,
    digestOK: bool)

  const Missing := FileSnapshot(false, 0, 0, FileMode(false, 0), None, [], false)

  /** The snapshots that reading a path can give: one for a missing file, one per state of a file. */
  predicate Taken(s: FileSnapshot) {
    if s.present then s.info.Some? && (!s.digestOK ==> s.digest == []) else s == Missing
  }

  predicate SnapshotsDiffer(previous: FileSnapshot, current: FileSnapshot) {
    if previous.present != current.present then true
    else if !current.present then false
    else if previous.size != current.size || previous.modTime != current.modTime || previous.mode != current.mode then true
    else if previous.info.Some? && current.info.Some? && previous.info.value != current.info.value then true
    else previous.digestOK != current.digestOK || (current.digestOK && previous.digest != current.digest)
  }

  /** On snapshots that were really taken, the comparison is exactly inequality: it misses no field. */
  lemma DifferMeansUnequal(previous: FileSnapshot, current: FileSnapshot)
    requires Taken(previous) && Taken(current)
    ensures SnapshotsDiffer(previous, current) <==> previous != current
  {
  }

  /** What the snapshot table holds once the first `n` paths have been read. */
  function Stored(table: map<Path, FileSnapshot>, paths: seq<Path>, readings: seq<FileSnapshot>,
                  n: nat): map<Path, FileSnapshot>
    requires n <= |paths| == |readings|
  {
    if n == 0 then table else Stored(table, paths, readings, n - 1)[paths[n - 1] := readings[n - 1]]
  }

  /** Path `i` is news to a table that already holds the readings before it. */
  predicate NewsAt(table: map<Path, FileSnapshot>, paths: seq<Path>, readings: seq<FileSnapshot>, i: nat)
    requires i < |paths| == |readings|
  {
    var before := Stored(table, paths, readings, i);
    paths[i] !in before || SnapshotsDiffer(before[paths[i]], readings[i])
  }

  lemma OneMoreStored(table: map<Path, FileSnapshot>, paths: seq<Path>, readings: seq<FileSnapshot>, i: nat)
    requires i < |paths| == |readings|
    ensures Stored(table, paths, readings, i + 1) == Stored(table, paths, readings, i)[paths[i] := readings[i]]
  {
  }

  predicate AllTaken(readings: seq<FileSnapshot>) {
    forall i | 0 <= i < |readings| :: Taken(readings[i])
  }

  /** Two readings of one path in the same pass agree: the file held still while it was polled. */
  predicate HeldStill(paths: seq<Path>, readings: seq<FileSnapshot>) {
    && |paths| == |readings|
    && forall i, j | 0 <= i < j < |paths| && paths[i] == paths[j] :: readings[i] == readings[j]
  }

  /** The table after a pass holds, for every path, its last reading, and nothing else changes. */
  lemma {:induction false} StoredHolds(table: map<Path, FileSnapshot>, paths: seq<Path>, readings: seq<FileSnapshot>,
                                       n: nat)
    requires n <= |paths| && HeldStill(paths, readings)
    ensures forall i | 0 <= i < n :: paths[i] in Stored(table, paths, readings, n) && Stored(table, paths, readings, n)[paths[i]] == readings[i]
    ensures forall p | p !in paths[..n] :: p in Stored(table, paths, readings, n) <==> p in table
    ensures forall p | p !in paths[..n] && p in table :: Stored(table, paths, readings, n)[p] == table[p]
  {
    if n > 0 {
      var before, last := Stored(table, paths, readings, n - 1), paths[n - 1];
      StoredHolds(table, paths, readings, n - 1);
      assert paths[..n] == paths[..n - 1] + [last];
      forall i | 0 <= i < n
        ensures paths[i] in before[last := readings[n - 1]] && before[last := readings[n - 1]][paths[i]] == readings[i]
      {
        if i < n - 1 && paths[i] == last {
          assert readings[i] == readings[n - 1];
        }
      }
    }
  }

  /**
    A poll of files that hold still reports a change exactly when some path's
    stored snapshot is missing or is not the one just read.
   */
  lemma PollReportsExactly(table: map<Path, FileSnapshot>, paths: seq<Path>, readings: seq<FileSnapshot>)
    requires HeldStill(paths, readings) && AllTaken(readings)
    requires forall p | p in table :: Taken(table[p])
    ensures (exists i | 0 <= i < |paths| :: NewsAt(table, paths, readings, i))
       <==> (exists i | 0 <= i < |paths| :: paths[i] !in table || table[paths[i]] != readings[i])
  {
    forall i | 0 <= i < |paths| && NewsAt(table, paths, readings, i)
      ensures paths[i] !in table || table[paths[i]] != readings[i]
    {
      NewsIsNews(table, paths, readings, i);
    }
    if i :| 0 <= i < |paths| && (paths[i] !in table || table[paths[i]] != readings[i]) {
      var k := FirstReading(paths, readings, i);
      StoredHolds(table, paths, readings, k);
      if paths[k] in table {
        DifferMeansUnequal(table[paths[k]], readings[k]);
      }
      hide SnapshotsDiffer;
      assert NewsAt(table, paths, readings, k);
    }
  }

  /** The first position that reads the same path as position `i`. */
  lemma {:induction false} FirstReading(paths: seq<Path>, readings: seq<FileSnapshot>, i: nat) returns (k: nat)
    requires i < |paths| && HeldStill(paths, readings)
    ensures k <= i && paths[k] == paths[i] && readings[k] == readings[i] && paths[k] !in paths[..k]
  {
    if j :| 0 <= j < i && paths[j] == paths[i] {
      k := FirstReading(paths, readings, j);
    } else {
      k := i;
    }
  }

  lemma NewsIsNews(table: map<Path, FileSnapshot>, paths: seq<Path>, readings: seq<FileSnapshot>, i: nat)
    requires HeldStill(paths, readings) && AllTaken(readings) && i < |paths|
    requires forall p | p in table :: Taken(table[p])
    requires NewsAt(table, paths, readings, i)
    ensures paths[i] !in table || table[paths[i]] != readings[i]
  {
    StoredHolds(table, paths, readings, i);
    if j :| 0 <= j < i && paths[j] == paths[i] {
      assert readings[j] == readings[i];
      assert Stored(table, paths, readings, i)[paths[i]] == readings[i];
    } else {
      assert paths[i] !in paths[..i];
    }
  }

  /** Polling again while nothing moves reports nothing: each change is reported once. */
  lemma SecondPollIsSilent(table: map<Path, FileSnapshot>, paths: seq<Path>, readings: seq<FileSnapshot>)
    requires HeldStill(paths, readings) && AllTaken(readings)
    requires forall p | p in table :: Taken(table[p])
    ensures var after := Stored(table, paths, readings, |paths|);
            !exists i | 0 <= i < |paths| :: NewsAt(after, paths, readings, i)
  {
    var after := Stored(table, paths, readings, |paths|);
    StoredTaken(table, paths, readings, |paths|);
    StoredHolds(table, paths, readings, |paths|);
    PollReportsExactly(after, paths, readings);
  }

  lemma {:induction false} StoredTaken(table: map<Path, FileSnapshot>, paths: seq<Path>, readings: seq<FileSnapshot>,
                                       n: nat)
    requires n <= |paths| == |readings| && AllTaken(readings)
    requires forall p | p in table :: Taken(table[p])
    ensures forall p | p in Stored(table, paths, readings, n) :: Taken(Stored(table, paths, readings, n)[p])
  {
    if n > 0 {
      StoredTaken(table, paths, readings, n - 1);
    }
  }
}
