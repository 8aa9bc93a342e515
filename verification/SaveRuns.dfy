/** Whole sequences of saves under one path, of either store. */
module SaveRuns {
  import opened DurableVolume
  import opened SaveProtocol

  /** One finished save: what it was asked to write, what it said, and the volume it left. */
  datatype Step = Step(data: Bytes, result: SaveResult, img: Image, durable: seq<Names>)

  datatype Contents = Nothing | Holds(node: Inode)

  /** Each save starts from the volume that the previous one left. */
  ghost predicate SaveRun(start: Image, durable: seq<Names>, path: string, steps: seq<Step>)
    decreases |steps|
  {
    steps != [] ==>
      && SaveMeans(start, Settled(durable, start.names, path), path, steps[0].data, steps[0].result, steps[0].img, steps[0].durable)
      && SaveRun(steps[0].img, steps[0].durable, path, steps[1..])
  }

  ghost function Shown(img: Image, names: Names, path: string): Contents {
    if path in names && names[path] in img.inodes then Holds(img.inodes[names[path]]) else Nothing
  }

  /** The data of the last save that succeeded, or what was there at the start. */
  ghost function Expected(initial: Contents, steps: seq<Step>): Contents
    decreases |steps|
  {
    if steps == [] then initial
    else Expected(if steps[0].result == Saved then Holds(NewFile(steps[0].data)) else initial, steps[1..])
  }

  ghost function LastImage(start: Image, steps: seq<Step>): Image {
    if steps == [] then start else steps[|steps| - 1].img
  }

  ghost function LastDurable(durable: seq<Names>, steps: seq<Step>): seq<Names> {
    if steps == [] then durable else steps[|steps| - 1].durable
  }

  /**
    As long as no rollback fails, memory and every possible disk hold exactly
    what the last successful save wrote, however many saves failed around it.
   */
  lemma {:induction false} DiskHoldsLastSave(start: Image, durable: seq<Names>, path: string, steps: seq<Step>)
    requires SaveRun(start, durable, path, steps)
    requires Settled(durable, start.names, path)
    requires path in start.names ==> Resolves(start, path)
    requires forall i | 0 <= i < |steps| :: !steps[i].result.RollbackFailed?
    ensures var img, disk := LastImage(start, steps), LastDurable(durable, steps);
            && Shown(img, img.names, path) == Expected(Shown(start, start.names, path), steps)
            && forall i | 0 <= i < |disk| :: Shown(img, disk[i], path) == Expected(Shown(start, start.names, path), steps)
    decreases |steps|
  {
    if steps != [] {
      var first := steps[0];
      OneSave(start, durable, path, first);
      DiskHoldsLastSave(first.img, first.durable, path, steps[1..]);
      assert LastImage(first.img, steps[1..]) == LastImage(start, steps);
      assert LastDurable(first.durable, steps[1..]) == LastDurable(durable, steps);
    }
  }

  lemma OneSave(start: Image, durable: seq<Names>, path: string, s: Step)
    requires SaveMeans(start, Settled(durable, start.names, path), path, s.data, s.result, s.img, s.durable)
    requires Settled(durable, start.names, path)
    requires path in start.names ==> Resolves(start, path)
    requires !s.result.RollbackFailed?
    ensures Settled(s.durable, s.img.names, path)
    ensures path in s.img.names ==> Resolves(s.img, path)
    ensures Shown(s.img, s.img.names, path) ==
            if s.result == Saved then Holds(NewFile(s.data)) else Shown(start, start.names, path)
  {
    if s.result == SaveFailed {
      forall i | 0 <= i < |s.durable|
        ensures SameAt(s.img.names, s.durable[i], path)
      {
        assert OldAt(start, path, s.durable[i]);
      }
    }
  }

  /**
    A crash at any moment of a save, whatever its outcome would have been: each
    name table that the disk may hold shows under the path the old contents or
    all of the new ones.
   */
  lemma CrashShowsOldOrNew(start: Image, path: string, data: Bytes, m: Moment, i: nat)
    requires WholeThen(start, true, path, data, m) && i < |m.durable|
    requires path in start.names ==> Resolves(start, path)
    ensures Shown(m.img, m.durable[i], path) == Shown(start, start.names, path) || Shown(m.img, m.durable[i], path) == Holds(NewFile(data))
  {
    assert OldAt(start, path, m.durable[i]) || NewAt(path, data, m.img, m.durable[i]);
  }

  /** A backup that a failed rollback names can be renamed back by hand: it is the old file. */
  lemma NamedBackupRecovers(start: Image, settled: bool, path: string, s: Step)
    requires SaveMeans(start, settled, path, s.data, s.result, s.img, s.durable)
    requires s.result.RollbackFailed? && s.result.backupPath != ""
    ensures var backup := s.result.backupPath;
            && backup in s.img.names
            && Shown(s.img, (s.img.names - {backup})[path := s.img.names[backup]], path) == Shown(start, start.names, path)
            && forall i | 0 <= i < |s.durable| :: Shown(s.img, s.durable[i], backup) == Shown(start, start.names, path)
  {
    forall i | 0 <= i < |s.durable|
      ensures BackupAt(start, path, s.result.backupPath, s.durable[i])
    {
    }
  }
}
