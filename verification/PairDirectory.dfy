/**
  The target directory as the pair replacement sees it: a map from names to
  files on which any operation may fail. An operation that fails changes
  nothing, except that a failed write may leave part of its data behind.

  A fault oracle answers every call, so a contract over all oracles speaks of
  every pattern of faults. The trace records each intermediate directory, and
  beside it which of them the disk has been synced to.
 */
module PairDirectory {
  import opened PairNames

  type Bytes = seq<bv8>

  datatype Kind = Regular | Symlink | Special

  /** `flushed`: contents and mode are on the disk, since the last file sync. */
  datatype Entry = Entry(kind: Kind, mode: nat, bytes: Bytes, flushed: bool)

  type Listing = map<string, Entry>

  datatype Errno = Ok | NotExist | Failed

  datatype Op =
    | Mkdir
    | ReadDir
    | SyncDir
    | Lstat(name: string)
    | ReadFile(name: string)
    | CreateTemp(target: string, kind: TempKind)
    | CreateScratch(prefix: string, suffix: string)
    | Write(name: string)
    | Chmod(name: string)
    | Fsync(name: string)
    | Close(name: string)
    | Rename(from: string, to: string)
    | Remove(name: string)

  /** Proceed carries the random part for createTemp, Refuse how much of a failing write was stored. */
  datatype Answer = Proceed(random: string) | Refuse(written: nat)

  const TEMP_MODE: nat := 0x180 // 0600

  ghost predicate SameAt(a: Listing, b: Listing, name: string) {
    (name in a <==> name in b) && (name in a ==> a[name] == b[name])
  }

  ghost predicate SameExcept(a: Listing, b: Listing, names: set<string>) {
    && (forall f | f in a && f !in names :: f in b && b[f] == a[f])
    && (forall f | f in b && f !in names :: f in a)
  }

  /** What a write leaves in the file; a refused one stops somewhere. */
  function Stored(data: Bytes, a: Answer): Bytes {
    match a
    case Proceed(_) => data
    case Refuse(written) => data[..if written < |data| then written else |data|]
  }

  class Directory {
    var entries: Listing
    var clock: nat
    ghost var open: set<string>           // files with an open descriptor
    ghost var trace: seq<Listing>
    ghost var stable: nat                 // the disk holds trace[stable] or a later one
    ghost var stables: seq<nat>           // what `stable` was when each of the trace was recorded
    const answers: (nat, Op) -> Answer
    ghost const reach: iset<string>       // the names its client may use

    ghost predicate Valid()
      reads this
    {
      |trace| > 0 && trace[|trace| - 1] == entries && stable < |trace| == |stables|
    }

    /** No call but lstat is ever refused. */
    ghost predicate CalmButLstat() {
      forall t, op: Op | !op.Lstat? :: CalmAnswer(t, op)
    }

    /** No call is refused. */
    ghost predicate Calm() {
      forall t, op: Op :: CalmAnswer(t, op)
    }

    /** No call is refused any more. */
    ghost predicate CalmFrom(start: nat) {
      forall t, op: Op | t >= start :: CalmAnswer(t, op)
    }

    /** That call was granted at some time. */
    ghost predicate Passed(op: Op) {
      exists t :: answers(t, op).Proceed?
    }

    constructor (initial: Listing, answers: (nat, Op) -> Answer, ghost reach: iset<string>)
      ensures Valid() && entries == initial && trace == [initial]
      ensures this.answers == answers && this.reach == reach
    {
      entries, clock, trace := initial, 0, [initial];
      stable, stables, open := 0, [0], {};
      this.answers, this.reach := answers, reach;
    }

    method Ask(op: Op) returns (a: Answer)
      modifies this`clock
      ensures a == answers(old(clock), op) && clock == old(clock) + 1
    {
      a := answers(clock, op);
      clock := clock + 1;
    }

    method Lstat(name: string) returns (err: Errno, found: Entry)
      requires name in reach
      modifies this`clock
      ensures err == Failed <==> answers(old(clock), Op.Lstat(name)).Refuse?
      ensures err == NotExist ==> name !in entries
      ensures err == Ok ==> name in entries && found == entries[name]
      ensures CalmAnswer(old(clock), Op.Lstat(name)) ==> err != Failed
      ensures clock == old(clock) + 1
    {
      found := Entry(Special, 0, [], false);
      var a := Ask(Op.Lstat(name));
      if a.Refuse? {
        err := Failed;
      } else if name in entries {
        err, found := Ok, entries[name];
      } else {
        err := NotExist;
      }
    }

    method ReadFile(name: string) returns (err: Errno, data: Bytes)
      requires name in reach
      modifies this`clock
      ensures err == Ok ==> name in entries && data == entries[name].bytes
      ensures CalmAnswer(old(clock), Op.ReadFile(name)) && name in entries ==> err == Ok
      ensures err == if answers(old(clock), Op.ReadFile(name)).Refuse? then Failed else if name in entries then Ok else NotExist
      ensures err != Ok ==> data == []
      ensures clock == old(clock) + 1
    {
      data := [];
      var a := Ask(Op.ReadFile(name));
      if a.Refuse? {
        err := Failed;
      } else if name in entries {
        err, data := Ok, entries[name].bytes;
      } else {
        err := NotExist;
      }
    }

    method CreateTemp(target: string, kind: TempKind) returns (err: Errno, name: string)
      requires forall f | IsTemp(target, kind, f) :: f in reach
      requires Valid()
      modifies this
      ensures Valid()
      ensures err == Ok ==>
                && name !in old(entries) && IsTemp(target, kind, name)
                && entries == old(entries)[name := Entry(Regular, TEMP_MODE, [], false)]
                && Recorded() && open == old(open) + {name}
      ensures err != Ok ==> entries == old(entries) && trace == old(trace) && stable == old(stable)
      ensures err != Ok ==> stables == old(stables) && open == old(open)
      ensures CalmAnswer(old(clock), Op.CreateTemp(target, kind)) && DrawsFree(target, kind, old(entries)) ==> err == Ok
      ensures err == Ok <==> CalmAnswer(old(clock), Op.CreateTemp(target, kind))
                             && TempName(target, kind, answers(old(clock), Op.CreateTemp(target, kind)).random) !in old(entries)
      ensures err == Ok ==> name == TempName(target, kind, answers(old(clock), Op.CreateTemp(target, kind)).random)
      ensures err == Ok || err == Failed
      ensures clock == old(clock) + 1
    {
      err, name := Failed, "";
      var a := Ask(Op.CreateTemp(target, kind));
      if a.Proceed? && Digits(a.random) && TempName(target, kind, a.random) !in entries {
        err, name := Ok, TempName(target, kind, a.random);
        entries := entries[name := Entry(Regular, TEMP_MODE, [], false)];
        open := open + {name};
        Record();
      }
    }

    /** Whenever such a name is drawn, it is free in that listing. */
    ghost predicate DrawsFree(target: string, kind: TempKind, s: Listing) {
      forall t | CalmAnswer(t, Op.CreateTemp(target, kind)) :: TempName(target, kind, answers(t, Op.CreateTemp(target, kind)).random) !in s
    }

    /** The same for the scratch names of fallback.json. */
    ghost predicate ScratchFree(prefix: string, suffix: string, s: Listing) {
      forall t | CalmAnswer(t, Op.CreateScratch(prefix, suffix)) :: prefix + answers(t, Op.CreateScratch(prefix, suffix)).random + suffix !in s
    }

    /** The same call for the names of fallback.json. */
    method CreateScratch(prefix: string, suffix: string) returns (err: Errno, name: string)
      requires forall random: string :: prefix + random + suffix in reach
      requires Valid()
      modifies this
      ensures Valid()
      ensures err == Ok ==>
                && name !in old(entries) && (exists random :: name == prefix + random + suffix)
                && entries == old(entries)[name := Entry(Regular, TEMP_MODE, [], false)]
                && Recorded() && open == old(open) + {name}
      ensures err != Ok ==> entries == old(entries) && trace == old(trace) && stable == old(stable)
      ensures err != Ok ==> stables == old(stables) && open == old(open)
      ensures CalmAnswer(old(clock), Op.CreateScratch(prefix, suffix)) && ScratchFree(prefix, suffix, old(entries)) ==>
                err == Ok
      ensures clock == old(clock) + 1
    {
      err, name := Failed, "";
      var a := Ask(Op.CreateScratch(prefix, suffix));
      if a.Proceed? && prefix + a.random + suffix !in entries {
        err, name := Ok, prefix + a.random + suffix;
        entries := entries[name := Entry(Regular, TEMP_MODE, [], false)];
        open := open + {name};
        Record();
      }
    }

    /** Another listing has been recorded, and the disk is known to be no further. */
    twostate predicate Recorded()
      reads this
    {
      trace == old(trace) + [entries] && stable == old(stable) && stables == old(stables) + [stable]
    }

    /** From that position of the trace on, the disk was known to hold the listing at `low` or a later one. */
    ghost predicate SteadyFrom(from: nat, low: nat)
      reads this
    {
      low <= stable && |stables| == |trace| && forall i | from <= i < |stables| :: stables[i] >= low
    }

    ghost predicate CalmAnswer(t: nat, op: Op) {
      answers(t, op).Proceed? && Digits(answers(t, op).random)
    }

    /** Writes to a freshly created, still empty file. */
    method Write(name: string, data: Bytes) returns (err: Errno)
      requires name in reach
      requires Valid() && name in entries
      modifies this
      ensures Valid() && Recorded() && open == old(open)
      ensures name in entries && SameExcept(old(entries), entries, {name})
      ensures err == Ok ==> entries == old(entries)[name := old(entries[name]).(bytes := data, flushed := false)]
      ensures CalmAnswer(old(clock), Op.Write(name)) ==> err == Ok
      ensures entries == old(entries)[name := old(entries)[name].(
                              bytes := Stored(data, answers(old(clock), Op.Write(name))), flushed := false)]
      ensures err == if answers(old(clock), Op.Write(name)).Refuse? then Failed else Ok
      ensures clock == old(clock) + 1
    {
      var a := Ask(Op.Write(name));
      if a.Refuse? {
        err := Failed;
        entries := entries[name := entries[name].(bytes := Stored(data, a), flushed := false)];
      } else {
        err := Ok;
        entries := entries[name := entries[name].(bytes := data, flushed := false)];
      }
      Record();
    }

    method Chmod(name: string, mode: nat) returns (err: Errno)
      requires name in reach
      requires Valid() && name in entries
      modifies this
      ensures Valid() && Recorded() && open == old(open)
      ensures err == Ok ==> entries == old(entries)[name := old(entries[name]).(mode := mode, flushed := false)]
      ensures err != Ok ==> entries == old(entries)
      ensures CalmAnswer(old(clock), Op.Chmod(name)) ==> err == Ok
      ensures err == if answers(old(clock), Op.Chmod(name)).Refuse? then Failed else Ok
      ensures clock == old(clock) + 1
    {
      var a := Ask(Op.Chmod(name));
      if a.Refuse? {
        err := Failed;
      } else {
        err := Ok;
        entries := entries[name := entries[name].(mode := mode, flushed := false)];
      }
      Record();
    }

    /** File.Sync on an open file. */
    method Flush(name: string) returns (err: Errno)
      requires name in reach
      requires Valid() && name in entries
      modifies this
      ensures Valid() && Recorded() && open == old(open)
      ensures err == Ok ==> entries == old(entries)[name := old(entries[name]).(flushed := true)]
      ensures err != Ok ==> entries == old(entries)
      ensures err == if answers(old(clock), Fsync(name)).Refuse? then Failed else Ok
      ensures CalmAnswer(old(clock), Fsync(name)) ==> err == Ok
      ensures clock == old(clock) + 1
    {
      var a := Ask(Fsync(name));
      if a.Refuse? {
        err := Failed;
      } else {
        err := Ok;
        entries := entries[name := entries[name].(flushed := true)];
      }
      Record();
    }

    ghost method Record()
      modifies this`trace, this`stables
      ensures trace == old(trace) + [entries] && stables == old(stables) + [stable]
    {
      trace, stables := trace + [entries], stables + [stable];
    }

    /** syncDir: the names are on the disk as they are now. */
    method Sync() returns (err: Errno)
      requires Valid()
      modifies this`clock, this`stable
      ensures Valid() && (err == Ok || err == Failed)
      ensures err == if answers(old(clock), SyncDir).Refuse? then Failed else Ok
      ensures stable == if err == Ok then |trace| - 1 else old(stable)
      ensures CalmAnswer(old(clock), SyncDir) ==> err == Ok
      ensures clock == old(clock) + 1
    {
      err := Quiet(SyncDir);
      if err == Ok {
        stable := |trace| - 1;
      }
    }

    /** The descriptor is gone even where Close reports an error. */
    method Close(name: string) returns (err: Errno)
      modifies this`clock, this`open
      ensures err == Ok || err == Failed
      ensures err == if answers(old(clock), Op.Close(name)).Refuse? then Failed else Ok
      ensures CalmAnswer(old(clock), Op.Close(name)) ==> err == Ok
      ensures open == old(open) - {name}
      ensures clock == old(clock) + 1
    {
      err := Quiet(Op.Close(name));
      open := open - {name};
    }

    /** Operations that leave the listing alone: mkdirAll and readDir. */
    method Quiet(op: Op) returns (err: Errno)
      modifies this`clock
      ensures err == Ok || err == Failed
      ensures err == if answers(old(clock), op).Refuse? then Failed else Ok
      ensures CalmAnswer(old(clock), op) ==> err == Ok
      ensures clock == old(clock) + 1
    {
      var a := Ask(op);
      err := if a.Refuse? then Failed else Ok;
    }

    method Remove(name: string) returns (err: Errno)
      requires name in reach
      requires Valid()
      modifies this
      ensures Valid() && Recorded() && open == old(open)
      ensures err == Failed ==> entries == old(entries)
      ensures err != Failed ==> entries == old(entries) - {name}
      ensures err != Failed ==> (err == NotExist <==> name !in old(entries))
      ensures err == Failed <==> answers(old(clock), Op.Remove(name)).Refuse?
      ensures CalmAnswer(old(clock), Op.Remove(name)) ==> err != Failed
      ensures clock == old(clock) + 1
    {
      var a := Ask(Op.Remove(name));
      if a.Refuse? {
        err := Failed;
      } else if name in entries {
        err := Ok;
        entries := entries - {name};
      } else {
        err := NotExist;
        assert entries == entries - {name};
      }
      Record();
    }

    method Rename(from: string, to: string) returns (err: Errno)
      requires from in reach && to in reach
      requires Valid()
      modifies this
      ensures Valid() && Recorded() && open == old(open)
      ensures err == Ok ==> from in old(entries) && entries == (old(entries) - {from})[to := old(entries)[from]]
      ensures err != Ok ==> entries == old(entries)
      ensures CalmAnswer(old(clock), Op.Rename(from, to)) && from in old(entries) ==> err == Ok
      ensures err == if answers(old(clock), Op.Rename(from, to)).Refuse? then Failed else if from in old(entries) then Ok else NotExist
      ensures clock == old(clock) + 1
    {
      var a := Ask(Op.Rename(from, to));
      if a.Refuse? {
        err := Failed;
      } else if from in entries {
        err := Ok;
        entries := (entries - {from})[to := entries[from]];
      } else {
        err := NotExist;
      }
      Record();
    }
  }
}
