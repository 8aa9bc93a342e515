/**
  A directory with hard links, a volatile and a durable side. Names are bound
  to inodes; a change of a name is durable for certain only after the directory
  has been synced, and the contents of an inode only after the file has been
  synced. Until the next sync the disk may hold any directory state since the
  last one, so `durable` lists them all.
 */
module DurableVolume {

  type Bytes = seq<bv8>

  /** A broken symbolic link occupies a name, but stat does not find it. */
  datatype Kind = File | BrokenLink

  datatype Inode = Inode(kind: Kind, mode: nat, bytes: Bytes, flushed: bool)

  type Names = map<string, nat>

  datatype Image = Image(names: Names, inodes: map<nat, Inode>)

  /** Memory and disk at one moment: the disk may hold any of the name tables. */
  datatype Moment = Moment(img: Image, durable: seq<Names>)

  datatype Errno = Ok | NotExist | Failed

  /** The calls that a save makes, told apart as far as a fault may tell them apart. */
  datatype Step =
    | MkDir | Create | SetMode | Fill | FileSync | FileClose | Probe
    | LinkTo(to: string) | Move(from: string) | Drop(name: string)
    | DirOpen | DirSync | DirClose

  const SECRET_MODE: nat := 0x180 // 0600

  class Volume {
    var names: Names
    var inodes: map<nat, Inode>
    var next: nat
    var clock: nat
    ghost var durable: seq<Names>
    ghost var handles: int                // descriptors that are open
    ghost var trace: seq<Moment>
    const refuses: (nat, Step) -> bool
    const drawn: nat -> string

    ghost function Now(): Image
      reads `names, `inodes
    {
      Image(names, inodes)
    }

    ghost function Here(): Moment
      reads `names, `inodes, `durable
    {
      Moment(Now(), durable)
    }

    ghost predicate Valid()
      reads `names, `inodes, `next, `durable, `trace
    {
      && (forall i | i in inodes :: i < next)
      && (forall f | f in names :: names[f] in inodes)
      && |durable| > 0 && durable[|durable| - 1] == names
      && |trace| > 0 && trace[|trace| - 1] == Here()
    }

    /** No call is refused. */
    ghost predicate Calm() {
      forall t, s: Step :: !refuses(t, s)
    }

    /** That call was granted at some time. */
    ghost predicate Passed(s: Step) {
      exists t :: !refuses(t, s)
    }

    /** The removal of that name is never refused. */
    ghost predicate Removable(name: string) {
      forall t :: !refuses(t, Drop(name))
    }

    constructor (initial: Names, inodes: map<nat, Inode>, next: nat, refuses: (nat, Step) -> bool, drawn: nat -> string)
      requires (forall i | i in inodes :: i < next) && (forall f | f in initial :: initial[f] in inodes)
      ensures Valid() && Now() == Image(initial, inodes) && durable == [initial]
      ensures this.refuses == refuses && this.drawn == drawn && clock == 0 && handles == 0
    {
      names, this.inodes, this.next, clock := initial, inodes, next, 0;
      durable, trace := [initial], [Moment(Image(initial, inodes), [initial])];
      this.refuses, this.drawn, handles := refuses, drawn, 0;
    }

    method Refused(s: Step) returns (r: bool)
      modifies this`clock
      ensures r == refuses(old(clock), s) && clock == old(clock) + 1
      ensures Calm() ==> !r
      ensures !r ==> Passed(s)
    {
      r := refuses(clock, s);
      clock := clock + 1;
    }

    /** Calls that may fail and change nothing here. */
    method Quiet(s: Step) returns (err: Errno)
      modifies this`clock
      ensures err == Ok || err == Failed
      ensures err == Ok ==> Passed(s)
      ensures Calm() ==> err == Ok
    {
      var r := Refused(s);
      err := if r then Failed else Ok;
    }

    /** The descriptor is gone even where Close reports an error. */
    method Close(s: Step) returns (err: Errno)
      modifies this`clock, this`handles
      ensures err == Ok || err == Failed
      ensures err == Ok ==> Passed(s)
      ensures Calm() ==> err == Ok
      ensures handles == old(handles) - 1
    {
      err := Quiet(s);
      handles := handles - 1;
    }

    method CreateTemp(prefix: string, suffix: string) returns (err: Errno, name: string)
      requires Valid()
      modifies this
      ensures Valid() && old(trace) <= trace && old(durable) <= durable
      ensures err == Ok ==>
                && name == prefix + drawn(old(clock)) + suffix && name !in old(names)
                && old(next) !in old(inodes)
                && names == old(names)[name := old(next)]
                && inodes == old(inodes)[old(next) := Inode(File, SECRET_MODE, [], false)]
                && durable == old(durable) + [names] && trace == old(trace) + [Here()]
      ensures err != Ok ==> Now() == old(Now()) && durable == old(durable) && trace == old(trace)
      ensures handles == old(handles) + if err == Ok then 1 else 0
      ensures err == Ok || err == Failed
      ensures Calm() && prefix + drawn(old(clock)) + suffix !in old(names) ==> err == Ok
      ensures err == Ok ==> Passed(Create)
    {
      name := prefix + drawn(clock) + suffix;
      var r := Refused(Create);
      if r || name in names {
        return Failed, name;
      }
      names := names[name := next];
      inodes := inodes[next := Inode(File, SECRET_MODE, [], false)];
      next := next + 1;
      durable := durable + [names];
      trace := trace + [Here()];
      handles := handles + 1;
      return Ok, name;
    }

    method Chmod(i: nat, mode: nat) returns (err: Errno)
      requires Valid() && i in inodes
      modifies this`inodes, this`clock, this`trace
      ensures Valid() && trace == old(trace) + [Here()]
      ensures inodes == old(inodes)[i := if err == Ok then old(inodes)[i].(mode := mode) else old(inodes)[i]]
      ensures Calm() ==> err == Ok
    {
      var r := Refused(SetMode);
      if !r {
        inodes := inodes[i := inodes[i].(mode := mode)];
      }
      assert inodes == inodes[i := inodes[i]];
      trace := trace + [Here()];
      err := if r then Failed else Ok;
    }

    /** Fills an empty file; a failing write leaves some part of the data behind. */
    method Write(i: nat, data: Bytes) returns (err: Errno)
      requires Valid() && i in inodes
      modifies this`inodes, this`clock, this`trace
      ensures Valid() && trace == old(trace) + [Here()]
      ensures i in inodes && inodes == old(inodes)[i := old(inodes)[i].(bytes := inodes[i].bytes, flushed := false)]
      ensures err == Ok ==> inodes[i].bytes == data
      ensures Calm() ==> err == Ok
    {
      var r := Refused(Fill);
      var stored := |data|;
      if r {
        stored :| 0 <= stored <= |data|;
      }
      inodes := inodes[i := inodes[i].(bytes := data[..stored], flushed := false)];
      trace := trace + [Here()];
      err := if r then Failed else Ok;
    }

    method Fsync(i: nat) returns (err: Errno)
      requires Valid() && i in inodes
      modifies this`inodes, this`clock, this`trace
      ensures Valid() && trace == old(trace) + [Here()]
      ensures inodes == old(inodes)[i := old(inodes)[i].(flushed := old(inodes)[i].flushed || err == Ok)]
      ensures Calm() ==> err == Ok
    {
      var r := Refused(FileSync);
      if !r {
        inodes := inodes[i := inodes[i].(flushed := true)];
      }
      assert inodes == inodes[i := inodes[i]];
      trace := trace + [Here()];
      err := if r then Failed else Ok;
    }

    /** Follows links: a broken link is reported as absent. */
    method Stat(path: string) returns (err: Errno)
      requires Valid()
      modifies this`clock
      ensures err == Ok ==> Resolves(Now(), path)
      ensures err == NotExist ==> !Resolves(Now(), path)
      ensures Calm() ==> err != Failed
    {
      var r := Refused(Probe);
      err := if r then Failed else if path in names && inodes[names[path]].kind == File then Ok else NotExist;
    }

    /** A second name for the same inode; fails when the new name is taken. */
    method Link(from: string, to: string) returns (err: Errno)
      requires Valid()
      modifies this
      ensures handles == old(handles)
      ensures Valid()
      ensures err == Ok ==>
                && from in old(names) && to !in old(names) && names == old(names)[to := old(names)[from]]
                && inodes == old(inodes)
                && durable == old(durable) + [names] && trace == old(trace) + [Here()]
      ensures err != Ok ==> Now() == old(Now()) && durable == old(durable) && trace == old(trace)
      ensures Calm() && from in old(names) && to !in old(names) ==> err == Ok
      ensures err == Ok ==> Passed(LinkTo(to))
    {
      var r := Refused(LinkTo(to));
      if r || to in names {
        return Failed;
      }
      if from !in names {
        return NotExist;
      }
      names := names[to := names[from]];
      durable := durable + [names];
      trace := trace + [Here()];
      return Ok;
    }

    method Rename(from: string, to: string) returns (err: Errno)
      requires Valid()
      modifies this
      ensures handles == old(handles)
      ensures Valid() && inodes == old(inodes)
      ensures err == Ok ==>
                && from in old(names) && names == (old(names) - {from})[to := old(names)[from]]
                && durable == old(durable) + [names] && trace == old(trace) + [Here()]
      ensures err != Ok ==> Now() == old(Now()) && durable == old(durable) && trace == old(trace)
      ensures Calm() && from in old(names) ==> err == Ok
      ensures err == Ok ==> Passed(Move(from))
    {
      var r := Refused(Move(from));
      if r {
        return Failed;
      }
      if from !in names {
        return NotExist;
      }
      names := (names - {from})[to := names[from]];
      durable := durable + [names];
      trace := trace + [Here()];
      return Ok;
    }

    method Remove(name: string) returns (err: Errno)
      requires Valid()
      modifies this
      ensures handles == old(handles)
      ensures Valid() && inodes == old(inodes)
      ensures err == Ok ==>
                && name in old(names) && names == old(names) - {name}
                && durable == old(durable) + [names] && trace == old(trace) + [Here()]
      ensures err != Ok ==> Now() == old(Now()) && durable == old(durable) && trace == old(trace)
      ensures err == NotExist ==> name !in old(names)
      ensures Calm() && name in old(names) ==> err == Ok
      ensures Removable(name) ==> name !in names && err != Failed
      ensures err == Ok ==> Passed(Drop(name))
    {
      var r := Refused(Drop(name));
      if r {
        return Failed;
      }
      if name !in names {
        return NotExist;
      }
      names := names - {name};
      durable := durable + [names];
      trace := trace + [Here()];
      return Ok;
    }

    /** Open, sync and close of the directory; a failure may come before or after the disk has it. */
    method SyncDir() returns (err: Errno)
      requires Valid()
      modifies this`durable, this`clock, this`trace, this`handles
      ensures Valid() && handles == old(handles)
      ensures err == Ok ==> durable == [names] && trace == old(trace) + [Here()]
      ensures err != Ok ==> durable == old(durable) && trace == old(trace)
      ensures err == Ok || err == Failed
      ensures Calm() ==> err == Ok
      ensures err == Ok ==> Passed(DirOpen) && Passed(DirSync) && Passed(DirClose)
    {
      err := Quiet(DirOpen);
      if err != Ok {
        return;
      }
      handles := handles + 1;
      err := Quiet(DirSync);
      if err != Ok {
        var _ := Close(DirClose);
        return;
      }
      err := Close(DirClose);
      if err == Ok {
        durable := [names];
        trace := trace + [Here()];
      }
    }
  }

  ghost predicate Resolves(img: Image, path: string) {
    path in img.names && img.names[path] in img.inodes && img.inodes[img.names[path]].kind == File
  }
}
