/**
  Several targets of one directory, replaced at the same time. A client only
  ever uses the names in its own reach, which the directory demands of every
  call; what others do outside that reach, between any two calls, changes
  neither an answer nor a file of the client. So whatever is proved of a run
  on its own holds of its own names in any company.
 */
module PairTogether {
  import opened Options
  import opened PairNames
  import opened PairDirectory
  import opened PairReplace

  /** One call with what it brings along. */
  datatype Call =
    | Look(name: string)
    | Fetch(name: string)
    | Create(target: string, kind: TempKind)
    | Fill(name: string, data: Bytes)
    | SetMode(name: string, mode: nat)
    | FileSync(name: string)
    | Drop(name: string)
    | Move(from: string, to: string)
    | List(target: string)             // readDir, of which the sweep uses the names it may remove
    | Other(op: Op)                    // mkdirAll, syncDir, Close: no names are changed

  datatype Reply = Reply(err: Errno, found: Option<Entry>, data: Bytes, name: string, listed: set<string>)

  function Plain(err: Errno): Reply {
    Reply(err, None, [], "", {})
  }

  predicate Possible(s: Listing, c: Call) {
    (c.Fill? ==> c.name in s) && (c.SetMode? ==> c.name in s) && (c.FileSync? ==> c.name in s)
  }

  /** What a call answers. */
  function ReplyTo(s: Listing, c: Call, a: Answer): Reply {
    match c
    case Look(name) =>
      if a.Refuse? then Plain(Failed) else if name in s then Plain(Ok).(found := Some(s[name])) else Plain(NotExist)
    case Fetch(name) =>
      if a.Refuse? then Plain(Failed) else if name in s then Plain(Ok).(data := s[name].bytes) else Plain(NotExist)
    case Create(target, kind) =>
      if a.Proceed? && Digits(a.random) && TempName(target, kind, a.random) !in s then Plain(Ok).(name := TempName(target, kind, a.random))
      else Plain(Failed)
    case Drop(name) => Plain(if a.Refuse? then Failed else if name in s then Ok else NotExist)
    case Move(from, _) => Plain(if a.Refuse? then Failed else if from in s then Ok else NotExist)
    case List(target) => if a.Refuse? then Plain(Failed) else Plain(Ok).(listed := set f | f in s && Swept(target, f))
    case _ => Plain(if a.Refuse? then Failed else Ok)
  }

  /** What a call leaves. */
  function Perform(s: Listing, c: Call, a: Answer): Listing
    requires Possible(s, c)
  {
    match c
    case Create(target, kind) =>
      if ReplyTo(s, c, a).err == Ok then s[TempName(target, kind, a.random) := Entry(Regular, TEMP_MODE, [], false)] else s
    case Fill(name, data) => s[name := s[name].(bytes := Stored(data, a), flushed := false)]
    case SetMode(name, mode) => if a.Refuse? then s else s[name := s[name].(mode := mode, flushed := false)]
    case FileSync(name) => if a.Refuse? then s else s[name := s[name].(flushed := true)]
    case Drop(name) => if a.Refuse? then s else s - {name}
    case Move(from, to) => if a.Refuse? || from !in s then s else (s - {from})[to := s[from]]
    case _ => s
  }

  /** A call that uses only names in reach. */
  ghost predicate Within(reach: iset<string>, c: Call) {
    match c
    case Create(target, kind) => forall f | IsTemp(target, kind, f) :: f in reach
    case Move(from, to) => from in reach && to in reach
    case List(target) => forall f | Swept(target, f) :: f in reach
    case Other(_) => true
    case _ => c.name in reach
  }

  // ---------------------------------------------------------------- the directory performs its calls

  method LookIsPerformed(d: Directory, name: string) returns (err: Errno, found: Entry)
    requires name in d.reach
    modifies d`clock
    ensures ReplyTo(d.entries, Look(name), d.answers(old(d.clock), Lstat(name))) ==
            if err == Ok then Plain(Ok).(found := Some(found)) else Plain(err)
  {
    err, found := d.Lstat(name);
  }

  method FetchIsPerformed(d: Directory, name: string) returns (err: Errno, data: Bytes)
    requires name in d.reach
    modifies d`clock
    ensures ReplyTo(d.entries, Fetch(name), d.answers(old(d.clock), ReadFile(name))) == Plain(err).(data := data)
  {
    err, data := d.ReadFile(name);
  }

  method CreateIsPerformed(d: Directory, target: string, kind: TempKind) returns (err: Errno, name: string)
    requires d.Valid() && forall f | IsTemp(target, kind, f) :: f in d.reach
    modifies d
    ensures var a := d.answers(old(d.clock), CreateTemp(target, kind));
            && ReplyTo(old(d.entries), Create(target, kind), a) == (if err == Ok then Plain(Ok).(name := name) else Plain(err))
            && d.entries == Perform(old(d.entries), Create(target, kind), a)
  {
    err, name := d.CreateTemp(target, kind);
  }

  method FillIsPerformed(d: Directory, name: string, data: Bytes) returns (err: Errno)
    requires d.Valid() && name in d.reach && name in d.entries
    modifies d
    ensures var a := d.answers(old(d.clock), Write(name));
            Plain(err) == ReplyTo(old(d.entries), Fill(name, data), a) && d.entries == Perform(old(d.entries), Fill(name, data), a)
  {
    err := d.Write(name, data);
  }

  method SetModeIsPerformed(d: Directory, name: string, mode: nat) returns (err: Errno)
    requires d.Valid() && name in d.reach && name in d.entries
    modifies d
    ensures var a := d.answers(old(d.clock), Chmod(name));
            Plain(err) == ReplyTo(old(d.entries), SetMode(name, mode), a) && d.entries == Perform(old(d.entries), SetMode(name, mode), a)
  {
    err := d.Chmod(name, mode);
  }

  method FileSyncIsPerformed(d: Directory, name: string) returns (err: Errno)
    requires d.Valid() && name in d.reach && name in d.entries
    modifies d
    ensures var a := d.answers(old(d.clock), Fsync(name));
            && Plain(err) == ReplyTo(old(d.entries), FileSync(name), a)
            && d.entries == Perform(old(d.entries), FileSync(name), a)
  {
    err := d.Flush(name);
  }

  method DropIsPerformed(d: Directory, name: string) returns (err: Errno)
    requires d.Valid() && name in d.reach
    modifies d
    ensures var a := d.answers(old(d.clock), Remove(name));
            Plain(err) == ReplyTo(old(d.entries), Drop(name), a) && d.entries == Perform(old(d.entries), Drop(name), a)
  {
    err := d.Remove(name);
  }

  method MoveIsPerformed(d: Directory, from: string, to: string) returns (err: Errno)
    requires d.Valid() && from in d.reach && to in d.reach
    modifies d
    ensures var a := d.answers(old(d.clock), Rename(from, to));
            Plain(err) == ReplyTo(old(d.entries), Move(from, to), a) && d.entries == Perform(old(d.entries), Move(from, to), a)
  {
    err := d.Rename(from, to);
  }

  /** readDir, and the filter of the sweep. */
  method ListIsPerformed(d: Directory, target: string) returns (err: Errno, listed: set<string>)
    requires forall f | Swept(target, f) :: f in d.reach
    modifies d`clock
    ensures ReplyTo(d.entries, List(target), d.answers(old(d.clock), ReadDir)) == Plain(err).(listed := listed)
  {
    err := d.Quiet(ReadDir);
    listed := if err == Ok then set f | f in d.entries && Swept(target, f) else {};
  }

  // ---------------------------------------------------------------- in company

  /** The two listings agree on the names in reach. */
  ghost predicate SameWithin(reach: iset<string>, a: Listing, b: Listing) {
    forall f | f in reach :: SameAt(a, b, f)
  }

  /** With the same answer of the system, a call within reach sees the same and leaves the same there, and nothing elsewhere. */
  lemma CallSeesItsReachOnly(reach: iset<string>, a: Listing, b: Listing, c: Call, answer: Answer)
    requires SameWithin(reach, a, b) && Within(reach, c)
    ensures Possible(a, c) <==> Possible(b, c)
    ensures ReplyTo(a, c, answer) == ReplyTo(b, c, answer)
    ensures Possible(a, c) ==> SameWithin(reach, Perform(a, c, answer), Perform(b, c, answer))
    ensures Possible(a, c) ==> forall f | f !in reach :: SameAt(a, Perform(a, c, answer), f)
  {
    if c.Create? && answer.Proceed? && Digits(answer.random) {
      assert IsTemp(c.target, c.kind, TempName(c.target, c.kind, answer.random));
    }
  }

  /** What happens in the shared directory: a call of this client, or anything outside its reach. */
  datatype Event = Mine(call: Call, answer: Answer) | Theirs(after: Listing)

  ghost predicate Legal(reach: iset<string>, s: Listing, e: Event) {
    match e
    case Mine(c, _) => Within(reach, c) && Possible(s, c)
    case Theirs(after) => SameWithin(reach, s, after)
  }

  function After(s: Listing, e: Event): Listing
    requires e.Mine? ==> Possible(s, e.call)
  {
    match e
    case Mine(c, a) => Perform(s, c, a)
    case Theirs(after) => after
  }

  ghost predicate Shared(reach: iset<string>, s: Listing, events: seq<Event>)
    decreases |events|
  {
    events != [] ==> Legal(reach, s, events[0]) && Shared(reach, After(s, events[0]), events[1..])
  }

  /** The client's own calls, in order. */
  function Own(events: seq<Event>): seq<Event> {
    if events == [] then []
    else if events[0].Mine? then [events[0]] + Own(events[1..])
    else Own(events[1..])
  }

  ghost function Final(reach: iset<string>, s: Listing, events: seq<Event>): Listing
    requires Shared(reach, s, events)
    decreases |events|
  {
    if events == [] then s else Final(reach, After(s, events[0]), events[1..])
  }

  /** Every answer that the client gets. */
  ghost function Replies(reach: iset<string>, s: Listing, events: seq<Event>): seq<Reply>
    requires Shared(reach, s, events)
    decreases |events|
  {
    if events == [] then []
    else
      var rest := Replies(reach, After(s, events[0]), events[1..]);
      if events[0].Mine? then [ReplyTo(s, events[0].call, events[0].answer)] + rest else rest
  }

  /**
    The company of others is invisible: leaving out all they do, the client's
    calls are just as possible, get the same answers, and leave the same files
    under every name in its reach.
   */
  lemma {:induction false} CompanyIsInvisible(reach: iset<string>, s: Listing, alone: Listing, events: seq<Event>)
    requires Shared(reach, s, events) && SameWithin(reach, s, alone)
    ensures Shared(reach, alone, Own(events))
    ensures Replies(reach, s, events) == Replies(reach, alone, Own(events))
    ensures SameWithin(reach, Final(reach, s, events), Final(reach, alone, Own(events)))
    decreases |events|
  {
    if events != [] {
      var e := events[0];
      match e
      case Mine(c, a) =>
        CallSeesItsReachOnly(reach, s, alone, c, a);
        CompanyIsInvisible(reach, After(s, e), After(alone, e), events[1..]);
        assert ([e] + Own(events[1..]))[1..] == Own(events[1..]);
      case Theirs(after) =>
        CompanyIsInvisible(reach, after, alone, events[1..]);
    }
  }

  /** For a replacement, the calls of a replacement of another target are company, unless the names interfere. */
  lemma ReplacementsAreCompany(target: string, other: string, s: Listing, c: Call, a: Answer)
    requires target != other && !Interferes(target, other) && !Interferes(other, target)
    requires Within(Footprint(other), c) && Possible(s, c)
    ensures Legal(Footprint(target), s, Theirs(Perform(s, c, a)))
  {
    CallSeesItsReachOnly(Footprint(other), s, s, c, a);
    forall f | f in Footprint(target)
      ensures SameAt(s, Perform(s, c, a), f)
    {
      FootprintsDisjoint(target, other, f);
    }
  }

  // ---------------------------------------------------------------- two replacements at once

  /** A call of one of two replacements that share a directory. */
  datatype Turn = Turn(first: bool, call: Call, answer: Answer)

  ghost predicate Interleaved(target: string, other: string, s: Listing, turns: seq<Turn>)
    decreases |turns|
  {
    turns != [] ==>
      && Possible(s, turns[0].call) && Within(Footprint(if turns[0].first then target else other), turns[0].call)
      && Interleaved(target, other, Perform(s, turns[0].call, turns[0].answer), turns[1..])
  }

  /** The same turns as one of the two sees them. */
  ghost function SeenBy(first: bool, target: string, other: string, s: Listing, turns: seq<Turn>): seq<Event>
    requires Interleaved(target, other, s, turns)
    decreases |turns|
  {
    if turns == [] then []
    else
      var t := turns[0];
      var after := Perform(s, t.call, t.answer);
      [if t.first == first then Mine(t.call, t.answer) else Theirs(after)] + SeenBy(first, target, other, after, turns[1..])
  }

  ghost function Together(target: string, other: string, s: Listing, turns: seq<Turn>): Listing
    requires Interleaved(target, other, s, turns)
    decreases |turns|
  {
    if turns == [] then s else Together(target, other, Perform(s, turns[0].call, turns[0].answer), turns[1..])
  }

  /** Each of the two replacements sees a legal history that ends in the shared directory. */
  lemma {:induction false} EachSeesCompany(first: bool, target: string, other: string, s: Listing, turns: seq<Turn>)
    requires target != other && !Interferes(target, other) && !Interferes(other, target)
    requires Interleaved(target, other, s, turns)
    ensures var mine, events := Footprint(if first then target else other), SeenBy(first, target, other, s, turns);
            Shared(mine, s, events) && Final(mine, s, events) == Together(target, other, s, turns)
    decreases |turns|
  {
    if turns != [] {
      var t := turns[0];
      var after := Perform(s, t.call, t.answer);
      EachSeesCompany(first, target, other, after, turns[1..]);
      var events := SeenBy(first, target, other, s, turns);
      assert events[1..] == SeenBy(first, target, other, after, turns[1..]);
      if t.first != first {
        ReplacementsAreCompany(if first then target else other, if first then other else target, s, t.call, t.answer);
      }
    }
  }

  /**
    Two replacements of targets that do not interfere may run at the same time,
    in any interleaving and under any faults: each gets the answers that it
    would get alone, and each finds under the names of its footprint what it
    would have left there alone.
   */
  lemma TwoReplacementsAtOnce(target: string, other: string, s: Listing, turns: seq<Turn>)
    requires target != other && !Interferes(target, other) && !Interferes(other, target)
    requires Interleaved(target, other, s, turns)
    ensures forall first: bool ::
              var mine, events := Footprint(if first then target else other), SeenBy(first, target, other, s, turns);
              && Shared(mine, s, events) && Shared(mine, s, Own(events))
              && Replies(mine, s, events) == Replies(mine, s, Own(events))
              && SameWithin(mine, Together(target, other, s, turns), Final(mine, s, Own(events)))
  {
    forall first: bool
      ensures var mine, events := Footprint(if first then target else other), SeenBy(first, target, other, s, turns);
              && Shared(mine, s, events) && Shared(mine, s, Own(events))
              && Replies(mine, s, events) == Replies(mine, s, Own(events))
              && SameWithin(mine, Together(target, other, s, turns), Final(mine, s, Own(events)))
    {
      var mine, events := Footprint(if first then target else other), SeenBy(first, target, other, s, turns);
      EachSeesCompany(first, target, other, s, turns);
      CompanyIsInvisible(mine, s, s, events);
    }
  }
}
