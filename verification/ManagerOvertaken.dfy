/**
  Two runs after which an entry is shown wrongly although nothing is under
  way: an acknowledgement overtaken by an activation, and a sync whose
  destination does not resolve.
 */
module ManagerOvertaken {
  import opened Options
  import opened ConfigRules
  import opened Secrets
  import opened ManagerState
  import opened ManagerThreads
  import opened ManagerInvariant
  import opened ManagerRuns
  import opened ManagerProgress
  import opened ManagerFuel
  import opened ManagerTheorems
  import opened ManagerNotices

  // ---------------------------------------------------------------- an apply looks at the record

  /** Meeting no fault, an apply flags every pending directory of its candidate. */
  ghost predicate LooksWell(sh: Shared, a: ApplyRun) {
    Looking(a.at) ==> !sh.notice.acked && sh.notice.missed == {}
  }

  lemma GoodStepLooksWell(sh: Shared, a: ApplyRun, c: Choice)
    requires Upward(a.at) && a.at != AtActivateEnter && c.ok && LooksWell(sh, a)
    ensures LooksWell(SharedAfter(sh, Applying(a), c), ApplyNext(sh, a, c))
    ensures sh.notice.pending <= SharedAfter(sh, Applying(a), c).notice.pending
  {
    hide Effect;
    hide Admissible;
    hide WatchesFor;
    hide DirsOfBoth;
    hide FallbackDirs;
    hide Wanted;
  }

  /** An apply alone, from its arrival to the moment before its activation. */
  ghost predicate AboutToActivate(s: State, r: State, t: nat, a: ApplyRun, b: ApplyRun) {
    && r.threads == map[t := Applying(b)] && b.at == AtActivateAnnounce && b.candidate == a.candidate
    && r.sh.policy == s.sh.policy && r.sh.active == s.sh.active
    && s.sh.notice.pending <= r.sh.notice.pending && LooksWell(r.sh, b)
  }

  lemma {:induction false} LooksThrough(s: State, t: nat, a: ApplyRun) returns (events: seq<Event>, b: ApplyRun)
    requires Inv(s) && NoticesOk(s) && s.threads == map[t := Applying(a)] && LooksWell(s.sh, a)
    requires Stages(a.at) > 0 && Admissible(s.sh.policy, a.candidate, a.secrets)
    ensures IsRun(s, events) && AboutToActivate(s, Outcome(s, events), t, a, b)
    decreases Stages(a.at), Round(a)
  {
    hide Dir;
    hide FallbackDirs;
    hide Find;
    if a.at == AtActivateAnnounce {
      return [], a;
    }
    var c := GoodChoice(a);
    var step := Step(t, c);
    Alone(s, t, Applying(a), c);
    StepKeepsInv(s, step);
    StepKeepsNotices(s, step);
    GoodStepLooksWell(s.sh, a, c);
    var s1 := After(s, step);
    hide Inv;
    hide NoticesOk;
    hide Admissible;
    hide Sensible;
    hide LooksWell;
    var a1 := NextOnTheWay(s.sh, a, c);
    assert s1.sh == SharedAfter(s.sh, Applying(a), c);
    NotYetThere(s.sh, a, c);
    var rest;
    rest, b := LooksThrough(s1, t, a1);
    Prepend(s, step, rest);
    events := [step] + rest;
  }

  lemma NotYetThere(sh: Shared, a: ApplyRun, c: Choice)
    requires Upward(a.at) && a.at != AtActivateAnnounce && a.at != AtActivateEnter
    ensures ApplyNext(sh, a, c).at != AtActivateEnter
  {
    hide Admissible;
    hide WatchesFor;
    hide DirsOfBoth;
  }

  // ---------------------------------------------------------------- an acknowledgement comes and goes

  lemma AckSteps(s: State, t: nat, b: ApplyRun, u: nat, k: AckPc)
    requires t != u && s.threads == map[t := Applying(b), u := Acknowledging(k)]
    requires b.at == AtActivateAnnounce && b.sync == None && k != Acked
    ensures Enabled(s, Step(u, Smooth))
    ensures var s1, next := After(s, Step(u, Smooth)), AckNext(s.sh, k, Smooth);
            && s1.sh == s.sh.(notice := AckNotice(s.sh, k, Smooth))
            && s1.threads == if next == Acked then map[t := Applying(b)]
                             else map[t := Applying(b), u := Acknowledging(next)]
  {
    assert s.threads[u] == Acknowledging(k) && s.threads[t] == Applying(b);
    hide FallbackDirs;
    hide AckNotice;
  }

  /** Beside an apply that is about to activate, an acknowledgement gets from its arrival to its end. */
  lemma AckComesAndGoes(s: State, t: nat, b: ApplyRun) returns (events: seq<Event>)
    requires s.threads == map[t := Applying(b)] && b.at == AtActivateAnnounce && b.sync == None
    requires s.sh.notice.pending != {}
    ensures IsRun(s, events)
    ensures Outcome(s, events) == s.(sh := s.sh.(notice :=
              s.sh.notice.(pending := {}, acked := true, flagged := {}, crossed := {})))
  {
    var u := t + 1;
    var arrive, step := Spawn(u, Acknowledging(AtEmpty)), Step(u, Smooth);
    var s1 := After(s, arrive);
    assert s1.threads == map[t := Applying(b), u := Acknowledging(AtEmpty)];
    AckSteps(s1, t, b, u, AtEmpty);
    var s2 := After(s1, step);
    AckSteps(s2, t, b, u, AtClearAnnounce);
    var s3 := After(s2, step);
    AckSteps(s3, t, b, u, AtClearEnter);
    var s4 := After(s3, step);
    assert FallbackDirs(s.sh.policy, s.sh.active.cfg) * {} == {};
    hide After;
    hide Enabled;
    hide FallbackDirs;
    Prepend(s3, step, []);
    Prepend(s2, step, [step]);
    Prepend(s1, step, [step] + [step]);
    Prepend(s, arrive, [step] + ([step] + [step]));
    events := [arrive] + ([step] + ([step] + [step]));
  }

  // ---------------------------------------------------------------- nothing mends the flag of a disabled entry

  predicate PastActivation(at: ApplyPc) {
    at == AtRelease || at == StoppingOld || at == InlineSyncs || at == AtEnd
  }

  predicate OnlyEnding(s: State, th: Thread) {
    && th.Applying? && PastActivation(th.a.at)
    && (th.a.sync.Some? ==> th.a.sync.value.gen == s.sh.active.gen)
  }

  /** A disabled entry is shown as pending with nothing on record, and only an apply is coming to its end. */
  predicate Stuck(s: State, e: Entry) {
    && e in s.sh.active.cfg && e.fallback && !e.enabled
    && Dir(s.sh.policy, e) in s.sh.notice.flagged && Dir(s.sh.policy, e) !in s.sh.notice.pending
    && forall t | t in s.threads :: OnlyEnding(s, s.threads[t])
  }

  lemma OtherDirectory(policy: Policy, entries: seq<Entry>, e: Entry, f: Entry)
    requires OneFallbackPerDir(policy, entries) && e in entries && f in entries && e.fallback && f.fallback && e != f
    ensures Dir(policy, e) != Dir(policy, f)
  {
    var i :| 0 <= i < |entries| && entries[i] == e;
    var j :| 0 <= j < |entries| && entries[j] == f;
    assert Dir(policy, entries[i]) != Dir(policy, entries[j]);
  }

  lemma FoundIsThere(entries: seq<Entry>, name: string)
    requires Find(entries, name).Some?
    ensures Find(entries, name).value in entries
  {
  }

  /** A sync that an apply makes touches neither the record nor the flag of a disabled entry. */
  lemma InlineSyncLeavesAlone(sh: Shared, y: SyncRun, c: Choice, e: Entry)
    requires SyncOk(sh, y) && y.origin == ByApply && y.gen == sh.active.gen && y.at != Ended
    requires OneFallbackPerDir(sh.policy, sh.active.cfg) && e in sh.active.cfg && e.fallback && !e.enabled
    ensures var n, d := SyncNotice(sh, y, c), Dir(sh.policy, e);
            (d in n.flagged <==> d in sh.notice.flagged) && (d in n.pending <==> d in sh.notice.pending)
    ensures SyncNext(sh, y, c).gen == y.gen
  {
    var f := Find(sh.active.cfg, y.name).value;
    assert f.enabled && f != e;
    assert y.at == MarkPending || y.at == RecordPending ==> y.entry == f && f.fallback && y.dir == Dir(sh.policy, f);
    hide SyncOk;
    FoundIsThere(sh.active.cfg, y.name);
    if f.fallback {
      OtherDirectory(sh.policy, sh.active.cfg, e, f);
    }
    hide Find;
    hide Fits;
    hide OneFallbackPerDir;
    hide Dir;
  }

  lemma EndingLeavesAlone(sh: Shared, a: ApplyRun, c: Choice, e: Entry)
    requires SharedOk(sh) && ApplyOk(sh, a) && PastActivation(a.at)
    requires e in sh.active.cfg && e.fallback && !e.enabled
    requires a.sync.Some? ==> a.sync.value.gen == sh.active.gen
    ensures var n, d := ApplyNotice(sh, a, c), Dir(sh.policy, e);
            (d in n.flagged <==> d in sh.notice.flagged) && (d in n.pending <==> d in sh.notice.pending)
    ensures var a1 := ApplyNext(sh, a, c);
            && (PastActivation(a1.at) || a1.at == Over)
            && (a1.sync.Some? ==> a1.sync.value.gen == sh.active.gen)
  {
    hide FallbackDirs;
    hide Find;
    hide Wanted;
    assert a.at == InlineSyncs ==> InlineOk(sh, a) && a.gen == sh.active.gen;
    assert a.at != InlineSyncs ==> a.sync == None;
    hide ApplyOk;
    if a.at == InlineSyncs && a.sync.Some? {
      InlineSyncLeavesAlone(sh, a.sync.value, c, e);
      hide SyncOk;
      hide SyncNext;
      hide SyncNotice;
    }
    hide SharedOk;
    hide Dir;
  }

  lemma StuckStays(s: State, t: nat, c: Choice, e: Entry)
    requires Inv(s) && Stuck(s, e) && Enabled(s, Step(t, c))
    ensures Stuck(After(s, Step(t, c)), e)
  {
    hide FallbackDirs;
    hide Find;
    hide Wanted;
    var th, s1 := s.threads[t], After(s, Step(t, c));
    assert ThreadOk(s.sh, th) && OnlyEnding(s, th);
    EffectFrame(s.sh, th, c);
    EndingLeavesAlone(s.sh, th.a, c, e);
    hide Inv;
    hide ThreadOk;
    hide ApplyOk;
    hide ApplyNext;
    hide Effect;
    hide ApplyNotice;
    hide Dir;
    hide Unblocked;
    hide PastActivation;
    hide SensibleChoice;
    hide NeedOf;
    forall u | u in s1.threads
      ensures OnlyEnding(s1, s1.threads[u])
    {
      if u != t {
        assert OnlyEnding(s, s.threads[u]);
      }
    }
  }

  lemma {:induction false} StuckForGood(s: State, events: seq<Event>, e: Entry)
    requires Inv(s) && Stuck(s, e) && IsRun(s, events) && OnlySteps(events)
    ensures Stuck(Outcome(s, events), e)
    decreases |events|
  {
    hide Inv;
    hide Stuck;
    if events != [] {
      StuckStays(s, events[0].t, events[0].c, e);
      StepKeepsInv(s, events[0]);
      StuckForGood(After(s, events[0]), events[1..], e);
    }
  }

  // ---------------------------------------------------------------- overtaken

  lemma {:induction false} OneAfterTheOther(s: State, first: seq<Event>, second: seq<Event>)
    requires IsRun(s, first) && IsRun(Outcome(s, first), second)
    ensures IsRun(s, first + second) && Outcome(s, first + second) == Outcome(Outcome(s, first), second)
    decreases |first|
  {
    hide After;
    hide Enabled;
    if first == [] {
      assert first + second == second;
    } else {
      OneAfterTheOther(After(s, first[0]), first[1..], second);
      assert first + second == [first[0]] + (first[1..] + second);
      Prepend(s, first[0], first[1..] + second);
    }
  }

  lemma AnnouncingStep(s: State, t: nat, b: ApplyRun)
    requires s.threads == map[t := Applying(b)] && b.at == AtActivateAnnounce
    ensures Enabled(s, Step(t, Smooth))
    ensures After(s, Step(t, Smooth)) == State(s.sh, map[t := Applying(b.(at := AtActivateEnter))])
  {
    Alone(s, t, Applying(b), Smooth);
  }

  lemma EnteringStep(s: State, t: nat, b: ApplyRun)
    requires s.threads == map[t := Applying(b)] && b.at == AtActivateEnter
    ensures Enabled(s, Step(t, Smooth))
    ensures var r := After(s, Step(t, Smooth));
            && r.threads == map[t := Applying(b.(oldWatches := s.sh.active.watches, at := AtRelease))]
            && r.sh.policy == s.sh.policy && r.sh.active.cfg == b.candidate
            && r.sh.notice.flagged == s.sh.notice.ahead && r.sh.notice.pending == s.sh.notice.pending
  {
    Alone(s, t, Applying(b), Smooth);
  }

  /** The two steps of an activation. */
  lemma ActivationComes(s: State, t: nat, b: ApplyRun) returns (events: seq<Event>, b1: ApplyRun)
    requires s.threads == map[t := Applying(b)] && b.at == AtActivateAnnounce && b.sync == None
    ensures IsRun(s, events)
    ensures var r := Outcome(s, events);
            && r.threads == map[t := Applying(b1)] && b1.at == AtRelease && b1.sync == None
            && r.sh.policy == s.sh.policy && r.sh.active.cfg == b.candidate
            && r.sh.notice.flagged == s.sh.notice.ahead && r.sh.notice.pending == s.sh.notice.pending
  {
    var step := Step(t, Smooth);
    AnnouncingStep(s, t, b);
    EnteringStep(After(s, step), t, b.(at := AtActivateEnter));
    b1 := b.(oldWatches := s.sh.active.watches, at := AtRelease);
    hide After;
    hide Enabled;
    Prepend(After(s, step), step, []);
    Prepend(s, step, [step] + []);
    events := [step] + ([step] + []);
  }

  /** What an apply that looked well has flagged. */
  lemma FlaggedAhead(s: State, t: nat, b: ApplyRun, d: string)
    requires Inv(s) && NoticesOk(s) && s.threads == map[t := Applying(b)] && b.at == AtActivateAnnounce
    requires LooksWell(s.sh, b)
    requires d in FallbackDirs(s.sh.policy, b.candidate) && d in s.sh.notice.pending
    ensures b.sync == None && d in s.sh.notice.ahead
  {
    assert s.threads[t] == Applying(b);
    assert ThreadOk(s.sh, s.threads[t]) && AheadOk(s.sh, b) && b.sync == None;
    hide Inv;
    hide NoticesOk;
    hide ThreadOk;
    hide FallbackDirs;
  }

  /** An acknowledgement and then the activation leave the flag without its record. */
  lemma OvertakesNow(s: State, t: nat, b: ApplyRun, e: Entry) returns (events: seq<Event>)
    requires s.threads == map[t := Applying(b)] && b.at == AtActivateAnnounce && b.sync == None
    requires e in b.candidate && e.fallback && !e.enabled
    requires Dir(s.sh.policy, e) in s.sh.notice.pending && Dir(s.sh.policy, e) in s.sh.notice.ahead
    ensures IsRun(s, events) && Stuck(Outcome(s, events), e)
  {
    var ack := AckComesAndGoes(s, t, b);
    var s1 := Outcome(s, ack);
    var activation, b1 := ActivationComes(s1, t, b);
    hide Dir;
    assert Stuck(Outcome(s1, activation), e);
    hide Stuck;
    OneAfterTheOther(s, ack, activation);
    events := ack + activation;
  }

  /** From the moment before its activation, with an acknowledgement in between, to the end of the apply. */
  lemma OvertakenFromHere(s: State, t: nat, b: ApplyRun, e: Entry) returns (events: seq<Event>)
    requires Inv(s) && NoticesOk(s) && s.threads == map[t := Applying(b)] && b.at == AtActivateAnnounce
    requires LooksWell(s.sh, b) && e in b.candidate && e.fallback && !e.enabled
    requires Dir(s.sh.policy, e) in s.sh.notice.pending
    ensures IsRun(s, events)
    ensures Outcome(s, events).threads == map[] && Stuck(Outcome(s, events), e)
  {
    FlaggedAhead(s, t, b, Dir(s.sh.policy, e));
    hide Inv;
    hide NoticesOk;
    hide LooksWell;
    hide Stuck;
    hide Dir;
    var now := OvertakesNow(s, t, b, e);
    RunKeepsInv(s, now);
    var s1 := Outcome(s, now);
    var k := SomeBound(s1);
    var rest := RunToTheEnd(s1, k);
    StuckForGood(s1, rest, e);
    OneAfterTheOther(s, now, rest);
    events := now + rest;
  }

  /**
    An acknowledgement can be overtaken by an activation. From every quiet
    state in which the directory of a candidate's disabled fallback entry is
    recorded, the candidate can be applied and the restart acknowledged so
    that, with everything at rest again, the entry is still shown as pending a
    restart while nothing of its directory is on record: no sync ever comes to
    set the flag again.
   */
  lemma AcknowledgementIsOvertaken(s: State, candidate: seq<Entry>, secrets: Data, e: Entry)
    returns (events: seq<Event>)
    requires Reachable(s) && s.threads == map[] && Admissible(s.sh.policy, candidate, secrets)
    requires e in candidate && e.fallback && !e.enabled && Dir(s.sh.policy, e) in s.sh.notice.pending
    ensures IsRun(s, events) && Outcome(s, events).threads == map[]
    ensures var sh := Outcome(s, events).sh;
            e in sh.active.cfg && Dir(sh.policy, e) in sh.notice.flagged && Dir(sh.policy, e) !in sh.notice.pending
  {
    ReachableNotices(s);
    var a := StartApply(candidate, secrets);
    var arrive := Spawn(0, Applying(a));
    StepKeepsInv(s, arrive);
    StepKeepsNotices(s, arrive);
    var s1 := After(s, arrive);
    assert s1.threads == map[0 := Applying(a)];
    hide Inv;
    hide NoticesOk;
    hide Admissible;
    hide Dir;
    var looks, b := LooksThrough(s1, 0, a);
    RunKeepsNotices(s1, looks);
    var rest := OvertakenFromHere(Outcome(s1, looks), 0, b, e);
    OneAfterTheOther(s1, looks, rest);
    Prepend(s, arrive, looks + rest);
    events := [arrive] + (looks + rest);
  }

  // ---------------------------------------------------------------- a destination that does not resolve

  const Rough := Smooth.(ok := false)

  /** A sync of `e` that does not get to its destination. */
  predicate Astray(sh: Shared, y: SyncRun, e: Entry) {
    && Find(sh.active.cfg, y.name) == Some(e) && e.fallback && !y.locked
    && (y.at != AtGen ==> y.gen == sh.active.gen)
    && (y.at == AtGen || y.at == AtLook || y.at == AtGuard || y.at == AtResolve
        || y.at == AtRecordAnnounce || y.at == AtRecordEnter)
  }

  lemma StaysAstray(sh: Shared, y: SyncRun, e: Entry)
    requires Astray(sh, y, e)
    ensures SyncEffect(sh, y, Rough) == sh && SyncFuel(SyncNext(sh, y, Rough).at) < SyncFuel(y.at)
    ensures y.at != AtRecordEnter ==> SyncNotice(sh, y, Rough) == sh.notice && Astray(sh, SyncNext(sh, y, Rough), e)
    ensures y.at == AtRecordEnter ==>
              SyncNotice(sh, y, Rough) == Unflag(sh.notice, Dir(sh.policy, e)) && SyncNext(sh, y, Rough).at == Ended
  {
    hide Find;
    hide Fits;
    hide Dir;
  }

  lemma {:induction false} ClearsItsFlag(s: State, t: nat, y: SyncRun, e: Entry) returns (events: seq<Event>)
    requires s.threads == map[t := Syncing(y)] && Astray(s.sh, y, e)
    ensures IsRun(s, events)
    ensures Outcome(s, events) ==
            State(s.sh.(notice := Unflag(s.sh.notice, Dir(s.sh.policy, e))), map[])
    decreases SyncFuel(y.at)
  {
    var step := Step(t, Rough);
    Alone(s, t, Syncing(y), Rough);
    StaysAstray(s.sh, y, e);
    var s1 := After(s, step);
    hide Astray;
    hide SyncFuel;
    hide SyncNotice;
    hide SyncEffect;
    hide Unflag;
    hide Dir;
    if y.at == AtRecordEnter {
      assert s1.threads == map[];
      Prepend(s, step, []);
      events := [step] + [];
    } else {
      var next := SyncNext(s.sh, y, Rough);
      assert s1.sh == s.sh && s1.threads == map[t := Syncing(next)];
      var rest := ClearsItsFlag(s1, t, next, e);
      Prepend(s, step, rest);
      events := [step] + rest;
    }
  }

  /**
    A sync whose destination does not resolve clears its entry's flag. From
    every quiet state in which an active fallback entry's directory is on
    record, one such sync ends with everything at rest, the directory still on
    record and the entry not shown.
   */
  lemma UnresolvedSyncHidesTheRestart(s: State, e: Entry) returns (events: seq<Event>)
    requires Reachable(s) && s.threads == map[] && e in s.sh.active.cfg && e.fallback
    requires Dir(s.sh.policy, e) in s.sh.notice.pending
    ensures IsRun(s, events) && Outcome(s, events).threads == map[]
    ensures var sh := Outcome(s, events).sh;
            e in sh.active.cfg && Dir(sh.policy, e) in sh.notice.pending && Dir(sh.policy, e) !in sh.notice.flagged
  {
    ReachableInv(s);
    FindIsUnique(s.sh.active.cfg, e);
    var y := StartSync(e.name, 0, ByHand);
    var arrive := Spawn(0, Syncing(y));
    assert After(s, arrive).threads == map[0 := Syncing(y)];
    hide Inv;
    hide Dir;
    var rest := ClearsItsFlag(After(s, arrive), 0, y, e);
    Prepend(s, arrive, rest);
    events := [arrive] + rest;
  }
}
