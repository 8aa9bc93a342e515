/**
  The lifecycle of the debounced watcher as a step system: every critical
  section of the code, every timer that fires, every callback that ends and
  every move of the clock is one event, and a run is any sequence of enabled
  events.
 */
module WatcherModel {
  import opened Options

  datatype Life = Ready | Running | Stopped

  /** A timer is gone from the table once its wait-group count has been given back. */
  datatype Timer =
    | Pending(deadline: nat)
    | Fired                    // its goroutine has started but not yet taken the lock
    | Calling                  // it is running the callback

  datatype Stopping = NotStopping | WaitingForLoops | WaitingForCallbacks | Returned

  datatype View = View(
    life: Life,
    generation: nat,
    loopGeneration: nat,       // what the event loops captured in Start
    loops: nat,                // loopWG
    debounce: Option<nat>,
    timers: map<nat, Timer>,
    nextTimer: nat,
    adds: nat,                 // callbackWG.Add calls
    dones: nat,                // callbackWG.Done calls
    stopping: Stopping,
    now: nat,
    lastTrigger: nat,
    unserved: bool,            // a trigger was accepted and no callback has started since
    triggers: nat,
    starts: nat)

  datatype Event =
    | Start(loops: nat)
    | Trigger
    | Tick(elapsed: nat)
    | Fire(timer: nat)
    | Body(timer: nat)
    | CallbackEnd(timer: nat)
    | LoopExit
    | Stop
    | LoopsJoined
    | CallbacksJoined

  const Fresh := View(Ready, 0, 0, 0, None, map[], 0, 0, 0, NotStopping, 0, 0, false, 0, 0)

  predicate IsPending(v: View, t: nat) {
    t in v.timers && v.timers[t].Pending?
  }

  /** The guard of triggerDebounce and of the timer body. */
  predicate Live(v: View) {
    v.life == Running && v.generation == v.loopGeneration
  }

  /** time.Timer.Stop: succeeds, and gives the count back, only while the timer is pending. */
  function CancelTimer(v: View): View {
    if v.debounce.Some? && IsPending(v, v.debounce.value)
    then Gone(v, v.debounce.value)
    else v
  }

  /** A fresh timer that runs out after the delay, with its wait-group count. */
  function Armed(v: View, delay: nat): View {
    v.(timers := v.timers[v.nextTimer := Pending(v.now + delay)], nextTimer := v.nextTimer + 1,
       adds := v.adds + 1, debounce := Some(v.nextTimer),
       lastTrigger := v.now, unserved := true, triggers := v.triggers + 1)
  }

  /** A timer leaves the runtime's table and its deferred Done is given. */
  function Gone(v: View, t: nat): View {
    v.(timers := v.timers - {t}, dones := v.dones + 1)
  }

  predicate Enabled(v: View, e: Event) {
    match e
    case Start(loops) => v.life == Ready && 1 <= loops <= 2
    case Trigger => v.loops > 0
    case Tick(_) => true
    case Fire(t) => IsPending(v, t) && v.timers[t].deadline <= v.now
    case Body(t) => t in v.timers && v.timers[t] == Fired
    case CallbackEnd(t) => t in v.timers && v.timers[t] == Calling
    case LoopExit => v.loops > 0 && v.life == Stopped
    case Stop => true
    case LoopsJoined => v.stopping == WaitingForLoops && v.loops == 0
    case CallbacksJoined => v.stopping == WaitingForCallbacks && v.adds == v.dones
  }

  function Next(v: View, e: Event, delay: nat): View
    requires Enabled(v, e)
  {
    match e
    case Start(loops) =>
      v.(life := Running, generation := v.generation + 1, loopGeneration := v.generation + 1, loops := loops)
    case Trigger =>
      if !Live(v) then v
      else
        Armed(CancelTimer(v), delay)
    case Tick(elapsed) => v.(now := v.now + elapsed)
    case Fire(t) => v.(timers := v.timers[t := Fired])
    case Body(t) =>
      if Live(v) && v.debounce == Some(t)
      then v.(timers := v.timers[t := Calling], debounce := None, unserved := false, starts := v.starts + 1)
      else Gone(v, t)
    case CallbackEnd(t) => Gone(v, t)
    case LoopExit => v.(loops := v.loops - 1)
    case Stop =>
      if v.life == Stopped then v    // a second caller only waits for the first to be done
      else if v.life == Ready
      then v.(life := Stopped, generation := v.generation + 1, stopping := Returned)
      else CancelTimer(v).(life := Stopped, generation := v.generation + 1, debounce := None, stopping := WaitingForLoops)
    case LoopsJoined => v.(stopping := WaitingForCallbacks)
    case CallbacksJoined => v.(stopping := Returned)
  }

  ghost predicate IsRun(v: View, events: seq<Event>, delay: nat)
    decreases |events|
  {
    events != [] ==> Enabled(v, events[0]) && IsRun(Next(v, events[0], delay), events[1..], delay)
  }

  ghost function After(v: View, events: seq<Event>, delay: nat): View
    requires IsRun(v, events, delay)
    decreases |events|
  {
    if events == [] then v else After(Next(v, events[0], delay), events[1..], delay)
  }

  // ---------------------------------------------------------------- invariant

  ghost predicate Counted(v: View) {
    && v.adds == v.nextTimer == v.dones + |v.timers|
    && forall t | t in v.timers :: t < v.nextTimer
  }

  /** Only the current timer can still be pending, and it is never mid-callback. */
  ghost predicate OnePending(v: View) {
    && (forall t: nat | IsPending(v, t) :: v.debounce == Some(t))
    && (v.debounce.Some? ==> v.debounce.value in v.timers && v.timers[v.debounce.value] != Calling && v.life == Running)
  }

  ghost predicate Phases(v: View) {
    && (v.life == Ready ==> v.loops == 0 && v.timers == map[] && v.stopping == NotStopping && !v.unserved)
    && (v.life == Running ==> v.stopping == NotStopping && v.generation == v.loopGeneration)
    && (v.life == Stopped ==> v.stopping != NotStopping && v.generation != v.loopGeneration)
    && (v.stopping == WaitingForCallbacks || v.stopping == Returned ==> v.loops == 0)
    && (v.stopping == Returned ==> v.timers == map[])
    && v.loopGeneration <= v.generation
  }

  /** No accepted trigger is forgotten: it has a timer that runs out `delay` after the last one. */
  ghost predicate NothingLost(v: View, delay: nat) {
    && (v.life == Running && v.unserved <==> v.debounce.Some?)
    && (v.debounce.Some? ==>
          && v.debounce.value in v.timers
          && match v.timers[v.debounce.value]
          case Pending(deadline) => deadline == v.lastTrigger + delay
          case Fired => v.lastTrigger + delay <= v.now
          case Calling => true)
    && v.starts + (if v.unserved then 1 else 0) <= v.triggers
    && v.lastTrigger <= v.now
  }

  ghost predicate Inv(v: View, delay: nat) {
    Counted(v) && OnePending(v) && Phases(v) && NothingLost(v, delay)
  }

  lemma TriggerKeepsInv(v: View, delay: nat)
    requires Inv(v, delay) && Enabled(v, Trigger)
    ensures Inv(Next(v, Trigger, delay), delay)
  {
  }

  lemma StopKeepsInv(v: View, delay: nat)
    requires Inv(v, delay)
    ensures Inv(Next(v, Stop, delay), delay)
  {
  }

  lemma StepKeepsInv(v: View, e: Event, delay: nat)
    requires Inv(v, delay) && Enabled(v, e)
    ensures Inv(Next(v, e, delay), delay)
  {
    hide Inv;
    hide Next;
    hide Enabled;
    if e.Trigger? {
      TriggerKeepsInv(v, delay);
    } else if e.Stop? {
      StopKeepsInv(v, delay);
    } else {
      OtherKeepsInv(v, e, delay);
    }
  }

  lemma OtherKeepsInv(v: View, e: Event, delay: nat)
    requires Inv(v, delay) && Enabled(v, e) && !e.Trigger? && !e.Stop?
    ensures Inv(Next(v, e, delay), delay)
  {
  }

  /** In a running watcher the loops hold the current generation. */
  lemma LiveIsRunning(v: View, delay: nat)
    requires Inv(v, delay)
    ensures Live(v) <==> v.life == Running
  {
  }

  lemma NotYetStopping(v: View, delay: nat)
    requires Inv(v, delay) && v.life != Stopped
    ensures v.stopping == NotStopping
  {
  }

  lemma ReadyIsIdle(v: View, delay: nat)
    requires Inv(v, delay) && v.life == Ready
    ensures v.loops == 0
  {
  }

  lemma {:induction false} RunKeepsInv(v: View, events: seq<Event>, delay: nat)
    requires Inv(v, delay) && IsRun(v, events, delay)
    ensures Inv(After(v, events, delay), delay)
    decreases |events|
  {
    if events != [] {
      StepKeepsInv(v, events[0], delay);
      RunKeepsInv(Next(v, events[0], delay), events[1..], delay);
    }
  }

  /** Every state that a watcher can reach satisfies the invariant. */
  lemma ReachableInv(events: seq<Event>, delay: nat)
    requires IsRun(Fresh, events, delay)
    ensures Inv(After(Fresh, events, delay), delay)
  {
    RunKeepsInv(Fresh, events, delay);
  }

  // ---------------------------------------------------------------- Stop

  /** From the moment Stop takes the lock, no callback starts and nothing is added to the wait group. */
  lemma {:induction false} NoStartOnceStopping(v: View, events: seq<Event>, delay: nat)
    requires Inv(v, delay) && v.life == Stopped && IsRun(v, events, delay)
    ensures var w := After(v, events, delay);
            && w.life == Stopped && w.starts == v.starts && w.adds == v.adds
            && w.timers.Keys <= v.timers.Keys
            && (v.stopping == Returned ==> w.stopping == Returned)
    decreases |events|
  {
    if events != [] {
      StepKeepsInv(v, events[0], delay);
      NoStartOnceStopping(Next(v, events[0], delay), events[1..], delay);
    }
  }

  /** Once Stop has returned no callback is running, none is waiting, and none will ever start. */
  lemma StopIsFinal(before: seq<Event>, after: seq<Event>, delay: nat)
    requires IsRun(Fresh, before, delay)
    requires After(Fresh, before, delay).stopping == Returned
    requires IsRun(After(Fresh, before, delay), after, delay)
    ensures var v, w := After(Fresh, before, delay), After(After(Fresh, before, delay), after, delay);
            && v.timers == map[] && v.adds == v.dones
            && w.timers == map[] && w.adds == w.dones && w.starts == v.starts && w.stopping == Returned
  {
    var v := After(Fresh, before, delay);
    ReachableInv(before, delay);
    NoStartOnceStopping(v, after, delay);
    RunKeepsInv(v, after, delay);
  }

  /**
    Every Add is matched by one Done. Each Add opens a timer of its own, a
    timer that has left the table never comes back, and the Dones given are
    exactly the timers that have left, whether they were cancelled, were
    superseded after firing, or ran.
   */
  lemma OneDonePerAdd(v: View, e: Event, delay: nat)
    requires Inv(v, delay) && Enabled(v, e)
    ensures var w := Next(v, e, delay);
            && w.adds - v.adds == w.nextTimer - v.nextTimer
            && (forall t | t in w.timers && t !in v.timers :: t == v.nextTimer && e == Trigger)
            && w.dones - v.dones == |v.timers| + (w.nextTimer - v.nextTimer) - |w.timers|
            && v.dones <= w.dones <= v.dones + 1
  {
    StepKeepsInv(v, e, delay);
  }

  /** How far a stopping watcher is from returning. */
  ghost function Remaining(v: View): nat {
    v.loops + |v.timers| + match v.stopping
                           case WaitingForLoops => 2
                           case WaitingForCallbacks => 1
                           case _ => 0
  }

  /** The moves of a stopping watcher's own goroutines; nothing new has to arrive. */
  predicate Winding(e: Event) {
    e.LoopExit? || e.Body? || e.CallbackEnd? || e.LoopsJoined? || e.CallbacksJoined?
  }

  /** A timer that is not pending can leave the table of a stopped watcher. */
  lemma TimerLeaves(v: View, t: nat, delay: nat) returns (e: Event)
    requires v.life == Stopped && v.generation != v.loopGeneration && t in v.timers && !v.timers[t].Pending?
    ensures Enabled(v, e) && Winding(e) && Remaining(Next(v, e, delay)) < Remaining(v)
  {
    e := if v.timers[t] == Fired then Body(t) else CallbackEnd(t);
    var w := Next(v, e, delay);
    assert w.timers.Keys == v.timers.Keys - {t};
    assert |w.timers| == |w.timers.Keys| && |v.timers| == |v.timers.Keys|;
  }

  /** Stop never hangs: until it returns, a loop, a timer body, a callback or Stop itself can move on. */
  lemma StopMovesOn(v: View, delay: nat) returns (e: Event)
    requires Inv(v, delay) && v.life == Stopped && v.stopping != Returned
    ensures Enabled(v, e) && Winding(e) && Remaining(Next(v, e, delay)) < Remaining(v)
  {
    if v.loops > 0 {
      e := LoopExit;
    } else if v.stopping == WaitingForLoops {
      e := LoopsJoined;
    } else if v.timers == map[] {
      e := CallbacksJoined;
    } else {
      var t :| t in v.timers;
      assert !IsPending(v, t);
      e := TimerLeaves(v, t, delay);
    }
  }

  // ---------------------------------------------------------------- debounce

  /** A callback starts only after a full quiet delay, and only for the latest timer. */
  lemma StartIsQuietAndCurrent(v: View, t: nat, delay: nat)
    requires Inv(v, delay) && Enabled(v, Body(t))
    ensures Next(v, Body(t), delay).starts == v.starts + (if v.life == Running && v.debounce == Some(t) then 1 else 0)
    ensures Next(v, Body(t), delay).starts > v.starts ==> v.unserved && v.lastTrigger + delay <= v.now
  {
  }

  /** The events that serve the current timer: wait for it, let it fire, let it take the lock. */
  function Delivery(v: View, delay: nat): seq<Event>
    requires v.debounce.Some? && v.debounce.value in v.timers
  {
    var t := v.debounce.value;
    if v.timers[t] == Fired then [Body(t)]
    else [Tick(if v.now < v.lastTrigger + delay then v.lastTrigger + delay - v.now else 0), Fire(t), Body(t)]
  }

  /** No change is lost: an accepted trigger is still served if nothing but time and its timer move. */
  lemma AcceptedTriggerIsServed(v: View, delay: nat)
    requires Inv(v, delay) && v.life == Running && v.unserved
    ensures v.debounce.Some? && v.debounce.value in v.timers
    ensures IsRun(v, Delivery(v, delay), delay)
    ensures var w := After(v, Delivery(v, delay), delay);
            w.starts == v.starts + 1 && w.now <= (if v.now < v.lastTrigger + delay then v.lastTrigger + delay else v.now)
  {
    var t := v.debounce.value;
    if v.timers[t] == Fired {
      var w := Next(v, Body(t), delay);
      assert IsRun(w, [], delay) && [Body(t)][1..] == [];
    } else {
      var tick := Delivery(v, delay)[0];
      var v1 := Next(v, tick, delay);
      var v2 := Next(v1, Fire(t), delay);
      var v3 := Next(v2, Body(t), delay);
      assert Delivery(v, delay)[1..] == [Fire(t), Body(t)];
      assert [Fire(t), Body(t)][1..] == [Body(t)] && [Body(t)][1..] == [];
      assert IsRun(v3, [], delay);
      assert IsRun(v2, [Body(t)], delay);
      assert IsRun(v1, [Fire(t), Body(t)], delay);
      assert After(v3, [], delay) == v3;
      assert After(v2, [Body(t)], delay) == v3;
      assert After(v1, [Fire(t), Body(t)], delay) == v3;
      assert After(v, Delivery(v, delay), delay) == v3;
      assert v3.starts == v.starts + 1;
    }
  }

  /** Bursts coalesce: without a new trigger at most one callback starts, and only if one was owed. */
  lemma {:induction false} OneStartPerBurst(v: View, events: seq<Event>, delay: nat)
    requires Inv(v, delay) && IsRun(v, events, delay)
    requires Trigger !in events
    ensures After(v, events, delay).starts <= v.starts + (if v.unserved then 1 else 0)
    decreases |events|
  {
    if events != [] {
      assert events[0] in events;
      StepKeepsInv(v, events[0], delay);
      OneStartPerBurst(Next(v, events[0], delay), events[1..], delay);
    }
  }
}
