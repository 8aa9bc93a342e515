/**
  The watcher with the fields and critical sections of the code. Each method
  is one hold of the lock, and its contract is one step of the lifecycle.
 */
module WatcherCode {
  import opened Options
  import opened WatcherModel
  import opened FilePolling

  class Watcher {
    const paths: seq<Path>
    const debounceDelay: nat
    const fsnotifyEnabled: bool

    var state: Life
    var generation: nat
    var debounce: Option<nat>
    var loopWG: nat
    var callbackWG: int
    var snapshots: map<Path, FileSnapshot>
    var done: bool                       // the channel that Stop closes at its end

    // The runtime's side: its timers and its clock.
    var timers: map<nat, Timer>
    var nextTimer: nat
    var now: nat

    // What the contracts count.
    ghost var loopGeneration: nat
    ghost var adds: nat
    ghost var dones: nat
    ghost var stopping: Stopping
    ghost var lastTrigger: nat
    ghost var unserved: bool
    ghost var triggers: nat
    ghost var starts: nat

    ghost function Seen(): View
      reads this
    {
      View(state, generation, loopGeneration, loopWG, debounce, timers, nextTimer, adds, dones, stopping, now,
           lastTrigger, unserved, triggers, starts)
    }

    ghost predicate Valid()
      reads this
    {
      Inv(Seen(), debounceDelay) && callbackWG == adds - dones && (done <==> stopping == Returned)
    }

    constructor (paths: seq<Path>, debounceDelay: nat, fsnotifyEnabled: bool)
      ensures Valid() && Seen() == Fresh && snapshots == map[]
      ensures this.paths == paths && this.debounceDelay == debounceDelay && this.fsnotifyEnabled == fsnotifyEnabled
    {
      this.paths, this.debounceDelay, this.fsnotifyEnabled := paths, debounceDelay, fsnotifyEnabled;
      state, generation, debounce, loopWG, callbackWG, snapshots := Ready, 0, None, 0, 0, map[];
      done, timers, nextTimer, now := false, map[], 0, 0;
      loopGeneration, adds, dones, stopping := 0, 0, 0, NotStopping;
      lastTrigger, unserved, triggers, starts := 0, false, 0, 0;
    }

    /** The polling baseline: one reading of every path, taken before a loop can report anything. */
    method TakeBaseline(readings: seq<FileSnapshot>)
      requires |readings| == |paths|
      modifies this`snapshots
      ensures snapshots == Stored(old(snapshots), paths, readings, |paths|)
    {
      var i := 0;
      while i < |paths|
        invariant 0 <= i <= |paths|
        invariant snapshots == Stored(old(snapshots), paths, readings, i)
      {
        snapshots := snapshots[paths[i] := readings[i]];
        i := i + 1;
      }
    }

    /** Start: takes the baseline and opens the loops, or refuses a watcher that was started or stopped. */
    method Start(readings: seq<FileSnapshot>, fsnotifyWorks: bool) returns (ok: bool)
      requires Valid() && |readings| == |paths|
      modifies this
      ensures Valid() && ok == (old(state) == Ready)
      ensures ok ==> Seen() == Next(old(Seen()), WatcherModel.Start(if fsnotifyEnabled && fsnotifyWorks then 2 else 1), debounceDelay)
      ensures snapshots == if ok then Stored(old(snapshots), paths, readings, |paths|) else old(snapshots)
      ensures !ok ==> Seen() == old(Seen())
    {
      if state != Ready {
        return false;
      }
      ReadyIsIdle(Seen(), debounceDelay);
      hide Inv;
      StepKeepsInv(Seen(), WatcherModel.Start(if fsnotifyEnabled && fsnotifyWorks then 2 else 1), debounceDelay);
      BeginRunning();
      TakeBaseline(readings);
      OpenLoops(fsnotifyWorks);
      ok := true;
    }

    method BeginRunning()
      modifies this`state, this`generation, this`loopGeneration
      ensures Seen() == old(Seen()).(life := Running, generation := old(generation) + 1, loopGeneration := old(generation) + 1)
    {
      state := Running;
      generation := generation + 1;
      loopGeneration := generation;
    }

    /** The event loop when fsnotify is wanted and available, and the polling loop always. */
    method OpenLoops(fsnotifyWorks: bool)
      modifies this`loopWG
      ensures loopWG == old(loopWG) + if fsnotifyEnabled && fsnotifyWorks then 2 else 1
    {
      if fsnotifyEnabled && fsnotifyWorks {
        loopWG := loopWG + 1;
      }
      loopWG := loopWG + 1;
    }

    /** One pass over the paths: whether anything is news, and a table that holds every reading. */
    method PollChanged(readings: seq<FileSnapshot>) returns (changed: bool)
      requires Valid() && |readings| == |paths|
      modifies this`snapshots
      ensures Valid() && Seen() == old(Seen())
      ensures changed <==> exists i | 0 <= i < |paths| :: NewsAt(old(snapshots), paths, readings, i)
      ensures snapshots == Stored(old(snapshots), paths, readings, |paths|)
    {
      changed := false;
      var i := 0;
      assert snapshots == Stored(old(snapshots), paths, readings, 0);
      hide Stored;
      hide SnapshotsDiffer;
      while i < |paths|
        invariant 0 <= i <= |paths|
        invariant snapshots == Stored(old(snapshots), paths, readings, i)
        invariant changed <==> exists k | 0 <= k < i :: NewsAt(old(snapshots), paths, readings, k)
      {
        var path, current := paths[i], readings[i];
        if path !in snapshots || SnapshotsDiffer(snapshots[path], current) {
          assert NewsAt(old(snapshots), paths, readings, i);
          changed := true;
        }
        OneMoreStored(old(snapshots), paths, readings, i);
        snapshots := snapshots[path := current];
        i := i + 1;
      }
    }

    /** time.Timer.Stop on the current timer; a success gives its wait-group count back. */
    method StopTimer()
      requires debounce.Some? && callbackWG == adds - dones
      modifies this`timers, this`callbackWG, this`dones
      ensures Seen() == CancelTimer(old(Seen())) && callbackWG == adds - dones
    {
      if debounce.value in timers && timers[debounce.value].Pending? {
        TimerDone(debounce.value);
      }
    }

    /** A fresh timer, counted in the wait group before it can fire. */
    method ArmTimer()
      requires callbackWG == adds - dones
      modifies this`callbackWG, this`timers, this`nextTimer, this`debounce, this`adds, this`lastTrigger, this`unserved, this`triggers
      ensures Seen() == old(Armed(Seen(), debounceDelay)) && callbackWG == adds - dones
    {
      callbackWG, adds := callbackWG + 1, adds + 1;
      timers := timers[nextTimer := Pending(now + debounceDelay)];
      debounce := Some(nextTimer);
      nextTimer := nextTimer + 1;
      NoteTrigger();
    }

    ghost method NoteTrigger()
      modifies this`lastTrigger, this`unserved, this`triggers
      ensures lastTrigger == now && unserved && triggers == old(triggers) + 1
    {
      lastTrigger, unserved, triggers := now, true, triggers + 1;
    }

    /** triggerDebounce, called by a loop that captured `captured` when it was started. */
    method TriggerDebounce(captured: nat)
      requires Valid() && loopWG > 0 && captured == loopGeneration
      modifies this
      ensures Valid() && Seen() == Next(old(Seen()), Trigger, debounceDelay) && snapshots == old(snapshots)
    {
      hide Inv;
      StepKeepsInv(Seen(), Trigger, debounceDelay);
      if state != Running || generation != captured {
        return;
      }
      if debounce.Some? {
        StopTimer();
      }
      assert Seen() == CancelTimer(old(Seen()));
      ArmTimer();
    }

    /** The end of a timer: it leaves the runtime's table and gives its wait-group count back. */
    method TimerDone(timer: nat)
      requires callbackWG == adds - dones
      modifies this`timers, this`callbackWG, this`dones
      ensures Seen() == old(Gone(Seen(), timer)) && callbackWG == adds - dones
    {
      timers := timers - {timer};
      callbackWG := callbackWG - 1;
      dones := dones + 1;
    }

    /** The locked part of the timer's function; a run that does not call gives its count back at once. */
    method TimerBody(timer: nat, captured: nat) returns (call: bool)
      requires Valid() && timer in timers && timers[timer] == Fired && captured == loopGeneration
      modifies this
      ensures Valid() && Seen() == Next(old(Seen()), Body(timer), debounceDelay) && snapshots == old(snapshots)
      ensures call == (old(state) == Running && old(debounce) == Some(timer))
      ensures starts == old(starts) + (if call then 1 else 0)
      ensures call ==> old(lastTrigger) + debounceDelay <= now
    {
      StartIsQuietAndCurrent(Seen(), timer, debounceDelay);
      LiveIsRunning(Seen(), debounceDelay);
      hide Inv;
      StepKeepsInv(Seen(), Body(timer), debounceDelay);
      call := !(state != Running || generation != captured || debounce != Some(timer));
      if call {
        BeginCalling(timer);
      } else {
        TimerDone(timer);
      }
    }

    method BeginCalling(timer: nat)
      modifies this`debounce, this`timers, this`unserved, this`starts
      ensures Seen() == old(Seen()).(timers := old(timers)[timer := Calling], debounce := None, unserved := false, starts := old(starts) + 1)
    {
      debounce := None;
      timers := timers[timer := Calling];
      unserved, starts := false, starts + 1;
    }

    /** The deferred Done of a timer whose callback has returned. */
    method CallbackDone(timer: nat)
      requires Valid() && timer in timers && timers[timer] == Calling
      modifies this
      ensures Valid() && Seen() == Next(old(Seen()), CallbackEnd(timer), debounceDelay) && snapshots == old(snapshots)
    {
      hide Inv;
      StepKeepsInv(Seen(), CallbackEnd(timer), debounceDelay);
      TimerDone(timer);
    }

    /**
      Stop up to the point where it lets go of the lock. `wait` says that the
      caller still has to wait: the first one for the loops and callbacks, a
      later one for the first to be done.
     */
    method StopBegin() returns (first: bool, wait: bool)
      requires Valid()
      modifies this
      ensures Valid() && Seen() == Next(old(Seen()), Stop, debounceDelay) && snapshots == old(snapshots)
      ensures first == (old(state) != Stopped)
      ensures wait == (stopping != Returned)
      ensures !first ==> Seen() == old(Seen())
    {
      if state != Stopped {
        NotYetStopping(Seen(), debounceDelay);
      }
      hide Inv;
      StepKeepsInv(Seen(), Stop, debounceDelay);
      if state == Stopped {
        return false, !done;
      }
      first, wait := true, state == Running;
      StopRunning();
    }

    /** The first Stop: a watcher that never ran is done at once. */
    method StopRunning()
      requires state != Stopped && callbackWG == adds - dones
      modifies this
      ensures Seen() == Next(old(Seen()), Stop, debounceDelay) && snapshots == old(snapshots)
      ensures callbackWG == adds - dones && (done <==> old(done) || old(state) == Ready)
    {
      if state == Ready {
        CloseUnstarted();
        return;
      }
      if debounce.Some? {
        StopTimer();
      }
      LeaveRunning();
    }

    method CloseUnstarted()
      modifies this`state, this`generation, this`done, this`stopping
      ensures Seen() == old(Seen()).(life := Stopped, generation := old(generation) + 1, stopping := Returned) && done
    {
      state := Stopped;
      generation := generation + 1;
      done := true;
      stopping := Returned;
    }

    method LeaveRunning()
      modifies this`state, this`generation, this`debounce, this`stopping
      ensures Seen() == old(Seen()).(life := Stopped, generation := old(generation) + 1, debounce := None, stopping := WaitingForLoops)
    {
      state := Stopped;
      generation := generation + 1;
      debounce := None;
      stopping := WaitingForLoops;
    }

    /** The two waits that end Stop: its guards are the wait groups themselves. */
    method StopJoined()
      requires Valid() && stopping == WaitingForLoops && loopWG == 0 && callbackWG == 0
      modifies this`stopping, this`done
      ensures Valid() && Seen() == Next(Next(old(Seen()), LoopsJoined, debounceDelay), CallbacksJoined, debounceDelay)
      ensures timers == map[]
    {
      StepKeepsInv(Seen(), LoopsJoined, debounceDelay);
      stopping := WaitingForCallbacks;
      StepKeepsInv(Seen(), CallbacksJoined, debounceDelay);
      stopping := Returned;
      done := true;
    }
  }
}
