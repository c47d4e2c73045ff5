/**
 * `UpdateService` (raspisanie_bot/parsing/update_service.py): a loop that
 * updates the timetable, sleeps, and updates again until it is stopped.
 * What the service's surroundings do during one pass of the loop is an
 * input, a `Cycle`: how the update ended, whether `stop()` was called while
 * it ran, whether the sleep ran to its end, and whether `stop()` was called
 * while sleeping.  What the loop does is a trace of `Action`s.  The list of
 * cycles is finite, so a run whose cycles run out before it is stopped ends
 * there, with no `close()`.
 */
module UpdateService {
  import opened Wrappers
  import opened Text

  /** How `update_timetable` and `process_pending` ended. */
  datatype UpdateOutcome = Updated | Failed | Cancelled

  datatype Cycle = Cycle(outcome: UpdateOutcome, stopDuringUpdate: bool, sleepCompleted: bool, stopDuringSleep: bool)

  /** An update with its `force` flag, a sleep of `delay` seconds, and `updater.close()`. */
  datatype Action = Update(force: bool) | Sleep(delay: int) | Close

  /** The sleep after a failed update, in seconds. */
  const RetryDelay: int := 30

  /** The sleep after an update: `RetryDelay` after a failure, the configured interval otherwise. */
  function Delay(outcome: UpdateOutcome, interval: int): (d: int)
    requires outcome != Cancelled
    ensures outcome == Failed ==> d == RetryDelay
    ensures outcome == Updated ==> d == interval
  {
    if outcome == Failed then RetryDelay else interval
  }

  /** A cycle after which the loop stops. */
  predicate Stops(c: Cycle) {
    c.outcome == Cancelled || c.stopDuringUpdate || c.stopDuringSleep
  }

  /** The actions of one pass of the loop body, and whether it left the loop. */
  function Pass(c: Cycle, force: bool, interval: int): (r: (seq<Action>, bool))
    ensures r.1 <==> Stops(c)
    ensures |r.0| > 0 && r.0[0] == Update(force)
    ensures c.outcome != Cancelled && !c.stopDuringUpdate ==> |r.0| == 2 && r.0[1] == Sleep(Delay(c.outcome, interval))
    ensures c.outcome == Cancelled || c.stopDuringUpdate ==> r.0 == [Update(force)]
  {
    if c.outcome == Cancelled || c.stopDuringUpdate then ([Update(force)], true)
    else ([Update(force), Sleep(Delay(c.outcome, interval))], c.stopDuringSleep)
  }

  /** The actions of the loop over `cycles`, the next update being forced when `force`, and whether it stopped. */
  function Trace(cycles: seq<Cycle>, force: bool, interval: int): (r: (seq<Action>, bool))
    decreases |cycles|
  {
    if cycles == [] then ([], false)
    else
      var p := Pass(cycles[0], force, interval);
      if p.1 then (p.0 + [Close], true)
      else
        var rest := Trace(cycles[1..], !cycles[0].sleepCompleted, interval);
        (p.0 + rest.0, rest.1)
  }

  class Service {
    /** `_stopping`. */
    var stopping: bool
    /** `_task is not None`. */
    var hasTask: bool
    /** Whether `_task.cancel()` was called. */
    var taskCancelled: bool
    /** Whether `timer.cancel()` was called. */
    var timerCancelled: bool

    constructor ()
      ensures !stopping && !hasTask && !taskCancelled && !timerCancelled
    {
      stopping, hasTask, taskCancelled, timerCancelled := false, false, false, false;
    }

    /** `stop(cancel_current)`. */
    method Stop(cancelCurrent: bool)
      modifies this
      ensures stopping && timerCancelled && hasTask == old(hasTask)
      ensures taskCancelled == (old(taskCancelled) || (cancelCurrent && hasTask))
    {
      stopping := true;
      timerCancelled := true;
      if cancelCurrent && hasTask {
        taskCancelled := true;
      }
    }

    /** `start()`: the run scheduled as a task. */
    method Start()
      modifies this
      ensures hasTask && stopping == old(stopping)
      ensures taskCancelled == old(taskCancelled) && timerCancelled == old(timerCancelled)
    {
      hasTask := true;
    }

    /**
     * `run()`.  A `stop()` from the surroundings is seen by the loop only
     * through `_stopping` and the sleep it cuts short.
     */
    method Run(cycles: seq<Cycle>, interval: int) returns (r: Result<seq<Action>, string>)
      modifies this
      ensures old(stopping) ==> r == Err("Cannot reuse UpdateService after stopping") && stopping
      ensures !old(stopping) ==> r == Ok(Trace(cycles, true, interval).0) && stopping == Trace(cycles, true, interval).1
      ensures hasTask == old(hasTask) && taskCancelled == old(taskCancelled) && timerCancelled == old(timerCancelled)
    {
      if stopping {
        return Err("Cannot reuse UpdateService after stopping");
      }
      var force := true;
      var actions: seq<Action> := [];
      ghost var whole := Trace(cycles, true, interval);
      assert cycles[0..] == cycles;
      var n := 0;
      while !stopping && n < |cycles|
        invariant 0 <= n <= |cycles|
        invariant !stopping
        invariant actions + Trace(cycles[n..], force, interval).0 == whole.0
        invariant Trace(cycles[n..], force, interval).1 == whole.1
        invariant hasTask == old(hasTask) && taskCancelled == old(taskCancelled) && timerCancelled == old(timerCancelled)
        decreases |cycles| - n
      {
        assert cycles[n..][1..] == cycles[n + 1..];
        var done, stop := RunPass(cycles[n], force, interval);
        ghost var rest := Trace(cycles[n + 1..], !cycles[n].sleepCompleted, interval);
        ConcatAssoc(actions, done, if stop then [Close] else rest.0);
        actions := actions + done;
        if stop {
          stopping := true;
          break;
        }
        force := !cycles[n].sleepCompleted;
        n := n + 1;
      }
      if stopping {
        actions := actions + [Close];
      } else {
        assert cycles[n..] == [];
        ConcatEmpty(actions);
      }
      r := Ok(actions);
    }

    /** The body of the loop: the update, the `_stopping` checks and the sleep, up to a `break` or the next pass. */
    method RunPass(c: Cycle, force: bool, interval: int) returns (actions: seq<Action>, stop: bool)
      ensures (actions, stop) == Pass(c, force, interval)
    {
      actions := [Update(force)];
      if c.outcome == Cancelled {
        return actions, true;
      }
      var delay := if c.outcome == Failed then RetryDelay else interval;
      if c.stopDuringUpdate {
        return actions, true;
      }
      actions := actions + [Sleep(delay)];
      assert actions == [Update(force), Sleep(delay)];
      stop := c.stopDuringSleep;
    }
  }

  // ---------------------------------------------------------------- what a run does

  /** The `force` flags of the updates, in order. */
  function Forces(actions: seq<Action>): (r: seq<bool>)
    ensures |r| <= |actions|
    decreases |actions|
  {
    if actions == [] then []
    else (if actions[0].Update? then [actions[0].force] else []) + Forces(actions[1..])
  }

  /** The delays of the sleeps, in order. */
  function Delays(actions: seq<Action>): (r: seq<int>)
    ensures |r| <= |actions|
    decreases |actions|
  {
    if actions == [] then []
    else (if actions[0].Sleep? then [actions[0].delay] else []) + Delays(actions[1..])
  }

  lemma {:induction false} ForcesAppend(a: seq<Action>, b: seq<Action>)
    ensures Forces(a + b) == Forces(a) + Forces(b)
    decreases |a|
  {
    if a == [] {
      assert a + b == b;
    } else {
      assert (a + b)[0] == a[0] && (a + b)[1..] == a[1..] + b;
      ForcesAppend(a[1..], b);
    }
  }

  lemma {:induction false} DelaysAppend(a: seq<Action>, b: seq<Action>)
    ensures Delays(a + b) == Delays(a) + Delays(b)
    decreases |a|
  {
    if a == [] {
      assert a + b == b;
    } else {
      assert (a + b)[0] == a[0] && (a + b)[1..] == a[1..] + b;
      DelaysAppend(a[1..], b);
    }
  }

  /** The actions of a pass that goes on to the next: its update, then its sleep. */
  lemma PassOnward(c: Cycle, force: bool, interval: int)
    requires !Stops(c)
    ensures Pass(c, force, interval).0 == [Update(force), Sleep(Delay(c.outcome, interval))]
    ensures Forces(Pass(c, force, interval).0) == [force]
    ensures Delays(Pass(c, force, interval).0) == [Delay(c.outcome, interval)]
  {
    var acts := [Update(force), Sleep(Delay(c.outcome, interval))];
    assert acts[1..] == [Sleep(Delay(c.outcome, interval))];
  }

  /** The actions of the pass that leaves the loop, with the `close()` after it. */
  lemma PassStopping(c: Cycle, force: bool, interval: int)
    requires Stops(c)
    ensures Forces(Pass(c, force, interval).0 + [Close]) == [force]
    ensures Delays(Pass(c, force, interval).0 + [Close]) ==
      if c.outcome == Cancelled || c.stopDuringUpdate then [] else [Delay(c.outcome, interval)]
  {
    var acts := Pass(c, force, interval).0;
    assert Forces([Close]) == [] && Delays([Close]) == [];
    ForcesAppend(acts, [Close]);
    DelaysAppend(acts, [Close]);
    if c.outcome == Cancelled || c.stopDuringUpdate {
      assert acts[1..] == [];
    } else {
      assert acts[1..] == [acts[1]] && acts[1..][1..] == [];
    }
  }

  /** Each update after the first is forced exactly when the sleep of the cycle before it was cut short. */
  predicate ForcedAfterCutSleep(f: seq<bool>, cycles: seq<Cycle>) {
    |f| <= |cycles| + 1 && forall k :: 1 <= k < |f| ==> f[k] == !cycles[k - 1].sleepCompleted
  }

  /**
   * The first update is forced as asked, and each later update is forced
   * exactly when the sleep before it was cut short.
   */
  lemma {:induction false} ForceAfterCutSleep(cycles: seq<Cycle>, force: bool, interval: int)
    ensures cycles != [] ==> |Forces(Trace(cycles, force, interval).0)| > 0 && Forces(Trace(cycles, force, interval).0)[0] == force
    ensures ForcedAfterCutSleep(Forces(Trace(cycles, force, interval).0), cycles)
    decreases |cycles|
  {
    if cycles != [] {
      var c := cycles[0];
      if Stops(c) {
        PassStopping(c, force, interval);
      } else {
        var rest := Trace(cycles[1..], !c.sleepCompleted, interval);
        ForceAfterCutSleep(cycles[1..], !c.sleepCompleted, interval);
        PassOnward(c, force, interval);
        ForcesAppend(Pass(c, force, interval).0, rest.0);
        if cycles[1..] == [] {
          assert rest.0 == [];
        }
        var f, g := Forces(Trace(cycles, force, interval).0), Forces(rest.0);
        assert f == [force] + g;
        forall k | 1 <= k < |f|
          ensures f[k] == !cycles[k - 1].sleepCompleted
        {
          assert f[k] == g[k - 1];
          if k > 1 {
            assert g[k - 1] == !cycles[1..][k - 2].sleepCompleted;
          }
        }
      }
    }
  }

  /** A run starts with a forced update. */
  lemma FirstUpdateForced(cycles: seq<Cycle>, interval: int)
    requires cycles != []
    ensures Trace(cycles, true, interval).0[0] == Update(true)
  {
    var c := cycles[0];
    var p := Pass(c, true, interval);
    if p.1 {
      assert (p.0 + [Close])[0] == p.0[0];
    } else {
      var rest := Trace(cycles[1..], !c.sleepCompleted, interval);
      assert (p.0 + rest.0)[0] == p.0[0];
    }
  }

  /** The k-th of `delays` is the sleep after the k-th cycle's update, which was not cancelled. */
  predicate SleepsFollow(delays: seq<int>, cycles: seq<Cycle>, interval: int) {
    |delays| <= |cycles| &&
    forall k :: 0 <= k < |delays| ==> cycles[k].outcome != Cancelled && delays[k] == Delay(cycles[k].outcome, interval)
  }

  /** One more cycle in front, with its sleep. */
  lemma SleepsFollowCons(d: int, delays: seq<int>, cycles: seq<Cycle>, interval: int)
    requires cycles != [] && SleepsFollow(delays, cycles[1..], interval)
    requires cycles[0].outcome != Cancelled && d == Delay(cycles[0].outcome, interval)
    ensures SleepsFollow([d] + delays, cycles, interval)
  {
    var ds := [d] + delays;
    forall k | 0 <= k < |ds|
      ensures cycles[k].outcome != Cancelled && ds[k] == Delay(cycles[k].outcome, interval)
    {
      if k > 0 {
        assert ds[k] == delays[k - 1] && cycles[k] == cycles[1..][k - 1];
      }
    }
  }

  /** The k-th sleep follows the k-th update: `RetryDelay` after a failure, the interval after a success. */
  lemma {:induction false} SleepAfterOutcome(cycles: seq<Cycle>, force: bool, interval: int)
    ensures SleepsFollow(Delays(Trace(cycles, force, interval).0), cycles, interval)
    decreases |cycles|
  {
    if cycles != [] {
      var c := cycles[0];
      if Stops(c) {
        PassStopping(c, force, interval);
      } else {
        var rest := Trace(cycles[1..], !c.sleepCompleted, interval);
        SleepAfterOutcome(cycles[1..], !c.sleepCompleted, interval);
        PassOnward(c, force, interval);
        DelaysAppend(Pass(c, force, interval).0, rest.0);
        SleepsFollowCons(Delay(c.outcome, interval), Delays(rest.0), cycles, interval);
      }
    }
  }

  /** Whether some cycle stops the service. */
  ghost predicate SomeStop(cycles: seq<Cycle>) {
    exists k :: 0 <= k < |cycles| && Stops(cycles[k])
  }

  /**
   * Once a cycle stops the service no further update starts: there are
   * never more updates than cycles up to the first that stops, and when no
   * cycle stops every cycle updates once.
   */
  lemma {:induction false} NoUpdateAfterStop(cycles: seq<Cycle>, force: bool, interval: int)
    ensures var t := Trace(cycles, force, interval);
      (forall k :: 0 <= k < |cycles| && Stops(cycles[k]) ==> |Forces(t.0)| <= k + 1) &&
      (!SomeStop(cycles) ==> |Forces(t.0)| == |cycles|) &&
      (t.1 <==> SomeStop(cycles))
    decreases |cycles|
  {
    if cycles != [] {
      var c := cycles[0];
      if Stops(c) {
        PassStopping(c, force, interval);
      } else {
        var rest := Trace(cycles[1..], !c.sleepCompleted, interval);
        NoUpdateAfterStop(cycles[1..], !c.sleepCompleted, interval);
        PassOnward(c, force, interval);
        ForcesAppend(Pass(c, force, interval).0, rest.0);
        assert forall k :: 1 <= k < |cycles| ==> cycles[1..][k - 1] == cycles[k];
        if SomeStop(cycles) {
          var k :| 0 <= k < |cycles| && Stops(cycles[k]);
          assert Stops(cycles[1..][k - 1]);
        }
      }
    }
  }

  /** The run closes the updater exactly when it stopped, and as its last action. */
  lemma {:induction false} CloseLast(cycles: seq<Cycle>, force: bool, interval: int)
    ensures var t := Trace(cycles, force, interval);
      (Close in t.0 <==> t.1) && (t.1 ==> t.0[|t.0| - 1] == Close && Close !in t.0[..|t.0| - 1])
    decreases |cycles|
  {
    if cycles != [] {
      var c := cycles[0];
      var p := Pass(c, force, interval);
      assert Close !in p.0;
      if p.1 {
        assert (p.0 + [Close])[..|p.0|] == p.0;
      } else {
        var rest := Trace(cycles[1..], !c.sleepCompleted, interval);
        CloseLast(cycles[1..], !c.sleepCompleted, interval);
        if rest.1 {
          assert (p.0 + rest.0)[..|p.0 + rest.0| - 1] == p.0 + rest.0[..|rest.0| - 1];
        }
      }
    }
  }
}
