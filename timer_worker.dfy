/**
 * The interval clock `TimerWorker`: the same playing/not-playing machine as
 * `Timer`, but its tick wraps with a remainder when looping and leaves the
 * time un-wrapped when it stops at the end.
 */
module TimerWorkers {
  import opened Wrappers
  import opened Timers

  /**
   * One tick of a playing `TimerWorker` at `currentTime == ct`. A loop of
   * length 0 would take a remainder by zero, so looping needs `total > 0`.
   */
  function WorkerStep(ct: int, pitch: int, total: int, loop: bool): (r: Tick)
    requires loop ==> total > 0
    ensures r.playing <==> r.update.Some?
    ensures r.update.Some? ==> r.update.value == r.time
    ensures !r.playing <==> !loop && ct + pitch >= total
    ensures ct + pitch < total ==> r.time == ct + pitch && r.playing
    // stopping at the end leaves the time where the pitch took it
    ensures !r.playing ==> r.time == ct + pitch
    // looping at the end lands in [0, total), a whole number of loops back
    ensures loop && ct + pitch >= total ==> 0 <= r.time < total && (ct + pitch - r.time) % total == 0
    // so a looping worker stays inside [0, total) whatever the pitch
    ensures loop && 0 <= ct < total && 0 <= pitch ==> 0 <= r.time < total && r.playing
  {
    var t := ct + pitch;
    if t >= total then
      if loop then
        ModUnique(t - t % total, t / total, 0, total);
        Tick(t % total, Some(t % total), true)
      else Tick(t, None, false)
    else
      Tick(t, Some(t), true)
  }

  /** `n` ticks of the interval, starting while playing at time `ct`; ticks after a stop do nothing. */
  function WorkerRun(ct: int, pitch: int, total: int, loop: bool, n: nat): Run
    requires loop ==> total > 0
  {
    if n == 0 then Run(ct, true, [])
    else
      var r := WorkerRun(ct, pitch, total, loop, n - 1);
      if !r.playing then r
      else
        var s := WorkerStep(r.time, pitch, total, loop);
        Run(s.time, s.playing, r.updates + (if s.update.Some? then [s.update.value] else []))
  }

  /**
   * Looping: after `n` ticks from a time in [0, total) the worker still plays
   * and the time is `(ct + n * pitch) % total`, with no bound on the pitch.
   */
  lemma {:induction false} WorkerLoopRunModular(ct: int, pitch: int, total: int, n: nat)
    requires 0 <= ct < total && 0 <= pitch
    ensures var r := WorkerRun(ct, pitch, total, true, n);
      r.playing && r.time == (ct + n * pitch) % total && |r.updates| == n
  {
    if n == 0 {
      ModUnique(ct, 0, ct, total);
    } else {
      WorkerLoopRunModular(ct, pitch, total, n - 1);
      var x := ct + (n - 1) * pitch;
      assert x + pitch == ct + n * pitch;
      ModAddMod(x, pitch, total);
      var a := x % total;
      if a + pitch < total {
        ModUnique(a + pitch, 0, a + pitch, total);
      }
    }
  }

  /** Before the end is reached the worker behaves like `Timer`: one pitch per tick, each time emitted. */
  lemma {:induction false} WorkerRunBeforeEnd(ct: int, pitch: int, total: int, loop: bool, n: nat)
    requires loop ==> total > 0
    requires 0 <= pitch && ct + n * pitch < total
    ensures WorkerRun(ct, pitch, total, loop, n) == Run(ct + n * pitch, true, Advances(ct, pitch, n))
  {
    if n > 0 {
      assert (n - 1) * pitch <= n * pitch;
      WorkerRunBeforeEnd(ct, pitch, total, loop, n - 1);
      assert ct + (n - 1) * pitch + pitch == ct + n * pitch;
      assert Advances(ct, pitch, n - 1) + [ct + n * pitch] == Advances(ct, pitch, n);
    }
  }

  /**
   * Without looping, the `n`-th tick is the first to reach the end: it emits
   * nothing and stops the worker with the time left at `ct + n * pitch`, not
   * wound back as `Timer` does; every later tick leaves that state as it is.
   */
  lemma {:induction false} WorkerRunStopsAtEnd(ct: int, pitch: int, total: int, n: nat, m: nat)
    requires 0 <= pitch && n > 0 && ct + (n - 1) * pitch < total <= ct + n * pitch
    ensures WorkerRun(ct, pitch, total, false, n + m) == Run(ct + n * pitch, false, Advances(ct, pitch, n - 1))
  {
    if m == 0 {
      WorkerRunBeforeEnd(ct, pitch, total, false, n - 1);
      assert ct + (n - 1) * pitch + pitch == ct + n * pitch;
    } else {
      WorkerRunStopsAtEnd(ct, pitch, total, n, m - 1);
    }
  }

  /**
   * While looping from inside the loop with a pitch no longer than the loop,
   * the remainder and the single subtraction wrap alike, so the worker and
   * `Timer` produce the same times, the same updates and keep playing.
   */
  lemma {:induction false} WorkerAgreesWithTimerWhenLooping(ct: int, pitch: int, total: int, n: nat)
    requires 0 <= ct < total && 0 < pitch <= total
    ensures WorkerRun(ct, pitch, total, true, n) == TimerRun(ct, pitch, total, true, n)
  {
    if n > 0 {
      WorkerAgreesWithTimerWhenLooping(ct, pitch, total, n - 1);
      TimerLoopRunModular(ct, pitch, total, n - 1);
      var t := TimerRun(ct, pitch, total, true, n - 1).time;
      if t + pitch >= total {
        ModUnique(t + pitch, 1, t + pitch - total, total);
      }
    }
  }

  class TimerWorker {
    var totalTime: int
    var pitch: int
    var loopFlag: bool
    var currentTime: int
    var isPlaying: bool

    constructor (totalTime: int, pitch: int, loopFlag: bool)
      ensures this.totalTime == totalTime && this.pitch == pitch && this.loopFlag == loopFlag
      ensures currentTime == 0 && !isPlaying
    {
      this.totalTime := totalTime;
      this.pitch := pitch;
      this.loopFlag := loopFlag;
      currentTime := 0;
      isPlaying := false;
    }

    method SetTotalTime(totalTime: int)
      modifies this`totalTime
      ensures this.totalTime == totalTime
    {
      this.totalTime := totalTime;
    }

    method SetPitch(pitch: int)
      modifies this`pitch
      ensures this.pitch == pitch
    {
      this.pitch := pitch;
    }

    method SetLoopFlag(loopFlag: bool)
      modifies this`loopFlag
      ensures this.loopFlag == loopFlag
    {
      this.loopFlag := loopFlag;
    }

    /** Fails when already playing; otherwise starts playing. */
    method Play() returns (r: Outcome<TimerError>)
      modifies this`isPlaying
      ensures r == if old(isPlaying) then Fail(AlreadyPlaying) else Pass
      ensures isPlaying
    {
      if isPlaying {
        return Fail(AlreadyPlaying);
      }
      isPlaying := true;
      r := Pass;
    }

    /** Fails when not playing; otherwise stops, keeping `currentTime`. */
    method Stop() returns (r: Outcome<TimerError>)
      modifies this`isPlaying
      ensures r == if old(isPlaying) then Pass else Fail(NotPlaying)
      ensures !isPlaying
    {
      if !isPlaying {
        return Fail(NotPlaying);
      }
      isPlaying := false;
      r := Pass;
    }

    /** One tick of the running interval; returns the update event it dispatches, if any. */
    method Exec() returns (update: Option<int>)
      requires isPlaying && (loopFlag ==> totalTime > 0)
      modifies this`currentTime, this`isPlaying
      ensures Tick(currentTime, update, isPlaying) == WorkerStep(old(currentTime), pitch, totalTime, loopFlag)
    {
      currentTime := currentTime + pitch;
      if currentTime >= totalTime {
        if loopFlag {
          currentTime := currentTime % totalTime;
        } else {
          var _ := Stop();
          return None;
        }
      }
      update := Some(currentTime);
    }
  }
}
