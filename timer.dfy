/**
 * The cooperative clock (`Timer`, non-worker path): a playing/not-playing
 * machine whose tick adds `pitch` to `currentTime`, wraps by subtracting
 * `totalTime` once when it reaches the end, and either stops (no loop) or
 * emits an update carrying the new time.
 */
module Timers {
  import opened Wrappers

  datatype TimerError = AlreadyPlaying | NotPlaying

  /** What one tick leaves behind: the new time, the update it emits (if any), whether still playing. */
  datatype Tick = Tick(time: int, update: Option<int>, playing: bool)

  /** The outcome of several ticks: final time, whether still playing, every update emitted in order. */
  datatype Run = Run(time: int, playing: bool, updates: seq<int>)

  /** One non-worker tick of a playing `Timer` at `currentTime == ct`. */
  function TimerStep(ct: int, pitch: int, total: int, loop: bool): (r: Tick)
    // an update is emitted exactly when the timer keeps playing, and it carries the new time
    ensures r.playing <==> r.update.Some?
    ensures r.update.Some? ==> r.update.value == r.time
    // it stops exactly when the end is reached without looping
    ensures !r.playing <==> !loop && ct + pitch >= total
    // before the end, the time advances by exactly one pitch
    ensures ct + pitch < total ==> r.time == ct + pitch && r.playing
    // at the end, the time is wound back by `total` once, whether or not it loops
    ensures ct + pitch >= total ==> r.time == ct + pitch - total
    // looping keeps the time inside [0, total) when a pitch is no longer than the loop
    ensures loop && 0 <= ct < total && 0 < pitch <= total ==> 0 <= r.time < total && r.playing
  {
    var t := ct + pitch;
    if t >= total then
      if loop then Tick(t - total, Some(t - total), true) else Tick(t - total, None, false)
    else
      Tick(t, Some(t), true)
  }

  /** `n` ticks of the interval, starting while playing at time `ct`; ticks after a stop do nothing. */
  function TimerRun(ct: int, pitch: int, total: int, loop: bool, n: nat): Run
  {
    if n == 0 then Run(ct, true, [])
    else
      var r := TimerRun(ct, pitch, total, loop, n - 1);
      if !r.playing then r
      else
        var s := TimerStep(r.time, pitch, total, loop);
        Run(s.time, s.playing, r.updates + (if s.update.Some? then [s.update.value] else []))
  }

  /** A positive multiple of a positive `m` is at least `m`. */
  lemma {:induction false} MulAtLeast(d: int, m: int)
    requires d >= 1 && m > 0
    ensures d * m >= m
  {
    if d > 1 {
      MulAtLeast(d - 1, m);
      assert d * m == (d - 1) * m + m;
    }
  }

  /** Euclidean remainder is determined by any decomposition `x == q * m + r` with `0 <= r < m`. */
  lemma ModUnique(x: int, q: int, r: int, m: int)
    requires m > 0 && 0 <= r < m && x == q * m + r
    ensures x % m == r && x / m == q
  {
    var q', r' := x / m, x % m;
    assert x == q' * m + r';
    assert (q - q') * m == r' - r by {
      assert (q - q') * m == q * m - q' * m;
    }
    if q > q' {
      MulAtLeast(q - q', m);
    } else if q < q' {
      MulAtLeast(q' - q, m);
    }
  }

  /** Adding `p <= m` to a remainder and subtracting `m` once if needed is the remainder of the sum. */
  lemma ModAddOnce(x: int, p: int, m: int)
    requires m > 0 && 0 <= p <= m
    ensures var a := x % m; (if a + p >= m then a + p - m else a + p) == (x + p) % m
  {
    var a, q := x % m, x / m;
    if a + p >= m {
      ModUnique(x + p, q + 1, a + p - m, m);
    } else {
      ModUnique(x + p, q, a + p, m);
    }
  }

  /** Taking the remainder before adding `p` does not change the remainder of the sum. */
  lemma ModAddMod(x: int, p: int, m: int)
    requires m > 0
    ensures (x % m + p) % m == (x + p) % m
  {
    var a, q := x % m, x / m;
    var b, k := (a + p) % m, (a + p) / m;
    ModUnique(x + p, q + k, b, m);
  }

  /**
   * Looping with a pitch no longer than the loop: after `n` ticks from a time
   * in [0, total) the timer still plays, the time is `(ct + n * pitch) % total`,
   * and every tick emitted one update.
   */
  lemma {:induction false} TimerLoopRunModular(ct: int, pitch: int, total: int, n: nat)
    requires 0 <= ct < total && 0 < pitch <= total
    ensures var r := TimerRun(ct, pitch, total, true, n);
      r.playing && r.time == (ct + n * pitch) % total && |r.updates| == n
  {
    if n == 0 {
      ModUnique(ct, 0, ct, total);
    } else {
      TimerLoopRunModular(ct, pitch, total, n - 1);
      var x := ct + (n - 1) * pitch;
      ModAddOnce(x, pitch, total);
      assert x + pitch == ct + n * pitch;
    }
  }

  /** The times `ct + pitch, ct + 2 * pitch, ..., ct + n * pitch` that `n` ticks pass through. */
  function Advances(ct: int, pitch: int, n: nat): (ts: seq<int>)
  {
    seq(n, k => ct + (k + 1) * pitch)
  }

  /**
   * Before the end is reached, looping or not, every tick advances the time by
   * one pitch and emits it: after `n` ticks the timer still plays at
   * `ct + n * pitch` and has emitted every intermediate time in order.
   */
  lemma {:induction false} TimerRunBeforeEnd(ct: int, pitch: int, total: int, loop: bool, n: nat)
    requires 0 <= pitch && ct + n * pitch < total
    ensures TimerRun(ct, pitch, total, loop, n) == Run(ct + n * pitch, true, Advances(ct, pitch, n))
  {
    if n > 0 {
      assert (n - 1) * pitch <= n * pitch;
      TimerRunBeforeEnd(ct, pitch, total, loop, n - 1);
      assert ct + (n - 1) * pitch + pitch == ct + n * pitch;
      assert Advances(ct, pitch, n - 1) + [ct + n * pitch] == Advances(ct, pitch, n);
    }
  }

  /**
   * Without looping, the `n`-th tick is the first to reach the end: it emits
   * nothing, winds the time back by `total` and stops the timer, and every
   * later tick leaves that state as it is.
   */
  lemma {:induction false} TimerRunStopsAtEnd(ct: int, pitch: int, total: int, n: nat, m: nat)
    requires 0 <= pitch && n > 0 && ct + (n - 1) * pitch < total <= ct + n * pitch
    ensures TimerRun(ct, pitch, total, false, n + m) == Run(ct + n * pitch - total, false, Advances(ct, pitch, n - 1))
  {
    if m == 0 {
      TimerRunBeforeEnd(ct, pitch, total, false, n - 1);
      assert ct + (n - 1) * pitch + pitch == ct + n * pitch;
    } else {
      TimerRunStopsAtEnd(ct, pitch, total, n, m - 1);
    }
  }

  /**
   * Looping with a pitch longer than the loop: the single subtraction cannot
   * bring the time back into [0, total), so after `n` ticks the time has grown
   * by `n * (pitch - total)` and keeps growing.
   */
  lemma {:induction false} TimerLoopDrift(ct: int, pitch: int, total: int, n: nat)
    requires 0 <= ct && 0 <= total < pitch
    ensures var r := TimerRun(ct, pitch, total, true, n);
      r.playing && r.time == ct + n * (pitch - total) && |r.updates| == n
  {
    if n > 0 {
      TimerLoopDrift(ct, pitch, total, n - 1);
      assert ct + (n - 1) * (pitch - total) + (pitch - total) == ct + n * (pitch - total);
    }
  }

  class Timer {
    var totalTime: int
    var pitch: int
    var loopFlag: bool
    var currentTime: int
    var isPlaying: bool

    constructor (totalTime: int, pitch: int, loopFlag: bool)
      ensures this.totalTime == totalTime && this.pitch == pitch && this.loopFlag == loopFlag
      ensures currentTime == 0 && !isPlaying
    {
      this.totalTime := totalTime;
      this.pitch := pitch;
      this.loopFlag := loopFlag;
      currentTime := 0;
      isPlaying := false;
    }

    method SetTotalTime(totalTime: int)
      modifies this`totalTime
      ensures this.totalTime == totalTime
    {
      this.totalTime := totalTime;
    }

    method SetPitch(pitch: int)
      modifies this`pitch
      ensures this.pitch == pitch
    {
      this.pitch := pitch;
    }

    method SetLoopFlag(loopFlag: bool)
      modifies this`loopFlag
      ensures this.loopFlag == loopFlag
    {
      this.loopFlag := loopFlag;
    }

    /** Fails when already playing; otherwise starts playing. */
    method Play() returns (r: Outcome<TimerError>)
      modifies this`isPlaying
      ensures r == if old(isPlaying) then Fail(AlreadyPlaying) else Pass
      ensures isPlaying
    {
      if isPlaying {
        return Fail(AlreadyPlaying);
      }
      isPlaying := true;
      r := Pass;
    }

    /** Fails when not playing; otherwise stops. `currentTime` is kept, so a later play resumes. */
    method Stop() returns (r: Outcome<TimerError>)
      modifies this`isPlaying
      ensures r == if old(isPlaying) then Pass else Fail(NotPlaying)
      ensures !isPlaying
    {
      if !isPlaying {
        return Fail(NotPlaying);
      }
      isPlaying := false;
      r := Pass;
    }

    /** One tick of the running interval; returns the update event it dispatches, if any. */
    method Exec() returns (update: Option<int>)
      requires isPlaying
      modifies this`currentTime, this`isPlaying
      ensures Tick(currentTime, update, isPlaying) == TimerStep(old(currentTime), pitch, totalTime, loopFlag)
    {
      currentTime := currentTime + pitch;
      if currentTime >= totalTime {
        currentTime := currentTime - totalTime;
        if !loopFlag {
          var _ := Stop();
          return None;
        }
      }
      update := Some(currentTime);
    }
  }
}
