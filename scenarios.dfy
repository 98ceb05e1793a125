/**
 * The outcomes the repository's unit tests expect, stated and proved as facts
 * about the model. A fake clock
 * that is advanced by `T` ms with a pitch of `p` and no start delay runs the
 * interval `T / p` times, so each scenario calls the tick that many times.
 */
module Scenarios {
  import opened Wrappers
  import opened Fragments
  import opened Sequencing
  import Timers
  import TimerWorkers
  import Lanes

  /** Two fragments created one after the other get different identities. */
  method DistinctIdentities() returns (a: nat, b: nat)
    ensures a != b
  {
    var ids := new IdSource();
    var f1 := new Fragment(ids, "Test", 1000, None);
    var f2 := new Fragment(ids, "Test", 1000, None);
    a, b := f1.id, f2.id;
  }

  /** Setters replace the value that the matching getter then returns. */
  method SettersReplaceValues() returns (name: string, duration: int, callback: Option<CallbackId>)
    ensures name == "Updated" && duration == 1000 && callback == Some(7)
  {
    var ids := new IdSource();
    var f := new Fragment(ids, "Initial", 500, Some(1));
    f.SetName("Updated");
    f.SetDuration(1000);
    f.SetCallback(7);
    name, duration, callback := f.name, f.duration, f.callback;
  }

  /** A copy has a new identity and the original's name and duration. */
  method CopyKeepsFields() returns (sameId: bool, sameName: bool, sameDuration: bool)
    ensures !sameId && sameName && sameDuration
  {
    var ids := new IdSource();
    var original := new Fragment(ids, "Original", 1000, None);
    var copy := original.Copy(ids);
    sameId := copy.id == original.id;
    sameName := copy.name == original.name;
    sameDuration := copy.duration == original.duration;
  }

  /** Pushing adds one fragment, pushing it again fails, removing it empties the list. */
  method PushDuplicateRemove() returns (afterPush: nat, second: Outcome<SequencerError>, afterRemove: nat)
    ensures afterPush == 1 && second == Fail(DuplicateFragment) && afterRemove == 0
  {
    var ids := new IdSource();
    var s := new Sequencer(100, false);
    var f := new Fragment(ids, "Test", 1000, None);
    var _ := s.Push(f);
    afterPush := |s.GetFragments()|;
    second := s.Push(f);
    var _ := s.Remove(f);
    afterRemove := |s.GetFragments()|;
  }

  /** Playing twice fails the second time, and so does stopping twice. */
  method PlayAndStopTwice() returns (p1: Outcome<SequencerError>, p2: Outcome<SequencerError>,
                                    s1: Outcome<SequencerError>, s2: Outcome<SequencerError>)
    ensures p1 == Pass && p2 == Fail(AlreadyPlaying) && s1 == Pass && s2 == Fail(NotPlaying)
  {
    var s := new Sequencer(100, false);
    p1 := s.Play(0);
    p2 := s.Play(0);
    s1 := s.Stop(0);
    s2 := s.Stop(0);
  }

  /** A stopped, non-looping sequencer with pitch 100 holding one fragment of `duration` ms with callback 0. */
  method WithOneFragment(ids: IdSource, duration: int) returns (s: Sequencer)
    modifies ids
    ensures fresh(s) && fresh(s.timer) && s.Valid() && |s.fragments| == 1
    ensures s.fragments[0].id < ids.next && s.fragments[0].duration == duration && s.fragments[0].callback == Some(0)
    ensures !s.timer.isPlaying && s.timer.currentTime == 0 && s.timer.pitch == 100 && !s.timer.loopFlag
    ensures s.timer.totalTime == duration
  {
    s := new Sequencer(100, false);
    var f := new Fragment(ids, "Fragment", duration, Some(0));
    var _ := s.Push(f);
    assert Durations(s.fragments) == [duration];
    assert Sum([duration]) == duration;
  }

  /** A playing, non-looping sequencer with pitch 100 holding fragments of 100 and 50 ms, both with callback 0. */
  method PlayingWithTwoFragments() returns (s: Sequencer)
    ensures fresh(s) && fresh(s.timer) && |s.fragments| == 2
    ensures Durations(s.fragments) == [100, 50]
    ensures s.fragments[0].callback == Some(0)
    ensures s.timer.isPlaying && s.timer.currentTime == 0 && s.timer.pitch == 100
    ensures !s.timer.loopFlag && s.timer.totalTime == 150
  {
    var ids := new IdSource();
    s := WithOneFragment(ids, 100);
    var f2 := new Fragment(ids, "Test2", 50, Some(0));
    var r := s.Push(f2);
    assert r == Pass;
    assert Durations(s.fragments) == [100, 50];
    assert s.timer.totalTime == 150 by {
      assert [100, 50][..1] == [100] && [100][..0] == [];
    }
    var _ := s.Play(0);
  }

  /**
   * Fragments of 100 and 50 ms, pitch 100, no loop: no callback by 99 ms, the
   * first fragment's callback at the 100 ms tick, and still one call at 150 ms.
   */
  method PreciseTiming() returns (at99: nat, at100: nat, at150: nat)
    ensures at99 == 0 && at100 == 1 && at150 == 1
  {
    var s := PlayingWithTwoFragments();
    var calls := 0;
    at99 := calls;
    var update, fired, invoked := s.OnTick();
    assert update == Some(100);
    assert WindowEnd([100, 50], 0) == 100;
    if invoked.Some? {
      calls := calls + 1;
    }
    at100 := calls;
    at150 := calls;
  }

  /** A playing, looping sequencer with pitch 100 holding one fragment of 200 ms with callback 0. */
  method PlayingLoopWithOneFragment() returns (s: Sequencer)
    ensures fresh(s) && fresh(s.timer) && |s.fragments| == 1
    ensures s.fragments[0].duration == 200 && s.fragments[0].callback == Some(0)
    ensures s.timer.isPlaying && s.timer.currentTime == 0 && s.timer.pitch == 100
    ensures s.timer.loopFlag && s.timer.totalTime == 200
  {
    var ids := new IdSource();
    s := WithOneFragment(ids, 200);
    s.SetLoopFlag(true);
    var _ := s.Play(0);
  }

  /**
   * One fragment of 200 ms, pitch 100, looping: the callback runs on every
   * tick (times 100, 0, 100, 0), so twice by 200 ms and four times by 400 ms.
   */
  method LoopedPlayback() returns (at200: nat, at400: nat)
    ensures at200 == 2 && at400 == 4
  {
    var s := PlayingLoopWithOneFragment();
    var f := s.fragments[0];
    var calls := 0;
    at200 := 0;
    var k, wrapped := 0, true;
    while k < 4
      invariant 0 <= k <= 4 && calls == k
      invariant s.timer.isPlaying && s.timer.totalTime == 200 && s.timer.pitch == 100 && s.timer.loopFlag
      invariant s.timer.currentTime == (if wrapped then 0 else 100)
      invariant s.fragments == [f] && f.duration == 200 && f.callback == Some(0)
      invariant k >= 2 ==> at200 == 2
    {
      var _, _, invoked := s.OnTick();
      assert Durations(s.fragments) == [200];
      assert WindowEnd([200], 0) == 200;
      if invoked.Some? {
        calls := calls + 1;
      }
      if k == 1 {
        at200 := calls;
      }
      k, wrapped := k + 1, !wrapped;
    }
    at400 := calls;
  }

  /** `Timer(1000, 100)`, no loop: three ticks emit 100, 200, 300 and leave the time at 300. */
  method TimerAccumulates() returns (time: int, updates: seq<int>)
    ensures time == 300 && updates == [100, 200, 300]
  {
    var t := new Timers.Timer(1000, 100, false);
    var _ := t.Play();
    updates := [];
    var k := 0;
    while k < 3
      invariant 0 <= k <= 3 && t.isPlaying
      invariant t.totalTime == 1000 && t.pitch == 100 && !t.loopFlag
      invariant t.currentTime == 100 * k && updates == Timers.Advances(0, 100, k)
    {
      var u := t.Exec();
      assert Timers.Advances(0, 100, k) + [100 * (k + 1)] == Timers.Advances(0, 100, k + 1);
      updates := updates + [u.value];
      k := k + 1;
    }
    time := t.currentTime;
  }

  /** `Timer(1000, 100)` looping: fifteen ticks bring the time to 500. */
  lemma TimerLoops()
    ensures Timers.TimerRun(0, 100, 1000, true, 15).time == 500
  {
    Timers.TimerLoopRunModular(0, 100, 1000, 15);
  }

  /** `TimerWorker(1000, 100)`, no loop: three ticks emit 100, 200, 300 and leave the time at 300. */
  lemma WorkerAccumulates()
    ensures TimerWorkers.WorkerRun(0, 100, 1000, false, 3) == Timers.Run(300, true, [100, 200, 300])
  {
    TimerWorkers.WorkerRunBeforeEnd(0, 100, 1000, false, 3);
  }

  /** `TimerWorker(1000, 100)` looping: fifteen ticks bring the time to 500. */
  lemma WorkerLoops()
    ensures TimerWorkers.WorkerRun(0, 100, 1000, true, 15).time == 500
  {
    TimerWorkers.WorkerLoopRunModular(0, 100, 1000, 15);
  }

  /** Three fragments all starting at 0 need three lanes. */
  lemma ThreeAtZeroNeedThreeLanes()
    ensures var s := [Lanes.Positioned(0, 0, 100), Lanes.Positioned(1, 0, 100), Lanes.Positioned(2, 0, 100)];
      Lanes.Pack(s).lanes == [100, 100, 100] && Lanes.Pack(s).laneOf == [0, 1, 2]
  {
    var s := [Lanes.Positioned(0, 0, 100), Lanes.Positioned(1, 0, 100), Lanes.Positioned(2, 0, 100)];
    assert Lanes.FirstFit([], 0) == None;
    assert Lanes.PackPrefix(s, 1) == Lanes.Layout([100], [0]);
    assert Lanes.FirstFit([100], 0) == None;
    assert Lanes.PackPrefix(s, 2) == Lanes.Layout([100, 100], [0, 1]);
    assert Lanes.FirstFit([100, 100], 0) == None;
    assert Lanes.PackPrefix(s, 3) == Lanes.Layout([100, 100, 100], [0, 1, 2]);
  }

  /** Touching windows [0, 100) and [100, 200) share lane 0. */
  lemma TouchingWindowsShareALane()
    ensures var s := [Lanes.Positioned(0, 0, 100), Lanes.Positioned(1, 100, 100)];
      Lanes.Pack(s).lanes == [200] && Lanes.Pack(s).laneOf == [0, 0]
  {
    var s := [Lanes.Positioned(0, 0, 100), Lanes.Positioned(1, 100, 100)];
    assert Lanes.FirstFit([], 0) == None;
    assert Lanes.PackPrefix(s, 1) == Lanes.Layout([100], [0]);
    assert Lanes.FirstFit([100], 100) == Some(0);
    assert Lanes.PackPrefix(s, 2) == Lanes.Layout([200], [0, 0]);
  }
}
