/**
 * The queue sequencer: an ordered list of fragments with distinct identities
 * played back to back. The clock's total time is the sum of the durations, and
 * an update at time `t` fires only the first fragment whose cumulative window
 * reaches `t`.
 */
module Sequencing {
  import opened Wrappers
  import opened Fragments
  import Timers

  datatype SequencerError =
    | InvalidDelay
    | InvalidPitch
    | AlreadyPlaying
    | NotPlaying
    | DuplicateFragment
    | FragmentNotFound

  /** Sum of durations, folded from the left as `reduce((sum, d) => sum + d, 0)` does. */
  function Sum(ds: seq<int>): int
  {
    if |ds| == 0 then 0 else Sum(ds[..|ds| - 1]) + ds[|ds| - 1]
  }

  /** The durations of the fragments, in list order. */
  function Durations(fs: seq<Fragment>): (ds: seq<int>)
    reads fs
  {
    seq(|fs|, i reads fs requires 0 <= i < |fs| => fs[i].duration)
  }

  /** No two fragments of the list share an identity. */
  predicate UniqueIds(fs: seq<Fragment>)
  {
    forall i, j :: 0 <= i < j < |fs| ==> fs[i].id != fs[j].id
  }

  /** Some fragment of the list carries `id`. */
  predicate HasId(fs: seq<Fragment>, id: nat)
  {
    exists i :: 0 <= i < |fs| && fs[i].id == id
  }

  /** Position of the first fragment carrying `id`, as `findIndex` computes it. */
  function IndexOfId(fs: seq<Fragment>, id: nat): (r: Option<nat>)
    ensures r.Some? ==> r.value < |fs| && fs[r.value].id == id && forall j :: 0 <= j < r.value ==> fs[j].id != id
    ensures r.None? <==> forall j :: 0 <= j < |fs| ==> fs[j].id != id
  {
    if |fs| == 0 then None
    else if fs[0].id == id then Some(0)
    else match IndexOfId(fs[1..], id)
      case None => None
      case Some(k) => Some(k + 1)
  }

  /** The end of fragment `i`'s cumulative window: the durations up to and including it. */
  function WindowEnd(ds: seq<int>, i: nat): int
    requires i < |ds|
  {
    Sum(ds[..i + 1])
  }

  /** The first index at or after `i` whose window end reaches `t`. */
  function FirstWindowFrom(ds: seq<int>, t: int, i: nat): (r: Option<nat>)
    requires i <= |ds|
    ensures r.Some? ==> (i <= r.value < |ds| && t <= WindowEnd(ds, r.value) &&
                         forall j :: i <= j < r.value ==> t > WindowEnd(ds, j))
    ensures r.None? ==> forall j :: i <= j < |ds| ==> t > WindowEnd(ds, j)
    decreases |ds| - i
  {
    if i == |ds| then None
    else if t <= WindowEnd(ds, i) then Some(i)
    else FirstWindowFrom(ds, t, i + 1)
  }

  /**
   * The fragment an update at time `t` fires: the first index whose window end
   * reaches `t`, and none when no window end does.
   */
  function FirstWindow(ds: seq<int>, t: int): (r: Option<nat>)
    ensures r.Some? <==> exists j :: 0 <= j < |ds| && t <= WindowEnd(ds, j)
    ensures r.Some? ==> (r.value < |ds| && t <= WindowEnd(ds, r.value) &&
                         forall j :: 0 <= j < r.value ==> t > WindowEnd(ds, j))
  {
    FirstWindowFrom(ds, t, 0)
  }

  /** With non-negative durations every prefix sums to at most the total. */
  lemma {:induction false} PrefixSumAtMostTotal(ds: seq<int>, k: nat)
    requires k <= |ds|
    requires forall i :: 0 <= i < |ds| ==> ds[i] >= 0
    ensures Sum(ds[..k]) <= Sum(ds)
  {
    if k < |ds| {
      var init := ds[..|ds| - 1];
      assert init[..k] == ds[..k];
      PrefixSumAtMostTotal(init, k);
    } else {
      assert ds[..k] == ds;
    }
  }

  /**
   * With non-negative durations an update fires some fragment exactly when the
   * list is non-empty and `t` does not exceed the sum of all durations.
   */
  lemma FiresIffWithinTotal(ds: seq<int>, t: int)
    requires forall i :: 0 <= i < |ds| ==> ds[i] >= 0
    ensures FirstWindow(ds, t).Some? <==> |ds| > 0 && t <= Sum(ds)
  {
    if FirstWindow(ds, t).Some? {
      var k := FirstWindow(ds, t).value;
      PrefixSumAtMostTotal(ds, k + 1);
    } else if |ds| > 0 {
      assert ds[..|ds|] == ds;
      assert t > WindowEnd(ds, |ds| - 1);
    }
  }

  /** The callback fired for the chosen index, if the fragment has one. */
  function CallbackAt(fs: seq<Fragment>, fired: Option<nat>): Option<CallbackId>
    reads fs
  {
    if fired.Some? && fired.value < |fs| then fs[fired.value].callback else None
  }

  class Sequencer {
    var fragments: seq<Fragment>
    var pitch: int
    var loopFlag: bool
    const timer: Timers.Timer

    /** The sequencer's invariant: no two stored fragments share an identity. */
    ghost predicate Valid()
      reads this
    {
      UniqueIds(fragments)
    }

    /** An empty sequencer whose fresh clock has total time 0 and the given pitch and loop flag. */
    constructor (pitch: int, loopFlag: bool)
      ensures Valid() && fresh(timer) && fragments == []
      ensures this.pitch == pitch && this.loopFlag == loopFlag
      ensures timer.totalTime == 0 && timer.pitch == pitch && timer.loopFlag == loopFlag
      ensures timer.currentTime == 0 && !timer.isPlaying
    {
      this.pitch := pitch;
      this.loopFlag := loopFlag;
      fragments := [];
      timer := new Timers.Timer(0, pitch, loopFlag);
    }

    /** The stored fragments in order, as a value detached from the sequencer. */
    function GetFragments(): (fs: seq<Fragment>)
      reads this
    {
      fragments
    }

    /** Rejects a non-positive pitch; otherwise stores it in the sequencer and in its clock. */
    method SetPitch(pitch: int) returns (r: Outcome<SequencerError>)
      modifies this`pitch, timer`pitch
      ensures r == if pitch <= 0 then Fail(InvalidPitch) else Pass
      ensures r.Pass? ==> this.pitch == pitch && timer.pitch == pitch
      ensures r.Fail? ==> this.pitch == old(this.pitch) && timer.pitch == old(timer.pitch)
    {
      if pitch <= 0 {
        return Fail(InvalidPitch);
      }
      this.pitch := pitch;
      timer.SetPitch(pitch);
      r := Pass;
    }

    method SetLoopFlag(loopFlag: bool)
      modifies this`loopFlag, timer`loopFlag
      ensures this.loopFlag == loopFlag && timer.loopFlag == loopFlag
    {
      this.loopFlag := loopFlag;
      timer.SetLoopFlag(loopFlag);
    }

    /** Recomputes the clock's total time as the sum of the stored durations. */
    method UpdateTotalTime()
      modifies timer`totalTime
      ensures timer.totalTime == Sum(Durations(fragments))
    {
      var total := 0;
      var i := 0;
      ghost var ds := Durations(fragments);
      while i < |fragments|
        invariant 0 <= i <= |fragments|
        invariant total == Sum(ds[..i])
      {
        assert ds[..i + 1][..i] == ds[..i];
        total := total + fragments[i].duration;
        i := i + 1;
      }
      assert ds[..i] == ds;
      timer.SetTotalTime(total);
    }

    /**
     * Fails when a stored fragment already has `f`'s identity; otherwise
     * appends `f` and resets the clock's total time to the new sum.
     */
    method Push(f: Fragment) returns (r: Outcome<SequencerError>)
      requires Valid()
      modifies this`fragments, timer`totalTime
      ensures Valid()
      ensures r.Fail? <==> HasId(old(fragments), f.id)
      ensures r.Fail? ==> (r.error == DuplicateFragment && fragments == old(fragments) &&
                           timer.totalTime == old(timer.totalTime))
      ensures r.Pass? ==> fragments == old(fragments) + [f] && timer.totalTime == Sum(Durations(fragments))
    {
      if IndexOfId(fragments, f.id).Some? {
        return Fail(DuplicateFragment);
      }
      fragments := fragments + [f];
      UpdateTotalTime();
      r := Pass;
    }

    /**
     * Fails when no stored fragment has `f`'s identity; otherwise deletes that
     * one element, keeps the others in order, and resets the total time.
     */
    method Remove(f: Fragment) returns (r: Outcome<SequencerError>)
      requires Valid()
      modifies this`fragments, timer`totalTime
      ensures Valid()
      ensures r.Fail? <==> !HasId(old(fragments), f.id)
      ensures r.Fail? ==> (r.error == FragmentNotFound && fragments == old(fragments) &&
                           timer.totalTime == old(timer.totalTime))
      ensures r.Pass? ==> (exists i :: 0 <= i < |old(fragments)| && old(fragments)[i].id == f.id &&
                                    fragments == old(fragments)[..i] + old(fragments)[i + 1..])
      ensures r.Pass? ==> ((forall g :: g in fragments ==> g.id != f.id) &&
                           timer.totalTime == Sum(Durations(fragments)))
    {
      var index := IndexOfId(fragments, f.id);
      if index.None? {
        return Fail(FragmentNotFound);
      }
      var i := index.value;
      ghost var before := fragments;
      fragments := fragments[..i] + fragments[i + 1..];
      assert forall k :: 0 <= k < |fragments| ==> fragments[k] == if k < i then before[k] else before[k + 1];
      UpdateTotalTime();
      r := Pass;
    }

    /** Rejects a negative delay, then a second play; otherwise starts the clock. */
    method Play(delay: int) returns (r: Outcome<SequencerError>)
      modifies timer`isPlaying
      ensures r == if delay < 0 then Fail(InvalidDelay)
                   else if old(timer.isPlaying) then Fail(AlreadyPlaying)
                   else Pass
      ensures timer.isPlaying == (old(timer.isPlaying) || r.Pass?)
    {
      if delay < 0 {
        return Fail(InvalidDelay);
      }
      if timer.isPlaying {
        return Fail(AlreadyPlaying);
      }
      var _ := timer.Play();
      r := Pass;
    }

    /** Rejects a negative delay, then a stop while not playing; otherwise stops the clock. */
    method Stop(delay: int) returns (r: Outcome<SequencerError>)
      modifies timer`isPlaying
      ensures r == if delay < 0 then Fail(InvalidDelay)
                   else if !old(timer.isPlaying) then Fail(NotPlaying)
                   else Pass
      ensures timer.isPlaying == (old(timer.isPlaying) && !r.Pass?)
    {
      if delay < 0 {
        return Fail(InvalidDelay);
      }
      if !timer.isPlaying {
        return Fail(NotPlaying);
      }
      var _ := timer.Stop();
      r := Pass;
    }

    /**
     * Handles an update at time `t`: walks the list accumulating durations and
     * fires the first fragment whose window end reaches `t`, and no other.
     * `fired` is its position, `invoked` the callback run (none if it has none).
     */
    method Exec(t: int) returns (fired: Option<nat>, invoked: Option<CallbackId>)
      ensures fired == FirstWindow(Durations(fragments), t)
      ensures invoked == CallbackAt(fragments, fired)
    {
      ghost var ds := Durations(fragments);
      var accumulated := 0;
      var i := 0;
      while i < |fragments|
        invariant 0 <= i <= |fragments|
        invariant accumulated == Sum(ds[..i])
        invariant FirstWindowFrom(ds, t, i) == FirstWindowFrom(ds, t, 0)
      {
        var fragment := fragments[i];
        assert ds[..i + 1][..i] == ds[..i];
        if t <= accumulated + fragment.duration {
          return Some(i), fragment.callback;
        }
        accumulated := accumulated + fragment.duration;
        i := i + 1;
      }
      return None, None;
    }

    /**
     * One clock tick with the update listener attached: the clock advances, and
     * the update it emits (if any) is handed to `Exec`.
     */
    method OnTick() returns (update: Option<int>, fired: Option<nat>, invoked: Option<CallbackId>)
      requires timer.isPlaying
      modifies timer`currentTime, timer`isPlaying
      ensures Timers.Tick(timer.currentTime, update, timer.isPlaying)
        == Timers.TimerStep(old(timer.currentTime), timer.pitch, timer.totalTime, timer.loopFlag)
      ensures fired == if update.Some? then FirstWindow(Durations(fragments), update.value) else None
      ensures invoked == CallbackAt(fragments, fired)
    {
      update := timer.Exec();
      fired, invoked := None, None;
      if update.Some? {
        fired, invoked := Exec(update.value);
      }
    }
  }
}
