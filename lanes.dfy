/**
 * Greedy lane packing for overlapping fragments: sort by start (longer first
 * on ties), then seat each fragment in the leftmost lane already free at its
 * start, opening a new lane when none is. Also the half-open activity test.
 */
module Lanes {
  import opened Wrappers

  /** A fragment placed on the timeline, as the packer reads it. */
  datatype Positioned = Positioned(id: nat, start: int, duration: int)
  {
    function End(): int { start + duration }
  }

  /** A fragment is active at `t` when `t` lies in the half-open window [start, start + duration). */
  predicate IsActive(p: Positioned, t: int)
  {
    p.start <= t < p.End()
  }

  predicate NonNegative(s: seq<Positioned>)
  {
    forall i :: 0 <= i < |s| ==> s[i].duration >= 0
  }

  // ---------------------------------------------------------------- sorting

  /** The comparator `a.start - b.start || b.duration - a.duration` is negative: `a` goes strictly first. */
  predicate Precedes(a: Positioned, b: Positioned)
  {
    a.start < b.start || (a.start == b.start && a.duration > b.duration)
  }

  /** `a` may stand before `b`: start ascending, then duration descending. */
  predicate InOrder(a: Positioned, b: Positioned)
  {
    !Precedes(b, a)
  }

  predicate Sorted(s: seq<Positioned>)
  {
    forall i, j :: 0 <= i < j < |s| ==> InOrder(s[i], s[j])
  }

  /** A sorted list stays sorted under a new head that may stand before all of its elements. */
  lemma SortedCons(y: Positioned, r: seq<Positioned>)
    requires Sorted(r) && forall k :: 0 <= k < |r| ==> InOrder(y, r[k])
    ensures Sorted([y] + r)
  {
    var r' := [y] + r;
    forall i, j | 0 <= i < j < |r'|
      ensures InOrder(r'[i], r'[j])
    {
      if i > 0 {
        assert r'[i] == r[i - 1] && r'[j] == r[j - 1];
      } else {
        assert r'[j] == r[j - 1];
      }
    }
  }

  /** Inserts `x` after every element that does not go strictly after it. */
  function Insert(x: Positioned, r: seq<Positioned>): (r': seq<Positioned>)
    requires Sorted(r)
    ensures Sorted(r') && multiset(r') == multiset(r) + multiset{x} && |r'| == |r| + 1
  {
    if r == [] then [x]
    else if Precedes(x, r[0]) then
      SortedCons(x, r);
      [x] + r
    else
      var head, tail := r[0], r[1..];
      assert r == [head] + tail;
      var rest := Insert(x, tail);
      assert forall k :: 0 <= k < |rest| ==> InOrder(head, rest[k]) by {
        forall k | 0 <= k < |rest|
          ensures InOrder(head, rest[k])
        {
          assert rest[k] in multiset(rest);
          if rest[k] != x {
            assert rest[k] in multiset(tail);
            var j :| 0 <= j < |tail| && tail[j] == rest[k];
            assert r[j + 1] == rest[k];
          }
        }
      }
      SortedCons(head, rest);
      [head] + rest
  }

  /** The fragments in the packer's processing order: a sorted permutation of the input. */
  function SortByStart(s: seq<Positioned>): (r: seq<Positioned>)
    ensures Sorted(r) && multiset(r) == multiset(s) && |r| == |s|
  {
    if s == [] then []
    else
      assert s == s[..|s| - 1] + [s[|s| - 1]];
      Insert(s[|s| - 1], SortByStart(s[..|s| - 1]))
  }

  /** Reordering keeps durations non-negative. */
  lemma NonNegativePermutation(a: seq<Positioned>, b: seq<Positioned>)
    requires NonNegative(a) && multiset(a) == multiset(b)
    ensures NonNegative(b)
  {
    forall i | 0 <= i < |b|
      ensures b[i].duration >= 0
    {
      assert b[i] in multiset(a);
      var j :| 0 <= j < |a| && a[j] == b[i];
    }
  }

  // ------------------------------------------------------------- first fit

  /** `lanes.findIndex(laneEnd => laneEnd <= start)`: the lowest lane free at `start`. */
  function FirstFit(lanes: seq<int>, start: int): (r: Option<nat>)
    ensures r.Some? ==> (r.value < |lanes| && lanes[r.value] <= start &&
                         forall k :: 0 <= k < r.value ==> lanes[k] > start)
    ensures r.None? <==> forall k :: 0 <= k < |lanes| ==> lanes[k] > start
  {
    if lanes == [] then None
    else if lanes[0] <= start then Some(0)
    else match FirstFit(lanes[1..], start)
      case None => None
      case Some(k) => Some(k + 1)
  }

  /** The lanes after seating one fragment, and the lane it got. */
  datatype Seating = Seating(lanes: seq<int>, lane: nat)

  /** Seats `p` with first fit: in the lowest free lane, or in a new lane, filled up to `p`'s end. */
  function Seat(lanes: seq<int>, p: Positioned): Seating
  {
    match FirstFit(lanes, p.start)
    case None => Seating(lanes + [p.End()], |lanes|)
    case Some(k) => Seating(lanes[k := p.End()], k)
  }

  /**
   * Seating picks the lowest lane filled up to at most the fragment's start,
   * and opens a new lane only when no lane qualifies; that lane is then filled
   * up to the fragment's end and every other lane keeps its value.
   */
  lemma SeatIsFirstFit(lanes: seq<int>, p: Positioned)
    ensures var r := Seat(lanes, p);
      && r.lane <= |lanes| && r.lane < |r.lanes|
      && (r.lane < |lanes| ==> lanes[r.lane] <= p.start && |r.lanes| == |lanes|)
      && (r.lane == |lanes| ==> |r.lanes| == |lanes| + 1)
      && (forall k :: 0 <= k < r.lane && k < |lanes| ==> lanes[k] > p.start)
      && r.lanes[r.lane] == p.End()
      && (forall k :: 0 <= k < |lanes| && k != r.lane ==> r.lanes[k] == lanes[k])
  {
  }

  /** The lanes' "filled up to" values and the lane of each fragment, in processing order. */
  datatype Layout = Layout(lanes: seq<int>, laneOf: seq<nat>)

  /** Each of the first `n` fragments has exactly one valid lane, and there are at most `n` lanes. */
  predicate WellShaped(n: nat, l: Layout)
  {
    && |l.laneOf| == n
    && |l.lanes| <= n
    && forall i :: 0 <= i < n ==> l.laneOf[i] < |l.lanes|
  }

  /** Seats the first `n` fragments of `s` one after the other, starting with no lanes. */
  function PackPrefix(s: seq<Positioned>, n: nat): (l: Layout)
    requires n <= |s|
    ensures WellShaped(n, l)
  {
    if n == 0 then Layout([], [])
    else
      var prev := PackPrefix(s, n - 1);
      var seat := Seat(prev.lanes, s[n - 1]);
      SeatIsFirstFit(prev.lanes, s[n - 1]);
      Layout(seat.lanes, prev.laneOf + [seat.lane])
  }

  /** The packing of all of `s`. */
  function Pack(s: seq<Positioned>): Layout
  {
    PackPrefix(s, |s|)
  }

  // ------------------------------------------------------ packing invariants

  /** Lane `k` is filled up to the end of one of the first `n` fragments, seated in it. */
  ghost predicate FilledByOccupant(s: seq<Positioned>, n: nat, l: Layout, k: nat)
    requires n <= |s| && WellShaped(n, l) && k < |l.lanes|
  {
    exists i :: 0 <= i < n && l.laneOf[i] == k && s[i].End() == l.lanes[k]
  }

  /** Every lane is filled up to the end of a fragment seated in it. */
  lemma {:induction false} PackFilledByOccupants(s: seq<Positioned>, n: nat)
    requires n <= |s|
    ensures forall k :: 0 <= k < |PackPrefix(s, n).lanes| ==> FilledByOccupant(s, n, PackPrefix(s, n), k)
  {
    if n > 0 {
      PackFilledByOccupants(s, n - 1);
      var prev, l := PackPrefix(s, n - 1), PackPrefix(s, n);
      var seat := Seat(prev.lanes, s[n - 1]);
      SeatIsFirstFit(prev.lanes, s[n - 1]);
      forall k | 0 <= k < |l.lanes|
        ensures FilledByOccupant(s, n, l, k)
      {
        if k == seat.lane {
          assert l.laneOf[n - 1] == k && s[n - 1].End() == l.lanes[k];
        } else {
          assert FilledByOccupant(s, n - 1, prev, k);
          var i :| 0 <= i < n - 1 && prev.laneOf[i] == k && s[i].End() == prev.lanes[k];
          assert l.laneOf[i] == k && s[i].End() == l.lanes[k];
        }
      }
    }
  }

  /** Each lane is filled up to at least the end of every one of the first `n` fragments seated in it. */
  ghost predicate EndsCovered(s: seq<Positioned>, n: nat, l: Layout)
    requires n <= |s| && WellShaped(n, l)
  {
    forall i :: 0 <= i < n ==> s[i].End() <= l.lanes[l.laneOf[i]]
  }

  /** Two fragments in the same lane do not overlap: the earlier ends no later than the later starts. */
  ghost predicate NoOverlap(s: seq<Positioned>, laneOf: seq<nat>)
    requires |laneOf| <= |s|
  {
    forall i, j :: 0 <= i < j < |laneOf| && laneOf[i] == laneOf[j] ==> s[i].End() <= s[j].start
  }

  /**
   * With non-negative durations, each lane covers the ends of its fragments and
   * no two fragments seated in the same lane overlap. Touching windows such as
   * [0, 100) and [100, 200) may share a lane.
   */
  lemma {:induction false} PackNoOverlap(s: seq<Positioned>, n: nat)
    requires n <= |s| && NonNegative(s)
    ensures EndsCovered(s, n, PackPrefix(s, n)) && NoOverlap(s, PackPrefix(s, n).laneOf)
  {
    if n > 0 {
      PackNoOverlap(s, n - 1);
      var prev, l := PackPrefix(s, n - 1), PackPrefix(s, n);
      var seat := Seat(prev.lanes, s[n - 1]);
      SeatIsFirstFit(prev.lanes, s[n - 1]);
      forall i | 0 <= i < n - 1
        ensures s[i].End() <= l.lanes[l.laneOf[i]]
        ensures l.laneOf[i] == seat.lane ==> s[i].End() <= s[n - 1].start
      {
        assert l.laneOf[i] == prev.laneOf[i];
        assert s[i].End() <= prev.lanes[prev.laneOf[i]];
      }
      assert EndsCovered(s, n, l);
      forall i, j | 0 <= i < j < n && l.laneOf[i] == l.laneOf[j]
        ensures s[i].End() <= s[j].start
      {
        if j < n - 1 {
          assert prev.laneOf[i] == prev.laneOf[j];
        }
      }
    }
  }

  /** Some fragment seated before `j` in lane `k` ends after `j` starts. */
  ghost predicate BusyAt(s: seq<Positioned>, laneOf: seq<nat>, j: nat, k: nat)
    requires |laneOf| <= |s| && j < |laneOf|
  {
    exists i :: 0 <= i < j && laneOf[i] == k && s[i].End() > s[j].start
  }

  /**
   * First fit: every lane to the left of a fragment's lane was still busy when
   * it was seated, i.e. an earlier fragment in that lane ends after its start.
   */
  lemma {:induction false} PackFirstFit(s: seq<Positioned>, n: nat)
    requires n <= |s|
    ensures forall j, k :: 0 <= j < n && 0 <= k < PackPrefix(s, n).laneOf[j] ==> BusyAt(s, PackPrefix(s, n).laneOf, j, k)
  {
    if n > 0 {
      PackFirstFit(s, n - 1);
      PackFilledByOccupants(s, n - 1);
      var prev, l := PackPrefix(s, n - 1), PackPrefix(s, n);
      var seat := Seat(prev.lanes, s[n - 1]);
      SeatIsFirstFit(prev.lanes, s[n - 1]);
      forall j, k | 0 <= j < n && 0 <= k < l.laneOf[j]
        ensures BusyAt(s, l.laneOf, j, k)
      {
        if j == n - 1 {
          assert FilledByOccupant(s, n - 1, prev, k);
          var i :| 0 <= i < n - 1 && prev.laneOf[i] == k && s[i].End() == prev.lanes[k];
          assert l.laneOf[i] == k && s[i].End() > s[j].start;
        } else {
          assert l.laneOf[j] == prev.laneOf[j];
          assert BusyAt(s, prev.laneOf, j, k);
          var i :| 0 <= i < j && prev.laneOf[i] == k && s[i].End() > s[j].start;
          assert l.laneOf[i] == k;
        }
      }
    }
  }

  /** With non-negative durations, two fragments sharing a lane are never active at the same time. */
  lemma SameLaneNeverBothActive(s: seq<Positioned>, i: nat, j: nat, t: int)
    requires NonNegative(s) && i < |s| && j < |s| && i != j
    requires Pack(s).laneOf[i] == Pack(s).laneOf[j]
    ensures !(IsActive(s[i], t) && IsActive(s[j], t))
  {
    PackNoOverlap(s, |s|);
    if i < j {
      assert s[i].End() <= s[j].start;
    } else {
      assert s[j].End() <= s[i].start;
    }
  }

  /** Some fragment seated before `j` in lane `k` is active when `j` starts. */
  ghost predicate ActiveAt(s: seq<Positioned>, laneOf: seq<nat>, j: nat, k: nat)
    requires |laneOf| <= |s| && j < |laneOf|
  {
    exists i :: 0 <= i < j && laneOf[i] == k && IsActive(s[i], s[j].start)
  }

  /**
   * For fragments in processing order, when a fragment is seated in lane `m`
   * each of the lanes 0 .. m-1 holds an earlier fragment still active at its
   * start: a lane is opened only when every existing lane is in use.
   */
  lemma LeftLanesActiveAtStart(s: seq<Positioned>)
    requires Sorted(s)
    ensures forall j, k :: 0 <= j < |s| && 0 <= k < Pack(s).laneOf[j] ==> ActiveAt(s, Pack(s).laneOf, j, k)
  {
    PackFirstFit(s, |s|);
    var l := PackPrefix(s, |s|);
    forall j, k | 0 <= j < |s| && 0 <= k < l.laneOf[j]
      ensures ActiveAt(s, l.laneOf, j, k)
    {
      assert BusyAt(s, l.laneOf, j, k);
      var i :| 0 <= i < j && l.laneOf[i] == k && s[i].End() > s[j].start;
      assert InOrder(s[i], s[j]);
    }
  }

  // ------------------------------------------------------------ the packers

  /** One entry of `simplyCalculateLanes`' result. */
  datatype Assignment = Assignment(fragment: Positioned, lane: nat)

  /** What the packing invariants say about assignments recorded in processing order. */
  lemma AssignmentsFollowPack(fragments: seq<Positioned>, sorted: seq<Positioned>, lanes: seq<int>, assignments: seq<Assignment>)
    requires multiset(sorted) == multiset(fragments) && |sorted| == |fragments|
    requires Pack(sorted).lanes == lanes && |assignments| == |sorted|
    requires forall i :: 0 <= i < |sorted| ==> assignments[i] == Assignment(sorted[i], Pack(sorted).laneOf[i])
    ensures |lanes| <= |fragments|
    ensures forall i :: 0 <= i < |assignments| ==> assignments[i].lane < |lanes|
    ensures NonNegative(fragments) ==>
      forall i, j :: 0 <= i < j < |assignments| && assignments[i].lane == assignments[j].lane ==>
        assignments[i].fragment.End() <= assignments[j].fragment.start
  {
    if NonNegative(fragments) {
      NonNegativePermutation(fragments, sorted);
      PackNoOverlap(sorted, |sorted|);
      assert NoOverlap(sorted, Pack(sorted).laneOf);
    }
  }

  /**
   * One step of `simplyCalculateLanes`: finds the first lane free at the
   * fragment's start, opening a new one when there is none, and fills it up to
   * the fragment's end.
   */
  method SeatFragment(lanes: seq<int>, frag: Positioned) returns (lanes': seq<int>, lane: nat)
    ensures Seating(lanes', lane) == Seat(lanes, frag)
    ensures lane < |lanes'|
  {
    var end := frag.start + frag.duration;
    var found := FirstFit(lanes, frag.start);
    if found.None? {
      lane := |lanes|;
      lanes' := lanes + [end];
    } else {
      lane := found.value;
      lanes' := lanes[lane := end];
    }
  }

  /**
   * `simplyCalculateLanes`: sorts a copy of the fragments, then seats them one
   * by one, growing `lanes` when no lane is free, and records one assignment
   * per fragment in processing order.
   */
  method SimplyCalculateLanes(fragments: seq<Positioned>) returns (lanes: seq<int>, assignments: seq<Assignment>)
    ensures var sorted := SortByStart(fragments);
      && lanes == Pack(sorted).lanes
      && |assignments| == |sorted|
      && forall i :: 0 <= i < |sorted| ==> assignments[i] == Assignment(sorted[i], Pack(sorted).laneOf[i])
    ensures |assignments| == |fragments| && |lanes| <= |fragments|
    ensures forall i :: 0 <= i < |assignments| ==> assignments[i].lane < |lanes|
    ensures NonNegative(fragments) ==>
      forall i, j :: 0 <= i < j < |assignments| && assignments[i].lane == assignments[j].lane ==>
        assignments[i].fragment.End() <= assignments[j].fragment.start
  {
    var sorted := SortByStart(fragments);
    lanes, assignments := [], [];
    ghost var laneOf: seq<nat> := [];
    var n := 0;
    while n < |sorted|
      invariant 0 <= n <= |sorted|
      invariant PackPrefix(sorted, n) == Layout(lanes, laneOf)
      invariant |assignments| == n
      invariant forall i :: 0 <= i < n ==> assignments[i] == Assignment(sorted[i], laneOf[i])
    {
      var frag := sorted[n];
      var lane;
      lanes, lane := SeatFragment(lanes, frag);
      assignments := assignments + [Assignment(frag, lane)];
      laneOf := laneOf + [lane];
      n := n + 1;
    }
    AssignmentsFollowPack(fragments, sorted, lanes, assignments);
  }

  /** A lane of `calculateLanes`: its identity and how far it is filled. */
  datatype Lane = Lane(id: nat, filledUpTo: int)

  /** One entry of `calculateLanes`' result: a fragment and the identities of its lanes. */
  datatype LaneAssignment = LaneAssignment(fragment: Positioned, laneIds: seq<nat>)

  /** How far each lane record is filled, in lane order. */
  function FilledUpTo(lanes: seq<Lane>): (r: seq<int>)
  {
    seq(|lanes|, k requires 0 <= k < |lanes| => lanes[k].filledUpTo)
  }

  /**
   * One step of `calculateLanes` for a leaf: the same seating as
   * `SeatFragment`, on lane records, a new lane taking the next identity.
   */
  method SeatInLanes(lanes: seq<Lane>, frag: Positioned) returns (lanes': seq<Lane>, laneIndex: nat)
    requires forall k :: 0 <= k < |lanes| ==> lanes[k].id == k
    ensures forall k :: 0 <= k < |lanes'| ==> lanes'[k].id == k
    ensures laneIndex < |lanes'|
    ensures Seating(FilledUpTo(lanes'), laneIndex) == Seat(FilledUpTo(lanes), frag)
  {
    var end := frag.start + frag.duration;
    var found := FirstFit(FilledUpTo(lanes), frag.start);
    if found.None? {
      laneIndex := |lanes|;
      lanes' := lanes + [Lane(|lanes|, end)];
    } else {
      laneIndex := found.value;
      lanes' := lanes[laneIndex := lanes[laneIndex].(filledUpTo := end)];
    }
    assert FilledUpTo(lanes') == Seat(FilledUpTo(lanes), frag).lanes;
  }

  /** The state of `calculateLanes` after the first `n` sorted leaves are seated. */
  ghost predicate LeavesSeated(sorted: seq<Positioned>, n: nat, lanes: seq<Lane>, assignments: seq<LaneAssignment>, laneOf: seq<nat>)
    requires n <= |sorted|
  {
    && (forall k :: 0 <= k < |lanes| ==> lanes[k].id == k)
    && PackPrefix(sorted, n) == Layout(FilledUpTo(lanes), laneOf)
    && |assignments| == n
    && forall i :: 0 <= i < n ==> assignments[i] == LaneAssignment(sorted[i], [laneOf[i]])
  }

  /** Before the leaf loop starts, no lanes and no assignments are the packing of no fragments. */
  lemma NothingSeated(sorted: seq<Positioned>)
    ensures LeavesSeated(sorted, 0, [], [], [])
  {
    assert FilledUpTo([]) == [];
  }

  /** One turn of the leaf loop of `calculateLanes`: seats `sorted[n]` and records its lane's identity. */
  method SeatLeaf(sorted: seq<Positioned>, n: nat, lanes: seq<Lane>, assignments: seq<LaneAssignment>, ghost laneOf: seq<nat>)
    returns (lanes': seq<Lane>, assignments': seq<LaneAssignment>, ghost laneOf': seq<nat>)
    requires n < |sorted| && LeavesSeated(sorted, n, lanes, assignments, laneOf)
    ensures LeavesSeated(sorted, n + 1, lanes', assignments', laneOf')
  {
    var frag := sorted[n];
    var laneIndex;
    lanes', laneIndex := SeatInLanes(lanes, frag);
    assignments' := assignments + [LaneAssignment(frag, [lanes'[laneIndex].id])];
    laneOf' := laneOf + [laneIndex];
  }

  /** Once every sorted leaf is seated, the lane records and assignments are `Pack`'s layout. */
  lemma LeavesSeatedFollowPack(sorted: seq<Positioned>, lanes: seq<Lane>, assignments: seq<LaneAssignment>, laneOf: seq<nat>)
    requires LeavesSeated(sorted, |sorted|, lanes, assignments, laneOf)
    ensures FilledUpTo(lanes) == Pack(sorted).lanes
    ensures |assignments| == |sorted|
    ensures forall i :: 0 <= i < |sorted| ==>
      assignments[i].fragment == sorted[i] && assignments[i].laneIds == [Pack(sorted).laneOf[i]]
  {
    assert Pack(sorted) == Layout(FilledUpTo(lanes), laneOf);
  }

  /**
   * `calculateLanes` on fragments that are all leaves: the same seating as
   * `SimplyCalculateLanes`, with each lane a record whose identity is its
   * index and each assignment naming its single lane by that identity.
   */
  method CalculateLanes(fragments: seq<Positioned>) returns (lanes: seq<Lane>, assignments: seq<LaneAssignment>)
    ensures forall k :: 0 <= k < |lanes| ==> lanes[k].id == k
    ensures var sorted := SortByStart(fragments);
      && FilledUpTo(lanes) == Pack(sorted).lanes
      && |assignments| == |sorted|
      && forall i :: 0 <= i < |sorted| ==>
           assignments[i].fragment == sorted[i] && assignments[i].laneIds == [Pack(sorted).laneOf[i]]
  {
    var sorted := SortByStart(fragments);
    lanes, assignments := [], [];
    ghost var laneOf: seq<nat> := [];
    NothingSeated(sorted);
    var n := 0;
    while n < |sorted|
      invariant 0 <= n <= |sorted|
      invariant LeavesSeated(sorted, n, lanes, assignments, laneOf)
    {
      lanes, assignments, laneOf := SeatLeaf(sorted, n, lanes, assignments, laneOf);
      n := n + 1;
    }
    LeavesSeatedFollowPack(sorted, lanes, assignments, laneOf);
  }
}
