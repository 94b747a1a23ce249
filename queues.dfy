/**
 * A backtrackable, append-only event trail (`ObsTrail`) with save points, and read cursors
 * (`ObsTrailCursor`) that follow the trail and are rewound when it backtracks.
 */
module Queues {
  import opened Wrappers

  /** Where the last backtrack left the trail, and its sequence number. */
  datatype LastBacktrack = LastBacktrack(nextRead: nat, id: nat)

  /** The location of an event: the decision level it belongs to and its index. */
  datatype TrailLoc = TrailLoc(decisionLevel: nat, eventIndex: nat)

  datatype TrailEvent<V> = TrailEvent(loc: TrailLoc, event: V)

  datatype Ordering = Less | Equal | Greater

  /** `Ord for TrailLoc`: locations are compared, and equal, by event index alone. */
  function CompareLoc(a: TrailLoc, b: TrailLoc): Ordering
  {
    if a.eventIndex < b.eventIndex then Less
    else if a.eventIndex == b.eventIndex then Equal
    else Greater
  }

  /** `PartialEq for TrailLoc`. */
  predicate LocEq(a: TrailLoc, b: TrailLoc) { a.eventIndex == b.eventIndex }

  /** `s` from its last element to its first. */
  function Reversed<V>(s: seq<V>): (r: seq<V>)
    ensures |r| == |s|
  {
    if s == [] then [] else Reversed(s[1..]) + [s[0]]
  }

  predicate NonDecreasing(s: seq<nat>)
  {
    forall i, j :: 0 <= i < j < |s| ==> s[i] <= s[j]
  }

  /** The number of backtrack points at or before index `i`: the decision level of the event at `i`. */
  function TrueLevel(points: seq<nat>, i: nat): (d: nat)
    ensures d <= |points|
  {
    if points == [] then 0
    else TrueLevel(points[..|points| - 1], i) + (if points[|points| - 1] <= i then 1 else 0)
  }

  /** One step of the backward scan of `last_event_matching`, after looking at event `index`. */
  function ScanStep(points: seq<nat>, level: nat, index: nat): nat
    requires level <= |points|
  {
    if level > 0 && points[level - 1] == index then level - 1 else level
  }

  /** The decision level that the scan of `last_event_matching` reports for event `j` of a trail of `n` events. */
  function ScanLevel(points: seq<nat>, n: nat, j: nat): (d: nat)
    requires j < n
    ensures d <= |points|
    decreases n - j
  {
    if j + 1 == n then |points| else ScanStep(points, ScanLevel(points, n, j + 1), j + 1)
  }

  /** The level with the scan corrected to leave every backtrack point above `index` (see ## Findings). */
  function CorrectedLevelStep(points: seq<nat>, level: nat, index: nat): (d: nat)
    requires level <= |points|
    ensures d <= level
    decreases level
  {
    if level > 0 && points[level - 1] > index then CorrectedLevelStep(points, level - 1, index) else level
  }

  function NextBacktrackId(last: Option<LastBacktrack>): nat
  {
    match last
    case None => 0
    case Some(bt) => bt.id + 1
  }

  /** The level of the scan before event `j` is one step on from its level at `j + 1`. */
  lemma ScanLevelStep(points: seq<nat>, n: nat, j: nat)
    requires j + 1 < n
    ensures ScanLevel(points, n, j) == ScanStep(points, ScanLevel(points, n, j + 1), j + 1)
  {
  }

  /** A scan stopped at `index` by `keepGoing`, with no match above it, reports every match as beyond a stop. */
  lemma StoppedAt<V>(events: seq<V>, pred: V -> bool, keepGoing: (nat, nat) -> bool, points: seq<nat>, index: nat)
    requires index < |events|
    requires !keepGoing(ScanLevel(points, |events|, index), index)
    requires forall j :: index < j < |events| ==> !pred(events[j])
    ensures forall k :: 0 <= k < |events| && pred(events[k]) ==>
      exists j :: k <= j < |events| && !keepGoing(ScanLevel(points, |events|, j), j)
  {
    forall k | 0 <= k < |events| && pred(events[k])
      ensures exists j :: k <= j < |events| && !keepGoing(ScanLevel(points, |events|, j), j)
    {
      assert k <= index;
    }
  }

  class ObsTrail<V> {
    /** An identifier that cursors check; the source draws it from a heap address. */
    const id: nat
    var events: seq<V>
    var backtrackPoints: seq<nat>
    var lastBacktrack: Option<LastBacktrack>

    /** Save points are in chronological order and within the trail. */
    ghost predicate Valid()
      reads this
    {
      NonDecreasing(backtrackPoints) && forall k :: 0 <= k < |backtrackPoints| ==> backtrackPoints[k] <= |events|
    }

    constructor (id: nat)
      ensures Valid() && this.id == id
      ensures events == [] && backtrackPoints == [] && lastBacktrack == None
    {
      this.id := id;
      events := [];
      backtrackPoints := [];
      lastBacktrack := None;
    }

    function Len(): nat
      reads this
    {
      |events|
    }

    function CurrentDecisionLevel(): nat
      reads this
    {
      |backtrackPoints|
    }

    function NumSaved(): nat
      reads this
    {
      |backtrackPoints|
    }

    /** The location the next pushed event will have (its level is exact, see `NextSlotLevel`). */
    function NextSlot(): TrailLoc
      reads this
    {
      TrailLoc(|backtrackPoints|, |events|)
    }

    function Peek(): (r: Option<V>)
      reads this
    {
      if events == [] then None else Some(events[|events| - 1])
    }

    method Push(value: V)
      modifies this
      ensures events == old(events) + [value]
      ensures backtrackPoints == old(backtrackPoints) && lastBacktrack == old(lastBacktrack)
      ensures old(Valid()) ==> Valid()
    {
      events := events + [value];
    }

    method Pop() returns (r: Option<V>)
      modifies this
      ensures old(events) == [] ==> r == None && events == []
      ensures old(events) != [] ==> r == Some(old(events)[|old(events)| - 1]) && events + [r.value] == old(events)
      ensures backtrackPoints == old(backtrackPoints) && lastBacktrack == old(lastBacktrack)
    {
      if events == [] {
        r := None;
      } else {
        r := Some(events[|events| - 1]);
        events := events[..|events| - 1];
      }
    }

    method Append(values: seq<V>)
      modifies this
      ensures events == old(events) + values
      ensures backtrackPoints == old(backtrackPoints) && lastBacktrack == old(lastBacktrack)
      ensures old(Valid()) ==> Valid()
    {
      events := events + values;
    }

    /** A new cursor bound to this trail, at its start. */
    method Reader() returns (c: ObsTrailCursor<V>)
      ensures fresh(c)
      ensures c.queueId == Some(id) && c.nextRead == 0 && c.lastBacktrack == None
    {
      c := new ObsTrailCursor();
      c.queueId := Some(id);
    }

    /** Records the current number of events as a backtrack point; returns its index. */
    method SaveState() returns (saved: nat)
      modifies this
      ensures backtrackPoints == old(backtrackPoints) + [|events|]
      ensures saved == NumSaved() - 1 == |old(backtrackPoints)|
      ensures events == old(events) && lastBacktrack == old(lastBacktrack)
      ensures old(Valid()) ==> Valid()
    {
      backtrackPoints := backtrackPoints + [|events|];
      saved := |backtrackPoints| - 1;
    }

    /**
     * Removes the events pushed since the last save point, returning them in the order they are
     * handed to the callback (newest first), and records the backtrack. Panics without a save point.
     */
    method BacktrackWithCallback() returns (undone: seq<V>)
      requires |backtrackPoints| > 0
      modifies this
      ensures var after := old(backtrackPoints)[|old(backtrackPoints)| - 1];
        && backtrackPoints == old(backtrackPoints)[..|old(backtrackPoints)| - 1]
        && (after <= |old(events)| ==> events == old(events)[..after] && undone == Reversed(old(events)[after..]))
        && (after > |old(events)| ==> events == old(events) && undone == [])
        && lastBacktrack == Some(LastBacktrack(after, NextBacktrackId(old(lastBacktrack))))
      ensures old(Valid()) ==> Valid()
    {
      var afterLast := backtrackPoints[|backtrackPoints| - 1];
      backtrackPoints := backtrackPoints[..|backtrackPoints| - 1];
      undone := [];
      while afterLast < |events|
        invariant backtrackPoints == old(backtrackPoints)[..|old(backtrackPoints)| - 1]
        invariant lastBacktrack == old(lastBacktrack)
        invariant |events| <= |old(events)| && events == old(events)[..|events|]
        invariant afterLast <= |old(events)| ==> afterLast <= |events|
        invariant afterLast > |old(events)| ==> events == old(events)
        invariant undone == Reversed(old(events)[|events|..])
        decreases |events|
      {
        var ev := events[|events| - 1];
        assert old(events)[|events| - 1..][1..] == old(events)[|events|..];
        events := events[..|events| - 1];
        undone := undone + [ev];
      }
      lastBacktrack := Some(LastBacktrack(afterLast, NextBacktrackId(lastBacktrack)));
    }

    /** `restore_last`: backtracks to the last save point, discarding the undone events. */
    method RestoreLast()
      requires |backtrackPoints| > 0
      modifies this
      ensures var after := old(backtrackPoints)[|old(backtrackPoints)| - 1];
        && backtrackPoints == old(backtrackPoints)[..|old(backtrackPoints)| - 1]
        && events == old(events)[..if after <= |old(events)| then after else |old(events)|]
        && lastBacktrack == Some(LastBacktrack(after, NextBacktrackId(old(lastBacktrack))))
      ensures old(Valid()) ==> Valid()
    {
      var _ := BacktrackWithCallback();
    }

    /**
     * `last_event_matching`: scans the events backwards for the latest one satisfying `pred`,
     * stopping (with `None`) as soon as `keepGoing(level, index)` is false. The level reported
     * is the one the scan tracks, `ScanLevel`.
     */
    method LastEventMatching(pred: V -> bool, keepGoing: (nat, nat) -> bool) returns (r: Option<TrailEvent<V>>)
      ensures r.Some? ==>
        var k := r.value.loc.eventIndex;
        && k < |events| && r.value.event == events[k] && pred(events[k])
        && r.value.loc.decisionLevel == ScanLevel(backtrackPoints, |events|, k)
        && (forall j :: k < j < |events| ==> !pred(events[j]))
        && (forall j :: k <= j < |events| ==> keepGoing(ScanLevel(backtrackPoints, |events|, j), j))
      ensures r.None? ==>
        forall k :: 0 <= k < |events| && pred(events[k]) ==>
          exists j :: k <= j < |events| && !keepGoing(ScanLevel(backtrackPoints, |events|, j), j)
    {
      var n := |events|;
      var level := |backtrackPoints|;
      var i := n;
      while i > 0
        invariant 0 <= i <= n && level <= |backtrackPoints|
        invariant i > 0 ==> level == ScanLevel(backtrackPoints, n, i - 1)
        invariant forall j :: i <= j < n ==> !pred(events[j])
        invariant forall j :: i <= j < n ==> keepGoing(ScanLevel(backtrackPoints, n, j), j)
      {
        var index := i - 1;
        if !keepGoing(level, index) {
          StoppedAt(events, pred, keepGoing, backtrackPoints, index);
          return None;
        }
        if pred(events[index]) {
          return Some(TrailEvent(TrailLoc(level, index), events[index]));
        }
        if index > 0 {
          ScanLevelStep(backtrackPoints, n, index - 1);
        }
        if level > 0 && backtrackPoints[level - 1] == index {
          level := level - 1;
        }
        i := index;
      }
      return None;
    }

    /**
     * The same scan with the decision level kept exact: before looking at an event it leaves
     * every backtrack point above that event, so that empty decision levels are skipped.
     */
    method LastEventMatchingCorrected(pred: V -> bool, keepGoing: (nat, nat) -> bool) returns (r: Option<TrailEvent<V>>)
      requires Valid()
      ensures r.Some? ==>
        var k := r.value.loc.eventIndex;
        && k < |events| && r.value.event == events[k] && pred(events[k])
        && r.value.loc.decisionLevel == TrueLevel(backtrackPoints, k)
        && (forall j :: k < j < |events| ==> !pred(events[j]))
        && (forall j :: k <= j < |events| ==> keepGoing(TrueLevel(backtrackPoints, j), j))
      ensures r.None? ==>
        forall k :: 0 <= k < |events| && pred(events[k]) ==>
          exists j :: k <= j < |events| && !keepGoing(TrueLevel(backtrackPoints, j), j)
    {
      var n := |events|;
      var level: nat := |backtrackPoints|;
      var i := n;
      while i > 0
        invariant 0 <= i <= n && level <= |backtrackPoints|
        invariant level == |backtrackPoints| || backtrackPoints[level] >= i
        invariant forall j :: i <= j < n ==> !pred(events[j]) && keepGoing(TrueLevel(backtrackPoints, j), j)
      {
        var index := i - 1;
        while level > 0 && backtrackPoints[level - 1] > index
          invariant level <= |backtrackPoints|
          invariant level == |backtrackPoints| || backtrackPoints[level] > index
        {
          level := level - 1;
        }
        LevelCharacterised(backtrackPoints, index, level);
        if !keepGoing(level, index) {
          return None;
        }
        if pred(events[index]) {
          return Some(TrailEvent(TrailLoc(level, index), events[index]));
        }
        i := index;
      }
      return None;
    }
  }

  class ObsTrailCursor<V> {
    var queueId: Option<nat>
    var nextRead: nat
    var lastBacktrack: Option<nat>

    /** A cursor not yet bound to any trail. */
    constructor ()
      ensures queueId == None && nextRead == 0 && lastBacktrack == None
    {
      queueId := None;
      nextRead := 0;
      lastBacktrack := None;
    }

    /** The cursor is unbound or bound to `q` (otherwise the source's assertion fails). */
    predicate MatchesQueue(q: ObsTrail<V>)
      reads this
    {
      queueId.None? || queueId.value == q.id
    }

    /** The read position after synchronising with the last backtrack of `q`. */
    function SyncedRead(q: ObsTrail<V>): (p: nat)
      reads this, q
      ensures p <= nextRead
      ensures q.lastBacktrack.Some? && lastBacktrack != Some(q.lastBacktrack.value.id) ==>
        p == if nextRead > q.lastBacktrack.value.nextRead then q.lastBacktrack.value.nextRead else nextRead
      ensures q.lastBacktrack.None? || lastBacktrack == Some(q.lastBacktrack.value.id) ==> p == nextRead
    {
      match q.lastBacktrack
      case Some(x) =>
        if lastBacktrack != Some(x.id) && nextRead > x.nextRead then x.nextRead else nextRead
      case None => nextRead
    }

    /** Rewinds to the restore point of a backtrack it has not seen if it has read past it. */
    method SyncBacktrack(q: ObsTrail<V>)
      requires MatchesQueue(q)
      modifies this
      ensures queueId == Some(q.id)
      ensures nextRead == old(SyncedRead(q))
      ensures lastBacktrack == if q.lastBacktrack.Some? then Some(q.lastBacktrack.value.id) else old(lastBacktrack)
    {
      if queueId.None? {
        queueId := Some(q.id);
      }
      match q.lastBacktrack {
        case Some(x) =>
          if lastBacktrack != Some(x.id) {
            if nextRead > x.nextRead {
              nextRead := x.nextRead;
            }
            lastBacktrack := Some(x.id);
          }
        case None =>
      }
    }

    /** The number of events not read yet; the subtraction must not underflow. */
    method NumPending(q: ObsTrail<V>) returns (n: nat)
      requires MatchesQueue(q) && SyncedRead(q) <= |q.events|
      modifies this
      ensures n == |q.events| - nextRead && nextRead == old(SyncedRead(q))
      ensures queueId == Some(q.id)
      ensures lastBacktrack == if q.lastBacktrack.Some? then Some(q.lastBacktrack.value.id) else old(lastBacktrack)
    {
      SyncBacktrack(q);
      n := |q.events| - nextRead;
    }

    /** The next unread event, if any, after synchronising. */
    method Pop(q: ObsTrail<V>) returns (r: Option<V>)
      requires MatchesQueue(q)
      modifies this
      ensures var p := old(SyncedRead(q));
        if p < |q.events| then r == Some(q.events[p]) && nextRead == p + 1
        else r == None && nextRead == p
      ensures queueId == Some(q.id)
      ensures lastBacktrack == if q.lastBacktrack.Some? then Some(q.lastBacktrack.value.id) else old(lastBacktrack)
    {
      SyncBacktrack(q);
      var next := nextRead;
      if next < |q.events| {
        nextRead := nextRead + 1;
        r := Some(q.events[next]);
      } else {
        r := None;
      }
    }
  }

  // ---- Lemmas ----

  /** In a valid trail the next slot's level is the exact decision level of the next event. */
  lemma NextSlotLevel<V>(q: ObsTrail<V>)
    requires q.Valid()
    ensures q.NextSlot().decisionLevel == TrueLevel(q.backtrackPoints, |q.events|)
    ensures q.NextSlot().eventIndex == |q.events|
  {
    AllPointsAtOrBelow(q.backtrackPoints, |q.events|);
  }

  /** Reversal puts the last element first: the callback receives the newest event first. */
  lemma {:induction false} ReversedAt<V>(s: seq<V>, k: nat)
    requires k < |s|
    ensures Reversed(s)[k] == s[|s| - 1 - k]
  {
    if k < |s| - 1 {
      ReversedAt(s[1..], k);
    }
  }

  /** When every point is at or below `n`, the level at `n` is the number of points. */
  lemma {:induction false} AllPointsAtOrBelow(points: seq<nat>, n: nat)
    requires forall k :: 0 <= k < |points| ==> points[k] <= n
    ensures TrueLevel(points, n) == |points|
  {
    if points != [] {
      AllPointsAtOrBelow(points[..|points| - 1], n);
    }
  }

  /** Counting the points at or before `i` in a sorted list finds the boundary `d` that splits them. */
  lemma {:induction false} LevelCharacterised(points: seq<nat>, i: nat, d: nat)
    requires NonDecreasing(points) && d <= |points|
    requires d == 0 || points[d - 1] <= i
    requires d == |points| || points[d] > i
    ensures TrueLevel(points, i) == d
    decreases |points|
  {
    if points != [] {
      var init := points[..|points| - 1];
      if d == |points| {
        AllPointsAtOrBelow(init, i);
      } else {
        LevelCharacterised(init, i, d);
      }
    }
  }

  /** Decision levels never decrease along the trail, so ordering locations by index agrees with levels. */
  lemma {:induction false} TrueLevelMonotone(points: seq<nat>, i: nat, j: nat)
    requires i <= j
    ensures TrueLevel(points, i) <= TrueLevel(points, j)
    decreases |points|
  {
    if points != [] {
      TrueLevelMonotone(points[..|points| - 1], i, j);
    }
  }

  lemma CompareLocByIndex(a: TrailLoc, b: TrailLoc)
    ensures CompareLoc(a, b) == Equal <==> LocEq(a, b)
    ensures CompareLoc(a, b) == Less <==> CompareLoc(b, a) == Greater
  {
  }

  /**
   * When every decision level holds at least one event (save points strictly increasing and all
   * before the last event), the scan of `last_event_matching` reports exact decision levels.
   */
  lemma {:induction false} ScanLevelExactWithoutEmptyLevels(points: seq<nat>, n: nat, j: nat)
    requires j < n
    requires forall a, b :: 0 <= a < b < |points| ==> points[a] < points[b]
    requires forall k :: 0 <= k < |points| ==> points[k] < n
    ensures ScanLevel(points, n, j) == TrueLevel(points, j)
    decreases n - j
  {
    if j + 1 == n {
      LevelCharacterised(points, j, |points|);
    } else {
      ScanLevelExactWithoutEmptyLevels(points, n, j + 1);
      var d := TrueLevel(points, j + 1);
      assert d == 0 || points[d - 1] <= j + 1 by {
        if d > 0 && points[d - 1] > j + 1 { BoundaryOfLevel(points, j + 1); }
      }
      BoundaryOfLevel(points, j + 1);
      var e := ScanStep(points, d, j + 1);
      assert e == 0 || points[e - 1] <= j;
      assert e == |points| || points[e] > j;
      LevelCharacterised(points, j, e);
    }
  }

  /** The level `d` at index `i` splits a sorted list of points into those at or before `i` and those after. */
  lemma {:induction false} BoundaryOfLevel(points: seq<nat>, i: nat)
    requires NonDecreasing(points)
    ensures var d := TrueLevel(points, i);
      (d == 0 || points[d - 1] <= i) && (d == |points| || points[d] > i)
    decreases |points|
  {
    if points != [] {
      BoundaryOfLevel(points[..|points| - 1], i);
    }
  }

  /** An empty decision level makes the scan misreport: one event, then a save point. */
  lemma ScanMisreportsEmptyLevel()
    ensures ScanLevel([1], 1, 0) == 1 && TrueLevel([1], 0) == 0
    ensures ScanLevel([1, 1], 2, 0) == 1 && TrueLevel([1, 1], 0) == 0
  {
  }

  // ---- Scenarios of the trail's unit tests, checked against the contracts above ----

  /** The first half of `test_queues`: two readers each read the events 0, 1 and 5 to the end. */
  method ReadersAtEnd() returns (q: ObsTrail<int>, r1: ObsTrailCursor<int>, r2: ObsTrailCursor<int>)
    ensures fresh(q) && fresh(r1) && fresh(r2) && r1 != r2
    ensures q.events == [0, 1, 5] && q.lastBacktrack == None
    ensures r1.queueId == Some(q.id) && r1.nextRead == 3 && r2.queueId == Some(q.id) && r2.nextRead == 3
  {
    q := new ObsTrail<int>(0);
    q.Push(0);
    q.Push(1);
    q.Push(5);
    r1 := q.Reader();
    ReadZeroOneFive(q, r1);
    r2 := q.Reader();
    ReadZeroOneFive(q, r2);
  }

  /** A fresh reader of the trail 0, 1, 5 reads these three events, then nothing. */
  method ReadZeroOneFive(q: ObsTrail<int>, r: ObsTrailCursor<int>)
    requires q.events == [0, 1, 5] && q.lastBacktrack == None
    requires r.queueId == Some(q.id) && r.nextRead == 0
    modifies r
    ensures r.queueId == Some(q.id) && r.nextRead == 3
  {
    var x := r.Pop(q); assert x == Some(0);
    x := r.Pop(q); assert x == Some(1);
    x := r.Pop(q); assert x == Some(5);
    x := r.Pop(q); assert x == None;
  }

  /** The end of `test_queues`: after one more push, each of the two readers sees the new event once. */
  method TestQueues() returns (first1: Option<int>, first2: Option<int>, then1: Option<int>, then2: Option<int>)
    ensures first1 == Some(2) && first2 == Some(2) && then1 == None && then2 == None
  {
    var q, r1, r2 := ReadersAtEnd();
    q.Push(2);
    first1 := r1.Pop(q);
    first2 := r2.Pop(q);
    then1 := r1.Pop(q);
    then2 := r2.Pop(q);
  }

  /** The trail of `test_backtracks`: events 1, 2, a save point, then 3. */
  method BacktrackTrail() returns (q: ObsTrail<int>)
    ensures fresh(q) && q.Valid()
    ensures q.events == [1, 2, 3] && q.backtrackPoints == [2] && q.lastBacktrack == None
  {
    q := new ObsTrail<int>(0);
    q.Push(1);
    q.Push(2);
    var _ := q.SaveState();
    q.Push(3);
  }

  method TestBacktracksCursors()
  {
    var q := BacktrackTrail();
    var r1 := q.Reader();
    var r2 := q.Reader();
    var r3 := q.Reader();
    var x := r1.Pop(q); assert x == Some(1);
    x := r1.Pop(q); assert x == Some(2);
    x := r1.Pop(q); assert x == Some(3);
    x := r2.Pop(q); assert x == Some(1);
    x := r2.Pop(q); assert x == Some(2);
    x := r3.Pop(q); assert x == Some(1);
    q.RestoreLast();
    assert q.events == [1, 2] && q.lastBacktrack == Some(LastBacktrack(2, 0));
    x := r1.Pop(q); assert x == None;
    x := r2.Pop(q); assert x == None;
    x := r3.Pop(q); assert x == Some(2);
    x := r3.Pop(q); assert x == None;
  }

  method TestBacktracksNested()
  {
    var q := BacktrackTrail();
    q.RestoreLast();
    var r := q.Reader();
    var x := r.Pop(q); assert x == Some(1);
    x := r.Pop(q); assert x == Some(2);
    x := r.Pop(q); assert x == None;
    NestedSaveRestore(q);
    x := r.Pop(q); assert x == Some(5);
    x := r.Pop(q); assert x == None;
  }

  /** The middle of `test_backtracks`: two more save, push and restore rounds, with 5 pushed in between. */
  method NestedSaveRestore(q: ObsTrail<int>)
    requires q.Valid() && q.events == [1, 2] && q.backtrackPoints == [] && q.lastBacktrack == Some(LastBacktrack(2, 0))
    modifies q
    ensures q.Valid() && q.events == [1, 2, 5] && q.backtrackPoints == [] && q.lastBacktrack == Some(LastBacktrack(3, 2))
  {
    var _ := q.SaveState();
    q.Push(4);
    q.RestoreLast();
    q.Push(5);
    var _ := q.SaveState();
    q.Push(6);
    q.RestoreLast();
  }

  /** The trail of `event_lookups`: levels 0, 1 and 2 with two events each. */
  method LookupTrail() returns (q: ObsTrail<int>)
    ensures fresh(q) && q.Valid()
    ensures q.events == [1, 2, 3, 4, 5, 3] && q.backtrackPoints == [2, 4]
  {
    q := new ObsTrail<int>(0);
    q.Push(1);
    q.Push(2);
    var _ := q.SaveState();
    q.Push(3);
    q.Push(4);
    var _ := q.SaveState();
    q.Push(5);
    q.Push(3);
  }

  /** The levels the scan reports on that trail, which here are exact. */
  lemma LookupTrailLevels()
    ensures ScanLevel([2, 4], 6, 5) == 2 && ScanLevel([2, 4], 6, 4) == 2
    ensures ScanLevel([2, 4], 6, 3) == 1 && ScanLevel([2, 4], 6, 2) == 1
    ensures ScanLevel([2, 4], 6, 1) == 0 && ScanLevel([2, 4], 6, 0) == 0
  {
    assert ScanLevel([2, 4], 6, 5) == 2;
    assert ScanLevel([2, 4], 6, 4) == 2;
    assert ScanLevel([2, 4], 6, 3) == 1;
    assert ScanLevel([2, 4], 6, 2) == 1;
    assert ScanLevel([2, 4], 6, 1) == 0;
  }

  /** Looking up every level: an absent value is not found, and the first event is at level 0. */
  method EventLookupsAll()
  {
    var q := LookupTrail();
    LookupTrailLevels();
    var all := (_: nat, _: nat) => true;
    var e := q.LastEventMatching(ev => ev == 99, all);
    assert e == None;
    e := q.LastEventMatching(ev => ev == 1, all);
    assert e.value.loc == TrailLoc(0, 0) by { assert q.events[0] == 1; }
  }

  /** Looking up every level: the latest of two equal events is found, each at its own level. */
  method EventLookupsAllLater()
  {
    var q := LookupTrail();
    LookupTrailLevels();
    var all := (_: nat, _: nat) => true;
    var e := q.LastEventMatching(ev => ev == 3, all);
    assert e.value.loc == TrailLoc(2, 5) by { assert q.events[5] == 3; }
    e := q.LastEventMatching(ev => ev == 4, all);
    assert e.value.loc == TrailLoc(1, 3) by { assert q.events[3] == 4; }
  }

  /** Looking up the last level only: an event below it is not found. */
  method EventLookupsLastLevel()
  {
    var q := LookupTrail();
    LookupTrailLevels();
    var top := q.CurrentDecisionLevel();
    var lastLevel := (dl: nat, _: nat) => dl >= top;
    var e := q.LastEventMatching(ev => ev == 2, lastLevel);
    assert e == None by { assert !lastLevel(ScanLevel(q.backtrackPoints, 6, 3), 3); }
    e := q.LastEventMatching(ev => ev == 5, lastLevel);
    assert e.value.loc == TrailLoc(2, 4) by { assert q.events[4] == 5; }
  }

  /** One event, then a save point with nothing after it. */
  method EmptyLevelTrail() returns (q: ObsTrail<int>)
    ensures fresh(q) && q.Valid() && q.events == [1] && q.backtrackPoints == [1]
  {
    q := new ObsTrail<int>(0);
    q.Push(1);
    var _ := q.SaveState();
  }

  /** The scan reports the event at level 1, although it was pushed at level 0. */
  method EmptyLevelLookup()
  {
    var q := EmptyLevelTrail();
    var all := (_: nat, _: nat) => true;
    assert q.events[0] == 1;
    var e := q.LastEventMatching(ev => ev == 1, all);
    assert e.Some? && e.value.loc.eventIndex == 0;
    assert ScanLevel(q.backtrackPoints, 1, 0) == 1;
    assert e.value.loc == TrailLoc(1, 0);
  }

  /** On the same trail the corrected scan reports level 0. */
  method EmptyLevelLookupCorrected()
  {
    var q := EmptyLevelTrail();
    var all := (_: nat, _: nat) => true;
    assert q.events[0] == 1;
    var c := q.LastEventMatchingCorrected(ev => ev == 1, all);
    assert c.Some? && c.value.loc.eventIndex == 0;
    assert TrueLevel(q.backtrackPoints, 0) == 0;
    assert c.value.loc == TrailLoc(0, 0);
  }
}
