/**
 Maximal segments of a timeline.

 A timeline gives the state of a host at every second. A description of it over a window is a
 list of segments that tile the window, never repeat a neighbour's state, and agree with the
 timeline at every second.
 */
module Segments {

  datatype State = Online | Offline | Unknown

  /** The state at a second, and whether it is only reconstructed. */
  type Timeline = int -> (State, bool)

  datatype Segment = Segment(lo: int, hi: int, state: State, approx: bool)

  datatype Totals = Totals(online: int, offline: int, unknown: int)

  /** `segs` cut `[lo, hi)` into consecutive non-empty pieces. */
  ghost predicate Tiles(segs: seq<Segment>, lo: int, hi: int) {
    && (segs == [] ==> lo == hi)
    && (segs != [] ==> segs[0].lo == lo && segs[|segs| - 1].hi == hi)
    && (forall i :: 0 <= i < |segs| ==> segs[i].lo < segs[i].hi)
    && (forall i, j :: 0 <= i < j < |segs| && j == i + 1 ==> segs[i].hi == segs[j].lo)
  }

  /** Neighbouring segments differ, so every segment is as long as it can be. */
  ghost predicate Merged(segs: seq<Segment>) {
    forall i, j :: 0 <= i < j < |segs| && j == i + 1 ==>
      segs[i].state != segs[j].state || segs[i].approx != segs[j].approx
  }

  ghost predicate Faithful(f: Timeline, segs: seq<Segment>) {
    forall i, t :: 0 <= i < |segs| && segs[i].lo <= t < segs[i].hi ==>
      f(t) == (segs[i].state, segs[i].approx)
  }

  /** `segs` are the maximal runs of constant state over `[lo, hi)`. */
  ghost predicate Describes(f: Timeline, segs: seq<Segment>, lo: int, hi: int) {
    Tiles(segs, lo, hi) && Merged(segs) && Faithful(f, segs)
  }

  /** The number of seconds of `[lo, hi)` spent in `state`, by the pointwise definition. */
  ghost function SecondsIn(f: Timeline, state: State, lo: int, hi: int): nat
    decreases hi - lo
  {
    if hi <= lo then 0
    else SecondsIn(f, state, lo, hi - 1) + (if f(hi - 1).0 == state then 1 else 0)
  }

  ghost predicate Adds(f: Timeline, totals: Totals, lo: int, hi: int) {
    && totals.online == SecondsIn(f, Online, lo, hi)
    && totals.offline == SecondsIn(f, Offline, lo, hi)
    && totals.unknown == SecondsIn(f, Unknown, lo, hi)
  }

  lemma {:induction false} SecondsAppend(f: Timeline, state: State, lo: int, a: int, b: int)
    requires lo <= a <= b
    requires forall t :: a <= t < b ==> f(t) == f(a)
    ensures SecondsIn(f, state, lo, b)
         == SecondsIn(f, state, lo, a) + (if a < b && f(a).0 == state then b - a else 0)
    decreases b - a
  {
    if a < b {
      SecondsAppend(f, state, lo, a, b - 1);
    }
  }

  /** Every second of the window has exactly one of the three states. */
  lemma {:induction false} SecondsPartition(f: Timeline, lo: int, hi: int)
    requires lo <= hi
    ensures SecondsIn(f, Online, lo, hi) + SecondsIn(f, Offline, lo, hi) + SecondsIn(f, Unknown, lo, hi) == hi - lo
    decreases hi - lo
  {
    if lo < hi {
      SecondsPartition(f, lo, hi - 1);
    }
  }

  function AddTo(totals: Totals, state: State, secs: int): Totals {
    match state
    case Online => totals.(online := totals.online + secs)
    case Offline => totals.(offline := totals.offline + secs)
    case Unknown => totals.(unknown := totals.unknown + secs)
  }

  /** What one iteration of the merge loop makes of `merged`. */
  ghost function Extend(merged: seq<Segment>, a: int, b: int, state: State, approx: bool): seq<Segment> {
    if merged != [] && merged[|merged| - 1].state == state && merged[|merged| - 1].approx == approx then
      merged[|merged| - 1 := merged[|merged| - 1].(hi := b)]
    else
      merged + [Segment(a, b, state, approx)]
  }

  lemma ExtendDescribes(f: Timeline, merged: seq<Segment>, lo: int, a: int, b: int, state: State, approx: bool)
    requires Describes(f, merged, lo, a) && a < b
    requires forall t :: a <= t < b ==> f(t) == (state, approx)
    ensures Describes(f, Extend(merged, a, b, state, approx), lo, b)
  {
    ExtendTiles(merged, lo, a, b, state, approx);
    ExtendMerged(merged, a, b, state, approx);
    ExtendFaithful(f, merged, lo, a, b, state, approx);
  }

  lemma ExtendTiles(merged: seq<Segment>, lo: int, a: int, b: int, state: State, approx: bool)
    requires Tiles(merged, lo, a) && a < b
    ensures Tiles(Extend(merged, a, b, state, approx), lo, b)
  {
  }

  lemma ExtendMerged(merged: seq<Segment>, a: int, b: int, state: State, approx: bool)
    requires Merged(merged)
    ensures Merged(Extend(merged, a, b, state, approx))
  {
  }

  lemma ExtendFaithful(f: Timeline, merged: seq<Segment>, lo: int, a: int, b: int, state: State, approx: bool)
    requires Tiles(merged, lo, a) && Faithful(f, merged)
    requires forall t :: a <= t < b ==> f(t) == (state, approx)
    ensures Faithful(f, Extend(merged, a, b, state, approx))
  {
  }

  lemma ExtendAdds(f: Timeline, totals: Totals, lo: int, a: int, b: int, state: State, approx: bool)
    requires lo <= a < b && Adds(f, totals, lo, a)
    requires forall t :: a <= t < b ==> f(t) == (state, approx)
    ensures Adds(f, AddTo(totals, state, b - a), lo, b)
  {
    SecondsAppend(f, Online, lo, a, b);
    SecondsAppend(f, Offline, lo, a, b);
    SecondsAppend(f, Unknown, lo, a, b);
  }

  ghost function TotalLength(segs: seq<Segment>, state: State): int {
    if segs == [] then 0
    else
      var last := segs[|segs| - 1];
      TotalLength(segs[..|segs| - 1], state) + (if last.state == state then last.hi - last.lo else 0)
  }

  /** The seconds counted in a state are the summed lengths of its segments. */
  lemma {:induction false} SecondsAreLengths(f: Timeline, segs: seq<Segment>, lo: int, hi: int, state: State)
    requires Tiles(segs, lo, hi) && Faithful(f, segs)
    ensures lo <= hi
    ensures SecondsIn(f, state, lo, hi) == TotalLength(segs, state)
  {
    if segs != [] {
      var init, last := segs[..|segs| - 1], segs[|segs| - 1];
      assert Tiles(init, lo, last.lo) && Faithful(f, init);
      SecondsAreLengths(f, init, lo, last.lo, state);
      assert f(last.lo) == (last.state, last.approx);
      SecondsAppend(f, state, lo, last.lo, last.hi);
    }
  }

  lemma {:induction false} TilesOrdered(segs: seq<Segment>, lo: int, hi: int, i: nat, j: nat)
    requires Tiles(segs, lo, hi) && i < j < |segs|
    ensures segs[i].hi <= segs[j].lo
    decreases j
  {
    if i + 1 < j {
      TilesOrdered(segs, lo, hi, i, j - 1);
    }
  }

  lemma {:induction false} TilesContain(segs: seq<Segment>, lo: int, hi: int, t: int) returns (i: nat)
    requires Tiles(segs, lo, hi) && lo <= t < hi
    ensures i < |segs| && segs[i].lo <= t < segs[i].hi
  {
    if segs[|segs| - 1].lo <= t {
      i := |segs| - 1;
    } else {
      var init := segs[..|segs| - 1];
      i := TilesContain(init, lo, segs[|segs| - 1].lo, t);
    }
  }

  /** Each second of the window lies in exactly one segment, and that segment names its state. */
  lemma {:induction false} ExactlyOneSegment(f: Timeline, segs: seq<Segment>, lo: int, hi: int, t: int)
    requires Describes(f, segs, lo, hi) && lo <= t < hi
    ensures exists i :: 0 <= i < |segs| && segs[i].lo <= t < segs[i].hi
                     && f(t) == (segs[i].state, segs[i].approx)
    ensures forall i, j | 0 <= i < |segs| && 0 <= j < |segs| ::
      segs[i].lo <= t < segs[i].hi && segs[j].lo <= t < segs[j].hi ==> i == j
  {
    var k := TilesContain(segs, lo, hi, t);
    forall i, j | 0 <= i < j < |segs|
      ensures segs[i].hi <= segs[j].lo
    {
      TilesOrdered(segs, lo, hi, i, j);
    }
  }

  lemma DropLast(f: Timeline, segs: seq<Segment>, lo: int, hi: int)
    requires Describes(f, segs, lo, hi) && segs != []
    ensures Describes(f, segs[..|segs| - 1], lo, segs[|segs| - 1].lo)
    ensures segs[|segs| - 1].hi == hi && lo <= segs[|segs| - 1].lo < hi
    ensures f(hi - 1) == (segs[|segs| - 1].state, segs[|segs| - 1].approx)
  {
    TilesStart(segs, lo, hi);
  }

  /** The state of the host at every second determines the segments. */
  lemma {:induction false} DescriptionUnique(f: Timeline, g: Timeline, a: seq<Segment>, b: seq<Segment>,
                                             lo: int, hi: int)
    requires Describes(f, a, lo, hi) && Describes(g, b, lo, hi)
    requires forall t :: lo <= t < hi ==> f(t) == g(t)
    ensures a == b
  {
    EmptyTiles(a, lo, hi);
    EmptyTiles(b, lo, hi);
    if a != [] {
      DropLast(f, a, lo, hi);
      DropLast(g, b, lo, hi);
      LastSegmentLongest(f, g, a, b, lo, hi);
      LastSegmentLongest(g, f, b, a, lo, hi);
      DescriptionUnique(f, g, a[..|a| - 1], b[..|b| - 1], lo, a[|a| - 1].lo);
      assert a == a[..|a| - 1] + [a[|a| - 1]] && b == b[..|b| - 1] + [b[|b| - 1]];
    }
  }

  lemma EmptyTiles(segs: seq<Segment>, lo: int, hi: int)
    requires Tiles(segs, lo, hi)
    ensures segs == [] <==> lo == hi
  {
    if segs != [] {
      TilesStart(segs, lo, hi);
    }
  }

  lemma TilesStart(segs: seq<Segment>, lo: int, hi: int)
    requires Tiles(segs, lo, hi) && segs != []
    ensures lo <= segs[|segs| - 1].lo
  {
    if |segs| > 1 {
      TilesOrdered(segs, lo, hi, 0, |segs| - 1);
    }
  }

  lemma LastSegmentLongest(f: Timeline, g: Timeline, a: seq<Segment>, b: seq<Segment>, lo: int, hi: int)
    requires Describes(f, a, lo, hi) && Describes(g, b, lo, hi) && a != [] && b != []
    requires forall t :: lo <= t < hi ==> f(t) == g(t)
    ensures a[|a| - 1].lo <= b[|b| - 1].lo
  {
    var x, y := a[|a| - 1], b[|b| - 1];
    TilesStart(b, lo, hi);
    LastStartChanges(f, a, lo, hi);
    assert y.lo < x.lo ==> g(x.lo - 1) == g(x.lo);
  }

  lemma LastStartChanges(f: Timeline, a: seq<Segment>, lo: int, hi: int)
    requires Describes(f, a, lo, hi) && a != []
    ensures a[|a| - 1].lo == lo || (lo < a[|a| - 1].lo && f(a[|a| - 1].lo - 1) != f(a[|a| - 1].lo))
  {
    TilesStart(a, lo, hi);
    if |a| > 1 {
      var prev, x := a[|a| - 2], a[|a| - 1];
      assert prev.hi == x.lo;
      assert f(x.lo - 1) == (prev.state, prev.approx) && f(x.lo) == (x.state, x.approx);
    }
  }
}
