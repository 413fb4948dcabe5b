/**
 Fixed-width cells over a window, for a compact chart.

 The source divides the window into `n` cells of a fractional width. Here every offset from the
 window start is multiplied by `n`, so cell `i` is `[i * width, (i + 1) * width)` with `width`
 the length of the window, and all arithmetic is exact.
 */
module Buckets {
  import opened Numbers
  import opened Segments

  /** The online share `online / known` of the known time in a cell. */
  datatype Cell = NoData | Share(online: int, known: int)

  /** The length of `[s, e)` inside `[a, b)`. */
  function Overlap(s: int, e: int, a: int, b: int): nat {
    Max(0, Min(e, b) - Max(s, a))
  }

  /** Which states a sum runs over: `Offline` and `Online`, or `Online` alone. */
  predicate Counted(state: State, onlineOnly: bool) {
    state == Online || (state == Offline && !onlineOnly)
  }

  /** The scaled length inside `[a, b)` that one segment contributes. */
  ghost function Part(seg: Segment, base: int, n: int, onlineOnly: bool, a: int, b: int): nat {
    if Counted(seg.state, onlineOnly) then Overlap((seg.lo - base) * n, (seg.hi - base) * n, a, b) else 0
  }

  /** The scaled length of the counted segments inside `[a, b)`. */
  ghost function Time(segs: seq<Segment>, base: int, n: int, onlineOnly: bool, a: int, b: int): nat {
    if segs == [] then 0
    else
      Time(segs[..|segs| - 1], base, n, onlineOnly, a, b) + Part(segs[|segs| - 1], base, n, onlineOnly, a, b)
  }

  ghost function CellAt(segs: seq<Segment>, base: int, n: int, a: int, b: int): Cell {
    var known := Time(segs, base, n, false, a, b);
    if known > 0 then Share(Time(segs, base, n, true, a, b), known) else NoData
  }

  /** The parts of one segment, cell by cell, for `n` cells of scaled width `w`. */
  ghost function Parts(seg: Segment, base: int, n: nat, onlineOnly: bool, w: int): (r: seq<nat>)
    ensures |r| == n
    ensures forall i :: 0 <= i < n ==> r[i] == Part(seg, base, n, onlineOnly, i * w, (i + 1) * w)
  {
    seq(n, i requires 0 <= i < n => Part(seg, base, n, onlineOnly, i * w, (i + 1) * w))
  }

  lemma CellsBefore(s: int, w: int, i: int)
    requires w > 0 && 0 <= i < Max(0, s / w)
    ensures (i + 1) * w <= s
  {
  }

  lemma CellsAfter(e: int, w: int, i: int)
    requires w > 0 && i > (e - 1) / w
    ensures e <= i * w
  {
    MulMonotone((e - 1) / w + 1, i, w);
    assert ((e - 1) / w + 1) * w == (e - 1) / w * w + w;
  }

  lemma MulMonotone(a: int, b: int, w: int)
    requires a <= b && w > 0
    ensures a * w <= b * w
  {
  }

  /** The summed parts of a list of segments, cell by cell. */
  ghost function Times(segs: seq<Segment>, base: int, n: nat, onlineOnly: bool, w: int): (r: seq<nat>)
    ensures |r| == n
    ensures forall i :: 0 <= i < n ==> r[i] == Time(segs, base, n, onlineOnly, i * w, (i + 1) * w)
  {
    seq(n, i requires 0 <= i < n => Time(segs, base, n, onlineOnly, i * w, (i + 1) * w))
  }

  lemma TimesPrefix(segs: seq<Segment>, k: nat, base: int, n: nat, onlineOnly: bool, w: int)
    requires k < |segs|
    ensures forall i :: 0 <= i < n ==>
      Times(segs[..k + 1], base, n, onlineOnly, w)[i]
      == Times(segs[..k], base, n, onlineOnly, w)[i] + Parts(segs[k], base, n, onlineOnly, w)[i]
  {
    assert segs[..k + 1][..k] == segs[..k];
  }

  /** The cells a segment's range skips all lie before it or after it. */
  lemma CellMissed(s: int, e: int, w: int, n: nat, i: nat)
    requires w > 0 && i < n
    requires e <= 0 || s >= w * n || i < Max(0, s / w) || Min(n - 1, (e - 1) / w) < i
    ensures e <= i * w || (i + 1) * w <= s
  {
    if e <= 0 {
      MulMonotone(0, i, w);
    } else if s >= w * n {
      MulMonotone(i + 1, n, w);
    } else if i < Max(0, s / w) {
      CellsBefore(s, w, i);
    } else {
      CellsAfter(e, w, i);
    }
  }

  lemma MissedIsEmpty(seg: Segment, base: int, n: nat, a: int, b: int)
    requires (seg.hi - base) * n <= a || b <= (seg.lo - base) * n
    ensures Part(seg, base, n, false, a, b) == 0
  {
  }

  /** Outside `[first, last]` a segment reaches no cell. */
  lemma UnreachedCells(seg: Segment, base: int, n: nat, w: int)
    requires w > 0 && n > 0
    ensures
      var s, e := (seg.lo - base) * n, (seg.hi - base) * n;
      var parts := Parts(seg, base, n, false, w);
      if e <= 0 || s >= w * n then forall i :: 0 <= i < n ==> parts[i] == 0
      else forall i :: 0 <= i < n && (i < Max(0, s / w) || Min(n - 1, (e - 1) / w) < i) ==> parts[i] == 0
  {
    var s, e := (seg.lo - base) * n, (seg.hi - base) * n;
    var parts := Parts(seg, base, n, false, w);
    forall i | 0 <= i < n && (e <= 0 || s >= w * n || i < Max(0, s / w) || Min(n - 1, (e - 1) / w) < i)
      ensures parts[i] == 0
    {
      CellMissed(s, e, w, n, i);
      MissedIsEmpty(seg, base, n, i * w, (i + 1) * w);
    }
  }

  /** Adds one counted segment to every cell it reaches. */
  method AddSegment(seg: Segment, base: int, w: int, online: array<int>, known: array<int>)
    requires online != known && online.Length == known.Length > 0 && w > 0
    requires Counted(seg.state, false)
    modifies online, known
    ensures forall i :: 0 <= i < known.Length ==>
      known[i] == old(known[i]) + Parts(seg, base, known.Length, false, w)[i]
    ensures forall i :: 0 <= i < known.Length ==>
      online[i] == old(online[i]) + Parts(seg, base, known.Length, true, w)[i]
  {
    var n := known.Length;
    var s, e := (seg.lo - base) * n, (seg.hi - base) * n;
    ghost var parts, onlineParts := Parts(seg, base, n, false, w), Parts(seg, base, n, true, w);
    UnreachedCells(seg, base, n, w);
    assert forall i :: 0 <= i < n ==> onlineParts[i] == if seg.state == Online then parts[i] else 0;
    if e <= 0 || s >= w * n {
      return;
    }
    var last := Min(n - 1, (e - 1) / w);
    var i := Max(0, s / w);
    while i <= last
      invariant 0 <= i
      invariant forall j :: 0 <= j < n && last < j ==> parts[j] == 0
      invariant forall j :: 0 <= j < n ==> known[j] == old(known[j]) + (if j < i then parts[j] else 0)
      invariant forall j :: 0 <= j < n ==> online[j] == old(online[j]) + (if j < i then onlineParts[j] else 0)
    {
      var overlap := Min(e, (i + 1) * w) - Max(s, i * w);
      assert parts[i] == Max(0, overlap);
      if overlap > 0 {
        known[i] := known[i] + overlap;
        if seg.state == Online {
          online[i] := online[i] + overlap;
        }
      }
      i := i + 1;
    }
  }

  /** Splits `[windowStart, windowEnd)` into `n` equal cells. */
  method Fold(segs: seq<Segment>, windowStart: int, windowEnd: int, n: int) returns (cells: seq<Cell>)
    ensures n <= 0 ==> cells == []
    ensures n > 0 ==> |cells| == n
    ensures n > 0 && windowEnd <= windowStart ==> forall i :: 0 <= i < n ==> cells[i] == NoData
    ensures n > 0 && windowStart < windowEnd ==>
      var w := windowEnd - windowStart;
      forall i :: 0 <= i < n ==> cells[i] == CellAt(segs, windowStart, n, i * w, (i + 1) * w)
  {
    if n <= 0 {
      return [];
    }
    var w := windowEnd - windowStart;
    var online := new int[n](_ => 0);
    var known := new int[n](_ => 0);
    if w <= 0 {
      return seq(n, _ => NoData);
    }
    for k := 0 to |segs|
      invariant forall i :: 0 <= i < n ==> known[i] == Times(segs[..k], windowStart, n, false, w)[i]
      invariant forall i :: 0 <= i < n ==> online[i] == Times(segs[..k], windowStart, n, true, w)[i]
    {
      TimesPrefix(segs, k, windowStart, n, false, w);
      TimesPrefix(segs, k, windowStart, n, true, w);
      if segs[k].state == Unknown {
        continue;
      }
      AddSegment(segs[k], windowStart, w, online, known);
    }
    assert segs[..|segs|] == segs;
    cells := seq(n, i requires 0 <= i < n reads online, known =>
      if known[i] > 0 then Share(online[i], known[i]) else NoData);
  }

  // ---- What the cells mean ----

  /** Every share is a fraction of one. */
  lemma {:induction false} ShareIsFraction(segs: seq<Segment>, base: int, n: int, a: int, b: int)
    ensures Time(segs, base, n, true, a, b) <= Time(segs, base, n, false, a, b)
    ensures CellAt(segs, base, n, a, b).Share? ==>
      0 <= CellAt(segs, base, n, a, b).online <= CellAt(segs, base, n, a, b).known
  {
    if segs != [] {
      ShareIsFraction(segs[..|segs| - 1], base, n, a, b);
    }
  }

  ghost function SumCells(segs: seq<Segment>, base: int, n: int, onlineOnly: bool, w: int, k: nat): nat {
    if k == 0 then 0
    else SumCells(segs, base, n, onlineOnly, w, k - 1) + Time(segs, base, n, onlineOnly, (k - 1) * w, k * w)
  }

  lemma {:induction false} TimeSplits(segs: seq<Segment>, base: int, n: int, onlineOnly: bool, a: int, b: int, c: int)
    requires a <= b <= c
    ensures Time(segs, base, n, onlineOnly, a, c)
         == Time(segs, base, n, onlineOnly, a, b) + Time(segs, base, n, onlineOnly, b, c)
  {
    if segs != [] {
      TimeSplits(segs[..|segs| - 1], base, n, onlineOnly, a, b, c);
    }
  }

  lemma {:induction false} EmptyRange(segs: seq<Segment>, base: int, n: int, onlineOnly: bool, a: int)
    ensures Time(segs, base, n, onlineOnly, a, a) == 0
  {
    if segs != [] {
      EmptyRange(segs[..|segs| - 1], base, n, onlineOnly, a);
    }
  }

  /** No time is lost or counted twice: the cells add up to the whole window. */
  lemma {:induction false} CellsConserve(segs: seq<Segment>, base: int, n: int, onlineOnly: bool, w: int, k: nat)
    requires w > 0
    ensures SumCells(segs, base, n, onlineOnly, w, k) == Time(segs, base, n, onlineOnly, 0, k * w)
  {
    if k == 0 {
      EmptyRange(segs, base, n, onlineOnly, 0);
    } else {
      CellsConserve(segs, base, n, onlineOnly, w, k - 1);
      MulMonotone(0, k - 1, w);
      assert (k - 1) * w <= k * w by { MulMonotone(k - 1, k, w); }
      TimeSplits(segs, base, n, onlineOnly, 0, (k - 1) * w, k * w);
    }
  }

  /** The number of scaled instants of `[a, b)` at which `p` holds. */
  ghost function Ticks(p: int -> bool, a: int, b: int): nat
    decreases b - a
  {
    if b <= a then 0 else Ticks(p, a, b - 1) + (if p(b - 1) then 1 else 0)
  }

  lemma {:induction false} TicksOfInterval(p: int -> bool, s: int, e: int, a: int, b: int)
    requires forall x :: a <= x < b ==> (p(x) <==> s <= x < e)
    ensures Ticks(p, a, b) == Overlap(s, e, a, b)
    decreases b - a
  {
    if a < b {
      TicksOfInterval(p, s, e, a, b - 1);
    }
  }

  lemma {:induction false} TicksOfEither(p: int -> bool, q: int -> bool, r: int -> bool, a: int, b: int)
    requires forall x :: a <= x < b ==> (p(x) <==> q(x) || r(x)) && !(q(x) && r(x))
    ensures Ticks(p, a, b) == Ticks(q, a, b) + Ticks(r, a, b)
    decreases b - a
  {
    if a < b {
      TicksOfEither(p, q, r, a, b - 1);
    }
  }

  /** The scaled instants whose second lies in `[lo, hi)` and is in a counted state. */
  ghost function CountedTick(f: Timeline, base: int, n: int, onlineOnly: bool, lo: int, hi: int): int -> bool
    requires n > 0
  {
    x => lo <= base + x / n < hi && Counted(f(base + x / n).0, onlineOnly)
  }

  lemma SecondOfTick(x: int, n: int, base: int, t: int)
    requires n > 0
    ensures base + x / n < t <==> x < (t - base) * n
  {
    assert x == x / n * n + x % n;
    if x / n < t - base {
      MulMonotone(x / n + 1, t - base, n);
      assert (x / n + 1) * n == x / n * n + n;
    } else {
      MulMonotone(t - base, x / n, n);
    }
  }

  /**
   For segments that describe a timeline, the time in a cell is the number of instants of the
   cell at which the timeline itself is in a counted state.
   */
  lemma {:induction false} TimeMeasuresTimeline(
      f: Timeline, segs: seq<Segment>, lo: int, hi: int, base: int, n: int, onlineOnly: bool, a: int, b: int)
    requires Tiles(segs, lo, hi) && Faithful(f, segs) && n > 0
    ensures Time(segs, base, n, onlineOnly, a, b) == Ticks(CountedTick(f, base, n, onlineOnly, lo, hi), a, b)
  {
    var p := CountedTick(f, base, n, onlineOnly, lo, hi);
    if segs == [] {
      TicksOfInterval(p, 0, 0, a, b);
    } else {
      var init, last := segs[..|segs| - 1], segs[|segs| - 1];
      assert Tiles(init, lo, last.lo) && Faithful(f, init);
      TilesStart(segs, lo, hi);
      TimeMeasuresTimeline(f, init, lo, last.lo, base, n, onlineOnly, a, b);
      var q := CountedTick(f, base, n, onlineOnly, lo, last.lo);
      var r := CountedTick(f, base, n, onlineOnly, last.lo, hi);
      TicksOfEither(p, q, r, a, b);
      PartMeasuresTimeline(f, last, base, n, onlineOnly, a, b);
    }
  }

  lemma {:induction false} PartMeasuresTimeline(f: Timeline, seg: Segment, base: int, n: int, onlineOnly: bool,
      a: int, b: int)
    requires n > 0
    requires forall t :: seg.lo <= t < seg.hi ==> f(t) == (seg.state, seg.approx)
    ensures Part(seg, base, n, onlineOnly, a, b) == Ticks(CountedTick(f, base, n, onlineOnly, seg.lo, seg.hi), a, b)
  {
    var r := CountedTick(f, base, n, onlineOnly, seg.lo, seg.hi);
    var s, e := (seg.lo - base) * n, (seg.hi - base) * n;
    forall x | a <= x < b
      ensures r(x) <==> Counted(seg.state, onlineOnly) && s <= x < e
    {
      SecondOfTick(x, n, base, seg.lo);
      SecondOfTick(x, n, base, seg.hi);
    }
    if Counted(seg.state, onlineOnly) {
      TicksOfInterval(r, s, e, a, b);
    } else {
      TicksOfInterval(r, 0, 0, a, b);
    }
  }

  lemma {:induction false} TicksAgree(p: int -> bool, q: int -> bool, a: int, b: int)
    requires forall x :: a <= x < b ==> (p(x) <==> q(x))
    ensures Ticks(p, a, b) == Ticks(q, a, b)
    decreases b - a
  {
    if a < b {
      TicksAgree(p, q, a, b - 1);
    }
  }

  /**
   A cell of a described timeline holds the number of its instants at which the host was online, and of
   those at which its state was known; without any of these it holds no data.
   */
  lemma {:induction false} CellOfTimeline(f: Timeline, segs: seq<Segment>, lo: int, hi: int, base: int, n: int,
      a: int, b: int)
    requires Describes(f, segs, lo, hi) && n > 0
    ensures
      var online := Ticks(x => lo <= base + x / n < hi && f(base + x / n).0 == Online, a, b);
      var known := Ticks(x => lo <= base + x / n < hi && f(base + x / n).0 != Unknown, a, b);
      CellAt(segs, base, n, a, b) == if known == 0 then NoData else Share(online, known)
  {
    TimeMeasuresTimeline(f, segs, lo, hi, base, n, true, a, b);
    TimeMeasuresTimeline(f, segs, lo, hi, base, n, false, a, b);
    TicksAgree(x => lo <= base + x / n < hi && f(base + x / n).0 == Online,
               CountedTick(f, base, n, true, lo, hi), a, b);
    TicksAgree(x => lo <= base + x / n < hi && f(base + x / n).0 != Unknown,
               CountedTick(f, base, n, false, lo, hi), a, b);
  }
}
