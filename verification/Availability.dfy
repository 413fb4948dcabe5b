/**
 When a host was reachable: a sweep over breakpoints that refines a pointwise definition.

 Instants are whole seconds on one grid, as integers.
 */
module Availability {
  import opened Numbers
  import opened Wrappers
  import opened Sorting
  import opened Intervals
  import opened Segments

  /** A tunnel session; it is open while `disconnectedAt` is `None`. */
  datatype Session = Session(connectedAt: int, disconnectedAt: Option<int>)

  /** A run of the server; `current` marks the run of the reading process. */
  datatype ServerRun = ServerRun(startedAt: int, lastAliveAt: int, current: bool)

  datatype Query = Query(
    sessions: seq<Session>,
    runs: seq<ServerRun>,
    received: seq<int>,
    boots: seq<int>,
    firstSeen: Option<int>,
    windowStart: int,
    windowEnd: int,
    ledgerEpoch: Option<int>,
    offlineAfterSecs: int,
    now: int)

  datatype Report = Report(start: int, end: int, segments: seq<Segment>, boots: seq<int>, totals: Totals)

  function Start(q: Query): int { q.windowStart }

  function End(q: Query): int { Max(q.windowStart, Min(q.windowEnd, q.now)) }

  function Threshold(q: Query): nat { Max(0, q.offlineAfterSecs) }

  function SessionEnd(s: Session, now: int): int {
    if s.disconnectedAt.Some? then s.disconnectedAt.value else now
  }

  function RunEnd(r: ServerRun, now: int): int {
    if r.current then Max(r.lastAliveAt, now) else r.lastAliveAt
  }

  // ---- What the state of the host at one second means, on the raw records ----

  ghost predicate Connected(q: Query, t: int) {
    exists i :: 0 <= i < |q.sessions| && q.sessions[i].connectedAt <= t < SessionEnd(q.sessions[i], q.now)
  }

  ghost predicate ServerUp(q: Query, t: int) {
    exists i :: 0 <= i < |q.runs| && q.runs[i].startedAt <= t < RunEnd(q.runs[i], q.now)
  }

  /** A snapshot arrival that counts: any, or those before the ledger began. */
  ghost predicate Push(q: Query, p: int) {
    p in q.received && (q.ledgerEpoch.Some? ==> p < q.ledgerEpoch.value)
  }

  ghost predicate BetweenClosePushes(q: Query, t: int) {
    exists p, n :: Push(q, p) && Push(q, n) && p <= t < n && n - p <= Threshold(q)
  }

  ghost predicate PushAfter(q: Query, t: int) {
    exists n :: Push(q, n) && t < n
  }

  ghost predicate RecentPush(q: Query, t: int) {
    exists p :: Push(q, p) && p <= t < p + Threshold(q)
  }

  ghost function StateAt(q: Query, t: int): (State, bool) {
    if q.firstSeen.None? || t < q.firstSeen.value then (Unknown, false)
    else if q.ledgerEpoch.Some? && t >= q.ledgerEpoch.value then
      (if Connected(q, t) then Online else if ServerUp(q, t) then Offline else Unknown, false)
    else
      (if BetweenClosePushes(q, t) || (!PushAfter(q, t) && RecentPush(q, t)) then Online else Offline, true)
  }

  ghost function StateOf(q: Query): Timeline {
    t => StateAt(q, t)
  }

  // ---- The fast form: unions, a sorted push list, and classification by bisection ----

  datatype Tables = Tables(online: seq<Interval>, runs: seq<Interval>, pushes: seq<int>)

  ghost predicate TablesFor(q: Query, tb: Tables) {
    && Canonical(tb.online) && (forall t :: Covers(tb.online, t) <==> Connected(q, t))
    && Canonical(tb.runs) && (forall t :: Covers(tb.runs, t) <==> ServerUp(q, t))
    && StrictlyIncreasing(tb.pushes) && (forall p :: p in tb.pushes <==> Push(q, p))
  }

  function SessionIntervals(q: Query): (r: seq<Interval>)
    ensures forall t :: Covers(r, t) <==> Connected(q, t)
  {
    var r := seq(|q.sessions|, i requires 0 <= i < |q.sessions| =>
      Interval(q.sessions[i].connectedAt, SessionEnd(q.sessions[i], q.now)));
    assert forall i :: 0 <= i < |q.sessions| ==>
      r[i].lo == q.sessions[i].connectedAt && r[i].hi == SessionEnd(q.sessions[i], q.now);
    r
  }

  function RunIntervals(q: Query): (r: seq<Interval>)
    ensures forall t :: Covers(r, t) <==> ServerUp(q, t)
  {
    var r := seq(|q.runs|, i requires 0 <= i < |q.runs| =>
      Interval(q.runs[i].startedAt, RunEnd(q.runs[i], q.now)));
    assert forall i :: 0 <= i < |q.runs| ==>
      r[i].lo == q.runs[i].startedAt && r[i].hi == RunEnd(q.runs[i], q.now);
    r
  }

  function KeepBefore(s: seq<int>, epoch: Option<int>): (r: seq<int>)
    requires StrictlyIncreasing(s)
    ensures StrictlyIncreasing(r)
    ensures forall p :: p in r <==> p in s && (epoch.Some? ==> p < epoch.value)
  {
    if s == [] then []
    else if epoch.Some? && s[|s| - 1] >= epoch.value then
      assert s == s[..|s| - 1] + [s[|s| - 1]];
      KeepBefore(s[..|s| - 1], epoch)
    else
      s
  }

  function Classify(q: Query, tb: Tables, t: int): (State, bool)
    requires TablesFor(q, tb)
  {
    if q.firstSeen.None? || t < q.firstSeen.value then (Unknown, false)
    else if q.ledgerEpoch.Some? && t >= q.ledgerEpoch.value then
      if Inside(tb.online, Starts(tb.online), t) then (Online, false)
      else if Inside(tb.runs, Starts(tb.runs), t) then (Offline, false)
      else (Unknown, false)
    else
      var i := BisectRight(tb.pushes, t) - 1;
      if i < 0 then (Offline, true)
      else if i + 1 < |tb.pushes| then
        (if tb.pushes[i + 1] - tb.pushes[i] <= Threshold(q) then Online else Offline, true)
      else
        (if t - tb.pushes[i] < Threshold(q) then Online else Offline, true)
  }

  /** The two arrivals around a second are the only ones that matter for it. */
  lemma NeighboursDecide(q: Query, tb: Tables, t: int, i: int)
    requires TablesFor(q, tb) && i == BisectRight(tb.pushes, t) - 1
    ensures PushAfter(q, t) <==> i + 1 < |tb.pushes|
    ensures BetweenClosePushes(q, t) <==>
      0 <= i && i + 1 < |tb.pushes| && tb.pushes[i + 1] - tb.pushes[i] <= Threshold(q)
    ensures RecentPush(q, t) <==> 0 <= i && t - tb.pushes[i] < Threshold(q)
  {
    var pushes := tb.pushes;
    if 0 <= i {
      assert Push(q, pushes[i]);
    }
    if i + 1 < |pushes| {
      assert Push(q, pushes[i + 1]);
    }
    forall p | Push(q, p)
      ensures p <= t ==> 0 <= i && p <= pushes[i]
      ensures t < p ==> i + 1 < |pushes| && pushes[i + 1] <= p
    {
      var k :| 0 <= k < |pushes| && pushes[k] == p;
    }
  }

  /** Bisection decides exactly what the pointwise definition says. */
  lemma ClassifyMeetsStateAt(q: Query, tb: Tables, t: int)
    requires TablesFor(q, tb)
    ensures Classify(q, tb, t) == StateAt(q, t)
  {
    NeighboursDecide(q, tb, t, BisectRight(tb.pushes, t) - 1);
  }

  // ---- Breakpoints ----

  ghost predicate BoundOf(ivs: seq<Interval>, c: int) {
    exists i :: 0 <= i < |ivs| && (ivs[i].lo == c || ivs[i].hi == c)
  }

  ghost predicate Boundary(q: Query, tb: Tables, c: int) {
    || q.ledgerEpoch == Some(c)
    || q.firstSeen == Some(c)
    || BoundOf(tb.online, c)
    || BoundOf(tb.runs, c)
    || c in tb.pushes
    || c - Threshold(q) in tb.pushes
  }

  lemma CoversConstant(ivs: seq<Interval>, a: int, t: int)
    requires a <= t
    requires forall c :: a < c <= t ==> !BoundOf(ivs, c)
    ensures Covers(ivs, a) <==> Covers(ivs, t)
  {
    forall i | 0 <= i < |ivs|
      ensures ivs[i].lo <= a < ivs[i].hi <==> ivs[i].lo <= t < ivs[i].hi
    {
      assert BoundOf(ivs, ivs[i].lo) && BoundOf(ivs, ivs[i].hi);
    }
  }

  lemma PushesConstant(q: Query, tb: Tables, a: int, t: int)
    requires TablesFor(q, tb) && a <= t
    requires forall c :: a < c <= t ==> !Boundary(q, tb, c)
    ensures BetweenClosePushes(q, a) <==> BetweenClosePushes(q, t)
    ensures PushAfter(q, a) <==> PushAfter(q, t)
    ensures RecentPush(q, a) <==> RecentPush(q, t)
  {
    forall p | Push(q, p)
      ensures p <= a <==> p <= t
      ensures a < p + Threshold(q) <==> t < p + Threshold(q)
    {
      assert Boundary(q, tb, p) && Boundary(q, tb, p + Threshold(q));
    }
  }

  /** The state is constant from one breakpoint up to the next. */
  lemma StateConstant(q: Query, tb: Tables, a: int, t: int)
    requires TablesFor(q, tb) && a <= t
    requires forall c :: a < c <= t ==> !Boundary(q, tb, c)
    ensures StateAt(q, a) == StateAt(q, t)
  {
    assert forall c :: BoundOf(tb.online, c) || BoundOf(tb.runs, c) ==> Boundary(q, tb, c);
    CoversConstant(tb.online, a, t);
    CoversConstant(tb.runs, a, t);
    PushesConstant(q, tb, a, t);
    assert q.ledgerEpoch.Some? ==> Boundary(q, tb, q.ledgerEpoch.value);
    assert q.firstSeen.Some? ==> Boundary(q, tb, q.firstSeen.value);
  }

  method Breakpoints(q: Query, tb: Tables) returns (ordered: seq<int>)
    ensures StrictlyIncreasing(ordered)
    ensures ordered != [] && ordered[0] == Start(q) && ordered[|ordered| - 1] == End(q)
    ensures forall c :: Boundary(q, tb, c) && Start(q) < c < End(q) ==> c in ordered
  {
    var candidates: seq<int> := [];
    if q.ledgerEpoch.Some? {
      candidates := candidates + [q.ledgerEpoch.value];
    }
    if q.firstSeen.Some? {
      candidates := candidates + [q.firstSeen.value];
    }
    var ivs := tb.online + tb.runs;
    for k := 0 to |ivs|
      invariant q.ledgerEpoch.Some? ==> q.ledgerEpoch.value in candidates
      invariant q.firstSeen.Some? ==> q.firstSeen.value in candidates
      invariant forall j :: 0 <= j < k ==> ivs[j].lo in candidates && ivs[j].hi in candidates
    {
      candidates := candidates + [ivs[k].lo, ivs[k].hi];
    }
    ghost var withBounds := candidates;
    for k := 0 to |tb.pushes|
      invariant forall c :: c in withBounds ==> c in candidates
      invariant q.ledgerEpoch.Some? ==> q.ledgerEpoch.value in candidates
      invariant q.firstSeen.Some? ==> q.firstSeen.value in candidates
      invariant forall j :: 0 <= j < k ==> tb.pushes[j] in candidates && tb.pushes[j] + Threshold(q) in candidates
    {
      candidates := candidates + [tb.pushes[k], tb.pushes[k] + Threshold(q)];
    }
    var points := [Start(q), End(q)];
    for k := 0 to |candidates|
      invariant Start(q) in points && End(q) in points
      invariant forall c :: c in points ==> Start(q) <= c <= End(q)
      invariant forall j :: 0 <= j < k && Start(q) < candidates[j] < End(q) ==> candidates[j] in points
    {
      if Start(q) < candidates[k] < End(q) {
        points := points + [candidates[k]];
      }
    }
    ordered := SortedSet(points);
    EndsOf(ordered, Start(q), End(q));
    forall c | Boundary(q, tb, c)
      ensures c in candidates
    {
      BoundaryListed(q, tb, candidates, c);
    }
  }

  lemma EndsOf(ordered: seq<int>, lo: int, hi: int)
    requires StrictlyIncreasing(ordered) && lo in ordered && hi in ordered
    requires forall c :: c in ordered ==> lo <= c <= hi
    ensures ordered[0] == lo && ordered[|ordered| - 1] == hi
  {
    assert ordered[0] in ordered && ordered[|ordered| - 1] in ordered;
  }

  /** A list of the epoch, the first sighting, all bounds, and all arrivals with their timeouts has every boundary. */
  lemma BoundaryListed(q: Query, tb: Tables, candidates: seq<int>, c: int)
    requires q.ledgerEpoch.Some? ==> q.ledgerEpoch.value in candidates
    requires q.firstSeen.Some? ==> q.firstSeen.value in candidates
    requires
      var ivs := tb.online + tb.runs;
      forall j :: 0 <= j < |ivs| ==> ivs[j].lo in candidates && ivs[j].hi in candidates
    requires forall j :: 0 <= j < |tb.pushes| ==>
               tb.pushes[j] in candidates && tb.pushes[j] + Threshold(q) in candidates
    requires Boundary(q, tb, c)
    ensures c in candidates
  {
    BoundsJoin(tb.online, tb.runs, c);
    if c - Threshold(q) in tb.pushes {
      var j :| 0 <= j < |tb.pushes| && tb.pushes[j] == c - Threshold(q);
    }
  }

  lemma BoundsJoin(a: seq<Interval>, b: seq<Interval>, c: int)
    ensures BoundOf(a, c) || BoundOf(b, c) ==> BoundOf(a + b, c)
  {
    if BoundOf(a, c) {
      var i :| 0 <= i < |a| && (a[i].lo == c || a[i].hi == c);
      assert (a + b)[i] == a[i];
    }
    if BoundOf(b, c) {
      var i :| 0 <= i < |b| && (b[i].lo == c || b[i].hi == c);
      assert (a + b)[|a| + i] == b[i];
    }
  }

  lemma ConstantUpTo(q: Query, tb: Tables, ordered: seq<int>, k: nat)
    requires TablesFor(q, tb) && StrictlyIncreasing(ordered)
    requires k + 1 < |ordered| && ordered[0] == Start(q) && ordered[|ordered| - 1] == End(q)
    requires forall c :: Boundary(q, tb, c) && Start(q) < c < End(q) ==> c in ordered
    ensures forall t :: ordered[k] <= t < ordered[k + 1] ==> StateAt(q, t) == StateAt(q, ordered[k])
  {
    forall t | ordered[k] <= t < ordered[k + 1]
      ensures StateAt(q, t) == StateAt(q, ordered[k])
    {
      forall c | ordered[k] < c <= t
        ensures !Boundary(q, tb, c)
      {
        assert Start(q) < c < End(q);
        assert c !in ordered by {
          forall j | 0 <= j < |ordered|
            ensures ordered[j] != c
          {
          }
        }
      }
      StateConstant(q, tb, ordered[k], t);
    }
  }

  method MergeSegments(q: Query, tb: Tables, ordered: seq<int>) returns (merged: seq<Segment>, totals: Totals)
    requires TablesFor(q, tb) && StrictlyIncreasing(ordered)
    requires ordered != [] && ordered[0] == Start(q) && ordered[|ordered| - 1] == End(q)
    requires forall c :: Boundary(q, tb, c) && Start(q) < c < End(q) ==> c in ordered
    ensures Describes(StateOf(q), merged, Start(q), End(q))
    ensures Adds(StateOf(q), totals, Start(q), End(q))
  {
    merged := [];
    totals := Totals(0, 0, 0);
    ghost var f := StateOf(q);
    for k := 0 to |ordered| - 1
      invariant Describes(f, merged, Start(q), ordered[k])
      invariant Adds(f, totals, Start(q), ordered[k])
    {
      var a, b := ordered[k], ordered[k + 1];
      var (state, approx) := Classify(q, tb, a);
      assert forall t :: a <= t < b ==> f(t) == (state, approx) by {
        ClassifyMeetsStateAt(q, tb, a);
        ConstantUpTo(q, tb, ordered, k);
      }
      ExtendDescribes(f, merged, Start(q), a, b, state, approx);
      ExtendAdds(f, totals, Start(q), a, b, state, approx);
      totals := AddTo(totals, state, b - a);
      var n := |merged|;
      if n > 0 && merged[n - 1].state == state && merged[n - 1].approx == approx {
        merged := merged[n - 1 := merged[n - 1].(hi := b)];
      } else {
        merged := merged + [Segment(a, b, state, approx)];
      }
    }
  }

  method BootsWithin(boots: seq<int>, start: int, end: int) returns (within: seq<int>)
    ensures StrictlyIncreasing(within)
    ensures forall b :: b in within <==> b in boots && start <= b <= end
  {
    within := [];
    var ordered := SortedSet(boots);
    for k := 0 to |ordered|
      invariant StrictlyIncreasing(within)
      invariant forall i :: 0 <= i < |within| ==> within[i] in ordered[..k]
      invariant forall b :: b in within <==> b in ordered[..k] && start <= b <= end
    {
      assert ordered[..k + 1] == ordered[..k] + [ordered[k]];
      if start <= ordered[k] <= end {
        within := within + [ordered[k]];
      }
    }
    assert ordered[..|ordered|] == ordered;
  }

  /** Availability of one host over `[windowStart, min(windowEnd, now)]`. */
  method Compute(q: Query) returns (r: Report)
    ensures r.start == q.windowStart && r.end == End(q)
    ensures r.end == if q.windowEnd <= q.windowStart || q.now <= q.windowStart then q.windowStart
                     else if q.windowEnd <= q.now then q.windowEnd else q.now
    ensures Describes(StateOf(q), r.segments, r.start, r.end)
    ensures Adds(StateOf(q), r.totals, r.start, r.end)
    ensures r.totals.online == TotalLength(r.segments, Online)
    ensures r.totals.offline == TotalLength(r.segments, Offline)
    ensures r.totals.unknown == TotalLength(r.segments, Unknown)
    ensures r.totals.online + r.totals.offline + r.totals.unknown == r.end - r.start
    ensures StrictlyIncreasing(r.boots)
    ensures forall b :: b in r.boots <==> b in q.boots && r.start <= b <= r.end
  {
    var onlineIv := Union(SessionIntervals(q));
    var runIv := Union(RunIntervals(q));
    var tb := Tables(onlineIv, runIv, KeepBefore(SortedSet(q.received), q.ledgerEpoch));
    var ordered := Breakpoints(q, tb);
    var merged, totals := MergeSegments(q, tb, ordered);
    ghost var f := StateOf(q);
    SecondsPartition(f, Start(q), End(q));
    SecondsAreLengths(f, merged, Start(q), End(q), Online);
    SecondsAreLengths(f, merged, Start(q), End(q), Offline);
    SecondsAreLengths(f, merged, Start(q), End(q), Unknown);
    var boots := BootsWithin(q.boots, Start(q), End(q));
    r := Report(Start(q), End(q), merged, boots, totals);
  }

  // ---- What a segment says, on the fields of the records ----

  /**
   From the ledger's epoch on, a segment is online at a second exactly when some session holds it,
   open sessions holding everything from their start; offline when none does and the server was up;
   and unknown otherwise. Before its first sighting nothing is known of a host.
   */
  lemma SegmentOnLedger(q: Query, segs: seq<Segment>, lo: int, hi: int, i: int, t: int)
    requires Describes(StateOf(q), segs, lo, hi) && t < q.now
    requires 0 <= i < |segs| && segs[i].lo <= t < segs[i].hi
    ensures q.firstSeen.None? || t < q.firstSeen.value ==> segs[i].state == Unknown && !segs[i].approx
    ensures q.firstSeen.Some? && q.firstSeen.value <= t && q.ledgerEpoch.Some? && q.ledgerEpoch.value <= t ==>
      && !segs[i].approx
      && (segs[i].state == Online <==>
            exists s :: s in q.sessions && s.connectedAt <= t
                     && (s.disconnectedAt.None? || t < s.disconnectedAt.value))
      && (segs[i].state == Offline <==>
            && (forall s :: s in q.sessions && s.connectedAt <= t ==>
                  s.disconnectedAt.Some? && s.disconnectedAt.value <= t)
            && (exists r :: r in q.runs && r.startedAt <= t && (t < r.lastAliveAt || r.current)))
  {
    assert StateOf(q)(t) == (segs[i].state, segs[i].approx);
  }

  /**
   Before the epoch, or without a ledger, a known host is never unknown. It is online exactly when the
   second lies between two arrivals no further apart than the threshold, or after the last one and less
   than the threshold from it.
   */
  lemma SegmentOnArrivals(q: Query, segs: seq<Segment>, lo: int, hi: int, i: int, t: int)
    requires Describes(StateOf(q), segs, lo, hi)
    requires 0 <= i < |segs| && segs[i].lo <= t < segs[i].hi
    requires q.firstSeen.Some? && q.firstSeen.value <= t && (q.ledgerEpoch.Some? ==> t < q.ledgerEpoch.value)
    ensures segs[i].approx && segs[i].state != Unknown
    ensures segs[i].state == Online <==>
      || (exists p, n :: p in q.received && n in q.received && p <= t < n && n - p <= q.offlineAfterSecs
                      && (q.ledgerEpoch.Some? ==> n < q.ledgerEpoch.value))
      || (exists p :: p in q.received && p <= t && t - p < q.offlineAfterSecs
                   && (forall n :: n in q.received && t < n ==> q.ledgerEpoch.Some? && q.ledgerEpoch.value <= n))
  {
    assert StateOf(q)(t) == (segs[i].state, segs[i].approx);
    forall p, n | p in q.received && n in q.received && p <= t < n && n - p <= q.offlineAfterSecs
               && (q.ledgerEpoch.Some? ==> n < q.ledgerEpoch.value)
      ensures BetweenClosePushes(q, t)
    {
      assert Push(q, p) && Push(q, n);
    }
    forall p | p in q.received && p <= t && t - p < q.offlineAfterSecs
      ensures RecentPush(q, t)
    {
      assert Push(q, p);
    }
    forall n | n in q.received && t < n && (q.ledgerEpoch.Some? ==> n < q.ledgerEpoch.value)
      ensures PushAfter(q, t)
    {
      assert Push(q, n);
    }
  }

  /** Only the sets of records matter: reordering or repeating them changes nothing. */
  lemma RecordOrderIrrelevant(q: Query, q': Query, a: seq<Segment>, b: seq<Segment>, lo: int, hi: int)
    requires forall s :: s in q.sessions <==> s in q'.sessions
    requires forall r :: r in q.runs <==> r in q'.runs
    requires forall p :: p in q.received <==> p in q'.received
    requires q' == q.(sessions := q'.sessions, runs := q'.runs, received := q'.received)
    requires Describes(StateOf(q), a, lo, hi) && Describes(StateOf(q'), b, lo, hi)
    ensures a == b
  {
    forall t
      ensures StateAt(q, t) == StateAt(q', t)
    {
      RecordSetsDecide(q, q', t);
      RecordSetsDecide(q', q, t);
    }
    DescriptionUnique(StateOf(q), StateOf(q'), a, b, lo, hi);
  }

  lemma RecordSetsDecide(q: Query, q': Query, t: int)
    requires forall s :: s in q.sessions ==> s in q'.sessions
    requires forall r :: r in q.runs ==> r in q'.runs
    requires forall p :: p in q.received ==> p in q'.received
    requires q' == q.(sessions := q'.sessions, runs := q'.runs, received := q'.received)
    ensures Connected(q, t) ==> Connected(q', t)
    ensures ServerUp(q, t) ==> ServerUp(q', t)
    ensures forall p :: Push(q, p) ==> Push(q', p)
    ensures BetweenClosePushes(q, t) ==> BetweenClosePushes(q', t)
    ensures PushAfter(q, t) ==> PushAfter(q', t)
    ensures RecentPush(q, t) ==> RecentPush(q', t)
  {
    if Connected(q, t) {
      var i :| 0 <= i < |q.sessions| && q.sessions[i].connectedAt <= t < SessionEnd(q.sessions[i], q.now);
      assert q.sessions[i] in q'.sessions;
    }
    if ServerUp(q, t) {
      var i :| 0 <= i < |q.runs| && q.runs[i].startedAt <= t < RunEnd(q.runs[i], q.now);
      assert q.runs[i] in q'.runs;
    }
  }
}
