/** Reading only the records near a window: exactly which seconds of it what is left out can change. */
module WindowReads {
  import opened Wrappers
  import opened Segments
  import opened Availability

  /** A session the window query keeps: it began before the window's end and had not ended at its start. */
  predicate KeepsSession(q: Query, s: Session) {
    s.connectedAt < q.windowEnd && (s.disconnectedAt.Some? ==> s.disconnectedAt.value > q.windowStart)
  }

  predicate KeepsRun(q: Query, r: ServerRun) {
    (r.startedAt < q.windowEnd && r.lastAliveAt >= q.windowStart) || r.current
  }

  /** Arrivals are read only when the ledger starts inside or after the window, from one threshold before it. */
  predicate KeepsPush(q: Query, p: int) {
    && (q.ledgerEpoch.Some? ==> q.ledgerEpoch.value > q.windowStart && p < q.ledgerEpoch.value)
    && (q.ledgerEpoch.None? ==> p < q.now + 1)
    && q.windowStart - q.offlineAfterSecs <= p
  }

  predicate InWindow(q: Query, t: int) {
    q.windowStart <= t < q.windowEnd
  }

  /** No row is read in vain: a session is kept exactly when it holds an instant of the window. */
  lemma KeptSessionIff(q: Query, s: Session)
    requires q.windowStart < q.windowEnd && (s.disconnectedAt.Some? ==> s.connectedAt < s.disconnectedAt.value)
    ensures KeepsSession(q, s) <==>
      exists t :: InWindow(q, t) && s.connectedAt <= t && (s.disconnectedAt.None? || t < s.disconnectedAt.value)
  {
    var t := if s.connectedAt < q.windowStart then q.windowStart else s.connectedAt;
    assert KeepsSession(q, s) ==> InWindow(q, t);
  }

  /** A run is kept exactly when it is the current one or holds an instant of the window, its last touch included. */
  lemma KeptRunIff(q: Query, r: ServerRun)
    requires q.windowStart < q.windowEnd && r.startedAt <= r.lastAliveAt
    ensures KeepsRun(q, r) <==>
      r.current || exists t :: InWindow(q, t) && r.startedAt <= t <= r.lastAliveAt
  {
    var t := if r.startedAt < q.windowStart then q.windowStart else r.startedAt;
    assert KeepsRun(q, r) && !r.current ==> InWindow(q, t);
  }

  // ---- The first sighting ----

  /** What is read of a host without regard to the window: its first collection and its first session. */
  datatype Sightings = Sightings(collected: Option<int>, session: Option<int>)

  function Earlier(a: Option<int>, b: Option<int>): Option<int> {
    if a.None? then b else if b.None? || a.value <= b.value then a else b
  }

  function Earliest(arrivals: seq<int>): (r: Option<int>)
    ensures r.None? <==> arrivals == []
    ensures r.Some? ==> r.value in arrivals && forall p :: p in arrivals ==> r.value <= p
  {
    if arrivals == [] then None
    else
      assert arrivals == [arrivals[0]] + arrivals[1..];
      Earlier(Some(arrivals[0]), Earliest(arrivals[1..]))
  }

  /** A host counts as enrolled from the earliest of its collection, its session and the arrivals read. */
  function FirstSeen(first: Sightings, arrivals: seq<int>): Option<int> {
    Earlier(Earlier(first.collected, first.session), Earliest(arrivals))
  }

  /** `near` holds, of the records of `all`, those the window query reads; each derives its own first sighting. */
  ghost predicate Narrows(all: Query, near: Query, first: Sightings) {
    && near == all.(sessions := near.sessions, runs := near.runs, received := near.received,
                    firstSeen := near.firstSeen)
    && (forall s :: s in near.sessions <==> s in all.sessions && KeepsSession(all, s))
    && (forall r :: r in near.runs <==> r in all.runs && KeepsRun(all, r))
    && (forall p :: p in near.received <==> p in all.received && KeepsPush(all, p))
    && all.firstSeen == FirstSeen(first, all.received)
    && near.firstSeen == FirstSeen(first, near.received)
  }

  predicate Seen(q: Query, t: int) {
    q.firstSeen.Some? && q.firstSeen.value <= t
  }

  // ---- What the narrow read can change ----

  lemma SameConnections(all: Query, near: Query, first: Sightings, t: int)
    requires Narrows(all, near, first) && Start(all) <= t < End(all)
    ensures Connected(all, t) <==> Connected(near, t)
    ensures ServerUp(all, t) <==> ServerUp(near, t)
  {
    forall i | 0 <= i < |all.sessions| && all.sessions[i].connectedAt <= t < SessionEnd(all.sessions[i], all.now)
      ensures Connected(near, t)
    {
      assert all.sessions[i] in near.sessions;
    }
    forall i | 0 <= i < |near.sessions| && near.sessions[i].connectedAt <= t < SessionEnd(near.sessions[i], near.now)
      ensures Connected(all, t)
    {
      assert near.sessions[i] in all.sessions;
    }
    forall i | 0 <= i < |all.runs| && all.runs[i].startedAt <= t < RunEnd(all.runs[i], all.now)
      ensures ServerUp(near, t)
    {
      assert all.runs[i] in near.runs;
    }
    forall i | 0 <= i < |near.runs| && near.runs[i].startedAt <= t < RunEnd(near.runs[i], near.now)
      ensures ServerUp(all, t)
    {
      assert near.runs[i] in all.runs;
    }
  }

  /** The reconstruction from arrivals says the host was reporting. */
  ghost predicate Reporting(q: Query, t: int) {
    BetweenClosePushes(q, t) || (!PushAfter(q, t) && RecentPush(q, t))
  }

  /**
   Around `t`, and with no ledger, the next arrival claims to be after `now`, and the one before it is
   less than a threshold from `t` but more than a threshold from that.
   */
  ghost predicate SplitByLate(q: Query, t: int) {
    q.ledgerEpoch.None? && exists p, n :: LateNeighbours(q, t, p, n)
  }

  ghost predicate LateNeighbours(q: Query, t: int, p: int, n: int) {
    && p in q.received && n in q.received && p <= t && q.now < n
    && t - p < Threshold(q) < n - p
    && forall r :: r in q.received ==> r <= p || n <= r
  }

  lemma ReportingKept(all: Query, near: Query, first: Sightings, t: int)
    requires Narrows(all, near, first) && Start(all) <= t < End(all)
    requires all.ledgerEpoch.Some? ==> t < all.ledgerEpoch.value
    requires Reporting(all, t)
    ensures Reporting(near, t)
  {
    assert forall r :: Push(near, r) ==> Push(all, r);
    if BetweenClosePushes(all, t) {
      var p, n :| Push(all, p) && Push(all, n) && p <= t < n && n - p <= Threshold(all);
      assert Push(near, p);
      if PushAfter(near, t) && !Push(near, n) {
        var r :| Push(near, r) && t < r;
        assert r <= all.now < n;
      }
    } else {
      var p :| Push(all, p) && p <= t < p + Threshold(all);
      assert Push(near, p);
      assert RecentPush(near, t) && !PushAfter(near, t);
    }
  }

  lemma SplitStopsReporting(all: Query, near: Query, first: Sightings, t: int, p: int, n: int)
    requires Narrows(all, near, first) && Start(all) <= t < End(all)
    requires all.ledgerEpoch.None? && LateNeighbours(all, t, p, n)
    ensures Reporting(near, t) && !Reporting(all, t)
  {
    assert Push(near, p) && Push(all, n);
    assert !PushAfter(near, t);
  }

  lemma {:induction false} LeastAfter(s: seq<int>, t: int) returns (n: int)
    requires exists r :: r in s && t < r
    ensures n in s && t < n && forall r :: r in s ==> r <= t || n <= r
  {
    assert s == [s[0]] + s[1..];
    if exists r :: r in s[1..] && t < r {
      n := LeastAfter(s[1..], t);
      if t < s[0] < n {
        n := s[0];
      }
    } else {
      n := s[0];
    }
  }

  lemma {:induction false} GreatestUpTo(s: seq<int>, t: int) returns (p: int)
    requires exists r :: r in s && r <= t
    ensures p in s && p <= t && forall r :: r in s ==> r <= p || t < r
  {
    assert s == [s[0]] + s[1..];
    if exists r :: r in s[1..] && r <= t {
      p := GreatestUpTo(s[1..], t);
      if p < s[0] <= t {
        p := s[0];
      }
    } else {
      p := s[0];
    }
  }

  lemma StoppedOnlyBySplit(all: Query, near: Query, first: Sightings, t: int)
    requires Narrows(all, near, first) && Start(all) <= t < End(all)
    requires all.ledgerEpoch.Some? ==> t < all.ledgerEpoch.value
    requires Reporting(near, t) && !Reporting(all, t)
    ensures SplitByLate(all, t)
  {
    assert forall r :: Push(near, r) ==> Push(all, r);
    var p0 :| Push(near, p0) && p0 <= t < p0 + Threshold(all);
    assert Push(all, p0);
    var r :| Push(all, r) && t < r;
    assert !Push(near, r);
    assert all.ledgerEpoch.None?;
    var n := LeastAfter(all.received, t);
    var p := GreatestUpTo(all.received, t);
    assert Push(all, n) && Push(all, p);
    assert !Push(near, n);
    assert LateNeighbours(all, t, p, n);
  }

  /** The whole history knows the host at `t` and has a state for it, and the narrow read has not seen it yet. */
  ghost predicate Hidden(all: Query, near: Query, t: int) {
    && Seen(all, t) && !Seen(near, t)
    && ((all.ledgerEpoch.Some? && all.ledgerEpoch.value <= t) ==> Connected(all, t) || ServerUp(all, t))
  }

  /** The narrow read differs from the whole history at `t`. */
  ghost predicate Changed(all: Query, near: Query, t: int) {
    Hidden(all, near, t) || (Seen(near, t) && SplitByLate(all, t))
  }

  /**
   A second of the window has the same state whether the whole history is read or only the rows near
   the window, except exactly where the narrow read has lost the first sighting, or where an arrival
   claims to be after `now`.
   */
  lemma NarrowReadsIff(all: Query, near: Query, first: Sightings, t: int)
    requires Narrows(all, near, first) && Start(all) <= t < End(all)
    ensures StateAt(all, t) == StateAt(near, t) <==> !Changed(all, near, t)
  {
    SameConnections(all, near, first, t);
    if Seen(near, t) {
    }
    if all.ledgerEpoch.None? || t < all.ledgerEpoch.value {
      ReportingIff(all, near, first, t);
    }
  }

  lemma ReportingIff(all: Query, near: Query, first: Sightings, t: int)
    requires Narrows(all, near, first) && Start(all) <= t < End(all)
    requires all.ledgerEpoch.Some? ==> t < all.ledgerEpoch.value
    ensures (Reporting(all, t) <==> Reporting(near, t)) <==> !SplitByLate(all, t)
  {
    if Reporting(all, t) {
      ReportingKept(all, near, first, t);
    }
    if SplitByLate(all, t) {
      var p, n :| LateNeighbours(all, t, p, n);
      SplitStopsReporting(all, near, first, t, p, n);
    } else if Reporting(near, t) && !Reporting(all, t) {
      StoppedOnlyBySplit(all, near, first, t);
    }
  }

  /** The two reads give the same segments exactly when no second of the window is changed. */
  lemma SameReportIff(all: Query, near: Query, first: Sightings, a: seq<Segment>, b: seq<Segment>)
    requires Narrows(all, near, first)
    requires Describes(StateOf(all), a, Start(all), End(all))
    requires Describes(StateOf(near), b, Start(near), End(near))
    ensures a == b <==> forall t :: Start(all) <= t < End(all) ==> !Changed(all, near, t)
  {
    forall t | Start(all) <= t < End(all)
      ensures StateOf(all)(t) == StateOf(near)(t) <==> !Changed(all, near, t)
      ensures a == b ==> StateOf(all)(t) == StateOf(near)(t)
    {
      NarrowReadsIff(all, near, first, t);
      ExactlyOneSegment(StateOf(all), a, Start(all), End(all), t);
    }
    if forall t :: Start(all) <= t < End(all) ==> !Changed(all, near, t) {
      DescriptionUnique(StateOf(all), StateOf(near), a, b, Start(all), End(all));
    }
  }

  /**
   No second is changed for a host whose first collection or session is no later than the window's
   start or its first arrival, when no arrival is after `now`.
   */
  lemma KnownHostUnchanged(all: Query, near: Query, first: Sightings, t: int)
    requires Narrows(all, near, first) && Start(all) <= t < End(all)
    requires var known := Earlier(first.collected, first.session);
      known.Some? && (known.value <= Start(all) || forall p :: p in all.received ==> known.value <= p)
    requires forall p :: p in all.received ==> p <= all.now
    ensures !Changed(all, near, t)
  {
  }

  /** A host whose own clock ran ahead: the narrow read does not know it yet at a second the history does. */
  lemma AheadClockIsHidden()
    ensures
      var first := Sightings(Some(5000), None);
      var all := Query([], [], [0, 1000], [], Some(0), 500, 2000, None, 100, 2000);
      var near := all.(received := [1000], firstSeen := Some(1000));
      && Narrows(all, near, first)
      && StateAt(all, 600) == (Offline, true) && StateAt(near, 600) == (Unknown, false)
  {
    var first := Sightings(Some(5000), None);
    assert 0 in [0, 1000] && 1000 in [1000];
    assert FirstSeen(first, [0, 1000]) == Some(0);
    assert FirstSeen(first, [1000]) == Some(1000);
    var all := Query([], [], [0, 1000], [], Some(0), 500, 2000, None, 100, 2000);
    assert Push(all, 0) && Push(all, 1000);
  }
}
