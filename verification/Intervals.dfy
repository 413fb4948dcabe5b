/** Unions of half-open intervals: a canonical form, its uniqueness and membership by bisection. */
module Intervals {
  import opened Sorting

  datatype Interval = Interval(lo: int, hi: int)

  ghost predicate Covers(ivs: seq<Interval>, t: int) {
    exists i :: 0 <= i < |ivs| && ivs[i].lo <= t < ivs[i].hi
  }

  /** Non-empty intervals in increasing order, with a gap after each one. */
  ghost predicate Canonical(ivs: seq<Interval>) {
    && (forall i :: 0 <= i < |ivs| ==> ivs[i].lo < ivs[i].hi)
    && (forall i, j :: 0 <= i < j < |ivs| ==> ivs[i].hi < ivs[j].lo)
  }

  /** Two canonical sequences that cover the same points are the same sequence. */
  lemma {:induction false} CanonicalUnique(a: seq<Interval>, b: seq<Interval>)
    requires Canonical(a) && Canonical(b)
    requires forall t :: Covers(a, t) <==> Covers(b, t)
    ensures a == b
  {
    HeadCovers(a);
    HeadCovers(b);
    if a != [] {
      assert b != [] && a[0] == b[0];
      forall t
        ensures Covers(a[1..], t) <==> Covers(b[1..], t)
      {
        TailCovers(a, t);
        TailCovers(b, t);
      }
      CanonicalUnique(a[1..], b[1..]);
    }
  }

  lemma HeadCovers(ivs: seq<Interval>)
    requires Canonical(ivs)
    ensures ivs != [] ==> Covers(ivs, ivs[0].lo) && !Covers(ivs, ivs[0].hi)
    ensures ivs != [] ==> forall t :: ivs[0].lo <= t < ivs[0].hi ==> Covers(ivs, t)
    ensures forall t :: Covers(ivs, t) ==> ivs != [] && ivs[0].lo <= t
  {
  }

  lemma TailCovers(ivs: seq<Interval>, t: int)
    requires Canonical(ivs) && ivs != []
    ensures Covers(ivs[1..], t) <==> Covers(ivs, t) && ivs[0].hi <= t
  {
  }

  /** Python's order on pairs. */
  predicate PairLeq(a: Interval, b: Interval) {
    a.lo < b.lo || (a.lo == b.lo && a.hi <= b.hi)
  }

  function NonEmpty(ivs: seq<Interval>): (r: seq<Interval>)
    ensures forall i :: 0 <= i < |r| ==> r[i].lo < r[i].hi
    ensures forall t :: Covers(r, t) <==> Covers(ivs, t)
  {
    if ivs == [] then []
    else
      var rest := NonEmpty(ivs[1..]);
      var r := if ivs[0].hi > ivs[0].lo then [ivs[0]] + rest else rest;
      assert forall t :: Covers(r, t) <==> Covers(ivs, t) by {
        forall t ensures Covers(r, t) <==> Covers(ivs, t) {
          ConsCovers(ivs[0], rest, t);
          ConsCovers(ivs[0], ivs[1..], t);
          assert ivs == [ivs[0]] + ivs[1..];
        }
      }
      r
  }

  lemma ConsCovers(iv: Interval, rest: seq<Interval>, t: int)
    ensures Covers([iv] + rest, t) <==> iv.lo <= t < iv.hi || Covers(rest, t)
  {
    var all := [iv] + rest;
    if iv.lo <= t < iv.hi {
      assert all[0] == iv;
    }
    if Covers(rest, t) {
      var i :| 0 <= i < |rest| && rest[i].lo <= t < rest[i].hi;
      assert all[i + 1] == rest[i];
    }
  }

  lemma SnocCovers(rest: seq<Interval>, iv: Interval, t: int)
    ensures Covers(rest + [iv], t) <==> Covers(rest, t) || iv.lo <= t < iv.hi
  {
    var all := rest + [iv];
    if iv.lo <= t < iv.hi {
      assert all[|rest|] == iv;
    }
    if Covers(rest, t) {
      var i :| 0 <= i < |rest| && rest[i].lo <= t < rest[i].hi;
      assert all[i] == rest[i];
    }
  }

  lemma PermutationCovers(a: seq<Interval>, b: seq<Interval>, t: int)
    requires multiset(a) == multiset(b)
    ensures Covers(a, t) <==> Covers(b, t)
  {
    if Covers(a, t) {
      var i :| 0 <= i < |a| && a[i].lo <= t < a[i].hi;
      assert a[i] in multiset(b);
    }
    if Covers(b, t) {
      var i :| 0 <= i < |b| && b[i].lo <= t < b[i].hi;
      assert b[i] in multiset(a);
    }
  }

  /** What one iteration of the merge loop makes of `out` when `iv` arrives in sorted order. */
  ghost predicate MergesInto(out: seq<Interval>, iv: Interval, out': seq<Interval>) {
    if out != [] && iv.lo <= out[|out| - 1].hi then
      var last := out[|out| - 1];
      out' == if iv.hi > last.hi then out[..|out| - 1] + [Interval(last.lo, iv.hi)] else out
    else
      out' == out + [iv]
  }

  lemma MergeStep(out: seq<Interval>, iv: Interval, out': seq<Interval>)
    requires Canonical(out) && iv.lo < iv.hi
    requires out != [] ==> out[|out| - 1].lo <= iv.lo
    requires MergesInto(out, iv, out')
    ensures Canonical(out')
    ensures out' != [] && out'[|out'| - 1].lo <= iv.lo
    ensures forall t :: Covers(out', t) <==> Covers(out, t) || iv.lo <= t < iv.hi
  {
    forall t
      ensures Covers(out', t) <==> Covers(out, t) || iv.lo <= t < iv.hi
    {
      SnocCovers(out, iv, t);
      if out != [] {
        var init, last := out[..|out| - 1], out[|out| - 1];
        assert out == init + [last];
        SnocCovers(init, last, t);
        SnocCovers(init, Interval(last.lo, iv.hi), t);
      }
    }
  }

  ghost predicate CoverSame(a: seq<Interval>, b: seq<Interval>) {
    forall t :: Covers(a, t) <==> Covers(b, t)
  }

  /** `out` is the merged form of the first `k` of the sorted intervals. */
  ghost predicate Merged(out: seq<Interval>, sorted: seq<Interval>, k: nat)
    requires k <= |sorted|
  {
    && Canonical(out)
    && (out != [] ==> k > 0 && out[|out| - 1].lo <= sorted[k - 1].lo)
    && CoverSame(out, sorted[..k])
  }

  lemma MergeOne(out: seq<Interval>, sorted: seq<Interval>, k: nat, out': seq<Interval>)
    requires k < |sorted| && sorted[k].lo < sorted[k].hi && Merged(out, sorted, k)
    requires k > 0 ==> sorted[k - 1].lo <= sorted[k].lo
    requires MergesInto(out, sorted[k], out')
    ensures Merged(out', sorted, k + 1)
  {
    MergeStep(out, sorted[k], out');
    PrefixCovers(sorted, k);
  }

  /** Merges overlapping and adjacent intervals and drops empty ones. */
  method Union(ivs: seq<Interval>) returns (out: seq<Interval>)
    ensures Canonical(out)
    ensures forall t :: Covers(out, t) <==> Covers(ivs, t)
  {
    var sorted := SortedNonEmpty(ivs);
    out := [];
    for k := 0 to |sorted|
      invariant Merged(out, sorted, k)
    {
      var start, end := sorted[k].lo, sorted[k].hi;
      ghost var before := out;
      assert k > 0 ==> PairLeq(sorted[k - 1], sorted[k]);
      if out != [] && start <= out[|out| - 1].hi {
        if end > out[|out| - 1].hi {
          out := out[..|out| - 1] + [Interval(out[|out| - 1].lo, end)];
        }
      } else {
        out := out + [Interval(start, end)];
      }
      MergeOne(before, sorted, k, out);
    }
    assert sorted[..|sorted|] == sorted;
  }

  lemma PrefixCovers(ivs: seq<Interval>, k: nat)
    requires k < |ivs|
    ensures forall t :: Covers(ivs[..k + 1], t) <==> Covers(ivs[..k], t) || ivs[k].lo <= t < ivs[k].hi
  {
  }

  function SortedNonEmpty(ivs: seq<Interval>): (r: seq<Interval>)
    ensures SortedBy(r, PairLeq)
    ensures forall i :: 0 <= i < |r| ==> r[i].lo < r[i].hi
    ensures forall t :: Covers(r, t) <==> Covers(ivs, t)
  {
    var kept := NonEmpty(ivs);
    var r := Sort(kept, PairLeq);
    assert forall t :: Covers(r, t) <==> Covers(ivs, t) by {
      forall t ensures Covers(r, t) <==> Covers(ivs, t) {
        PermutationCovers(r, kept, t);
      }
    }
    assert forall i :: 0 <= i < |r| ==> r[i].lo < r[i].hi by {
      forall i | 0 <= i < |r| ensures r[i].lo < r[i].hi {
        assert r[i] in multiset(kept);
      }
    }
    r
  }

  function Starts(ivs: seq<Interval>): (r: seq<int>)
    requires Canonical(ivs)
    ensures |r| == |ivs| && StrictlyIncreasing(r)
    ensures forall i :: 0 <= i < |ivs| ==> r[i] == ivs[i].lo
  {
    seq(|ivs|, i requires 0 <= i < |ivs| => ivs[i].lo)
  }

  /** Membership in a canonical union, decided by one bisection over the interval starts. */
  predicate Inside(ivs: seq<Interval>, starts: seq<int>, t: int)
    requires Canonical(ivs) && starts == Starts(ivs)
    ensures Inside(ivs, starts, t) <==> Covers(ivs, t)
  {
    var i := BisectRight(starts, t) - 1;
    assert Covers(ivs, t) ==> i >= 0 && t < ivs[i].hi by {
      if Covers(ivs, t) {
        var j :| 0 <= j < |ivs| && ivs[j].lo <= t < ivs[j].hi;
        assert j <= i && starts[i] <= t;
      }
    }
    assert i >= 0 ==> starts[i] <= t;
    i >= 0 && t < ivs[i].hi
  }
}
