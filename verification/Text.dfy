/** Splitting, joining and ordering strings the way Python does. */
module Text {
  import opened Sorting

  function Split(s: string, sep: char): (parts: seq<string>)
    ensures parts != []
    ensures forall i :: 0 <= i < |parts| ==> sep !in parts[i]
  {
    if s == "" then [""]
    else
      var rest := Split(s[1..], sep);
      if s[0] == sep then [""] + rest
      else [[s[0]] + rest[0]] + rest[1..]
  }

  function Join(parts: seq<string>, sep: char): string {
    if parts == [] then ""
    else if |parts| == 1 then parts[0]
    else parts[0] + [sep] + Join(parts[1..], sep)
  }

  /** Splitting invents no character. */
  lemma {:induction false} SplitWithin(s: string, sep: char, i: nat, x: char)
    requires i < |Split(s, sep)| && x in Split(s, sep)[i]
    ensures x in s
  {
    if s != "" {
      var rest := Split(s[1..], sep);
      if s[0] == sep || i > 0 {
        var n: nat := i - 1;
        if s[0] == sep {
          SplitWithin(s[1..], sep, n, x);
        } else {
          assert Split(s, sep)[i] == rest[n + 1];
          SplitWithin(s[1..], sep, i, x);
        }
      } else if x != s[0] {
        SplitWithin(s[1..], sep, 0, x);
      }
    }
  }

  lemma {:induction false} SplitFree(s: string, sep: char)
    requires sep !in s
    ensures Split(s, sep) == [s]
  {
    if s != "" {
      assert s == [s[0]] + s[1..];
      SplitFree(s[1..], sep);
    }
  }

  lemma {:induction false} SplitAtSep(a: string, b: string, sep: char)
    requires sep !in a
    ensures Split(a + [sep] + b, sep) == [a] + Split(b, sep)
  {
    var s := a + [sep] + b;
    if a == "" {
      assert s[1..] == b;
    } else {
      assert s[1..] == a[1..] + [sep] + b;
      SplitAtSep(a[1..], b, sep);
      var rest := Split(s[1..], sep);
      assert rest[0] == a[1..] && rest[1..] == Split(b, sep);
      assert s[0] == a[0] && a == [a[0]] + a[1..];
    }
  }

  /** Splitting undoes joining when no part contains the separator. */
  lemma {:induction false} SplitJoin(parts: seq<string>, sep: char)
    requires parts != []
    requires forall i :: 0 <= i < |parts| ==> sep !in parts[i]
    ensures Split(Join(parts, sep), sep) == parts
  {
    if |parts| == 1 {
      SplitFree(parts[0], sep);
    } else {
      SplitJoin(parts[1..], sep);
      SplitAtSep(parts[0], Join(parts[1..], sep), sep);
    }
  }

  lemma {:induction false} JoinFree(parts: seq<string>, sep: char, c: char)
    requires c != sep
    requires forall i :: 0 <= i < |parts| ==> c !in parts[i]
    ensures c !in Join(parts, sep)
  {
    if |parts| > 1 {
      JoinFree(parts[1..], sep, c);
    }
  }

  // ---- Splitting a bounded number of times ----

  /** At most `max` separators split; the rest of the text is the last part, separators and all. */
  function SplitMax(s: string, sep: char, max: nat): (parts: seq<string>)
    ensures 1 <= |parts| <= max + 1
    ensures forall i :: 0 <= i < |parts| - 1 ==> sep !in parts[i]
    decreases |s|
  {
    if s == "" || max == 0 then [s]
    else if s[0] == sep then [""] + SplitMax(s[1..], sep, max - 1)
    else
      var rest := SplitMax(s[1..], sep, max);
      [[s[0]] + rest[0]] + rest[1..]
  }

  lemma {:induction false} SplitMaxAtSep(a: string, b: string, sep: char, max: nat)
    requires sep !in a
    ensures SplitMax(a + [sep] + b, sep, max + 1) == [a] + SplitMax(b, sep, max)
  {
    var s := a + [sep] + b;
    if a == "" {
      assert s[1..] == b;
    } else {
      assert s[1..] == a[1..] + [sep] + b;
      SplitMaxAtSep(a[1..], b, sep, max);
      var rest := SplitMax(s[1..], sep, max + 1);
      assert rest[0] == a[1..] && rest[1..] == SplitMax(b, sep, max);
      assert s[0] == a[0] && a == [a[0]] + a[1..];
    }
  }

  lemma {:induction false} JoinSplitMax(s: string, sep: char, max: nat)
    ensures Join(SplitMax(s, sep, max), sep) == s
    decreases |s|
  {
    if s != "" && max > 0 {
      if s[0] == sep {
        var rest := SplitMax(s[1..], sep, max - 1);
        JoinSplitMax(s[1..], sep, max - 1);
        assert ([""] + rest)[1..] == rest;
      } else {
        var rest := SplitMax(s[1..], sep, max);
        JoinSplitMax(s[1..], sep, max);
        if |rest| > 1 {
          assert ([[s[0]] + rest[0]] + rest[1..])[1..] == rest[1..];
        }
      }
    }
  }

  /** Lexicographic order by code point. */
  predicate Leq(a: string, b: string) {
    a == "" || (b != "" && (a[0] < b[0] || (a[0] == b[0] && Leq(a[1..], b[1..]))))
  }

  lemma {:induction false} LeqTotal(a: string, b: string)
    ensures Leq(a, b) || Leq(b, a)
    ensures Leq(a, b) && Leq(b, a) ==> a == b
  {
    if a != "" && b != "" && a[0] == b[0] {
      LeqTotal(a[1..], b[1..]);
      assert a == [a[0]] + a[1..] && b == [b[0]] + b[1..];
    }
  }

  lemma {:induction false} LeqTransitive(a: string, b: string, c: string)
    requires Leq(a, b) && Leq(b, c)
    ensures Leq(a, c)
  {
    if a != "" && a[0] == b[0] == c[0] {
      LeqTransitive(a[1..], b[1..], c[1..]);
    }
  }

  lemma LeqIsTotalOrder()
    ensures TotalOrder(Leq)
  {
    forall a, b
      ensures Leq(a, b) || Leq(b, a)
      ensures Leq(a, b) && Leq(b, a) ==> a == b
    {
      LeqTotal(a, b);
    }
    forall a, b, c | Leq(a, b) && Leq(b, c)
      ensures Leq(a, c)
    {
      LeqTransitive(a, b, c);
    }
  }

  /** A text is no greater than the texts it begins, and than those greater at the first difference. */
  lemma {:induction false} LeqMeans(a: string, b: string)
    ensures Leq(a, b) <==>
      a <= b || exists k :: 0 <= k < |a| && k < |b| && a[..k] == b[..k] && (a[k] as int) < (b[k] as int)
  {
    if a != "" && b != "" && a[0] == b[0] {
      LeqMeans(a[1..], b[1..]);
      DifferLater(a[0], a[1..], b[1..]);
      assert a == [a[0]] + a[1..] && b == [b[0]] + b[1..];
    } else if a != "" && b != "" && a[0] < b[0] {
      assert a[..0] == b[..0];
    }
  }

  lemma DifferLater(c: char, x: string, y: string)
    ensures
      var a, b := [c] + x, [c] + y;
      && (a <= b <==> x <= y)
      && ((exists k :: 0 <= k < |a| && k < |b| && a[..k] == b[..k] && (a[k] as int) < (b[k] as int)) <==>
          exists k :: 0 <= k < |x| && k < |y| && x[..k] == y[..k] && (x[k] as int) < (y[k] as int))
  {
    var a, b := [c] + x, [c] + y;
    forall k | 0 <= k < |x| && k < |y| && x[..k] == y[..k] && x[k] < y[k]
      ensures a[..k + 1] == b[..k + 1] && a[k + 1] < b[k + 1]
    {
      assert a[..k + 1] == [c] + x[..k] && b[..k + 1] == [c] + y[..k];
    }
    forall k | 0 <= k < |a| && k < |b| && a[..k] == b[..k] && a[k] < b[k]
      ensures k > 0 && x[..k - 1] == y[..k - 1] && x[k - 1] < y[k - 1]
    {
      assert a[..k][1..] == x[..k - 1] && b[..k][1..] == y[..k - 1];
    }
    assert a <= b <==> x <= y by {
      assert a[1..] == x && b[1..] == y;
      assert |x| <= |y| ==> b[..|a|] == [c] + y[..|x|];
    }
  }

  function Sorted(names: seq<string>): (r: seq<string>)
    ensures multiset(r) == multiset(names) && |r| == |names| && SortedBy(r, Leq)
    ensures forall x :: x in r <==> x in names
  {
    LeqIsTotalOrder();
    var r := Sort(names, Leq);
    assert |r| == |multiset(r)|;
    assert forall x :: x in r <==> x in multiset(r);
    r
  }

  /** Sorting forgets the order of its input and nothing else. */
  lemma SortedIff(a: seq<string>, b: seq<string>)
    ensures Sorted(a) == Sorted(b) <==> multiset(a) == multiset(b)
  {
    LeqIsTotalOrder();
    if multiset(a) == multiset(b) {
      SortedUnique(Sort(a, Leq), Sort(b, Leq), Leq);
    }
  }
}
