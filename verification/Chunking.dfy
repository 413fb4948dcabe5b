/** Cutting a long message into pieces that fit, at line ends wherever that is possible. */
module Chunking {

  // ---- Lines ----

  predicate IsBreak(c: char) {
    || '\n' <= c <= '\r' || '\U{1C}' <= c <= '\U{1E}'
    || c == '\U{85}' || '\U{2028}' <= c <= '\U{2029}'
  }

  /** Whether a line ends just before position `p`; a carriage return and its line feed stay together. */
  predicate LineEndsAt(s: string, p: nat)
    requires 0 < p < |s|
  {
    IsBreak(s[p - 1]) && !(s[p - 1] == '\r' && s[p] == '\n')
  }

  function FirstLine(s: string): (k: nat)
    requires s != ""
    ensures 0 < k <= |s|
    ensures k < |s| ==> LineEndsAt(s, k)
    ensures forall p :: 0 < p < k ==> !LineEndsAt(s, p)
  {
    if |s| == 1 || LineEndsAt(s, 1) then 1
    else
      var k := FirstLine(s[1..]) + 1;
      assert forall p :: 1 < p < k ==> LineEndsAt(s, p) == LineEndsAt(s[1..], p - 1);
      k
  }

  /** The lines of a text, terminators kept. */
  function SplitLines(s: string): (lines: seq<string>)
    ensures forall i :: 0 <= i < |lines| ==> lines[i] != ""
    ensures s != "" ==> lines != []
  {
    if s == "" then []
    else
      var k := FirstLine(s);
      [s[..k]] + SplitLines(s[k..])
  }

  /** Where the first `j` parts end. */
  function Offset(parts: seq<string>, j: nat): nat
    requires j <= |parts|
  {
    if j == 0 then 0 else Offset(parts, j - 1) + |parts[j - 1]|
  }

  lemma {:induction false} OffsetCons(x: string, rest: seq<string>, j: nat)
    requires j <= |rest|
    ensures Offset([x] + rest, j + 1) == |x| + Offset(rest, j)
  {
    if j > 0 {
      OffsetCons(x, rest, j - 1);
    }
  }

  lemma {:induction false} OffsetGrows(parts: seq<string>, i: nat, j: nat)
    requires i <= j <= |parts|
    ensures Offset(parts, i) <= Offset(parts, j)
  {
    if i < j {
      OffsetGrows(parts, i, j - 1);
    }
  }

  lemma {:induction false} OffsetPrefix(parts: seq<string>, more: seq<string>, j: nat)
    requires j <= |parts|
    ensures Offset(parts + more, j) == Offset(parts, j)
  {
    if j > 0 {
      OffsetPrefix(parts, more, j - 1);
    }
  }

  /** Part `k` is what lies between its offsets in the whole. */
  ghost predicate SliceAt(s: string, parts: seq<string>, k: nat)
    requires k < |parts|
  {
    Offset(parts, k + 1) <= |s| && s[Offset(parts, k)..Offset(parts, k + 1)] == parts[k]
  }

  lemma SliceAtCons(x: string, s: string, parts: seq<string>, k: nat)
    requires k < |parts| && SliceAt(s, parts, k)
    ensures SliceAt(x + s, [x] + parts, k + 1)
  {
    OffsetCons(x, parts, k);
    OffsetCons(x, parts, k + 1);
    assert (x + s)[|x|..] == s;
    assert (x + s)[|x| + Offset(parts, k)..|x| + Offset(parts, k + 1)] == s[Offset(parts, k)..Offset(parts, k + 1)];
  }

  /** The parts are what lies between their offsets, and the last ends the whole. */
  ghost predicate Tile(s: string, parts: seq<string>) {
    Offset(parts, |parts|) == |s| && forall k: nat :: k < |parts| ==> SliceAt(s, parts, k)
  }

  lemma TileCons(x: string, s: string, parts: seq<string>)
    requires Tile(s, parts)
    ensures Tile(x + s, [x] + parts)
  {
    OffsetCons(x, parts, |parts|);
    forall k: nat | k < |[x] + parts|
      ensures SliceAt(x + s, [x] + parts, k)
    {
      if k > 0 {
        SliceAtCons(x, s, parts, k - 1);
      }
    }
  }

  lemma {:induction false} LinesTile(s: string)
    ensures Tile(s, SplitLines(s))
  {
    if s != "" {
      var e := FirstLine(s);
      LinesTile(s[e..]);
      TileCons(s[..e], s[e..], SplitLines(s[e..]));
      assert s == s[..e] + s[e..];
    }
  }

  ghost predicate IsOffset(lines: seq<string>, p: nat) {
    exists j: nat :: j <= |lines| && Offset(lines, j) == p
  }

  lemma NoOffsetWithin(x: string, rest: seq<string>, p: nat)
    requires 0 < p < |x|
    ensures !IsOffset([x] + rest, p)
  {
    forall j: nat | j <= |rest| + 1
      ensures Offset([x] + rest, j) != p
    {
      if j > 0 {
        OffsetCons(x, rest, j - 1);
      }
    }
  }

  lemma OffsetShifts(x: string, rest: seq<string>, p: nat)
    requires x != ""
    ensures IsOffset([x] + rest, |x| + p) <==> IsOffset(rest, p)
  {
    forall j: nat | j <= |rest|
      ensures Offset([x] + rest, j + 1) == |x| + Offset(rest, j)
    {
      OffsetCons(x, rest, j);
    }
    if IsOffset([x] + rest, |x| + p) {
      var j: nat :| j <= |rest| + 1 && Offset([x] + rest, j) == |x| + p;
      var n: nat := j - 1;
      assert Offset([x] + rest, n + 1) == |x| + Offset(rest, n);
    }
    if IsOffset(rest, p) {
      var n: nat :| n <= |rest| && Offset(rest, n) == p;
      assert Offset([x] + rest, n + 1) == |x| + p;
    }
  }

  /** Where the first line ends and where a later one does, in terms of the rest of the text. */
  lemma {:induction false} OffsetStep(s: string, e: nat, p: nat)
    requires 0 < p < |s| && e == FirstLine(s)
    ensures IsOffset(SplitLines(s), p) <==> p == e || (p > e && IsOffset(SplitLines(s[e..]), p - e))
  {
    var rest := SplitLines(s[e..]);
    assert SplitLines(s) == [s[..e]] + rest;
    if p < e {
      NoOffsetWithin(s[..e], rest, p);
    } else {
      OffsetShifts(s[..e], rest, p - e);
      assert Offset(rest, 0) == 0;
    }
  }

  /**
   Lines begin exactly after a line feed, vertical tab, form feed, carriage return, file, group or record
   separator, next line, line or paragraph separator, but not between a carriage return and its line feed.
   */
  lemma {:induction false} LinesEndAtBreaks(s: string, p: nat)
    requires 0 < p < |s|
    ensures
      var before, after := s[p - 1] as int, s[p] as int;
      IsOffset(SplitLines(s), p) <==>
        && (before in {10, 11, 12, 13, 28, 29, 30, 0x85, 0x2028, 0x2029})
        && !(before == 13 && after == 10)
  {
    LinesEnd(s, p);
  }

  lemma {:induction false} LinesEnd(s: string, p: nat)
    requires 0 < p < |s|
    ensures IsOffset(SplitLines(s), p) <==> LineEndsAt(s, p)
    decreases |s|
  {
    var e := FirstLine(s);
    OffsetStep(s, e, p);
    if p > e {
      var rest, q := s[e..], p - e;
      LinesEnd(rest, q);
    }
  }

  // ---- Chunks ----

  function Concat(parts: seq<string>): string {
    if parts == [] then "" else Concat(parts[..|parts| - 1]) + parts[|parts| - 1]
  }

  lemma {:induction false} ConcatLength(parts: seq<string>)
    ensures |Concat(parts)| == Offset(parts, |parts|)
  {
    if parts != [] {
      var n: nat := |parts| - 1;
      ConcatLength(parts[..n]);
      OffsetPrefix(parts[..n], parts[n..], n);
      assert parts[..n] + parts[n..] == parts;
    }
  }

  /**
   A cut at `p`, after a chunk of `size` characters, is due either inside line `j`, which no chunk
   can hold, and then the chunk is full; or at the end of line `j - 1`, and then that line is one
   of those, or it is the last, or the next line would not have fitted.
   */
  ghost predicate DueInside(lines: seq<string>, limit: nat, size: nat, p: nat, j: nat) {
    j < |lines| && |lines[j]| > limit && Offset(lines, j) < p < Offset(lines, j + 1) && size == limit
  }

  ghost predicate DueAtEnd(lines: seq<string>, limit: nat, size: nat, p: nat, j: nat) {
    && 0 < j <= |lines| && p == Offset(lines, j)
    && (j == |lines| || |lines[j - 1]| > limit || size + |lines[j]| > limit)
  }

  ghost predicate CutIsDue(lines: seq<string>, limit: nat, size: nat, p: nat) {
    exists j: nat :: DueInside(lines, limit, size, p, j) || DueAtEnd(lines, limit, size, p, j)
  }

  /**
   What it takes for a cut at `p`, after `size` characters, to be due: the piece is full and the cut lies
   within a line that no piece can hold, or it lies at the end of a line that is the last, or such a line,
   or followed by one that would not have fitted.
   */
  lemma DueMeans(lines: seq<string>, limit: nat, size: nat, p: nat) returns (j: nat)
    requires CutIsDue(lines, limit, size, p)
    ensures
      || (j < |lines| && size == limit < |lines[j]| && Offset(lines, j) < p < Offset(lines, j + 1))
      || (0 < j <= |lines| && p == Offset(lines, j)
          && (j == |lines| || |lines[j - 1]| > limit || size + |lines[j]| > limit))
  {
    j :| DueInside(lines, limit, size, p, j) || DueAtEnd(lines, limit, size, p, j);
  }

  ghost predicate Fits(chunks: seq<string>, limit: nat) {
    forall i :: 0 <= i < |chunks| ==> 0 < |chunks[i]| <= limit
  }

  ghost predicate CutsAreDue(lines: seq<string>, limit: nat, chunks: seq<string>, upto: nat)
    requires upto <= |chunks|
  {
    forall i: nat :: 0 < i <= upto ==> CutIsDue(lines, limit, |chunks[i - 1]|, Offset(chunks, i))
  }

  /** What has been cut off so far is the text up to `at`, in pieces as they should be. */
  ghost predicate Good(content: string, lines: seq<string>, limit: nat, chunks: seq<string>, at: nat) {
    && at <= |content| && Concat(chunks) == content[..at]
    && Fits(chunks, limit)
    && CutsAreDue(lines, limit, chunks, |chunks|)
  }

  lemma {:induction false} CutsStayDue(lines: seq<string>, limit: nat, chunks: seq<string>, piece: string, end: nat)
    requires CutsAreDue(lines, limit, chunks, |chunks|)
    requires end == |Concat(chunks)| + |piece|
    ensures CutsAreDue(lines, limit, chunks + [piece], |chunks|)
    ensures CutIsDue(lines, limit, |piece|, end) ==> CutsAreDue(lines, limit, chunks + [piece], |chunks + [piece]|)
  {
    var all := chunks + [piece];
    ConcatLength(chunks);
    OffsetPrefix(chunks, [piece], |chunks|);
    forall i: nat | 0 < i <= |chunks|
      ensures CutIsDue(lines, limit, |all[i - 1]|, Offset(all, i))
    {
      OffsetPrefix(chunks, [piece], i);
    }
  }

  lemma Push(content: string, lines: seq<string>, limit: nat, chunks: seq<string>, at: nat, piece: string)
    requires Good(content, lines, limit, chunks, at)
    requires at + |piece| <= |content| && piece == content[at..at + |piece|] && 0 < |piece| <= limit
    requires CutIsDue(lines, limit, |piece|, at + |piece|)
    ensures Good(content, lines, limit, chunks + [piece], at + |piece|)
  {
    var end := at + |piece|;
    CutsStayDue(lines, limit, chunks, piece, end);
  }

  lemma SliceOfLine(content: string, from: nat, line: string, i: nat, j: nat)
    requires from + |line| <= |content| && line == content[from..from + |line|] && i <= j <= |line|
    ensures line[i..j] == content[from + i..from + j]
  {
    forall x | 0 <= x < j - i
      ensures line[i..j][x] == content[from + i..from + j][x]
    {
      assert line[i + x] == content[from + (i + x)];
    }
  }

  lemma {:induction false} CutInLong(lines: seq<string>, limit: nat, k: nat, size: nat, stop: nat)
    requires k < |lines| && |lines[k]| > limit && 0 < stop <= |lines[k]|
    requires stop < |lines[k]| ==> size == limit
    ensures CutIsDue(lines, limit, size, Offset(lines, k) + stop)
  {
    assert Offset(lines, k + 1) == Offset(lines, k) + |lines[k]|;
    if stop < |lines[k]| {
      assert DueInside(lines, limit, size, Offset(lines, k) + stop, k);
    } else {
      assert DueAtEnd(lines, limit, size, Offset(lines, k) + stop, k + 1);
    }
  }

  /** A stretch of the text that is all one line, the `k`-th. */
  ghost predicate IsLine(content: string, lines: seq<string>, line: string, k: nat, from: nat) {
    && k < |lines| && line == lines[k] && from == Offset(lines, k)
    && from + |line| <= |content| && line == content[from..from + |line|]
  }

  lemma PushPiece(content: string, lines: seq<string>, limit: nat, chunks: seq<string>, line: string, k: nat,
      from: nat, at: nat, piece: string)
    requires IsLine(content, lines, line, k, from) && |line| > limit && 0 < |piece| <= limit
    requires from <= at && at + |piece| <= from + |line| && (at + |piece| < from + |line| ==> |piece| == limit)
    requires piece == content[at..at + |piece|]
    requires Good(content, lines, limit, chunks, at)
    ensures Good(content, lines, limit, chunks + [piece], at + |piece|)
  {
    CutInLong(lines, limit, k, |piece|, at + |piece| - from);
    Push(content, lines, limit, chunks, at, piece);
  }

  /** Hard-splits a line that fits nowhere: the `k`-th, at `from` in the text. */
  method SplitLong(line: string, limit: nat, chunks: seq<string>, ghost content: string, ghost lines: seq<string>,
    ghost k: nat, ghost from: nat)
    returns (more: seq<string>)
    requires IsLine(content, lines, line, k, from) && |line| > limit >= 1
    requires Good(content, lines, limit, chunks, from)
    ensures Good(content, lines, limit, more, from + |line|)
  {
    more := chunks;
    var start := 0;
    while start < |line|
      invariant 0 <= start
      invariant Good(content, lines, limit, more, from + if start < |line| then start else |line|)
    {
      var stop := if start + limit < |line| then start + limit else |line|;
      var piece := line[start..stop];
      SliceOfLine(content, from, line, start, stop);
      PushPiece(content, lines, limit, more, line, k, from, from + start, piece);
      more := more + [piece];
      start := start + limit;
    }
  }

  /** The text `current` is waiting between `at` and `end`, where the `k`-th line starts. */
  ghost predicate Waiting(content: string, lines: seq<string>, limit: nat, chunks: seq<string>,
      current: string, at: nat, end: nat) {
    && Good(content, lines, limit, chunks, at)
    && at + |current| == end <= |content| && current == content[at..end] && |current| <= limit
  }

  /** The `k`-th line starts at `end`, where the text ends if there is no such line. */
  ghost predicate AtLine(content: string, lines: seq<string>, k: nat, end: nat) {
    k <= |lines| && end == Offset(lines, k) && end <= |content| && (k == |lines| ==> end == |content|)
  }

  lemma {:induction false} NextLine(content: string, lines: seq<string>, k: nat, end: nat)
    requires lines == SplitLines(content) && AtLine(content, lines, k, end) && k < |lines|
    ensures IsLine(content, lines, lines[k], k, end)
    ensures AtLine(content, lines, k + 1, end + |lines[k]|)
  {
    LinesTile(content);
    assert SliceAt(content, lines, k);
  }

  lemma PushCurrent(content: string, lines: seq<string>, limit: nat, chunks: seq<string>, current: string,
      at: nat, end: nat, line: string, k: nat)
    requires Waiting(content, lines, limit, chunks, current, at, end) && current != ""
    requires k > 0 && IsLine(content, lines, line, k, end) && |current| + |line| > limit
    ensures Good(content, lines, limit, chunks + [current], end)
  {
    assert DueAtEnd(lines, limit, |current|, end, k);
    Push(content, lines, limit, chunks, at, current);
  }

  /** The pieces once the text that still waits, if any, is the last of them. */
  function WithRest(chunks: seq<string>, current: string): seq<string> {
    if current == "" then chunks else chunks + [current]
  }

  lemma {:induction false} PushRest(content: string, lines: seq<string>, limit: nat, chunks: seq<string>,
      current: string, at: nat)
    requires content != "" && Waiting(content, lines, limit, chunks, current, at, |content|)
    ensures
      var all := WithRest(chunks, current);
      && Concat(all) == content && Fits(all, limit)
      && |all| >= 1 && CutsAreDue(lines, limit, all, |all| - 1)
  {
    assert content[..|content|] == content;
    if current != "" {
      CutsStayDue(lines, limit, chunks, current, |content|);
    }
  }

  lemma CutBefore(content: string, lines: seq<string>, limit: nat, chunks: seq<string>, current: string,
      at: nat, end: nat, line: string, k: nat)
    requires Waiting(content, lines, limit, chunks, current, at, end) && current != ""
    requires k > 0 && IsLine(content, lines, line, k, end) && |line| <= limit < |current| + |line|
    ensures Waiting(content, lines, limit, chunks + [current], line, end, end + |line|)
  {
    PushCurrent(content, lines, limit, chunks, current, at, end, line, k);
    assert "" + line == line;
  }

  /** Adds the `k`-th line, which starts at `end` in the text, to the pieces and to what waits. */
  method PackLine(line: string, limit: nat, chunks: seq<string>, current: string, ghost content: string,
    ghost lines: seq<string>, ghost k: nat, ghost at: nat, ghost end: nat)
    returns (more: seq<string>, rest: string, ghost from: nat)
    requires limit >= 1 && IsLine(content, lines, line, k, end) && (current != "" ==> k > 0)
    requires Waiting(content, lines, limit, chunks, current, at, end)
    ensures Waiting(content, lines, limit, more, rest, from, end + |line|)
  {
    more := chunks;
    if |line| > limit {
      if current != "" {
        PushCurrent(content, lines, limit, chunks, current, at, end, line, k);
        more := more + [current];
      }
      more := SplitLong(line, limit, more, content, lines, k, end);
      rest, from := "", end + |line|;
    } else if |current| + |line| > limit {
      CutBefore(content, lines, limit, chunks, current, at, end, line, k);
      more, rest, from := more + [current], line, end;
    } else {
      rest, from := current + line, at;
    }
  }

  /**
   The pieces put together are the message; each fits and none is empty, unless the message is;
   and a line is broken only when it fits nowhere, other lines being packed while they fit.
   */
  method ChunkMessage(content: string, limit: nat) returns (chunks: seq<string>)
    requires limit >= 1
    ensures Concat(chunks) == content
    ensures if content == "" then chunks == [""]
            else forall i :: 0 <= i < |chunks| ==> 0 < |chunks[i]| <= limit
    ensures |chunks| >= 1 && CutsAreDue(SplitLines(content), limit, chunks, |chunks| - 1)
    ensures |content| <= limit ==> chunks == [content]
  {
    if |content| <= limit {
      return [content];
    }
    var lines := SplitLines(content);
    LinesTile(content);
    chunks := [];
    var current := "";
    ghost var at: nat, end: nat := 0, 0;
    var k := 0;
    while k < |lines|
      invariant 0 <= k <= |lines| && AtLine(content, lines, k, end)
      invariant current != "" ==> k > 0
      invariant Waiting(content, lines, limit, chunks, current, at, end)
    {
      var line := lines[k];
      NextLine(content, lines, k, end);
      chunks, current, at := PackLine(line, limit, chunks, current, content, lines, k, at, end);
      end := end + |line|;
      k := k + 1;
    }
    PushRest(content, lines, limit, chunks, current, at);
    if current != "" {
      chunks := chunks + [current];
    }
  }
}
