/**
 Restore on boot: a staged database copy is swapped in by a few file operations, and a boot may
 be cut off after any of them.

 The disk maps paths to regular files and folders. A file is UTF-8 text, as a sequence of lines, or
 bytes that are not. A folder that does not hold the database stands for everything in it. The boot
 reads the marker before it writes anything, so what it is going to do is a plan fixed by what it
 finds.
 */
module Restore {

  type Path = string

  datatype Content = Text(lines: seq<string>) | Undecodable(bytes: seq<bv8>)

  datatype Node = File(content: Content) | Folder

  type Files = map<Path, Node>

  /** The files a restore touches. */
  datatype Layout = Layout(db: Path, wal: Path, shm: Path, pending: Path, marker: Path)

  function LayoutOf(db: Path): Layout {
    Layout(db, db + "-wal", db + "-shm", db + ".restore-pending", db + ".restore-marker")
  }

  ghost predicate Distinct(l: Layout) {
    && l.db != l.wal && l.db != l.shm && l.db != l.pending && l.db != l.marker
    && l.wal != l.shm && l.wal != l.pending && l.wal != l.marker
    && l.shm != l.pending && l.shm != l.marker
    && l.pending != l.marker && l.pending != ""
  }

  /** Whatever the database path, the five paths differ. */
  lemma LayoutDistinct(db: Path)
    ensures Distinct(LayoutOf(db))
  {
    var l := LayoutOf(db);
    var n := |db|;
    assert l.wal[n] == l.shm[n] == '-' && l.pending[n] == l.marker[n] == '.';
    assert l.wal[n + 1] == 'w' && l.shm[n + 1] == 's';
    assert l.pending[n + 9] == 'p' && l.marker[n + 9] == 'm';
    assert |l.wal| > n && |l.shm| > n && |l.pending| > n && |l.marker| > n;
  }

  predicate IsFolder(files: Files, p: Path) {
    p in files && files[p].Folder?
  }

  /** The path `p` lies below the folder `folder`. */
  predicate Holds(folder: Path, p: Path) {
    && folder != "" && |folder| < |p| && p[..|folder|] == folder
    && (folder[|folder| - 1] == '/' || p[|folder|] == '/')
  }

  predicate IsText(files: Files, p: Path) {
    p in files && files[p].File? && files[p].content.Text?
  }

  predicate IsUndecodable(files: Files, p: Path) {
    p in files && files[p].File? && files[p].content.Undecodable?
  }

  /**
   One file operation: unlinking what may be missing, moving one path to another, or decoding a file
   that is not text.
   */
  datatype Op = Unlink(path: Path) | Replace(src: Path, dst: Path) | Decode

  /**
   Unlinking a folder raises. Replacing raises without a source, between a file and a folder, and
   when it would move a folder below itself. Decoding what is not text raises.
   */
  predicate Raises(files: Files, op: Op) {
    match op
    case Unlink(p) => IsFolder(files, p)
    case Replace(src, dst) =>
      || src !in files
      || (src != dst && dst in files && (files[src].Folder? || files[dst].Folder?))
      || (files[src].Folder? && Holds(src, dst))
    case Decode => true
  }

  function Perform(files: Files, op: Op): Files
    requires !Raises(files, op)
  {
    match op
    case Unlink(p) => files - {p}
    case Replace(src, dst) => if src == dst then files else (files - {src})[dst := files[src]]
    case Decode => files
  }

  datatype Progress = Progress(files: Files, trace: seq<Files>, ok: bool)

  function Advance(p: Progress, op: Op): Progress {
    if !p.ok || Raises(p.files, op) then p.(ok := false)
    else
      var next := Perform(p.files, op);
      Progress(next, p.trace + [next], true)
  }

  /** The operations in turn, with the files after each one; one that raises stops the rest. */
  function Run(files: Files, ops: seq<Op>): Progress {
    if ops == [] then Progress(files, [], true)
    else Advance(Run(files, ops[..|ops| - 1]), ops[|ops| - 1])
  }

  lemma {:induction false} RunStep(files: Files, ops: seq<Op>, k: nat)
    requires k < |ops|
    ensures Run(files, ops[..k + 1]) == Advance(Run(files, ops[..k]), ops[k])
  {
    assert ops[..k + 1][..k] == ops[..k];
  }

  /** The path a marker of these lines names, or the empty path. */
  function FirstLine(lines: seq<string>): Path {
    if lines == [] then "" else lines[0]
  }

  function Named(l: Layout, files: Files): Path
    requires IsText(files, l.marker)
  {
    FirstLine(files[l.marker].content.lines)
  }

  /**
   What a boot is going to do; `readable` says whether the system lets it read a marker that is a
   file. Only a failure of the system is handled: a marker that can be read but not decoded raises.
   */
  function Plan(l: Layout, readable: bool, files: Files): seq<Op> {
    if l.marker !in files then []
    else if !readable || files[l.marker].Folder? then [Unlink(l.marker)]
    else if files[l.marker].content.Undecodable? then [Decode]
    else
      var pending := Named(l, files);
      if pending == "" || pending !in files then [Unlink(l.marker)] else SwapPlan(l, pending)
  }

  function SwapPlan(l: Layout, pending: Path): seq<Op> {
    [Unlink(l.db), Unlink(l.wal), Unlink(l.shm), Replace(pending, l.db), Unlink(l.marker)]
  }

  function Boot(l: Layout, readable: bool, files: Files): Files {
    Run(files, Plan(l, readable, files)).files
  }

  /** A boot cut off after `k` operations. */
  function CutOff(l: Layout, readable: bool, files: Files, k: nat): Files {
    var plan := Plan(l, readable, files);
    Run(files, if k < |plan| then plan[..k] else plan).files
  }

  function CutOffBoots(l: Layout, files: Files, cuts: seq<nat>): Files {
    if cuts == [] then files
    else CutOff(l, true, CutOffBoots(l, files, cuts[..|cuts| - 1]), cuts[|cuts| - 1])
  }

  /** Text after the last separator. */
  function LastPart(p: Path): string {
    if p == "" || p[|p| - 1] == '/' then "" else LastPart(p[..|p| - 1]) + [p[|p| - 1]]
  }

  /** The last part of a path that is not empty or a dot: the name reported when the marker carries none. */
  function BaseName(p: Path): string {
    if p == "" then ""
    else if p[|p| - 1] == '/' || LastPart(p) == "." then BaseName(p[..|p| - 1])
    else LastPart(p)
  }

  lemma {:induction false} LastPartIs(dir: Path, part: string)
    requires '/' !in part && (dir == "" || dir[|dir| - 1] == '/')
    ensures LastPart(dir + part) == part
  {
    if part != "" {
      var init := part[..|part| - 1];
      assert part == init + [part[|part| - 1]] && (dir + part)[..|dir + part| - 1] == dir + init;
      LastPartIs(dir, init);
    } else {
      assert dir + part == dir;
    }
  }

  /** Slashes after a name do not change it, and what comes before it is no part of it. */
  lemma {:induction false} BaseNameIs(dir: Path, part: string, slashes: string)
    requires '/' !in part && part != "" && part != "." && (dir == "" || dir[|dir| - 1] == '/')
    requires forall i :: 0 <= i < |slashes| ==> slashes[i] == '/'
    ensures BaseName(dir + part + slashes) == part
  {
    var p := dir + part + slashes;
    if slashes == "" {
      assert p == dir + part;
      LastPartIs(dir, part);
    } else {
      assert p[..|p| - 1] == dir + part + slashes[..|slashes| - 1];
      BaseNameIs(dir, part, slashes[..|slashes| - 1]);
    }
  }

  /** A path with nothing but slashes has no name. */
  lemma {:induction false} NamelessIs(slashes: Path)
    requires forall i :: 0 <= i < |slashes| ==> slashes[i] == '/'
    ensures BaseName(slashes) == ""
  {
    if slashes != "" {
      NamelessIs(slashes[..|slashes| - 1]);
    }
  }

  /** A dot as the last part counts for nothing. */
  lemma {:induction false} DotIsNoName(dir: Path)
    requires dir == "" || dir[|dir| - 1] == '/'
    ensures BaseName(dir + ".") == BaseName(dir)
  {
    LastPartIs(dir, ".");
    assert (dir + ".")[..|dir + "."| - 1] == dir;
  }

  datatype Outcome = NothingApplied | Applied(name: string) | Raised

  function Report(l: Layout, readable: bool, files: Files): Outcome {
    if !Run(files, Plan(l, readable, files)).ok then Raised
    else if |Plan(l, readable, files)| < 5 then NothingApplied
    else
      var lines := files[l.marker].content.lines;
      Applied(if |lines| > 1 then lines[1] else BaseName(FirstLine(lines)))
  }

  /** The disk the boot works on. The ghost `trace` records the files after every operation. */
  class Disk {
    var files: Files
    ghost var trace: seq<Files>

    constructor (files: Files)
      ensures this.files == files && trace == []
    {
      this.files := files;
      trace := [];
    }

    method UnlinkFile(p: Path) returns (ok: bool)
      modifies this
      ensures Progress(files, trace, ok) == Advance(Progress(old(files), old(trace), true), Unlink(p))
    {
      ok := !(p in files && files[p].Folder?);
      if ok {
        files := files - {p};
        trace := trace + [files];
      }
    }

    method ReplaceFile(src: Path, dst: Path) returns (ok: bool)
      modifies this
      ensures Progress(files, trace, ok) == Advance(Progress(old(files), old(trace), true), Replace(src, dst))
    {
      ok := src in files;
      if ok && src != dst && dst in files && (files[src].Folder? || files[dst].Folder?) {
        ok := false;
      }
      if ok && files[src].Folder? && Holds(src, dst) {
        ok := false;
      }
      if ok {
        if src != dst {
          files := (files - {src})[dst := files[src]];
        }
        trace := trace + [files];
      }
    }

    method WriteFile(p: Path, content: Content)
      modifies this
      ensures files == old(files)[p := File(content)] && trace == old(trace) + [files]
    {
      files := files[p := File(content)];
      trace := trace + [files];
    }

    /** Stages a retrieved backup: the copy first, the marker last; a backup that fails its check changes nothing. */
    method StageRestore(l: Layout, backup: Content, name: string, intact: bool) returns (staged: bool)
      requires Distinct(l) && !IsFolder(files, l.pending) && !IsFolder(files, l.marker)
      modifies this
      ensures staged <==> intact
      ensures !staged ==> files == old(files) && trace == old(trace)
      ensures staged ==>
        && Staged(l, files, backup, name)
        && files == old(files)[l.pending := File(backup)][l.marker := File(Text([l.pending, name]))]
        && trace == old(trace) + [old(files)[l.pending := File(backup)], files]
    {
      if !intact {
        return false;
      }
      WriteFile(l.pending, backup);
      WriteFile(l.marker, Text([l.pending, name]));
      return true;
    }

    /** Applies a staged restore; its intermediate states are those of the plan. */
    method ApplyPendingRestore(l: Layout, readable: bool) returns (outcome: Outcome)
      modifies this
      ensures files == Boot(l, readable, old(files))
      ensures trace == old(trace) + Run(old(files), Plan(l, readable, old(files))).trace
      ensures outcome == Report(l, readable, old(files))
    {
      if l.marker !in files {
        return NothingApplied;
      }
      FullPlanOfOne(files, Unlink(l.marker));
      OntoAdvance(trace, Progress(files, [], true), Unlink(l.marker));
      var ok := true;
      if !readable || files[l.marker].Folder? {
        ok := UnlinkFile(l.marker);
        return if ok then NothingApplied else Raised;
      }
      if files[l.marker].content.Undecodable? {
        FullPlanOfOne(files, Decode);
        return Raised;
      }
      var lines := files[l.marker].content.lines;
      var pending := if lines != [] then lines[0] else "";
      var name := if |lines| > 1 then lines[1] else BaseName(pending);
      if pending == "" || pending !in files {
        ok := UnlinkFile(l.marker);
        return if ok then NothingApplied else Raised;
      }
      ok := Swap(l, pending);
      outcome := if ok then Applied(name) else Raised;
    }

    /** The five operations of the plan, in order; one that raises ends the boot. */
    method Swap(l: Layout, pending: Path) returns (ok: bool)
      modifies this
      ensures Progress(files, trace, ok) == Onto(old(trace), Run(old(files), SwapPlan(l, pending)))
    {
      FullPlan(old(trace), files, SwapPlan(l, pending));
      ok := UnlinkFile(l.db);
      if ok {
        ok := UnlinkFile(l.wal);
      }
      if ok {
        ok := UnlinkFile(l.shm);
      }
      if ok {
        ok := ReplaceFile(pending, l.db);
      }
      if ok {
        ok := UnlinkFile(l.marker);
      }
    }
  }

  lemma {:induction false} FullPlanOfOne(files: Files, op: Op)
    ensures Run(files, [op]) == Advance(Progress(files, [], true), op)
  {
    assert [op][..0] == [];
  }

  /** The same progress, after an earlier trace. */
  function Onto(t: seq<Files>, p: Progress): Progress {
    p.(trace := t + p.trace)
  }

  lemma OntoAdvance(t: seq<Files>, p: Progress, op: Op)
    ensures Advance(Onto(t, p), op) == Onto(t, Advance(p, op))
  {
  }

  /** A plan of five operations, unfolded. */
  lemma {:induction false} FullPlan(t: seq<Files>, files: Files, plan: seq<Op>)
    requires |plan| == 5
    ensures
      var p0 := Progress(files, t, true);
      Onto(t, Run(files, plan)) ==
      Advance(Advance(Advance(Advance(Advance(p0, plan[0]), plan[1]), plan[2]), plan[3]), plan[4])
  {
    Prefixes(files, plan);
    assert plan[..5] == plan;
    assert Onto(t, Run(files, plan[..0])) == Progress(files, t, true);
    OntoAdvance(t, Run(files, plan[..0]), plan[0]);
    OntoAdvance(t, Run(files, plan[..1]), plan[1]);
    OntoAdvance(t, Run(files, plan[..2]), plan[2]);
    OntoAdvance(t, Run(files, plan[..3]), plan[3]);
    OntoAdvance(t, Run(files, plan[..4]), plan[4]);
  }

  lemma {:induction false} Prefixes(files: Files, plan: seq<Op>)
    requires |plan| == 5
    ensures Run(files, plan[..0]) == Progress(files, [], true)
    ensures Run(files, plan[..1]) == Advance(Run(files, plan[..0]), plan[0])
    ensures Run(files, plan[..2]) == Advance(Run(files, plan[..1]), plan[1])
    ensures Run(files, plan[..3]) == Advance(Run(files, plan[..2]), plan[2])
    ensures Run(files, plan[..4]) == Advance(Run(files, plan[..3]), plan[3])
    ensures Run(files, plan[..5]) == Advance(Run(files, plan[..4]), plan[4])
  {
    assert plan[..0] == [];
    RunStep(files, plan, 0);
    RunStep(files, plan, 1);
    RunStep(files, plan, 2);
    RunStep(files, plan, 3);
    RunStep(files, plan, 4);
  }

  // ---- Crash safety ----

  /** The database and its companions, where they exist, are regular files. */
  ghost predicate Regular(l: Layout, files: Files) {
    !IsFolder(files, l.db) && !IsFolder(files, l.wal) && !IsFolder(files, l.shm)
  }

  /** A complete pending copy and the marker that names it. */
  ghost predicate Staged(l: Layout, files: Files, staged: Content, name: string) {
    && l.marker in files && files[l.marker] == File(Text([l.pending, name]))
    && l.pending in files && files[l.pending] == File(staged)
  }

  /** The files once the restore is complete: the backup as the database and no companions. */
  function Restored(l: Layout, files: Files, staged: Content): Files {
    (files - {l.db, l.wal, l.shm, l.pending, l.marker})[l.db := File(staged)]
  }

  /** The states of a restore of `files`, by how many operations of the plan are done. */
  function Stage(l: Layout, files: Files, staged: Content, done: nat): Files
    requires done <= 5
  {
    if done == 0 then files
    else if done == 1 then files - {l.db}
    else if done == 2 then files - {l.db, l.wal}
    else if done == 3 then files - {l.db, l.wal, l.shm}
    else if done == 4 then (files - {l.db, l.wal, l.shm, l.pending})[l.db := File(staged)]
    else Restored(l, files, staged)
  }

  /** A boot cut off anywhere only moves the restore forward, and one that is not cut off finishes it. */
  lemma {:induction false} CutOffAdvances(l: Layout, files: Files, staged: Content, name: string, done: nat, k: nat)
    returns (done': nat)
    requires Distinct(l) && Regular(l, files) && Staged(l, files, staged, name) && done <= 5
    ensures done <= done' <= 5
    ensures CutOff(l, true, Stage(l, files, staged, done), k) == Stage(l, files, staged, done')
    ensures k >= 5 ==> done' == 5
  {
    var now := Stage(l, files, staged, done);
    var plan := Plan(l, true, now);
    if done == 5 {
      done' := 5;
    } else if done == 4 {
      assert plan == [Unlink(l.marker)];
      FullPlanOfOne(now, plan[0]);
      done' := if k == 0 then 4 else 5;
      assert plan[..0] == [];
    } else {
      assert plan == SwapPlan(l, l.pending);
      var n := if k < 5 then k else 5;
      done' := if n <= done then done else n;
      SwapStates(l, now, n);
      StageTwice(l, files, staged, done, n);
      assert plan[..5] == plan;
    }
  }

  /** Starting over from an interrupted restore reaches the same states. */
  lemma {:induction false} StageTwice(l: Layout, files: Files, staged: Content, done: nat, n: nat)
    requires Distinct(l) && done <= 3 && n <= 5
    ensures Stage(l, Stage(l, files, staged, done), staged, n) == Stage(l, files, staged, if n <= done then done else n)
  {
  }

  lemma {:induction false} SwapStates(l: Layout, files: Files, n: nat)
    requires Distinct(l) && Regular(l, files) && n <= 5
    requires l.marker in files && files[l.marker].File? && l.pending in files && files[l.pending].File?
    ensures Run(files, SwapPlan(l, l.pending)[..n]).files == Stage(l, files, files[l.pending].content, n)
    ensures Run(files, SwapPlan(l, l.pending)[..n]).ok
  {
    var plan := SwapPlan(l, l.pending);
    if n == 0 {
      assert plan[..0] == [];
    } else {
      RunStep(files, plan, n - 1);
      SwapStates(l, files, n - 1);
      StageStep(l, files, n - 1);
    }
  }

  lemma {:induction false} StageStep(l: Layout, files: Files, n: nat)
    requires Distinct(l) && Regular(l, files) && n < 5
    requires l.marker in files && files[l.marker].File? && l.pending in files && files[l.pending].File?
    ensures
      var now := Stage(l, files, files[l.pending].content, n);
      var op := SwapPlan(l, l.pending)[n];
      !Raises(now, op) && Perform(now, op) == Stage(l, files, files[l.pending].content, n + 1)
  {
  }

  lemma {:induction false} CutOffBootsStage(l: Layout, files: Files, staged: Content, name: string, cuts: seq<nat>)
    returns (done: nat)
    requires Distinct(l) && Regular(l, files) && Staged(l, files, staged, name)
    ensures done <= 5 && CutOffBoots(l, files, cuts) == Stage(l, files, staged, done)
  {
    if cuts == [] {
      done := 0;
    } else {
      var before := CutOffBootsStage(l, files, staged, name, cuts[..|cuts| - 1]);
      done := CutOffAdvances(l, files, staged, name, before, cuts[|cuts| - 1]);
    }
  }

  /** With a folder in place of the database or a companion, a boot gets no further than unlinking. */
  lemma {:induction false} IrregularStays(l: Layout, files: Files, staged: Content, name: string, n: nat)
    requires Distinct(l) && !Regular(l, files) && Staged(l, files, staged, name) && n <= 5
    ensures var p := Run(files, SwapPlan(l, l.pending)[..n]);
      && Staged(l, p.files, staged, name) && !Regular(l, p.files)
      && (p.ok ==> n <= 2 && Cleared(l, p.files, n))
      && (l.db in p.files ==> p.files == files)
  {
    var plan := SwapPlan(l, l.pending);
    if n == 0 {
      assert plan[..0] == [];
    } else {
      RunStep(files, plan, n - 1);
      IrregularStays(l, files, staged, name, n - 1);
      IrregularStep(l, Run(files, plan[..n - 1]), staged, name, n - 1);
    }
  }

  lemma IrregularStep(l: Layout, p: Progress, staged: Content, name: string, n: nat)
    requires Distinct(l) && n < 5 && Staged(l, p.files, staged, name) && !Regular(l, p.files)
    requires p.ok ==> n <= 2 && Cleared(l, p.files, n)
    ensures var p' := Advance(p, SwapPlan(l, l.pending)[n]);
      && Staged(l, p'.files, staged, name) && !Regular(l, p'.files)
      && (p'.ok ==> n < 2 && Cleared(l, p'.files, n + 1))
      && (l.db in p'.files ==> p'.files == p.files)
  {
  }

  /** The first `n` of the three paths are gone. */
  ghost predicate Cleared(l: Layout, files: Files, n: nat) {
    (n > 0 ==> l.db !in files) && (n > 1 ==> l.wal !in files) && (n > 2 ==> l.shm !in files)
  }

  lemma {:induction false} IrregularBoots(l: Layout, files: Files, staged: Content, name: string, cuts: seq<nat>)
    requires Distinct(l) && !Regular(l, files) && Staged(l, files, staged, name)
    ensures Staged(l, CutOffBoots(l, files, cuts), staged, name) && !Regular(l, CutOffBoots(l, files, cuts))
    ensures l.db in CutOffBoots(l, files, cuts) ==> CutOffBoots(l, files, cuts) == files
  {
    if cuts != [] {
      IrregularBoots(l, files, staged, name, cuts[..|cuts| - 1]);
      var now, k := CutOffBoots(l, files, cuts[..|cuts| - 1]), cuts[|cuts| - 1];
      var plan := SwapPlan(l, l.pending);
      assert Plan(l, true, now) == plan && plan[..5] == plan;
      IrregularStays(l, now, staged, name, if k < 5 then k else 5);
    }
  }

  /**
   However many boots are cut off, and wherever, the next full boot leaves the backup as the
   database, no companions, no pending copy, no marker, and every other file as it was, exactly when
   no folder stands in place of the database or a companion.
   */
  lemma {:induction false} RestoreIsCrashSafe(db: Path, files: Files, staged: Content, name: string, cuts: seq<nat>)
    requires Staged(LayoutOf(db), files, staged, name)
    ensures
      var after := Boot(LayoutOf(db), true, CutOffBoots(LayoutOf(db), files, cuts));
      after == Restored(LayoutOf(db), files, staged) <==> Regular(LayoutOf(db), files)
  {
    var l := LayoutOf(db);
    LayoutDistinct(db);
    var now := CutOffBoots(l, files, cuts);
    assert CutOff(l, true, now, 5) == Boot(l, true, now);
    if Regular(l, files) {
      var done := CutOffBootsStage(l, files, staged, name, cuts);
      var last := CutOffAdvances(l, files, staged, name, done, 5);
    } else {
      IrregularBoots(l, files, staged, name, cuts);
      IrregularBoots(l, files, staged, name, cuts + [5]);
      assert (cuts + [5])[..|cuts|] == cuts;
    }
  }

  /**
   The same on the paths themselves: after any boots cut off anywhere and a full one, the staged backup is
   the database, the write-ahead files, the pending copy and the marker are gone, and all else is as it was.
   */
  lemma {:induction false} RestoreOnPaths(db: Path, files: Files, staged: Content, name: string, cuts: seq<nat>)
    requires db + ".restore-marker" in files
    requires files[db + ".restore-marker"] == File(Text([db + ".restore-pending", name]))
    requires db + ".restore-pending" in files && files[db + ".restore-pending"] == File(staged)
    requires db in files ==> files[db].File?
    requires db + "-wal" in files ==> files[db + "-wal"].File?
    requires db + "-shm" in files ==> files[db + "-shm"].File?
    ensures
      var after := Boot(LayoutOf(db), true, CutOffBoots(LayoutOf(db), files, cuts));
      && db in after && after[db] == File(staged)
      && db + "-wal" !in after && db + "-shm" !in after
      && db + ".restore-pending" !in after && db + ".restore-marker" !in after
    ensures
      var after := Boot(LayoutOf(db), true, CutOffBoots(LayoutOf(db), files, cuts));
      forall p |
        && p != db && p != db + "-wal" && p != db + "-shm"
        && p != db + ".restore-pending" && p != db + ".restore-marker" ::
        (p in after <==> p in files) && (p in files ==> after[p] == files[p])
  {
    RestoreIsCrashSafe(db, files, staged, name, cuts);
    LayoutDistinct(db);
  }

  /** A database with its own companions untouched, or the backup with none. */
  ghost predicate Unmixed(l: Layout, files: Files, staged: Content, now: Files) {
    l.db in now ==>
      || now == files
      || (now[l.db] == File(staged) && l.wal !in now && l.shm !in now && l.pending !in now)
  }

  /** No state in between pairs the restored database with old companions, or the old one with fewer of its own. */
  lemma {:induction false} NeverMixed(db: Path, files: Files, staged: Content, name: string, cuts: seq<nat>)
    requires Staged(LayoutOf(db), files, staged, name)
    ensures Unmixed(LayoutOf(db), files, staged, CutOffBoots(LayoutOf(db), files, cuts))
  {
    LayoutDistinct(db);
    if Regular(LayoutOf(db), files) {
      var done := CutOffBootsStage(LayoutOf(db), files, staged, name, cuts);
    } else {
      IrregularBoots(LayoutOf(db), files, staged, name, cuts);
    }
  }

  /**
   The last boot reports the restore exactly when the pending copy was still there for it to move, and
   raises exactly when a folder stands in place of the database or a companion.
   */
  lemma {:induction false} ReportedIffMoved(db: Path, files: Files, staged: Content, name: string, cuts: seq<nat>)
    requires Staged(LayoutOf(db), files, staged, name)
    ensures
      var now := CutOffBoots(LayoutOf(db), files, cuts);
      Report(LayoutOf(db), true, now) ==
        if !Regular(LayoutOf(db), files) then Raised
        else if LayoutOf(db).pending in now then Applied(name)
        else NothingApplied
  {
    var l := LayoutOf(db);
    LayoutDistinct(db);
    if Regular(l, files) {
      var done := CutOffBootsStage(l, files, staged, name, cuts);
      StageReports(l, files, staged, name, done);
    } else {
      IrregularBoots(l, files, staged, name, cuts);
      var now, plan := CutOffBoots(l, files, cuts), SwapPlan(l, l.pending);
      assert Plan(l, true, now) == plan && plan[..5] == plan;
      IrregularStays(l, now, staged, name, 5);
    }
  }

  lemma {:induction false} StageReports(l: Layout, files: Files, staged: Content, name: string, done: nat)
    requires Distinct(l) && Regular(l, files) && Staged(l, files, staged, name) && done <= 5
    ensures
      var now := Stage(l, files, staged, done);
      Report(l, true, now) == if l.pending in now then Applied(name) else NothingApplied
  {
    var now := Stage(l, files, staged, done);
    if done <= 3 {
      StagedReports(l, now, staged, name);
    } else if done == 4 {
      assert Plan(l, true, now) == [Unlink(l.marker)];
      FullPlanOfOne(now, Unlink(l.marker));
    }
  }

  lemma {:induction false} StagedReports(l: Layout, files: Files, staged: Content, name: string)
    requires Distinct(l) && Regular(l, files) && Staged(l, files, staged, name)
    ensures Report(l, true, files) == Applied(name)
  {
    var plan := SwapPlan(l, l.pending);
    assert Plan(l, true, files) == plan;
    SwapStates(l, files, 5);
    assert plan[..5] == plan;
  }

  // ---- Markers that do not name the pending copy ----

  /** The marker can be read and names something that exists. */
  ghost predicate NamesNode(l: Layout, readable: bool, files: Files) {
    readable && IsText(files, l.marker) && Named(l, files) != "" && Named(l, files) in files
  }

  /** The marker is in the way of every boot: it can neither be read nor unlinked, or not be decoded. */
  ghost predicate MarkerBlocks(l: Layout, readable: bool, files: Files) {
    IsFolder(files, l.marker) || (readable && IsUndecodable(files, l.marker))
  }

  /**
   Without a marker, or with one that names nothing that exists, a boot only ever removes the
   marker; it raises, and leaves that too, exactly when a folder stands there or it does not decode.
   */
  lemma {:induction false} UnstagedBoot(l: Layout, readable: bool, files: Files, k: nat)
    requires !NamesNode(l, readable, files)
    ensures CutOff(l, readable, files, k) == files || CutOff(l, readable, files, k) == files - {l.marker}
    ensures Boot(l, readable, files) == if MarkerBlocks(l, readable, files) then files else files - {l.marker}
    ensures Report(l, readable, files) == if MarkerBlocks(l, readable, files) then Raised else NothingApplied
  {
    if l.marker in files {
      FullPlanOfOne(files, Unlink(l.marker));
      FullPlanOfOne(files, Decode);
      assert Plan(l, readable, files)[..0] == [];
    } else {
      assert files - {l.marker} == files;
    }
  }

  ghost predicate HasDatabase(l: Layout, files: Files) {
    l.db in files && files[l.db].File?
  }

  /**
   Whatever existing path the marker names, the boot leaves no database exactly when that path is
   one of the three it unlinks first, or a folder. It raises, with the marker left for the next boot,
   exactly in the first case and for a folder that holds the database; any other folder becomes the
   database path itself, and any other file becomes the database.
   */
  lemma {:induction false} SwapLosesIff(l: Layout, files: Files)
    requires Distinct(l) && Regular(l, files) && NamesNode(l, true, files)
    ensures
      var named, after := Named(l, files), Boot(l, true, files);
      && (HasDatabase(l, after) <==>
            named != l.db && named != l.wal && named != l.shm && files[named].File?)
      && (HasDatabase(l, after) ==> after[l.db] == files[named])
      && (Report(l, true, files) == Raised <==>
            || named == l.db || named == l.wal || named == l.shm
            || (files[named].Folder? && |named| < |l.db| && l.db[..|named|] == named
                && (named[|named| - 1] == '/' || l.db[|named|] == '/')))
      && (Report(l, true, files) == Raised ==> after == files - {l.db, l.wal, l.shm})
  {
    var plan := SwapPlan(l, Named(l, files));
    Prefixes(files, plan);
    assert plan[..0] == [] && plan[..5] == plan;
    var f3 := Run(files, plan[..3]);
    assert f3.ok && f3.files == files - {l.db, l.wal, l.shm};
  }

  ghost predicate NamesFolder(l: Layout, readable: bool, files: Files) {
    NamesNode(l, readable, files) && files[Named(l, files)].Folder?
  }

  /**
   After a boot that raised, for whatever reason, the next one raises exactly when the marker is a
   folder, does not decode, or names a folder; it then changes nothing, so every later boot raises
   as well. Otherwise it starts the server without having restored anything.
   */
  lemma {:induction false} RaisesAgainIff(l: Layout, readable: bool, files: Files, again: bool)
    requires Distinct(l) && Regular(l, files)
    requires Report(l, readable, files) == Raised
    ensures
      var after := Boot(l, readable, files);
      if MarkerBlocks(l, again, files) || NamesFolder(l, again, files) then
        Report(l, again, after) == Raised && Boot(l, again, after) == after
      else
        Report(l, again, after) == NothingApplied
  {
    var after := Boot(l, readable, files);
    if NamesNode(l, readable, files) {
      SwapLosesIff(l, files);
      if NamesFolder(l, again, files) {
        SwapLosesIff(l, after);
        assert after - {l.db, l.wal, l.shm} == after;
      } else {
        UnstagedBoot(l, again, after, 0);
      }
    } else {
      UnstagedBoot(l, readable, files, 0);
      UnstagedBoot(l, again, files, 0);
    }
  }

  /**
   A marker that was cut short while its first line was being written, after `n` characters or `inside`
   the next one. With a part of a character in it, it does not decode.
   */
  ghost predicate CutMarker(l: Layout, files: Files, n: nat, inside: bool) {
    && n <= |l.pending| && (inside ==> n < |l.pending|)
    && if inside then IsUndecodable(files, l.marker)
       else l.marker in files && files[l.marker] == File(Text(if n == 0 then [] else [l.pending[..n]]))
  }

  /**
   Which cuts of the marker lose the database: those that leave the database's own path, and those
   that leave the path of a folder. The companions and the marker are never named by a cut. A cut that
   leaves the path of any other file puts that file in the database's place, and one that leaves a
   path where nothing is, or no path, touches nothing but the marker. A cut inside a character changes
   nothing and raises. Every later boot raises after such a cut, and after one that leaves the path of
   a folder that holds the database.
   */
  lemma {:induction false} CutMarkerLosesIff(db: Path, files: Files, n: nat, inside: bool)
    requires Regular(LayoutOf(db), files) && HasDatabase(LayoutOf(db), files)
    requires CutMarker(LayoutOf(db), files, n, inside)
    ensures
      var l := LayoutOf(db);
      var p, after := l.pending[..n], Boot(l, true, files);
      && (HasDatabase(l, after) <==> !(!inside && n > 0 && (n == |db| || IsFolder(files, p))))
      && (inside ==> after == files)
      && (!inside && (n == 0 || p !in files) ==> after == files - {l.marker})
      && (!inside && n > 0 && p in files && n != |db| && files[p].File? ==> after[l.db] == files[p])
      && (Report(l, true, files) == Raised <==>
            inside || (n > 0 && (n == |db| || (IsFolder(files, p) && Holds(p, db)))))
      && (Report(l, true, files) == Raised && Report(l, true, after) == Raised <==>
            inside || (n > 0 && IsFolder(files, p) && Holds(p, db)))
  {
    var l := LayoutOf(db);
    LayoutDistinct(db);
    CutsOf(db, n);
    if NamesNode(l, true, files) {
      SwapLosesIff(l, files);
    } else {
      UnstagedBoot(l, true, files, 0);
    }
    if Report(l, true, files) == Raised {
      RaisesAgainIff(l, true, files, true);
    }
  }

  lemma CutsOf(db: Path, n: nat)
    requires n <= |LayoutOf(db).pending|
    ensures
      var l := LayoutOf(db);
      var p := l.pending[..n];
      p != l.wal && p != l.shm && p != l.marker && (p == db <==> n == |db|)
  {
    var l := LayoutOf(db);
    var p := l.pending[..n];
    LayoutDistinct(db);
    assert l.pending[..|db|] == db;
    assert l.pending[|db|] == '.' && l.wal[|db|] == l.shm[|db|] == '-';
    assert l.pending[|db| + 9] == 'p' && l.marker[|db| + 9] == 'm';
    if n > |db| {
      assert p[|db|] == l.pending[|db|];
    }
    if n > |db| + 9 {
      assert p[|db| + 9] == l.pending[|db| + 9];
    }
  }

  /**
   A crash while the backup is being copied to the pending path is harmless exactly when no marker
   was there before: with one, the next boot installs the half-written copy.
   */
  lemma {:induction false} HalfCopyInstalledIff(l: Layout, files: Files, half: Content)
    requires Distinct(l) && Regular(l, files)
    requires l.marker in files ==> IsText(files, l.marker) && Named(l, files) == l.pending
    ensures
      var crashed := files[l.pending := File(half)];
      if l.marker in files then Boot(l, true, crashed) == Restored(l, crashed, half)
      else Boot(l, true, crashed) == crashed
  {
    var crashed := files[l.pending := File(half)];
    if l.marker in files {
      SwapStates(l, crashed, 5);
      assert SwapPlan(l, l.pending)[..5] == SwapPlan(l, l.pending);
    } else {
      UnstagedBoot(l, true, crashed, 0);
      assert crashed - {l.marker} == crashed;
    }
  }

  /** An unreadable marker abandons the restore, and after a boot cut off mid-way no database is left. */
  lemma {:induction false} UnreadableMarkerAbandons(db: Path, files: Files, staged: Content, name: string, k: nat)
    requires Regular(LayoutOf(db), files) && Staged(LayoutOf(db), files, staged, name) && k <= 3
    ensures
      var l := LayoutOf(db);
      var after := Boot(l, false, CutOff(l, true, files, k));
      && l.marker !in after && l.pending in after
      && (l.db in after <==> l.db in files && k == 0)
  {
    var l := LayoutOf(db);
    LayoutDistinct(db);
    var now := Stage(l, files, staged, k);
    assert CutOff(l, true, files, k) == now by {
      assert Plan(l, true, files) == SwapPlan(l, l.pending);
      SwapStates(l, files, k);
    }
    UnstagedBoot(l, false, now, 0);
  }
}
