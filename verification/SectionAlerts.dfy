/**
 The alert state machine of one health section.

 A pass reads the section's status and updates three rows: the status row, the held candidate
 (`pending:`) and the `pushed:` marker. What the passes of a run emit is then determined from its
 readings alone.
 */
module SectionAlerts {
  import opened Wrappers

  datatype Status = Healthy | Posture | Warn | Crit

  function Rank(s: Status): nat {
    match s
    case Healthy => 0
    case Posture => 0
    case Warn => 1
    case Crit => 2
  }

  predicate Incident(s: Status) { s == Warn || s == Crit }

  datatype Row = Row(status: Status, since: int, lastNotified: Option<int>)

  datatype Candidate = Candidate(status: Status, since: int)

  datatype Section = Section(row: Option<Row>, pending: Option<Candidate>, pushed: bool)

  const Fresh := Section(None, None, false)

  /**
   One pass over the section. `cooldown` is the setting in force; `critInPass` says whether
   some section of the pass alerts as critical.
   */
  datatype Reading = Reading(
    now: int, status: Status, collectedAt: Option<int>, cooldown: int, critInPass: bool)

  datatype Emit = Silent | Alert(status: Status) | Recovery(from: Status)

  function StatusOf(row: Option<Row>): Status {
    if row.Some? then row.value.status else Healthy
  }

  function LastNotified(row: Option<Row>): Option<int> {
    if row.Some? then row.value.lastNotified else None
  }

  predicate CooldownPassed(row: Option<Row>, now: int, cooldown: int) {
    LastNotified(row).None? || now - LastNotified(row).value > cooldown
  }

  /** A notification went out during the current status. */
  predicate EpisodeNotified(row: Option<Row>) {
    row.Some? && row.value.lastNotified.Some? && row.value.lastNotified.value >= row.value.since
  }

  predicate Escalated(prev: Status, next: Status) {
    Incident(next) && Rank(next) > Rank(prev)
  }

  function CollectedOrNow(r: Reading): int {
    if r.collectedAt.Some? then r.collectedAt.value else r.now
  }

  function HeldCandidate(prev: Status, pending: Option<Candidate>, r: Reading): Option<Candidate> {
    if Escalated(prev, r.status) then
      if pending.None? || pending.value.status != r.status then Some(Candidate(r.status, CollectedOrNow(r)))
      else pending
    else if pending.Some? && (!Incident(r.status) || Rank(r.status) < Rank(pending.value.status)) then None
    else pending
  }

  predicate Confirmed(confirm: bool, c: Candidate, r: Reading) {
    !confirm || r.collectedAt.None? || r.collectedAt.value > c.since
  }

  predicate Sendable(confirm: bool, row: Option<Row>, c: Candidate, r: Reading) {
    Confirmed(confirm, c, r) && (r.status == Crit || CooldownPassed(row, r.now, r.cooldown))
  }

  /**
   One iteration of the pass: the rows it leaves and what it emits. `confirm` says whether the
   section must repeat a finding on a newer collection before it alerts.
   */
  function Evaluate(confirm: bool, s: Section, r: Reading): (Section, Emit) {
    var prev := StatusOf(s.row);
    var pending := HeldCandidate(prev, s.pending, r);
    var candidate := pending.Some? && pending.value.status == r.status;
    var alert := candidate && Sendable(confirm, s.row, pending.value, r);
    if !candidate && r.status == prev then
      (s.(pending := pending), Silent)
    else
      var recovery := !candidate && r.status == Healthy && EpisodeNotified(s.row);
      var notified := alert || recovery;
      var pending' := if alert then None else pending;
      var pushed := s.pushed && Incident(r.status);
      var emit := if alert then Alert(r.status) else if recovery then Recovery(prev) else Silent;
      if r.status == prev && !notified then
        (Section(s.row, pending', pushed), emit)
      else
        var since := if r.status != prev || s.row.None? then r.now else s.row.value.since;
        var last := if notified then Some(r.now) else LastNotified(s.row);
        (Section(Some(Row(r.status, since, last)), pending', pushed), emit)
  }

  predicate Pushes(e: Emit, r: Reading) {
    e.Alert? && (e.status == Crit || r.critInPass)
  }

  /** A whole pass: the iteration, then the `pushed:` marker when the pass's notification pushes. */
  function Pass(confirm: bool, s: Section, r: Reading): (Section, Emit) {
    var (s', e) := Evaluate(confirm, s, r);
    (if Pushes(e, r) then s'.(pushed := true) else s', e)
  }

  // ---- Runs ----

  type Run = seq<Reading>

  ghost predicate Increasing(run: Run) {
    forall i, j :: 0 <= i < j < |run| ==> run[i].now < run[j].now
  }

  /** The rows after a run of passes that found the rows `s`. */
  function From(confirm: bool, s: Section, run: Run): Section {
    if run == [] then s else Pass(confirm, From(confirm, s, run[..|run| - 1]), run[|run| - 1]).0
  }

  function EmitFrom(confirm: bool, s: Section, run: Run, k: nat): Emit
    requires k < |run|
  {
    Pass(confirm, From(confirm, s, run[..k]), run[k]).1
  }

  function After(confirm: bool, run: Run): Section {
    From(confirm, Fresh, run)
  }

  function EmitAt(confirm: bool, run: Run, k: nat): Emit
    requires k < |run|
  {
    EmitFrom(confirm, Fresh, run, k)
  }

  function StatusBefore(run: Run, k: nat): Status
    requires k <= |run|
  {
    if k == 0 then Healthy else run[k - 1].status
  }

  lemma {:induction false} FromStep(confirm: bool, s: Section, run: Run, k: nat)
    requires k < |run|
    ensures From(confirm, s, run[..k + 1]) == Pass(confirm, From(confirm, s, run[..k]), run[k]).0
  {
    assert run[..k + 1][..k] == run[..k];
  }

  lemma {:induction false} AfterStep(confirm: bool, run: Run, k: nat)
    requires k < |run|
    ensures After(confirm, run[..k + 1]) == Pass(confirm, After(confirm, run[..k]), run[k]).0
  {
    FromStep(confirm, Fresh, run, k);
  }

  /** The time of the latest notification among the first `k` passes. */
  ghost function LastEmit(confirm: bool, run: Run, k: nat): Option<int>
    requires k <= |run|
  {
    if k == 0 then None
    else if EmitAt(confirm, run, k - 1) != Silent then Some(run[k - 1].now)
    else LastEmit(confirm, run, k - 1)
  }

  /**
   What every pass keeps, when the latest pass ran at `t`: the row's times are past; a candidate
   repeats the row's incident status, unsent since `since`; the `pushed:` marker exists only
   during an incident.
   */
  ghost predicate Inv(s: Section, t: int) {
    && (s.row.Some? ==> s.row.value.since <= t)
    && (LastNotified(s.row).Some? ==> LastNotified(s.row).value <= t)
    && (s.pending.Some? ==>
          && s.pending.value.status == StatusOf(s.row)
          && Incident(StatusOf(s.row))
          && !EpisodeNotified(s.row))
    && (s.pushed ==> Incident(StatusOf(s.row)))
    && (StatusOf(s.row) == Posture ==> !EpisodeNotified(s.row))
  }

  /** A pass keeps the invariant, records the status it read, and stamps exactly what it emits. */
  lemma PassKeepsInv(confirm: bool, s: Section, t: int, r: Reading)
    requires Inv(s, t) && t < r.now
    ensures
      var (s', e) := Pass(confirm, s, r);
      && Inv(s', r.now)
      && StatusOf(s'.row) == r.status
      && LastNotified(s'.row) == (if e != Silent then Some(r.now) else LastNotified(s.row))
  {
  }

  lemma {:induction false} RunKeepsInv(confirm: bool, run: Run, k: nat, t: int)
    requires Increasing(run) && k <= |run|
    requires k == 0 || run[k - 1].now <= t
    ensures Inv(After(confirm, run[..k]), t)
    ensures StatusOf(After(confirm, run[..k]).row) == StatusBefore(run, k)
    ensures LastNotified(After(confirm, run[..k]).row) == LastEmit(confirm, run, k)
  {
    if k == 0 {
      assert run[..0] == [];
    } else {
      RunKeepsInv(confirm, run, k - 1, run[k - 1].now - 1);
      AfterStep(confirm, run, k - 1);
      PassKeepsInv(confirm, After(confirm, run[..k - 1]), run[k - 1].now - 1, run[k - 1]);
    }
  }

  // ---- Held escalations ----

  /** The readings `i..j` stay at one status. */
  ghost predicate Steady(run: Run, i: nat, j: nat) {
    i <= j < |run| && forall m :: i <= m <= j ==> run[m].status == run[i].status
  }

  /**
   Whether an escalation first read as `first` may be sent at the reading `r`, when `last` is the time
   of the latest notification before it: confirmed by a newer collection where the section asks for
   it, and critical or past the cooldown.
   */
  predicate ReadyNow(confirm: bool, first: Reading, r: Reading, last: Option<int>) {
    ReadySince(confirm, CollectedOrNow(first), r, last)
  }

  predicate ReadySince(confirm: bool, since: int, r: Reading, last: Option<int>) {
    && (confirm ==> r.collectedAt.None? || r.collectedAt.value > since)
    && (r.status == Crit || last.None? || r.now - last.value > r.cooldown)
  }

  ghost predicate ReadyAfter(confirm: bool, run: Run, i: nat, k: nat, last: Option<int>)
    requires i <= k < |run|
  {
    ReadyNow(confirm, run[i], run[k], last)
  }

  ghost predicate Ready(confirm: bool, run: Run, i: nat, k: nat)
    requires i <= k < |run|
  {
    ReadyAfter(confirm, run, i, k, LastEmit(confirm, run, i))
  }

  ghost predicate ReadyBefore(confirm: bool, run: Run, i: nat, k: nat)
    requires i <= k <= |run|
  {
    exists m :: i <= m < k && Ready(confirm, run, i, m)
  }

  /** The section is at the level first read as `first`, and holds its candidate unless it `was` ready. */
  ghost predicate HeldBy(s: Section, first: Reading, was: bool, last: Option<int>) {
    Holding(s, Candidate(first.status, CollectedOrNow(first)), was, last) && s.row.value.since == first.now
  }

  /** The section is at the candidate's level, and holds the candidate unless it `was` ready. */
  ghost predicate Holding(s: Section, c: Candidate, was: bool, last: Option<int>) {
    && s.row.Some? && s.row.value.status == c.status
    && s.pending == (if was then None else Some(c))
    && (!was ==> s.row.value.lastNotified == last)
  }

  ghost predicate EscalationHeld(confirm: bool, run: Run, i: nat, k: nat)
    requires i < k <= |run|
  {
    HeldBy(After(confirm, run[..k]), run[i], ReadyBefore(confirm, run, i, k), LastEmit(confirm, run, i))
  }

  /** The rows while an escalation stays at its level: held until it is ready, settled from then on. */
  lemma {:induction false} EscalationRows(confirm: bool, run: Run, i: nat, k: nat, n: nat)
    requires Increasing(run) && i < n == k + 1 && Steady(run, i, k)
    requires Escalated(StatusBefore(run, i), run[i].status)
    ensures EscalationHeld(confirm, run, i, n)
    decreases n
  {
    if k == i {
      EscalationStarts(confirm, run, i, n);
    } else {
      EscalationRows(confirm, run, i, k - 1, k);
      EscalationContinues(confirm, run, i, k, n);
    }
  }

  lemma EscalationStarts(confirm: bool, run: Run, i: nat, n: nat)
    requires Increasing(run) && i < |run| && n == i + 1
    requires Escalated(StatusBefore(run, i), run[i].status)
    ensures EscalationHeld(confirm, run, i, n)
  {
    AfterStep(confirm, run, i);
    RunKeepsInv(confirm, run, i, run[i].now - 1);
    ReadyBeforeStep(confirm, run, i, i);
  }

  lemma EscalationContinues(confirm: bool, run: Run, i: nat, k: nat, n: nat)
    requires i < k < |run| && n == k + 1 && run[k].status == run[i].status && Incident(run[i].status)
    requires EscalationHeld(confirm, run, i, k)
    ensures EscalationHeld(confirm, run, i, n)
  {
    HeldRow(confirm, run, run[i], k, n, ReadyBefore(confirm, run, i, k), LastEmit(confirm, run, i));
    ReadyBeforeStep(confirm, run, i, k);
  }

  lemma HeldRow(confirm: bool, run: Run, first: Reading, k: nat, n: nat, was: bool, last: Option<int>)
    requires n == k + 1 <= |run| && run[k].status == first.status && Incident(first.status)
    requires HeldBy(After(confirm, run[..k]), first, was, last)
    ensures HeldBy(After(confirm, run[..n]), first, was || ReadyNow(confirm, first, run[k], last), last)
  {
    AfterStep(confirm, run, k);
  }

  lemma ReadyBeforeStep(confirm: bool, run: Run, i: nat, k: nat)
    requires i <= k < |run|
    ensures ReadyBefore(confirm, run, i, k + 1) <==> ReadyBefore(confirm, run, i, k) || Ready(confirm, run, i, k)
  {
  }

  /**
   A held escalation is never lost: while the section stays at the level it escalated to, it
   alerts exactly at the first pass at which it is ready, and at no other.
   */
  lemma {:induction false} HeldEscalation(confirm: bool, run: Run, i: nat, k: nat)
    requires Increasing(run) && i <= k && Steady(run, i, k)
    requires Escalated(StatusBefore(run, i), run[i].status)
    ensures EmitAt(confirm, run, k) ==
      if Ready(confirm, run, i, k) && !ReadyBefore(confirm, run, i, k) then Alert(run[i].status) else Silent
  {
    if k == i {
      RunKeepsInv(confirm, run, i, run[i].now - 1);
    } else {
      assert Steady(run, i, k - 1);
      EscalationRows(confirm, run, i, k - 1, k);
    }
  }

  /** A level reached by improving from `Crit` never alerts while it lasts. */
  lemma {:induction false} ImprovementIsSilent(confirm: bool, run: Run, i: nat, k: nat)
    requires Increasing(run) && i <= k && Steady(run, i, k)
    requires run[i].status == Warn && StatusBefore(run, i) == Crit
    ensures EmitAt(confirm, run, k) == Silent
  {
    RunKeepsInv(confirm, run, k, run[k].now - 1);
    if k == i {
    } else {
      ImprovedRows(confirm, run, i, k - 1, k);
    }
  }

  lemma {:induction false} ImprovedRows(confirm: bool, run: Run, i: nat, k: nat, n: nat)
    requires Increasing(run) && i <= k && Steady(run, i, k) && n == k + 1
    requires run[i].status == Warn && StatusBefore(run, i) == Crit
    ensures After(confirm, run[..n]).pending.None?
    decreases k
  {
    AfterStep(confirm, run, k);
    RunKeepsInv(confirm, run, k, run[k].now - 1);
    if k > i {
      ImprovedRows(confirm, run, i, k - 1, k);
    }
  }

  /**
   A candidate that is overtaken is dropped: held as a warning, held again as critical, and back
   to a warning, this section stays degraded without a single alert.
   */
  lemma OvertakenWarningIsNeverSent(run: Run)
    requires Increasing(run) && |run| >= 3
    requires forall m :: 0 <= m < |run| ==> run[m].collectedAt == Some(m)
    requires run[0].status == Warn && run[1].status == Crit
    requires forall m :: 2 <= m < |run| ==> run[m].status == Warn
    ensures forall m :: 0 <= m < |run| ==> EmitAt(true, run, m) == Silent
  {
    HeldEscalation(true, run, 0, 0);
    HeldEscalation(true, run, 1, 1);
    forall m | 2 <= m < |run|
      ensures EmitAt(true, run, m) == Silent
    {
      ImprovementIsSilent(true, run, 2, m);
    }
  }

  // ---- A pass that stops before it sends ----

  /**
   The rows left by a pass that stops after the first `n` of its five writes: it records or drops the
   candidate, takes the candidate of an alert away, takes the marker away, writes the status row, and
   sets the marker. The notification is stored and sent after all of them.
   */
  function Stopped(confirm: bool, s: Section, r: Reading, n: nat): Section {
    var evaluated := Evaluate(confirm, s, r).0;
    Section(
      if n < 4 then s.row else evaluated.row,
      if n < 1 then s.pending else if n < 2 then HeldCandidate(StatusOf(s.row), s.pending, r) else evaluated.pending,
      if n < 3 then s.pushed else if n < 5 then evaluated.pushed else Pass(confirm, s, r).0.pushed)
  }

  /**
   What is left no longer owes the alert of the reading `r`: the candidate is gone, and the row has the
   status already, from an earlier pass or from this one.
   */
  predicate AlertLost(s: Section, r: Reading, n: nat) {
    n >= if r.status == StatusOf(s.row) then 2 else 4
  }

  ghost predicate AllAt(run: Run, status: Status) {
    forall m :: 0 <= m < |run| ==> run[m].status == status
  }

  /** Rows from which a section that reads `status` still alerts: it escalates now, or is held at it. */
  ghost predicate Owing(s: Section, status: Status) {
    || Escalated(StatusOf(s.row), status)
    || (Incident(status) && StatusOf(s.row) == status && s.pending.Some? && s.pending.value.status == status)
  }

  /** The candidate these rows hold for the level first read as `first`, or get when they read it. */
  function CandidateFor(s: Section, first: Reading): Candidate {
    if s.pending.Some? && s.pending.value.status == first.status then s.pending.value
    else Candidate(first.status, CollectedOrNow(first))
  }

  ghost predicate ReadyWithin(confirm: bool, since: int, run: Run, k: nat, last: Option<int>)
    requires k <= |run|
  {
    exists m :: 0 <= m < k && ReadySince(confirm, since, run[m], last)
  }

  lemma {:induction false} OwingRows(confirm: bool, s: Section, run: Run, k: nat, n: nat, c: Candidate)
    requires n == k + 1 <= |run| && Owing(s, c.status) && AllAt(run, c.status) && c == CandidateFor(s, run[0])
    ensures
      var last := LastNotified(s.row);
      Holding(From(confirm, s, run[..n]), c, ReadyWithin(confirm, c.since, run, n, last), last)
    decreases n
  {
    FromStep(confirm, s, run, k);
    if k == 0 {
      assert run[..0] == [];
    } else {
      var last := LastNotified(s.row);
      OwingRows(confirm, s, run, k - 1, k, c);
    }
  }

  /** Rows that owe an alert send it at the first pass that is ready, if the level lasts, and only there. */
  lemma {:induction false} OwingAlerts(confirm: bool, s: Section, run: Run, k: nat, c: Candidate)
    requires k < |run| && Owing(s, c.status) && AllAt(run, c.status) && c == CandidateFor(s, run[0])
    ensures
      var last := LastNotified(s.row);
      EmitFrom(confirm, s, run, k) ==
        if ReadySince(confirm, c.since, run[k], last) && !ReadyWithin(confirm, c.since, run, k, last)
        then Alert(c.status) else Silent
  {
    if k == 0 {
      assert run[..0] == [];
    } else {
      var last := LastNotified(s.row);
      OwingRows(confirm, s, run, k - 1, k, c);
    }
  }

  lemma {:induction false} SettledIsSilent(confirm: bool, s: Section, run: Run, k: nat, c: Candidate, last: Option<int>)
    requires k <= |run| && Incident(c.status) && AllAt(run, c.status) && Holding(s, c, true, last)
    ensures Holding(From(confirm, s, run[..k]), c, true, last)
    ensures k < |run| ==> EmitFrom(confirm, s, run, k) == Silent
  {
    if k == 0 {
      assert run[..0] == [];
    } else {
      SettledIsSilent(confirm, s, run, k - 1, c, last);
      FromStep(confirm, s, run, k - 1);
    }
    if k < |run| {
    }
  }

  /**
   An alert whose pass stopped before sending it is lost exactly when the stop came after the writes
   `AlertLost` counts: however long the section then stays at the level, no pass alerts. After any
   earlier stop the alert is still owed, and goes out at the first pass that is ready for it.
   */
  lemma AlertLostIff(confirm: bool, s: Section, t: int, r: Reading, n: nat, later: Run, k: nat)
    requires Inv(s, t) && t < r.now && Pass(confirm, s, r).1.Alert?
    requires AllAt(later, r.status) && k < |later|
    ensures
      var left := Stopped(confirm, s, r, n);
      var c, last := CandidateFor(left, later[0]), LastNotified(left.row);
      EmitFrom(confirm, left, later, k) ==
        if AlertLost(s, r, n) then Silent
        else if ReadySince(confirm, c.since, later[k], last) && !ReadyWithin(confirm, c.since, later, k, last)
        then Alert(r.status)
        else Silent
  {
    var left := Stopped(confirm, s, r, n);
    if AlertLost(s, r, n) {
      SettledIsSilent(confirm, left, later, k, Candidate(r.status, r.now), LastNotified(left.row));
    } else {
      OwingAlerts(confirm, left, later, k, CandidateFor(left, later[0]));
    }
  }

  /** The end of the level is announced all the same, once the row is written, though its alert was not. */
  lemma UnsentAlertRecovers(confirm: bool, s: Section, t: int, r: Reading, n: nat, next: Reading)
    requires Inv(s, t) && t < r.now && Pass(confirm, s, r).1.Alert? && next.status == Healthy
    ensures Pass(confirm, Stopped(confirm, s, r, n), next).1 ==
      if n >= 4 then Recovery(r.status)
      else if Incident(StatusOf(s.row)) && EpisodeNotified(s.row) then Recovery(StatusOf(s.row))
      else Silent
  {
  }

  // ---- Recoveries ----

  /** An alert went out at pass `a` and the section kept that status through the pass before `k`. */
  ghost predicate AlertedAtLevel(confirm: bool, run: Run, a: nat, k: nat)
    requires k <= |run|
  {
    && a < k
    && EmitAt(confirm, run, a) == Alert(run[a].status)
    && Steady(run, a, k - 1)
  }

  ghost predicate LevelAlerted(confirm: bool, run: Run, k: nat)
    requires k <= |run|
  {
    exists a :: AlertedAtLevel(confirm, run, a, k)
  }

  lemma {:induction false} LevelAlertedStep(confirm: bool, run: Run, n: nat, k: nat)
    requires n < k == n + 1 <= |run|
    ensures LevelAlerted(confirm, run, k) <==>
      || EmitAt(confirm, run, n) == Alert(run[n].status)
      || (n > 0 && run[n].status == run[n - 1].status && LevelAlerted(confirm, run, n))
  {
    if EmitAt(confirm, run, n) == Alert(run[n].status) {
      assert AlertedAtLevel(confirm, run, n, k);
    }
    if n > 0 && run[n].status == run[n - 1].status && LevelAlerted(confirm, run, n) {
      var a: nat :| AlertedAtLevel(confirm, run, a, n);
      assert AlertedAtLevel(confirm, run, a, k);
    }
    if LevelAlerted(confirm, run, k) {
      var a: nat :| AlertedAtLevel(confirm, run, a, k);
      assert a < n ==> AlertedAtLevel(confirm, run, a, n);
    }
  }

  /** During an incident, the row says whether the current level has been alerted. */
  lemma {:induction false} RowKnowsAlert(confirm: bool, run: Run, k: nat)
    requires Increasing(run) && k <= |run|
    requires Incident(StatusBefore(run, k))
    ensures EpisodeNotified(After(confirm, run[..k]).row) <==> LevelAlerted(confirm, run, k)
  {
    var n: nat := k - 1;
    EpisodeRow(confirm, run, n, k);
    LevelAlertedStep(confirm, run, n, k);
    if Incident(StatusBefore(run, n)) {
      RowKnowsAlert(confirm, run, n);
    }
  }

  lemma {:induction false} EpisodeRow(confirm: bool, run: Run, n: nat, k: nat)
    requires Increasing(run) && n < k == n + 1 <= |run| && Incident(run[n].status)
    ensures EpisodeNotified(After(confirm, run[..k]).row) <==>
      || EmitAt(confirm, run, n) == Alert(run[n].status)
      || (run[n].status == StatusBefore(run, n) && EpisodeNotified(After(confirm, run[..n]).row))
  {
    AfterStep(confirm, run, n);
    RunKeepsInv(confirm, run, n, run[n].now - 1);
    EpisodeStep(confirm, After(confirm, run[..n]), run[n].now - 1, run[n]);
  }

  lemma EpisodeStep(confirm: bool, s: Section, t: int, r: Reading)
    requires Inv(s, t) && t < r.now && Incident(r.status)
    ensures
      var (s', e) := Pass(confirm, s, r);
      EpisodeNotified(s'.row) <==>
        e == Alert(r.status) || (r.status == StatusOf(s.row) && EpisodeNotified(s.row))
  {
  }

  lemma PushedStep(confirm: bool, s: Section, t: int, r: Reading)
    requires Inv(s, t) && t < r.now
    ensures
      var (s', e) := Pass(confirm, s, r);
      && (s'.pushed <==> Incident(r.status) && (s.pushed || Pushes(e, r)))
      && (Pushes(e, r) ==> Incident(r.status))
  {
  }

  /** A section recovers exactly when it turns healthy from an incident level that was alerted. */
  lemma {:induction false} RecoveryIffAlerted(confirm: bool, run: Run, k: nat)
    requires Increasing(run) && k < |run|
    ensures EmitAt(confirm, run, k).Recovery? <==>
      run[k].status == Healthy && Incident(StatusBefore(run, k)) && LevelAlerted(confirm, run, k)
    ensures EmitAt(confirm, run, k).Recovery? ==> EmitAt(confirm, run, k).from == StatusBefore(run, k)
  {
    RunKeepsInv(confirm, run, k, run[k].now - 1);
    RecoveryStep(confirm, After(confirm, run[..k]), run[k].now - 1, run[k]);
    if Incident(StatusBefore(run, k)) {
      RowKnowsAlert(confirm, run, k);
    }
  }

  lemma RecoveryStep(confirm: bool, s: Section, t: int, r: Reading)
    requires Inv(s, t) && t < r.now
    ensures
      var e := Pass(confirm, s, r).1;
      && (e.Recovery? <==> r.status == Healthy && Incident(StatusOf(s.row)) && EpisodeNotified(s.row))
      && (e.Recovery? ==> e.from == StatusOf(s.row))
  {
  }

  /** Different recoveries follow different alerts, whichever alert of its level each is matched to. */
  lemma RecoveriesInject(confirm: bool, run: Run, k: nat, k': nat, a: nat, a': nat)
    requires Increasing(run) && k < k' < |run|
    requires EmitAt(confirm, run, k).Recovery? && EmitAt(confirm, run, k').Recovery?
    requires AlertedAtLevel(confirm, run, a, k) && AlertedAtLevel(confirm, run, a', k')
    ensures a < k < a'
  {
  }

  /** Per episode the claim fails: alerted as critical, improved to a warning, healthy, no recovery. */
  lemma ImprovedEpisodeEndsSilently(run: Run)
    requires Increasing(run) && |run| == 3
    requires run[0].status == Crit && run[1].status == Warn && run[2].status == Healthy
    ensures EmitAt(false, run, 0) == Alert(Crit)
    ensures EmitAt(false, run, 1) == Silent && EmitAt(false, run, 2) == Silent
  {
    HeldEscalation(false, run, 0, 0);
    ImprovementIsSilent(false, run, 1, 1);
    RecoveryIffAlerted(false, run, 2);
    LevelAlertedStep(false, run, 1, 2);
    RunKeepsInv(false, run, 2, run[2].now - 1);
  }

  // ---- What a run emits, on its readings alone ----

  /** The first reading of the level that reading `k` belongs to. */
  function LevelStart(run: Run, k: nat): (i: nat)
    requires k < |run|
    ensures i <= k && Steady(run, i, k)
    ensures i == 0 || run[i - 1].status != run[k].status
  {
    if k == 0 || run[k - 1].status != run[k].status then k else LevelStart(run, k - 1)
  }

  /** The escalation first read at `i` was ready before `k`, given the latest notification before `i`. */
  ghost predicate WasReady(confirm: bool, run: Run, i: nat, k: nat, last: Option<int>)
    requires i <= k <= |run|
  {
    exists m :: i <= m < k && ReadyAfter(confirm, run, i, m, last)
  }

  /** The level that ends before `k` was entered by an escalation that became ready. */
  ghost predicate Alerted(confirm: bool, run: Run, k: nat)
    requires 0 < k <= |run|
    decreases k, 0
  {
    var i := LevelStart(run, k - 1);
    Escalated(StatusBefore(run, i), run[i].status) && WasReady(confirm, run, i, k, LastExpected(confirm, run, i))
  }

  /**
   What pass `k` must emit, by the readings: an alert when the escalation into its level is ready for
   the first time, a recovery when it turns healthy from a level that was alerted, nothing otherwise.
   */
  ghost function Expected(confirm: bool, run: Run, k: nat): Emit
    requires k < |run|
    decreases k, 2
  {
    var i := LevelStart(run, k);
    if Escalated(StatusBefore(run, i), run[k].status) then
      var last := LastExpected(confirm, run, i);
      if ReadyAfter(confirm, run, i, k, last) && !WasReady(confirm, run, i, k, last) then Alert(run[k].status)
      else Silent
    else if run[k].status == Healthy && Incident(StatusBefore(run, k)) && Alerted(confirm, run, k) then
      Recovery(StatusBefore(run, k))
    else Silent
  }

  ghost function LastExpected(confirm: bool, run: Run, k: nat): Option<int>
    requires k <= |run|
    decreases k, 1
  {
    if k == 0 then None
    else if Expected(confirm, run, k - 1) != Silent then Some(run[k - 1].now)
    else LastExpected(confirm, run, k - 1)
  }

  lemma QuietUnlessIncident(confirm: bool, s: Section, t: int, r: Reading)
    requires Inv(s, t) && t < r.now && !Incident(r.status)
    ensures !Pass(confirm, s, r).1.Alert?
  {
  }

  lemma {:induction false} AlertedWasReady(confirm: bool, run: Run, i: nat, a: nat, k: nat)
    requires Increasing(run) && 0 < k <= |run| && Incident(StatusBefore(run, k)) && i == LevelStart(run, k - 1)
    requires AlertedAtLevel(confirm, run, a, k)
    ensures Escalated(StatusBefore(run, i), run[i].status) && ReadyBefore(confirm, run, i, k)
  {
    StartsBefore(run, i, a, k - 1);
    if Escalated(StatusBefore(run, i), run[i].status) {
      HeldEscalation(confirm, run, i, a);
    } else {
      ImprovementIsSilent(confirm, run, i, a);
    }
  }

  lemma {:induction false} ReadyWasAlerted(confirm: bool, run: Run, i: nat, k: nat)
    requires Increasing(run) && i < k <= |run| && Steady(run, i, k - 1)
    requires Escalated(StatusBefore(run, i), run[i].status) && ReadyBefore(confirm, run, i, k)
    ensures LevelAlerted(confirm, run, k)
  {
    var m := FirstReady(confirm, run, i, k);
    HeldEscalation(confirm, run, i, m);
    assert AlertedAtLevel(confirm, run, m, k);
  }

  /** A level counts as alerted exactly when it was entered by an escalation and has been ready since. */
  lemma {:induction false} LevelAlertedIff(confirm: bool, run: Run, k: nat)
    requires Increasing(run) && 0 < k <= |run| && Incident(StatusBefore(run, k))
    ensures
      var i := LevelStart(run, k - 1);
      LevelAlerted(confirm, run, k) <==>
        Escalated(StatusBefore(run, i), run[i].status) && ReadyBefore(confirm, run, i, k)
  {
    var i := LevelStart(run, k - 1);
    if LevelAlerted(confirm, run, k) {
      var a: nat :| AlertedAtLevel(confirm, run, a, k);
      AlertedWasReady(confirm, run, i, a, k);
    } else if Escalated(StatusBefore(run, i), run[i].status) && ReadyBefore(confirm, run, i, k) {
      ReadyWasAlerted(confirm, run, i, k);
    }
  }

  lemma StartsBefore(run: Run, i: nat, a: nat, k: nat)
    requires Steady(run, i, k) && Steady(run, a, k) && (i == 0 || run[i - 1].status != run[k].status)
    ensures i <= a && Steady(run, i, a)
  {
  }

  lemma {:induction false} FirstReady(confirm: bool, run: Run, i: nat, k: nat) returns (m: nat)
    requires i < k <= |run| && ReadyBefore(confirm, run, i, k)
    ensures i <= m < k && Ready(confirm, run, i, m) && !ReadyBefore(confirm, run, i, m)
    decreases k
  {
    m :| i <= m < k && Ready(confirm, run, i, m);
    if ReadyBefore(confirm, run, i, m) {
      m := FirstReady(confirm, run, i, m);
    }
  }

  lemma {:induction false} ReadySame(confirm: bool, run: Run, i: nat, k: nat, last: Option<int>)
    requires i <= k <= |run| && LastEmit(confirm, run, i) == last
    ensures k < |run| ==> (Ready(confirm, run, i, k) <==> ReadyAfter(confirm, run, i, k, last))
    ensures ReadyBefore(confirm, run, i, k) <==> WasReady(confirm, run, i, k, last)
  {
    forall m | i <= m < k
      ensures Ready(confirm, run, i, m) <==> ReadyAfter(confirm, run, i, m, last)
    {
    }
  }

  lemma {:induction false} IncidentByReadings(confirm: bool, run: Run, i: nat, k: nat, last: Option<int>)
    requires Increasing(run) && k < |run| && Incident(run[k].status) && i == LevelStart(run, k)
    requires last == LastExpected(confirm, run, i) == LastEmit(confirm, run, i)
    ensures EmitAt(confirm, run, k) == Expected(confirm, run, k)
  {
    if Escalated(StatusBefore(run, i), run[k].status) {
      ReadySame(confirm, run, i, k, last);
      HeldEscalation(confirm, run, i, k);
    } else {
      ImprovementIsSilent(confirm, run, i, k);
    }
  }

  lemma {:induction false} NoAlertByReadings(confirm: bool, run: Run, k: nat)
    requires Increasing(run) && k < |run| && !Incident(run[k].status)
    ensures !EmitAt(confirm, run, k).Alert?
  {
    RunKeepsInv(confirm, run, k, run[k].now - 1);
    QuietUnlessIncident(confirm, After(confirm, run[..k]), run[k].now - 1, run[k]);
  }

  lemma {:induction false} AlertedByReadings(confirm: bool, run: Run, j: nat, k: nat)
    requires Increasing(run) && 0 < k <= |run| && Incident(StatusBefore(run, k)) && j == LevelStart(run, k - 1)
    requires LastExpected(confirm, run, j) == LastEmit(confirm, run, j)
    ensures LevelAlerted(confirm, run, k) <==> Alerted(confirm, run, k)
  {
    LevelAlertedIff(confirm, run, k);
    ReadySame(confirm, run, j, k, LastExpected(confirm, run, j));
  }

  /** What every pass of every run emits is what its readings call for, and nothing else. */
  lemma {:induction false} EmitsByReadings(confirm: bool, run: Run, k: nat)
    requires Increasing(run) && k < |run|
    ensures EmitAt(confirm, run, k) == Expected(confirm, run, k)
    decreases k, 1
  {
    if Incident(run[k].status) {
      var i := LevelStart(run, k);
      LastByReadings(confirm, run, i);
      IncidentByReadings(confirm, run, i, k, LastExpected(confirm, run, i));
    } else {
      NoAlertByReadings(confirm, run, k);
      RecoveryIffAlerted(confirm, run, k);
      if Incident(StatusBefore(run, k)) {
        var j := LevelStart(run, k - 1);
        LastByReadings(confirm, run, j);
        AlertedByReadings(confirm, run, j, k);
      }
    }
  }

  lemma {:induction false} LastByReadings(confirm: bool, run: Run, k: nat)
    requires Increasing(run) && k <= |run|
    ensures LastEmit(confirm, run, k) == LastExpected(confirm, run, k)
    decreases k, 0
  {
    if k > 0 {
      var n: nat := k - 1;
      EmitsByReadings(confirm, run, n);
      LastByReadings(confirm, run, n);
      LastEmitStep(confirm, run, n, k, EmitAt(confirm, run, n));
      LastExpectedStep(confirm, run, n, k, Expected(confirm, run, n));
    }
  }

  lemma {:induction false} LastEmitStep(confirm: bool, run: Run, n: nat, k: nat, e: Emit)
    requires n < k == n + 1 <= |run| && e == EmitAt(confirm, run, n)
    ensures LastEmit(confirm, run, k) == if e != Silent then Some(run[n].now) else LastEmit(confirm, run, n)
  {
  }

  lemma {:induction false} LastExpectedStep(confirm: bool, run: Run, n: nat, k: nat, e: Emit)
    requires n < k == n + 1 <= |run| && e == Expected(confirm, run, n)
    ensures LastExpected(confirm, run, k) == if e != Silent then Some(run[n].now) else LastExpected(confirm, run, n)
  {
  }

  // ---- The pushed marker ----

  /** It starts at `a` and lasts through everything before `k`. */
  ghost predicate Lasting(starts: int -> bool, during: int -> bool, a: int, k: int) {
    0 <= a < k && starts(a) && forall m :: a <= m < k ==> during(m)
  }

  lemma LastingStep(starts: int -> bool, during: int -> bool, n: int, k: int)
    requires 0 <= n < k == n + 1
    ensures (exists a :: Lasting(starts, during, a, k)) <==>
      (during(n) && (starts(n) || exists a :: Lasting(starts, during, a, n)))
  {
    if during(n) && starts(n) {
      assert Lasting(starts, during, n, k);
    }
    forall a | during(n) && Lasting(starts, during, a, n)
      ensures Lasting(starts, during, a, k)
    {
    }
    forall a | Lasting(starts, during, a, k) && a < n
      ensures Lasting(starts, during, a, n)
    {
    }
  }

  ghost function PushesAt(confirm: bool, run: Run): int -> bool {
    a => 0 <= a < |run| && Pushes(EmitAt(confirm, run, a), run[a])
  }

  function IncidentAt(run: Run): int -> bool {
    m => 0 <= m < |run| && Incident(run[m].status)
  }

  /** A pushing alert went out and the section has been an incident since. */
  ghost predicate PushedEpisode(confirm: bool, run: Run, k: nat) {
    exists a :: Lasting(PushesAt(confirm, run), IncidentAt(run), a, k)
  }

  /** `pushed:` is present exactly while the incident whose alert was pushed lasts. */
  lemma {:induction false} PushedIffPushedSince(confirm: bool, run: Run, k: nat)
    requires Increasing(run) && k <= |run|
    ensures After(confirm, run[..k]).pushed <==> PushedEpisode(confirm, run, k)
  {
    if k == 0 {
      assert run[..0] == [];
    } else {
      var n: nat := k - 1;
      PushedIffPushedSince(confirm, run, n);
      PushedRow(confirm, run, n, k);
      LastingStep(PushesAt(confirm, run), IncidentAt(run), n, k);
    }
  }

  lemma {:induction false} PushedRow(confirm: bool, run: Run, n: nat, k: nat)
    requires Increasing(run) && n < k == n + 1 <= |run|
    ensures After(confirm, run[..k]).pushed <==>
      IncidentAt(run)(n) && (PushesAt(confirm, run)(n) || After(confirm, run[..n]).pushed)
  {
    AfterStep(confirm, run, n);
    RunKeepsInv(confirm, run, n, run[n].now - 1);
    PushedStep(confirm, After(confirm, run[..n]), run[n].now - 1, run[n]);
  }

  // ---- The same on the fields of the readings ----

  lemma {:induction false} LastEmitAt(confirm: bool, run: Run, k: nat) returns (j: nat)
    requires k <= |run| && LastEmit(confirm, run, k).Some?
    ensures j < k && EmitAt(confirm, run, j) != Silent && LastEmit(confirm, run, k) == Some(run[j].now)
  {
    if EmitAt(confirm, run, k - 1) != Silent {
      j := k - 1;
    } else {
      j := LastEmitAt(confirm, run, k - 1);
    }
  }

  /** Past the cooldown since the latest notification is past it since every one. */
  lemma {:induction false} CooledIff(confirm: bool, run: Run, i: nat, now: int, cooldown: int)
    requires Increasing(run) && i <= |run|
    ensures
      var last := LastEmit(confirm, run, i);
      (last.None? || now - last.value > cooldown) <==>
        forall j :: 0 <= j < i && EmitAt(confirm, run, j) != Silent ==> cooldown < now - run[j].now
  {
    forall j | 0 <= j < i && EmitAt(confirm, run, j) != Silent
      ensures LastEmit(confirm, run, i).Some? && run[j].now <= LastEmit(confirm, run, i).value
    {
      LastEmitBound(confirm, run, i, j);
    }
    if LastEmit(confirm, run, i).Some? {
      var j := LastEmitAt(confirm, run, i);
    }
  }

  lemma ReadyIff(confirm: bool, run: Run, i: nat, m: nat)
    requires Increasing(run) && i <= m < |run|
    ensures Ready(confirm, run, i, m) <==>
      && (confirm && run[m].collectedAt.Some? ==>
            (if run[i].collectedAt.Some? then run[i].collectedAt.value else run[i].now) < run[m].collectedAt.value)
      && (run[m].status != Crit ==>
            forall j :: 0 <= j < i && EmitAt(confirm, run, j) != Silent ==>
              run[m].cooldown < run[m].now - run[j].now)
  {
    CooledIff(confirm, run, i, run[m].now, run[m].cooldown);
  }

  lemma AlertsAtLeast(confirm: bool, run: Run, i: nat, k: nat, due: set<int>)
    requires Increasing(run) && i <= k && Steady(run, i, k) && Escalated(StatusBefore(run, i), run[i].status)
    requires forall m :: m in due <==> i <= m <= k && Ready(confirm, run, i, m)
    ensures EmitAt(confirm, run, k) ==
      if k in due && forall m :: m in due ==> k <= m then Alert(run[i].status) else Silent
  {
    assert ReadyBefore(confirm, run, i, k) <==> exists m :: m in due && m < k;
    HeldEscalation(confirm, run, i, k);
  }

  /**
   A section that turned critical, or turned to a warning from neither, alerts at exactly one pass while
   it stays there: the first that has a newer collection than the one it turned with, or none, where
   confirmation is asked for, and that for a warning comes more than the cooldown after every earlier
   notification.
   */
  lemma {:induction false} AlertOnReadings(confirm: bool, run: Run, i: nat, k: nat, level: Status)
    requires Increasing(run) && i <= k < |run| && forall m :: i <= m <= k ==> run[m].status == level
    requires
      || (level == Crit && (i == 0 || run[i - 1].status != Crit))
      || (level == Warn && (i == 0 || run[i - 1].status == Healthy || run[i - 1].status == Posture))
    ensures
      var turned := if run[i].collectedAt.Some? then run[i].collectedAt.value else run[i].now;
      var due := set m | i <= m <= k
        && (confirm && run[m].collectedAt.Some? ==> turned < run[m].collectedAt.value)
        && (level == Warn ==> forall j :: 0 <= j < i && EmitAt(confirm, run, j) != Silent ==>
              run[m].cooldown < run[m].now - run[j].now);
      EmitAt(confirm, run, k) == if k in due && forall m :: m in due ==> k <= m then Alert(level) else Silent
  {
    var due := set m | i <= m <= k && Ready(confirm, run, i, m);
    forall m | i <= m <= k
      ensures Ready(confirm, run, i, m) <==>
        && (confirm && run[m].collectedAt.Some? ==>
              (if run[i].collectedAt.Some? then run[i].collectedAt.value else run[i].now) < run[m].collectedAt.value)
        && (level == Warn ==> forall j :: 0 <= j < i && EmitAt(confirm, run, j) != Silent ==>
              run[m].cooldown < run[m].now - run[j].now)
    {
      ReadyIff(confirm, run, i, m);
    }
    AlertsAtLeast(confirm, run, i, k, due);
  }

  /** Where confirmation is asked for, a critical finding waits for a collection newer than its own. */
  lemma ConfirmedCritIff(run: Run, i: nat, k: nat, a: int, b: int)
    requires Increasing(run) && i < k < |run| && forall m :: i <= m <= k ==> run[m].status == Crit
    requires i == 0 || run[i - 1].status != Crit
    requires run[i].collectedAt == Some(a) && run[k].collectedAt == Some(b)
    requires forall m :: i <= m < k ==> run[m].collectedAt.Some? && run[m].collectedAt.value <= a
    ensures EmitAt(true, run, k) == if a < b then Alert(Crit) else Silent
  {
    AlertOnReadings(true, run, i, k, Crit);
  }

  /** Turning healthy is announced exactly when the level it ends was alerted; nothing else is. */
  lemma {:induction false} RecoveryOnReadings(confirm: bool, run: Run, k: nat)
    requires Increasing(run) && k < |run| && run[k].status == Healthy
    ensures
      var was := if k == 0 then Healthy else run[k - 1].status;
      EmitAt(confirm, run, k) ==
        if was != Healthy && was != Posture
           && exists a :: 0 <= a < k && EmitAt(confirm, run, a) == Alert(was)
                       && forall m :: a <= m < k ==> run[m].status == was
        then Recovery(was) else Silent
  {
    var was := StatusBefore(run, k);
    NoAlertByReadings(confirm, run, k);
    RecoveryIffAlerted(confirm, run, k);
    if Incident(was) && LevelAlerted(confirm, run, k) {
      var a: nat :| AlertedAtLevel(confirm, run, a, k);
    }
    forall a: nat | a < k && EmitAt(confirm, run, a) == Alert(was) && forall m :: a <= m < k ==> run[m].status == was
      ensures LevelAlerted(confirm, run, k)
    {
      assert AlertedAtLevel(confirm, run, a, k);
    }
  }

  /** A posture finding, or a warning that was critical before, emits nothing. */
  lemma {:induction false} SilentOnReadings(confirm: bool, run: Run, i: nat, k: nat)
    requires Increasing(run) && i <= k < |run| && forall m :: i <= m <= k ==> run[m].status == run[k].status
    requires run[k].status == Posture || (run[k].status == Warn && i > 0 && run[i - 1].status == Crit)
    ensures EmitAt(confirm, run, k) == Silent
  {
    if run[k].status == Posture {
      NoAlertByReadings(confirm, run, k);
      RecoveryIffAlerted(confirm, run, k);
    } else {
      ImprovementIsSilent(confirm, run, i, k);
    }
  }

  /** The marker stands exactly while an incident lasts during which a critical alert was in the pass's notification. */
  lemma {:induction false} PushedOnReadings(confirm: bool, run: Run, k: nat)
    requires Increasing(run) && k <= |run|
    ensures After(confirm, run[..k]).pushed <==>
      exists a :: 0 <= a < k && EmitAt(confirm, run, a).Alert? && (run[a].status == Crit || run[a].critInPass)
               && forall m :: a <= m < k ==> run[m].status == Warn || run[m].status == Crit
  {
    PushedIffPushedSince(confirm, run, k);
    forall a | 0 <= a < k
      ensures PushesAt(confirm, run)(a) <==>
        EmitAt(confirm, run, a).Alert? && (run[a].status == Crit || run[a].critInPass)
    {
      PushStarts(confirm, run, a);
    }
    LastingOnReadings(run, PushesAt(confirm, run), k);
  }

  lemma PushStarts(confirm: bool, run: Run, a: nat)
    requires a < |run|
    ensures PushesAt(confirm, run)(a) <==>
      EmitAt(confirm, run, a).Alert? && (run[a].status == Crit || run[a].critInPass)
  {
  }

  lemma LastingOnReadings(run: Run, starts: int -> bool, k: nat)
    requires k <= |run|
    ensures (exists a :: Lasting(starts, IncidentAt(run), a, k)) <==>
      exists a :: 0 <= a < k && starts(a) && forall m :: a <= m < k ==> run[m].status == Warn || run[m].status == Crit
  {
    forall a | 0 <= a < k && starts(a) && forall m :: a <= m < k ==> run[m].status == Warn || run[m].status == Crit
      ensures Lasting(starts, IncidentAt(run), a, k)
    {
    }
    forall a, m | Lasting(starts, IncidentAt(run), a, k) && a <= m < k
      ensures run[m].status == Warn || run[m].status == Crit
    {
      assert IncidentAt(run)(m);
    }
  }

  // ---- The flap bound ----

  lemma {:induction false} LastEmitBound(confirm: bool, run: Run, k: nat, m: nat)
    requires Increasing(run) && m < k <= |run|
    ensures EmitAt(confirm, run, m) != Silent ==>
      LastEmit(confirm, run, k).Some? && run[m].now <= LastEmit(confirm, run, k).value
    ensures LastEmit(confirm, run, k).Some? ==> LastEmit(confirm, run, k).value <= run[k - 1].now
    decreases k
  {
    if m < k - 1 {
      LastEmitBound(confirm, run, k - 1, m);
    } else if k > 1 {
      LastEmitBound(confirm, run, k - 1, 0);
    }
  }

  /** A warning alert comes more than the cooldown in force after every earlier notification. */
  lemma FlapBound(confirm: bool, run: Run, m: nat, k: nat)
    requires Increasing(run) && m < k < |run|
    requires EmitAt(confirm, run, k) == Alert(Warn) && EmitAt(confirm, run, m) != Silent
    ensures run[k].now - run[m].now > run[k].cooldown
  {
    RunKeepsInv(confirm, run, k, run[k].now - 1);
    LastEmitBound(confirm, run, k, m);
  }

  ghost function Alerts(confirm: bool, run: Run, k: nat): nat
    requires k <= |run|
  {
    if k == 0 then 0 else Alerts(confirm, run, k - 1) + (if EmitAt(confirm, run, k - 1).Alert? then 1 else 0)
  }

  ghost function Recoveries(confirm: bool, run: Run, k: nat): nat
    requires k <= |run|
  {
    if k == 0 then 0 else Recoveries(confirm, run, k - 1) + (if EmitAt(confirm, run, k - 1).Recovery? then 1 else 0)
  }

  ghost function Escalations(run: Run, k: nat): nat
    requires k <= |run|
  {
    if k == 0 then 0
    else Escalations(run, k - 1) + (if Escalated(StatusBefore(run, k - 1), run[k - 1].status) then 1 else 0)
  }

  lemma {:induction false} CountStep(confirm: bool, run: Run, n: nat, k: nat, e: Emit)
    requires n < k == n + 1 <= |run| && e == EmitAt(confirm, run, n)
    ensures Alerts(confirm, run, k) == Alerts(confirm, run, n) + if e.Alert? then 1 else 0
    ensures Recoveries(confirm, run, k) == Recoveries(confirm, run, n) + if e.Recovery? then 1 else 0
    ensures Escalations(run, k) == Escalations(run, n) +
      if Escalated(StatusBefore(run, n), run[n].status) then 1 else 0
  {
  }

  /** In every prefix there are at most as many alerts as escalations, the held one still owed. */
  lemma {:induction false} AlertsNeverExceedEscalations(confirm: bool, run: Run, k: nat)
    requires Increasing(run) && k <= |run|
    ensures Alerts(confirm, run, k) + Owed(After(confirm, run[..k])) <= Escalations(run, k)
  {
    if k == 0 {
      assert run[..0] == [];
    } else {
      var n: nat := k - 1;
      AlertsNeverExceedEscalations(confirm, run, n);
      CountStep(confirm, run, n, k, EmitAt(confirm, run, n));
      OwedRow(confirm, run, n, k);
    }
  }

  function Owed(s: Section): nat { if s.pending.Some? then 1 else 0 }

  lemma {:induction false} OwedRow(confirm: bool, run: Run, n: nat, k: nat)
    requires Increasing(run) && n < k == n + 1 <= |run|
    ensures
      (if EmitAt(confirm, run, n).Alert? then 1 else 0) + Owed(After(confirm, run[..k]))
      <= Owed(After(confirm, run[..n])) + if Escalated(StatusBefore(run, n), run[n].status) then 1 else 0
  {
    AfterStep(confirm, run, n);
    RunKeepsInv(confirm, run, n, run[n].now - 1);
    OwedStep(confirm, After(confirm, run[..n]), run[n].now - 1, run[n]);
  }

  lemma OwedStep(confirm: bool, s: Section, t: int, r: Reading)
    requires Inv(s, t) && t < r.now
    ensures
      var (s', e) := Pass(confirm, s, r);
      (if e.Alert? then 1 else 0) + Owed(s') <= Owed(s) + (if Escalated(StatusOf(s.row), r.status) then 1 else 0)
  {
  }

  function Spare(status: Status, alerted: bool): nat {
    if Incident(status) && alerted then 1 else 0
  }

  /** In every prefix there are at most as many recoveries as alerts. */
  lemma {:induction false} RecoveriesNeverExceedAlerts(confirm: bool, run: Run, k: nat)
    requires Increasing(run) && k <= |run|
    ensures Recoveries(confirm, run, k) + Spare(StatusBefore(run, k), LevelAlerted(confirm, run, k))
         <= Alerts(confirm, run, k)
  {
    if k > 0 {
      var n: nat := k - 1;
      RecoveriesNeverExceedAlerts(confirm, run, n);
      CountStep(confirm, run, n, k, EmitAt(confirm, run, n));
      SpareStep(confirm, run, n, k, EmitAt(confirm, run, n));
    }
  }

  lemma {:induction false} SpareStep(confirm: bool, run: Run, n: nat, k: nat, e: Emit)
    requires Increasing(run) && n < k == n + 1 <= |run| && e == EmitAt(confirm, run, n)
    ensures
      (if e.Recovery? then 1 else 0) + Spare(StatusBefore(run, k), LevelAlerted(confirm, run, k))
      <= (if e.Alert? then 1 else 0) + Spare(StatusBefore(run, n), LevelAlerted(confirm, run, n))
  {
    RecoveryIffAlerted(confirm, run, n);
    LevelAlertedStep(confirm, run, n, k);
  }
}
