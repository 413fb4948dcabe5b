/**
 The alert engine's persisted rows and the passes that update them in place.

 One table of the source, keyed by agent and scope, is held as one map per scope family:
 `section:<name>`, `pending:section:<name>`, `pushed:section:<name>`, `offline`, `missing`,
 `hwforecast:set`, `digest` and `daily`.
 */
module AlertEngine {
  import opened Wrappers
  import opened SectionAlerts
  import Daily = DailySummary
  import Schedules

  datatype Key = Key(agent: string, name: string)

  /** One section of an evaluated snapshot; `confirm` marks the sections that need confirmation. */
  datatype Item = Item(name: string, status: Status, confirm: bool)

  /** What all sections of a pass share. */
  datatype Context = Context(now: int, collectedAt: Option<int>, cooldown: int)

  datatype Route = Push | DailyRoute | Record

  datatype Kind = AlertNote | RecoveryNote

  datatype Line = Line(name: string, status: Status)

  datatype Note = Note(kind: Kind, agent: string, lines: seq<Line>, route: Route)

  datatype PresenceRow = PresenceRow(absent: bool, since: int, lastNotified: Option<int>)

  // The forecasts share the sections' rows under these names.
  const HARDWARE_FORECAST := "hardware_forecast"
  const DISK_FORECAST := "disk_forecast"

  predicate IsForecast(name: string) { name == HARDWARE_FORECAST || name == DISK_FORECAST }

  datatype Finding = SectionFinding(key: Key) | MissingHost(agent: string)

  function Lookup<K, V>(m: map<K, V>, k: K): Option<V> {
    if k in m then Some(m[k]) else None
  }

  function ReadingOf(item: Item, c: Context, critInPass: bool): Reading {
    Reading(c.now, item.status, c.collectedAt, c.cooldown, critInPass)
  }

  ghost predicate DistinctNames(items: seq<Item>) {
    forall i, j :: 0 <= i < j < |items| ==> items[i].name != items[j].name
  }

  /** A section's rows after its turn, what it emits, and whether its `pushed:` marker was set before. */
  datatype Outcome = Outcome(after: Section, emit: Emit, wasPushed: bool)

  /** The lines of the alert: the sections that emit one, in the order of the pass. */
  function AlertLines(items: seq<Item>, outs: seq<Outcome>): (lines: seq<Line>)
    requires |items| == |outs|
  {
    if items == [] then []
    else
      var n := |items| - 1;
      AlertLines(items[..n], outs[..n])
      + (if outs[n].emit.Alert? then [Line(items[n].name, outs[n].emit.status)] else [])
  }

  function RecoveryLines(items: seq<Item>, outs: seq<Outcome>): (lines: seq<Line>)
    requires |items| == |outs|
  {
    if items == [] then []
    else
      var n := |items| - 1;
      RecoveryLines(items[..n], outs[..n])
      + (if outs[n].emit.Recovery? then [Line(items[n].name, outs[n].emit.from)] else [])
  }

  predicate AnyPushedRecovery(outs: seq<Outcome>) {
    outs != [] && (AnyPushedRecovery(outs[..|outs| - 1])
                   || (outs[|outs| - 1].emit.Recovery? && outs[|outs| - 1].wasPushed))
  }

  lemma {:induction false} AnyPushedRecoveryIff(outs: seq<Outcome>)
    ensures AnyPushedRecovery(outs) <==> exists i :: 0 <= i < |outs| && outs[i].emit.Recovery? && outs[i].wasPushed
  {
    if outs != [] {
      var n := |outs| - 1;
      AnyPushedRecoveryIff(outs[..n]);
      forall i | 0 <= i < n
        ensures outs[..n][i] == outs[i]
      {
      }
    }
  }

  lemma LinesStep(items: seq<Item>, outs: seq<Outcome>, n: nat)
    requires n < |items| == |outs|
    ensures AlertLines(items[..n + 1], outs[..n + 1]) == AlertLines(items[..n], outs[..n])
      + (if outs[n].emit.Alert? then [Line(items[n].name, outs[n].emit.status)] else [])
    ensures RecoveryLines(items[..n + 1], outs[..n + 1]) == RecoveryLines(items[..n], outs[..n])
      + (if outs[n].emit.Recovery? then [Line(items[n].name, outs[n].emit.from)] else [])
    ensures AnyPushedRecovery(outs[..n + 1]) <==>
      AnyPushedRecovery(outs[..n]) || (outs[n].emit.Recovery? && outs[n].wasPushed)
  {
    assert items[..n + 1][..n] == items[..n] && outs[..n + 1][..n] == outs[..n];
  }

  /** Some section of the pass alerts as critical. */
  predicate AnyCrit(outs: seq<Outcome>) {
    exists i :: 0 <= i < |outs| && outs[i].emit == Alert(Crit)
  }

  predicate CritLine(lines: seq<Line>) {
    exists i :: 0 <= i < |lines| && lines[i].status == Crit
  }

  /** The alert's lines name exactly the alerting sections, with their statuses. */
  lemma {:induction false} AlertLinesOf(items: seq<Item>, outs: seq<Outcome>, line: Line)
    requires |items| == |outs|
    ensures line in AlertLines(items, outs) <==>
      exists i :: 0 <= i < |items| && outs[i].emit == Alert(line.status) && items[i].name == line.name
  {
    if items != [] {
      var n := |items| - 1;
      AlertLinesOf(items[..n], outs[..n], line);
      forall i | 0 <= i < n
        ensures outs[..n][i] == outs[i] && items[..n][i] == items[i]
      {
      }
    }
  }

  lemma {:induction false} CritLineIffAnyCrit(items: seq<Item>, outs: seq<Outcome>)
    requires |items| == |outs|
    ensures CritLine(AlertLines(items, outs)) <==> AnyCrit(outs)
  {
    var lines := AlertLines(items, outs);
    if CritLine(lines) {
      var i :| 0 <= i < |lines| && lines[i].status == Crit;
      AlertLinesOf(items, outs, lines[i]);
    }
    if AnyCrit(outs) {
      var i :| 0 <= i < |outs| && outs[i].emit == Alert(Crit);
      AlertLinesOf(items, outs, Line(items[i].name, Crit));
    }
  }

  predicate Visited(agent: string, items: seq<Item>, k: Key) {
    k.agent == agent && exists i :: 0 <= i < |items| && items[i].name == k.name
  }

  /** The persisted rows of all sections. */
  datatype Rows = Rows(sections: map<Key, Row>, pending: map<Key, Candidate>, pushed: set<Key>)

  function ViewIn(rows: Rows, k: Key): Section {
    Section(Lookup(rows.sections, k), Lookup(rows.pending, k), k in rows.pushed)
  }

  ghost function OutcomeIn(rows: Rows, agent: string, item: Item, c: Context): Outcome {
    var key := Key(agent, item.name);
    var (s, e) := Evaluate(item.confirm, ViewIn(rows, key), ReadingOf(item, c, false));
    Outcome(s, e, key in rows.pushed)
  }

  /** What a pass makes of each section, computed from the rows before the pass. */
  ghost function OutcomesIn(rows: Rows, agent: string, items: seq<Item>, c: Context): (r: seq<Outcome>)
    ensures |r| == |items|
    ensures forall i :: 0 <= i < |items| ==> r[i] == OutcomeIn(rows, agent, items[i], c)
  {
    seq(|items|, i requires 0 <= i < |items| => OutcomeIn(rows, agent, items[i], c))
  }

  /** After `n` sections each of them has its outcome and every other row is as before the pass. */
  ghost predicate Progress(before: Rows, now: Rows, agent: string, items: seq<Item>, c: Context, n: nat)
    requires n <= |items|
  {
    && (forall i :: 0 <= i < n ==>
          ViewIn(now, Key(agent, items[i].name)) == OutcomeIn(before, agent, items[i], c).after)
    && (forall k :: !Visited(agent, items[..n], k) ==> ViewIn(now, k) == ViewIn(before, k))
  }

  lemma ProgressStep(before: Rows, now: Rows, next: Rows, agent: string, items: seq<Item>, c: Context,
                     n: nat, emit: Emit)
    requires DistinctNames(items) && n < |items| && Progress(before, now, agent, items, c, n)
    requires var key := Key(agent, items[n].name);
      && (ViewIn(next, key), emit) == Evaluate(items[n].confirm, ViewIn(now, key), ReadingOf(items[n], c, false))
      && forall k :: k != key ==> ViewIn(next, k) == ViewIn(now, k)
    ensures Progress(before, next, agent, items, c, n + 1)
    ensures var key := Key(agent, items[n].name);
      OutcomeIn(before, agent, items[n], c) == Outcome(ViewIn(next, key), emit, key in now.pushed)
  {
  }

  /** The markers after a notification with these lines pushed: those before and one for each line. */
  ghost predicate Marked(before: set<Key>, now: set<Key>, agent: string, lines: seq<Line>) {
    forall k :: k in now <==> k in before || (k.agent == agent && exists l :: l in lines && l.name == k.name)
  }

  /**
   A whole pass over a host: every section of it takes its own `Pass` step, told only whether some
   section alerts as critical, and the rows of every other section are left alone.
   */
  ghost predicate Passed(before: Rows, now: Rows, agent: string, items: seq<Item>, c: Context) {
    && (forall i :: 0 <= i < |items| ==> PassedAt(before, now, agent, items, c, i))
    && (forall k :: !Visited(agent, items, k) ==> ViewIn(now, k) == ViewIn(before, k))
  }

  ghost predicate PassedAt(before: Rows, now: Rows, agent: string, items: seq<Item>, c: Context, i: nat)
    requires i < |items|
  {
    var key, crit := Key(agent, items[i].name), AnyCrit(OutcomesIn(before, agent, items, c));
    ViewIn(now, key) == Pass(items[i].confirm, ViewIn(before, key), ReadingOf(items[i], c, crit)).0
  }

  /** Marking after the loop makes each section's step a whole `Pass`. */
  lemma {:induction false} PassedByMarking(before: Rows, evaluated: Rows, now: Rows, agent: string,
      items: seq<Item>, c: Context)
    requires DistinctNames(items) && Progress(before, evaluated, agent, items, c, |items|)
    requires now.sections == evaluated.sections && now.pending == evaluated.pending
    requires var outs := OutcomesIn(before, agent, items, c);
      if AnyCrit(outs) then Marked(evaluated.pushed, now.pushed, agent, AlertLines(items, outs))
      else now.pushed == evaluated.pushed
    ensures Passed(before, now, agent, items, c)
  {
    var outs := OutcomesIn(before, agent, items, c);
    assert items[..|items|] == items;
    forall k | !Visited(agent, items, k)
      ensures ViewIn(now, k) == ViewIn(before, k)
    {
      UnvisitedUnnamed(agent, items, outs, k);
      assert ViewIn(evaluated, k) == ViewIn(before, k);
    }
    forall i | 0 <= i < |items|
      ensures PassedAt(before, now, agent, items, c, i)
    {
      NamedIffAlerts(items, outs, i);
      PassOfEvaluate(items[i].confirm, ViewIn(before, Key(agent, items[i].name)), items[i], c, outs);
      assert outs[i] == OutcomeIn(before, agent, items[i], c);
    }
  }

  /** Some recovery had been pushed exactly when some line of the recoveries names a section with the marker. */
  lemma {:induction false} RecoveryLinePushed(before: Rows, agent: string, items: seq<Item>, c: Context)
    ensures
      var outs := OutcomesIn(before, agent, items, c);
      AnyPushedRecovery(outs) <==>
        exists l :: l in RecoveryLines(items, outs) && Key(agent, l.name) in before.pushed
  {
    var outs := OutcomesIn(before, agent, items, c);
    AnyPushedRecoveryIff(outs);
    forall i | 0 <= i < |items| && outs[i].emit.Recovery?
      ensures outs[i].wasPushed <==> Key(agent, items[i].name) in before.pushed
      ensures Line(items[i].name, outs[i].emit.from) in RecoveryLines(items, outs)
    {
      assert outs[i] == OutcomeIn(before, agent, items[i], c);
      RecoveryLinesOf(items, outs, Line(items[i].name, outs[i].emit.from));
    }
    forall l | l in RecoveryLines(items, outs) && Key(agent, l.name) in before.pushed
      ensures AnyPushedRecovery(outs)
    {
      RecoveryLinesOf(items, outs, l);
      var i :| 0 <= i < |items| && outs[i].emit == Recovery(l.status) && items[i].name == l.name;
    }
  }

  lemma {:induction false} NotesRouted(before: Rows, agent: string, items: seq<Item>, c: Context,
      operatorInitiated: bool, notes: seq<Note>)
    requires
      var outs := OutcomesIn(before, agent, items, c);
      var alerts, recoveries := AlertLines(items, outs), RecoveryLines(items, outs);
      notes ==
        (if alerts == [] then []
         else [Note(AlertNote, agent, alerts, if AnyCrit(outs) then Push else DailyRoute)])
        + (if recoveries == [] then []
           else [Note(RecoveryNote, agent, recoveries,
                      if AnyPushedRecovery(outs) && !operatorInitiated then Push else Record)])
    ensures forall note :: note in notes ==>
      if note.kind == AlertNote then
        note.route == if exists l :: l in note.lines && l.status == Crit then Push else DailyRoute
      else
        note.route == if !operatorInitiated && exists l :: l in note.lines && Key(agent, l.name) in before.pushed
                      then Push else Record
  {
    var outs := OutcomesIn(before, agent, items, c);
    CritLineIffAnyCrit(items, outs);
    RecoveryLinePushed(before, agent, items, c);
    assert CritLine(AlertLines(items, outs)) <==> exists l :: l in AlertLines(items, outs) && l.status == Crit;
  }

  class Engine {
    var sections: map<Key, Row>
    var pending: map<Key, Candidate>
    var pushed: set<Key>
    var offline: map<string, PresenceRow>
    var missing: map<string, PresenceRow>
    var announced: map<string, set<string>>
    var digest: Option<int>
    var daily: Option<int>

    constructor ()
      ensures forall k :: View(k) == Fresh
      ensures missing == map[] && offline == map[] && announced == map[]
      ensures digest == None && daily == None
    {
      sections, pending, pushed, offline := map[], map[], {}, map[];
      missing, announced := map[], map[];
      digest, daily := None, None;
    }

    function Now(): Rows
      reads this
    {
      Rows(sections, pending, pushed)
    }

    /** The three rows of one section. */
    function View(k: Key): Section
      reads this
    {
      ViewIn(Now(), k)
    }

    /** Records an escalation that has not been sent yet, or drops one that resolved or improved. */
    method HoldCandidate(key: Key, prev: Status, r: Reading) returns (held: Option<Candidate>)
      modifies this`pending
      ensures held == HeldCandidate(prev, Lookup(old(pending), key), r)
      ensures Lookup(pending, key) == held
      ensures forall k :: k != key ==> Lookup(pending, k) == Lookup(old(pending), k)
    {
      held := Lookup(pending, key);
      if Escalated(prev, r.status) {
        if held.None? || held.value.status != r.status {
          held := Some(Candidate(r.status, CollectedOrNow(r)));
          pending := pending[key := held.value];
        }
      } else if held.Some? && (!Incident(r.status) || Rank(r.status) < Rank(held.value.status)) {
        pending := pending - {key};
        held := None;
      }
    }

    /** One section of a pass; the rows of every other section are left alone. */
    method EvaluateSection(key: Key, confirm: bool, r: Reading) returns (emit: Emit)
      modifies this`sections, this`pending, this`pushed
      ensures (ViewIn(Now(), key), emit) == Evaluate(confirm, ViewIn(old(Now()), key), r)
      ensures forall k :: k != key ==> ViewIn(Now(), k) == ViewIn(old(Now()), k)
    {
      var row := Lookup(sections, key);
      var prev := StatusOf(row);
      var held := HoldCandidate(key, prev, r);
      var notified := false;
      emit := Silent;
      if held.Some? && held.value.status == r.status {
        if Sendable(confirm, row, held.value, r) {
          emit := Alert(r.status);
          notified := true;
          pending := pending - {key};
        }
      } else if r.status == prev {
        return;
      } else if r.status == Healthy && EpisodeNotified(row) {
        emit := Recovery(prev);
        notified := true;
      }
      if !Incident(r.status) && key in pushed {
        pushed := pushed - {key};
      }
      if r.status == prev && !notified {
        return;
      }
      var since := if r.status != prev || row.None? then r.now else row.value.since;
      var last := if notified then Some(r.now) else LastNotified(row);
      sections := sections[key := Row(r.status, since, last)];
    }

    /** The loop over the sections: each is evaluated from the rows it had before the pass. */
    method EvaluateAll(agent: string, items: seq<Item>, c: Context)
      returns (alerts: seq<Line>, recoveries: seq<Line>, recoveryPushed: bool)
      requires DistinctNames(items)
      modifies this`sections, this`pending, this`pushed
      ensures
        var outs := OutcomesIn(old(Now()), agent, items, c);
        && alerts == AlertLines(items, outs)
        && recoveries == RecoveryLines(items, outs)
        && (recoveryPushed <==> AnyPushedRecovery(outs))
      ensures Progress(old(Now()), Now(), agent, items, c, |items|)
    {
      alerts, recoveries, recoveryPushed := [], [], false;
      ghost var before := Now();
      ghost var outs := OutcomesIn(before, agent, items, c);
      for n := 0 to |items|
        invariant alerts == AlertLines(items[..n], outs[..n])
        invariant recoveries == RecoveryLines(items[..n], outs[..n])
        invariant recoveryPushed <==> AnyPushedRecovery(outs[..n])
        invariant Progress(before, Now(), agent, items, c, n)
      {
        var key := Key(agent, items[n].name);
        ghost var rows := Now();
        var wasPushed := key in pushed;
        var emit := EvaluateSection(key, items[n].confirm, ReadingOf(items[n], c, false));
        ProgressStep(before, rows, Now(), agent, items, c, n, emit);
        LinesStep(items, outs, n);
        match emit {
          case Alert(status) => alerts := alerts + [Line(items[n].name, status)];
          case Recovery(from) =>
            recoveries := recoveries + [Line(items[n].name, from)];
            recoveryPushed := recoveryPushed || wasPushed;
          case Silent =>
        }
      }
      assert items[..|items|] == items && outs[..|items|] == outs;
    }

    method MarkPushed(agent: string, lines: seq<Line>)
      modifies this`pushed
      ensures Marked(old(pushed), pushed, agent, lines)
    {
      for n := 0 to |lines|
        invariant Marked(old(pushed), pushed, agent, lines[..n])
      {
        assert lines[..n + 1] == lines[..n] + [lines[n]];
        pushed := pushed + {Key(agent, lines[n].name)};
      }
      assert lines[..|lines|] == lines;
    }

    /**
     One pass over one host: every section takes its `Pass` step on its own, the alerting sections
     share one notification that pushes when one of them is critical, and the recovering sections
     share one that pushes when one of them had been pushed and no operator caused it.
     */
    method HealthTransitions(agent: string, items: seq<Item>, c: Context, operatorInitiated: bool)
      returns (notes: seq<Note>)
      requires DistinctNames(items)
      modifies this`sections, this`pending, this`pushed
      ensures Passed(old(Now()), Now(), agent, items, c)
      ensures
        var outs := OutcomesIn(old(Now()), agent, items, c);
        var alerts, recoveries := AlertLines(items, outs), RecoveryLines(items, outs);
        notes ==
          (if alerts == [] then []
           else [Note(AlertNote, agent, alerts, if AnyCrit(outs) then Push else DailyRoute)])
          + (if recoveries == [] then []
             else [Note(RecoveryNote, agent, recoveries,
                        if AnyPushedRecovery(outs) && !operatorInitiated then Push else Record)])
      ensures forall note :: note in notes ==>
        if note.kind == AlertNote then
          note.route == if exists l :: l in note.lines && l.status == Crit then Push else DailyRoute
        else
          note.route == if !operatorInitiated && exists l :: l in note.lines && Key(agent, l.name) in old(pushed)
                        then Push else Record
    {
      ghost var before := Now();
      ghost var outs := OutcomesIn(before, agent, items, c);
      var alerts, recoveries, recoveryPushed := EvaluateAll(agent, items, c);
      ghost var evaluated := Now();
      notes := [];
      CritLineIffAnyCrit(items, outs);
      if alerts != [] {
        var crit := CritLine(alerts);
        notes := notes + [Note(AlertNote, agent, alerts, if crit then Push else DailyRoute)];
        if crit {
          MarkPushed(agent, alerts);
        }
      }
      if recoveries != [] {
        notes := notes + [Note(RecoveryNote, agent, recoveries,
                               if recoveryPushed && !operatorInitiated then Push else Record)];
      }
      PassedByMarking(before, evaluated, Now(), agent, items, c);
      NotesRouted(before, agent, items, c, operatorInitiated, notes);
    }

    /** The weekly digest's tick. */
    method MaybeSendDigest(now: int, enabled: bool, channels: bool, day: int, hour: int) returns (sent: bool)
      requires 0 <= day < 7
      modifies this`digest
      ensures enabled && channels ==>
        (digest, sent) == Schedules.Tick(old(digest), Schedules.DigestClock(day, hour)(now), now)
      ensures !(enabled && channels) ==> !sent && digest == old(digest)
    {
      if !enabled || !channels {
        return false;
      }
      if digest.None? {
        digest := Some(now);
        return false;
      }
      var slot := Schedules.DigestSlot(day, Schedules.Clamp(hour), now);
      if digest.value >= slot {
        return false;
      }
      digest := Some(now);
      return true;
    }

    predicate OpenFinding(f: Finding)
      reads this
    {
      match f
      case SectionFinding(k) => Incident(StatusOf(View(k).row))
      case MissingHost(a) => a in missing && missing[a].absent
    }

    predicate NewFinding(f: Finding, since: int)
      reads this
    {
      match f
      case SectionFinding(k) => Daily.NewSince(View(k), since)
      case MissingHost(a) =>
        OpenFinding(f) && missing[a].lastNotified.Some? && missing[a].lastNotified.value > since
    }

    /** Splits the open findings into those notified since `since` and the number of the others. */
    method DailyFindings(since: int) returns (news: set<Finding>, older: nat)
      ensures forall k :: SectionFinding(k) in news <==>
        && k in sections && (sections[k].status == Warn || sections[k].status == Crit) && k !in pushed
        && sections[k].lastNotified.Some? && sections[k].lastNotified.value > since
      ensures forall a :: MissingHost(a) in news <==>
        && a in missing && missing[a].absent
        && missing[a].lastNotified.Some? && missing[a].lastNotified.value > since
      ensures exists others: set<Finding> ::
        && |others| == older
        && (forall k :: SectionFinding(k) in others <==>
              && k in sections && (sections[k].status == Warn || sections[k].status == Crit)
              && SectionFinding(k) !in news)
        && (forall a :: MissingHost(a) in others <==>
              a in missing && missing[a].absent && MissingHost(a) !in news)
    {
      var rows: set<Finding> := (set k | k in sections :: SectionFinding(k)) + (set a | a in missing :: MissingHost(a));
      news, older := {}, 0;
      ghost var others: set<Finding> := {};
      var rest := rows;
      while rest != {}
        invariant rest <= rows
        invariant forall f :: f in news <==> f in rows && f !in rest && NewFinding(f, since)
        invariant forall f :: f in others <==> f in rows && f !in rest && OpenFinding(f) && !NewFinding(f, since)
        invariant |others| == older
        decreases rest
      {
        var f :| f in rest;
        rest := rest - {f};
        if OpenFinding(f) {
          if NewFinding(f, since) {
            news := news + {f};
          } else {
            older := older + 1;
            others := others + {f};
          }
        }
      }
      FindingsSpelled(since);
      assert forall f :: OpenFinding(f) ==> f in rows;
      assert forall f :: f in news <==> NewFinding(f, since);
      assert forall f :: f in others <==> OpenFinding(f) && !NewFinding(f, since);
    }

    lemma FindingsSpelled(since: int)
      ensures forall k :: OpenFinding(SectionFinding(k)) <==>
        k in sections && (sections[k].status == Warn || sections[k].status == Crit)
      ensures forall k :: NewFinding(SectionFinding(k), since) <==>
        && OpenFinding(SectionFinding(k)) && k !in pushed
        && sections[k].lastNotified.Some? && sections[k].lastNotified.value > since
      ensures forall a :: OpenFinding(MissingHost(a)) <==> a in missing && missing[a].absent
      ensures forall a :: NewFinding(MissingHost(a), since) <==>
        && OpenFinding(MissingHost(a)) && missing[a].lastNotified.Some? && missing[a].lastNotified.value > since
    {
    }

    /**
     The daily summary's tick. Every section it lists is one that `ListsAsNew` names; it goes out when
     there is a line to write, which a host without a `stored` snapshot has only for forecasts.
     */
    method MaybeSendDaily(now: int, channels: bool, s: Daily.Settings, stored: set<string>)
      returns (sent: bool, news: set<Finding>, older: nat)
      modifies this`daily
      ensures !channels ==> daily == old(daily)
      ensures channels ==> daily == Schedules.Tick(old(daily), Daily.SlotAt(s, now), now).0
      ensures forall k :: SectionFinding(k) in news <==>
        channels && Daily.ListsAsNew(Daily.World(View(k), old(daily)), Daily.Summary(now, s))
      ensures forall a :: MissingHost(a) in news <==>
        && channels
        && Daily.TakesSlot(Daily.World(Fresh, old(daily)), Daily.Summary(now, s))
        && !Daily.DigestMorning(s, now)
        && a in missing && missing[a].absent
        && missing[a].lastNotified.Some? && missing[a].lastNotified.value > old(daily).value
      ensures forall k :: SectionFinding(k) in news ==>
        && old(daily).Some?
        && k in sections && (sections[k].status == Warn || sections[k].status == Crit) && k !in pushed
        && sections[k].lastNotified.Some? && sections[k].lastNotified.value > old(daily).value
      ensures sent <==>
        || (exists k :: SectionFinding(k) in news &&
              (k.agent in stored || k.name == "disk_forecast" || k.name == "hardware_forecast"))
        || (exists a :: MissingHost(a) in news && a in stored)
    {
      news, older := {}, 0;
      if !channels {
        return false, {}, 0;
      }
      if daily.None? {
        daily := Some(now);
        return false, {}, 0;
      }
      var slot := Schedules.DailySlot(Schedules.Clamp(s.hour), now);
      if daily.value >= slot {
        return false, {}, 0;
      }
      if !Schedules.IsDigestSlot(s.digestEnabled, s.digestDay, s.digestHour, slot) {
        news, older := DailyFindings(daily.value);
      }
      daily := Some(now);
      sent := exists f :: f in news && Described(f, stored);
      assert forall k :: SectionFinding(k) in news ==> NewFinding(SectionFinding(k), old(daily).value);
    }

    /**
     Tracks offline silently and notifies only when a host goes missing or, once missing, reports
     again. The offline row notifies only for an episode an older server had announced.
     */
    method OfflineTransition(agent: string, receivedAt: Option<int>, connected: bool, now: int,
                             offlineAfter: int, missingAfter: int)
      returns (note: Option<Note>, isOffline: bool)
      modifies this`offline, this`missing
      ensures isOffline <==> !connected && receivedAt.Some? && offlineAfter < now - receivedAt.value
      ensures
        var isMissing := !connected && receivedAt.Some? && missingAfter < now - receivedAt.value;
        var (offlineRow, legacy) := AbsencePass(Lookup(old(offline), agent), isOffline, false, now);
        var (missingRow, kind) := AbsencePass(Lookup(old(missing), agent), isMissing, true, now);
        && Lookup(offline, agent) == offlineRow
        && Lookup(missing, agent) == missingRow
        && (isMissing != Absent(Lookup(old(missing), agent)) ==>
              note == if kind.None? then None
                      else Some(Note(kind.value, agent, [], if isMissing then DailyRoute else Record)))
        && (isMissing == Absent(Lookup(old(missing), agent)) ==>
              note == if legacy.None? then None else Some(Note(RecoveryNote, agent, [], Record)))
      ensures forall a :: a != agent ==>
        Lookup(offline, a) == Lookup(old(offline), a) && Lookup(missing, a) == Lookup(old(missing), a)
    {
      isOffline := Silence(receivedAt, connected, now, offlineAfter);
      var isMissing := Silence(receivedAt, connected, now, missingAfter);
      var row := Lookup(offline, agent);
      note := None;
      if isOffline != Absent(row) {
        if !isOffline && AbsenceNotified(row) {
          note := Some(Note(RecoveryNote, agent, [], Record));
        }
        offline := offline[agent := PresenceRow(isOffline, now, if row.Some? then row.value.lastNotified else None)];
      }
      var missingRow := Lookup(missing, agent);
      if isMissing == Absent(missingRow) {
        return;
      }
      note := None;
      if isMissing {
        note := Some(Note(AlertNote, agent, [], DailyRoute));
      } else if AbsenceNotified(missingRow) {
        note := Some(Note(RecoveryNote, agent, [], Record));
      }
      var last := if note.Some? then Some(now)
                  else if missingRow.Some? then missingRow.value.lastNotified else None;
      missing := missing[agent := PresenceRow(isMissing, now, last)];
    }

    function Announced(agent: string): set<string>
      reads this
    {
      if agent in announced then announced[agent] else {}
    }

    /** The forecast row is a warning exactly while pairs are announced. */
    predicate ForecastConsistent(agent: string)
      reads this
    {
      StatusOf(Lookup(sections, Key(agent, HARDWARE_FORECAST))) == if Announced(agent) != {} then Warn else Healthy
    }

    /**
     The hardware forecast of one host notifies exactly when some pair is at risk now that was not
     at the previous look: a pair that stays is not repeated, one that comes back is news again.
     */
    method HardwareForecastAlert(agent: string, current: set<string>, now: int) returns (notify: bool)
      requires ForecastConsistent(agent)
      modifies this`sections, this`announced
      ensures ForecastConsistent(agent)
      ensures notify <==> current - old(Announced(agent)) != {}
      ensures Announced(agent) == current
      ensures LastNotified(Lookup(sections, Key(agent, HARDWARE_FORECAST))) ==
        if notify then Some(now) else old(LastNotified(Lookup(sections, Key(agent, HARDWARE_FORECAST))))
      ensures forall k :: k != Key(agent, HARDWARE_FORECAST) ==> View(k) == old(View(k))
      ensures forall a :: a != agent ==> Announced(a) == old(Announced(a))
    {
      var key := Key(agent, HARDWARE_FORECAST);
      var row := Lookup(sections, key);
      var known := Announced(agent);
      if agent !in announced || known != current {
        announced := announced[agent := current];
      }
      if current == {} {
        if row.Some? && row.value.status != Healthy {
          sections := sections[key := Row(Healthy, now, row.value.lastNotified)];
        }
        return false;
      }
      if current - known == {} && row.Some? && row.value.status == Warn {
        return false;
      }
      var since := if row.Some? && row.value.status == Warn then row.value.since else now;
      sections := sections[key := Row(Warn, since, Some(now))];
      return true;
    }

    /**
     The disk forecast of one host; `filling` says whether some volume is about to fill up. The row is
     a warning exactly while one is, so the forecast notifies once when that begins.
     */
    method DiskForecastAlert(agent: string, filling: bool, now: int) returns (notify: bool)
      modifies this`sections
      ensures notify <==> filling && old(StatusOf(Lookup(sections, Key(agent, DISK_FORECAST)))) != Warn
      ensures
        var was, row := old(Lookup(sections, Key(agent, DISK_FORECAST))), Lookup(sections, Key(agent, DISK_FORECAST));
        && StatusOf(row) == (if filling then Warn else Healthy)
        && LastNotified(row) == (if notify then Some(now) else LastNotified(was))
        && (row != was ==> row.Some? && row.value.since == now)
      ensures forall k :: k != Key(agent, DISK_FORECAST) ==> View(k) == old(View(k))
    {
      var key := Key(agent, DISK_FORECAST);
      var row := Lookup(sections, key);
      if !filling {
        if row.Some? && row.value.status != Healthy {
          sections := sections[key := Row(Healthy, now, row.value.lastNotified)];
        }
        return false;
      }
      if row.Some? && row.value.status == Warn {
        return false;
      }
      sections := sections[key := Row(Warn, now, Some(now))];
      return true;
    }
  }

  /** The summary has a line for the finding. */
  predicate Described(f: Finding, stored: set<string>) {
    match f
    case SectionFinding(k) => k.agent in stored || IsForecast(k.name)
    case MissingHost(a) => a in stored
  }

  predicate Silence(receivedAt: Option<int>, connected: bool, now: int, limit: int) {
    !connected && receivedAt.Some? && now - receivedAt.value > limit
  }

  predicate Absent(row: Option<PresenceRow>) {
    row.Some? && row.value.absent
  }

  predicate AbsenceNotified(row: Option<PresenceRow>) {
    row.Some? && row.value.lastNotified.Some? && row.value.lastNotified.value >= row.value.since
  }

  /** A presence row after a pass, and what a change notifies; only `missing` rows `announce` and stamp. */
  function AbsencePass(row: Option<PresenceRow>, absent: bool, announce: bool, now: int)
    : (Option<PresenceRow>, Option<Kind>)
  {
    if absent == Absent(row) then (row, None)
    else
      var kind := if absent then (if announce then Some(AlertNote) else None)
                  else if AbsenceNotified(row) then Some(RecoveryNote) else None;
      var last := if kind.Some? && announce then Some(now) else if row.Some? then row.value.lastNotified else None;
      (Some(PresenceRow(absent, now, last)), kind)
  }

  /** One look at a host: the time and whether it counts as absent. */
  datatype Look = Look(now: int, absent: bool)

  function PresenceAfter(looks: seq<Look>, announce: bool): Option<PresenceRow> {
    if looks == [] then None
    else
      var n := |looks| - 1;
      AbsencePass(PresenceAfter(looks[..n], announce), looks[n].absent, announce, looks[n].now).0
  }

  /**
   Over every run of looks, going missing always alerts, reporting again always recovers, and
   nothing else notifies; the offline row never notifies at all.
   */
  lemma {:induction false} AbsenceNotes(looks: seq<Look>, announce: bool, absent: bool, now: int)
    ensures Absent(PresenceAfter(looks, announce)) <==> looks != [] && looks[|looks| - 1].absent
    ensures
      var was := looks != [] && looks[|looks| - 1].absent;
      AbsencePass(PresenceAfter(looks, announce), absent, announce, now).1 ==
        if !announce || absent == was then None else if absent then Some(AlertNote) else Some(RecoveryNote)
  {
    AbsenceStamp(looks, announce);
  }

  lemma {:induction false} AbsenceStamp(looks: seq<Look>, announce: bool)
    ensures
      var row := PresenceAfter(looks, announce);
      && (Absent(row) <==> looks != [] && looks[|looks| - 1].absent)
      && (announce && Absent(row) ==> AbsenceNotified(row))
      && (!announce && row.Some? ==> row.value.lastNotified.None?)
  {
    if looks != [] {
      AbsenceStamp(looks[..|looks| - 1], announce);
    }
  }

  lemma {:induction false} UnvisitedUnnamed(agent: string, items: seq<Item>, outs: seq<Outcome>, k: Key)
    requires |items| == |outs| && !Visited(agent, items, k)
    ensures k.agent == agent ==> forall l :: l in AlertLines(items, outs) ==> l.name != k.name
  {
    forall l | l in AlertLines(items, outs) && k.agent == agent
      ensures l.name != k.name
    {
      AlertLinesOf(items, outs, l);
    }
  }

  lemma {:induction false} NamedIffAlerts(items: seq<Item>, outs: seq<Outcome>, i: nat)
    requires |items| == |outs| && DistinctNames(items) && i < |items|
    ensures (exists l :: l in AlertLines(items, outs) && l.name == items[i].name) <==> outs[i].emit.Alert?
  {
    if outs[i].emit.Alert? {
      AlertLinesOf(items, outs, Line(items[i].name, outs[i].emit.status));
    }
    forall l | l in AlertLines(items, outs) && l.name == items[i].name
      ensures outs[i].emit.Alert?
    {
      AlertLinesOf(items, outs, l);
      var j :| 0 <= j < |items| && outs[j].emit == Alert(l.status) && items[j].name == l.name;
      assert i == j;
    }
  }

  /** The marker set after the loop is the one `Pass` sets. */
  lemma PassOfEvaluate(confirm: bool, s: Section, item: Item, c: Context, outs: seq<Outcome>)
    ensures
      var (s', e) := Evaluate(confirm, s, ReadingOf(item, c, false));
      (e == Alert(Crit) ==> AnyCrit(outs)) ==>
        Pass(confirm, s, ReadingOf(item, c, AnyCrit(outs)))
        == (if e.Alert? && AnyCrit(outs) then s'.(pushed := true) else s', e)
  {
  }

  // ---- Sequences of passes over any hosts ----

  datatype HostPass = HostPass(agent: string, items: seq<Item>, context: Context)

  /**
   A server's life: the rows before every pass and at the end, the rows `left` by every pass, and which
   sections need confirmation. Between two passes the forecasts of any host may be looked at.
   */
  ghost predicate History(rows: seq<Rows>, left: seq<Rows>, passes: seq<HostPass>, confirms: string -> bool) {
    && |rows| == |passes| + 1 && |left| == |passes| && rows[0] == Rows(map[], map[], {})
    && forall n: nat :: n < |passes| ==> PassAt(rows, left, passes, confirms, n)
  }

  ghost predicate PassAt(rows: seq<Rows>, left: seq<Rows>, passes: seq<HostPass>, confirms: string -> bool, n: nat)
    requires n < |passes| == |left| < |rows|
  {
    && Proper(passes[n], confirms)
    && Passed(rows[n], left[n], passes[n].agent, passes[n].items, passes[n].context)
    && ForecastsLooked(left[n], rows[n + 1])
  }

  /** Looks at forecasts, however many, change no other rows than the forecasts'. */
  ghost predicate ForecastsLooked(before: Rows, now: Rows) {
    forall k: Key :: !IsForecast(k.name) ==> ViewIn(now, k) == ViewIn(before, k)
  }

  ghost predicate Proper(p: HostPass, confirms: string -> bool) {
    && DistinctNames(p.items)
    && forall i :: 0 <= i < |p.items| ==>
         p.items[i].confirm == confirms(p.items[i].name) && !IsForecast(p.items[i].name)
  }

  function IndexOf(items: seq<Item>, name: string): (i: nat)
    requires exists i :: 0 <= i < |items| && items[i].name == name
    ensures i < |items| && items[i].name == name
  {
    if items[0].name == name then 0
    else
      assert forall i :: 0 < i < |items| ==> items[i] == items[1..][i - 1];
      IndexOf(items[1..], name) + 1
  }

  /** What the section `k` reads in a pass that visits it. */
  ghost function ReadingIn(rows: Rows, p: HostPass, k: Key): Reading
    requires Visited(p.agent, p.items, k)
  {
    ReadingOf(p.items[IndexOf(p.items, k.name)], p.context, AnyCrit(OutcomesIn(rows, p.agent, p.items, p.context)))
  }

  /** A reading holds what the snapshot says of the section and what the pass was made with. */
  lemma ReadingSays(rows: Rows, p: HostPass, k: Key, i: nat)
    requires Visited(p.agent, p.items, k) && DistinctNames(p.items) && i < |p.items| && p.items[i].name == k.name
    ensures
      var r := ReadingIn(rows, p, k);
      && r.status == p.items[i].status && r.now == p.context.now
      && r.collectedAt == p.context.collectedAt && r.cooldown == p.context.cooldown
      && (r.critInPass <==>
            exists j ::
              && 0 <= j < |p.items|
              && Evaluate(p.items[j].confirm, ViewIn(rows, Key(p.agent, p.items[j].name)),
                          Reading(p.context.now, p.items[j].status, p.context.collectedAt, p.context.cooldown,
                                  false)).1 == Alert(Crit))
  {
    var outs := OutcomesIn(rows, p.agent, p.items, p.context);
    forall j | 0 <= j < |p.items|
      ensures outs[j].emit == Evaluate(p.items[j].confirm, ViewIn(rows, Key(p.agent, p.items[j].name)),
        Reading(p.context.now, p.items[j].status, p.context.collectedAt, p.context.cooldown, false)).1
    {
      assert outs[j] == OutcomeIn(rows, p.agent, p.items[j], p.context);
    }
  }

  /** What the section reads in pass `n`: nothing, if the pass is over another host or does not visit it. */
  ghost function ReadAt(rows: seq<Rows>, passes: seq<HostPass>, n: nat, k: Key): Run
    requires n < |passes| <= |rows|
  {
    if Visited(passes[n].agent, passes[n].items, k) then [ReadingIn(rows[n], passes[n], k)] else []
  }

  /** The readings of the section `k` in the first `n` passes. */
  ghost function ReadingsOf(rows: seq<Rows>, passes: seq<HostPass>, n: nat, k: Key): Run
    requires n <= |passes| <= |rows|
  {
    if n == 0 then [] else ReadingsOf(rows, passes, n - 1, k) + ReadAt(rows, passes, n - 1, k)
  }

  lemma {:induction false} VisitedPass(before: Rows, now: Rows, p: HostPass, confirms: string -> bool, k: Key)
    requires Proper(p, confirms) && Passed(before, now, p.agent, p.items, p.context)
    requires Visited(p.agent, p.items, k)
    ensures ViewIn(now, k) == Pass(confirms(k.name), ViewIn(before, k), ReadingIn(before, p, k)).0
  {
    var i := IndexOf(p.items, k.name);
    assert k == Key(p.agent, p.items[i].name);
    assert PassedAt(before, now, p.agent, p.items, p.context, i);
  }

  /**
   After any sequence of passes over any hosts, with any looks at forecasts in between, each section's
   rows are those of its own readings.
   */
  lemma {:induction false} PassesRunSections(rows: seq<Rows>, left: seq<Rows>, passes: seq<HostPass>,
                                             confirms: string -> bool, n: nat, k: Key)
    requires History(rows, left, passes, confirms) && n <= |passes| && !IsForecast(k.name)
    ensures ViewIn(rows[n], k) == After(confirms(k.name), ReadingsOf(rows, passes, n, k))
  {
    if n > 0 {
      var m: nat := n - 1;
      PassesRunSections(rows, left, passes, confirms, m, k);
      assert PassAt(rows, left, passes, confirms, m);
      assert ViewIn(rows[n], k) == ViewIn(left[m], k);
      if Visited(passes[m].agent, passes[m].items, k) {
        VisitedPass(rows[m], left[m], passes[m], confirms, k);
        AfterSnoc(confirms(k.name), ReadingsOf(rows, passes, m, k), ReadingIn(rows[m], passes[m], k));
      } else {
        assert ViewIn(rows[n], k) == ViewIn(rows[m], k);
        assert ReadingsOf(rows, passes, n, k) == ReadingsOf(rows, passes, m, k);
      }
    }
  }

  lemma {:induction false} AfterSnoc(confirm: bool, run: Run, r: Reading)
    ensures After(confirm, run + [r]) == Pass(confirm, After(confirm, run), r).0
    ensures EmitAt(confirm, run + [r], |run|) == Pass(confirm, After(confirm, run), r).1
  {
    assert (run + [r])[..|run|] == run;
  }

  /** What the section `k` emits at its reading in pass `n`, going by the run of its own readings. */
  ghost function EmittedIn(rows: seq<Rows>, passes: seq<HostPass>, confirms: string -> bool, n: nat, k: Key): Emit
    requires n < |passes| <= |rows| && Visited(passes[n].agent, passes[n].items, k)
  {
    var before := ReadingsOf(rows, passes, n, k);
    EmitAt(confirms(k.name), before + [ReadingIn(rows[n], passes[n], k)], |before|)
  }

  /**
   A pass's alert names a section, with a severity, exactly when the run of that section's own
   readings emits that alert at its latest reading; so too its recovery, with the level it ends.
   */
  lemma {:induction false} NotesAreEmits(rows: seq<Rows>, left: seq<Rows>, passes: seq<HostPass>,
                                         confirms: string -> bool, n: nat, k: Key, status: Status)
    requires History(rows, left, passes, confirms) && n < |passes| && Visited(passes[n].agent, passes[n].items, k)
    ensures
      var p := passes[n];
      var outs := OutcomesIn(rows[n], p.agent, p.items, p.context);
      && (Line(k.name, status) in AlertLines(p.items, outs) <==>
            EmittedIn(rows, passes, confirms, n, k) == Alert(status))
      && (Line(k.name, status) in RecoveryLines(p.items, outs) <==>
            EmittedIn(rows, passes, confirms, n, k) == Recovery(status))
  {
    var p := passes[n];
    var outs := OutcomesIn(rows[n], p.agent, p.items, p.context);
    var i := IndexOf(p.items, k.name);
    assert PassAt(rows, left, passes, confirms, n);
    PassesRunSections(rows, left, passes, confirms, n, k);
    AfterSnoc(confirms(k.name), ReadingsOf(rows, passes, n, k), ReadingIn(rows[n], p, k));
    EmitsAlike(confirms(k.name), ViewIn(rows[n], k), p.items[i], p.context, AnyCrit(outs));
    assert k == Key(p.agent, p.items[i].name) && outs[i] == OutcomeIn(rows[n], p.agent, p.items[i], p.context);
    LinesAt(p.items, outs, i, status);
  }

  /** Whether some other section of the pass is critical changes no section's emission. */
  lemma EmitsAlike(confirm: bool, s: Section, item: Item, c: Context, crit: bool)
    ensures Pass(confirm, s, ReadingOf(item, c, crit)).1 == Evaluate(confirm, s, ReadingOf(item, c, false)).1
  {
  }

  lemma {:induction false} RecoveryLinesOf(items: seq<Item>, outs: seq<Outcome>, line: Line)
    requires |items| == |outs|
    ensures line in RecoveryLines(items, outs) <==>
      exists i :: 0 <= i < |items| && outs[i].emit == Recovery(line.status) && items[i].name == line.name
  {
    if items != [] {
      var n := |items| - 1;
      RecoveryLinesOf(items[..n], outs[..n], line);
      forall i | 0 <= i < n
        ensures outs[..n][i] == outs[i] && items[..n][i] == items[i]
      {
      }
    }
  }

  lemma {:induction false} LinesAt(items: seq<Item>, outs: seq<Outcome>, i: nat, status: Status)
    requires |items| == |outs| && i < |items| && DistinctNames(items)
    ensures Line(items[i].name, status) in AlertLines(items, outs) <==> outs[i].emit == Alert(status)
    ensures Line(items[i].name, status) in RecoveryLines(items, outs) <==> outs[i].emit == Recovery(status)
  {
    AlertLinesOf(items, outs, Line(items[i].name, status));
    RecoveryLinesOf(items, outs, Line(items[i].name, status));
  }

  /** Passes over one host come at increasing times. */
  ghost predicate Forward(passes: seq<HostPass>) {
    forall m, n :: 0 <= m < n < |passes| && passes[m].agent == passes[n].agent ==>
      passes[m].context.now < passes[n].context.now
  }

  ghost predicate ReadBy(passes: seq<HostPass>, n: nat, agent: string, t: int)
    requires n <= |passes|
  {
    exists m :: 0 <= m < n && passes[m].agent == agent && passes[m].context.now == t
  }

  ghost predicate AllReadBy(run: Run, passes: seq<HostPass>, n: nat, agent: string)
    requires n <= |passes|
  {
    forall i :: 0 <= i < |run| ==> ReadBy(passes, n, agent, run[i].now)
  }

  lemma ReadByGrows(run: Run, passes: seq<HostPass>, m: nat, agent: string)
    requires m < |passes| && AllReadBy(run, passes, m, agent)
    ensures AllReadBy(run, passes, m + 1, agent)
    ensures Forward(passes) && passes[m].agent == agent ==>
      forall i :: 0 <= i < |run| ==> run[i].now < passes[m].context.now
  {
    forall i | 0 <= i < |run|
      ensures ReadBy(passes, m + 1, agent, run[i].now)
      ensures Forward(passes) && passes[m].agent == agent ==> run[i].now < passes[m].context.now
    {
      assert ReadBy(passes, m, agent, run[i].now);
      var j :| 0 <= j < m && passes[j].agent == agent && passes[j].context.now == run[i].now;
    }
  }

  lemma SnocRead(run: Run, r: Reading, passes: seq<HostPass>, m: nat)
    requires m < |passes| && AllReadBy(run, passes, m + 1, passes[m].agent) && r.now == passes[m].context.now
    requires Increasing(run) && forall i :: 0 <= i < |run| ==> run[i].now < r.now
    ensures AllReadBy(run + [r], passes, m + 1, passes[m].agent) && Increasing(run + [r])
  {
  }

  /** So what holds of every run of increasing readings holds of every section of every host. */
  lemma {:induction false} ReadingsIncrease(rows: seq<Rows>, passes: seq<HostPass>, n: nat, k: Key)
    requires n <= |passes| <= |rows| && Forward(passes)
    ensures Increasing(ReadingsOf(rows, passes, n, k)) && AllReadBy(ReadingsOf(rows, passes, n, k), passes, n, k.agent)
  {
    if n > 0 {
      var m: nat := n - 1;
      ReadingsIncrease(rows, passes, m, k);
      ReadIncreases(rows, passes, m, k, ReadingsOf(rows, passes, m, k));
      assert m + 1 == n;
    }
  }

  lemma ReadIncreases(rows: seq<Rows>, passes: seq<HostPass>, m: nat, k: Key, before: Run)
    requires m < |passes| <= |rows| && Forward(passes)
    requires Increasing(before) && AllReadBy(before, passes, m, k.agent)
    ensures
      var run := before + ReadAt(rows, passes, m, k);
      Increasing(run) && AllReadBy(run, passes, m + 1, k.agent)
  {
    ReadByGrows(before, passes, m, k.agent);
    if Visited(passes[m].agent, passes[m].items, k) {
      SnocRead(before, ReadingIn(rows[m], passes[m], k), passes, m);
    } else {
      assert before + ReadAt(rows, passes, m, k) == before;
    }
  }
}
