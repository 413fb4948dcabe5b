/**
 When the daily summary lists a finding as new, over any interleaving of passes and summaries.

 One section of one host is followed; the summary treats every finding independently.
 */
module DailySummary {
  import opened Wrappers
  import opened SectionAlerts
  import Schedules

  /** The settings a summary tick reads: the daily hour and the weekly digest's schedule. */
  datatype Settings = Settings(hour: int, digestEnabled: bool, digestDay: int, digestHour: int)

  datatype Event =
    | Checked(reading: Reading)
    | Summary(at: int, settings: Settings)

  function Time(e: Event): int {
    match e
    case Checked(r) => r.now
    case Summary(at, _) => at
  }

  datatype World = World(section: Section, daily: Option<int>)

  function SlotAt(s: Settings, now: int): int {
    Schedules.DailySlot(Schedules.Clamp(s.hour), now)
  }

  predicate DigestMorning(s: Settings, now: int) {
    Schedules.IsDigestSlot(s.digestEnabled, s.digestDay, s.digestHour, SlotAt(s, now))
  }

  /** The finding is open and its latest notification came after `since`, unpushed. */
  predicate NewSince(s: Section, since: int) {
    && Incident(StatusOf(s.row))
    && LastNotified(s.row).Some? && LastNotified(s.row).value > since
    && !s.pushed
  }

  function Step(confirm: bool, w: World, e: Event): World {
    match e
    case Checked(r) => w.(section := Pass(confirm, w.section, r).0)
    case Summary(at, s) => w.(daily := Schedules.Tick(w.daily, SlotAt(s, at), at).0)
  }

  /** A summary tick that takes a slot, whether or not it then has anything to send. */
  predicate TakesSlot(w: World, e: Event) {
    e.Summary? && Schedules.Tick(w.daily, SlotAt(e.settings, e.at), e.at).1
  }

  predicate ListsAsNew(w: World, e: Event) {
    && TakesSlot(w, e)
    && !DigestMorning(e.settings, e.at)
    && NewSince(w.section, w.daily.value)
  }

  /** A slot is taken exactly when the configured hour of some day has come since the stored instant. */
  lemma TakesSlotIff(w: World, at: int, s: Settings)
    ensures
      var valid := if s.hour < 0 then 0 else if s.hour > 23 then 23 else s.hour;
      TakesSlot(w, Summary(at, s)) <==>
        w.daily.Some? && exists t :: w.daily.value < t <= at && t % 86_400_000_000 == valid * 3_600_000_000
  {
    var hour := Schedules.Clamp(s.hour);
    Schedules.DailySlotIsLatest(hour, at);
    assert Schedules.IsDailySlot(hour, Schedules.DailySlot(hour, at));
    forall t | t <= at && t % 86_400_000_000 == hour * 3_600_000_000
      ensures t <= Schedules.DailySlot(hour, at)
    {
      assert Schedules.IsDailySlot(hour, t);
    }
  }

  /** It is left to the digest exactly when the digest is enabled for that hour of that slot's weekday. */
  lemma DigestMorningIff(s: Settings, at: int)
    ensures
      var valid := if s.hour < 0 then 0 else if s.hour > 23 then 23 else s.hour;
      DigestMorning(s, at) <==>
        && s.digestEnabled && s.digestHour == valid
        && exists t :: at - 86_400_000_000 < t <= at && t % 86_400_000_000 == valid * 3_600_000_000
                    && t / 86_400_000_000 % 7 == s.digestDay
  {
    var hour := Schedules.Clamp(s.hour);
    var slot := Schedules.DailySlot(hour, at);
    Schedules.DailySlotIsLatest(hour, at);
    assert Schedules.HourOf(slot) == hour;
    forall t | at - 86_400_000_000 < t <= at && t % 86_400_000_000 == hour * 3_600_000_000
      ensures t == slot
    {
      Schedules.DailySlotsApart(hour, t, slot);
      Schedules.DailySlotsApart(hour, slot, t);
    }
  }

  type History = seq<Event>

  ghost predicate Ordered(h: History) {
    forall i, j :: 0 <= i < j < |h| ==> Time(h[i]) < Time(h[j])
  }

  function After(confirm: bool, h: History): World {
    if h == [] then World(Fresh, None) else Step(confirm, After(confirm, h[..|h| - 1]), h[|h| - 1])
  }

  function WorldAt(confirm: bool, h: History, k: nat): World
    requires k <= |h|
  {
    After(confirm, h[..k])
  }

  lemma WorldStep(confirm: bool, h: History, k: nat)
    requires k < |h|
    ensures WorldAt(confirm, h, k + 1) == Step(confirm, WorldAt(confirm, h, k), h[k])
  {
    assert h[..k + 1][..k] == h[..k];
  }

  /** Event `a` notified about the section. */
  predicate Notifies(confirm: bool, h: History, a: nat)
    requires a < |h|
  {
    h[a].Checked? && Pass(confirm, WorldAt(confirm, h, a).section, h[a].reading).1 != Silent
  }

  /** Event `d` moved the summary's window: the baseline tick, or a tick that took a slot. */
  predicate MovesWindow(confirm: bool, h: History, d: nat)
    requires d < |h|
  {
    h[d].Summary? && (WorldAt(confirm, h, d).daily.None? || TakesSlot(WorldAt(confirm, h, d), h[d]))
  }

  ghost predicate LatestNotice(confirm: bool, h: History, a: nat, k: nat)
    requires k <= |h|
  {
    a < k && Notifies(confirm, h, a) && forall m :: a < m < k ==> !Notifies(confirm, h, m)
  }

  ghost predicate LatestMove(confirm: bool, h: History, d: nat, k: nat)
    requires k <= |h|
  {
    d < k && MovesWindow(confirm, h, d) && forall m :: d < m < k ==> !MovesWindow(confirm, h, m)
  }

  lemma {:induction false} SectionInvariant(confirm: bool, h: History, k: nat, t: int)
    requires Ordered(h) && k <= |h|
    requires k == 0 || Time(h[k - 1]) <= t
    ensures Inv(WorldAt(confirm, h, k).section, t)
  {
    if k > 0 {
      var n: nat := k - 1;
      SectionInvariant(confirm, h, n, Time(h[n]) - 1);
      WorldStep(confirm, h, n);
      StepKeepsInv(confirm, WorldAt(confirm, h, n), h[n], t);
    }
  }

  lemma StepKeepsInv(confirm: bool, w: World, e: Event, t: int)
    requires Inv(w.section, Time(e) - 1) && Time(e) <= t
    ensures Inv(Step(confirm, w, e).section, t)
  {
    if e.Checked? {
      PassKeepsInv(confirm, w.section, Time(e) - 1, e.reading);
    }
  }

  lemma StampStep(confirm: bool, h: History, k: nat)
    requires Ordered(h) && k < |h|
    ensures LastNotified(WorldAt(confirm, h, k + 1).section.row) ==
      if Notifies(confirm, h, k) then Some(Time(h[k])) else LastNotified(WorldAt(confirm, h, k).section.row)
  {
    WorldStep(confirm, h, k);
    if h[k].Checked? {
      SectionInvariant(confirm, h, k, Time(h[k]) - 1);
      PassKeepsInv(confirm, WorldAt(confirm, h, k).section, Time(h[k]) - 1, h[k].reading);
    }
  }

  lemma WindowStep(confirm: bool, h: History, k: nat)
    requires k < |h|
    ensures WorldAt(confirm, h, k + 1).daily ==
      if MovesWindow(confirm, h, k) then Some(Time(h[k])) else WorldAt(confirm, h, k).daily
  {
    WorldStep(confirm, h, k);
  }

  /** The row's stamp is the time of the latest notice. */
  lemma {:induction false} StampIsLatestNotice(confirm: bool, h: History, a: nat, k: nat)
    requires Ordered(h) && k <= |h| && LatestNotice(confirm, h, a, k)
    ensures LastNotified(WorldAt(confirm, h, k).section.row) == Some(Time(h[a]))
  {
    var n: nat := k - 1;
    StampStep(confirm, h, n);
    if a < n {
      StampIsLatestNotice(confirm, h, a, n);
    }
  }

  /** A stamp comes from a notice. */
  lemma {:induction false} StampedByNotice(confirm: bool, h: History, k: nat)
    requires Ordered(h) && k <= |h| && LastNotified(WorldAt(confirm, h, k).section.row).Some?
    ensures exists a :: LatestNotice(confirm, h, a, k)
  {
    assert h[..0] == [];
    var n: nat := k - 1;
    StampStep(confirm, h, n);
    if !Notifies(confirm, h, n) {
      StampedByNotice(confirm, h, n);
    }
    LatestNoticeStep(confirm, h, n, k);
  }

  lemma LatestNoticeStep(confirm: bool, h: History, n: nat, k: nat)
    requires n < k == n + 1 <= |h|
    ensures Notifies(confirm, h, n) || (exists a :: LatestNotice(confirm, h, a, n)) ==>
      exists a :: LatestNotice(confirm, h, a, k)
  {
    if Notifies(confirm, h, n) {
      assert LatestNotice(confirm, h, n, k);
    } else if exists a :: LatestNotice(confirm, h, a, n) {
      var a: nat :| LatestNotice(confirm, h, a, n);
      assert LatestNotice(confirm, h, a, k);
    }
  }

  /** The stored window start is the time of the latest move. */
  lemma {:induction false} WindowIsLatestMove(confirm: bool, h: History, d: nat, k: nat)
    requires k <= |h| && LatestMove(confirm, h, d, k)
    ensures WorldAt(confirm, h, k).daily == Some(Time(h[d]))
  {
    var n: nat := k - 1;
    WindowStep(confirm, h, n);
    if d < n {
      WindowIsLatestMove(confirm, h, d, n);
    }
  }

  /** The window has a start only once it was moved. */
  lemma {:induction false} WindowWasMoved(confirm: bool, h: History, k: nat)
    requires k <= |h| && WorldAt(confirm, h, k).daily.Some?
    ensures exists d :: LatestMove(confirm, h, d, k)
  {
    var n: nat := k - 1;
    WindowStep(confirm, h, n);
    if MovesWindow(confirm, h, n) {
      assert LatestMove(confirm, h, n, k);
    } else {
      WindowWasMoved(confirm, h, n);
      var d: nat :| LatestMove(confirm, h, d, n);
      assert LatestMove(confirm, h, d, k);
    }
  }

  /**
   A summary lists the finding as new exactly when it takes a slot that is not the digest's, the
   finding is open and unpushed, and the finding's latest notice came after the latest move of
   the summary's window.
   */
  lemma ListedIff(confirm: bool, h: History, k: nat)
    requires Ordered(h) && k < |h|
    ensures ListsAsNew(WorldAt(confirm, h, k), h[k]) <==>
      && TakesSlot(WorldAt(confirm, h, k), h[k])
      && !DigestMorning(h[k].settings, h[k].at)
      && Incident(StatusOf(WorldAt(confirm, h, k).section.row))
      && !WorldAt(confirm, h, k).section.pushed
      && exists a, d :: LatestNotice(confirm, h, a, k) && LatestMove(confirm, h, d, k) && d < a
  {
    var w := WorldAt(confirm, h, k);
    forall a: nat, d: nat | LatestNotice(confirm, h, a, k) && LatestMove(confirm, h, d, k)
      ensures LastNotified(w.section.row) == Some(Time(h[a])) && w.daily == Some(Time(h[d]))
      ensures d < a <==> Time(h[d]) < Time(h[a])
    {
      StampIsLatestNotice(confirm, h, a, k);
      WindowIsLatestMove(confirm, h, d, k);
    }
    if TakesSlot(w, h[k]) && LastNotified(w.section.row).Some? {
      StampedByNotice(confirm, h, k);
      WindowWasMoved(confirm, h, k);
    }
  }

  /**
   The first slot taken after a notice lists the finding exactly when it is still open and
   unpushed and the slot is not the digest's.
   */
  lemma FirstSlotLists(confirm: bool, h: History, a: nat, k: nat)
    requires Ordered(h) && a < k < |h|
    requires LatestNotice(confirm, h, a, k)
    requires WorldAt(confirm, h, a).daily.Some?
    requires forall m :: a < m < k ==> !MovesWindow(confirm, h, m)
    requires TakesSlot(WorldAt(confirm, h, k), h[k])
    ensures ListsAsNew(WorldAt(confirm, h, k), h[k]) <==>
      && Incident(StatusOf(WorldAt(confirm, h, k).section.row))
      && !WorldAt(confirm, h, k).section.pushed
      && !DigestMorning(h[k].settings, h[k].at)
  {
    ListedIff(confirm, h, k);
    WindowWasMoved(confirm, h, a);
    var d: nat :| LatestMove(confirm, h, d, a);
    assert LatestMove(confirm, h, d, k);
  }

  /** After a slot has been taken, no later summary lists the finding unless it is notified in between. */
  lemma ListedOnce(confirm: bool, h: History, k: nat, k': nat)
    requires Ordered(h) && k < k' < |h|
    requires TakesSlot(WorldAt(confirm, h, k), h[k])
    requires ListsAsNew(WorldAt(confirm, h, k'), h[k'])
    ensures exists b :: k < b < k' && Notifies(confirm, h, b)
  {
    ListedIff(confirm, h, k');
    var b: nat, d: nat :| LatestNotice(confirm, h, b, k') && LatestMove(confirm, h, d, k') && d < b;
    assert MovesWindow(confirm, h, k);
    assert k <= d;
  }

  /** A notice older than the summary's baseline tick is never listed as new. */
  lemma BeforeBaselineNeverListed(confirm: bool, h: History, a: nat, k: nat)
    requires Ordered(h) && a < k < |h|
    requires LatestNotice(confirm, h, a, k)
    requires WorldAt(confirm, h, a).daily.None?
    ensures !ListsAsNew(WorldAt(confirm, h, k), h[k])
  {
    ListedIff(confirm, h, k);
    if ListsAsNew(WorldAt(confirm, h, k), h[k]) {
      var b: nat, d: nat :| LatestNotice(confirm, h, b, k) && LatestMove(confirm, h, d, k) && d < b;
      assert a == b;
      WindowIsLatestMove(confirm, h, d, a);
      assert false;
    }
  }
}
