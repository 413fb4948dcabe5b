/**
 The weekly digest and the daily summary slots, and when a slot is served.

 An instant is a number of microseconds since a Monday midnight, UTC.
 */
module Schedules {
  import opened Wrappers

  const HOUR := 3_600_000_000
  const DAY := 24 * HOUR
  const WEEK := 7 * DAY

  function Weekday(t: int): int { t / DAY % 7 }

  function HourOf(t: int): int { t % DAY / HOUR }

  /** `t` moved to the start of hour `hour` of its own day. */
  function AtHour(t: int, hour: int): int { t / DAY * DAY + hour * HOUR }

  function Clamp(hour: int): int {
    if hour < 0 then 0 else if hour > 23 then 23 else hour
  }

  /** The latest weekly slot at or before `now`. */
  function DigestSlot(day: int, hour: int, now: int): int {
    var daysBack := (Weekday(now) - day) % 7;
    var slot := AtHour(now - daysBack * DAY, hour);
    if slot > now then slot - WEEK else slot
  }

  /** The latest daily slot at or before `now`. */
  function DailySlot(hour: int, now: int): int {
    var slot := AtHour(now, hour);
    if slot > now then slot - DAY else slot
  }

  predicate IsWeeklySlot(day: int, hour: int, t: int) {
    t / 86_400_000_000 % 7 == day && t % 86_400_000_000 == hour * 3_600_000_000
  }

  predicate IsDailySlot(hour: int, t: int) {
    t % 86_400_000_000 == hour * 3_600_000_000
  }

  lemma WeekMath(d: int, day: int)
    requires 0 <= day < 7
    ensures (d - (d % 7 - day) % 7) % 7 == day
    ensures (d - (d % 7 - day) % 7 - 7) % 7 == day
  {
  }

  lemma DigestSlotOnGrid(day: int, hour: int, now: int)
    requires 0 <= day < 7 && 0 <= hour < 24
    ensures IsWeeklySlot(day, hour, DigestSlot(day, hour, now))
    ensures HourOf(DigestSlot(day, hour, now)) == hour
    ensures DigestSlot(day, hour, now) <= now < DigestSlot(day, hour, now) + WEEK
  {
    var d := now / DAY;
    var b := (Weekday(now) - day) % 7;
    var moved := now - b * DAY;
    WeekMath(d, day);
    assert now == d * DAY + now % DAY;
    assert moved == (d - b) * DAY + now % DAY;
    assert AtHour(moved, hour) == (d - b) * DAY + hour * HOUR;
    assert AtHour(moved, hour) - WEEK == (d - b - 7) * DAY + hour * HOUR;
  }

  /** The computed weekly slot has the configured weekday and hour and is less than a week old. */
  lemma DigestSlotIsLatest(day: int, hour: int, now: int)
    requires 0 <= day < 7 && 0 <= hour < 24
    ensures IsWeeklySlot(day, hour, DigestSlot(day, hour, now))
    ensures HourOf(DigestSlot(day, hour, now)) == hour
    ensures DigestSlot(day, hour, now) <= now < DigestSlot(day, hour, now) + WEEK
    ensures forall s :: IsWeeklySlot(day, hour, s) && s <= now ==> s <= DigestSlot(day, hour, now)
  {
    var slot := DigestSlot(day, hour, now);
    DigestSlotOnGrid(day, hour, now);
    forall s | IsWeeklySlot(day, hour, s) && s <= now
      ensures s <= slot
    {
      WeeklySlotsApart(day, hour, s, slot);
    }
  }

  lemma WeeklySlotsApart(day: int, hour: int, s: int, t: int)
    requires IsWeeklySlot(day, hour, s) && IsWeeklySlot(day, hour, t)
    ensures t < s ==> t + WEEK <= s
  {
    assert s == s / DAY * DAY + hour * HOUR && t == t / DAY * DAY + hour * HOUR;
  }

  lemma DailySlotIsLatest(hour: int, now: int)
    requires 0 <= hour < 24
    ensures IsDailySlot(hour, DailySlot(hour, now))
    ensures DailySlot(hour, now) <= now < DailySlot(hour, now) + DAY
    ensures forall s :: IsDailySlot(hour, s) && s <= now ==> s <= DailySlot(hour, now)
  {
    var slot := DailySlot(hour, now);
    assert now == now / DAY * DAY + now % DAY;
    assert AtHour(now, hour) - DAY == (now / DAY - 1) * DAY + hour * HOUR;
    forall s | IsDailySlot(hour, s) && s <= now
      ensures s <= slot
    {
      DailySlotsApart(hour, s, slot);
    }
  }

  lemma DailySlotsApart(hour: int, s: int, t: int)
    requires IsDailySlot(hour, s) && IsDailySlot(hour, t)
    ensures t < s ==> t + DAY <= s
  {
    assert s == s / DAY * DAY + hour * HOUR && t == t / DAY * DAY + hour * HOUR;
  }

  /** Whether the daily summary leaves this slot to the weekly digest. */
  predicate IsDigestSlot(enabled: bool, day: int, hour: int, slot: int) {
    enabled && Weekday(slot) == day && HourOf(slot) == hour
  }

  /**
   The summary skips a slot exactly when an enabled digest occupies it, provided the configured
   digest hour is a real hour; the digest clamps the hour and the summary does not.
   */
  lemma SkipsExactlyDigestSlots(enabled: bool, day: int, hour: int, dailyHour: int, now: int)
    requires 0 <= day < 7 && 0 <= dailyHour < 24
    ensures
      var slot := DailySlot(dailyHour, now);
      IsDigestSlot(enabled, day, hour, slot) <==>
        enabled && 0 <= hour < 24 && DigestSlot(day, Clamp(hour), slot) == slot
  {
    var slot := DailySlot(dailyHour, now);
    DailySlotIsLatest(dailyHour, now);
    DigestSlotIsLatest(day, Clamp(hour), slot);
    assert HourOf(slot) == dailyHour;
  }

  // ---- Serving slots ----

  /** The stored instant after a tick, and whether the tick serves a slot; the first tick is a baseline. */
  function Tick(last: Option<int>, slot: int, now: int): (Option<int>, bool) {
    if last.None? then (Some(now), false)
    else if last.value >= slot then (last, false)
    else (Some(now), true)
  }

  function Stored(slotAt: int -> int, ticks: seq<int>): Option<int> {
    if ticks == [] then None
    else
      var now := ticks[|ticks| - 1];
      Tick(Stored(slotAt, ticks[..|ticks| - 1]), slotAt(now), now).0
  }

  function Serves(slotAt: int -> int, ticks: seq<int>, k: nat): bool
    requires k < |ticks|
  {
    Tick(Stored(slotAt, ticks[..k]), slotAt(ticks[k]), ticks[k]).1
  }

  ghost predicate Increasing(ticks: seq<int>) {
    forall i, j :: 0 <= i < j < |ticks| ==> ticks[i] < ticks[j]
  }

  /** `slotAt(now)` is the latest member of the grid `isSlot` at or before `now`. */
  ghost predicate Latest(isSlot: int -> bool, slotAt: int -> int) {
    forall now ::
      && isSlot(slotAt(now)) && slotAt(now) <= now
      && forall s :: isSlot(s) && s <= now ==> s <= slotAt(now)
  }

  lemma {:induction false} StoredCoversSlots(isSlot: int -> bool, slotAt: int -> int, ticks: seq<int>, k: nat)
    requires Latest(isSlot, slotAt) && Increasing(ticks) && k < |ticks|
    ensures
      var last := Stored(slotAt, ticks[..k + 1]);
      last.Some? && slotAt(ticks[k]) <= last.value <= ticks[k]
  {
    assert ticks[..k + 1][..k] == ticks[..k];
    if k == 0 {
      assert ticks[..0] == [];
    } else {
      StoredCoversSlots(isSlot, slotAt, ticks, k - 1);
    }
  }

  /** A tick serves a slot exactly when one lies after the previous tick and not after this one. */
  lemma ServesIffSlotPassed(isSlot: int -> bool, slotAt: int -> int, ticks: seq<int>, k: nat)
    requires Latest(isSlot, slotAt) && Increasing(ticks) && k < |ticks|
    ensures Serves(slotAt, ticks, k) <==> k > 0 && exists s :: isSlot(s) && ticks[k - 1] < s <= ticks[k]
  {
    if k == 0 {
      assert ticks[..0] == [];
    } else {
      StoredCoversSlots(isSlot, slotAt, ticks, k - 1);
      assert isSlot(slotAt(ticks[k]));
    }
  }

  /** No slot is served twice. */
  lemma SlotServedOnce(isSlot: int -> bool, slotAt: int -> int, ticks: seq<int>, j: nat, k: nat)
    requires Latest(isSlot, slotAt) && Increasing(ticks) && j < k < |ticks|
    requires Serves(slotAt, ticks, j) && Serves(slotAt, ticks, k)
    ensures slotAt(ticks[j]) <= ticks[j] < slotAt(ticks[k])
  {
    ServesIffSlotPassed(isSlot, slotAt, ticks, k);
    var s :| isSlot(s) && ticks[k - 1] < s <= ticks[k];
    assert s <= slotAt(ticks[k]);
  }

  function DigestClock(day: int, hour: int): int -> int {
    now => DigestSlot(day, Clamp(hour), now)
  }

  function DailyClock(hour: int): int -> int {
    now => DailySlot(Clamp(hour), now)
  }

  /**
   The digest goes out at a tick exactly when the configured weekday and hour, forced into the day, have
   come since the tick before.
   */
  lemma DigestSentIffSlotPassed(day: int, hour: int, ticks: seq<int>, k: nat)
    requires 0 <= day < 7 && Increasing(ticks) && k < |ticks|
    ensures
      var valid := if hour < 0 then 0 else if hour > 23 then 23 else hour;
      Serves(DigestClock(day, hour), ticks, k) <==>
        k > 0 && exists s :: ticks[k - 1] < s <= ticks[k]
                          && s / 86_400_000_000 % 7 == day && s % 86_400_000_000 == valid * 3_600_000_000
  {
    DigestServesIff(day, hour, ticks, k);
    if Serves(DigestClock(day, hour), ticks, k) {
      var s :| IsWeeklySlot(day, Clamp(hour), s) && ticks[k - 1] < s <= ticks[k];
    }
    forall s | k > 0 && ticks[k - 1] < s <= ticks[k]
            && s / 86_400_000_000 % 7 == day && s % 86_400_000_000 == Clamp(hour) * 3_600_000_000
      ensures Serves(DigestClock(day, hour), ticks, k)
    {
      assert IsWeeklySlot(day, Clamp(hour), s);
    }
  }

  lemma DigestServesIff(day: int, hour: int, ticks: seq<int>, k: nat)
    requires 0 <= day < 7 && Increasing(ticks) && k < |ticks|
    ensures Serves(DigestClock(day, hour), ticks, k) <==>
      k > 0 && exists s :: IsWeeklySlot(day, Clamp(hour), s) && ticks[k - 1] < s <= ticks[k]
  {
    var isSlot := s => IsWeeklySlot(day, Clamp(hour), s);
    forall now
      ensures isSlot(DigestClock(day, hour)(now)) && DigestClock(day, hour)(now) <= now
      ensures forall s :: isSlot(s) && s <= now ==> s <= DigestClock(day, hour)(now)
    {
      DigestSlotIsLatest(day, Clamp(hour), now);
    }
    ServesIffSlotPassed(isSlot, DigestClock(day, hour), ticks, k);
    assert forall s :: isSlot(s) <==> IsWeeklySlot(day, Clamp(hour), s);
  }

  /** A daily slot is taken at a tick exactly when the configured hour has come since the tick before. */
  lemma DailyTakenIffSlotPassed(hour: int, ticks: seq<int>, k: nat)
    requires Increasing(ticks) && k < |ticks|
    ensures
      var valid := if hour < 0 then 0 else if hour > 23 then 23 else hour;
      Serves(DailyClock(hour), ticks, k) <==>
        k > 0 && exists s :: ticks[k - 1] < s <= ticks[k] && s % 86_400_000_000 == valid * 3_600_000_000
  {
    DailyServesIff(hour, ticks, k);
    if Serves(DailyClock(hour), ticks, k) {
      var s :| IsDailySlot(Clamp(hour), s) && ticks[k - 1] < s <= ticks[k];
    }
    forall s | k > 0 && ticks[k - 1] < s <= ticks[k] && s % 86_400_000_000 == Clamp(hour) * 3_600_000_000
      ensures Serves(DailyClock(hour), ticks, k)
    {
      assert IsDailySlot(Clamp(hour), s);
    }
  }

  lemma DailyServesIff(hour: int, ticks: seq<int>, k: nat)
    requires Increasing(ticks) && k < |ticks|
    ensures Serves(DailyClock(hour), ticks, k) <==>
      k > 0 && exists s :: IsDailySlot(Clamp(hour), s) && ticks[k - 1] < s <= ticks[k]
  {
    var isSlot := s => IsDailySlot(Clamp(hour), s);
    forall now
      ensures isSlot(DailyClock(hour)(now)) && DailyClock(hour)(now) <= now
      ensures forall s :: isSlot(s) && s <= now ==> s <= DailyClock(hour)(now)
    {
      DailySlotIsLatest(Clamp(hour), now);
    }
    ServesIffSlotPassed(isSlot, DailyClock(hour), ticks, k);
    assert forall s :: isSlot(s) <==> IsDailySlot(Clamp(hour), s);
  }

  // ---- Sendings that are not stored ----

  /** A tick, and whether what it would store was lost: the server stopped before that, or the write failed. */
  datatype Beat = Beat(now: int, unstored: bool)

  function Kept(last: Option<int>, slot: int, b: Beat): Option<int> {
    if b.unstored then last else Tick(last, slot, b.now).0
  }

  function StoredAfter(slotAt: int -> int, beats: seq<Beat>): Option<int> {
    if beats == [] then None
    else
      var b := beats[|beats| - 1];
      Kept(StoredAfter(slotAt, beats[..|beats| - 1]), slotAt(b.now), b)
  }

  /** The beat sends the digest, whether or not it then gets to store that. */
  predicate Sends(slotAt: int -> int, beats: seq<Beat>, k: nat)
    requires k < |beats|
  {
    Tick(StoredAfter(slotAt, beats[..k]), slotAt(beats[k].now), beats[k].now).1
  }

  ghost predicate BeatsIncrease(beats: seq<Beat>) {
    forall i, j :: 0 <= i < j < |beats| ==> beats[i].now < beats[j].now
  }

  /** The stored instant covers everything up to `slot`. */
  predicate Covers(last: Option<int>, slot: int) {
    last.Some? && last.value >= slot
  }

  lemma {:induction false} StoredStep(slotAt: int -> int, beats: seq<Beat>, n: nat, k: nat)
    requires n < k == n + 1 <= |beats|
    ensures StoredAfter(slotAt, beats[..k]) ==
      Kept(StoredAfter(slotAt, beats[..n]), slotAt(beats[n].now), beats[n])
  {
    assert beats[..k][..n] == beats[..n];
  }

  lemma KeptCovers(last: Option<int>, slot: int, b: Beat, floor: int)
    requires Covers(last, floor) && floor <= b.now
    ensures Covers(Kept(last, slot, b), floor)
  {
  }

  /** Once a beat with the slot has stored anything, or found it stored, the slot is covered for good. */
  lemma {:induction false} CoveredStays(isSlot: int -> bool, slotAt: int -> int, beats: seq<Beat>, j: nat, k: nat)
    requires Latest(isSlot, slotAt) && BeatsIncrease(beats) && j < k <= |beats|
    requires !beats[j].unstored || !Sends(slotAt, beats, j)
    requires StoredAfter(slotAt, beats[..j]).Some?
    ensures Covers(StoredAfter(slotAt, beats[..k]), slotAt(beats[j].now))
    decreases k
  {
    var n: nat := k - 1;
    StoredStep(slotAt, beats, n, k);
    if n > j {
      CoveredStays(isSlot, slotAt, beats, j, n);
      KeptCovers(StoredAfter(slotAt, beats[..n]), slotAt(beats[n].now), beats[n], slotAt(beats[j].now));
    }
  }

  /** One slot is sent for twice only when the first sending was not stored. */
  lemma {:induction false} SentTwiceOnlyIfUnstored(isSlot: int -> bool, slotAt: int -> int, beats: seq<Beat>,
                                                   j: nat, k: nat)
    requires Latest(isSlot, slotAt) && BeatsIncrease(beats) && j < k < |beats|
    requires Sends(slotAt, beats, j) && Sends(slotAt, beats, k)
    requires slotAt(beats[j].now) == slotAt(beats[k].now)
    ensures beats[j].unstored
  {
    if !beats[j].unstored {
      CoveredStays(isSlot, slotAt, beats, j, k);
    }
  }

  /** And then it always is: the next beat sends for the slot again. */
  lemma {:induction false} UnstoredSendsAgain(isSlot: int -> bool, slotAt: int -> int, beats: seq<Beat>, j: nat)
    requires Latest(isSlot, slotAt) && BeatsIncrease(beats) && j + 1 < |beats|
    requires Sends(slotAt, beats, j) && slotAt(beats[j].now) == slotAt(beats[j + 1].now)
    ensures Sends(slotAt, beats, j + 1) <==> beats[j].unstored
  {
    assert beats[..j + 1][..j] == beats[..j];
  }
}
