/** The login throttle: failures counted per client and user, a lockout after too many in a row. */
module LoginThrottle {
  import opened Wrappers

  type Key = string

  /** What the limiter holds about one key. */
  datatype Entry = Entry(fails: nat, lockedUntil: Option<int>)

  const FRESH := Entry(0, None)

  datatype Limits = Limits(maxAttempts: int, lockout: int)

  /** How the password and second-factor checks come out. */
  datatype Verdict = UnknownLogin | WrongCode | Verified

  datatype Outcome = Throttled(wait: int) | Refused | SignedIn

  // ---- One entry ----

  function Remaining(e: Entry, now: int): Option<int> {
    match e.lockedUntil
    case None => None
    case Some(until) => if until - now <= 0 then None else Some(until - now)
  }

  function Checked(e: Entry, now: int): Entry {
    if e.lockedUntil.Some? && Remaining(e, now).None? then FRESH else e
  }

  function Failed(e: Entry, now: int, limits: Limits): Entry {
    var fails := e.fails + 1;
    Entry(fails, if fails >= limits.maxAttempts then Some(now + limits.lockout) else e.lockedUntil)
  }

  function Settled(e: Entry, verdict: Verdict, now: int, limits: Limits): Entry {
    if verdict == Verified then FRESH else Failed(e, now, limits)
  }

  function OutcomeOf(e: Entry, at: int, verdict: Verdict): Outcome {
    match Remaining(e, at)
    case Some(wait) => Throttled(wait)
    case None => if verdict == Verified then SignedIn else Refused
  }

  class LoginRateLimiter {
    const limits: Limits
    var fails: map<Key, nat>
    var lockedUntil: map<Key, int>

    constructor (limits: Limits)
      ensures this.limits == limits && forall k :: EntryOf(k) == FRESH
    {
      this.limits := limits;
      fails, lockedUntil := map[], map[];
    }

    function EntryOf(key: Key): Entry
      reads this
    {
      Entry(if key in fails then fails[key] else 0, if key in lockedUntil then Some(lockedUntil[key]) else None)
    }

    method RetryAfter(key: Key, now: int) returns (wait: Option<int>)
      modifies this`fails, this`lockedUntil
      ensures wait.Some? <==> key in old(lockedUntil) && now < old(lockedUntil)[key]
      ensures wait.Some? ==> wait.value == old(lockedUntil)[key] - now
      ensures key in old(lockedUntil) && wait.None? ==> key !in lockedUntil && key !in fails
      ensures wait == Remaining(old(EntryOf(key)), now)
      ensures EntryOf(key) == Checked(old(EntryOf(key)), now)
      ensures forall k :: k != key ==> EntryOf(k) == old(EntryOf(k))
    {
      if key !in lockedUntil {
        return None;
      }
      var remaining := lockedUntil[key] - now;
      if remaining <= 0 {
        lockedUntil := lockedUntil - {key};
        fails := fails - {key};
        return None;
      }
      return Some(remaining);
    }

    method RecordFailure(key: Key, now: int)
      modifies this`fails, this`lockedUntil
      ensures key in fails && fails[key] == 1 + if key in old(fails) then old(fails)[key] else 0
      ensures fails[key] >= limits.maxAttempts ==> key in lockedUntil && lockedUntil[key] == now + limits.lockout
      ensures fails[key] < limits.maxAttempts ==> lockedUntil == old(lockedUntil)
      ensures EntryOf(key) == Failed(old(EntryOf(key)), now, limits)
      ensures forall k :: k != key ==> EntryOf(k) == old(EntryOf(k))
    {
      fails := fails[key := (if key in fails then fails[key] else 0) + 1];
      if fails[key] >= limits.maxAttempts {
        lockedUntil := lockedUntil[key := now + limits.lockout];
      }
    }

    method Reset(key: Key)
      modifies this`fails, this`lockedUntil
      ensures key !in fails && key !in lockedUntil && EntryOf(key) == FRESH
      ensures forall k :: k != key ==> EntryOf(k) == old(EntryOf(k))
    {
      fails := fails - {key};
      lockedUntil := lockedUntil - {key};
    }

    /** What the handler does once the password check has come back. */
    method Settle(key: Key, verdict: Verdict, now: int) returns (outcome: Outcome)
      modifies this`fails, this`lockedUntil
      ensures outcome == if verdict == Verified then SignedIn else Refused
      ensures verdict == Verified ==> key !in fails && key !in lockedUntil
      ensures verdict != Verified ==> key in fails && fails[key] == 1 + if key in old(fails) then old(fails)[key] else 0
      ensures EntryOf(key) == Settled(old(EntryOf(key)), verdict, now, limits)
      ensures forall k :: k != key ==> EntryOf(k) == old(EntryOf(k))
    {
      if verdict != UnknownLogin {
        if verdict == WrongCode {
          RecordFailure(key, now);
          return Refused;
        }
        Reset(key);
        return SignedIn;
      }
      RecordFailure(key, now);
      return Refused;
    }

    /** The login handler with nothing in between: ask first, verify only if let in, then record or forget. */
    method Login(key: Key, arrivedAt: int, verdict: Verdict, settledAt: int) returns (outcome: Outcome)
      modifies this`fails, this`lockedUntil
      ensures
        if key in old(lockedUntil) && arrivedAt < old(lockedUntil)[key] then
          outcome == Throttled(old(lockedUntil)[key] - arrivedAt)
        else
          outcome == if verdict == Verified then SignedIn else Refused
      ensures outcome == OutcomeOf(old(EntryOf(key)), arrivedAt, verdict)
      ensures forall k :: EntryOf(k) == Alone(old(EntryOf(k)), key, arrivedAt, verdict, settledAt, k, limits)
    {
      forall k {
        AloneSteps(EntryOf(k), key, arrivedAt, verdict, settledAt, k, limits);
      }
      var wait := RetryAfter(key, arrivedAt);
      if wait.Some? {
        return Throttled(wait.value);
      }
      outcome := Settle(key, verdict, settledAt);
    }
  }

  // ---- Interleavings, seen from one key ----

  /** The handler waits for the password check between the two, and other attempts may come in. */
  datatype Event = Arrives(key: Key, at: int) | Settles(key: Key, at: int, verdict: Verdict)

  /** A key's entry, and how many attempts have been let in and not settled. */
  datatype Desk = Desk(entry: Entry, open: nat)

  function Step(d: Desk, ev: Event, key: Key, limits: Limits): Desk {
    if ev.key != key then d
    else
      match ev
      case Arrives(_, at) =>
        if Remaining(d.entry, at).Some? then d else Desk(Checked(d.entry, at), d.open + 1)
      case Settles(_, at, verdict) =>
        if d.open == 0 then d else Desk(Settled(d.entry, verdict, at, limits), d.open - 1)
  }

  function Run(d: Desk, events: seq<Event>, key: Key, limits: Limits): Desk {
    if events == [] then d
    else
      var n := |events| - 1;
      Step(Run(d, events[..n], key, limits), events[n], key, limits)
  }

  /** What one attempt with nothing in between leaves of the entry of `k`. */
  function Alone(e: Entry, key: Key, arrivedAt: int, verdict: Verdict, settledAt: int, k: Key, limits: Limits): Entry {
    Run(Desk(e, 0), [Arrives(key, arrivedAt), Settles(key, settledAt, verdict)], k, limits).entry
  }

  lemma AloneSteps(e: Entry, key: Key, arrivedAt: int, verdict: Verdict, settledAt: int, k: Key, limits: Limits)
    ensures Alone(e, key, arrivedAt, verdict, settledAt, k, limits) ==
      if k != key then e
      else if Remaining(e, arrivedAt).Some? then Checked(e, arrivedAt)
      else Settled(Checked(e, arrivedAt), verdict, settledAt, limits)
  {
    var d, a, b := Desk(e, 0), Arrives(key, arrivedAt), Settles(key, settledAt, verdict);
    assert [a, b][..1] == [a] && [a][..0] == [];
    assert Run(d, [a], k, limits) == Step(d, a, k, limits);
    assert Run(d, [a, b], k, limits) == Step(Step(d, a, k, limits), b, k, limits);
  }

  predicate IsFailure(d: Desk, ev: Event, key: Key) {
    ev.key == key && ev.Settles? && d.open > 0 && ev.verdict != Verified
  }

  /** When the key's failures were recorded. */
  function FailureTimes(d: Desk, events: seq<Event>, key: Key, limits: Limits): seq<int> {
    if events == [] then []
    else
      var n := |events| - 1;
      FailureTimes(d, events[..n], key, limits) +
      if IsFailure(Run(d, events[..n], key, limits), events[n], key) then [events[n].at] else []
  }

  /** The clock does not run backwards. */
  ghost predicate Ordered(events: seq<Event>) {
    forall i, j :: 0 <= i < j < |events| ==> events[i].at <= events[j].at
  }

  ghost predicate NeverSucceeds(events: seq<Event>, key: Key) {
    forall i :: 0 <= i < |events| && events[i].key == key && events[i].Settles? ==> events[i].verdict != Verified
  }

  /** Never more than `c` of the key's attempts are waiting for their verdict at once. */
  ghost predicate AtMost(d: Desk, events: seq<Event>, key: Key, limits: Limits, c: nat) {
    forall n :: 0 <= n <= |events| ==> Run(d, events[..n], key, limits).open <= c
  }

  /**
   A key is locked exactly when its count has reached the maximum, and what the count is over the
   maximum, with the attempts still open, is less than `c`.
   */
  ghost predicate Sound(d: Desk, limits: Limits, c: nat) {
    && d.open <= c
    && (d.entry.lockedUntil.Some? <==> d.entry.fails >= limits.maxAttempts)
    && (d.entry.lockedUntil.Some? ==> d.entry.fails - limits.maxAttempts + d.open < c)
  }

  lemma {:induction false} RunSound(d: Desk, events: seq<Event>, key: Key, limits: Limits, c: nat)
    requires limits.maxAttempts >= 1 && Sound(d, limits, c) && AtMost(d, events, key, limits, c)
    ensures Sound(Run(d, events, key, limits), limits, c)
  {
    if events != [] {
      var n := |events| - 1;
      AtMostPrefix(d, events, key, limits, c, n);
      RunSound(d, events[..n], key, limits, c);
      assert events[..n + 1] == events;
    }
  }

  lemma AtMostPrefix(d: Desk, events: seq<Event>, key: Key, limits: Limits, c: nat, n: nat)
    requires n <= |events| && AtMost(d, events, key, limits, c)
    ensures AtMost(d, events[..n], key, limits, c)
  {
    forall k | 0 <= k <= n
      ensures Run(d, events[..n][..k], key, limits).open <= c
    {
      assert events[..n][..k] == events[..k];
    }
  }

  /** The most failures between two lockouts: the maximum, and all other attempts let in before it was reached. */
  function Batch(limits: Limits, c: nat): int {
    limits.maxAttempts + c - 1
  }

  /**
   Where a streak stands at `now`: `full` lockouts have been served in it, its failures fit in that
   many batches and the current count, and a lock runs from the last failure and ends one more
   lockout after the first.
   */
  ghost predicate Streak(d: Desk, times: seq<int>, full: nat, now: int, limits: Limits, c: nat) {
    && times != [] && times[0] <= now
    && |times| <= full * Batch(limits, c) + d.entry.fails
    && now >= times[0] + full * limits.lockout
    && (d.entry.lockedUntil.Some? ==>
          && d.entry.lockedUntil.value == times[|times| - 1] + limits.lockout
          && d.entry.lockedUntil.value >= times[0] + full * limits.lockout + limits.lockout)
  }

  lemma StreakGoesOn(d: Desk, times: seq<int>, full: nat, now: int, ev: Event, key: Key, limits: Limits, c: nat)
    returns (served: nat)
    requires limits.maxAttempts >= 1 && Sound(d, limits, c) && Streak(d, times, full, now, limits, c)
    requires now <= ev.at && !IsFailure(d, ev, key)
    requires ev.key == key && ev.Settles? ==> ev.verdict != Verified
    ensures Streak(Step(d, ev, key, limits), times, served, ev.at, limits, c)
  {
    var next := Step(d, ev, key, limits);
    served := if next.entry != d.entry then full + 1 else full;
    assert (full + 1) * limits.lockout == full * limits.lockout + limits.lockout;
    assert (full + 1) * Batch(limits, c) == full * Batch(limits, c) + Batch(limits, c);
  }

  lemma {:induction false} StreakOfRun(d: Desk, events: seq<Event>, key: Key, limits: Limits, c: nat)
    returns (full: nat)
    requires limits.maxAttempts >= 1 && Sound(d, limits, c)
    requires Ordered(events) && NeverSucceeds(events, key) && AtMost(d, events, key, limits, c)
    ensures FailureTimes(d, events, key, limits) != [] ==> Streak(Run(d, events, key, limits),
      FailureTimes(d, events, key, limits), full, events[|events| - 1].at, limits, c)
  {
    full := 0;
    if events != [] {
      var n := |events| - 1;
      var before, ev := events[..n], events[n];
      AtMostPrefix(d, events, key, limits, c, n);
      full := StreakOfRun(d, before, key, limits, c);
      RunSound(d, before, key, limits, c);
      var at, times := Run(d, before, key, limits), FailureTimes(d, before, key, limits);
      if IsFailure(at, ev, key) {
        if times == [] {
          full := 0;
        } else {
        }
      } else if times != [] {
        full := StreakGoesOn(at, times, full, before[n - 1].at, ev, key, limits, c);
      }
    }
  }

  lemma Cancel(a: int, b: int, m: int)
    requires m >= 1 && a * m < b * m
    ensures a < b
  {
  }

  lemma Quotient(n: int, full: nat, m: int)
    requires m >= 1 && 1 <= n <= full * m + m
    ensures 0 <= (n - 1) / m <= full
  {
    var q := (n - 1) / m;
    assert q * m <= n - 1 < (full + 1) * m;
    Cancel(q, full + 1, m);
  }

  ghost predicate Spaced(times: seq<int>, batch: int, lockout: int)
    requires batch >= 1
  {
    times != [] ==> times[|times| - 1] >= times[0] + (|times| - 1) / batch * lockout
  }

  lemma StreakSpaced(d: Desk, times: seq<int>, full: nat, now: int, limits: Limits, c: nat)
    requires limits.maxAttempts >= 1 && c >= 1 && Sound(d, limits, c) && Streak(d, times, full, now, limits, c)
    requires times[|times| - 1] == now
    ensures Spaced(times, Batch(limits, c), limits.lockout)
  {
    assert d.entry.fails <= Batch(limits, c);
    Quotient(|times|, full, Batch(limits, c));
  }

  /**
   Guessing is slow: over any stretch of events in which the key never signs in, starting from any
   state the limiter can be in, and with at most `c` attempts open at once, the N-th recorded failure
   comes at least floor((N - 1) / (maxAttempts + c - 1)) lockouts after the first. One at a time,
   that is floor((N - 1) / maxAttempts).
   */
  lemma {:induction false} ThrottleBound(d: Desk, events: seq<Event>, key: Key, limits: Limits, c: nat)
    requires limits.maxAttempts >= 1 && c >= 1 && Sound(d, limits, c)
    requires Ordered(events) && NeverSucceeds(events, key) && AtMost(d, events, key, limits, c)
    ensures Spaced(FailureTimes(d, events, key, limits), Batch(limits, c), limits.lockout)
  {
    if events != [] {
      var n := |events| - 1;
      AtMostPrefix(d, events, key, limits, c, n);
      if IsFailure(Run(d, events[..n], key, limits), events[n], key) {
        var full := StreakOfRun(d, events, key, limits, c);
        RunSound(d, events, key, limits, c);
        StreakSpaced(Run(d, events, key, limits), FailureTimes(d, events, key, limits), full, events[n].at, limits, c);
      } else {
        ThrottleBound(d, events[..n], key, limits, c);
      }
    }
  }

  /** A locked-out key gets in again the moment its lockout is over and not before. */
  lemma {:induction false} RefusedIff(d: Desk, events: seq<Event>, key: Key, limits: Limits, c: nat,
                                      at: int, v: Verdict)
    requires limits.maxAttempts >= 1 && Sound(d, limits, c)
    requires Ordered(events) && NeverSucceeds(events, key) && AtMost(d, events, key, limits, c)
    requires FailureTimes(d, events, key, limits) != []
    ensures
      var e, times := Run(d, events, key, limits).entry, FailureTimes(d, events, key, limits);
      OutcomeOf(e, at, v).Throttled? <==>
        e.fails >= limits.maxAttempts && at < times[|times| - 1] + limits.lockout
  {
    var full := StreakOfRun(d, events, key, limits, c);
    RunSound(d, events, key, limits, c);
  }

  /** A success wipes the slate: what comes after it is counted as if nothing had come before. */
  lemma {:induction false} SuccessForgets(d: Desk, events: seq<Event>, key: Key, limits: Limits)
    requires events != [] && events[|events| - 1].Settles? && events[|events| - 1].key == key
    requires events[|events| - 1].verdict == Verified && Run(d, events[..|events| - 1], key, limits).open > 0
    ensures Run(d, events, key, limits).entry == Entry(0, None)
  {
  }

  /** While nobody is refused and nobody succeeds, the count is the number of failures, and it locks at the maximum. */
  lemma {:induction false} CountsFailures(n: nat, t: int, key: Key, limits: Limits)
    requires limits.maxAttempts >= 1
    ensures
      var run := Run(Desk(Entry(0, None), 0), Arrivals(n, t, key) + Settlements(n, t, key), key, limits).entry;
      && run.fails == n
      && run.lockedUntil == (if n >= limits.maxAttempts then Some(t + limits.lockout) else None)
  {
    if n == 0 {
      assert Arrivals(n, t, key) + Settlements(n, t, key) == [];
    } else {
      Burst(FRESH, n, t, key, limits);
      FailedTimesCounts(FRESH, n, t, limits);
    }
  }

  function Own(events: seq<Event>, key: Key): seq<Event> {
    if events == [] then []
    else
      var n := |events| - 1;
      Own(events[..n], key) + if events[n].key == key then [events[n]] else []
  }

  /** Nothing other clients or users do changes what a key is told. */
  lemma {:induction false} OthersDoNotMatter(d: Desk, events: seq<Event>, own: seq<Event>, key: Key, limits: Limits)
    requires own == Own(events, key)
    ensures Run(d, events, key, limits) == Run(d, own, key, limits)
  {
    if events != [] {
      var n := |events| - 1;
      OthersDoNotMatter(d, events[..n], Own(events[..n], key), key, limits);
      if events[n].key == key {
        assert own[..|own| - 1] == Own(events[..n], key);
      } else {
        assert own == Own(events[..n], key);
      }
    }
  }

  // ---- The bound is attained ----

  lemma {:induction false} Concat(d: Desk, a: seq<Event>, b: seq<Event>, key: Key, limits: Limits)
    ensures Run(d, a + b, key, limits) == Run(Run(d, a, key, limits), b, key, limits)
    ensures FailureTimes(d, a + b, key, limits) ==
      FailureTimes(d, a, key, limits) + FailureTimes(Run(d, a, key, limits), b, key, limits)
  {
    if b == [] {
      assert a + b == a;
    } else {
      var b', ev := b[..|b| - 1], b[|b| - 1];
      assert b == b' + [ev] && a + b == a + b' + [ev];
      Concat(d, a, b', key, limits);
    }
  }

  /** Runs this many events with this many open at most, from `d` to `d'`, recording failures at `t` only. */
  ghost predicate Does(d: Desk, events: seq<Event>, d': Desk, t: int, count: nat, key: Key, limits: Limits, c: nat) {
    && Run(d, events, key, limits) == d'
    && FailureTimes(d, events, key, limits) == seq(count, _ => t)
    && AtMost(d, events, key, limits, c)
    && forall i :: 0 <= i < |events| ==> events[i].at == t && NoSuccess(events[i])
  }

  predicate NoSuccess(ev: Event) {
    ev.Settles? ==> ev.verdict != Verified
  }

  lemma {:induction false} AtMostConcat(d: Desk, a: seq<Event>, b: seq<Event>, key: Key, limits: Limits, c: nat)
    requires AtMost(d, a, key, limits, c) && AtMost(Run(d, a, key, limits), b, key, limits, c)
    ensures AtMost(d, a + b, key, limits, c)
  {
    forall n | 0 <= n <= |a + b|
      ensures Run(d, (a + b)[..n], key, limits).open <= c
    {
      if n <= |a| {
        assert (a + b)[..n] == a[..n];
      } else {
        assert (a + b)[..n] == a + b[..n - |a|];
        Concat(d, a, b[..n - |a|], key, limits);
      }
    }
  }

  lemma DoesBoth(d: Desk, a: seq<Event>, d1: Desk, m: nat, b: seq<Event>, d2: Desk, n: nat,
                 t: int, key: Key, limits: Limits, c: nat)
    requires Does(d, a, d1, t, m, key, limits, c) && Does(d1, b, d2, t, n, key, limits, c)
    ensures Does(d, a + b, d2, t, m + n, key, limits, c)
  {
    Concat(d, a, b, key, limits);
    AtMostConcat(d, a, b, key, limits, c);
    assert seq(m, _ => t) + seq(n, _ => t) == seq(m + n, _ => t);
  }

  lemma DoesOne(d: Desk, ev: Event, key: Key, limits: Limits, c: nat)
    requires NoSuccess(ev) && d.open <= c && Step(d, ev, key, limits).open <= c
    ensures Does(d, [ev], Step(d, ev, key, limits), ev.at, if IsFailure(d, ev, key) then 1 else 0, key, limits, c)
  {
    assert [ev][..0] == [] && [ev][..1] == [ev];
    assert FailureTimes(d, [ev], key, limits) == if IsFailure(d, ev, key) then [ev.at] else [];
  }

  function Arrivals(n: nat, t: int, key: Key): seq<Event> {
    if n == 0 then [] else Arrivals(n - 1, t, key) + [Arrives(key, t)]
  }

  function Settlements(n: nat, t: int, key: Key): seq<Event> {
    if n == 0 then [] else Settlements(n - 1, t, key) + [Settles(key, t, UnknownLogin)]
  }

  /** `n` attempts, each settled before the next. */
  function Singly(n: nat, t: int, key: Key): seq<Event> {
    if n == 0 then [] else Singly(n - 1, t, key) + [Arrives(key, t), Settles(key, t, UnknownLogin)]
  }

  /** The entry lets an attempt in at `t`. */
  predicate LetsIn(e: Entry, t: int) {
    Remaining(e, t).None?
  }

  lemma {:induction false} ArrivalsOpen(d: Desk, n: nat, t: int, key: Key, limits: Limits, c: nat)
    requires LetsIn(d.entry, t) && d.open + n <= c
    ensures Does(d, Arrivals(n, t, key), Desk(if n == 0 then d.entry else Checked(d.entry, t), d.open + n), t, 0,
                 key, limits, c)
  {
    if n == 0 {
    } else {
      ArrivalsOpen(d, n - 1, t, key, limits, c);
      var at := Desk(if n == 1 then d.entry else Checked(d.entry, t), d.open + n - 1);
      var ev, next := Arrives(key, t), Desk(Checked(d.entry, t), d.open + n);
      DoesOne(at, ev, key, limits, c);
      DoesBoth(d, Arrivals(n - 1, t, key), at, 0, [ev], next, 0, t, key, limits, c);
    }
  }

  /** The entry after `n` failures at one instant. */
  function FailedTimes(e: Entry, n: nat, t: int, limits: Limits): Entry {
    if n == 0 then e else Failed(FailedTimes(e, n - 1, t, limits), t, limits)
  }

  lemma {:induction false} FailedTimesCounts(e: Entry, n: nat, t: int, limits: Limits)
    requires e.fails < limits.maxAttempts && e.lockedUntil == None
    ensures FailedTimes(e, n, t, limits) ==
      Entry(e.fails + n, if e.fails + n >= limits.maxAttempts then Some(t + limits.lockout) else None)
  {
    if n > 0 {
      FailedTimesCounts(e, n - 1, t, limits);
    }
  }

  lemma {:induction false} SettlementsFail(d: Desk, n: nat, t: int, key: Key, limits: Limits, c: nat)
    requires n <= d.open <= c
    ensures Does(d, Settlements(n, t, key), Desk(FailedTimes(d.entry, n, t, limits), d.open - n), t, n, key, limits, c)
  {
    if n == 0 {
    } else {
      SettlementsFail(d, n - 1, t, key, limits, c);
      var at, ev := Desk(FailedTimes(d.entry, n - 1, t, limits), d.open - (n - 1)), Settles(key, t, UnknownLogin);
      DoesOne(at, ev, key, limits, c);
      DoesBoth(d, Settlements(n - 1, t, key), at, n - 1, [ev], Step(at, ev, key, limits), 1, t, key, limits, c);
    }
  }

  /** All let in before any is settled: whatever the limits, every one of them is a failure at that instant. */
  lemma {:induction false} Burst(e: Entry, n: nat, t: int, key: Key, limits: Limits)
    requires LetsIn(e, t) && n >= 1
    ensures Does(Desk(e, 0), Arrivals(n, t, key) + Settlements(n, t, key),
                 Desk(FailedTimes(Checked(e, t), n, t, limits), 0), t, n, key, limits, n)
  {
    ArrivalsOpen(Desk(e, 0), n, t, key, limits, n);
    SettlementsFail(Desk(Checked(e, t), n), n, t, key, limits, n);
    DoesBoth(Desk(e, 0), Arrivals(n, t, key), Desk(Checked(e, t), n), 0,
             Settlements(n, t, key), Desk(FailedTimes(Checked(e, t), n, t, limits), 0), n, t, key, limits, n);
  }

  /**
   The one-at-a-time bound does need attempts to come one at a time: more attempts than the maximum,
   all let in before the first is settled, beat it under any limits.
   */
  lemma {:induction false} BoundNeedsOneAtATime(n: nat, t: int, key: Key, limits: Limits)
    requires n > limits.maxAttempts >= 1 && limits.lockout > 0
    ensures
      var times := FailureTimes(Desk(FRESH, 0), Arrivals(n, t, key) + Settlements(n, t, key), key, limits);
      times == seq(n, _ => t) && !Spaced(times, limits.maxAttempts, limits.lockout)
  {
    Burst(FRESH, n, t, key, limits);
    assert (n - 1) / limits.maxAttempts >= 1;
  }

  lemma {:induction false} SinglyFails(d: Desk, n: nat, t: int, key: Key, limits: Limits, c: nat)
    requires d.open == 0 && c >= 1 && LetsIn(d.entry, t) && n < limits.maxAttempts
    requires Checked(d.entry, t) == FRESH
    ensures Does(d, Singly(n, t, key), Desk(if n == 0 then d.entry else Entry(n, None), 0), t, n, key, limits, c)
  {
    if n == 0 {
    } else {
      SinglyFails(d, n - 1, t, key, limits, c);
      var at := Desk(if n == 1 then d.entry else Entry(n - 1, None), 0);
      var a, b := Arrives(key, t), Settles(key, t, UnknownLogin);
      var mid := Step(at, a, key, limits);
      DoesOne(at, a, key, limits, c);
      DoesOne(mid, b, key, limits, c);
      DoesBoth(at, [a], mid, 0, [b], Step(mid, b, key, limits), 1, t, key, limits, c);
      assert [a] + [b] == [a, b];
      DoesBoth(d, Singly(n - 1, t, key), at, n - 1, [a, b], Step(mid, b, key, limits), 1, t, key, limits, c);
    }
  }

  /** A whole batch at one instant: one short of the maximum singly, then `c` together. */
  function BatchAt(t: int, key: Key, limits: Limits, c: nat): seq<Event>
    requires limits.maxAttempts >= 1
  {
    Singly(limits.maxAttempts - 1, t, key) + (Arrivals(c, t, key) + Settlements(c, t, key))
  }

  lemma {:induction false} BurstLocks(mid: Entry, m: nat, c: nat, t: int, key: Key, limits: Limits)
    requires m == limits.maxAttempts - 1 && c >= 1 && LetsIn(mid, t) && Checked(mid, t) == Entry(m, None)
    ensures Does(Desk(mid, 0), Arrivals(c, t, key) + Settlements(c, t, key),
                 Desk(Entry(Batch(limits, c), Some(t + limits.lockout)), 0), t, c, key, limits, c)
  {
    Burst(mid, c, t, key, limits);
    FailedTimesCounts(Checked(mid, t), c, t, limits);
  }

  lemma BatchFails(e: Entry, t: int, key: Key, limits: Limits, c: nat)
    requires limits.maxAttempts >= 1 && c >= 1 && LetsIn(e, t) && Checked(e, t) == FRESH
    ensures Does(Desk(e, 0), BatchAt(t, key, limits, c),
                 Desk(Entry(Batch(limits, c), Some(t + limits.lockout)), 0), t, Batch(limits, c), key, limits, c)
  {
    var m := limits.maxAttempts - 1;
    var mid := if m == 0 then e else Entry(m, None);
    SinglyFails(Desk(e, 0), m, t, key, limits, c);
    BurstLocks(mid, m, c, t, key, limits);
    DoesBoth(Desk(e, 0), Singly(m, t, key), Desk(mid, 0), m, Arrivals(c, t, key) + Settlements(c, t, key),
             Desk(Entry(Batch(limits, c), Some(t + limits.lockout)), 0), c, t, key, limits, c);
  }

  /** A batch as soon as each lockout is over. */
  function Fastest(q: nat, key: Key, limits: Limits, c: nat): seq<Event>
    requires limits.maxAttempts >= 1
  {
    if q == 0 then [] else Fastest(q - 1, key, limits, c) + BatchAt((q - 1) * limits.lockout, key, limits, c)
  }

  /** The failures of `q` batches: every batch one lockout after the one before. */
  ghost predicate Steps(times: seq<int>, q: nat, batch: int, lockout: int)
    requires batch >= 1
  {
    |times| == q * batch && forall i :: 0 <= i < |times| ==> times[i] == i / batch * lockout
  }

  lemma StepsMore(times: seq<int>, q: nat, batch: nat, lockout: int)
    requires batch >= 1 && Steps(times, q, batch, lockout)
    ensures Steps(times + seq(batch, _ => q * lockout), q + 1, batch, lockout)
  {
    var more := times + seq(batch, _ => q * lockout);
    assert (q + 1) * batch == q * batch + batch;
    forall i | 0 <= i < |more|
      ensures more[i] == i / batch * lockout
    {
      if i >= q * batch {
        InBatch(i, q, batch);
      }
    }
  }

  lemma InBatch(i: int, q: nat, batch: nat)
    requires batch >= 1 && q * batch <= i < q * batch + batch
    ensures i / batch == q
  {
    var d := i / batch;
    assert d * batch <= i < d * batch + batch;
    assert d * batch < (q + 1) * batch && q * batch < (d + 1) * batch;
    Cancel(d, q + 1, batch);
    Cancel(q, d + 1, batch);
  }

  /** A run of `q` batches, the next one due at `q` lockouts. */
  ghost predicate Fast(q: nat, run: seq<Event>, key: Key, limits: Limits, c: nat)
    requires limits.maxAttempts >= 1 && c >= 1
  {
    var d := Desk(FRESH, 0);
    && Ordered(run) && (forall i :: 0 <= i < |run| ==> NoSuccess(run[i]))
    && (forall i :: 0 <= i < |run| ==> run[i].at + limits.lockout <= q * limits.lockout)
    && AtMost(d, run, key, limits, c)
    && Steps(FailureTimes(d, run, key, limits), q, Batch(limits, c), limits.lockout)
    && Run(d, run, key, limits) ==
       Desk(if q == 0 then FRESH else Entry(Batch(limits, c), Some(q * limits.lockout)), 0)
  }

  lemma {:induction false} FastMore(q: nat, run: seq<Event>, key: Key, limits: Limits, c: nat)
    requires limits.maxAttempts >= 1 && c >= 1 && limits.lockout >= 0 && Fast(q, run, key, limits, c)
    ensures Fast(q + 1, run + BatchAt(q * limits.lockout, key, limits, c), key, limits, c)
  {
    var d, t := Desk(FRESH, 0), q * limits.lockout;
    var at, more := Run(d, run, key, limits), BatchAt(t, key, limits, c);
    assert (q + 1) * limits.lockout == t + limits.lockout;
    BatchFails(at.entry, t, key, limits, c);
    Concat(d, run, more, key, limits);
    AtMostConcat(d, run, more, key, limits, c);
    StepsMore(FailureTimes(d, run, key, limits), q, Batch(limits, c), limits.lockout);
  }

  lemma {:induction false} FastestIsFast(q: nat, key: Key, limits: Limits, c: nat)
    requires limits.maxAttempts >= 1 && c >= 1 && limits.lockout >= 0
    ensures Fast(q, Fastest(q, key, limits, c), key, limits, c)
  {
    if q > 0 {
      var n: nat := q - 1;
      FastestIsFast(n, key, limits, c);
      FastMore(n, Fastest(n, key, limits, c), key, limits, c);
      assert n + 1 == q;
    }
  }

  /**
   The bound is exact for every maximum, every lockout and every `c`: some run with at most `c` open
   spaces all its failures, however many, exactly so.
   */
  lemma {:induction false} BoundAttained(q: nat, key: Key, limits: Limits, c: nat)
    requires limits.maxAttempts >= 1 && c >= 1 && limits.lockout >= 0
    ensures
      var d, run := Desk(FRESH, 0), Fastest(q, key, limits, c);
      && Ordered(run) && NeverSucceeds(run, key) && AtMost(d, run, key, limits, c)
      && Steps(FailureTimes(d, run, key, limits), q, Batch(limits, c), limits.lockout)
  {
    FastestIsFast(q, key, limits, c);
  }
}
