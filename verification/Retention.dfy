/** When stored history is swept: once a day, and at once when a retention setting is tightened. */
module Retention {
  import opened Wrappers

  type Key = string

  /** Days by settings key; a key may have no value. */
  type Settings = map<Key, int>

  const DAY := 24 * 60 * 60 * 1_000_000

  datatype Memory = Memory(lastPrune: Option<int>, lastRetention: Settings)

  datatype Pass = Pass(now: int, settings: Settings)

  /** The key of some store now has fewer days than when it was last seen. */
  ghost predicate Tightened(keys: seq<Option<Key>>, seen: Settings, now: Settings) {
    exists i :: 0 <= i < |keys| && TightenedKey(keys[i], seen, now)
  }

  predicate TightenedKey(key: Option<Key>, seen: Settings, now: Settings) {
    key.Some? && key.value in now && key.value in seen && now[key.value] < seen[key.value]
  }

  predicate Due(lastPrune: Option<int>, now: int) {
    lastPrune.None? || now - lastPrune.value >= DAY
  }

  function DaysFor(key: Option<Key>, settings: Settings): Option<int> {
    if key.Some? && key.value in settings then Some(settings[key.value]) else None
  }

  class Pruner {
    const keys: seq<Option<Key>>
    var lastPrune: Option<int>
    var lastRetention: Settings

    constructor (keys: seq<Option<Key>>)
      ensures this.keys == keys && lastPrune == None && lastRetention == map[]
    {
      this.keys := keys;
      lastPrune, lastRetention := None, map[];
    }

    method MaybePrune(now: int, settings: Settings) returns (swept: Option<seq<Option<int>>>)
      modifies this`lastPrune, this`lastRetention
      ensures swept.Some? <==> Due(old(lastPrune), now) || Tightened(keys, old(lastRetention), settings)
      ensures swept.Some? ==> |swept.value| == |keys| && forall i :: 0 <= i < |keys| ==>
        swept.value[i] == if keys[i].Some? && keys[i].value in settings then Some(settings[keys[i].value]) else None
      ensures lastPrune == if swept.Some? then Some(now) else old(lastPrune)
      ensures Remembers(keys, old(lastRetention), settings, lastRetention)
    {
      var due := lastPrune.None? || now - lastPrune.value >= DAY;
      var forced := false;
      for i := 0 to |keys|
        invariant forced <==> Tightened(keys[..i], old(lastRetention), settings)
        invariant Remembers(keys[..i], old(lastRetention), settings, lastRetention)
        invariant lastPrune == old(lastPrune)
      {
        RemembersStep(keys, i, old(lastRetention), settings, lastRetention);
        if keys[i].None? || keys[i].value !in settings {
          continue;
        }
        var key, days := keys[i].value, settings[keys[i].value];
        assert Seen(lastRetention, key) == Some(days) || Seen(lastRetention, key) == Seen(old(lastRetention), key);
        if key in lastRetention && days < lastRetention[key] {
          forced := true;
        }
        lastRetention := lastRetention[key := days];
      }
      assert keys[..|keys|] == keys;
      if !due && !forced {
        return None;
      }
      lastPrune := Some(now);
      var sweeps: seq<Option<int>> := [];
      for i := 0 to |keys|
        invariant |sweeps| == i && forall j :: 0 <= j < i ==> sweeps[j] == DaysFor(keys[j], settings)
      {
        sweeps := sweeps + [DaysFor(keys[i], settings)];
      }
      return Some(sweeps);
    }
  }

  function Seen(m: Settings, k: Key): Option<int> {
    if k in m then Some(m[k]) else None
  }

  /** What is remembered of a key: its value now, or what was remembered before. */
  function SeenAfter(keys: seq<Option<Key>>, seen: Settings, now: Settings, k: Key): Option<int> {
    if Some(k) in keys && k in now then Some(now[k]) else Seen(seen, k)
  }

  /** `r` is what is remembered once all `keys` have been looked at. */
  ghost predicate Remembers(keys: seq<Option<Key>>, seen: Settings, now: Settings, r: Settings) {
    forall k :: Seen(r, k) == SeenAfter(keys, seen, now, k)
  }

  lemma RemembersStep(keys: seq<Option<Key>>, i: nat, seen: Settings, now: Settings, r: Settings)
    requires i < |keys| && Remembers(keys[..i], seen, now, r)
    ensures DaysFor(keys[i], now).None? ==> Remembers(keys[..i + 1], seen, now, r)
    ensures DaysFor(keys[i], now).Some? ==>
      Remembers(keys[..i + 1], seen, now, r[keys[i].value := now[keys[i].value]])
  {
    forall k
      ensures Some(k) in keys[..i + 1] <==> Some(k) in keys[..i] || keys[i] == Some(k)
    {
      assert keys[..i + 1] == keys[..i] + [keys[i]];
    }
    if DaysFor(keys[i], now).Some? {
      var after := r[keys[i].value := now[keys[i].value]];
      forall k
        ensures Seen(after, k) == SeenAfter(keys[..i + 1], seen, now, k)
      {
        assert Seen(r, k) == SeenAfter(keys[..i], seen, now, k);
      }
    } else {
      forall k
        ensures Seen(r, k) == SeenAfter(keys[..i + 1], seen, now, k)
      {
      }
    }
  }

  // ---- Whole runs ----

  function Remember(keys: seq<Option<Key>>, seen: Settings, now: Settings): (r: Settings)
    ensures Remembers(keys, seen, now, r)
  {
    map k | k in seen.Keys + now.Keys && ((Some(k) in keys && k in now) || k in seen) ::
      if Some(k) in keys && k in now then now[k] else seen[k]
  }

  ghost function After(keys: seq<Option<Key>>, passes: seq<Pass>): Memory {
    if passes == [] then Memory(None, map[])
    else
      var n := |passes| - 1;
      var m := After(keys, passes[..n]);
      Memory(
        if Sweeps(keys, m, passes[n]) then Some(passes[n].now) else m.lastPrune,
        Remember(keys, m.lastRetention, passes[n].settings))
  }

  ghost predicate Sweeps(keys: seq<Option<Key>>, m: Memory, p: Pass) {
    Due(m.lastPrune, p.now) || Tightened(keys, m.lastRetention, p.settings)
  }

  ghost predicate SweptAt(keys: seq<Option<Key>>, passes: seq<Pass>, j: nat) {
    j < |passes| && Sweeps(keys, After(keys, passes[..j]), passes[j])
  }

  ghost predicate LatestSweep(keys: seq<Option<Key>>, passes: seq<Pass>, j: nat) {
    SweptAt(keys, passes, j) && forall k: nat :: j < k < |passes| ==> !SweptAt(keys, passes, k)
  }

  lemma SweptEarlier(keys: seq<Option<Key>>, passes: seq<Pass>, j: nat)
    requires passes != [] && j < |passes| - 1
    ensures SweptAt(keys, passes, j) <==> SweptAt(keys, passes[..|passes| - 1], j)
  {
    assert passes[..|passes| - 1][..j] == passes[..j];
  }

  lemma LatestStep(keys: seq<Option<Key>>, passes: seq<Pass>, j: nat)
    requires passes != []
    ensures var n: nat := |passes| - 1;
      LatestSweep(keys, passes, j) <==>
        if SweptAt(keys, passes, n) then j == n else LatestSweep(keys, passes[..n], j)
  {
    var n: nat := |passes| - 1;
    forall k: nat | k < n
      ensures SweptAt(keys, passes, k) <==> SweptAt(keys, passes[..n], k)
    {
      SweptEarlier(keys, passes, k);
    }
  }

  /** The last sweep is never a day old when a pass is over, however the settings move. */
  lemma {:induction false} NeverADayLate(keys: seq<Option<Key>>, passes: seq<Pass>) returns (j: nat)
    requires passes != []
    ensures LatestSweep(keys, passes, j)
    ensures After(keys, passes).lastPrune == Some(passes[j].now)
    ensures passes[|passes| - 1].now - passes[j].now < 86_400_000_000
  {
    var n: nat := |passes| - 1;
    if SweptAt(keys, passes, n) {
      j := n;
    } else {
      j := NeverADayLate(keys, passes[..n]);
    }
    LatestStep(keys, passes, j);
  }

  /** Since the latest sweep, what is remembered of a key has not gone below what the sweep used. */
  lemma {:induction false} SweptWithinRemembered(keys: seq<Option<Key>>, passes: seq<Pass>, key: Key, j: nat)
    requires Some(key) in keys && LatestSweep(keys, passes, j) && key in passes[j].settings
    ensures
      var seen := Seen(After(keys, passes).lastRetention, key);
      seen.Some? && passes[j].settings[key] <= seen.value
  {
    var n: nat := |passes| - 1;
    LatestStep(keys, passes, j);
    if j == n {
    } else {
      SweptWithinRemembered(keys, passes[..n], key, j);
    }
  }

  /**
   The latest sweep kept no more days than the setting now allows, whenever it found a value and there
   is one now: tightening takes effect at once, also when the setting had no value in between.
   */
  lemma TighteningIsImmediate(keys: seq<Option<Key>>, passes: seq<Pass>, key: Key, j: nat)
    requires Some(key) in keys && LatestSweep(keys, passes, j)
    requires key in passes[j].settings && key in passes[|passes| - 1].settings
    ensures passes[j].settings[key] <= passes[|passes| - 1].settings[key]
  {
    SweptWithinRemembered(keys, passes, key, j);
  }

  /** Loosening alone never forces a sweep. */
  lemma LooseningWaits(keys: seq<Option<Key>>, passes: seq<Pass>, j: nat)
    requires |passes| >= 2
    requires forall k :: Some(k) in keys ==>
      var before, now := passes[|passes| - 2].settings, passes[|passes| - 1].settings;
      k in before && k in now && before[k] <= now[k]
    requires LatestSweep(keys, passes[..|passes| - 1], j)
    ensures SweptAt(keys, passes, |passes| - 1) <==>
      passes[|passes| - 1].now - passes[j].now >= 86_400_000_000
  {
    var n: nat := |passes| - 1;
    var m := After(keys, passes[..n]);
    var last := NeverADayLate(keys, passes[..n]);
    assert last == j;
    forall i | 0 <= i < |keys|
      ensures !TightenedKey(keys[i], m.lastRetention, passes[n].settings)
    {
      if keys[i].Some? {
      }
    }
  }
}
