/** How many snapshots a prune under the default grid can leave, against the
    count the sizing tool projects. */
module RetainedCount {
  import opened Bytes
  import opened Division
  import opened Retention

  /** The sizing tool's own statement of the grid: (tier start, cell width),
      both in hours. */
  const RETENTION_TIERS: seq<(nat, nat)> := [(0, 3), (24, 24), (96, 96), (384, 384)]

  /** Where tier `i` ends, in hours. */
  function TierEnd(i: nat): nat
    requires i < 4
  {
    if i < 3 then RETENTION_TIERS[i + 1].0 else U64_MAX
  }

  function DivCeil(a: nat, b: nat): nat
    requires b > 0
  {
    a / b + if a % b == 0 then 0 else 1
  }

  function HorizonHours(days: u64): u64 {
    if days * 24 > U64_MAX then U64_MAX else days * 24
  }

  function Upper(i: nat, horizon: nat): nat
    requires i < 4
  {
    if TierEnd(i) < horizon then TierEnd(i) else horizon
  }

  /** The cells tier `i` carves out of `[0, horizon)`. */
  function TierCells(i: nat, horizon: nat): nat
    requires i < 4
  {
    var (start, width) := RETENTION_TIERS[i];
    if Upper(i, horizon) > start then DivCeil(Upper(i, horizon) - start, width) else 0
  }

  function CellsUpTo(n: nat, horizon: nat): nat
    requires n <= 4
  {
    if n == 0 then 0 else CellsUpTo(n - 1, horizon) + TierCells(n - 1, horizon)
  }

  function SteadyState(days: u64): nat { CellsUpTo(4, HorizonHours(days)) }

  method SteadyStateSnapshots(days: u64) returns (cells: nat)
    ensures cells == SteadyState(days)
  {
    var horizon := if days * 24 > U64_MAX then U64_MAX else days * 24;
    cells := 0;
    for i := 0 to 4
      invariant cells == CellsUpTo(i, horizon)
    {
      var (start, width) := RETENTION_TIERS[i];
      var end := if i + 1 < 4 then RETENTION_TIERS[i + 1].0 else U64_MAX;
      var upper := if end < horizon then end else horizon;
      if upper > start {
        cells := cells + DivCeil(upper - start, width);
      }
    }
  }

  const HOUR_MS: nat := 3_600_000

  /** The two statements of the grid agree: a snapshot falls in the tier whose
      hours contain its age, and that tier's cell has the stated width. */
  lemma SameGrid(now: i64, time: i64)
    ensures var i := TierAt(DefaultGrid(), now, time);
            && i < 4
            && RETENTION_TIERS[i].0 * HOUR_MS <= AgeMs(now, time) < TierEnd(i) * HOUR_MS
            && CellMs(DefaultGrid()[i]) == RETENTION_TIERS[i].1 * HOUR_MS
  {
    var i := TierAt(DefaultGrid(), now, time);
    assert i > 0 ==> DefaultGrid()[i - 1].maxAge <= FromMillis(AgeMs(now, time));
  }

  // ---- the cells a history can fall in ---------------------------------------

  /** Every snapshot is dated at or before `now` and aged below the horizon,
      an age the clock arithmetic does not saturate. */
  predicate AgedWithin<T>(s: Dated<T>, now: i64, days: u64) {
    forall i | 0 <= i < |s| :: s[i].0 <= now && now - s[i].0 <= I64_MAX && now - s[i].0 < days * 24 * HOUR_MS
  }

  function Later(a: int, b: int): int { if a > b then a else b }

  function Width(i: nat): (w: nat)
    requires i < 4
    ensures w > 0
  {
    RETENTION_TIERS[i].1 * HOUR_MS
  }

  /** The first and the last moment of the ages of tier `i`. */
  function Earliest(i: nat, now: i64, horizon: nat): int
    requires i < 4
  {
    Later(now - Upper(i, horizon) * HOUR_MS + 1, Later(I64_MIN, now - I64_MAX))
  }

  function Latest(i: nat, now: i64): int
    requires i < 4
  {
    now - RETENTION_TIERS[i].0 * HOUR_MS
  }

  /** The cells of tier `i` that a snapshot younger than `horizon` hours can
      fall in. */
  ghost function ReachableCells(i: nat, now: i64, horizon: nat): set<(nat, int)>
    requires i < 4
  {
    if Earliest(i, now, horizon) > Latest(i, now) then {}
    else Between(i, Earliest(i, now, horizon) / Width(i), Latest(i, now) / Width(i))
  }

  ghost function Between(i: nat, lo: int, hi: int): set<(nat, int)> {
    set c | lo <= c <= hi :: (i, c)
  }

  lemma {:induction false} BetweenSize(i: nat, lo: int, hi: int)
    requires lo <= hi + 1
    ensures |Between(i, lo, hi)| == hi - lo + 1
    decreases hi - lo
  {
    if lo <= hi {
      BetweenSize(i, lo, hi - 1);
      assert Between(i, lo, hi) == Between(i, lo, hi - 1) + {(i, hi)};
    } else {
      assert Between(i, lo, hi) == {};
    }
  }

  // ---- how many they are ---------------------------------------------------------

  /** `n` hours are `DivCeil(n, width)` cells, the last perhaps in part. */
  lemma CellsOfHours(n: nat, i: nat)
    requires n > 0 && i < 4
    ensures (n * HOUR_MS - 1) / Width(i) + 1 == DivCeil(n, RETENTION_TIERS[i].1)
  {
    var width := RETENTION_TIERS[i].1;
    var q, r := n / width, n % width;
    assert n == width * q + r;
    if r == 0 {
      assert n * HOUR_MS - 1 == Width(i) * (q - 1) + (Width(i) - 1);
      DivisionUnique(n * HOUR_MS - 1, Width(i), q - 1, Width(i) - 1);
    } else {
      assert n * HOUR_MS - 1 == Width(i) * q + (r * HOUR_MS - 1);
      DivisionUnique(n * HOUR_MS - 1, Width(i), q, r * HOUR_MS - 1);
    }
  }

  /** The window of tier `i`'s ages starts later in its cell than it ends. */
  predicate Straddles(i: nat, now: i64, horizon: nat)
    requires i < 4
  {
    var (start, _) := RETENTION_TIERS[i];
    Upper(i, horizon) > start && Latest(i, now) % Width(i) < ((Upper(i, horizon) - start) * HOUR_MS - 1) % Width(i)
  }

  function Extra(i: nat, now: i64, horizon: nat): nat
    requires i < 4
  {
    if Straddles(i, now, horizon) then 1 else 0
  }

  /** The clock can show every moment of the horizon. */
  predicate Shown(now: i64, horizon: nat) {
    horizon * HOUR_MS <= I64_MAX && now - horizon * HOUR_MS >= I64_MIN
  }

  /** The window of a tier meets exactly the cells it is divided into if it is
      aligned with them, and otherwise one more. */
  lemma TierMeets(i: nat, now: i64, horizon: nat)
    requires i < 4
    ensures |ReachableCells(i, now, horizon)| <= TierCells(i, horizon) + Extra(i, now, horizon)
    ensures Shown(now, horizon) ==> |ReachableCells(i, now, horizon)| == TierCells(i, horizon) + Extra(i, now, horizon)
  {
    var (start, width) := RETENTION_TIERS[i];
    var n := Upper(i, horizon) - start;
    if n > 0 {
      var lo, hi := Latest(i, now) - (n * HOUR_MS - 1), Latest(i, now);
      DivDifference(hi, n * HOUR_MS - 1, Width(i));
      CellsOfHours(n, i);
      WindowCells(i, now, horizon, lo, hi);
    }
  }

  lemma WindowCells(i: nat, now: i64, horizon: nat, lo: int, hi: int)
    requires i < 4 && lo == now - Upper(i, horizon) * HOUR_MS + 1 && hi == Latest(i, now) && lo <= hi
    ensures |ReachableCells(i, now, horizon)| <= hi / Width(i) - lo / Width(i) + 1
    ensures Shown(now, horizon) ==> |ReachableCells(i, now, horizon)| == hi / Width(i) - lo / Width(i) + 1
  {
    var from := Earliest(i, now, horizon);
    DivMonotone(lo, hi, Width(i));
    if from <= hi {
      DivMonotone(lo, from, Width(i));
      DivMonotone(from, hi, Width(i));
      BetweenSize(i, from / Width(i), hi / Width(i));
    }
  }

  // ---- the most a plan keeps -----------------------------------------------------

  lemma TierIsOne(i: nat, j: nat, age: nat)
    requires i < 4 && j < 4
    requires RETENTION_TIERS[i].0 * HOUR_MS <= age < TierEnd(i) * HOUR_MS
    requires RETENTION_TIERS[j].0 * HOUR_MS <= age < TierEnd(j) * HOUR_MS
    ensures i == j
  {}

  lemma KeyOfWindow(now: i64, time: i64, horizon: nat, i: nat)
    requires i < 4 && horizon <= U64_MAX && Earliest(i, now, horizon) <= time <= Latest(i, now)
    ensures KeyOf(DefaultGrid(), now, time) == (i, time / Width(i))
  {
    SameGrid(now, time);
    TierIsOne(i, TierAt(DefaultGrid(), now, time), AgeMs(now, time));
  }

  /** A snapshot aged within the horizon competes in one of those cells. */
  lemma KeyIsReachable(now: i64, time: i64, horizon: nat)
    requires time <= now && now - time < horizon * HOUR_MS && now - time <= I64_MAX
    ensures var key := KeyOf(DefaultGrid(), now, time);
            key.0 < 4 && key in ReachableCells(key.0, now, horizon)
  {
    SameGrid(now, time);
    var i := KeyOf(DefaultGrid(), now, time).0;
    assert Earliest(i, now, horizon) <= time <= Latest(i, now);
    DivMonotone(Earliest(i, now, horizon), time, Width(i));
    DivMonotone(time, Latest(i, now), Width(i));
  }

  /** And each of those cells has such a snapshot. */
  lemma CellIsReached(now: i64, days: u64, i: nat, c: int) returns (time: i64)
    requires i < 4 && (i, c) in ReachableCells(i, now, HorizonHours(days))
    ensures AgedWithin([(time, 0)], now, days) && KeyOf(DefaultGrid(), now, time) == (i, c)
  {
    var horizon, w := HorizonHours(days), Width(i);
    var lo := Earliest(i, now, horizon);
    LaterInCell(lo, c, w);
    assert Times(w, c) <= Latest(i, now) by {
      assert Times(w, Latest(i, now) / w) <= Latest(i, now);
      MulMonotone(w, c, Latest(i, now) / w);
    }
    time := Later(lo, Times(w, c));
    KeyOfWindow(now, time, horizon, i);
  }

  lemma {:induction false} DistinctInSet<T>(s: seq<T>, all: set<T>)
    requires forall i, j | 0 <= i < j < |s| :: s[i] != s[j]
    requires forall i | 0 <= i < |s| :: s[i] in all
    ensures |s| <= |all|
  {
    if s != [] {
      var k := |s| - 1;
      DistinctInSet(s[..k], all - {s[k]});
    }
  }

  /** A plan keeps no more entries than there are cells to compete in. */
  lemma KeptAtMost<T>(keys: Keys, s: Dated<T>, all: set<(nat, int)>)
    requires |keys| == |s| && forall i | 0 <= i < |s| :: keys[i] in all
    ensures |Chosen(keys, s, true, |s|)| <= |all|
  {
    var kept := Indices(keys, s, true, |s|);
    ChosenIsPicked(keys, s, true, |s|);
    var mine := seq(|kept|, k requires 0 <= k < |kept| => keys[kept[k]]);
    forall a, b | 0 <= a < b < |mine|
      ensures mine[a] != mine[b]
    {
      assert kept[a] in kept && kept[b] in kept;
      SurvivorsDiffer(keys, s, kept[a], kept[b]);
    }
    DistinctInSet(mine, all);
  }

  ghost function ReachableUpTo(n: nat, now: i64, horizon: nat): set<(nat, int)>
    requires n <= 4
  {
    if n == 0 then {} else ReachableUpTo(n - 1, now, horizon) + ReachableCells(n - 1, now, horizon)
  }

  /** Every cell a snapshot aged below the horizon can fall in. */
  ghost function AllReachable(now: i64, horizon: nat): set<(nat, int)> {
    ReachableUpTo(4, now, horizon)
  }

  lemma {:induction false} InReachable(n: nat, now: i64, horizon: nat)
    requires n <= 4
    ensures forall key :: key in ReachableUpTo(n, now, horizon) <==> key.0 < n && key in ReachableCells(key.0, now, horizon)
  {
    if n > 0 {
      InReachable(n - 1, now, horizon);
    }
  }

  function ExtraUpTo(n: nat, now: i64, horizon: nat): nat
    requires n <= 4
  {
    if n == 0 then 0 else ExtraUpTo(n - 1, now, horizon) + Extra(n - 1, now, horizon)
  }

  function AllExtra(now: i64, horizon: nat): (x: nat)
    ensures x <= 4
  {
    NoExtraIff(4, now, horizon);
    ExtraUpTo(4, now, horizon)
  }

  lemma {:induction false} NoExtraIff(n: nat, now: i64, horizon: nat)
    requires n <= 4
    ensures ExtraUpTo(n, now, horizon) <= n
    ensures ExtraUpTo(n, now, horizon) == 0 <==> forall i | 0 <= i < n :: !Straddles(i, now, horizon)
  {
    if n > 0 {
      NoExtraIff(n - 1, now, horizon);
    }
  }

  lemma {:induction false} ReachableSize(n: nat, now: i64, horizon: nat)
    requires n <= 4
    ensures |ReachableUpTo(n, now, horizon)| <= CellsUpTo(n, horizon) + ExtraUpTo(n, now, horizon)
    ensures Shown(now, horizon) ==> |ReachableUpTo(n, now, horizon)| == CellsUpTo(n, horizon) + ExtraUpTo(n, now, horizon)
  {
    if n > 0 {
      ReachableSize(n - 1, now, horizon);
      TierMeets(n - 1, now, horizon);
      InReachable(n - 1, now, horizon);
      assert ReachableUpTo(n - 1, now, horizon) !! ReachableCells(n - 1, now, horizon);
    }
  }

  /** A plan keeps at most one snapshot per reachable cell. */
  lemma KeptWithinReachable<T>(now: i64, s: Dated<T>, days: u64)
    requires AgedWithin(s, now, days)
    ensures |PlanOf(now, DefaultGrid(), s).keep| <= |AllReachable(now, HorizonHours(days))|
  {
    var h := HorizonHours(days);
    var keys := KeysOf(now, DefaultGrid(), s);
    forall i | 0 <= i < |s|
      ensures keys[i] in AllReachable(now, h)
    {
      KeyIsReachable(now, s[i].0, h);
      InReachable(4, now, h);
    }
    KeptAtMost(keys, s, AllReachable(now, h));
  }

  lemma {:induction false} OneEach(now: i64, days: u64, cells: set<(nat, int)>) returns (s: Dated<nat>)
    requires cells <= AllReachable(now, HorizonHours(days))
    ensures |s| == |cells| && AgedWithin(s, now, days)
    ensures forall i | 0 <= i < |s| :: KeyOf(DefaultGrid(), now, s[i].0) in cells
    ensures forall i, j | 0 <= i < j < |s| :: KeyOf(DefaultGrid(), now, s[i].0) != KeyOf(DefaultGrid(), now, s[j].0)
    decreases cells
  {
    if cells == {} {
      s := [];
    } else {
      var cell :| cell in cells;
      InReachable(4, now, HorizonHours(days));
      var time := CellIsReached(now, days, cell.0, cell.1);
      var rest := OneEach(now, days, cells - {cell});
      assert AgedWithin([(time, 0)], now, days) && [(time, 0)][0].0 == time;
      s := rest + [(time, 0)];
    }
  }

  lemma AllKept<T>(now: i64, s: Dated<T>)
    requires forall i, j | 0 <= i < j < |s| :: KeyOf(DefaultGrid(), now, s[i].0) != KeyOf(DefaultGrid(), now, s[j].0)
    ensures |PlanOf(now, DefaultGrid(), s).keep| == |s|
  {
    var keys := KeysOf(now, DefaultGrid(), s);
    AllSurvive(keys, s, |s|);
    ChosenIsPicked(keys, s, true, |s|);
  }

  /** Some history has a snapshot in each, and then all are kept: the number of
      reachable cells is the most a plan can keep. */
  lemma MaximumIsAttained(now: i64, days: u64) returns (s: Dated<nat>)
    ensures AgedWithin(s, now, days)
    ensures |PlanOf(now, DefaultGrid(), s).keep| == |AllReachable(now, HorizonHours(days))|
  {
    s := OneEach(now, days, AllReachable(now, HorizonHours(days)));
    AllKept(now, s);
  }

  ghost predicate ProjectionHolds(now: i64, days: u64) {
    forall s: Dated<nat> | AgedWithin(s, now, days) :: |PlanOf(now, DefaultGrid(), s).keep| <= SteadyState(days)
  }

  /** The projected count bounds every plan at `now` exactly when there are no
      more reachable cells than that. */
  lemma ProjectionHoldsIff(now: i64, days: u64)
    ensures ProjectionHolds(now, days) <==> |AllReachable(now, HorizonHours(days))| <= SteadyState(days)
  {
    var s := MaximumIsAttained(now, days);
    forall t: Dated<nat> | AgedWithin(t, now, days)
      ensures |PlanOf(now, DefaultGrid(), t).keep| <= |AllReachable(now, HorizonHours(days))|
    {
      KeptWithinReachable(now, t, days);
    }
    if ProjectionHolds(now, days) {
      assert |PlanOf(now, DefaultGrid(), s).keep| <= SteadyState(days);
    }
  }

  /** For every horizon the clock can show, that is when no tier's window
      straddles its cells at `now`, a matter of remainders alone. */
  lemma ProjectionHoldsWhenAligned(now: i64, days: u64)
    requires Shown(now, HorizonHours(days))
    ensures ProjectionHolds(now, days) <==> forall i | 0 <= i < 4 :: !Straddles(i, now, HorizonHours(days))
  {
    ProjectionHoldsIff(now, days);
    ReachableSize(4, now, HorizonHours(days));
    NoExtraIff(4, now, HorizonHours(days));
  }

  /** And it is never exceeded by more than one for each tier that does. */
  lemma KeptWithinProjection<T>(now: i64, s: Dated<T>, days: u64)
    requires AgedWithin(s, now, days)
    ensures |PlanOf(now, DefaultGrid(), s).keep| <= SteadyState(days) + AllExtra(now, HorizonHours(days))
  {
    KeptWithinReachable(now, s, days);
    ReachableSize(4, now, HorizonHours(days));
  }

  /** Nine snapshots of one day, in the nine cells a day can touch. */
  function NineOfOneDay(): (s: Dated<nat>)
    ensures |s| == 9 && forall k | 0 <= k < 9 :: s[k] == ((if k < 8 then 3 * k + 2 else 25) * HOUR_MS, k)
  {
    seq(9, k requires 0 <= k < 9 => ((if k < 8 then 3 * k + 2 else 25) * HOUR_MS, k))
  }

  lemma NineCells(k: nat)
    requires k < 9
    ensures KeyOf(DefaultGrid(), 25 * HOUR_MS, NineOfOneDay()[k].0) == (0, k)
  {
    SameGrid(25 * HOUR_MS, NineOfOneDay()[k].0);
  }

  /** The extra one is needed: a one-day history can keep nine snapshots where
      eight are projected. */
  lemma ProjectionCanBeExceeded()
    ensures var s, now := NineOfOneDay(), 25 * HOUR_MS;
            && AgedWithin(s, now, 1)
            && |PlanOf(now, DefaultGrid(), s).keep| == 9 && SteadyState(1) == 8
  {
    var s, now := NineOfOneDay(), 25 * HOUR_MS;
    var keys := KeysOf(now, DefaultGrid(), s);
    forall i | 0 <= i < 9
      ensures keys[i] == (0, i)
    {
      NineCells(i);
    }
    AllSurvive(keys, s, 9);
    ChosenIsPicked(keys, s, true, 9);
    assert TierCells(0, 24) == 8 && TierCells(1, 24) == 0 && TierCells(2, 24) == 0 && TierCells(3, 24) == 0;
    assert CellsUpTo(2, 24) == 8;
  }
}
