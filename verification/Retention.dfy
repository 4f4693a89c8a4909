/** The retention grid: which snapshots a prune at one instant keeps. */
module Retention {
  import opened Bytes
  import opened Wrappers

  /** A `std::time::Duration`, in nanoseconds. */
  type Duration = nat

  const DURATION_MAX: Duration := U64_MAX * 1_000_000_000 + 999_999_999
  const HOUR: Duration := 3_600_000_000_000

  function FromMillis(ms: nat): Duration { ms * 1_000_000 }

  function AsMillis(d: Duration): nat { d / 1_000_000 }

  datatype Tier = Tier(maxAge: Duration, cell: Duration)

  type Grid = seq<Tier>

  datatype GridError = NoTiers | ZeroCell(index: nat) | Unordered(index: nat)

  /** Cell width in whole milliseconds, clamped to `1..=i64::MAX`. */
  function CellMs(t: Tier): (w: i64)
    ensures 1 <= w
  {
    var ms := AsMillis(t.cell);
    if ms > I64_MAX then I64_MAX else if ms == 0 then 1 else ms
  }

  function DefaultGrid(): Grid {
    [ Tier(24 * HOUR, 3 * HOUR),
      Tier(96 * HOUR, 24 * HOUR),
      Tier(384 * HOUR, 96 * HOUR),
      Tier(DURATION_MAX, 384 * HOUR) ]
  }

  predicate BadTier(tiers: Grid, i: nat)
    requires i < |tiers|
  {
    tiers[i].cell == 0 || (i > 0 && tiers[i].maxAge < tiers[i - 1].maxAge)
  }

  /** `from_tiers`: a grid is accepted exactly when it has a tier and none is
      bad, and otherwise the first bad tier is named. */
  method FromTiers(tiers: Grid) returns (r: Result<Grid, GridError>)
    ensures tiers == [] ==> r == Err(NoTiers)
    ensures r.Ok? <==> tiers != [] && forall i | 0 <= i < |tiers| :: !BadTier(tiers, i)
    ensures r.Ok? ==> r.value == tiers
    ensures r.Err? && tiers != [] ==>
              exists i :: 0 <= i < |tiers| && BadTier(tiers, i) && (forall j | 0 <= j < i :: !BadTier(tiers, j))
                       && r.error == if tiers[i].cell == 0 then ZeroCell(i) else Unordered(i)
  {
    if tiers == [] {
      return Err(NoTiers);
    }
    for index := 0 to |tiers|
      invariant forall j | 0 <= j < index :: !BadTier(tiers, j)
    {
      if tiers[index].cell == 0 {
        assert BadTier(tiers, index);
        return Err(ZeroCell(index));
      }
      if index > 0 && tiers[index].maxAge < tiers[index - 1].maxAge {
        assert BadTier(tiers, index);
        return Err(Unordered(index));
      }
    }
    r := Ok(tiers);
  }

  /** The first tier whose `maxAge` exceeds `age`, else the last. */
  function TierOf(grid: Grid, age: Duration): (i: nat)
    requires grid != []
    ensures i < |grid|
    ensures forall j | 0 <= j < i :: grid[j].maxAge <= age
    ensures i < |grid| - 1 ==> age < grid[i].maxAge
  {
    if age < grid[0].maxAge || |grid| == 1 then 0 else 1 + TierOf(grid[1..], age)
  }

  method TierFor(grid: Grid, age: Duration) returns (i: nat)
    requires grid != []
    ensures i == TierOf(grid, age)
  {
    for index := 0 to |grid|
      invariant forall j | 0 <= j < index :: grid[j].maxAge <= age
    {
      if age < grid[index].maxAge {
        return index;
      }
    }
    return |grid| - 1;
  }

  /** Age at `now`; a snapshot dated after `now` has age zero. */
  function AgeMs(now: i64, time: i64): nat {
    if SatSub(now, time) < 0 then 0 else SatSub(now, time)
  }

  function TierAt(grid: Grid, now: i64, time: i64): (i: nat)
    requires grid != []
    ensures i < |grid|
  {
    TierOf(grid, FromMillis(AgeMs(now, time)))
  }

  /** The epoch-aligned cell of tier `i` that `time` falls in. */
  function CellIn(grid: Grid, i: nat, time: i64): int
    requires i < |grid|
  {
    time / CellMs(grid[i])
  }

  /** The (tier, cell) a snapshot competes in. */
  function KeyOf(grid: Grid, now: i64, time: i64): (nat, int)
    requires grid != []
  {
    var i := TierAt(grid, now, time);
    (i, CellIn(grid, i, time))
  }

  datatype Plan<T> = Plan(keep: seq<T>, drop: seq<T>)

  type Dated<T> = seq<(i64, T)>

  /** Entry `j` takes a shared cell from entry `i`: newer, or as new and
      later in the input. */
  predicate Beats<T>(s: Dated<T>, j: nat, i: nat)
    requires i < |s| && j < |s|
  {
    s[j].0 > s[i].0 || (s[j].0 == s[i].0 && j > i)
  }

  type Keys = seq<(nat, int)>

  function KeysOf<T>(now: i64, grid: Grid, s: Dated<T>): (keys: Keys)
    requires grid != []
    ensures |keys| == |s| && forall i | 0 <= i < |s| :: keys[i] == KeyOf(grid, now, s[i].0)
  {
    seq(|s|, i requires 0 <= i < |s| => KeyOf(grid, now, s[i].0))
  }

  /** Entry `i` beats every other entry of its cell. */
  predicate Survives<T>(keys: Keys, s: Dated<T>, i: nat)
    requires |keys| == |s| && i < |s|
  {
    forall j | 0 <= j < |s| && j != i && keys[j] == keys[i] :: Beats(s, i, j)
  }

  predicate InRange(indices: seq<nat>, n: nat) {
    forall k | 0 <= k < |indices| :: indices[k] < n
  }

  /** The indices below `n` that survive (or, with `kept` false, do not), in
      input order. */
  function Indices<T>(keys: Keys, s: Dated<T>, kept: bool, n: nat): (r: seq<nat>)
    requires |keys| == |s| && n <= |s|
    ensures InRange(r, n)
    ensures forall i :: i in r <==> 0 <= i < n && Survives(keys, s, i) == kept
    ensures forall a, b | 0 <= a < b < |r| :: r[a] < r[b]
  {
    if n == 0 then [] else
      var r := Indices(keys, s, kept, n - 1);
      if Survives(keys, s, n - 1) == kept then r + [n - 1] else r
  }

  function Pick<T>(s: Dated<T>, indices: seq<nat>): (r: seq<T>)
    requires InRange(indices, |s|)
  {
    seq(|indices|, k requires 0 <= k < |indices| => s[indices[k]].1)
  }

  function Ids<T>(s: Dated<T>): seq<T> {
    seq(|s|, i requires 0 <= i < |s| => s[i].1)
  }

  /** The identities of the first `n` entries that survive (or do not). */
  function Chosen<T>(keys: Keys, s: Dated<T>, kept: bool, n: nat): seq<T>
    requires |keys| == |s| && n <= |s|
  {
    if n == 0 then [] else
      Chosen(keys, s, kept, n - 1) + if Survives(keys, s, n - 1) == kept then [s[n - 1].1] else []
  }

  /** What `plan` must return. */
  function PlanOf<T>(now: i64, grid: Grid, s: Dated<T>): Plan<T> {
    if grid == [] then Plan(Ids(s), []) else
      var keys := KeysOf(now, grid, s);
      Plan(Chosen(keys, s, true, |s|), Chosen(keys, s, false, |s|))
  }

  lemma {:induction false} ChosenIsPicked<T>(keys: Keys, s: Dated<T>, kept: bool, n: nat)
    requires |keys| == |s| && n <= |s|
    ensures Chosen(keys, s, kept, n) == Pick(s, Indices(keys, s, kept, n))
  {
    if n > 0 {
      ChosenIsPicked(keys, s, kept, n - 1);
      PickAppend(s, Indices(keys, s, kept, n - 1), n - 1);
    }
  }

  /** `best` holds, for each key among the first `n` entries, the entry that
      beats all the others of them. */
  ghost predicate BestSoFar<T>(keys: Keys, s: Dated<T>, best: map<(nat, int), (i64, nat)>, n: nat)
    requires |keys| == |s| && n <= |s|
  {
    && (forall k | k in best ::
          best[k].1 < n && best[k].0 == s[best[k].1].0 && keys[best[k].1] == k)
    && (forall j | 0 <= j < n ::
          keys[j] in best && (best[keys[j]].1 == j || Beats(s, best[keys[j]].1, j)))
  }

  /** `plan`'s first pass: the best entry of each cell, in a map. */
  method BestByCell<T>(now: i64, s: Dated<T>, grid: Grid) returns (best: map<(nat, int), (i64, nat)>)
    requires grid != []
    ensures BestSoFar(KeysOf(now, grid, s), s, best, |s|)
  {
    ghost var keys := KeysOf(now, grid, s);
    best := map[];
    for idx := 0 to |s|
      invariant BestSoFar(keys, s, best, idx)
    {
      var time := s[idx].0;
      var i := TierFor(grid, FromMillis(AgeMs(now, time)));
      var key := (i, time / CellMs(grid[i]));
      BestStep(keys, s, best, idx);
      if !(key in best && best[key].0 > time) {
        best := best[key := (time, idx)];
      }
    }
  }

  lemma BestStep<T>(keys: Keys, s: Dated<T>, best: map<(nat, int), (i64, nat)>, n: nat)
    requires |keys| == |s| && n < |s| && BestSoFar(keys, s, best, n)
    ensures keys[n] in best && best[keys[n]].0 > s[n].0 ==> BestSoFar(keys, s, best, n + 1)
    ensures !(keys[n] in best && best[keys[n]].0 > s[n].0)
        ==> BestSoFar(keys, s, best[keys[n] := (s[n].0, n)], n + 1)
  {}

  /** `plan`: finds the best entry of each cell, then splits the input by
      whether an entry is one. */
  method ComputePlan<T>(now: i64, s: Dated<T>, grid: Grid) returns (p: Plan<T>)
    ensures p == PlanOf(now, grid, s)
  {
    if grid == [] {
      return Plan(Ids(s), []);
    }
    var best := BestByCell(now, s, grid);
    ghost var keys := KeysOf(now, grid, s);
    var survivors := set k | k in best :: best[k].1;
    SurvivorsAreTheBest(keys, s, best);
    p := SplitBy(keys, s, survivors);
  }

  method SplitBy<T>(ghost keys: Keys, s: Dated<T>, survivors: set<nat>) returns (p: Plan<T>)
    requires |keys| == |s| && forall i | 0 <= i < |s| :: i in survivors <==> Survives(keys, s, i)
    ensures p == Plan(Chosen(keys, s, true, |s|), Chosen(keys, s, false, |s|))
  {
    var keep, drop := [], [];
    for idx := 0 to |s|
      invariant keep == Chosen(keys, s, true, idx)
      invariant drop == Chosen(keys, s, false, idx)
    {
      if idx in survivors {
        keep := keep + [s[idx].1];
      } else {
        drop := drop + [s[idx].1];
      }
    }
    p := Plan(keep, drop);
  }

  lemma PickAppend<T>(s: Dated<T>, r: seq<nat>, n: nat)
    requires InRange(r, |s|) && n < |s|
    ensures Pick(s, r + [n]) == Pick(s, r) + [s[n].1]
  {}

  lemma SurvivorsAreTheBest<T>(keys: Keys, s: Dated<T>, best: map<(nat, int), (i64, nat)>)
    requires |keys| == |s| && BestSoFar(keys, s, best, |s|)
    ensures forall i | 0 <= i < |s| :: (exists k :: k in best && best[k].1 == i) <==> Survives(keys, s, i)
  {
    forall i | 0 <= i < |s|
      ensures (exists k :: k in best && best[k].1 == i) <==> Survives(keys, s, i)
    {
      var b := best[keys[i]].1;
      assert b != i ==> !Beats(s, i, b);
    }
  }

  /** Every occupied cell has exactly one survivor, and it beats every other
      entry of the cell. */
  lemma OneSurvivorPerCell<T>(keys: Keys, s: Dated<T>, i: nat) returns (k: nat)
    requires |keys| == |s| && i < |s|
    ensures k < |s| && keys[k] == keys[i] && Survives(keys, s, k)
    ensures k == i || Beats(s, k, i)
    ensures forall j | 0 <= j < |s| && keys[j] == keys[i] && Survives(keys, s, j) :: j == k
  {
    k := i;
    for n := 0 to |s|
      invariant k < |s| && keys[k] == keys[i]
      invariant k == i || Beats(s, k, i)
      invariant forall j | 0 <= j < n && j != k && keys[j] == keys[i] :: Beats(s, k, j)
    {
      if n != k && keys[n] == keys[i] && Beats(s, n, k) {
        k := n;
      }
    }
  }

  /** An entry is dropped exactly when its cell holds one that beats it, and
      then the cell's one survivor does. */
  lemma DroppedIff<T>(keys: Keys, s: Dated<T>, i: nat)
    requires |keys| == |s| && i < |s|
    ensures i in Indices(keys, s, false, |s|)
       <==> exists j :: 0 <= j < |s| && keys[j] == keys[i] && j != i && Beats(s, j, i)
    ensures i in Indices(keys, s, false, |s|)
       <==> exists j :: j in Indices(keys, s, true, |s|) && keys[j] == keys[i] && j != i && Beats(s, j, i)
  {
    var k := OneSurvivorPerCell(keys, s, i);
    if k != i {
      assert k in Indices(keys, s, true, |s|);
    }
  }

  /** Keep and drop split the input: both in input order, no entry in both,
      none in neither, and together they are the input's identities. */
  lemma PlanSplits<T>(now: i64, grid: Grid, s: Dated<T>)
    ensures var p := PlanOf(now, grid, s);
            && multiset(p.keep) + multiset(p.drop) == multiset(Ids(s))
            && |p.keep| + |p.drop| == |s|
    ensures grid != [] ==>
              var keys := KeysOf(now, grid, s);
              && (forall i | 0 <= i < |s| :: i in Indices(keys, s, true, |s|) <==> i !in Indices(keys, s, false, |s|))
              && PlanOf(now, grid, s).keep == Pick(s, Indices(keys, s, true, |s|))
              && PlanOf(now, grid, s).drop == Pick(s, Indices(keys, s, false, |s|))
  {
    if grid != [] {
      var keys := KeysOf(now, grid, s);
      ChosenIsPicked(keys, s, true, |s|);
      ChosenIsPicked(keys, s, false, |s|);
      ChosenIsSifted(keys, s, true, |s|);
      ChosenIsSifted(keys, s, false, |s|);
      SiftPartitions(Flags(keys, s), s, |s|);
      assert Ids(s)[..|s|] == Ids(s);
    }
  }

  lemma SplitSnoc<T>(keep: seq<T>, drop: seq<T>, all: seq<T>, last: T)
    ensures Partition(keep, drop, all) ==> Partition(keep + [last], drop, all + [last])
    ensures Partition(keep, drop, all) ==> Partition(keep, drop + [last], all + [last])
  {}

  /** Kept and dropped are together `all`. */
  predicate Partition<T(==)>(keep: seq<T>, drop: seq<T>, all: seq<T>) {
    multiset(keep) + multiset(drop) == multiset(all) && |keep| + |drop| == |all|
  }

  ghost function Flags<T>(keys: Keys, s: Dated<T>): (flags: seq<bool>)
    requires |keys| == |s|
    ensures |flags| == |s| && forall i | 0 <= i < |s| :: flags[i] == Survives(keys, s, i)
  {
    seq(|s|, i requires 0 <= i < |s| => Survives(keys, s, i))
  }

  ghost function Sift<T>(flags: seq<bool>, s: Dated<T>, kept: bool, n: nat): seq<T>
    requires |flags| == |s| && n <= |s|
  {
    if n == 0 then [] else Sift(flags, s, kept, n - 1) + if flags[n - 1] == kept then [s[n - 1].1] else []
  }

  lemma {:induction false} ChosenIsSifted<T>(keys: Keys, s: Dated<T>, kept: bool, n: nat)
    requires |keys| == |s| && n <= |s|
    ensures Chosen(keys, s, kept, n) == Sift(Flags(keys, s), s, kept, n)
  {
    if n > 0 {
      ChosenIsSifted(keys, s, kept, n - 1);
    }
  }

  lemma {:induction false} SiftPartitions<T>(flags: seq<bool>, s: Dated<T>, n: nat)
    requires |flags| == |s| && n <= |s|
    ensures Partition(Sift(flags, s, true, n), Sift(flags, s, false, n), Ids(s)[..n])
  {
    if n > 0 {
      SiftPartitions(flags, s, n - 1);
      SplitSnoc(Sift(flags, s, true, n - 1), Sift(flags, s, false, n - 1), Ids(s)[..n - 1], s[n - 1].1);
      IdsSnoc(s, n);
    }
  }

  lemma IdsSnoc<T>(s: Dated<T>, n: nat)
    requires 0 < n <= |s|
    ensures Ids(s)[..n] == Ids(s)[..n - 1] + [s[n - 1].1]
  {}

  function Restrict<T>(s: Dated<T>, indices: seq<nat>): (r: Dated<T>)
    requires InRange(indices, |s|)
  {
    seq(|indices|, k requires 0 <= k < |indices| => s[indices[k]])
  }

  lemma SurvivorsDiffer<T>(keys: Keys, s: Dated<T>, i: nat, j: nat)
    requires |keys| == |s| && i < j < |s| && Survives(keys, s, i) && Survives(keys, s, j)
    ensures keys[i] != keys[j]
  {
    assert !Beats(s, i, j) || !Beats(s, j, i);
  }

  lemma SurvivorsHaveTheirCells<T>(now: i64, grid: Grid, s: Dated<T>, kept: seq<nat>)
    requires grid != [] && kept == Indices(KeysOf(now, grid, s), s, true, |s|)
    ensures var t := Restrict(s, kept);
            forall i | 0 <= i < |t| :: Survives(KeysOf(now, grid, t), t, i)
  {
    var keys, t := KeysOf(now, grid, s), Restrict(s, kept);
    var keys' := KeysOf(now, grid, t);
    forall a, b | 0 <= a < b < |t|
      ensures keys'[a] != keys'[b]
    {
      assert kept[a] in kept && kept[b] in kept;
      SurvivorsDiffer(keys, s, kept[a], kept[b]);
    }
  }

  lemma PickOfRestricted<T>(s: Dated<T>, kept: seq<nat>, all: seq<nat>)
    requires InRange(kept, |s|) && |all| == |kept| && forall i | 0 <= i < |all| :: all[i] == i
    ensures Pick(Restrict(s, kept), all) == Pick(s, kept)
  {}

  lemma ChosenAgain<T>(keys: Keys, s: Dated<T>, kept: seq<nat>, keys': Keys)
    requires |keys| == |s| && kept == Indices(keys, s, true, |s|) && |keys'| == |kept|
    requires forall i | 0 <= i < |kept| :: Survives(keys', Restrict(s, kept), i)
    ensures Chosen(keys', Restrict(s, kept), true, |kept|) == Chosen(keys, s, true, |s|)
    ensures Chosen(keys', Restrict(s, kept), false, |kept|) == []
  {
    var t := Restrict(s, kept);
    AllSurvive(keys', t, |t|);
    ChosenIsPicked(keys', t, true, |t|);
    ChosenIsPicked(keys', t, false, |t|);
    ChosenIsPicked(keys, s, true, |s|);
    PickOfRestricted(s, kept, Indices(keys', t, true, |t|));
  }

  /** Planning the survivors again at the same instant keeps them all. */
  lemma ReplanKeepsSurvivors<T>(now: i64, grid: Grid, s: Dated<T>)
    requires grid != []
    ensures var kept := Indices(KeysOf(now, grid, s), s, true, |s|);
            PlanOf(now, grid, Restrict(s, kept)) == Plan(PlanOf(now, grid, s).keep, [])
  {
    var keys := KeysOf(now, grid, s);
    var kept := Indices(keys, s, true, |s|);
    SurvivorsHaveTheirCells(now, grid, s, kept);
    ChosenAgain(keys, s, kept, KeysOf(now, grid, Restrict(s, kept)));
  }

  lemma {:induction false} AllSurvive<T>(keys: Keys, s: Dated<T>, n: nat)
    requires |keys| == |s| && n <= |s| && forall i | 0 <= i < |s| :: Survives(keys, s, i)
    ensures Indices(keys, s, false, n) == []
    ensures |Indices(keys, s, true, n)| == n && forall i | 0 <= i < n :: Indices(keys, s, true, n)[i] == i
  {
    if n > 0 {
      AllSurvive(keys, s, n - 1);
    }
  }
}
