/** Whatever a history of backups and prunes, overlapping ones working from
    stale lists included, every snapshot ever stored stays represented. */
module Coverage {
  import opened Bytes
  import opened Division
  import opened Tables
  import opened Machine
  import opened StoreSafety
  import opened Retention

  /** Each tier's cells are unions of whole cells of every younger tier. */
  ghost predicate Nested(g: Grid) {
    g != [] && forall i, j | 0 <= i <= j < |g| :: Divides(CellMs(g[i]), CellMs(g[j]))
  }

  ghost predicate Divides(w: int, w': int) {
    w > 0 && exists k :: k > 0 && Times(w, k) == w'
  }

  lemma DefaultGridNested()
    ensures Nested(DefaultGrid())
  {
    var g := DefaultGrid();
    assert CellMs(g[0]) == 10_800_000 && CellMs(g[1]) == 86_400_000;
    assert CellMs(g[2]) == 345_600_000 && CellMs(g[3]) == 1_382_400_000;
    assert Times(10_800_000, 8) == 86_400_000 && Times(10_800_000, 32) == 345_600_000;
    assert Times(10_800_000, 128) == 1_382_400_000 && Times(86_400_000, 4) == 345_600_000;
    assert Times(86_400_000, 16) == 1_382_400_000 && Times(345_600_000, 4) == 1_382_400_000;
    forall i | 0 <= i < 4
      ensures Divides(CellMs(g[i]), CellMs(g[i]))
    {
      assert Times(CellMs(g[i]), 1) == CellMs(g[i]);
    }
  }

  /** Two times that share a cell of one tier share a cell of every older. */
  lemma CellsWiden(g: Grid, i: nat, j: nat, a: i64, b: i64)
    requires Nested(g) && i <= j < |g| && CellIn(g, i, a) == CellIn(g, i, b)
    ensures CellIn(g, j, a) == CellIn(g, j, b)
  {
    var w := CellMs(g[i]);
    assert Divides(w, CellMs(g[j]));
    var k :| k > 0 && Times(w, k) == CellMs(g[j]);
    DivDiv(a, w, k);
    DivDiv(b, w, k);
  }

  /** An older snapshot, or a later instant, never gives a younger tier. */
  lemma TiersAge(g: Grid, now: i64, time: i64, now': i64, time': i64)
    requires g != [] && now <= now' && time' <= time
    ensures TierAt(g, now, time) <= TierAt(g, now', time')
  {
    var age, age' := FromMillis(AgeMs(now, time)), FromMillis(AgeMs(now', time'));
    assert age <= age';
    var i := TierOf(g, age');
    assert i < |g| - 1 ==> age < g[i].maxAge;
  }

  /** `v` lies in the cell that `u` lies in, in the tier of `u`'s age. */
  ghost predicate Represents(g: Grid, now: i64, v: Ulid, u: Ulid)
    requires g != []
  {
    var i := TierAt(g, now, UlidTime(u));
    u <= v && CellIn(g, i, UlidTime(v)) == CellIn(g, i, UlidTime(u))
  }

  lemma RepresentsLater(g: Grid, now: i64, now': i64, v: Ulid, u: Ulid)
    requires Nested(g) && now <= now' && Represents(g, now, v, u)
    ensures Represents(g, now', v, u)
  {
    TiersAge(g, now, UlidTime(u), now', UlidTime(u));
    CellsWiden(g, TierAt(g, now, UlidTime(u)), TierAt(g, now', UlidTime(u)), UlidTime(v), UlidTime(u));
  }

  lemma RepresentsTransitive(g: Grid, now: i64, w: Ulid, v: Ulid, u: Ulid)
    requires Nested(g) && Represents(g, now, w, v) && Represents(g, now, v, u)
    ensures Represents(g, now, w, u)
  {
    TiersAge(g, now, UlidTime(v), now, UlidTime(u));
    CellsWiden(g, TierAt(g, now, UlidTime(v)), TierAt(g, now, UlidTime(u)), UlidTime(w), UlidTime(v));
  }

  /** A planned drop is represented, strictly later, by another listed one. */
  lemma DropIsRepresented(g: Grid, p: Pruner, n: nat) returns (v: Ulid)
    requires g != [] && p.grid == g && n < |DropsOf(p)|
    requires forall i, j | 0 <= i < j < |p.listed| :: p.listed[i] < p.listed[j]
    ensures v in p.listed && DropsOf(p)[n] < v && Represents(g, p.at, v, DropsOf(p)[n])
  {
    var items := Items(p.listed);
    var keys := KeysOf(p.at, g, items);
    ChosenIsPicked(keys, items, false, |items|);
    var dropped := Indices(keys, items, false, |items|);
    var i := dropped[n];
    assert i in dropped;
    var k := OneSurvivorPerCell(keys, items, i);
    assert k != i && Beats(items, k, i);
    v := p.listed[k];
  }

  ghost predicate Covered(g: Grid, s: State, u: Ulid)
    requires g != []
  {
    exists v :: v in s.t.snapshots && Represents(g, s.now, v, u)
  }

  ghost predicate AllCovered(g: Grid, s: State)
    requires g != []
  {
    && (forall u | u in s.past.ever :: Covered(g, s, u))
    && (forall p | p in s.pruners :: s.pruners[p].grid == g)
  }

  /** Deleting `d` uncovers nothing as long as some snapshot ever stored
      represents it strictly later. */
  lemma DeleteKeepsCovered(g: Grid, s: State, d: Ulid, v: Ulid, u: Ulid)
    requires Nested(g) && AllCovered(g, s) && u in s.past.ever
    requires v in s.past.ever && d < v && Represents(g, s.now, v, d)
    ensures exists w :: w in s.t.snapshots && w != d && Represents(g, s.now, w, u)
  {
    var w :| w in s.t.snapshots && Represents(g, s.now, w, u);
    if w == d {
      assert Covered(g, s, v);
      var x :| x in s.t.snapshots && Represents(g, s.now, x, v);
      RepresentsTransitive(g, s.now, v, d, u);
      RepresentsTransitive(g, s.now, x, v, u);
      assert x != d;
    }
  }

  /** One deletion of a prune, in effect. */
  lemma PruneNextRemoves(h: Hash, s: State, p: nat)
    requires Enabled(h, s, PruneNext(p))
    ensures var s' := DoPruneNext(s, p);
            && s'.t.snapshots.Keys == s.t.snapshots.Keys - {DropsOf(s.pruners[p])[s.pruners[p].next]}
            && s'.past == s.past && s'.now == s.now
            && forall q | q in s'.pruners :: q in s.pruners && s'.pruners[q].grid == s.pruners[q].grid
  {}

  lemma PruneNextKeepsCovered(h: Hash, g: Grid, s: State, p: nat, s': State)
    requires Nested(g) && Inv(h, s) && AllCovered(g, s) && Enabled(h, s, PruneNext(p)) && s' == DoPruneNext(s, p)
    ensures AllCovered(g, s')
  {
    var pruner := s.pruners[p];
    var d := DropsOf(pruner)[pruner.next];
    var v := DropIsRepresented(g, pruner, pruner.next);
    RepresentsLater(g, pruner.at, s.now, v, d);
    PruneNextRemoves(h, s, p);
    DeleteKeepsAllCovered(g, s, d, v, s');
  }

  lemma DeleteKeepsAllCovered(g: Grid, s: State, d: Ulid, v: Ulid, s': State)
    requires Nested(g) && AllCovered(g, s)
    requires v in s.past.ever && d < v && Represents(g, s.now, v, d)
    requires s'.t.snapshots.Keys == s.t.snapshots.Keys - {d} && s'.past == s.past && s'.now == s.now
    requires forall q | q in s'.pruners :: q in s.pruners && s'.pruners[q].grid == s.pruners[q].grid
    ensures AllCovered(g, s')
  {
    forall u | u in s'.past.ever
      ensures Covered(g, s', u)
    {
      DeleteKeepsCovered(g, s, d, v, u);
      var w :| w in s.t.snapshots && w != d && Represents(g, s.now, w, u);
      assert w in s'.t.snapshots;
    }
  }

  lemma StepKeepsCovered(h: Hash, g: Grid, s: State, step: Step)
    requires Nested(g) && Inv(h, s) && AllCovered(g, s) && Enabled(h, s, step)
    requires step.PruneList? ==> step.grid == g
    ensures AllCovered(g, Apply(h, s, step))
  {
    var s' := Apply(h, s, step);
    if step.PruneNext? {
      PruneNextKeepsCovered(h, g, s, step.p, s');
    } else {
      SnapshotsOnlyGrow(h, s, step);
      GrowthKeepsCovered(g, s, s');
    }
  }

  lemma GrowthKeepsCovered(g: Grid, s: State, s': State)
    requires Nested(g) && AllCovered(g, s) && s.now <= s'.now
    requires s.t.snapshots.Keys <= s'.t.snapshots.Keys
    requires s'.past.ever <= s.past.ever + s'.t.snapshots.Keys
    requires forall p | p in s'.pruners :: s'.pruners[p].grid == g
    ensures AllCovered(g, s')
  {
    forall u | u in s'.past.ever
      ensures Covered(g, s', u)
    {
      if u in s.past.ever {
        var v :| v in s.t.snapshots && Represents(g, s.now, v, u);
        RepresentsLater(g, s.now, s'.now, v, u);
        assert v in s'.t.snapshots;
      } else {
        assert u in s'.t.snapshots && Represents(g, s'.now, u, u);
      }
    }
  }

  lemma SnapshotsOnlyGrow(h: Hash, s: State, step: Step)
    requires Enabled(h, s, step) && !step.PruneNext?
    ensures var s' := Apply(h, s, step);
            && s.now <= s'.now
            && s.t.snapshots.Keys <= s'.t.snapshots.Keys
            && s.past.ever <= s'.past.ever <= s.past.ever + s'.t.snapshots.Keys
            && forall p | p in s'.pruners ::
                 || (p in s.pruners && s'.pruners[p] == s.pruners[p])
                 || (step.PruneList? && s'.pruners[p].grid == step.grid)
  {}

  ghost predicate PrunesWith(run: Run, g: Grid) {
    forall i | 0 <= i < |run| && run[i].PruneList? :: run[i].grid == g
  }

  lemma {:induction false} RunKeepsCovered(h: Hash, g: Grid, run: Run)
    requires Nested(g) && Legal(h, run) && PrunesWith(run, g)
    ensures AllCovered(g, After(h, run))
  {
    if run != [] {
      var k := |run| - 1;
      RunKeepsCovered(h, g, run[..k]);
      RunKeepsInv(h, run[..k]);
      StepKeepsCovered(h, g, After(h, run[..k]), run[k]);
    }
  }

  /** Under the default grid, after any run: every snapshot ever stored has a
      listed one at or after it in the same cell of the tier its age now falls
      in. */
  lemma EverySnapshotStaysRepresented(h: Hash, run: Run, u: Ulid)
    requires Legal(h, run) && PrunesWith(run, DefaultGrid()) && u in After(h, run).past.ever
    ensures var s := After(h, run);
            exists v :: v in s.t.snapshots && Represents(DefaultGrid(), s.now, v, u)
  {
    DefaultGridNested();
    RunKeepsCovered(h, DefaultGrid(), run);
    assert Covered(DefaultGrid(), After(h, run), u);
  }

  lemma CoveredByItself(g: Grid, s: State, u: Ulid)
    requires g != [] && Covered(g, s, u) && forall v | v in s.t.snapshots :: v <= u
    ensures u in s.t.snapshots
  {
    var v :| v in s.t.snapshots && Represents(g, s.now, v, u);
    assert v == u;
  }

  lemma ListedWereStored(h: Hash, run: Run)
    requires Legal(h, run)
    ensures After(h, run).t.snapshots.Keys <= After(h, run).past.ever
  {
    RunKeepsInv(h, run);
  }

  /** So the newest snapshot ever stored is never pruned. */
  lemma NewestStaysListed(h: Hash, run: Run, u: Ulid)
    requires Legal(h, run) && PrunesWith(run, DefaultGrid()) && u in After(h, run).past.ever
    requires forall v | v in After(h, run).past.ever :: v <= u
    ensures u in After(h, run).t.snapshots
  {
    DefaultGridNested();
    RunKeepsCovered(h, DefaultGrid(), run);
    ListedWereStored(h, run);
    CoveredByItself(DefaultGrid(), After(h, run), u);
  }

  /** Coverage is store-wide: of two snapshots in one cell the older is
      dropped, whichever client stored it, so a client can lose its only one
      to another's. */
  lemma PruneIgnoresOwners(now: i64, a: Ulid, b: Ulid)
    requires a < b && KeyOf(DefaultGrid(), now, UlidTime(a)) == KeyOf(DefaultGrid(), now, UlidTime(b))
    ensures PlanOf(now, DefaultGrid(), Items([a, b])) == Plan([b], [a])
  {
    var items := Items([a, b]);
    var keys := KeysOf(now, DefaultGrid(), items);
    assert Beats(items, 1, 0) && !Beats(items, 0, 1);
    assert !Survives(keys, items, 0) && Survives(keys, items, 1);
    assert Chosen(keys, items, true, 0) == [] && Chosen(keys, items, false, 0) == [];
    assert Chosen(keys, items, true, 1) == [] && Chosen(keys, items, false, 1) == [a];
  }
}
