/** Which keys stay together. A data key and its chunk-ID key are generated, or
    imported, as a pair; an import promises to preserve the pair it replaces
    in one slot. Over any sequence of uses, each stopping anywhere, when does
    a pair come apart, and when is one made of keys that never belonged
    together? */
module KeyHistory {
  import opened Bytes
  import opened Wrappers
  import opened Keyfile
  import opened Keys
  import P = Primitives

  type Pair = (Bytes, Bytes)

  /** `seen` are the directories before, between and after the uses. */
  ghost predicate History(p: P.Primitives, uses: seq<Use>, seen: seq<Files>) {
    |seen| == |uses| + 1 && forall i | 0 <= i < |uses| :: Leaves(p, uses[i], seen[i], seen[i + 1])
  }

  ghost predicate Leaves(p: P.Primitives, use: Use, before: Files, after: Files) {
    SameKeys(after, AfterUse(p, use, before).files)
  }

  lemma UsedIsHistory(p: P.Primitives, uses: seq<Use>, files: Files, last: Files, done: seq<bool>, seen: seq<Files>)
    requires Used(p, uses, files, last, done, seen)
    ensures History(p, uses, seen)
  {
    forall i | 0 <= i < |uses|
      ensures Leaves(p, uses[i], seen[i], seen[i + 1])
    {
      assert OneUse(p, uses[i], seen[i], seen[i + 1], done[i]);
    }
  }

  predicate BothLive(files: Files) { Live(Data) in files && Live(ChunkId) in files }

  function LiveOf(files: Files): Pair
    requires BothLive(files)
  {
    (files[Live(Data)], files[Live(ChunkId)])
  }

  predicate IsLive(files: Files, pair: Pair) { BothLive(files) && LiveOf(files) == pair }

  ghost predicate InSlot(files: Files, pair: Pair) {
    exists n: nat :: PairAt(files, n, pair)
  }

  predicate PairAt(files: Files, n: nat, pair: Pair) {
    && Old(Data, n) in files && files[Old(Data, n)] == pair.0
    && Old(ChunkId, n) in files && files[Old(ChunkId, n)] == pair.1
  }

  /** The pair is live, or in one slot. */
  ghost predicate Held(files: Files, pair: Pair) {
    IsLive(files, pair) || InSlot(files, pair)
  }

  /** The pairs a directory holds. */
  ghost function PairsIn(files: Files): iset<Pair> {
    iset pair | Held(files, pair)
  }

  // ---- pairs that come apart --------------------------------------------------------

  /** An import that stops after the first of its two renames: it has exactly one
      call that works, its keyfile unlocks and is not current, and there is a
      slot. (A pair that is in a slot already is not lost by it.) */
  ghost predicate Tears(p: P.Primitives, use: Use, files: Files) {
    && BothLive(files) && !InSlot(files, LiveOf(files))
    && use.Import? && use.works == 1
    && use.keyfile.Some? && ImportKeyfile(p, use.keyfile.value, use.pass).Ok?
    && !Current(files, ImportKeyfile(p, use.keyfile.value, use.pass).value)
    && SlotOf(files).Some?
  }

  lemma SameSlots(a: Files, b: Files, pair: Pair)
    requires SameKeys(a, b)
    ensures InSlot(a, pair) <==> InSlot(b, pair)
    ensures IsLive(a, pair) <==> IsLive(b, pair)
  {
    forall n: nat | PairAt(a, n, pair) || PairAt(b, n, pair)
      ensures PairAt(a, n, pair) && PairAt(b, n, pair)
    {}
  }

  ghost predicate SameOld(a: Files, b: Files) {
    forall f: File | f.Old? :: (f in a <==> f in b) && (f in a ==> a[f] == b[f])
  }

  lemma WritesKeepOld(s: Progress, data: Bytes, chunkId: Bytes)
    ensures SameOld(Wrote(Wrote(s, Data, data), ChunkId, chunkId).files, s.files)
  {}

  lemma EnsureKeepsOld(files: Files, works: nat, data: P.Key, chunkId: P.Key)
    ensures SameOld(AfterEnsure(files, works, data, chunkId).files, files)
  {}

  /** The slots after a use are those from before, and perhaps the live keys'. */
  lemma SlotsAfter(p: P.Primitives, use: Use, files: Files)
    ensures var after := AfterUse(p, use, files).files;
            SameOld(after, files) || (use.Import? && SameOld(after, Aside(files, use.works).files))
  {
    match use
    case Ensure(works, data, chunkId) => EnsureKeepsOld(files, works, data, chunkId);
    case Import(works, keyfile, pass) =>
      if keyfile.Some? && ImportKeyfile(p, keyfile.value, pass).Ok? {
        var keys := ImportKeyfile(p, keyfile.value, pass).value;
        WritesKeepOld(Aside(files, works), keys.data, keys.chunkId);
      }
  }

  lemma AsideSlot(files: Files, works: nat, n: nat, pair: Pair)
    ensures PairAt(files, n, pair) ==> PairAt(Aside(files, works).files, n, pair)
    ensures PairAt(Aside(files, works).files, n, pair) ==> PairAt(files, n, pair) || IsLive(files, pair)
  {}

  lemma SlotAfter(p: P.Primitives, use: Use, files: Files, n: nat, pair: Pair)
    ensures var after := AfterUse(p, use, files).files;
            && (PairAt(files, n, pair) ==> PairAt(after, n, pair))
            && (PairAt(after, n, pair) ==> PairAt(files, n, pair) || IsLive(files, pair))
  {
    SlotsAfter(p, use, files);
    if use.Import? {
      AsideSlot(files, use.works, n, pair);
    }
  }

  /** What is in a slot stays there. */
  lemma SlotsStay(p: P.Primitives, use: Use, files: Files, pair: Pair)
    ensures InSlot(files, pair) ==> InSlot(AfterUse(p, use, files).files, pair)
  {
    if InSlot(files, pair) {
      var n: nat :| PairAt(files, n, pair);
      SlotAfter(p, use, files, n, pair);
    }
  }

  lemma TornIsNotHeld(p: P.Primitives, use: Use, files: Files)
    requires Tears(p, use, files)
    ensures !Held(AfterUse(p, use, files).files, LiveOf(files))
  {
    var after, n := AfterUse(p, use, files).files, SlotOf(files).value;
    assert after == MoveAside(files, Data, n);
    forall m: nat | PairAt(after, m, LiveOf(files))
      ensures false
    {
      assert m != n;
      assert PairAt(files, m, LiveOf(files));
    }
  }

  lemma ElseItIsHeld(p: P.Primitives, use: Use, files: Files)
    requires BothLive(files) && !Tears(p, use, files)
    ensures Held(AfterUse(p, use, files).files, LiveOf(files))
  {
    var after := AfterUse(p, use, files).files;
    SlotsStay(p, use, files, LiveOf(files));
    if use.Import? && use.works >= 2 && SlotOf(files).Some? && !IsLive(after, LiveOf(files)) {
      assert PairAt(after, SlotOf(files).value, LiveOf(files));
    }
  }

  /** The live pair is still together after a use if and only if the use does
      not tear it. */
  lemma LivePairHeldIff(p: P.Primitives, use: Use, files: Files, after: Files)
    requires BothLive(files) && Leaves(p, use, files, after)
    ensures Held(after, LiveOf(files)) <==> !Tears(p, use, files)
  {
    SameSlots(after, AfterUse(p, use, files).files, LiveOf(files));
    if Tears(p, use, files) {
      TornIsNotHeld(p, use, files);
    } else {
      ElseItIsHeld(p, use, files);
    }
  }

  /** Every pair that was ever live has been together ever since. */
  ghost predicate StayTogether(seen: seq<Files>) {
    forall i, j | 0 <= i <= j < |seen| && BothLive(seen[i]) :: Held(seen[j], LiveOf(seen[i]))
  }

  ghost predicate NeverTears(p: P.Primitives, uses: seq<Use>, seen: seq<Files>)
    requires |seen| == |uses| + 1
  {
    forall i | 0 <= i < |uses| :: !Tears(p, uses[i], seen[i])
  }

  lemma HeldGoesOn(p: P.Primitives, use: Use, files: Files, after: Files, pair: Pair)
    requires Leaves(p, use, files, after) && !Tears(p, use, files) && Held(files, pair)
    ensures Held(after, pair)
  {
    SameSlots(after, AfterUse(p, use, files).files, pair);
    if IsLive(files, pair) {
      LivePairHeldIff(p, use, files, after);
    } else {
      SlotsStay(p, use, files, pair);
    }
  }

  lemma HeldStep(p: P.Primitives, uses: seq<Use>, seen: seq<Files>, i: nat, pair: Pair)
    requires History(p, uses, seen) && NeverTears(p, uses, seen) && i < |uses|
    ensures pair in PairsIn(seen[i]) ==> pair in PairsIn(seen[i + 1])
  {
    assert Leaves(p, uses[i], seen[i], seen[i + 1]) && !Tears(p, uses[i], seen[i]);
    if Held(seen[i], pair) {
      HeldGoesOn(p, uses[i], seen[i], seen[i + 1], pair);
    }
  }

  lemma HeldUpTo(p: P.Primitives, uses: seq<Use>, seen: seq<Files>, i: nat, j: nat)
    requires History(p, uses, seen) && NeverTears(p, uses, seen) && i <= j < |seen| && BothLive(seen[i])
    ensures LiveOf(seen[i]) in PairsIn(seen[j])
  {
    for k := i to j
      invariant LiveOf(seen[i]) in PairsIn(seen[k])
    {
      HeldStep(p, uses, seen, k, LiveOf(seen[i]));
    }
  }

  /** Over any uses, every pair that was ever live stays together if and only
      if no import stops between its two renames. */
  lemma PairsStayTogetherIff(p: P.Primitives, uses: seq<Use>, seen: seq<Files>)
    requires History(p, uses, seen)
    ensures StayTogether(seen) <==> NeverTears(p, uses, seen)
  {
    if NeverTears(p, uses, seen) {
      forall i, j | 0 <= i <= j < |seen| && BothLive(seen[i])
        ensures Held(seen[j], LiveOf(seen[i]))
      {
        HeldUpTo(p, uses, seen, i, j);
      }
    }
    forall i | 0 <= i < |uses| && Tears(p, uses[i], seen[i])
      ensures !StayTogether(seen)
    {
      assert Leaves(p, uses[i], seen[i], seen[i + 1]);
      LivePairHeldIff(p, uses[i], seen[i], seen[i + 1]);
    }
  }

  // ---- pairs that never belonged together ---------------------------------------------

  /** The pair a use brings in: generated where there is no key, or imported. */
  ghost function BornBy(p: P.Primitives, use: Use, files: Files): iset<Pair> {
    match use
    case Ensure(_, data, chunkId) => if NoLive(files) then iset{(data, chunkId)} else iset{}
    case Import(_, keyfile, pass) =>
      if keyfile.Some? && ImportKeyfile(p, keyfile.value, pass).Ok? then
        var keys := ImportKeyfile(p, keyfile.value, pass).value;
        iset{(keys.data, keys.chunkId)}
      else iset{}
  }

  /** The pairs there were at first and those brought in by the first `n` uses. */
  ghost function Born(p: P.Primitives, uses: seq<Use>, seen: seq<Files>, n: nat): iset<Pair>
    requires n <= |uses| < |seen|
  {
    if n == 0 then PairsIn(seen[0]) else Born(p, uses, seen, n - 1) + BornBy(p, uses[n - 1], seen[n - 1])
  }

  /** An `ensure_data_key` that finds exactly one of the two keys, and gets to
      write the other: it makes a pair, and not one of `born`. */
  ghost predicate Mixes(use: Use, files: Files, born: iset<Pair>) {
    && use.Ensure? && use.works >= 3
    && if Live(Data) in files then
         && Live(ChunkId) !in files && |files[Live(Data)]| == 32
         && (files[Live(Data)], use.chunkId) !in born
       else
         Live(ChunkId) in files && (use.data, files[Live(ChunkId)]) !in born
  }

  lemma NewSlotWasLive(p: P.Primitives, use: Use, files: Files, pair: Pair)
    requires InSlot(AfterUse(p, use, files).files, pair)
    ensures Held(files, pair)
  {
    var n: nat :| PairAt(AfterUse(p, use, files).files, n, pair);
    SlotAfter(p, use, files, n, pair);
  }

  lemma NewLiveWasBorn(p: P.Primitives, use: Use, files: Files, born: iset<Pair>)
    requires PairsIn(files) <= born
    ensures var after := AfterUse(p, use, files).files;
            BothLive(after) ==> (LiveOf(after) in born + BornBy(p, use, files) <==> !Mixes(use, files, born))
    ensures Mixes(use, files, born) ==> BothLive(AfterUse(p, use, files).files)
  {
    if BothLive(files) {
      assert LiveOf(files) in PairsIn(files);
    }
  }

  /** If all pairs held were brought in together, so are all pairs held after a
      use, unless the use mixes two. */
  lemma PairsBornIff(p: P.Primitives, use: Use, files: Files, after: Files, born: iset<Pair>)
    requires PairsIn(files) <= born && Leaves(p, use, files, after)
    ensures PairsIn(after) <= born + BornBy(p, use, files) <==> !Mixes(use, files, born)
  {
    var exact := AfterUse(p, use, files).files;
    NewLiveWasBorn(p, use, files, born);
    forall pair: Pair
      ensures Held(after, pair) <==> Held(exact, pair)
      ensures InSlot(exact, pair) ==> pair in born
    {
      SameSlots(after, exact, pair);
      if InSlot(exact, pair) {
        NewSlotWasLive(p, use, files, pair);
        assert pair in PairsIn(files);
      }
    }
    if Mixes(use, files, born) {
      assert LiveOf(exact) in PairsIn(after);
    }
  }

  /** Every pair held after `n` uses was brought in together. */
  ghost predicate BornAt(p: P.Primitives, uses: seq<Use>, seen: seq<Files>, n: nat)
    requires n <= |uses| < |seen|
  {
    PairsIn(seen[n]) <= Born(p, uses, seen, n)
  }

  ghost predicate AlwaysBorn(p: P.Primitives, uses: seq<Use>, seen: seq<Files>)
    requires |seen| == |uses| + 1
  {
    forall i | 0 <= i <= |uses| :: BornAt(p, uses, seen, i)
  }

  ghost predicate NeverMixes(p: P.Primitives, uses: seq<Use>, seen: seq<Files>)
    requires |seen| == |uses| + 1
  {
    forall i | 0 <= i < |uses| :: !Mixes(uses[i], seen[i], Born(p, uses, seen, i))
  }

  lemma BornStep(p: P.Primitives, uses: seq<Use>, seen: seq<Files>, i: nat)
    requires History(p, uses, seen) && i < |uses|
    ensures BornAt(p, uses, seen, i) ==>
              (BornAt(p, uses, seen, i + 1) <==> !Mixes(uses[i], seen[i], Born(p, uses, seen, i)))
  {
    assert Leaves(p, uses[i], seen[i], seen[i + 1]);
    if BornAt(p, uses, seen, i) {
      PairsBornIff(p, uses[i], seen[i], seen[i + 1], Born(p, uses, seen, i));
    }
  }

  lemma BornFirst(p: P.Primitives, uses: seq<Use>, seen: seq<Files>)
    requires |uses| < |seen|
    ensures BornAt(p, uses, seen, 0)
  {}

  lemma BornGoesOn(p: P.Primitives, uses: seq<Use>, seen: seq<Files>, i: nat)
    requires History(p, uses, seen) && NeverMixes(p, uses, seen) && i < |uses|
    ensures BornAt(p, uses, seen, i) ==> BornAt(p, uses, seen, i + 1)
  {
    BornStep(p, uses, seen, i);
  }

  lemma BornUpTo(p: P.Primitives, uses: seq<Use>, seen: seq<Files>, n: nat)
    requires History(p, uses, seen) && NeverMixes(p, uses, seen) && n <= |uses|
    ensures BornAt(p, uses, seen, n)
  {
    BornFirst(p, uses, seen);
    for i := 0 to n
      invariant BornAt(p, uses, seen, i)
    {
      BornGoesOn(p, uses, seen, i);
    }
  }

  /** Over any uses, the live pair and the pair in each slot are at every moment
      ones that were there at first, or generated or imported together, if and
      only if no `ensure_data_key` fills in one key beside a lone other. */
  lemma PairsAreBornTogetherIff(p: P.Primitives, uses: seq<Use>, seen: seq<Files>)
    requires History(p, uses, seen)
    ensures AlwaysBorn(p, uses, seen) <==> NeverMixes(p, uses, seen)
  {
    if NeverMixes(p, uses, seen) {
      forall i | 0 <= i <= |uses|
        ensures BornAt(p, uses, seen, i)
      {
        BornUpTo(p, uses, seen, i);
      }
    }
    forall i | 0 <= i < |uses| && Mixes(uses[i], seen[i], Born(p, uses, seen, i))
      ensures !AlwaysBorn(p, uses, seen)
    {
      BornStep(p, uses, seen, i);
      assert !BornAt(p, uses, seen, i) || !BornAt(p, uses, seen, i + 1);
    }
  }

  /** So it is for the uses that `UseAll` makes. */
  lemma UsesKeepPairsIff(p: P.Primitives, uses: seq<Use>, files: Files, last: Files, done: seq<bool>, seen: seq<Files>)
    requires Used(p, uses, files, last, done, seen)
    ensures StayTogether(seen) <==> NeverTears(p, uses, seen)
    ensures AlwaysBorn(p, uses, seen) <==> NeverMixes(p, uses, seen)
  {
    UsedIsHistory(p, uses, files, last, done, seen);
    PairsStayTogetherIff(p, uses, seen);
    PairsAreBornTogetherIff(p, uses, seen);
  }

  // ---- only uses that stop part way ----------------------------------------------------

  predicate OneLive(files: Files) {
    Live(Data) in files <==> Live(ChunkId) !in files
  }

  /** The use finished, or left every key where it was. */
  ghost predicate Whole(p: P.Primitives, use: Use, before: Files, after: Files) {
    AfterUse(p, use, before).going || SameKeys(after, before)
  }

  lemma WholeStep(p: P.Primitives, use: Use, before: Files, after: Files, born: iset<Pair>)
    requires Leaves(p, use, before, after) && Whole(p, use, before, after) && !OneLive(before)
    ensures !OneLive(after) && !Tears(p, use, before) && !Mixes(use, before, born)
  {}

  lemma {:induction false} NeverOneLive(p: P.Primitives, uses: seq<Use>, seen: seq<Files>, n: nat)
    requires History(p, uses, seen) && !OneLive(seen[0]) && n <= |uses|
    requires forall i | 0 <= i < |uses| :: Whole(p, uses[i], seen[i], seen[i + 1])
    ensures !OneLive(seen[n])
  {
    if n > 0 {
      NeverOneLive(p, uses, seen, n - 1);
      assert Leaves(p, uses[n - 1], seen[n - 1], seen[n - 1 + 1]) && Whole(p, uses[n - 1], seen[n - 1], seen[n - 1 + 1]);
      WholeStep(p, uses[n - 1], seen[n - 1], seen[n], iset{});
    }
  }

  /** If no use stops part way and there are two keys or none at first, pairs
      never come apart and are never mixed. */
  lemma WholeUsesKeepPairs(p: P.Primitives, uses: seq<Use>, seen: seq<Files>)
    requires History(p, uses, seen) && !OneLive(seen[0])
    requires forall i | 0 <= i < |uses| :: Whole(p, uses[i], seen[i], seen[i + 1])
    ensures StayTogether(seen) && AlwaysBorn(p, uses, seen)
  {
    forall i | 0 <= i < |uses|
      ensures !Tears(p, uses[i], seen[i]) && !Mixes(uses[i], seen[i], Born(p, uses, seen, i))
    {
      NeverOneLive(p, uses, seen, i);
      assert Leaves(p, uses[i], seen[i], seen[i + 1]) && Whole(p, uses[i], seen[i], seen[i + 1]);
      WholeStep(p, uses[i], seen[i], seen[i + 1], Born(p, uses, seen, i));
    }
    PairsStayTogetherIff(p, uses, seen);
    PairsAreBornTogetherIff(p, uses, seen);
  }

  // ---- both happen ----------------------------------------------------------------------

  lemma StoppedImport(p: P.Primitives, keyfile: Bytes, pass: Bytes, pair: Pair)
    requires ImportKeyfile(p, keyfile, pass).Ok? && pair.0 != ImportKeyfile(p, keyfile, pass).value.data
    ensures AfterUse(p, Import(1, Some(keyfile), pass), TwoLive(pair)).files == HalfMoved(pair)
  {
    SlotIsFirst(TwoLive(pair), 1);
  }

  lemma ImportOverLone(p: P.Primitives, keyfile: Bytes, pass: Bytes, pair: Pair)
    requires ImportKeyfile(p, keyfile, pass).Ok?
    ensures AfterUse(p, Import(8, Some(keyfile), pass), HalfMoved(pair)).files
         == Apart(pair, ImportKeyfile(p, keyfile, pass).value)
  {
    SlotIsFirst(HalfMoved(pair), 2);
  }

  function TwoLive(pair: Pair): Files { map[Live(Data) := pair.0, Live(ChunkId) := pair.1] }

  function HalfMoved(pair: Pair): Files { map[Old(Data, 1) := pair.0, Live(ChunkId) := pair.1] }

  function Apart(pair: Pair, keys: KeyPair): Files {
    WithKeys(map[Old(Data, 1) := pair.0, Old(ChunkId, 2) := pair.1], keys)
  }

  /** An import stopped between its two renames and then repeated leaves the
      data key in slot 1 and its chunk-ID key in slot 2. */
  lemma SplitByImports(p: P.Primitives, keyfile: Bytes, pass: Bytes, pair: Pair) returns (uses: seq<Use>, seen: seq<Files>)
    requires ImportKeyfile(p, keyfile, pass).Ok?
    requires pair.0 != ImportKeyfile(p, keyfile, pass).value.data
    ensures History(p, uses, seen) && uses == [Import(1, Some(keyfile), pass), Import(8, Some(keyfile), pass)]
    ensures seen == [TwoLive(pair), HalfMoved(pair), Apart(pair, ImportKeyfile(p, keyfile, pass).value)]
    ensures !Held(seen[2], pair)
  {
    var keys := ImportKeyfile(p, keyfile, pass).value;
    uses := [Import(1, Some(keyfile), pass), Import(8, Some(keyfile), pass)];
    seen := [TwoLive(pair), HalfMoved(pair), Apart(pair, keys)];
    StoppedImport(p, keyfile, pass, pair);
    ImportOverLone(p, keyfile, pass, pair);
    assert Leaves(p, uses[0], seen[0], seen[1]) && Leaves(p, uses[1], seen[1], seen[2]);
    ApartInSlots(pair, keys);
  }

  lemma ApartInSlots(pair: Pair, keys: KeyPair)
    requires pair.0 != keys.data
    ensures !Held(Apart(pair, keys), pair)
  {}

  /** An import stopped between its two writes, and then `ensure_data_key`: the
      imported data key is live beside a fresh chunk-ID key. */
  lemma MixedByEnsure(p: P.Primitives, keyfile: Bytes, pass: Bytes, data: P.Key, chunkId: P.Key)
    returns (uses: seq<Use>, seen: seq<Files>)
    requires ImportKeyfile(p, keyfile, pass).Ok? && chunkId != ImportKeyfile(p, keyfile, pass).value.chunkId
    ensures History(p, uses, seen) && uses == [Import(3, Some(keyfile), pass), Ensure(6, data, chunkId)] && seen[0] == map[]
    ensures IsLive(seen[2], (ImportKeyfile(p, keyfile, pass).value.data, chunkId))
    ensures !AlwaysBorn(p, uses, seen)
  {
    var keys := ImportKeyfile(p, keyfile, pass).value;
    uses := [Import(3, Some(keyfile), pass), Ensure(6, data, chunkId)];
    var f0: Files := map[];
    var f1 := AfterUse(p, uses[0], f0).files;
    assert f1 == map[Live(Data) := keys.data];
    var f2 := AfterUse(p, uses[1], f1).files;
    seen := [f0, f1, f2];
    assert Born(p, uses, seen, 0) == iset{};
    assert Born(p, uses, seen, 1) == iset{(keys.data, keys.chunkId)};
    assert Mixes(uses[1], seen[1], Born(p, uses, seen, 1));
    PairsAreBornTogetherIff(p, uses, seen);
  }
}
