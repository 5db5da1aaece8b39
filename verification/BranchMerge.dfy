/** From the first write on a branch to its merge: over an unchanged base, the merged tables are
    a private copy with the branch's writes, under production ids. */
module BranchMerge {
  import opened Store
  import opened Triggers
  import opened BranchRuns
  import opened Remap
  import opened Replay
  import opened MergedView
  import opened ReplayTurn
  import opened ReplayOutcome
  import opened Merge
  import opened TableSort

  /** The keys that a run inserts have the shape of their table. */
  ghost predicate InsertsShaped(cat: Catalog, ws: seq<Write>) {
    forall i :: 0 <= i < |ws| && ws[i].Insert? ==>
      ws[i].t in cat.tables && (ws[i].key.Some? ==> KeyShaped(cat, RowId(ws[i].t, ws[i].key.value)))
  }

  ghost predicate DeltaShaped(cat: Catalog, delta: Delta) {
    forall r :: r in delta ==> KeyShaped(cat, r) && r.t in cat.tables
  }

  ghost predicate BaseShaped(cat: Catalog, base: Image) {
    forall r :: r in base ==> Shaped(cat, r, base[r]) && r.t in cat.tables
  }

  lemma {:induction false} RunKeepsShape(cat: Catalog, base: Image, states: seq<BranchState>, ws: seq<Write>)
    requires BaseShaped(cat, base) && InsertsShaped(cat, ws)
    requires Run(cat, base, states, ws) && states[0].delta == map[]
    ensures DeltaShaped(cat, states[|ws|].delta)
  {
    if ws != [] {
      var n := |ws| - 1;
      RunKeepsShape(cat, base, states[..n + 1], ws[..n]);
      assert Step(cat, base, states[n], ws[n], states[n + 1]);
    }
  }

  /** The branch-local sequences start at the floor, and the production sequences are above the
      ids of base and stay below the floor when called once for every new row. */
  ghost predicate SequencesFit(cat: Catalog, base: Image, delta: Delta, start: map<Table, int>,
                               prodSeq: map<string, int>, floor: int) {
    forall t :: t in cat.tables && t in cat.idTables ==>
      var q := cat.SequenceOf(t);
      && t in start && floor <= start[t]
      && q in prodSeq && prodSeq[q] + TotalNew(cat, delta, cat.tables) <= floor
      && forall r :: r in base && r.t == t && r.k.Id? ==> r.k.n < prodSeq[q]
  }

  lemma IdsAreSeparated(cat: Catalog, base: Image, start: map<Table, int>, s: BranchState, prodSeq: map<string, int>,
                        floor: int)
    requires BaseShaped(cat, base) && DeltaShaped(cat, s.delta)
    requires FlagsOk(base, s.delta) && IdsIssued(cat, base, start, s)
    requires SequencesFit(cat, base, s.delta, start, prodSeq, floor)
    ensures SequencesSeparated(cat, cat.tables, s.delta, prodSeq, floor)
    ensures BaseIdsBelow(cat, base, s.delta, prodSeq)
  {
    hide TotalNew, NewIds;
    forall r | r in s.delta && r.t in cat.idTables && r.t in cat.tables
      ensures r.k.Id? && if s.delta[r].isNew then floor <= r.k.n else r.k.n < prodSeq[cat.SequenceOf(r.t)]
    {
      assert KeyShaped(cat, r);
    }
  }

  /** What the trigger writes keep is what the merge relies on. */
  lemma RunIsMergeable(cat: Catalog, base: Image, start: map<Table, int>, states: seq<BranchState>, ws: seq<Write>,
                       prodSeq: map<string, int>, floor: int)
    requires cat.WellFormed() && forall fk :: fk in cat.fks ==> fk.rule != SetDefault
    requires BaseShaped(cat, base) && BaseBelow(cat, base, start) && Integrity(cat.fks, base)
    requires Run(cat, base, states, ws) && InsertsShaped(cat, ws)
    requires Starts(cat, start, states[0])
    requires SequencesFit(cat, base, states[|ws|].delta, start, prodSeq, floor)
    ensures MergeHypotheses(cat, base, states[|ws|].delta, prodSeq, floor)
    ensures BaseOriginSafe(cat.fks, base, states[|ws|].delta)
  {
    assert states[0].delta == map[];
    hide Integrity, Run, InsertsShaped, TotalNew, NewIds, SequencesFit, SequencesSeparated, BaseIdsBelow,
      BaseOriginSafe, IdsIssued, Catalog.WellFormed,
      Starts, BaseBelow, Shaped;
    RunKeepsInvariant(cat, base, start, states, ws);
    RunKeepsShape(cat, base, states, ws);
    IdsAreSeparated(cat, base, start, states[|ws|], prodSeq, floor);
  }

  /** End to end: when a merge succeeds, base holds what the branch's writes make of a private copy of
      base, with every branch-local id and every reference to one replaced by its fresh production
      id, exactly when base's own ON DELETE actions take nothing that the branch did not touch. */
  lemma MergeIsRenamedCopy(cat: Catalog, base: Image, start: map<Table, int>, states: seq<BranchState>, ws: seq<Write>,
                           prodSeq: map<string, int>, floor: int, after: map<string, int>, remaps: Remaps, base': Image)
    requires cat.WellFormed() && forall fk :: fk in cat.fks ==> fk.rule != SetDefault
    requires BaseShaped(cat, base) && BaseBelow(cat, base, start) && Integrity(cat.fks, base)
    requires Run(cat, base, states, ws) && InsertsShaped(cat, ws)
    requires Starts(cat, start, states[0])
    requires SequencesFit(cat, base, states[|ws|].delta, start, prodSeq, floor)
    requires MergedInto(cat, base, states[|ws|].delta, prodSeq, after, remaps, base')
    ensures
      var copy := AllOnCopy(cat, Copy(base, start), AllHeard(cat, base, ws)).rows;
      var isCopy := RenamedImage(FullSub(cat.fks, remaps), copy, base');
      && (Acyclic(cat.tables, cat.fks) ==>
          (isCopy <==> NothingLost(cat.fks, base, states[|ws|].delta, SetOf(cat.tables))))
      && (CascadesAbsorbed(cat.fks, base, states[|ws|].delta) ==> isCopy)
      && exists left :: OnlyLoses(copy, left) && RenamedImage(FullSub(cat.fks, remaps), left, base')
    ensures forall t, n :: t in remaps && n in remaps[t] ==>
      RowId(t, Id(n)) !in base && RowId(t, Id(remaps[t][n])) !in base && remaps[t][n] < floor <= n
  {
    var delta := states[|ws|].delta;
    hide Run, InsertsShaped, SequencesFit, Integrity, MergeHypotheses, BaseOriginSafe, RemapsAll, RenamedImage, FullSub,
      NothingLost,
      Acyclic, CascadesAbsorbed, After, AllOnCopy, AllHeard, View, Replayed, OnlyLoses;
    RunIsMergeable(cat, base, start, states, ws, prodSeq, floor);
    OverlayRefinesCopy(cat, base, start, states, ws);
    forall t, n | t in remaps && n in remaps[t]
      ensures RowId(t, Id(n)) !in base && RowId(t, Id(remaps[t][n])) !in base && remaps[t][n] < floor <= n
    {
      FreshIds(cat, base, delta, prodSeq, after, remaps, floor, t, n);
    }
  }
}
