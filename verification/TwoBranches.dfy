/** What the merge of one branch means for other branches over the same base. */
module TwoBranches {
  import opened Store
  import opened Cascade
  import opened Renaming
  import opened Remap
  import opened TableSort
  import opened BranchRuns
  import opened Replay
  import opened MergedView
  import opened ReplayOutcome
  import opened Merge

  /** The sequences have room below the floor for the new rows of both branches. */
  ghost predicate RoomForBoth(cat: Catalog, merged: Delta, other: Delta, prodSeq: map<string, int>, floor: int) {
    forall t :: t in cat.tables && t in cat.idTables && cat.SequenceOf(t) in prodSeq ==>
      prodSeq[cat.SequenceOf(t)] + TotalNew(cat, merged, cat.tables) + TotalNew(cat, other, cat.tables) <= floor
  }

  ghost predicate DeltaRowsShaped(cat: Catalog, delta: Delta) {
    forall r :: r in delta ==> Shaped(cat, r, delta[r].vals)
  }

  /** A delta row that is not new has an id that its production sequence has passed, although base may
      have lost the row since. */
  ghost predicate OldIdsBelow(cat: Catalog, delta: Delta, prodSeq: map<string, int>) {
    forall r :: r in delta && r.k.Id? && !delta[r].isNew ==>
      cat.SequenceOf(r.t) in prodSeq && r.k.n < prodSeq[cat.SequenceOf(r.t)]
  }

  /** What a branch waiting to be merged needs. */
  ghost predicate Pending(cat: Catalog, base: Image, delta: Delta, prodSeq: map<string, int>, floor: int) {
    MergeHypotheses(cat, base, delta, prodSeq, floor) && OldIdsBelow(cat, delta, prodSeq) && DeltaRowsShaped(cat, delta)
  }

  /** What a merge leaves is what the branch shows, renamed, but for what is lost. */
  lemma MergedFrom(cat: Catalog, base: Image, delta: Delta, before: map<string, int>, after: map<string, int>,
                   remaps: Remaps, base': Image)
    requires MergedInto(cat, base, delta, before, after, remaps, base')
    ensures RemapsAll(cat, delta, before, after, remaps) && Integrity(cat.fks, base')
    ensures IsWornView(FullSub(cat.fks, remaps), View(base, delta), base')
  {
    var sub, view, left := FullSub(cat.fks, remaps), View(base, delta), Replayed(cat, base, delta).value;
    assert RenamedImage(sub, left, base') && OnlyLoses(view, left);
    hide MergedInto, RemapsAll, Integrity, FullSub, View, Replayed, RenRow, RenCols, Injective, Worn;
    forall r | r in base' ensures exists s :: s in view && RenRow(sub, s) == r && IsFrom(sub, s, view[s], base'[r]) {
      var s :| s in left && RenRow(sub, s) == r;
      assert Worn(view[s], left[s]) && RenCols(sub, s.t, left[s]) == base'[r];
    }
  }

  /** The row has, renamed, the columns vals, but for values that became NULL. */
  ghost predicate IsFrom(sub: Sub, s: RowId, vals: Cols, vals': Cols) {
    exists worn :: Worn(vals, worn) && RenCols(sub, s.t, worn) == vals'
  }

  /** Every row is, renamed, a row of the view, but for values that became NULL. */
  ghost predicate IsWornView(sub: Sub, view: Image, base': Image) {
    forall r :: r in base' ==> exists s :: s in view && RenRow(sub, s) == r && IsFrom(sub, s, view[s], base'[r])
  }

  /** A row of the merged base is a base row or has an id that its production sequence has passed. */
  lemma MergedRowIsBelow(cat: Catalog, base: Image, merged: Delta, before: map<string, int>, after: map<string, int>,
                         remaps: Remaps, floor: int, base': Image, r: RowId)
    requires Pending(cat, base, merged, before, floor) && MergedInto(cat, base, merged, before, after, remaps, base')
    requires r in base' && r.k.Id?
    ensures r in base || (cat.SequenceOf(r.t) in after && r.k.n < after[cat.SequenceOf(r.t)])
    ensures r in base || (r.t in cat.tables && r.t in cat.idTables)
  {
    var sub, view := FullSub(cat.fks, remaps), View(base, merged);
    MergedFrom(cat, base, merged, before, after, remaps, base');
    var s :| s in view && RenRow(sub, s) == r;
    BaseIsApart(cat, base, merged, before, after, remaps, floor);
    hide MergeHypotheses, RemapsAll, FullSub, MergedInto, IsFrom;
    if s !in base {
      DeltaRowIsBelow(cat, base, merged, before, after, remaps, floor, s);
    }
  }

  lemma DeltaRowIsBelow(cat: Catalog, base: Image, merged: Delta, before: map<string, int>, after: map<string, int>,
                        remaps: Remaps, floor: int, s: RowId)
    requires Pending(cat, base, merged, before, floor) && RemapsAll(cat, merged, before, after, remaps)
    requires s in merged
    ensures
      var r := RenRow(FullSub(cat.fks, remaps), s);
      r.k.Id? ==>
        r.t in cat.tables && r.t in cat.idTables && cat.SequenceOf(r.t) in after && r.k.n < after[cat.SequenceOf(r.t)]
  {
    if s.k.Id? {
      HypothesesGive(cat, base, merged, before, after, remaps, floor);
      DeltaIdIsBelow(cat, base, merged, before, after, remaps, floor, s);
      FullSubAt(cat.fks, remaps, s.t, "id");
      hide MergeHypotheses, RemapsAll, FullSub;
    }
  }

  lemma DeltaIdIsBelow(cat: Catalog, base: Image, merged: Delta, before: map<string, int>, after: map<string, int>,
                       remaps: Remaps, floor: int, s: RowId)
    requires Pending(cat, base, merged, before, floor) && RemapsAll(cat, merged, before, after, remaps)
    requires s in merged && s.k.Id?
    ensures s.t in cat.tables && s.t in cat.idTables && s.t in remaps && cat.SequenceOf(s.t) in after
    ensures (if s.k.n in remaps[s.t] then remaps[s.t][s.k.n] else s.k.n) < after[cat.SequenceOf(s.t)]
  {
    assert KeyShaped(cat, s) && s.t in cat.tables;
    assert s.k.n in NewIds(merged, s.t) <==> merged[s].isNew;
    assert RemapsTable(cat, merged, before, after, s.t, remaps[s.t]);
    hide Integrity, Catalog.WellFormed, SequencesSeparated, NewIds, TotalNew, BaseIdsBelow, NewRowsNotInBase, Predict,
      AfterDrawing;
  }

  lemma ViewRowsShaped(cat: Catalog, base: Image, delta: Delta)
    requires RowsShaped(cat, base, delta) && DeltaRowsShaped(cat, delta)
    ensures forall s :: s in View(base, delta) ==> Shaped(cat, s, View(base, delta)[s])
  {
  }

  lemma MergedRowsShaped(cat: Catalog, base: Image, merged: Delta, other: Delta, sub: Sub, base': Image)
    requires RowsShaped(cat, base, merged) && RowsShaped(cat, base, other) && DeltaRowsShaped(cat, merged)
    requires IsWornView(sub, View(base, merged), base')
    ensures RowsShaped(cat, base', other)
  {
    var view := View(base, merged);
    ViewRowsShaped(cat, base, merged);
    hide Apply, DeltaRowsShaped, View;
    forall r | r in base' ensures Shaped(cat, r, base'[r]) {
      var s :| s in view && RenRow(sub, s) == r && IsFrom(sub, s, view[s], base'[r]);
      var worn :| Worn(view[s], worn) && RenCols(sub, s.t, worn) == base'[r];
      RenamedIsShaped(cat, sub, s, worn);
    }
  }

  lemma RenamedIsShaped(cat: Catalog, sub: Sub, s: RowId, vals: Cols)
    requires Shaped(cat, s, vals)
    ensures Shaped(cat, RenRow(sub, s), RenCols(sub, s.t, vals))
  {
    hide Apply;
  }

  lemma SequencesStillSeparated(cat: Catalog, merged: Delta, other: Delta, before: map<string, int>,
                                after: map<string, int>,
                                floor: int)
    requires SequencesSeparated(cat, cat.tables, other, before, floor) && RoomForBoth(cat, merged, other, before, floor)
    requires SequencesAdvance(before, after, TotalNew(cat, merged, cat.tables))
    ensures SequencesSeparated(cat, cat.tables, other, after, floor)
  {
    hide TotalNew, NewIds;
  }

  lemma NewRowIsHigh(cat: Catalog, base: Image, delta: Delta, prodSeq: map<string, int>, floor: int, r: RowId)
    requires MergeHypotheses(cat, base, delta, prodSeq, floor) && r in delta && r.k.Id? && delta[r].isNew
    ensures r.t in cat.tables && r.t in cat.idTables && cat.SequenceOf(r.t) in prodSeq
    ensures floor <= r.k.n && r !in base
  {
    assert KeyShaped(cat, r) && r.t in cat.tables && r.k.n in NewIds(delta, r.t);
    hide Integrity, Catalog.WellFormed, TotalNew, NewIds, BaseIdsBelow;
  }

  lemma SequenceStaysBelow(cat: Catalog, merged: Delta, other: Delta, before: map<string, int>, after: map<string, int>,
                           floor: int, t: Table)
    requires RoomForBoth(cat, merged, other, before, floor)
    requires SequencesAdvance(before, after, TotalNew(cat, merged, cat.tables))
    requires t in cat.tables && t in cat.idTables && cat.SequenceOf(t) in after
    ensures after[cat.SequenceOf(t)] <= floor
  {
    hide TotalNew;
  }

  lemma OthersNewRowsApart(cat: Catalog, base: Image, merged: Delta, other: Delta, before: map<string, int>,
                           after: map<string, int>, remaps: Remaps, floor: int, base': Image)
    requires Pending(cat, base, merged, before, floor) && Pending(cat, base, other, before, floor)
    requires RoomForBoth(cat, merged, other, before, floor)
    requires MergedInto(cat, base, merged, before, after, remaps, base')
    ensures NewRowsNotInBase(base', other)
  {
    StepAdvances(cat, base, merged, before, after, remaps, base');
    forall r | r in other && r.k.Id? && other[r].isNew ensures r !in base' {
      hide *;
      PendingIs(cat, base, other, before, floor);
      NewRowIsHigh(cat, base, other, before, floor, r);
      if r in base' {
        MergedRowIsBelow(cat, base, merged, before, after, remaps, floor, base', r);
        SequenceStaysBelow(cat, merged, other, before, after, floor, r.t);
      }
    }
  }

  lemma PendingIs(cat: Catalog, base: Image, delta: Delta, prodSeq: map<string, int>, floor: int)
    requires Pending(cat, base, delta, prodSeq, floor)
    ensures MergeHypotheses(cat, base, delta, prodSeq, floor) && OldIdsBelow(cat, delta, prodSeq)
    ensures DeltaRowsShaped(cat, delta)
    ensures RowsShaped(cat, base, delta) && BaseIdsBelow(cat, base, delta, prodSeq)
    ensures SequencesSeparated(cat, cat.tables, delta, prodSeq, floor) && cat.WellFormed()
    ensures forall fk :: fk in cat.fks ==> fk.rule != SetDefault
  {
  }

  lemma OthersIdsBelow(cat: Catalog, base: Image, merged: Delta, other: Delta, before: map<string, int>,
                       after: map<string, int>, remaps: Remaps, floor: int, base': Image)
    requires Pending(cat, base, merged, before, floor) && BaseIdsBelow(cat, base, other, before)
    requires MergedInto(cat, base, merged, before, after, remaps, base')
    ensures BaseIdsBelow(cat, base', other, after)
  {
    hide *;
    forall r | r in base' && r.k.Id? && NewIds(other, r.t) != {}
      ensures cat.SequenceOf(r.t) in after && r.k.n < after[cat.SequenceOf(r.t)]
    {
      StepAdvances(cat, base, merged, before, after, remaps, base');
      MergedRowIsBelow(cat, base, merged, before, after, remaps, floor, base', r);
      if r in base {
        BelowStays(cat, base, other, before, after, TotalNew(cat, merged, cat.tables), r);
      }
    }
    AllBelow(cat, base', other, after);
  }

  lemma AllBelow(cat: Catalog, base: Image, delta: Delta, prodSeq: map<string, int>)
    requires forall r :: r in base && r.k.Id? && NewIds(delta, r.t) != {} ==>
      cat.SequenceOf(r.t) in prodSeq && r.k.n < prodSeq[cat.SequenceOf(r.t)]
    ensures BaseIdsBelow(cat, base, delta, prodSeq)
  {
    hide NewIds;
  }

  lemma BelowStays(cat: Catalog, base: Image, other: Delta, before: map<string, int>, after: map<string, int>,
                   used: nat, r: RowId)
    requires BaseIdsBelow(cat, base, other, before) && SequencesAdvance(before, after, used)
    requires r in base && r.k.Id? && NewIds(other, r.t) != {}
    ensures cat.SequenceOf(r.t) in after && r.k.n < after[cat.SequenceOf(r.t)]
  {
    hide NewIds;
  }

  /** The merge of one branch, whatever base's own actions took, keeps what the merge of another relies
      on. */
  lemma MergeKeepsHypotheses(cat: Catalog, base: Image, merged: Delta, other: Delta, before: map<string, int>,
                             after: map<string, int>, remaps: Remaps, floor: int, base': Image)
    requires Pending(cat, base, merged, before, floor) && Pending(cat, base, other, before, floor)
    requires RoomForBoth(cat, merged, other, before, floor)
    requires MergedInto(cat, base, merged, before, after, remaps, base')
    ensures Pending(cat, base', other, after, floor)
  {
    StepAdvances(cat, base, merged, before, after, remaps, base');
    MergedFrom(cat, base, merged, before, after, remaps, base');
    hide *;
    PendingIs(cat, base, merged, before, floor);
    PendingIs(cat, base, other, before, floor);
    OthersNewRowsApart(cat, base, merged, other, before, after, remaps, floor, base');
    OthersIdsBelow(cat, base, merged, other, before, after, remaps, floor, base');
    MergedRowsShaped(cat, base, merged, other, FullSub(cat.fks, remaps), base');
    SequencesStillSeparated(cat, merged, other, before, after, floor);
    StillPending(cat, base', other, before, after, floor, TotalNew(cat, merged, cat.tables));
  }

  lemma StillPending(cat: Catalog, base': Image, other: Delta, before: map<string, int>, after: map<string, int>,
                     floor: int, used: nat)
    requires cat.WellFormed() && (forall fk :: fk in cat.fks ==> fk.rule != SetDefault)
    requires RowsShaped(cat, base', other) && NewRowsNotInBase(base', other) && BaseIdsBelow(cat, base', other, after)
    requires SequencesSeparated(cat, cat.tables, other, after, floor) && Integrity(cat.fks, base')
    requires OldIdsBelow(cat, other, before) && DeltaRowsShaped(cat, other) && SequencesAdvance(before, after, used)
    ensures Pending(cat, base', other, after, floor)
  {
    hide Integrity, Catalog.WellFormed, RowsShaped, SequencesSeparated, BaseIdsBelow, DeltaRowsShaped;
  }

  // ----- Any number of merges -----

  function SumNew(cat: Catalog, deltas: seq<Delta>): nat {
    if deltas == [] then 0 else TotalNew(cat, deltas[0], cat.tables) + SumNew(cat, deltas[1..])
  }

  lemma {:induction false} SumNewHas(cat: Catalog, deltas: seq<Delta>, i: nat)
    requires i < |deltas|
    ensures TotalNew(cat, deltas[i], cat.tables) <= SumNew(cat, deltas)
  {
    if i > 0 {
      SumNewHas(cat, deltas[1..], i - 1);
    }
  }

  /** The sequences have room below the floor for the new rows of all branches. */
  ghost predicate RoomForAll(cat: Catalog, deltas: seq<Delta>, prodSeq: map<string, int>, floor: int) {
    forall t :: t in cat.tables && t in cat.idTables && cat.SequenceOf(t) in prodSeq ==>
      prodSeq[cat.SequenceOf(t)] + SumNew(cat, deltas) <= floor
  }

  lemma RoomForNext(cat: Catalog, deltas: seq<Delta>, before: map<string, int>, after: map<string, int>, floor: int)
    requires deltas != [] && RoomForAll(cat, deltas, before, floor)
    requires SequencesAdvance(before, after, TotalNew(cat, deltas[0], cat.tables))
    ensures RoomForAll(cat, deltas[1..], after, floor)
    ensures forall i :: 0 < i < |deltas| ==> RoomForBoth(cat, deltas[0], deltas[i], before, floor)
  {
    hide TotalNew;
    forall i | 0 < i < |deltas| ensures TotalNew(cat, deltas[i], cat.tables) <= SumNew(cat, deltas[1..]) {
      SumNewHas(cat, deltas[1..], i - 1);
    }
  }

  /** Branches are merged one after the other: bases and sequences between the merges. */
  ghost predicate Merges(cat: Catalog, deltas: seq<Delta>, bases: seq<Image>, seqs: seq<map<string, int>>,
                         remaps: seq<Remaps>) {
    && |bases| == |seqs| == |remaps| + 1 && |remaps| <= |deltas|
    && forall i :: 0 <= i < |remaps| ==>
        MergedInto(cat, bases[i], deltas[i], seqs[i], seqs[i + 1], remaps[i], bases[i + 1])
  }

  /** Over any sequence of merges, every branch still to be merged keeps what its merge relies on. */
  lemma {:induction false} MergesKeepHypotheses(cat: Catalog, deltas: seq<Delta>, bases: seq<Image>,
                                                seqs: seq<map<string, int>>,
                                                remaps: seq<Remaps>, floor: int, n: nat)
    requires Merges(cat, deltas, bases, seqs, remaps) && n <= |remaps|
    requires RoomForAll(cat, deltas, seqs[0], floor)
    requires forall i :: 0 <= i < |deltas| ==> Pending(cat, bases[0], deltas[i], seqs[0], floor)
    ensures RoomForAll(cat, deltas[n..], seqs[n], floor)
    ensures forall i :: n <= i < |deltas| ==> Pending(cat, bases[n], deltas[i], seqs[n], floor)
  {
    hide Pending, MergedInto, RoomForAll, RoomForBoth;
    if n > 0 {
      var k := n - 1;
      MergesKeepHypotheses(cat, deltas, bases, seqs, remaps, floor, k);
      assert deltas[k..][0] == deltas[k] && deltas[k..][1..] == deltas[n..];
      StepAdvances(cat, bases[k], deltas[k], seqs[k], seqs[n], remaps[k], bases[n]);
      RoomForNext(cat, deltas[k..], seqs[k], seqs[n], floor);
      forall i | n <= i < |deltas| ensures Pending(cat, bases[n], deltas[i], seqs[n], floor) {
        assert deltas[k..][i - k] == deltas[i];
        MergeKeepsHypotheses(cat, bases[k], deltas[k], deltas[i], seqs[k], seqs[n], remaps[k], floor, bases[n]);
      }
    } else {
      assert deltas[0..] == deltas;
    }
  }

  lemma StepAdvances(cat: Catalog, base: Image, delta: Delta, before: map<string, int>, after: map<string, int>,
                     remaps: Remaps,
                     base': Image)
    requires MergedInto(cat, base, delta, before, after, remaps, base')
    ensures SequencesAdvance(before, after, TotalNew(cat, delta, cat.tables))
  {
    hide Integrity, RenamedImage, Replayed, FullSub, TotalNew, Predict, AfterDrawing;
  }

  /** But for one thing: the other branch sees a dangling row exactly when the merge wrote a row that
      references one which the other branch has deleted, and which the other branch has not touched. */
  lemma MergeKeepsOriginSafeIff(fks: seq<FK>, base: Image, base': Image, other: Delta)
    requires Integrity(fks, base') && BaseOriginSafe(fks, base, other)
    ensures BaseOriginSafe(fks, base', other) <==>
      forall x, fk :: x in base' && x !in other && fk in fks && (x !in base || base'[x] != base[x]) ==>
        !RefTo(fk, x, base'[x], Tombstones(other))
  {
    var view, view' := View(base, other), View(base', other);
    forall x, fk | x in base' && x !in other && fk in fks
      ensures Dangles(fk, x, base'[x], view') <==> RefTo(fk, x, base'[x], Tombstones(other))
    {
      assert !Dangles(fk, x, base'[x], base');
    }
    forall x, fk | x in base' && x !in other && fk in fks && x in base && base'[x] == base[x]
      ensures !RefTo(fk, x, base'[x], Tombstones(other))
    {
      assert !Dangles(fk, x, base[x], view);
    }
    hide View, Dangles, RefTo;
  }
}
