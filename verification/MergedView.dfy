/** Why replaying the renamed delta tables shows the renamed view. */
module MergedView {
  import opened Store
  import opened Renaming
  import opened Remap
  import opened References
  import opened Replay
  import opened TableSort

  /** Ids of new rows and the references to them become the fresh ids; all else stays. */
  function FullSub(fks: seq<FK>, remaps: Remaps): Sub {
    IdSub(remaps) + FkSub(fks, remaps)
  }

  /** v' holds exactly the rows of v, each key and each foreign-key column renamed. */
  ghost predicate RenamedImage(sub: Sub, v: Image, v': Image) {
    && (forall r :: r in v ==> RenRow(sub, r) in v' && v'[RenRow(sub, r)] == RenCols(sub, r.t, v[r]))
    && (forall r' :: r' in v' ==> exists r :: r in v && RenRow(sub, r) == r')
    && Injective(sub, v.Keys)
  }

  /** Ids are the keys of id tables, and composite keys have no column id. */
  ghost predicate KeyShaped(cat: Catalog, r: RowId) {
    && (r.k.Id? <==> r.t in cat.idTables)
    && (r.k.Composite? ==> "id" !in r.k.cols)
  }

  /** Key columns are not repeated among the other columns. */
  ghost predicate Shaped(cat: Catalog, r: RowId, vals: Cols) {
    KeyShaped(cat, r) && "id" !in vals && (r.k.Composite? ==> r.k.cols.Keys !! vals.Keys)
  }

  lemma FullSubAt(fks: seq<FK>, remaps: Remaps, t: Table, c: Column)
    requires DistinctColumns(fks) && forall fk :: fk in fks ==> fk.col != "id" && fk.ref in remaps
    ensures c == "id" ==> At(FullSub(fks, remaps), t, c) == if t in remaps then remaps[t] else map[]
    ensures forall fk :: fk in fks && fk.src == t && fk.col == c ==> At(FullSub(fks, remaps), t, c) == remaps[fk.ref]
    ensures c != "id" && (forall fk :: fk in fks ==> fk.src != t || fk.col != c) ==>
      At(FullSub(fks, remaps), t, c) == map[]
    ensures c == "id" ==> At(FkSub(fks, remaps), t, c) == map[]
    ensures c != "id" ==> At(FullSub(fks, remaps), t, c) == At(FkSub(fks, remaps), t, c)
  {
    FkSubAt(fks, remaps, t, c);
    IdSubAt(remaps, t, c);
    if c == "id" {
      FkSubSkipsIds(fks, remaps, t);
    } else {
      assert (t, c) !in IdSub(remaps);
    }
  }

  lemma {:induction false} FkSubSkipsIds(fks: seq<FK>, remaps: Remaps, t: Table)
    requires forall fk :: fk in fks ==> fk.col != "id"
    ensures (t, "id") !in FkSub(fks, remaps)
  {
    if fks != [] {
      FkSubSkipsIds(fks[..|fks| - 1], remaps, t);
    }
  }

  /** Renaming ids and then references is the whole renaming. */
  lemma IdsThenReferences(fks: seq<FK>, remaps: Remaps)
    requires DistinctColumns(fks) && forall fk :: fk in fks ==> fk.col != "id" && fk.ref in remaps
    ensures Composes(IdSub(remaps), FkSub(fks, remaps), FullSub(fks, remaps))
  {
    forall t, c, v
      ensures Apply(FkSub(fks, remaps), t, c, Apply(IdSub(remaps), t, c, v)) == Apply(FullSub(fks, remaps), t, c, v)
    {
      FullSubAt(fks, remaps, t, c);
      IdSubAt(remaps, t, c);
    }
  }

  // ----- The view of the renamed delta -----

  /** Base rows are not renamed, and renamed delta rows do not land on base rows. */
  ghost predicate BaseApart(sub: Sub, base: Image, delta: Delta) {
    && (forall r :: r in base ==> RenRow(sub, r) == r && RenCols(sub, r.t, base[r]) == base[r])
    && (forall r :: r in delta && RenRow(sub, r) in base ==> RenRow(sub, r) == r)
  }

  lemma RenamedDeltaShows(sub: Sub, base: Image, d0: Delta, d: Delta, r: RowId)
    requires Renamed(sub, d0, d) && BaseApart(sub, base, d0) && r in View(base, d0)
    ensures RenRow(sub, r) in View(base, d) && View(base, d)[RenRow(sub, r)] == RenCols(sub, r.t, View(base, d0)[r])
  {
  }

  lemma RenamedDeltaShowsNoMore(sub: Sub, base: Image, d0: Delta, d: Delta, r': RowId)
    requires Renamed(sub, d0, d) && BaseApart(sub, base, d0) && r' in View(base, d)
    ensures exists r :: r in View(base, d0) && RenRow(sub, r) == r'
  {
  }

  /** The overlay of the renamed delta is the renamed overlay. */
  lemma RenamedDeltaGivesRenamedView(sub: Sub, base: Image, d0: Delta, d: Delta)
    requires Renamed(sub, d0, d) && BaseApart(sub, base, d0)
    ensures RenamedImage(sub, View(base, d0), View(base, d))
  {
    var v, v' := View(base, d0), View(base, d);
    ViewKeysApart(sub, base, d0, d);
    hide *;
    forall r | r in v ensures RenRow(sub, r) in v' && v'[RenRow(sub, r)] == RenCols(sub, r.t, v[r]) {
      RenamedDeltaShows(sub, base, d0, d, r);
    }
    forall r' | r' in v' ensures exists r :: r in v && RenRow(sub, r) == r' {
      RenamedDeltaShowsNoMore(sub, base, d0, d, r');
    }
    RenamedImageIs(sub, v, v');
  }

  lemma ViewKeysApart(sub: Sub, base: Image, d0: Delta, d: Delta)
    requires Renamed(sub, d0, d) && BaseApart(sub, base, d0)
    ensures Injective(sub, View(base, d0).Keys)
  {
  }

  lemma RenamedImageIs(sub: Sub, v: Image, v': Image)
    requires forall r :: r in v ==> RenRow(sub, r) in v' && v'[RenRow(sub, r)] == RenCols(sub, r.t, v[r])
    requires forall r' :: r' in v' ==> exists r :: r in v && RenRow(sub, r) == r'
    requires Injective(sub, v.Keys)
    ensures RenamedImage(sub, v, v')
  {
  }

  // ----- The hypotheses of a faithful merge -----

  /** Rows have the columns their table has. */
  ghost predicate RowsShaped(cat: Catalog, base: Image, delta: Delta) {
    && (forall r :: r in base ==> Shaped(cat, r, base[r]))
    && (forall r :: r in delta ==> KeyShaped(cat, r) && r.t in cat.tables)
  }

  /** Where the branch added ids, the production sequence is above the ids of base. */
  ghost predicate BaseIdsBelow(cat: Catalog, base: Image, delta: Delta, prodSeq: map<string, int>) {
    forall r :: r in base && r.k.Id? && NewIds(delta, r.t) != {} ==>
      cat.SequenceOf(r.t) in prodSeq && r.k.n < prodSeq[cat.SequenceOf(r.t)]
  }

  ghost predicate NewRowsNotInBase(base: Image, delta: Delta) {
    forall r :: r in delta && r.k.Id? && delta[r].isNew ==> r !in base
  }

  /** What a merge relies on: a catalog within the tool's limits, the flag and sequence invariants
      of branch writes, and a base that satisfies its own foreign keys. */
  ghost predicate MergeHypotheses(cat: Catalog, base: Image, delta: Delta, prodSeq: map<string, int>, floor: int) {
    && cat.WellFormed()
    && (forall fk :: fk in cat.fks ==> fk.rule != SetDefault)
    && RowsShaped(cat, base, delta)
    && NewRowsNotInBase(base, delta)
    && SequencesSeparated(cat, cat.tables, delta, prodSeq, floor)
    && BaseIdsBelow(cat, base, delta, prodSeq)
    && Integrity(cat.fks, base)
  }

  /** What RemapNewRows says of its result: the remaps that were to be expected, and what follows. */
  ghost predicate RemapsAll(cat: Catalog, d0: Delta, before: map<string, int>, after: map<string, int>,
                            remaps: Remaps) {
    && remaps == Predict(cat, d0, before, cat.tables) && after == AfterDrawing(cat, d0, before, cat.tables)
    && remaps.Keys == SetOf(cat.tables)
    && SequencesAdvance(before, after, TotalNew(cat, d0, cat.tables))
    && forall t :: t in cat.tables ==> RemapsTable(cat, d0, before, after, t, remaps[t])
  }

  /** A fresh id is no base id, was not handed out before, and lies below every branch-local id. */
  lemma FreshIds(cat: Catalog, base: Image, d0: Delta, before: map<string, int>, after: map<string, int>,
                 remaps: Remaps, floor: int, t: Table, n: int)
    requires MergeHypotheses(cat, base, d0, before, floor) && RemapsAll(cat, d0, before, after, remaps)
    requires t in remaps && n in remaps[t]
    ensures t in cat.idTables && n in NewIds(d0, t) && RowId(t, Id(n)) !in base
    ensures cat.SequenceOf(t) in before
    ensures before[cat.SequenceOf(t)] <= remaps[t][n] < floor <= n
    ensures RowId(t, Id(remaps[t][n])) !in base
  {
  }

  lemma RemapsHaveNoChains(cat: Catalog, base: Image, d0: Delta, before: map<string, int>, after: map<string, int>,
                           remaps: Remaps, floor: int)
    requires MergeHypotheses(cat, base, d0, before, floor) && RemapsAll(cat, d0, before, after, remaps)
    ensures NoChains(remaps)
  {
  }

  lemma HypothesesGive(cat: Catalog, base: Image, d0: Delta, before: map<string, int>, after: map<string, int>,
                       remaps: Remaps, floor: int)
    requires MergeHypotheses(cat, base, d0, before, floor) && RemapsAll(cat, d0, before, after, remaps)
    ensures DistinctColumns(cat.fks) && forall fk :: fk in cat.fks ==> fk.col != "id" && fk.ref in remaps
    ensures Integrity(cat.fks, base) && RowsShaped(cat, base, d0)
  {
  }

  /** What the renaming of a column comes from. */
  lemma WhatRenames(fks: seq<FK>, remaps: Remaps, t: Table, c: Column, n: int) returns (ref: Table)
    requires DistinctColumns(fks) && forall fk :: fk in fks ==> fk.col != "id" && fk.ref in remaps
    requires n in At(FullSub(fks, remaps), t, c)
    ensures ref in remaps && n in remaps[ref] && At(FullSub(fks, remaps), t, c) == remaps[ref]
    ensures c == "id" ==> ref == t
    ensures c != "id" ==> exists fk :: fk in fks && fk.src == t && fk.col == c && fk.ref == ref
  {
    FullSubAt(fks, remaps, t, c);
    if c == "id" {
      ref := t;
    } else {
      var fk :| fk in fks && fk.src == t && fk.col == c;
      ref := fk.ref;
    }
  }

  lemma ReferencedIsThere(fks: seq<FK>, v: Image, r: RowId, fk: FK)
    requires Integrity(fks, v) && r in v && fk in fks && fk.src == r.t
    ensures Val(r, v[r], fk.col).Int? ==> RowId(fk.ref, Id(Val(r, v[r], fk.col).n)) in v
    ensures !Val(r, v[r], fk.col).Text?
  {
  }

  /** The columns of base rows hold nothing that is renamed. */
  lemma BaseValueStays(cat: Catalog, base: Image, d0: Delta, before: map<string, int>, after: map<string, int>,
                       remaps: Remaps, floor: int, r: RowId, c: Column)
    requires MergeHypotheses(cat, base, d0, before, floor) && RemapsAll(cat, d0, before, after, remaps)
    requires r in base && (c == "id" ==> r.k.Id?)
    ensures
      var v := Val(r, base[r], c);
      Apply(FullSub(cat.fks, remaps), r.t, c, v) == v
  {
    hide MergeHypotheses, RemapsAll, FullSub, Integrity, RowsShaped, DistinctColumns;
    var v := Val(r, base[r], c);
    HypothesesGive(cat, base, d0, before, after, remaps, floor);
    if v.Int? && v.n in At(FullSub(cat.fks, remaps), r.t, c) {
      var ref := WhatRenames(cat.fks, remaps, r.t, c, v.n);
      FreshIds(cat, base, d0, before, after, remaps, floor, ref, v.n);
      if c != "id" {
        var fk :| fk in cat.fks && fk.src == r.t && fk.col == c && fk.ref == ref;
        ReferencedIsThere(cat.fks, base, r, fk);
      }
      assert false;
    }
  }

  lemma BaseRowStays(cat: Catalog, base: Image, d0: Delta, before: map<string, int>, after: map<string, int>,
                     remaps: Remaps, floor: int, r: RowId)
    requires MergeHypotheses(cat, base, d0, before, floor) && RemapsAll(cat, d0, before, after, remaps)
    requires r in base
    ensures
      var sub := FullSub(cat.fks, remaps);
      RenRow(sub, r) == r && RenCols(sub, r.t, base[r]) == base[r]
  {
    var sub := FullSub(cat.fks, remaps);
    assert Shaped(cat, r, base[r]);
    hide MergeHypotheses, RemapsAll, FullSub, Apply, RenCols;
    forall c | c in base[r] ensures Apply(sub, r.t, c, base[r][c]) == base[r][c] {
      BaseValueStays(cat, base, d0, before, after, remaps, floor, r, c);
    }
    ColsStay(sub, r.t, base[r]);
    if r.k.Id? {
      BaseValueStays(cat, base, d0, before, after, remaps, floor, r, "id");
    } else {
      forall c | c in r.k.cols ensures Apply(sub, r.t, c, r.k.cols[c]) == r.k.cols[c] {
        BaseValueStays(cat, base, d0, before, after, remaps, floor, r, c);
      }
      ColsStay(sub, r.t, r.k.cols);
    }
  }

  lemma ColsStay(sub: Sub, t: Table, cols: Cols)
    requires forall c :: c in cols ==> Apply(sub, t, c, cols[c]) == cols[c]
    ensures RenCols(sub, t, cols) == cols
  {
  }

  /** A row that was renamed has a fresh id in its key, which no base row has. */
  lemma RenamedRowIsNotBase(cat: Catalog, base: Image, d0: Delta, before: map<string, int>, after: map<string, int>,
                            remaps: Remaps, floor: int, r: RowId)
    requires MergeHypotheses(cat, base, d0, before, floor) && RemapsAll(cat, d0, before, after, remaps)
    requires r in d0
    ensures RenRow(FullSub(cat.fks, remaps), r) == r || RenRow(FullSub(cat.fks, remaps), r) !in base
  {
    var sub := FullSub(cat.fks, remaps);
    var r' := RenRow(sub, r);
    hide MergeHypotheses, RemapsAll, FullSub, Integrity, RowsShaped, DistinctColumns;
    HypothesesGive(cat, base, d0, before, after, remaps, floor);
    if r' != r && r' in base {
      match r.k {
        case Id(n) =>
          var ref := WhatRenames(cat.fks, remaps, r.t, "id", n);
          FreshIds(cat, base, d0, before, after, remaps, floor, r.t, n);
        case Composite(cols) =>
          RenColsDiffer(sub, r.t, cols);
          ShapedKey(cat, base, d0, r);
          var c :| c in cols && Apply(sub, r.t, c, cols[c]) != cols[c];
          var ref := WhatRenames(cat.fks, remaps, r.t, c, cols[c].n);
          FreshIds(cat, base, d0, before, after, remaps, floor, ref, cols[c].n);
          var fk :| fk in cat.fks && fk.src == r.t && fk.col == c && fk.ref == ref;
          ReferencedIsThere(cat.fks, base, r', fk);
      }
      assert false;
    }
  }

  lemma ShapedKey(cat: Catalog, base: Image, d0: Delta, r: RowId)
    requires RowsShaped(cat, base, d0) && r in d0 && r.k.Composite?
    ensures "id" !in r.k.cols
  {
  }

  lemma RenColsDiffer(sub: Sub, t: Table, cols: Cols)
    requires RenCols(sub, t, cols) != cols
    ensures exists c :: c in cols && Apply(sub, t, c, cols[c]) != cols[c]
  {
  }

  lemma BaseIsApart(cat: Catalog, base: Image, d0: Delta, before: map<string, int>, after: map<string, int>,
                    remaps: Remaps, floor: int)
    requires MergeHypotheses(cat, base, d0, before, floor) && RemapsAll(cat, d0, before, after, remaps)
    ensures BaseApart(FullSub(cat.fks, remaps), base, d0)
  {
    var sub := FullSub(cat.fks, remaps);
    hide MergeHypotheses, RemapsAll, FullSub, RenRow, RenCols;
    forall r | r in base ensures RenRow(sub, r) == r && RenCols(sub, r.t, base[r]) == base[r] {
      BaseRowStays(cat, base, d0, before, after, remaps, floor, r);
    }
    forall r | r in d0 && RenRow(sub, r) in base ensures RenRow(sub, r) == r {
      RenamedRowIsNotBase(cat, base, d0, before, after, remaps, floor, r);
    }
  }

  // ----- References survive the renaming -----

  lemma RenamedValue(sub: Sub, r: RowId, vals: Cols, c: Column)
    requires c != "id"
    ensures Val(RenRow(sub, r), RenCols(sub, r.t, vals), c) == Apply(sub, r.t, c, Val(r, vals, c))
  {
  }

  /** A renamed reference points to the renamed row. */
  lemma RenamedReference(fks: seq<FK>, remaps: Remaps, fk: FK, n: int)
    requires DistinctColumns(fks) && forall f :: f in fks ==> f.col != "id" && f.ref in remaps
    requires fk in fks
    ensures
      var sub := FullSub(fks, remaps);
      && Apply(sub, fk.src, fk.col, Int(n)).Int?
      && RenRow(sub, RowId(fk.ref, Id(n))) == RowId(fk.ref, Id(Apply(sub, fk.src, fk.col, Int(n)).n))
  {
    FullSubAt(fks, remaps, fk.src, fk.col);
    FullSubAt(fks, remaps, fk.ref, "id");
  }

  lemma RenamedRowDoesNotDangle(fks: seq<FK>, remaps: Remaps, v: Image, v': Image, r: RowId, fk: FK)
    requires DistinctColumns(fks) && forall f :: f in fks ==> f.col != "id" && f.ref in remaps
    requires RenamedImage(FullSub(fks, remaps), v, v') && r in v && fk in fks
    requires !Dangles(fk, r, v[r], v)
    ensures
      var sub := FullSub(fks, remaps);
      !Dangles(fk, RenRow(sub, r), RenCols(sub, r.t, v[r]), v')
  {
    var sub := FullSub(fks, remaps);
    RenamedValue(sub, r, v[r], fk.col);
    RenRowKeepsTable(sub, r);
    hide FullSub, RenRow, RenCols, DistinctColumns;
    var value := Val(r, v[r], fk.col);
    if r.t == fk.src && value.Int? {
      RenamedReference(fks, remaps, fk, value.n);
    }
  }

  /** Integrity of the branch's view is integrity of the merged tables. */
  lemma RenamedImageHasIntegrity(fks: seq<FK>, remaps: Remaps, v: Image, v': Image)
    requires DistinctColumns(fks) && forall f :: f in fks ==> f.col != "id" && f.ref in remaps
    requires RenamedImage(FullSub(fks, remaps), v, v') && Integrity(fks, v)
    ensures Integrity(fks, v')
  {
    var sub := FullSub(fks, remaps);
    forall r', fk | r' in v' && fk in fks ensures !Dangles(fk, r', v'[r'], v') {
      var r :| r in v && RenRow(sub, r) == r';
      RenamedRowDoesNotDangle(fks, remaps, v, v', r, fk);
    }
  }

  // ----- Keys stay distinct -----

  /** No composite key of the delta holds, in a foreign-key column, an id that the production
      sequence of the referenced table is about to hand out. */
  ghost predicate NoFreshKeys(cat: Catalog, delta: Delta, prodSeq: map<string, int>, floor: int) {
    forall r, fk :: r in delta && r.k.Composite? && fk in cat.fks && fk.src == r.t
      && fk.col in r.k.cols && r.k.cols[fk.col].Int? && cat.SequenceOf(fk.ref) in prodSeq
      ==> !(prodSeq[cat.SequenceOf(fk.ref)] <= r.k.cols[fk.col].n < floor)
  }

  lemma FreshIdsAreDistinct(cat: Catalog, base: Image, d0: Delta, before: map<string, int>, after: map<string, int>,
                            remaps: Remaps, floor: int, t: Table)
    requires MergeHypotheses(cat, base, d0, before, floor) && RemapsAll(cat, d0, before, after, remaps)
    requires t in remaps
    ensures forall a, b :: a in remaps[t] && b in remaps[t] && remaps[t][a] == remaps[t][b] ==> a == b
  {
    assert RemapsTable(cat, d0, before, after, t, remaps[t]);
  }

  /** A value that is renamed differs, renamed, from every other value in its column. */
  lemma RenamedValuesApart(cat: Catalog, base: Image, d0: Delta, before: map<string, int>, after: map<string, int>,
                           remaps: Remaps, floor: int,
                           r: RowId, r': RowId, c: Column)
    requires MergeHypotheses(cat, base, d0, before, floor) && RemapsAll(cat, d0, before, after, remaps)
    requires NoFreshKeys(cat, d0, before, floor)
    requires r in d0 && r' in d0 && r.t == r'.t && r.k.Composite? && r'.k.Composite? && c in r.k.cols && c in r'.k.cols
    ensures
      var sub, v, v' := FullSub(cat.fks, remaps), r.k.cols[c], r'.k.cols[c];
      v.Int? && v.n in At(sub, r.t, c) && v != v' ==> Apply(sub, r.t, c, v) != Apply(sub, r.t, c, v')
  {
    hide MergeHypotheses, RemapsAll, FullSub, Integrity, RowsShaped, DistinctColumns, NoFreshKeys, At;
    HypothesesGive(cat, base, d0, before, after, remaps, floor);
    ShapedKey(cat, base, d0, r);
    var v := r.k.cols[c];
    if v.Int? && v.n in At(FullSub(cat.fks, remaps), r.t, c) {
      var ref := WhatRenames(cat.fks, remaps, r.t, c, v.n);
      var fk :| fk in cat.fks && fk.src == r.t && fk.col == c && fk.ref == ref;
      FreshIds(cat, base, d0, before, after, remaps, floor, ref, v.n);
      FreshIdsAreDistinct(cat, base, d0, before, after, remaps, floor, ref);
      NotFresh(cat, d0, before, floor, r', fk);
    }
  }

  lemma NotFresh(cat: Catalog, delta: Delta, prodSeq: map<string, int>, floor: int, r: RowId, fk: FK)
    requires NoFreshKeys(cat, delta, prodSeq, floor)
    requires r in delta && r.k.Composite? && fk in cat.fks && fk.src == r.t && fk.col in r.k.cols
    requires cat.SequenceOf(fk.ref) in prodSeq
    ensures r.k.cols[fk.col].Int? ==> !(prodSeq[cat.SequenceOf(fk.ref)] <= r.k.cols[fk.col].n < floor)
  {
  }

  lemma RenColsAgree(sub: Sub, t: Table, a: Cols, b: Cols)
    requires RenCols(sub, t, a) == RenCols(sub, t, b)
    ensures a.Keys == b.Keys && forall c :: c in a ==> Apply(sub, t, c, a[c]) == Apply(sub, t, c, b[c])
  {
    assert RenCols(sub, t, a).Keys == a.Keys && RenCols(sub, t, b).Keys == b.Keys;
    forall c | c in a ensures Apply(sub, t, c, a[c]) == Apply(sub, t, c, b[c]) {
      assert Apply(sub, t, c, a[c]) == RenCols(sub, t, a)[c] == RenCols(sub, t, b)[c];
    }
  }

  lemma CompositeKeysApart(cat: Catalog, base: Image, d0: Delta, before: map<string, int>, after: map<string, int>,
                           remaps: Remaps, floor: int,
                           r: RowId, r': RowId)
    requires MergeHypotheses(cat, base, d0, before, floor) && RemapsAll(cat, d0, before, after, remaps)
    requires NoFreshKeys(cat, d0, before, floor)
    requires r in d0 && r' in d0 && r.t == r'.t && r.k.Composite? && r'.k.Composite?
    ensures RenCols(FullSub(cat.fks, remaps), r.t, r.k.cols) == RenCols(FullSub(cat.fks, remaps), r.t, r'.k.cols) ==>
      r == r'
  {
    var sub := FullSub(cat.fks, remaps);
    hide MergeHypotheses, RemapsAll, FullSub, NoFreshKeys, RenCols;
    if RenCols(sub, r.t, r.k.cols) == RenCols(sub, r.t, r'.k.cols) {
      RenColsAgree(sub, r.t, r.k.cols, r'.k.cols);
      forall c | c in r.k.cols ensures r.k.cols[c] == r'.k.cols[c] {
        RenamedValuesApart(cat, base, d0, before, after, remaps, floor, r, r', c);
        RenamedValuesApart(cat, base, d0, before, after, remaps, floor, r', r, c);
      }
      assert r.k.cols == r'.k.cols;
    }
  }

  lemma FullSubOnIds(fks: seq<FK>, remaps: Remaps, r: RowId)
    requires DistinctColumns(fks) && forall fk :: fk in fks ==> fk.col != "id" && fk.ref in remaps
    requires r.k.Id?
    ensures RenRow(FullSub(fks, remaps), r) == RenRow(IdSub(remaps), r)
  {
    FullSubAt(fks, remaps, r.t, "id");
    IdSubAt(remaps, r.t, "id");
  }

  /** Ids of rows that are not new lie outside the fresh range, and fresh ids below those of new rows. */
  lemma IdsStayApart(cat: Catalog, base: Image, d0: Delta, before: map<string, int>, after: map<string, int>,
                     remaps: Remaps, floor: int,
                     r: RowId, r': RowId)
    requires MergeHypotheses(cat, base, d0, before, floor) && RemapsAll(cat, d0, before, after, remaps)
    requires r in d0 && r' in d0 && r.k.Id? && RenRow(IdSub(remaps), r) == RenRow(IdSub(remaps), r')
    ensures r == r'
  {
    RenRowKeepsTable(IdSub(remaps), r);
    RenRowKeepsTable(IdSub(remaps), r');
    IdSubAt(remaps, r.t, "id");
    assert r'.k.Id? && r.t in cat.tables && r.t in cat.idTables;
    var m, n, n' := remaps[r.t], r.k.n, r'.k.n;
    assert RemapsTable(cat, d0, before, after, r.t, m);
    assert n in m <==> d0[r].isNew;
    assert n' in m <==> d0[r'].isNew;
    hide Integrity, NewIds, IdSub, Catalog.WellFormed, TotalNew;
    if n in m {
      FreshIds(cat, base, d0, before, after, remaps, floor, r.t, n);
      SeparatedRow(cat, d0, before, floor, r', r);
    }
    if n' in m {
      FreshIds(cat, base, d0, before, after, remaps, floor, r.t, n');
      SeparatedRow(cat, d0, before, floor, r, r');
    }
    hide MergeHypotheses, RemapsAll;
  }

  lemma SeparatedRow(cat: Catalog, d0: Delta, prodSeq: map<string, int>, floor: int, r: RowId, other: RowId)
    requires SequencesSeparated(cat, cat.tables, d0, prodSeq, floor) && r in d0 && other in d0 && r.t == other.t
    requires r.t in cat.tables && r.t in cat.idTables && other.k.Id? && d0[other].isNew
    ensures cat.SequenceOf(r.t) in prodSeq && r.k.Id?
    ensures if d0[r].isNew then floor <= r.k.n else r.k.n < prodSeq[cat.SequenceOf(r.t)]
  {
    assert other.k.n in NewIds(d0, r.t);
    hide NewIds, TotalNew;
  }

  /** Without fresh values in composite keys the renaming gives no two delta rows one key. */
  lemma RenamingKeepsKeysApart(cat: Catalog, base: Image, d0: Delta, before: map<string, int>, floor: int)
    requires MergeHypotheses(cat, base, d0, before, floor) && NoFreshKeys(cat, d0, before, floor)
    ensures Injective(FullSub(cat.fks, Predict(cat, d0, before, cat.tables)), d0.Keys)
  {
    var remaps, after := Predict(cat, d0, before, cat.tables), AfterDrawing(cat, d0, before, cat.tables);
    SeparatedIsSequenced(cat, cat.tables, d0, before, floor);
    PredictionHolds(cat, cat.tables, d0, before);
    var sub := FullSub(cat.fks, remaps);
    hide MergeHypotheses, FullSub, IdSub, Integrity, RowsShaped, DistinctColumns, NoFreshKeys, RenCols, Predict,
      AfterDrawing, TotalNew,
      RemapsTable, SequencesAdvance, SetOf;
    HypothesesGive(cat, base, d0, before, after, remaps, floor);
    forall r, r' | r in d0 && r' in d0 && RenRow(sub, r) == RenRow(sub, r') ensures r == r' {
      if r.k.Id? {
        FullSubOnIds(cat.fks, remaps, r);
        FullSubOnIds(cat.fks, remaps, r');
        IdsStayApart(cat, base, d0, before, after, remaps, floor, r, r');
      } else {
        CompositeKeysApart(cat, base, d0, before, after, remaps, floor, r, r');
      }
    }
  }

  /** A composite row, tombstoned say, that already holds the fresh id stops the row that is to get
      it. */
  lemma FreshKeyCollides(sub: Sub, delta: Delta, r: RowId, r': RowId, c: Column, n: int)
    requires r in delta && r' in delta && r.t == r'.t && r.k.Composite? && r'.k.Composite?
    requires c in r.k.cols && r.k.cols[c] == Int(n)
    requires n in At(sub, r.t, c) && At(sub, r.t, c)[n] !in At(sub, r.t, c)
    requires r'.k.cols == r.k.cols[c := Int(At(sub, r.t, c)[n])]
    ensures !Injective(sub, delta.Keys)
  {
    assert r != r' by {
      assert r'.k.cols[c] != r.k.cols[c];
    }
    assert RenCols(sub, r.t, r.k.cols) == RenCols(sub, r.t, r'.k.cols);
    assert RenRow(sub, r) == RenRow(sub, r');
  }
}
