/** The replay of the renamed delta is the renamed replay of the delta, statement by statement. */
module RenamedReplay {
  import opened Store
  import opened Cascade
  import opened Triggers
  import opened TableSort
  import opened Renaming
  import opened Remap
  import opened Replay
  import opened ReplayTurn
  import opened MergedView

  /** The delta d is d0 renamed by the remaps, over a base that is left alone. */
  ghost predicate Renames(fks: seq<FK>, remaps: Remaps, base: Image, d0: Delta, d: Delta) {
    && DistinctColumns(fks) && (forall fk :: fk in fks ==> fk.col != "id" && fk.ref in remaps)
    && Integrity(fks, base) && NoneDangle(fks, base, d0)
    && BaseApart(FullSub(fks, remaps), base, d0) && Renamed(FullSub(fks, remaps), d0, d)
  }

  function Known(base: Image, delta: Delta): set<RowId> {
    base.Keys + delta.Keys
  }

  function RenSet(sub: Sub, rows: set<RowId>): set<RowId> {
    set r | r in rows :: RenRow(sub, r)
  }

  // ----- Rows -----

  lemma KnownRow(sub: Sub, base: Image, d0: Delta, d: Delta, r: RowId)
    requires BaseApart(sub, base, d0) && Renamed(sub, d0, d) && r in Known(base, d0)
    ensures
      var r' := RenRow(sub, r);
      && r'.t == r.t && (r' in base <==> r in base) && (r in base ==> r' == r && RenCols(sub, r.t, base[r]) == base[r])
      && (r in d0 <==> r' in d)
      && (r in d0 ==> d[r'].deleted == d0[r].deleted && d[r'].vals == RenCols(sub, r.t, d0[r].vals))
  {
    RenRowKeepsTable(sub, r);
    RenEntryKeepsFlags(sub);
    hide RenRow, RenCols;
  }

  lemma KnownOrigin(sub: Sub, base: Image, d0: Delta, d: Delta, r': RowId) returns (r: RowId)
    requires BaseApart(sub, base, d0) && Renamed(sub, d0, d) && r' in Known(base, d)
    ensures r in Known(base, d0) && RenRow(sub, r) == r'
  {
    hide RenRow, RenCols;
    if r' in base {
      r := r';
    } else {
      r :| r in d0 && RenRow(sub, r) == r';
    }
  }

  lemma KnownApart(sub: Sub, base: Image, d0: Delta, d: Delta, r: RowId, s: RowId)
    requires BaseApart(sub, base, d0) && Renamed(sub, d0, d)
    requires r in Known(base, d0) && s in Known(base, d0) && RenRow(sub, r) == RenRow(sub, s)
    ensures r == s
  {
    hide RenRow, RenCols;
  }

  lemma InRenSet(sub: Sub, base: Image, d0: Delta, d: Delta, r: RowId, rows: set<RowId>)
    requires BaseApart(sub, base, d0) && Renamed(sub, d0, d) && r in Known(base, d0) && rows <= Known(base, d0)
    ensures RenRow(sub, r) in RenSet(sub, rows) <==> r in rows
  {
    hide RenRow, RenCols, BaseApart, Renamed;
    if RenRow(sub, r) in RenSet(sub, rows) {
      var s :| s in rows && RenRow(sub, s) == RenRow(sub, r);
      KnownApart(sub, base, d0, d, r, s);
    }
  }

  // ----- References -----

  /** What the row references is known. */
  ghost predicate RefersToKnown(fks: seq<FK>, base: Image, d0: Delta, x: RowId, vals: Cols) {
    forall fk :: fk in fks && x.t == fk.src && Val(x, vals, fk.col) != Null ==>
      Val(x, vals, fk.col).Int? && RowId(fk.ref, Id(Val(x, vals, fk.col).n)) in Known(base, d0)
  }

  lemma RenamedRefers(fks: seq<FK>, remaps: Remaps, base: Image, d0: Delta, d: Delta, x: RowId, vals: Cols, fk: FK,
                      ys: set<RowId>)
    requires Renames(fks, remaps, base, d0, d) && RefersToKnown(fks, base, d0, x, vals)
    requires fk in fks && ys <= Known(base, d0)
    ensures
      var sub := FullSub(fks, remaps);
      && RefTo(fk, RenRow(sub, x), RenCols(sub, x.t, vals), RenSet(sub, ys)) == RefTo(fk, x, vals, ys)
      && (Val(RenRow(sub, x), RenCols(sub, x.t, vals), fk.col) == Null <==> Val(x, vals, fk.col) == Null)
  {
    var sub, value := FullSub(fks, remaps), Val(x, vals, fk.col);
    RenamedValue(sub, x, vals, fk.col);
    RenRowKeepsTable(sub, x);
    if x.t == fk.src && value.Int? {
      RenamedReference(fks, remaps, fk, value.n);
      InRenSet(sub, base, d0, d, RowId(fk.ref, Id(value.n)), ys);
    }
    hide FullSub, RenRow, RenCols, DistinctColumns, Integrity, NoneDangle, BaseApart, Renamed;
  }

  lemma RenamedCascades(fks: seq<FK>, remaps: Remaps, base: Image, d0: Delta, d: Delta, x: RowId, vals: Cols,
                        ys: set<RowId>)
    requires Renames(fks, remaps, base, d0, d) && RefersToKnown(fks, base, d0, x, vals) && ys <= Known(base, d0)
    ensures
      var sub := FullSub(fks, remaps);
      CascadesInto(fks, RenRow(sub, x), RenCols(sub, x.t, vals), RenSet(sub, ys)) == CascadesInto(fks, x, vals, ys)
  {
    var sub := FullSub(fks, remaps);
    hide Renames, FullSub, RenRow, RenCols, RenSet, RefTo, RefersToKnown;
    forall fk | fk in fks
      ensures RefTo(fk, RenRow(sub, x), RenCols(sub, x.t, vals), RenSet(sub, ys)) == RefTo(fk, x, vals, ys)
    {
      RenamedRefers(fks, remaps, base, d0, d, x, vals, fk, ys);
    }
  }

  lemma RenamedNullRefs(fks: seq<FK>, remaps: Remaps, base: Image, d0: Delta, d: Delta, x: RowId, vals: Cols,
                        ys: set<RowId>)
    requires Renames(fks, remaps, base, d0, d) && RefersToKnown(fks, base, d0, x, vals) && ys <= Known(base, d0)
    ensures
      var sub := FullSub(fks, remaps);
      RenCols(sub, x.t, NullRefs(fks, x, vals, ys))
        == NullRefs(fks, RenRow(sub, x), RenCols(sub, x.t, vals), RenSet(sub, ys))
  {
    var sub := FullSub(fks, remaps);
    hide Renames, FullSub, RenRow, RenSet, RefTo, At, RefersToKnown;
    forall c
      ensures NullsColumn(fks, RenRow(sub, x), RenCols(sub, x.t, vals), c, RenSet(sub, ys))
        == NullsColumn(fks, x, vals, c, ys)
    {
      forall fk | fk in fks
        ensures RefTo(fk, RenRow(sub, x), RenCols(sub, x.t, vals), RenSet(sub, ys)) == RefTo(fk, x, vals, ys)
      {
        RenamedRefers(fks, remaps, base, d0, d, x, vals, fk, ys);
      }
      hide RenCols;
    }
    hide NullsColumn;
  }

  // ----- Base between two statements -----

  /** The rows are rows of base or of the delta, and what they reference is too. */
  ghost predicate Sane(fks: seq<FK>, base: Image, d0: Delta, b0: Image) {
    forall x :: x in b0 ==> x in Known(base, d0) && RefersToKnown(fks, base, d0, x, b0[x])
  }

  lemma SaneKeys(fks: seq<FK>, base: Image, d0: Delta, b0: Image)
    requires Sane(fks, base, d0, b0)
    ensures b0.Keys <= Known(base, d0)
  {
  }

  lemma BaseIsSane(fks: seq<FK>, base: Image, d0: Delta)
    requires Integrity(fks, base)
    ensures Sane(fks, base, d0, base)
  {
    forall x, fk | x in base && fk in fks && x.t == fk.src && Val(x, base[x], fk.col) != Null
      ensures Val(x, base[x], fk.col).Int? && RowId(fk.ref, Id(Val(x, base[x], fk.col).n)) in Known(base, d0)
    {
      assert !Dangles(fk, x, base[x], base);
    }
  }

  lemma UpsertedIsSane(fks: seq<FK>, base: Image, d0: Delta, b0: Image, t: Table)
    requires NoneDangle(fks, base, d0) && Sane(fks, base, d0, b0)
    ensures Sane(fks, base, d0, Upserted(b0, d0, t))
  {
    var u0 := Upserted(b0, d0, t);
    forall x | x in u0 ensures x in Known(base, d0) && RefersToKnown(fks, base, d0, x, u0[x]) {
      if LiveIn(d0, t, x) {
        forall fk | fk in fks && x.t == fk.src && Val(x, u0[x], fk.col) != Null
          ensures Val(x, u0[x], fk.col).Int? && RowId(fk.ref, Id(Val(x, u0[x], fk.col).n)) in Known(base, d0)
        {
          assert !Dangles(fk, x, d0[x].vals, View(base, d0));
        }
      } else {
        assert x in b0 && u0[x] == b0[x];
      }
    }
  }

  lemma NulledRefersToKnown(fks: seq<FK>, base: Image, d0: Delta, x: RowId, vals: Cols, gone: set<RowId>)
    requires RefersToKnown(fks, base, d0, x, vals)
    ensures RefersToKnown(fks, base, d0, x, NullRefs(fks, x, vals, gone))
  {
    var nulled := NullRefs(fks, x, vals, gone);
    forall fk | fk in fks && x.t == fk.src && Val(x, nulled, fk.col) != Null
      ensures Val(x, nulled, fk.col) == Val(x, vals, fk.col)
    {
    }
    hide NullRefs;
  }

  lemma DeletedIsSane(fks: seq<FK>, base: Image, d0: Delta, b0: Image, rows: set<RowId>)
    requires Sane(fks, base, d0, b0)
    ensures Sane(fks, base, d0, CascadeDelete(fks, b0, rows))
  {
    var left := CascadeDelete(fks, b0, rows);
    hide Reach, NullRefs, RefersToKnown;
    forall x | x in left ensures x in Known(base, d0) && RefersToKnown(fks, base, d0, x, left[x]) {
      NulledRefersToKnown(fks, base, d0, x, b0[x], Reach(fks, b0, rows));
    }
  }

  /** The two bases: that of the delta, and that of the renamed delta. */
  ghost predicate Twins(fks: seq<FK>, remaps: Remaps, base: Image, d0: Delta, d: Delta, b0: Image, b: Image) {
    Renames(fks, remaps, base, d0, d) && Sane(fks, base, d0, b0) && RenamedImage(FullSub(fks, remaps), b0, b)
  }

  lemma KeysOfTwin(sub: Sub, b0: Image, b: Image)
    requires RenamedImage(sub, b0, b)
    ensures b.Keys == RenSet(sub, b0.Keys)
  {
    hide RenRow, RenCols, Injective;
    forall r' ensures r' in b <==> r' in RenSet(sub, b0.Keys) {
      if r' in b {
        var r :| r in b0 && RenRow(sub, r) == r';
      }
    }
  }

  lemma CascadesMore(fks: seq<FK>, x: RowId, vals: Cols, ys: set<RowId>, more: set<RowId>)
    requires CascadesInto(fks, x, vals, ys) && ys <= more
    ensures CascadesInto(fks, x, vals, more)
  {
    var fk :| fk in fks && fk.rule == Rule.Cascade && RefTo(fk, x, vals, ys);
    assert RefTo(fk, x, vals, more);
  }

  lemma TwinRow(fks: seq<FK>, remaps: Remaps, base: Image, d0: Delta, d: Delta, b0: Image, b: Image, x: RowId)
    requires Twins(fks, remaps, base, d0, d, b0, b) && x in b0
    ensures
      var sub := FullSub(fks, remaps);
      && RenRow(sub, x) in b && b[RenRow(sub, x)] == RenCols(sub, x.t, b0[x])
      && x in Known(base, d0) && RefersToKnown(fks, base, d0, x, b0[x])
  {
    hide FullSub, RenRow, RenCols, Renames, RefersToKnown;
  }

  lemma TwinOrigin(fks: seq<FK>, remaps: Remaps, base: Image, d0: Delta, d: Delta, b0: Image, b: Image, x': RowId)
    returns (x: RowId)
    requires Twins(fks, remaps, base, d0, d, b0, b) && x' in b
    ensures x in b0 && RenRow(FullSub(fks, remaps), x) == x'
  {
    hide FullSub, RenRow, RenCols, Renames, Sane;
    x :| x in b0 && RenRow(FullSub(fks, remaps), x) == x';
  }

  lemma ReachIsKnown(fks: seq<FK>, base: Image, d0: Delta, b0: Image, s: set<RowId>)
    requires Sane(fks, base, d0, b0) && s <= Known(base, d0)
    ensures Reach(fks, b0, s) <= Known(base, d0)
  {
    ReachIsLeastClosed(fks, b0, s);
    SaneKeys(fks, base, d0, b0);
    hide Reach, Sane, Closed;
  }

  lemma RenamedReachesNoMore(fks: seq<FK>, remaps: Remaps, base: Image, d0: Delta, d: Delta, b0: Image, b: Image,
                             s: set<RowId>)
    requires Twins(fks, remaps, base, d0, d, b0, b) && s <= Known(base, d0)
    ensures Reach(fks, b, RenSet(FullSub(fks, remaps), s)) <= RenSet(FullSub(fks, remaps), Reach(fks, b0, s))
  {
    var sub, all := FullSub(fks, remaps), Reach(fks, b0, s);
    assert Sane(fks, base, d0, b0);
    hide *;
    ReachIsKnown(fks, base, d0, b0, s);
    ReachIsLeastClosed(fks, b0, s);
    ReachIsLeastClosed(fks, b, RenSet(sub, s));
    RenSetMore(sub, s, all);
    RenamedIsClosed(fks, remaps, base, d0, d, b0, b, all);
  }

  lemma RenamedReachesAll(fks: seq<FK>, remaps: Remaps, base: Image, d0: Delta, d: Delta, b0: Image, b: Image,
                          s: set<RowId>)
    requires Twins(fks, remaps, base, d0, d, b0, b) && s <= Known(base, d0)
    ensures RenSet(FullSub(fks, remaps), Reach(fks, b0, s)) <= Reach(fks, b, RenSet(FullSub(fks, remaps), s))
  {
    var sub := FullSub(fks, remaps);
    var all' := Reach(fks, b, RenSet(sub, s));
    assert BaseApart(sub, base, d0) && Renamed(sub, d0, d);
    hide *;
    ReachIsLeastClosed(fks, b0, s);
    ReachIsLeastClosed(fks, b, RenSet(sub, s));
    var back := set r | r in Known(base, d0) && RenRow(sub, r) in all';
    forall r | r in s ensures r in back {
      InRenSet(sub, base, d0, d, r, s);
    }
    InImage(sub, back, all');
    PulledBackIsClosed(fks, remaps, base, d0, d, b0, b, back, all');
    RenSetMore(sub, Reach(fks, b0, s), back);
  }

  /** What a delete reaches among the renamed rows is what it reaches, renamed. */
  lemma RenamedReach(fks: seq<FK>, remaps: Remaps, base: Image, d0: Delta, d: Delta, b0: Image, b: Image,
                     s: set<RowId>)
    requires Twins(fks, remaps, base, d0, d, b0, b) && s <= Known(base, d0)
    ensures Reach(fks, b0, s) <= Known(base, d0)
    ensures Reach(fks, b, RenSet(FullSub(fks, remaps), s)) == RenSet(FullSub(fks, remaps), Reach(fks, b0, s))
  {
    assert Sane(fks, base, d0, b0);
    hide *;
    ReachIsKnown(fks, base, d0, b0, s);
    RenamedReachesNoMore(fks, remaps, base, d0, d, b0, b, s);
    RenamedReachesAll(fks, remaps, base, d0, d, b0, b, s);
  }

  lemma RenSetMore(sub: Sub, a: set<RowId>, b: set<RowId>)
    requires a <= b
    ensures RenSet(sub, a) <= RenSet(sub, b)
  {
    hide RenRow;
  }

  lemma InImage(sub: Sub, rows: set<RowId>, image: set<RowId>)
    requires forall r :: r in rows ==> RenRow(sub, r) in image
    ensures RenSet(sub, rows) <= image
  {
    hide RenRow;
  }

  lemma RenamedIsClosed(fks: seq<FK>, remaps: Remaps, base: Image, d0: Delta, d: Delta, b0: Image, b: Image,
                        all: set<RowId>)
    requires Twins(fks, remaps, base, d0, d, b0, b) && all <= Known(base, d0) && Closed(fks, b0, all)
    ensures Closed(fks, b, RenSet(FullSub(fks, remaps), all))
  {
    var sub := FullSub(fks, remaps);
    assert Renames(fks, remaps, base, d0, d) && BaseApart(sub, base, d0) && Renamed(sub, d0, d);
    hide Twins, Renames, BaseApart, Renamed, FullSub, RenRow, RenCols, RenSet, CascadesInto, RefersToKnown;
    forall x' | x' in b && CascadesInto(fks, x', b[x'], RenSet(sub, all)) ensures x' in RenSet(sub, all) {
      var x := TwinOrigin(fks, remaps, base, d0, d, b0, b, x');
      TwinRow(fks, remaps, base, d0, d, b0, b, x);
      RenamedCascades(fks, remaps, base, d0, d, x, b0[x], all);
      InRenSet(sub, base, d0, d, x, all);
    }
  }

  lemma PulledBackIsClosed(fks: seq<FK>, remaps: Remaps, base: Image, d0: Delta, d: Delta, b0: Image, b: Image,
                           back: set<RowId>, all': set<RowId>)
    requires Twins(fks, remaps, base, d0, d, b0, b) && Closed(fks, b, all')
    requires back == (set r | r in Known(base, d0) && RenRow(FullSub(fks, remaps), r) in all')
    requires RenSet(FullSub(fks, remaps), back) <= all'
    ensures Closed(fks, b0, back)
  {
    var sub := FullSub(fks, remaps);
    assert Renames(fks, remaps, base, d0, d);
    hide Twins, Renames, FullSub, RenRow, RenCols, RenSet, CascadesInto, RefersToKnown, Known;
    forall x | x in b0 && CascadesInto(fks, x, b0[x], back) ensures x in back {
      TwinRow(fks, remaps, base, d0, d, b0, b, x);
      RenamedCascades(fks, remaps, base, d0, d, x, b0[x], back);
      CascadesMore(fks, RenRow(sub, x), b[RenRow(sub, x)], RenSet(sub, back), all');
    }
  }

  // ----- The two statements -----

  lemma RenamedUpsertedRow(fks: seq<FK>, remaps: Remaps, base: Image, d0: Delta, d: Delta, b0: Image, b: Image,
                           t: Table, x: RowId)
    requires Twins(fks, remaps, base, d0, d, b0, b) && x in Known(base, d0)
    ensures
      var sub, u0, u := FullSub(fks, remaps), Upserted(b0, d0, t), Upserted(b, d, t);
      && (x in u0 <==> RenRow(sub, x) in u)
      && (x in u0 ==> u[RenRow(sub, x)] == RenCols(sub, x.t, u0[x]))
      && (LiveIn(d0, t, x) <==> LiveIn(d, t, RenRow(sub, x)))
  {
    var sub := FullSub(fks, remaps);
    assert BaseApart(sub, base, d0) && Renamed(sub, d0, d) && Sane(fks, base, d0, b0) && RenamedImage(sub, b0, b);
    hide Twins, FullSub, RenRow, RenCols, BaseApart, Renamed, RefersToKnown;
    KnownRow(sub, base, d0, d, x);
    if RenRow(sub, x) in b {
      var y :| y in b0 && RenRow(sub, y) == RenRow(sub, x);
      KnownApart(sub, base, d0, d, x, y);
    }
  }

  lemma RenamedUpserted(fks: seq<FK>, remaps: Remaps, base: Image, d0: Delta, d: Delta, b0: Image, b: Image, t: Table)
    requires Twins(fks, remaps, base, d0, d, b0, b)
    ensures Twins(fks, remaps, base, d0, d, Upserted(b0, d0, t), Upserted(b, d, t))
  {
    var sub, u0, u := FullSub(fks, remaps), Upserted(b0, d0, t), Upserted(b, d, t);
    assert BaseApart(sub, base, d0) && Renamed(sub, d0, d) && Sane(fks, base, d0, b0);
    UpsertedIsSane(fks, base, d0, b0, t);
    SaneKeys(fks, base, d0, u0);
    assert u.Keys <= b.Keys + d.Keys;
    hide FullSub, RenRow, RenCols, BaseApart, Renamed, RefersToKnown, Upserted, Sane, Renames, Known;
    forall x | x in u0 ensures RenRow(sub, x) in u && u[RenRow(sub, x)] == RenCols(sub, x.t, u0[x]) {
      RenamedUpsertedRow(fks, remaps, base, d0, d, b0, b, t, x);
    }
    forall x' | x' in u ensures exists x :: x in u0 && RenRow(sub, x) == x' {
      var x: RowId;
      if x' in b {
        x := TwinOrigin(fks, remaps, base, d0, d, b0, b, x');
        TwinRow(fks, remaps, base, d0, d, b0, b, x);
      } else {
        KnownIs(base, d, x');
        x := KnownOrigin(sub, base, d0, d, x');
      }
      RenamedUpsertedRow(fks, remaps, base, d0, d, b0, b, t, x);
    }
    KnownIsInjective(sub, base, d0, d, u0.Keys);
    RenamedImageIs(sub, u0, u);
  }

  lemma KnownIs(base: Image, delta: Delta, x: RowId)
    ensures x in Known(base, delta) <==> x in base || x in delta
  {
  }

  lemma KnownIsInjective(sub: Sub, base: Image, d0: Delta, d: Delta, rows: set<RowId>)
    requires BaseApart(sub, base, d0) && Renamed(sub, d0, d) && rows <= Known(base, d0)
    ensures Injective(sub, rows)
  {
    hide RenRow, BaseApart, Renamed;
    forall r, s | r in rows && s in rows && RenRow(sub, r) == RenRow(sub, s) ensures r == s {
      KnownApart(sub, base, d0, d, r, s);
    }
  }

  /** A row of the one dangles exactly when its twin does. */
  lemma RenamedDangles(fks: seq<FK>, remaps: Remaps, base: Image, d0: Delta, d: Delta, b0: Image, b: Image, x: RowId,
                       fk: FK)
    requires Twins(fks, remaps, base, d0, d, b0, b) && x in b0 && fk in fks
    ensures Dangles(fk, RenRow(FullSub(fks, remaps), x), RenCols(FullSub(fks, remaps), x.t, b0[x]), b)
      <==> Dangles(fk, x, b0[x], b0)
  {
    var sub := FullSub(fks, remaps);
    TwinRow(fks, remaps, base, d0, d, b0, b, x);
    KeysOfTwin(sub, b0, b);
    SaneKeys(fks, base, d0, b0);
    RenamedRefers(fks, remaps, base, d0, d, x, b0[x], fk, b0.Keys);
    RenRowKeepsTable(sub, x);
    hide FullSub, RenRow, RenCols, RenSet, RefTo, Twins, RefersToKnown;
  }

  /** An upserted row dangles exactly when its twin does. */
  lemma RenamedLiveRow(fks: seq<FK>, remaps: Remaps, base: Image, d0: Delta, d: Delta, b0: Image, b: Image, t: Table,
                       x: RowId, fk: FK)
    requires Twins(fks, remaps, base, d0, d, b0, b) && x in d0 && fk in fks
    ensures
      var x', u0, u := RenRow(FullSub(fks, remaps), x), Upserted(b0, d0, t), Upserted(b, d, t);
      && (LiveIn(d0, t, x) <==> LiveIn(d, t, x'))
      && (LiveIn(d0, t, x) ==> (Dangles(fk, x, d0[x].vals, u0) <==> Dangles(fk, x', d[x'].vals, u)))
  {
    var sub, u0, u := FullSub(fks, remaps), Upserted(b0, d0, t), Upserted(b, d, t);
    assert BaseApart(sub, base, d0) && Renamed(sub, d0, d);
    assert LiveIn(d0, t, x) ==> x in u0 && u0[x] == d0[x].vals;
    KnownIs(base, d0, x);
    KnownRow(sub, base, d0, d, x);
    hide FullSub, RenRow, RenCols, BaseApart, Renamed, Upserted, Renames, Known, Dangles, Twins;
    RenamedUpsertedRow(fks, remaps, base, d0, d, b0, b, t, x);
    RenamedUpserted(fks, remaps, base, d0, d, b0, b, t);
    if LiveIn(d0, t, x) {
      RenamedDangles(fks, remaps, base, d0, d, u0, u, x, fk);
    }
  }

  lemma RenamedUpsertDangles(fks: seq<FK>, remaps: Remaps, base: Image, d0: Delta, d: Delta, b0: Image, b: Image,
                             t: Table)
    requires Twins(fks, remaps, base, d0, d, b0, b)
    ensures UpsertDangles(fks, Upserted(b, d, t), d, t) <==> UpsertDangles(fks, Upserted(b0, d0, t), d0, t)
  {
    var sub, u0, u := FullSub(fks, remaps), Upserted(b0, d0, t), Upserted(b, d, t);
    assert ComesFrom(sub, d0, d);
    hide FullSub, RenRow, Upserted, Dangles, Twins;
    if x, fk :| x in d0 && LiveIn(d0, t, x) && fk in fks && Dangles(fk, x, d0[x].vals, u0) {
      RenamedLiveRow(fks, remaps, base, d0, d, b0, b, t, x, fk);
      assert LiveIn(d, t, RenRow(sub, x)) && Dangles(fk, RenRow(sub, x), d[RenRow(sub, x)].vals, u);
    }
    if x', fk :| x' in d && LiveIn(d, t, x') && fk in fks && Dangles(fk, x', d[x'].vals, u) {
      var x :| x in d0 && RenRow(sub, x) == x';
      RenamedLiveRow(fks, remaps, base, d0, d, b0, b, t, x, fk);
    }
  }

  lemma RenamedDoomed(fks: seq<FK>, remaps: Remaps, base: Image, d0: Delta, d: Delta, b0: Image, b: Image, t: Table)
    requires Twins(fks, remaps, base, d0, d, b0, b)
    ensures Doomed(b0, d0, t) <= Known(base, d0)
    ensures Doomed(b, d, t) == RenSet(FullSub(fks, remaps), Doomed(b0, d0, t))
  {
    var sub := FullSub(fks, remaps);
    assert BaseApart(sub, base, d0) && Renamed(sub, d0, d) && Sane(fks, base, d0, b0);
    SaneKeys(fks, base, d0, b0);
    hide FullSub, RenRow, RenCols, BaseApart, Renamed, Renames, Known, Twins;
    forall x' | x' in Doomed(b, d, t) ensures x' in RenSet(sub, Doomed(b0, d0, t)) {
      var x := TwinOrigin(fks, remaps, base, d0, d, b0, b, x');
      KnownRow(sub, base, d0, d, x);
      assert x in Doomed(b0, d0, t);
    }
    forall x | x in Doomed(b0, d0, t) ensures RenRow(sub, x) in Doomed(b, d, t) {
      TwinRow(fks, remaps, base, d0, d, b0, b, x);
      KnownRow(sub, base, d0, d, x);
    }
    InImage(sub, Doomed(b0, d0, t), Doomed(b, d, t));
  }

  lemma KeyKeepsColumns(sub: Sub, x: RowId, c: Column)
    ensures KeyHas(RenRow(sub, x).k, c) == KeyHas(x.k, c)
  {
  }

  lemma RenamedHeld(fks: seq<FK>, remaps: Remaps, base: Image, d0: Delta, d: Delta, b0: Image, b: Image,
                    rows: set<RowId>)
    requires Twins(fks, remaps, base, d0, d, b0, b) && rows <= Known(base, d0)
    ensures HeldFromOutside(fks, b, RenSet(FullSub(fks, remaps), rows)) <==> HeldFromOutside(fks, b0, rows)
  {
    var sub, gone := FullSub(fks, remaps), Reach(fks, b0, rows);
    var gone' := Reach(fks, b, RenSet(sub, rows));
    assert Renames(fks, remaps, base, d0, d) && BaseApart(sub, base, d0) && Renamed(sub, d0, d);
    RenamedReach(fks, remaps, base, d0, d, b0, b, rows);
    hide Reach, FullSub, RenRow, RenCols, RenSet, BaseApart, Renamed, Renames, Known, Twins, RefTo, KeyHas;
    if x, fk :| x in b0 && fk in fks && x !in gone && Blocks(fk, x) && RefTo(fk, x, b0[x], gone) {
      TwinRow(fks, remaps, base, d0, d, b0, b, x);
      KeyKeepsColumns(sub, x, fk.col);
      InRenSet(sub, base, d0, d, x, gone);
      RenamedRefers(fks, remaps, base, d0, d, x, b0[x], fk, gone);
      var x' := RenRow(sub, x);
      assert x' in b && x' !in gone' && Blocks(fk, x') && RefTo(fk, x', b[x'], gone');
    }
    if x', fk :| x' in b && fk in fks && x' !in gone' && Blocks(fk, x') && RefTo(fk, x', b[x'], gone') {
      var x := TwinOrigin(fks, remaps, base, d0, d, b0, b, x');
      TwinRow(fks, remaps, base, d0, d, b0, b, x);
      KeyKeepsColumns(sub, x, fk.col);
      InRenSet(sub, base, d0, d, x, gone);
      RenamedRefers(fks, remaps, base, d0, d, x, b0[x], fk, gone);
      assert Blocks(fk, x);
    }
  }

  lemma LeftIs(fks: seq<FK>, v: Image, s: set<RowId>)
    ensures
      var left, gone := CascadeDelete(fks, v, s), Reach(fks, v, s);
      forall x :: (x in left <==> x in v && x !in gone) && (x in left ==> left[x] == NullRefs(fks, x, v[x], gone))
  {
    hide Reach, NullRefs;
  }

  lemma RenamedDelete(fks: seq<FK>, remaps: Remaps, base: Image, d0: Delta, d: Delta, b0: Image, b: Image,
                      rows: set<RowId>)
    requires Twins(fks, remaps, base, d0, d, b0, b) && rows <= Known(base, d0)
    ensures Twins(fks, remaps, base, d0, d, CascadeDelete(fks, b0, rows),
                  CascadeDelete(fks, b, RenSet(FullSub(fks, remaps), rows)))
  {
    var sub, gone := FullSub(fks, remaps), Reach(fks, b0, rows);
    var left, left' := CascadeDelete(fks, b0, rows), CascadeDelete(fks, b, RenSet(sub, rows));
    assert Renames(fks, remaps, base, d0, d) && BaseApart(sub, base, d0) && Renamed(sub, d0, d);
    DeletedIsSane(fks, base, d0, b0, rows);
    SaneKeys(fks, base, d0, left);
    LeftIs(fks, b0, rows);
    LeftIs(fks, b, RenSet(sub, rows));
    RenamedReach(fks, remaps, base, d0, d, b0, b, rows);
    KnownIsInjective(sub, base, d0, d, left.Keys);
    hide *;
    forall x | x in left ensures RenRow(sub, x) in left' && left'[RenRow(sub, x)] == RenCols(sub, x.t, left[x]) {
      TwinRow(fks, remaps, base, d0, d, b0, b, x);
      InRenSet(sub, base, d0, d, x, gone);
      RenamedNullRefs(fks, remaps, base, d0, d, x, b0[x], gone);
    }
    forall x' | x' in left' ensures exists x :: x in left && RenRow(sub, x) == x' {
      var x := TwinOrigin(fks, remaps, base, d0, d, b0, b, x');
      TwinRow(fks, remaps, base, d0, d, b0, b, x);
      InRenSet(sub, base, d0, d, x, gone);
    }
    RenamedImageIs(sub, left, left');
    TwinsAre(fks, remaps, base, d0, d, left, left');
  }

  lemma TwinsAre(fks: seq<FK>, remaps: Remaps, base: Image, d0: Delta, d: Delta, b0: Image, b: Image)
    ensures Twins(fks, remaps, base, d0, d, b0, b) <==>
      Renames(fks, remaps, base, d0, d) && Sane(fks, base, d0, b0) && RenamedImage(FullSub(fks, remaps), b0, b)
  {
  }

  // ----- The whole replay -----

  lemma RenamedTurn(fks: seq<FK>, remaps: Remaps, base: Image, d0: Delta, d: Delta, b0: Image, b: Image, t: Table)
    requires Twins(fks, remaps, base, d0, d, b0, b)
    ensures Accepts(fks, b, d, t) <==> Accepts(fks, b0, d0, t)
    ensures Twins(fks, remaps, base, d0, d, ReplayedTable(fks, b0, d0, t), ReplayedTable(fks, b, d, t))
  {
    var u0, u := Upserted(b0, d0, t), Upserted(b, d, t);
    hide Twins, Upserted, UpsertDangles, HeldFromOutside, Doomed, CascadeDelete, Known, RenSet, FullSub;
    RenamedUpserted(fks, remaps, base, d0, d, b0, b, t);
    RenamedUpsertDangles(fks, remaps, base, d0, d, b0, b, t);
    RenamedDoomed(fks, remaps, base, d0, d, u0, u, t);
    RenamedHeld(fks, remaps, base, d0, d, u0, u, Doomed(u0, d0, t));
    RenamedDelete(fks, remaps, base, d0, d, u0, u, Doomed(u0, d0, t));
  }

  lemma BaseIsItsTwin(fks: seq<FK>, remaps: Remaps, base: Image, d0: Delta, d: Delta)
    requires Renames(fks, remaps, base, d0, d)
    ensures Twins(fks, remaps, base, d0, d, base, base)
  {
    BaseIsSane(fks, base, d0);
    hide FullSub, RenRow, RenCols, Renamed, Integrity, NoneDangle;
  }

  /** Replaying the renamed delta is replaying the delta and renaming the result, in any order and with
      any foreign keys: base accepts the one exactly when it would accept the other. */
  lemma {:induction false} RenamedReplayAll(fks: seq<FK>, remaps: Remaps, base: Image, d0: Delta, d: Delta,
                                            order: seq<Table>)
    requires Renames(fks, remaps, base, d0, d)
    ensures
      var before, after := ReplayedAll(fks, base, d0, order), ReplayedAll(fks, base, d, order);
      && (before.Some? <==> after.Some?)
      && (before.Some? ==> Twins(fks, remaps, base, d0, d, before.value, after.value))
  {
    hide Renames, Twins, Accepts, ReplayedTable;
    if order == [] {
      BaseIsItsTwin(fks, remaps, base, d0, d);
    } else {
      var n := |order| - 1;
      RenamedReplayAll(fks, remaps, base, d0, d, order[..n]);
      var before, after := ReplayedAll(fks, base, d0, order[..n]), ReplayedAll(fks, base, d, order[..n]);
      if before.Some? {
        RenamedTurn(fks, remaps, base, d0, d, before.value, after.value, order[n]);
      }
    }
  }
}
