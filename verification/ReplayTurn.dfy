/** The turn of one table in a replay that takes parents before children: from one closed form of base
    to the next, and exactly when base refuses.  It needs a base that satisfies its foreign keys and
    live delta rows that do, no more. */
module ReplayTurn {
  import opened Store
  import opened Cascade
  import opened Falls
  import opened Triggers
  import opened Replay

  predicate Stays(base: Image, delta: Delta, done: set<Table>, m: set<Mark>, r: RowId) {
    if r.t in done then Upserts(base, delta, r) && InTurn(r) !in m && (r in delta || Early(r) !in m)
    else r in base && Early(r) !in m
  }

  function AfterRow(fks: seq<FK>, base: Image, delta: Delta, done: set<Table>, m: set<Mark>, r: RowId): Cols
    requires r in delta || r in base
    requires r.t !in done ==> r in base
  {
    if r.t in done && r in delta then NullRefs(fks, r, delta[r].vals, TurnOf(m))
    else NullRefs(fks, r, base[r], Deleted(base, delta, done) + Both(m))
  }

  /** Base after the replay of the tables done. */
  function After(fks: seq<FK>, base: Image, delta: Delta, done: set<Table>): Image {
    var m := Marks(fks, base, delta, done);
    map r | r in base.Keys + delta.Keys && Stays(base, delta, done, m, r) :: AfterRow(fks, base, delta, done, m, r)
  }

  /** The live delta rows satisfy their foreign keys in the view, as a clean validation says. */
  ghost predicate NoneDangle(fks: seq<FK>, base: Image, delta: Delta) {
    forall r, fk :: r in delta && !delta[r].deleted && fk in fks ==> !Dangles(fk, r, delta[r].vals, View(base, delta))
  }

  /** Base and the live delta rows satisfy their foreign keys, and base rows do not repeat their key
      columns. */
  ghost predicate Valid(fks: seq<FK>, base: Image, delta: Delta) {
    && DistinctColumns(fks) && Integrity(fks, base) && NoneDangle(fks, base, delta)
    && forall x, c :: x in base && c in base[x] ==> !KeyHas(x.k, c)
  }

  // ----- References through SET NULL -----

  lemma NullRefsKeepsOthers(fks: seq<FK>, x: RowId, a: Cols, gone: set<RowId>, fk: FK, ys: set<RowId>)
    ensures RefTo(fk, x, NullRefs(fks, x, a, gone), ys) ==> RefTo(fk, x, a, ys)
    ensures DistinctColumns(fks) && fk in fks && (fk.rule != SetNull || KeyHas(x.k, fk.col)) ==>
      RefTo(fk, x, NullRefs(fks, x, a, gone), ys) == RefTo(fk, x, a, ys)
  {
  }

  lemma NullRefsTwice(fks: seq<FK>, x: RowId, a: Cols, g: set<RowId>, h: set<RowId>)
    ensures NullRefs(fks, x, NullRefs(fks, x, a, g), h) == NullRefs(fks, x, a, g + h)
  {
    var b := NullRefs(fks, x, a, g);
    forall c | c in a ensures NullRefs(fks, x, b, h)[c] == NullRefs(fks, x, a, g + h)[c] {
      if NullsColumn(fks, x, a, c, g) {
        assert NullsColumn(fks, x, a, c, g + h);
      } else if NullsColumn(fks, x, a, c, g + h) {
        var fk :| fk in fks && fk.rule == SetNull && fk.col == c && RefTo(fk, x, a, g + h);
        assert !RefTo(fk, x, a, g) && RefTo(fk, x, a, h) && RefTo(fk, x, b, h);
        assert NullsColumn(fks, x, b, c, h);
      } else if NullsColumn(fks, x, b, c, h) {
        var fk :| fk in fks && fk.rule == SetNull && fk.col == c && RefTo(fk, x, b, h);
        NullRefsKeepsOthers(fks, x, a, g, fk, h);
        assert RefTo(fk, x, a, g + h);
      }
    }
  }

  lemma NullRefsAgree(fks: seq<FK>, x: RowId, a: Cols, g: set<RowId>, h: set<RowId>)
    requires forall fk :: fk in fks && fk.rule == SetNull ==> RefTo(fk, x, a, g) == RefTo(fk, x, a, h)
    ensures NullRefs(fks, x, a, g) == NullRefs(fks, x, a, h)
  {
    hide RefTo;
    forall c | c in a ensures NullsColumn(fks, x, a, c, g) == NullsColumn(fks, x, a, c, h) {
      if fk :| fk in fks && fk.rule == SetNull && fk.col == c && RefTo(fk, x, a, g) {
        assert RefTo(fk, x, a, h);
      }
      if fk :| fk in fks && fk.rule == SetNull && fk.col == c && RefTo(fk, x, a, h) {
        assert RefTo(fk, x, a, g);
      }
    }
  }

  lemma NullRefsOfNone(fks: seq<FK>, x: RowId, a: Cols, gone: set<RowId>)
    requires forall fk :: fk in fks ==> !RefTo(fk, x, a, gone)
    ensures NullRefs(fks, x, a, gone) == a
  {
  }

  // ----- The turn of one table -----

  function Upserting(fks: seq<FK>, base: Image, delta: Delta, done: set<Table>, t: Table): Image {
    Upserted(After(fks, base, delta, done), delta, t)
  }

  /** The rows that the delete of t takes with it. */
  function TakenAt(fks: seq<FK>, base: Image, delta: Delta, done: set<Table>, t: Table): set<RowId> {
    var b1 := Upserting(fks, base, delta, done, t);
    Reach(fks, b1, Doomed(b1, delta, t))
  }

  /** The columns a row has in that turn, but for what SET NULL took. */
  predicate IsNew(delta: Delta, done: set<Table>, x: RowId) {
    x.t in done && x in delta && !delta[x].deleted
  }

  function Basis(base: Image, delta: Delta, done: set<Table>, x: RowId): Cols {
    if IsNew(delta, done, x) then delta[x].vals else if x in base then base[x] else map[]
  }

  predicate There(base: Image, delta: Delta, done: set<Table>, t: Table, m: set<Mark>, x: RowId) {
    if x.t in done then Stays(base, delta, done, m, x)
    else IsNew(delta, {t}, x) || (x in base && Early(x) !in m)
  }

  /** What is in base between the upsert and the delete of t. */
  lemma DuringTurn(fks: seq<FK>, base: Image, delta: Delta, done: set<Table>, t: Table, x: RowId)
    requires t !in done
    ensures
      var b1, m := Upserting(fks, base, delta, done, t), Marks(fks, base, delta, done);
      && (x in b1 <==> There(base, delta, done, t, m, x))
      && (x in b1 && !IsNew(delta, done + {t}, x) ==>
          x in base && b1[x] == NullRefs(fks, x, base[x], Deleted(base, delta, done) + Both(m)))
      && (x in b1 && IsNew(delta, {t}, x) ==> b1[x] == delta[x].vals)
      && (x in b1 && IsNew(delta, done, x) ==> b1[x] == NullRefs(fks, x, delta[x].vals, TurnOf(m)))
  {
    hide Marks, NullRefs, Deleted;
  }

  /** A row's references are those of its basis, fewer by SET NULL. */
  lemma RefsDuringTurn(fks: seq<FK>, base: Image, delta: Delta, done: set<Table>, t: Table, x: RowId, fk: FK,
                       ys: set<RowId>)
    requires t !in done && x in Upserting(fks, base, delta, done, t)
    ensures
      var b1, basis := Upserting(fks, base, delta, done, t), Basis(base, delta, done + {t}, x);
      && (RefTo(fk, x, b1[x], ys) ==> RefTo(fk, x, basis, ys))
      && (DistinctColumns(fks) && fk in fks && (fk.rule != SetNull || KeyHas(x.k, fk.col)) ==>
          RefTo(fk, x, b1[x], ys) == RefTo(fk, x, basis, ys))
  {
    DuringTurn(fks, base, delta, done, t, x);
    var m := Marks(fks, base, delta, done);
    if IsNew(delta, done, x) {
      NullRefsKeepsOthers(fks, x, delta[x].vals, TurnOf(m), fk, ys);
    } else if x in base {
      NullRefsKeepsOthers(fks, x, base[x], Deleted(base, delta, done) + Both(m), fk, ys);
    }
    hide Marks, NullRefs, Upserting, RefTo, DistinctColumns;
  }

  lemma FollowsDuringTurn(fks: seq<FK>, base: Image, delta: Delta, done: set<Table>, t: Table, own: bool, x: RowId,
                          ys: set<RowId>)
    requires t !in done && x in Upserting(fks, base, delta, done, t) && DistinctColumns(fks)
    ensures Follows(fks, own, x, Upserting(fks, base, delta, done, t)[x], ys) <==>
      Follows(fks, own, x, Basis(base, delta, done + {t}, x), ys)
  {
    var b1, basis := Upserting(fks, base, delta, done, t), Basis(base, delta, done + {t}, x);
    hide Upserting, Basis, RefTo, DistinctColumns;
    forall fk | fk in fks && fk.rule == Rule.Cascade ensures RefTo(fk, x, b1[x], ys) == RefTo(fk, x, basis, ys) {
      RefsDuringTurn(fks, base, delta, done, t, x, fk, ys);
    }
    if Follows(fks, own, x, b1[x], ys) {
      var fk :| fk in fks && fk.rule == Rule.Cascade && (fk.ref == fk.src) == own && RefTo(fk, x, b1[x], ys);
    }
    if Follows(fks, own, x, basis, ys) {
      var fk :| fk in fks && fk.rule == Rule.Cascade && (fk.ref == fk.src) == own && RefTo(fk, x, basis, ys);
    }
  }

  /** CASCADE is one of the two kinds of reference. */
  lemma CascadesMeansFollows(fks: seq<FK>, x: RowId, vals: Cols, ys: set<RowId>)
    ensures CascadesInto(fks, x, vals, ys) <==> Follows(fks, false, x, vals, ys) || Follows(fks, true, x, vals, ys)
  {
    hide RefTo;
    if CascadesInto(fks, x, vals, ys) {
      var fk :| fk in fks && fk.rule == Rule.Cascade && RefTo(fk, x, vals, ys);
      assert Follows(fks, fk.ref == fk.src, x, vals, ys);
    }
  }

  lemma TakenIsClosed(fks: seq<FK>, base: Image, delta: Delta, done: set<Table>, t: Table)
    ensures Closed(fks, Upserting(fks, base, delta, done, t), TakenAt(fks, base, delta, done, t))
    ensures Doomed(Upserting(fks, base, delta, done, t), delta, t) <= TakenAt(fks, base, delta, done, t)
    ensures TakenAt(fks, base, delta, done, t) <= Upserting(fks, base, delta, done, t).Keys
  {
    var b1 := Upserting(fks, base, delta, done, t);
    ReachIsLeastClosed(fks, b1, Doomed(b1, delta, t));
    hide Reach, Upserting;
  }

  /** The references of a live delta row are to rows of the view. */
  lemma LiveRowRefers(fks: seq<FK>, base: Image, delta: Delta, r: RowId, fk: FK, ys: set<RowId>)
    requires NoneDangle(fks, base, delta) && r in delta && !delta[r].deleted && fk in fks
    requires RefTo(fk, r, delta[r].vals, ys)
    ensures RefTo(fk, r, delta[r].vals, ys * View(base, delta).Keys)
  {
    assert !Dangles(fk, r, delta[r].vals, View(base, delta));
    hide View;
  }

  // ----- At most what the marks say is taken -----

  /** What t's turn is due to take. */
  function Due(fks: seq<FK>, base: Image, delta: Delta, done: set<Table>, t: Table): set<RowId> {
    var m := Marks(fks, base, delta, done + {t});
    Deleted(base, delta, {t}) + (set x | x in TurnOf(m) && x.t == t) + set x | x in EarlyOf(m) && x.t !in done + {t}
  }

  lemma DueIs(fks: seq<FK>, base: Image, delta: Delta, done: set<Table>, t: Table, x: RowId)
    ensures
      var m := Marks(fks, base, delta, done + {t});
      x in Due(fks, base, delta, done, t) <==>
        || x in Deleted(base, delta, {t})
        || (x.t == t && InTurn(x) in m)
        || (x.t !in done + {t} && Early(x) in m)
  {
    hide Marks, Deleted;
  }

  lemma DueFollows(fks: seq<FK>, base: Image, delta: Delta, done: set<Table>, t: Table, own: bool, x: RowId, vals: Cols)
    requires MayFollow(fks, done, t) && Follows(fks, own, x, vals, Due(fks, base, delta, done, t))
    ensures x.t !in done
    ensures x.t == t ==> own
    ensures
      var m, gone := Marks(fks, base, delta, done + {t}), Deleted(base, delta, done + {t});
      if x.t == t then Follows(fks, own, x, vals, gone + TurnOf(m))
      else if own then Follows(fks, own, x, vals, EarlyOf(m)) else Follows(fks, own, x, vals, gone + Both(m))
  {
    var m, gone := Marks(fks, base, delta, done + {t}), Deleted(base, delta, done + {t});
    var due := Due(fks, base, delta, done, t);
    var fk :| fk in fks && fk.rule == Rule.Cascade && (fk.ref == fk.src) == own && RefTo(fk, x, vals, due);
    var y := RowId(fk.ref, Id(Val(x, vals, fk.col).n));
    DueIs(fks, base, delta, done, t, y);
    hide Marks, Due;
    assert y in Deleted(base, delta, {t}) ==> y in gone && y.t == t;
    assert RefTo(fk, x, vals, if x.t == t then gone + TurnOf(m) else if own then EarlyOf(m) else gone + Both(m));
  }

  lemma CascadeIsDue(fks: seq<FK>, base: Image, delta: Delta, done: set<Table>, t: Table, own: bool, x: RowId)
    requires Valid(fks, base, delta) && MayFollow(fks, done, t) && x in Upserting(fks, base, delta, done, t)
    requires Follows(fks, own, x, Upserting(fks, base, delta, done, t)[x], Due(fks, base, delta, done, t))
    ensures x in Due(fks, base, delta, done, t)
  {
    hide Marks, Due, Upserting, Follows, Integrity, NoneDangle;
    FollowsDuringTurn(fks, base, delta, done, t, own, x, Due(fks, base, delta, done, t));
    DueFollows(fks, base, delta, done, t, own, x, Basis(base, delta, done + {t}, x));
    DuringTurn(fks, base, delta, done, t, x);
    MarksAreLeast(fks, base, delta, done + {t});
    DueIs(fks, base, delta, done, t, x);
  }

  lemma TakenIsDue(fks: seq<FK>, base: Image, delta: Delta, done: set<Table>, t: Table)
    requires Valid(fks, base, delta) && MayFollow(fks, done, t)
    ensures TakenAt(fks, base, delta, done, t) <= Due(fks, base, delta, done, t)
  {
    var b1, due := Upserting(fks, base, delta, done, t), Due(fks, base, delta, done, t);
    assert t !in done;
    hide Reach, Due, Follows, Valid, MayFollow, Upserting, CascadesInto;
    ReachIsLeastClosed(fks, b1, Doomed(b1, delta, t));
    forall r | r in Doomed(b1, delta, t) ensures r in due {
      DoomedIsDeleted(fks, base, delta, done, t, r);
      DueIs(fks, base, delta, done, t, r);
    }
    forall x | x in b1 && CascadesInto(fks, x, b1[x], due) ensures x in due {
      CascadesMeansFollows(fks, x, b1[x], due);
      CascadeIsDue(fks, base, delta, done, t, Follows(fks, true, x, b1[x], due), x);
    }
  }

  lemma DoomedIsDeleted(fks: seq<FK>, base: Image, delta: Delta, done: set<Table>, t: Table, p: RowId)
    requires t !in done
    ensures p in Doomed(Upserting(fks, base, delta, done, t), delta, t)
      <==> p in Deleted(base, delta, {t}) && Early(p) !in Marks(fks, base, delta, done)
  {
    DuringTurn(fks, base, delta, done, t, p);
    hide Upserting, Marks, NullRefs;
  }

  // ----- At least what the marks say is taken -----

  /** The tables done and the order are right, and base accepts the upsert of t. */
  ghost predicate Fits(fks: seq<FK>, base: Image, delta: Delta, done: set<Table>, t: Table) {
    && Valid(fks, base, delta) && MayFollow(fks, done, t)
    && !UpsertDangles(fks, Upserting(fks, base, delta, done, t), delta, t)
  }

  /** The marks that t's turn has made good. */
  function MadeGood(fks: seq<FK>, base: Image, delta: Delta, done: set<Table>, t: Table): set<Mark> {
    var m, taken := Marks(fks, base, delta, done), TakenAt(fks, base, delta, done, t);
    m + (set x | x in taken && x.t !in done + {t} :: Early(x))
      + (set x | x in taken + (EarlyOf(m) - delta.Keys) && x.t == t :: InTurn(x))
  }

  lemma MadeGoodIs(fks: seq<FK>, base: Image, delta: Delta, done: set<Table>, t: Table, x: RowId)
    requires t !in done
    ensures
      var m, taken, good := Marks(fks, base, delta, done), TakenAt(fks, base, delta, done, t), MadeGood(fks, base,
                                  delta, done, t);
      && (Early(x) in good <==> Early(x) in m || (x in taken && x.t !in done + {t}))
      && (InTurn(x) in good <==> InTurn(x) in m || (x.t == t && (x in taken || (Early(x) in m && x !in delta))))
      && (InTurn(x) in m ==> x.t in done)
  {
    WhereMarksAre(fks, base, delta, done);
    hide Marks, TakenAt;
  }

  lemma FollowsOneOf(fks: seq<FK>, own: bool, x: RowId, vals: Cols, ys: set<RowId>, a: set<RowId>, b: set<RowId>)
    requires Follows(fks, own, x, vals, ys)
    requires forall y :: y in ys && (own ==> y.t == x.t) ==> y in a || y in b
    ensures Follows(fks, own, x, vals, a) || Follows(fks, own, x, vals, b)
  {
    var fk :| fk in fks && fk.rule == Rule.Cascade && (fk.ref == fk.src) == own && RefTo(fk, x, vals, ys);
    assert RefTo(fk, x, vals, a) || RefTo(fk, x, vals, b);
  }

  /** A row that is there and follows what is taken is taken. */
  lemma FollowerIsTaken(fks: seq<FK>, base: Image, delta: Delta, done: set<Table>, t: Table, own: bool, x: RowId)
    requires DistinctColumns(fks) && t !in done && x in Upserting(fks, base, delta, done, t)
    requires Follows(fks, own, x, Basis(base, delta, done + {t}, x), TakenAt(fks, base, delta, done, t))
    ensures x in TakenAt(fks, base, delta, done, t)
  {
    var taken, b1 := TakenAt(fks, base, delta, done, t), Upserting(fks, base, delta, done, t);
    hide TakenAt, Upserting, Follows, DistinctColumns, Basis, CascadesInto;
    FollowsDuringTurn(fks, base, delta, done, t, own, x, taken);
    CascadesMeansFollows(fks, x, b1[x], taken);
    TakenIsClosed(fks, base, delta, done, t);
  }

  /** The rows that a later row may follow into its fall have fallen before or are taken now. */
  lemma GoodIsFallenOrTaken(fks: seq<FK>, base: Image, delta: Delta, done: set<Table>, t: Table, y: RowId)
    requires t !in done
    ensures
      var m, taken, good := Marks(fks, base, delta, done), TakenAt(fks, base, delta, done, t), MadeGood(fks, base,
                                  delta, done, t);
      && (y in Deleted(base, delta, done + {t}) + Both(good) ==>
          y in Deleted(base, delta, done) + Both(m) || y in taken)
      && (y in EarlyOf(good) ==> y in EarlyOf(m) || y in taken)
      && (y in Deleted(base, delta, done + {t}) + TurnOf(good) && y.t == t ==> y in EarlyOf(m) || y in taken)
  {
    MadeGoodIs(fks, base, delta, done, t, y);
    DoomedIsDeleted(fks, base, delta, done, t, y);
    TakenIsClosed(fks, base, delta, done, t);
    assert y in Deleted(base, delta, done + {t}) ==> y in Deleted(base, delta, done) || y in Deleted(base, delta, {t});
    assert y in Deleted(base, delta, done) ==> y.t in done;
    hide Marks, TakenAt, MadeGood, Upserting, Deleted, Doomed;
  }

  lemma EarlyIsGood(fks: seq<FK>, base: Image, delta: Delta, done: set<Table>, t: Table, own: bool, x: RowId)
    requires Valid(fks, base, delta) && MayFollow(fks, done, t) && x in base && x.t !in done + {t}
    requires
      var good := MadeGood(fks, base, delta, done, t);
      Follows(fks, own, x, base[x], if own then EarlyOf(good) else Deleted(base, delta, done + {t}) + Both(good))
    ensures Early(x) in Marks(fks, base, delta, done) || x in TakenAt(fks, base, delta, done, t)
  {
    var m, taken, good := Marks(fks, base, delta, done), TakenAt(fks, base, delta, done, t), MadeGood(fks, base, delta,
                                done, t);
    assert t !in done && DistinctColumns(fks);
    hide Marks, TakenAt, MadeGood, Follows, Deleted, Upserting, Valid, MayFollow, DistinctColumns;
    var ys := if own then EarlyOf(good) else Deleted(base, delta, done + {t}) + Both(good);
    var fallen := if own then EarlyOf(m) else Deleted(base, delta, done) + Both(m);
    forall y | y in ys ensures y in fallen || y in taken {
      GoodIsFallenOrTaken(fks, base, delta, done, t, y);
    }
    FollowsOneOf(fks, own, x, base[x], ys, fallen, taken);
    MarksAreLeast(fks, base, delta, done);
    if Early(x) !in m {
      DuringTurn(fks, base, delta, done, t, x);
      FollowerIsTaken(fks, base, delta, done, t, own, x);
    }
  }

  lemma EarlyOfDoneIsGood(fks: seq<FK>, base: Image, delta: Delta, done: set<Table>, t: Table, own: bool, x: RowId)
    requires Valid(fks, base, delta) && MayFollow(fks, done, t) && x in base && x.t in done + {t}
    requires
      var good := MadeGood(fks, base, delta, done, t);
      Follows(fks, own, x, base[x], if own then EarlyOf(good) else Deleted(base, delta, done + {t}) + Both(good))
    ensures Early(x) in Marks(fks, base, delta, done)
  {
    var m, good := Marks(fks, base, delta, done), MadeGood(fks, base, delta, done, t);
    hide Marks, MadeGood, Follows, Valid;
    forall y: RowId ensures y.t in done ==> (y in Both(good) <==> y in Both(m))
      ensures y.t in done + {t} ==> (y in EarlyOf(good) <==> y in EarlyOf(m))
    {
      MadeGoodIs(fks, base, delta, done, t, y);
    }
    MarksAreLeast(fks, base, delta, done);
    if own {
      StaysAmongDone(fks, done, t, own, x, base[x], EarlyOf(good), EarlyOf(m));
    } else {
      StaysAmongDone(fks, done, t, own, x, base[x], Deleted(base, delta, done + {t}) + Both(good),
                     Deleted(base, delta, done) + Both(m));
    }
  }

  lemma UntouchedInTurnIsGood(fks: seq<FK>, base: Image, delta: Delta, done: set<Table>, t: Table, x: RowId)
    requires Valid(fks, base, delta) && MayFollow(fks, done, t) && x in base && x !in delta && x.t == t
    requires Follows(fks, true, x, base[x],
                     Deleted(base, delta, done + {t}) + TurnOf(MadeGood(fks, base, delta, done, t)))
    ensures Early(x) in Marks(fks, base, delta, done) || x in TakenAt(fks, base, delta, done, t)
  {
    var m, taken, good := Marks(fks, base, delta, done), TakenAt(fks, base, delta, done, t), MadeGood(fks, base, delta,
                                done, t);
    assert t !in done && DistinctColumns(fks);
    hide Marks, TakenAt, MadeGood, Follows, Deleted, Upserting, Valid, MayFollow, DistinctColumns;
    var ys := Deleted(base, delta, done + {t}) + TurnOf(good);
    forall y | y in ys && y.t == t ensures y in EarlyOf(m) || y in taken {
      GoodIsFallenOrTaken(fks, base, delta, done, t, y);
    }
    FollowsOneOf(fks, true, x, base[x], ys, EarlyOf(m), taken);
    MarksAreLeast(fks, base, delta, done);
    if Early(x) !in m {
      DuringTurn(fks, base, delta, done, t, x);
      FollowerIsTaken(fks, base, delta, done, t, true, x);
    }
  }

  /** The upsert fits: what a live row of t references is there. */
  lemma ReferredIsThere(fks: seq<FK>, base: Image, delta: Delta, done: set<Table>, t: Table, x: RowId, fk: FK,
                        ys: set<RowId>)
    requires Fits(fks, base, delta, done, t) && LiveIn(delta, t, x) && fk in fks && RefTo(fk, x, delta[x].vals, ys)
    ensures RefTo(fk, x, delta[x].vals, ys * Upserting(fks, base, delta, done, t).Keys * View(base, delta).Keys)
  {
    LiveRowRefers(fks, base, delta, x, fk, ys);
    assert !Dangles(fk, x, delta[x].vals, Upserting(fks, base, delta, done, t));
    hide Upserting, View;
  }

  lemma LiveInTurnIsGood(fks: seq<FK>, base: Image, delta: Delta, done: set<Table>, t: Table, x: RowId)
    requires Fits(fks, base, delta, done, t) && LiveIn(delta, t, x)
    requires Follows(fks, true, x, delta[x].vals,
                     Deleted(base, delta, done + {t}) + TurnOf(MadeGood(fks, base, delta, done, t)))
    ensures x in TakenAt(fks, base, delta, done, t)
  {
    var m, taken, good := Marks(fks, base, delta, done), TakenAt(fks, base, delta, done, t), MadeGood(fks, base, delta,
                                done, t);
    var ys := Deleted(base, delta, done + {t}) + TurnOf(good);
    var fk :| fk in fks && fk.rule == Rule.Cascade && fk.ref == fk.src && RefTo(fk, x, delta[x].vals, ys);
    var y := RowId(fk.ref, Id(Val(x, delta[x].vals, fk.col).n));
    assert t !in done && DistinctColumns(fks);
    ReferredIsThere(fks, base, delta, done, t, x, fk, ys);
    hide Marks, TakenAt, MadeGood, Upserting, Fits, DistinctColumns;
    assert y.t == t && y in ys && y in View(base, delta) && y in Upserting(fks, base, delta, done, t);
    MadeGoodIs(fks, base, delta, done, t, y);
    DuringTurn(fks, base, delta, done, t, y);
    DuringTurn(fks, base, delta, done, t, x);
    assert y in taken;
    assert Follows(fks, true, x, delta[x].vals, taken);
    FollowerIsTaken(fks, base, delta, done, t, true, x);
  }

  lemma InTurnOfDoneIsGood(fks: seq<FK>, base: Image, delta: Delta, done: set<Table>, t: Table, x: RowId)
    requires Valid(fks, base, delta) && MayFollow(fks, done, t) && Upserts(base, delta, x) && x.t in done
    requires Follows(fks, true, x, Current(base, delta, x),
                     Deleted(base, delta, done + {t}) + TurnOf(MadeGood(fks, base, delta, done, t)))
    ensures InTurn(x) in Marks(fks, base, delta, done)
  {
    var m, good := Marks(fks, base, delta, done), MadeGood(fks, base, delta, done, t);
    hide Marks, MadeGood, Follows, Valid;
    forall y: RowId ensures y.t in done ==> (y in TurnOf(good) <==> y in TurnOf(m)) {
      MadeGoodIs(fks, base, delta, done, t, y);
    }
    MarksAreLeast(fks, base, delta, done);
    StaysAmongDone(fks, done, t, true, x, Current(base, delta, x), Deleted(base, delta, done + {t}) + TurnOf(good),
                   Deleted(base, delta, done) + TurnOf(m));
  }

  lemma GoodIsSettledAt(fks: seq<FK>, base: Image, delta: Delta, done: set<Table>, t: Table, x: RowId)
    requires Fits(fks, base, delta, done, t)
    ensures
      var good := MadeGood(fks, base, delta, done, t);
      && (FallsEarly(fks, base, delta, done + {t}, good, x) ==> Early(x) in good)
      && (FallsInTurn(fks, base, delta, done + {t}, good, x) ==> InTurn(x) in good)
  {
    var good := MadeGood(fks, base, delta, done, t);
    assert Valid(fks, base, delta) && MayFollow(fks, done, t) && t !in done;
    hide Marks, TakenAt, MadeGood, Follows, Deleted, Upserting, Valid, MayFollow, Fits;
    MadeGoodIs(fks, base, delta, done, t, x);
    if FallsEarly(fks, base, delta, done + {t}, good, x) {
      var own := Follows(fks, true, x, base[x], EarlyOf(good));
      if x.t in done + {t} {
        EarlyOfDoneIsGood(fks, base, delta, done, t, own, x);
      } else {
        EarlyIsGood(fks, base, delta, done, t, own, x);
      }
    }
    if FallsInTurn(fks, base, delta, done + {t}, good, x) {
      if x.t in done {
        InTurnOfDoneIsGood(fks, base, delta, done, t, x);
      } else if x in delta {
        LiveInTurnIsGood(fks, base, delta, done, t, x);
      } else {
        UntouchedInTurnIsGood(fks, base, delta, done, t, x);
      }
    }
  }

  /** All that t's turn is due to take it takes, and the marks say it. */
  lemma MarksAreMadeGood(fks: seq<FK>, base: Image, delta: Delta, done: set<Table>, t: Table)
    requires Fits(fks, base, delta, done, t)
    ensures Marks(fks, base, delta, done + {t}) <= MadeGood(fks, base, delta, done, t)
  {
    hide Marks, TakenAt, MadeGood, FallsEarly, FallsInTurn, Fits;
    forall x
      ensures FallsEarly(fks, base, delta, done + {t}, MadeGood(fks, base, delta, done, t), x) ==>
        Early(x) in MadeGood(fks, base, delta, done, t)
      ensures FallsInTurn(fks, base, delta, done + {t}, MadeGood(fks, base, delta, done, t), x) ==>
        InTurn(x) in MadeGood(fks, base, delta, done, t)
    {
      GoodIsSettledAt(fks, base, delta, done, t, x);
    }
    MarksAreLeast(fks, base, delta, done + {t});
  }

  /** Of the rows that are there, exactly those due are taken. */
  lemma TakenExactly(fks: seq<FK>, base: Image, delta: Delta, done: set<Table>, t: Table, x: RowId)
    requires Fits(fks, base, delta, done, t)
    ensures x in TakenAt(fks, base, delta, done, t) <==>
      x in Upserting(fks, base, delta, done, t) && x in Due(fks, base, delta, done, t)
  {
    assert Valid(fks, base, delta) && MayFollow(fks, done, t) && t !in done;
    hide Marks, TakenAt, MadeGood, Due, Upserting, Fits, Valid, MayFollow, Doomed;
    TakenIsDue(fks, base, delta, done, t);
    TakenIsClosed(fks, base, delta, done, t);
    MarksAreMadeGood(fks, base, delta, done, t);
    MadeGoodIs(fks, base, delta, done, t, x);
    DueIs(fks, base, delta, done, t, x);
    DuringTurn(fks, base, delta, done, t, x);
    DoomedIsDeleted(fks, base, delta, done, t, x);
  }

  lemma MarksAgree(fks: seq<FK>, base: Image, delta: Delta, done: set<Table>, t: Table, more: set<Table>, x: RowId)
    requires MayFollow(fks, done, t) && done <= more
    ensures
      var m, m' := Marks(fks, base, delta, done), Marks(fks, base, delta, more);
      && (x.t in done + {t} ==> (Early(x) in m <==> Early(x) in m'))
      && (x.t in done ==> (InTurn(x) in m <==> InTurn(x) in m'))
      && (Early(x) in m ==> Early(x) in m') && (InTurn(x) in m ==> InTurn(x) in m')
  {
    hide Marks, MayFollow;
    MarksGrow(fks, base, delta, done, more);
    MarksBefore(fks, base, delta, done, t, more);
  }

  /** The rows taken in t's turn, on the base as it then is, are those that the original base and the
      delta say. */
  lemma TakenTogether(fks: seq<FK>, base: Image, delta: Delta, done: set<Table>, t: Table)
    requires Fits(fks, base, delta, done, t)
    ensures TakenBy(fks, base, delta, done + {t})
      == TakenBy(fks, base, delta, done) + TakenAt(fks, base, delta, done, t)
  {
    assert MayFollow(fks, done, t) && t !in done;
    hide Marks, TakenAt, MadeGood, Due, Upserting, Fits, MayFollow;
    forall x
      ensures x in TakenBy(fks, base, delta, done + {t}) <==>
        x in TakenBy(fks, base, delta, done) + TakenAt(fks, base, delta, done, t)
    {
      MarksAreMadeGood(fks, base, delta, done, t);
      MadeGoodIs(fks, base, delta, done, t, x);
      MarksAgree(fks, base, delta, done, t, done + {t}, x);
      TakenExactly(fks, base, delta, done, t, x);
      DueIs(fks, base, delta, done, t, x);
      DoomedIsDeleted(fks, base, delta, done, t, x);
      TakenIsClosed(fks, base, delta, done, t);
      hide Doomed;
    }
  }

  lemma StaysAfterTurn(fks: seq<FK>, base: Image, delta: Delta, done: set<Table>, t: Table, x: RowId)
    requires Fits(fks, base, delta, done, t)
    ensures x in Upserting(fks, base, delta, done, t) && x !in TakenAt(fks, base, delta, done, t)
      <==> Stays(base, delta, done + {t}, Marks(fks, base, delta, done + {t}), x)
  {
    assert MayFollow(fks, done, t) && t !in done;
    hide Marks, TakenAt, Due, Upserting, Fits, MayFollow;
    MarksAgree(fks, base, delta, done, t, done + {t}, x);
    TakenExactly(fks, base, delta, done, t, x);
    DueIs(fks, base, delta, done, t, x);
    DuringTurn(fks, base, delta, done, t, x);
    WhereMarksAre(fks, base, delta, done);
  }

  /** Rows of t and the tables done reference none that a later turn takes. */
  lemma TakenIsNotDone(fks: seq<FK>, base: Image, delta: Delta, done: set<Table>, t: Table, y: RowId)
    requires Fits(fks, base, delta, done, t)
    ensures y in TakenAt(fks, base, delta, done, t) ==> y.t !in done
  {
    assert t !in done;
    hide Marks, TakenAt, Due, Upserting, Fits;
    TakenExactly(fks, base, delta, done, t, y);
    DueIs(fks, base, delta, done, t, y);
  }

  /** What a live row of t references is taken in the turn exactly when the marks say so. */
  lemma LiveReferenceTaken(fks: seq<FK>, base: Image, delta: Delta, done: set<Table>, t: Table, x: RowId, fk: FK)
    requires Fits(fks, base, delta, done, t) && LiveIn(delta, t, x) && fk in fks
    ensures RefTo(fk, x, delta[x].vals, TakenAt(fks, base, delta, done, t))
      <==> RefTo(fk, x, delta[x].vals, TurnOf(Marks(fks, base, delta, done + {t})))
    ensures RefTo(fk, x, delta[x].vals, TakenAt(fks, base, delta, done, t)) ==> fk.ref == t
  {
    var taken, fallen := TakenAt(fks, base, delta, done, t), TurnOf(Marks(fks, base, delta, done + {t}));
    if RefTo(fk, x, delta[x].vals, taken + fallen) {
      ReferredIsThere(fks, base, delta, done, t, x, fk, taken + fallen);
      var y := RowId(fk.ref, Id(Val(x, delta[x].vals, fk.col).n));
      assert y in Upserting(fks, base, delta, done, t) && y in View(base, delta);
      assert y.t == t || y.t in done;
      assert t !in done && MayFollow(fks, done, t);
      hide Marks, TakenAt, Due, Upserting, Fits, RefTo, MayFollow;
      TakenIsNotDone(fks, base, delta, done, t, y);
      TakenExactly(fks, base, delta, done, t, y);
      DueIs(fks, base, delta, done, t, y);
      DuringTurn(fks, base, delta, done, t, y);
      MarksAgree(fks, base, delta, done, t, done + {t}, y);
      assert y in taken <==> y in fallen;
    }
    hide Marks, TakenAt, Upserting, Fits;
  }

  lemma LiveRowOfDoneKeeps(fks: seq<FK>, base: Image, delta: Delta, done: set<Table>, t: Table, x: RowId, fk: FK)
    requires Fits(fks, base, delta, done, t) && IsNew(delta, done, x) && fk in fks
    ensures RefTo(fk, x, delta[x].vals, TurnOf(Marks(fks, base, delta, done)) + TakenAt(fks, base, delta, done, t))
      <==> RefTo(fk, x, delta[x].vals, TurnOf(Marks(fks, base, delta, done + {t})))
  {
    var m, m', taken := Marks(fks, base, delta, done), Marks(fks, base, delta, done + {t}), TakenAt(fks, base, delta,
                              done, t);
    if RefTo(fk, x, delta[x].vals, TurnOf(m) + taken + TurnOf(m')) {
      var y := RowId(fk.ref, Id(Val(x, delta[x].vals, fk.col).n));
      assert MayFollow(fks, done, t) && y.t in done;
      hide Marks, TakenAt, Fits, RefTo, MayFollow;
      TakenIsNotDone(fks, base, delta, done, t, y);
      MarksAgree(fks, base, delta, done, t, done + {t}, y);
    }
    hide Marks, TakenAt, Fits;
  }

  lemma ValueAfterTurn(fks: seq<FK>, base: Image, delta: Delta, done: set<Table>, t: Table, x: RowId)
    requires Fits(fks, base, delta, done, t) && x in Upserting(fks, base, delta, done, t)
    requires Stays(base, delta, done + {t}, Marks(fks, base, delta, done + {t}), x)
    ensures NullRefs(fks, x, Upserting(fks, base, delta, done, t)[x], TakenAt(fks, base, delta, done, t))
      == AfterRow(fks, base, delta, done + {t}, Marks(fks, base, delta, done + {t}), x)
  {
    var taken := TakenAt(fks, base, delta, done, t);
    var m, m' := Marks(fks, base, delta, done), Marks(fks, base, delta, done + {t});
    assert t !in done;
    hide Marks, TakenAt, Upserting, Fits, NullRefs, RefTo, Deleted;
    DuringTurn(fks, base, delta, done, t, x);
    if IsNew(delta, {t}, x) {
      forall fk | fk in fks && fk.rule == SetNull
        ensures RefTo(fk, x, delta[x].vals, taken) == RefTo(fk, x, delta[x].vals, TurnOf(m'))
      {
        LiveReferenceTaken(fks, base, delta, done, t, x, fk);
      }
      NullRefsAgree(fks, x, delta[x].vals, taken, TurnOf(m'));
    } else if IsNew(delta, done, x) {
      forall fk | fk in fks && fk.rule == SetNull
        ensures RefTo(fk, x, delta[x].vals, TurnOf(m) + taken) == RefTo(fk, x, delta[x].vals, TurnOf(m'))
      {
        LiveRowOfDoneKeeps(fks, base, delta, done, t, x, fk);
      }
      NullRefsTwice(fks, x, delta[x].vals, TurnOf(m), taken);
      NullRefsAgree(fks, x, delta[x].vals, TurnOf(m) + taken, TurnOf(m'));
    } else {
      TakenTogether(fks, base, delta, done, t);
      NullRefsTwice(fks, x, base[x], TakenBy(fks, base, delta, done), taken);
    }
  }

  lemma ReplayedTableIs(fks: seq<FK>, base: Image, delta: Delta, done: set<Table>, t: Table)
    ensures
      var b1, taken := Upserting(fks, base, delta, done, t), TakenAt(fks, base, delta, done, t);
      var replayed := ReplayedTable(fks, After(fks, base, delta, done), delta, t);
      && (forall x :: x in replayed <==> x in b1 && x !in taken)
      && (forall x :: x in replayed ==> replayed[x] == NullRefs(fks, x, b1[x], taken))
  {
    hide After, Reach, NullRefs, Upserted, Doomed;
  }

  /** The turn of t leads from one closed form to the next. */
  lemma AfterOneMore(fks: seq<FK>, base: Image, delta: Delta, done: set<Table>, t: Table)
    requires Fits(fks, base, delta, done, t)
    ensures ReplayedTable(fks, After(fks, base, delta, done), delta, t) == After(fks, base, delta, done + {t})
  {
    hide *;
    var replayed, after := ReplayedTable(fks, After(fks, base, delta, done), delta, t), After(fks, base, delta,
                                         done + {t});
    ReplayedTableIs(fks, base, delta, done, t);
    AfterIs(fks, base, delta, done + {t});
    forall x ensures x in replayed <==> x in after {
      StaysAfterTurn(fks, base, delta, done, t, x);
    }
    forall x | x in after ensures replayed[x] == after[x] {
      StaysAfterTurn(fks, base, delta, done, t, x);
      ValueAfterTurn(fks, base, delta, done, t, x);
    }
  }

  lemma AfterIs(fks: seq<FK>, base: Image, delta: Delta, done: set<Table>)
    ensures
      var m, after := Marks(fks, base, delta, done), After(fks, base, delta, done);
      && (forall x :: x in after <==> Stays(base, delta, done, m, x))
      && (forall x :: x in after ==> after[x] == AfterRow(fks, base, delta, done, m, x))
  {
    hide Marks, AfterRow;
  }

  // ----- When base refuses -----

  /** The rows whose loss a live row of t would notice when it is upserted. */
  function Missing(delta: Delta, t: Table, m: set<Mark>): set<RowId> {
    (EarlyOf(m) - delta.Keys) + set y | y in TurnOf(m) && y.t != t
  }

  lemma MissingIs(delta: Delta, t: Table, m: set<Mark>, y: RowId)
    ensures y in Missing(delta, t, m) <==> (Early(y) in m && y !in delta) || (InTurn(y) in m && y.t != t)
  {
  }

  /** A row of t that the branch wrote references a row that base's cascades have taken for good. */
  ghost predicate RefersToLost(fks: seq<FK>, delta: Delta, m: set<Mark>, t: Table) {
    exists r, fk :: LiveIn(delta, t, r) && fk in fks && RefTo(fk, r, delta[r].vals, Missing(delta, t, m))
  }

  lemma DanglesHere(fks: seq<FK>, base: Image, delta: Delta, done: set<Table>, t: Table, r: RowId, fk: FK)
    requires Valid(fks, base, delta) && MayFollow(fks, done, t) && LiveIn(delta, t, r) && fk in fks
    ensures Dangles(fk, r, delta[r].vals, Upserting(fks, base, delta, done, t))
      <==> RefTo(fk, r, delta[r].vals, Missing(delta, t, Marks(fks, base, delta, done)))
  {
    var b1, m := Upserting(fks, base, delta, done, t), Marks(fks, base, delta, done);
    assert !Dangles(fk, r, delta[r].vals, View(base, delta));
    if r.t == fk.src && Val(r, delta[r].vals, fk.col) != Null {
      var y := RowId(fk.ref, Id(Val(r, delta[r].vals, fk.col).n));
      assert y in View(base, delta) && (y.t == t || y.t in done) && t !in done;
      hide Marks, Upserting, Valid, MayFollow;
      DuringTurn(fks, base, delta, done, t, y);
      WhereMarksAre(fks, base, delta, done);
      assert y in b1 <==> y !in Missing(delta, t, m);
    }
    hide Marks, Upserting, Valid, MayFollow;
  }

  lemma DanglesIffReferredIsLost(fks: seq<FK>, base: Image, delta: Delta, done: set<Table>, t: Table)
    requires Valid(fks, base, delta) && MayFollow(fks, done, t)
    ensures UpsertDangles(fks, Upserting(fks, base, delta, done, t), delta, t)
      <==> RefersToLost(fks, delta, Marks(fks, base, delta, done), t)
  {
    var b1, m := Upserting(fks, base, delta, done, t), Marks(fks, base, delta, done);
    hide Upserting, Marks, Valid, MayFollow, Missing, RefTo, Dangles;
    forall r, fk | LiveIn(delta, t, r) && fk in fks
      ensures Dangles(fk, r, delta[r].vals, b1) <==> RefTo(fk, r, delta[r].vals, Missing(delta, t, m))
    {
      DanglesHere(fks, base, delta, done, t, r, fk);
    }
    if r, fk :| r in delta && LiveIn(delta, t, r) && fk in fks && Dangles(fk, r, delta[r].vals, b1) {
      assert RefTo(fk, r, delta[r].vals, Missing(delta, t, m));
    }
    if r, fk :| LiveIn(delta, t, r) && fk in fks && RefTo(fk, r, delta[r].vals, Missing(delta, t, m)) {
      assert Dangles(fk, r, delta[r].vals, b1);
    }
  }

  /** A row that stands as it is in base holds on, by its fk, to a row taken. */
  ghost predicate OldHolds(base: Image, delta: Delta, done: set<Table>, m: set<Mark>, x: RowId, fk: FK) {
    && x in base && Early(x) !in m && (x in delta ==> x.t !in done) && (x !in delta ==> InTurn(x) !in m)
    && RefTo(fk, x, base[x], Deleted(base, delta, done) + Both(m))
  }

  /** A row that the branch wrote holds on to a row of its own table that falls in the table's turn. */
  ghost predicate NewHolds(delta: Delta, done: set<Table>, m: set<Mark>, x: RowId, fk: FK) {
    IsNew(delta, done, x) && InTurn(x) !in m && fk.ref == fk.src && RefTo(fk, x, delta[x].vals, TurnOf(m))
  }

  ghost predicate HeldOn(fks: seq<FK>, base: Image, delta: Delta, done: set<Table>) {
    var m := Marks(fks, base, delta, done);
    exists x, fk :: fk in fks && Blocks(fk, x) &&
      (OldHolds(base, delta, done, m, x, fk) || NewHolds(delta, done, m, x, fk))
  }

  /** A row that stands after the turn but references what it takes is not of a table done. */
  lemma RefuserIsLater(fks: seq<FK>, base: Image, delta: Delta, done: set<Table>, t: Table, x: RowId, fk: FK,
                       vals: Cols)
    requires Fits(fks, base, delta, done, t) && fk in fks && RefTo(fk, x, vals, TakenAt(fks, base, delta, done, t))
    ensures x.t !in done && (x.t == t ==> fk.ref == t)
  {
    assert MayFollow(fks, done, t);
    var y := RowId(fk.ref, Id(Val(x, vals, fk.col).n));
    hide Fits, TakenAt;
    TakenIsNotDone(fks, base, delta, done, t, y);
  }

  lemma RefuserHolds(fks: seq<FK>, base: Image, delta: Delta, done: set<Table>, t: Table, x: RowId, fk: FK)
    requires Fits(fks, base, delta, done, t) && fk in fks
    requires x in Upserting(fks, base, delta, done, t) && x !in TakenAt(fks, base, delta, done, t)
    requires RefTo(fk, x, Upserting(fks, base, delta, done, t)[x], TakenAt(fks, base, delta, done, t))
    ensures
      var m := Marks(fks, base, delta, done + {t});
      OldHolds(base, delta, done + {t}, m, x, fk) || NewHolds(delta, done + {t}, m, x, fk)
  {
    var taken := TakenAt(fks, base, delta, done, t);
    assert t !in done;
    hide *;
    RefuserIsLater(fks, base, delta, done, t, x, fk, Upserting(fks, base, delta, done, t)[x]);
    RefsDuringTurn(fks, base, delta, done, t, x, fk, taken);
    StaysAfterTurn(fks, base, delta, done, t, x);
    DuringTurn(fks, base, delta, done, t, x);
    if IsNew(delta, {t}, x) {
      NewRefuser(fks, base, delta, done, t, x, fk);
    } else {
      OldRefuser(fks, base, delta, done, t, x, fk);
    }
  }

  lemma NewRefuser(fks: seq<FK>, base: Image, delta: Delta, done: set<Table>, t: Table, x: RowId, fk: FK)
    requires Fits(fks, base, delta, done, t) && fk in fks && IsNew(delta, {t}, x)
    requires Stays(base, delta, done + {t}, Marks(fks, base, delta, done + {t}), x)
    requires RefTo(fk, x, Basis(base, delta, done + {t}, x), TakenAt(fks, base, delta, done, t))
    ensures NewHolds(delta, done + {t}, Marks(fks, base, delta, done + {t}), x, fk)
  {
    LiveReferenceTaken(fks, base, delta, done, t, x, fk);
    assert fk.src == x.t;
    hide Fits, TakenAt, Marks, RefTo;
  }

  lemma OldRefuser(fks: seq<FK>, base: Image, delta: Delta, done: set<Table>, t: Table, x: RowId, fk: FK)
    requires Fits(fks, base, delta, done, t) && fk in fks && !IsNew(delta, {t}, x) && x.t !in done
    requires Stays(base, delta, done + {t}, Marks(fks, base, delta, done + {t}), x)
    requires RefTo(fk, x, Basis(base, delta, done + {t}, x), TakenAt(fks, base, delta, done, t))
    ensures OldHolds(base, delta, done + {t}, Marks(fks, base, delta, done + {t}), x, fk)
  {
    hide Fits, TakenAt, Marks, RefTo, Deleted;
    TakenTogether(fks, base, delta, done, t);
    RefersWithin(fk, x, base[x], TakenAt(fks, base, delta, done, t), TakenBy(fks, base, delta, done + {t}));
    WhereMarksAre(fks, base, delta, done + {t});
  }

  lemma RefersWithin(fk: FK, x: RowId, vals: Cols, ys: set<RowId>, zs: set<RowId>)
    requires ys <= zs
    ensures RefTo(fk, x, vals, ys) ==> RefTo(fk, x, vals, zs)
  {
  }

  lemma OldHolderRefuses(fks: seq<FK>, base: Image, delta: Delta, done: set<Table>, t: Table, x: RowId, fk: FK)
    requires Fits(fks, base, delta, done, t) && fk in fks && Blocks(fk, x)
    requires OldHolds(base, delta, done + {t}, Marks(fks, base, delta, done + {t}), x, fk)
    requires !OldHolds(base, delta, done, Marks(fks, base, delta, done), x, fk)
    ensures x in Upserting(fks, base, delta, done, t) && x !in TakenAt(fks, base, delta, done, t)
    ensures RefTo(fk, x, Upserting(fks, base, delta, done, t)[x], TakenAt(fks, base, delta, done, t))
  {
    var taken, m, m' := TakenAt(fks, base, delta, done, t), Marks(fks, base, delta, done), Marks(fks, base, delta,
                                done + {t});
    assert t !in done && MayFollow(fks, done, t) && DistinctColumns(fks);
    TakenTogether(fks, base, delta, done, t);
    MarksAgree(fks, base, delta, done, t, done + {t}, x);
    var y := RowId(fk.ref, Id(Val(x, base[x], fk.col).n));
    assert RefTo(fk, x, base[x], TakenBy(fks, base, delta, done) + taken);
    assert !RefTo(fk, x, base[x], TakenBy(fks, base, delta, done));
    assert RefTo(fk, x, base[x], taken) && y in taken;
    assert x.t in done ==> y.t in done;
    hide Marks, TakenAt, Upserting, Fits, Deleted, RefTo, DistinctColumns, MayFollow;
    TakenIsNotDone(fks, base, delta, done, t, y);
    HolderStands(fks, base, delta, done, t, x);
    RefsDuringTurn(fks, base, delta, done, t, x, fk, taken);
  }

  lemma HolderStands(fks: seq<FK>, base: Image, delta: Delta, done: set<Table>, t: Table, x: RowId)
    requires Fits(fks, base, delta, done, t) && x.t !in done
    requires
      var m' := Marks(fks, base, delta, done + {t});
      x in base && Early(x) !in m' && (x in delta ==> x.t != t) && (x !in delta ==> InTurn(x) !in m')
    ensures x in Upserting(fks, base, delta, done, t) && x !in TakenAt(fks, base, delta, done, t)
    ensures !IsNew(delta, done + {t}, x)
  {
    assert t !in done;
    hide Marks, TakenAt, Upserting, Fits, Due;
    MarksGrow(fks, base, delta, done, done + {t});
    DuringTurn(fks, base, delta, done, t, x);
    TakenExactly(fks, base, delta, done, t, x);
    DueIs(fks, base, delta, done, t, x);
  }

  lemma NewHolderRefuses(fks: seq<FK>, base: Image, delta: Delta, done: set<Table>, t: Table, x: RowId, fk: FK)
    requires Fits(fks, base, delta, done, t) && fk in fks && Blocks(fk, x)
    requires NewHolds(delta, done + {t}, Marks(fks, base, delta, done + {t}), x, fk)
    requires !NewHolds(delta, done, Marks(fks, base, delta, done), x, fk)
    ensures x in Upserting(fks, base, delta, done, t) && x !in TakenAt(fks, base, delta, done, t)
    ensures RefTo(fk, x, Upserting(fks, base, delta, done, t)[x], TakenAt(fks, base, delta, done, t))
  {
    var m, m' := Marks(fks, base, delta, done), Marks(fks, base, delta, done + {t});
    assert t !in done && MayFollow(fks, done, t) && DistinctColumns(fks);
    var y := RowId(fk.ref, Id(Val(x, delta[x].vals, fk.col).n));
    assert y in TurnOf(m') && y.t == x.t;
    assert y in TurnOf(m) ==> RefTo(fk, x, delta[x].vals, TurnOf(m));
    hide Marks, TakenAt, Upserting, Fits, RefTo, DistinctColumns, MayFollow, Due;
    MarksAgree(fks, base, delta, done, t, done + {t}, x);
    MarksAgree(fks, base, delta, done, t, done + {t}, y);
    LiveReferenceTaken(fks, base, delta, done, t, x, fk);
    DuringTurn(fks, base, delta, done, t, x);
    TakenExactly(fks, base, delta, done, t, x);
    DueIs(fks, base, delta, done, t, x);
    NewIsNotDeleted(base, delta, t, x);
  }

  lemma NewIsNotDeleted(base: Image, delta: Delta, t: Table, x: RowId)
    ensures x in delta && !delta[x].deleted ==> x !in Deleted(base, delta, {t})
  {
  }

  lemma RefusedIffHeldOn(fks: seq<FK>, base: Image, delta: Delta, done: set<Table>, t: Table)
    requires Fits(fks, base, delta, done, t) && !HeldOn(fks, base, delta, done)
    ensures HeldFromOutside(fks, Upserting(fks, base, delta, done, t),
                          Doomed(Upserting(fks, base, delta, done, t), delta, t))
      <==> HeldOn(fks, base, delta, done + {t})
  {
    var b1, taken := Upserting(fks, base, delta, done, t), TakenAt(fks, base, delta, done, t);
    var m, m' := Marks(fks, base, delta, done), Marks(fks, base, delta, done + {t});
    hide Marks, Reach, Upserting, Fits, OldHolds, NewHolds, Blocks, RefTo, Doomed;
    if HeldFromOutside(fks, b1, Doomed(b1, delta, t)) {
      var x, fk :| x in b1 && fk in fks && x !in taken && Blocks(fk, x) && RefTo(fk, x, b1[x], taken);
      RefuserHolds(fks, base, delta, done, t, x, fk);
    }
    if HeldOn(fks, base, delta, done + {t}) {
      var x, fk :| fk in fks && Blocks(fk, x)
        && (OldHolds(base, delta, done + {t}, m', x, fk) || NewHolds(delta, done + {t}, m', x, fk));
      if OldHolds(base, delta, done + {t}, m', x, fk) {
        OldHolderRefuses(fks, base, delta, done, t, x, fk);
      } else {
        NewHolderRefuses(fks, base, delta, done, t, x, fk);
      }
    }
  }
}
