/** The exact outcome of a replay that takes parents before children: when base accepts it, what base
    holds afterwards, and when that is the branch's view. */
module ReplayOutcome {
  import opened Store
  import opened Cascade
  import opened Falls
  import opened Triggers
  import opened TableSort
  import opened Replay
  import opened ReplayTurn

  /** What the replay relies on to take parents first, and on valid data. */
  ghost predicate InOrder(fks: seq<FK>, base: Image, delta: Delta, order: seq<Table>) {
    && Valid(fks, base, delta)
    && (forall fk :: fk in fks ==> fk.src in order && fk.ref in order)
    && ParentsFirst(order, fks, order)
  }

  /** The untouched row neither falls nor loses a reference to base's own actions. */
  ghost predicate Keeps(fks: seq<FK>, base: Image, delta: Delta, tables: set<Table>, x: RowId)
    requires x in base
  {
    && x !in Both(Marks(fks, base, delta, tables))
    && forall fk :: fk in fks && fk.rule == SetNull && !KeyHas(x.k, fk.col) ==>
        !RefTo(fk, x, base[x], TakenBy(fks, base, delta, tables))
  }

  /** Nothing that the branch did not touch falls, or loses a reference, to base's own actions. */
  ghost predicate NothingLost(fks: seq<FK>, base: Image, delta: Delta, tables: set<Table>) {
    forall x :: x in base && x !in delta ==> Keeps(fks, base, delta, tables, x)
  }

  /** An untouched row is as it was exactly when base's actions leave it alone. */
  lemma UntouchedKeptIff(fks: seq<FK>, base: Image, delta: Delta, tables: set<Table>, x: RowId)
    requires x in base && x !in delta && forall c :: c in base[x] ==> !KeyHas(x.k, c)
    ensures
      var after := After(fks, base, delta, tables);
      (x in after && after[x] == base[x]) <==> Keeps(fks, base, delta, tables, x)
  {
    var taken := TakenBy(fks, base, delta, tables);
    AfterIs(fks, base, delta, tables);
    WhereMarksAre(fks, base, delta, tables);
    hide Marks, After, Deleted;
    if fk :| fk in fks && fk.rule == SetNull && !KeyHas(x.k, fk.col) && RefTo(fk, x, base[x], taken) {
      LostReferenceIsNulled(fks, x, base[x], taken, fk);
    } else {
      UntouchedKeepsReferences(fks, x, base[x], taken);
    }
  }

  lemma LostReferenceIsNulled(fks: seq<FK>, x: RowId, vals: Cols, gone: set<RowId>, fk: FK)
    requires fk in fks && fk.rule == SetNull && !KeyHas(x.k, fk.col) && RefTo(fk, x, vals, gone)
    ensures NullRefs(fks, x, vals, gone) != vals
  {
    assert fk.col in vals && NullsColumn(fks, x, vals, fk.col, gone);
    assert NullRefs(fks, x, vals, gone)[fk.col] == Null;
  }

  lemma UntouchedKeepsReferences(fks: seq<FK>, x: RowId, vals: Cols, gone: set<RowId>)
    requires forall c :: c in vals ==> !KeyHas(x.k, c)
    requires forall fk :: fk in fks && fk.rule == SetNull && !KeyHas(x.k, fk.col) ==> !RefTo(fk, x, vals, gone)
    ensures NullRefs(fks, x, vals, gone) == vals
  {
    hide RefTo, KeyHas;
  }

  /** When no untouched row falls, no row falls in the turn of its table. */
  lemma NoTurnMarks(fks: seq<FK>, base: Image, delta: Delta, tables: set<Table>)
    requires NoneDangle(fks, base, delta)
    requires forall x :: x in base && x !in delta ==> InTurn(x) !in Marks(fks, base, delta, tables)
    ensures TurnOf(Marks(fks, base, delta, tables)) == {}
  {
    hide Marks, Universe, FallsEarly, Deleted;
    MarksAreLeast(fks, base, delta, tables);
    var m := Marks(fks, base, delta, tables);
    var early := set k | k in m && k.Early?;
    assert Settled(fks, base, delta, tables, early) by {
      forall x
        ensures FallsEarly(fks, base, delta, tables, early, x) ==> Early(x) in early
        ensures FallsInTurn(fks, base, delta, tables, early, x) ==> InTurn(x) in early
      {
        FallsMore(fks, base, delta, tables, tables, early, m, x);
        if FallsInTurn(fks, base, delta, tables, early, x) {
          assert x in delta;
          assert TurnOf(early) == {};
          LiveFollowsNoDeleted(fks, base, delta, tables, x);
        }
      }
    }
    assert m <= early;
  }

  lemma LiveFollowsNoDeleted(fks: seq<FK>, base: Image, delta: Delta, tables: set<Table>, x: RowId)
    requires NoneDangle(fks, base, delta) && x in delta && !delta[x].deleted
    ensures !Follows(fks, true, x, delta[x].vals, Deleted(base, delta, tables) + {})
  {
    var gone := Deleted(base, delta, tables) + {};
    if fk :| fk in fks && fk.rule == Rule.Cascade && fk.ref == fk.src && RefTo(fk, x, delta[x].vals, gone) {
      LiveRowRefers(fks, base, delta, x, fk, gone);
    }
  }

  /** The replay shows the view exactly when nothing is lost. */
  lemma ShowsViewIff(fks: seq<FK>, base: Image, delta: Delta, tables: set<Table>)
    requires Valid(fks, base, delta) && forall r :: r in delta ==> r.t in tables
    ensures After(fks, base, delta, tables) == View(base, delta) <==> NothingLost(fks, base, delta, tables)
  {
    var after, view := After(fks, base, delta, tables), View(base, delta);
    AfterIs(fks, base, delta, tables);
    hide Marks, After, Deleted, NullRefs, Integrity, NoneDangle, DistinctColumns, KeyHas;
    forall x | x in base && x !in delta
      ensures (x in after && after[x] == base[x]) <==> Keeps(fks, base, delta, tables, x)
    {
      UntouchedKeptIff(fks, base, delta, tables, x);
    }
    if NothingLost(fks, base, delta, tables) {
      NoTurnMarks(fks, base, delta, tables);
      hide Keeps;
      forall x ensures x in after <==> x in view {
        if x in base && x !in delta {
          assert Keeps(fks, base, delta, tables, x);
        }
      }
      forall x | x in view ensures after[x] == view[x] {
        if x in delta {
          NullRefsOfNone(fks, x, delta[x].vals, {});
        } else {
          assert Keeps(fks, base, delta, tables, x);
        }
      }
    } else {
      var x :| x in base && x !in delta && !Keeps(fks, base, delta, tables, x);
      assert x in view && view[x] == base[x];
    }
  }

  /** Base accepts every statement of the replay. */
  ghost predicate Accepted(fks: seq<FK>, base: Image, delta: Delta, order: seq<Table>) {
    AcceptedUpTo(fks, base, delta, order, |order|)
  }

  ghost predicate AcceptedUpTo(fks: seq<FK>, base: Image, delta: Delta, order: seq<Table>, i: nat)
    requires i <= |order|
  {
    && (forall j :: 0 <= j < i ==> !RefersToLost(fks, delta, Marks(fks, base, delta, SetOf(order)), order[j]))
    && (forall j :: 0 <= j <= i ==> !HeldOn(fks, base, delta, SetOf(order[..j])))
  }

  lemma RefersToLostByThen(fks: seq<FK>, base: Image, delta: Delta, done: set<Table>, t: Table, more: set<Table>)
    requires MayFollow(fks, done, t) && done <= more
    ensures RefersToLost(fks, delta, Marks(fks, base, delta, done), t) <==>
      RefersToLost(fks, delta, Marks(fks, base, delta, more), t)
  {
    var m, m' := Marks(fks, base, delta, done), Marks(fks, base, delta, more);
    hide Marks;
    forall r, fk | LiveIn(delta, t, r) && fk in fks
      ensures RefTo(fk, r, delta[r].vals, Missing(delta, t, m)) <==> RefTo(fk, r, delta[r].vals, Missing(delta, t, m'))
    {
      if Val(r, delta[r].vals, fk.col).Int? {
        var y := RowId(fk.ref, Id(Val(r, delta[r].vals, fk.col).n));
        MarksAgree(fks, base, delta, done, t, more, y);
      }
    }
    hide Missing, RefTo, MayFollow;
    if r, fk :| LiveIn(delta, t, r) && fk in fks && RefTo(fk, r, delta[r].vals, Missing(delta, t, m)) {
      assert RefTo(fk, r, delta[r].vals, Missing(delta, t, m'));
    }
    if r, fk :| LiveIn(delta, t, r) && fk in fks && RefTo(fk, r, delta[r].vals, Missing(delta, t, m')) {
      assert RefTo(fk, r, delta[r].vals, Missing(delta, t, m));
    }
  }

  lemma Prefix(fks: seq<FK>, base: Image, delta: Delta, order: seq<Table>, i: nat)
    requires NoDuplicates(order) && InOrder(fks, base, delta, order) && i < |order|
    ensures MayFollow(fks, SetOf(order[..i]), order[i])
    ensures SetOf(order[..i + 1]) == SetOf(order[..i]) + {order[i]} && SetOf(order[..i]) <= SetOf(order)
  {
    var done := SetOf(order[..i]);
    assert order[..i + 1] == order[..i] + [order[i]];
    forall fk | fk in fks
      ensures (fk.src in done ==> fk.ref in done) && (fk.src == order[i] ==> fk.ref == order[i] || fk.ref in done)
    {
      if fk.src in done && fk.ref != fk.src {
        var k :| 0 <= k < i && order[k] == fk.src;
        assert Depends(order, fk);
        assert fk.ref in order[..k] && order[..k] <= order[..i];
      }
      if fk.src == order[i] && fk.ref != fk.src {
        assert Depends(order, fk);
      }
    }
  }

  /** The next table is accepted exactly when the conditions hold for one table more, and then the
      closed form does. */
  lemma NextTurn(fks: seq<FK>, base: Image, delta: Delta, order: seq<Table>, i: nat)
    requires NoDuplicates(order) && InOrder(fks, base, delta, order) && i < |order|
    requires AcceptedUpTo(fks, base, delta, order, i)
    ensures
      var b, t := After(fks, base, delta, SetOf(order[..i])), order[i];
      && (Accepts(fks, b, delta, t) <==> AcceptedUpTo(fks, base, delta, order, i + 1))
      && (Accepts(fks, b, delta, t) ==>
          ReplayedTable(fks, b, delta, t) == After(fks, base, delta, SetOf(order[..i + 1])))
  {
    var done, t := SetOf(order[..i]), order[i];
    Prefix(fks, base, delta, order, i);
    RefersToLostByThen(fks, base, delta, done, t, SetOf(order));
    DanglesIffReferredIsLost(fks, base, delta, done, t);
    if !UpsertDangles(fks, Upserting(fks, base, delta, done, t), delta, t) {
      RefusedIffHeldOn(fks, base, delta, done, t);
      AfterOneMore(fks, base, delta, done, t);
    }
    hide After, Marks, HeldOn, RefersToLost, UpsertDangles, HeldFromOutside, Doomed, ReplayedTable, ParentsFirst, Valid;
  }

  lemma NothingTaken(fks: seq<FK>, base: Image, delta: Delta)
    ensures Marks(fks, base, delta, {}) == {} && Deleted(base, delta, {}) == {}
  {
    assert Deleted(base, delta, {}) == {};
    MarksAreLeast(fks, base, delta, {});
    hide Marks, Deleted, Universe;
    assert Both({}) == {} && EarlyOf({}) == {} && TurnOf({}) == {};
    assert Settled(fks, base, delta, {}, {});
  }

  lemma NothingDone(fks: seq<FK>, base: Image, delta: Delta, order: seq<Table>)
    ensures SetOf(order[..0]) == {} && After(fks, base, delta, {}) == base && AcceptedUpTo(fks, base, delta, order, 0)
  {
    NothingTaken(fks, base, delta);
    AfterIs(fks, base, delta, {});
    hide Marks, Deleted, NullRefs, After;
    forall r | r in base ensures NullRefs(fks, r, base[r], {}) == base[r] {
      NullRefsOfNone(fks, r, base[r], {});
    }
    assert Both({}) == {} && TurnOf({}) == {} && Deleted(base, delta, {}) + Both({}) == {};
    assert !HeldOn(fks, base, delta, {});
    assert After(fks, base, delta, {}).Keys == base.Keys;
  }

  lemma AbsorbedIsDeleted(fks: seq<FK>, base: Image, delta: Delta, done: set<Table>)
    requires Valid(fks, base, delta) && Integrity(fks, View(base, delta)) && CascadesAbsorbed(fks, base, delta)
    ensures TurnOf(Marks(fks, base, delta, done)) == {}
    ensures TakenBy(fks, base, delta, done) <= Tombstones(delta)
  {
    var gone := Tombstones(delta);
    var m := set r | r in gone :: Early(r);
    assert EarlyOf(m) == gone && TurnOf(m) == {} && Both(m) == gone;
    assert Deleted(base, delta, done) <= gone;
    MarksAreLeast(fks, base, delta, done);
    hide Marks, Deleted, Universe, Integrity, Follows, CascadesAbsorbed, Valid, EarlyOf, TurnOf, Both;
    forall x
      ensures FallsEarly(fks, base, delta, done, m, x) ==> x in gone
      ensures !FallsInTurn(fks, base, delta, done, m, x)
    {
      if FallsEarly(fks, base, delta, done, m, x) {
        var own := Follows(fks, true, x, base[x], EarlyOf(m));
        FollowsMore(fks, own, x, base[x], if own then EarlyOf(m) else Deleted(base, delta, done) + Both(m), gone);
        AbsorbedFalls(fks, base, delta, own, x);
      }
      if FallsInTurn(fks, base, delta, done, m, x) {
        FollowsMore(fks, true, x, Current(base, delta, x), Deleted(base, delta, done) + TurnOf(m), gone);
        ViewFollowsNoTombstone(fks, base, delta, x);
      }
    }
    assert Settled(fks, base, delta, done, m);
  }

  lemma AbsorbedFalls(fks: seq<FK>, base: Image, delta: Delta, own: bool, x: RowId)
    requires Integrity(fks, View(base, delta)) && CascadesAbsorbed(fks, base, delta)
    requires x in base && Follows(fks, own, x, base[x], Tombstones(delta))
    ensures x in Tombstones(delta)
  {
    var fk :| fk in fks && fk.rule == Rule.Cascade && (fk.ref == fk.src) == own
      && RefTo(fk, x, base[x], Tombstones(delta));
    if x !in delta {
      ViewAvoidsTombstones(fks, base, delta, x, fk);
    }
  }

  lemma ViewFollowsNoTombstone(fks: seq<FK>, base: Image, delta: Delta, x: RowId)
    requires Integrity(fks, View(base, delta)) && Upserts(base, delta, x)
    ensures !Follows(fks, true, x, Current(base, delta, x), Tombstones(delta))
  {
    var vals, gone := Current(base, delta, x), Tombstones(delta);
    if fk :| fk in fks && fk.rule == Rule.Cascade && fk.ref == fk.src && RefTo(fk, x, vals, gone) {
      assert x in View(base, delta);
      ViewAvoidsTombstones(fks, base, delta, x, fk);
    }
  }

  /** Two simple conditions that are enough: no kept row cascaded, in base, from a deleted one, and
      no base row holds on to a deleted one. */
  lemma AbsorbedIsAccepted(fks: seq<FK>, base: Image, delta: Delta, order: seq<Table>)
    requires Valid(fks, base, delta) && Integrity(fks, View(base, delta)) && CascadesAbsorbed(fks, base, delta)
    ensures NothingLost(fks, base, delta, SetOf(order))
    ensures NothingHolds(fks, base, delta) ==> Accepted(fks, base, delta, order)
  {
    AbsorbedLosesNothing(fks, base, delta, SetOf(order));
    hide Marks, HeldOn, RefersToLost, NothingHolds, NothingLost, Integrity, CascadesAbsorbed, Valid;
    forall t ensures !RefersToLost(fks, delta, Marks(fks, base, delta, SetOf(order)), t) {
      AbsorbedIsNotReferred(fks, base, delta, SetOf(order), t);
    }
    forall done ensures NothingHolds(fks, base, delta) ==> !HeldOn(fks, base, delta, done) {
      AbsorbedIsNotHeld(fks, base, delta, done);
    }
  }

  lemma AbsorbedLosesNothing(fks: seq<FK>, base: Image, delta: Delta, tables: set<Table>)
    requires Valid(fks, base, delta) && Integrity(fks, View(base, delta)) && CascadesAbsorbed(fks, base, delta)
    ensures NothingLost(fks, base, delta, tables)
  {
    AbsorbedIsDeleted(fks, base, delta, tables);
    hide Marks, Deleted, Integrity, CascadesAbsorbed, Valid, RefTo;
    forall x | x in base && x !in delta ensures Keeps(fks, base, delta, tables, x) {
      forall fk | fk in fks ensures !RefTo(fk, x, base[x], TakenBy(fks, base, delta, tables)) {
        ViewAvoidsTombstones(fks, base, delta, x, fk);
        RefersWithin(fk, x, base[x], TakenBy(fks, base, delta, tables), Tombstones(delta));
      }
    }
  }

  lemma AbsorbedIsNotReferred(fks: seq<FK>, base: Image, delta: Delta, tables: set<Table>, t: Table)
    requires Valid(fks, base, delta) && Integrity(fks, View(base, delta)) && CascadesAbsorbed(fks, base, delta)
    ensures !RefersToLost(fks, delta, Marks(fks, base, delta, tables), t)
  {
    AbsorbedIsDeleted(fks, base, delta, tables);
    hide Marks, Deleted, Integrity, CascadesAbsorbed, Valid;
    assert Missing(delta, t, Marks(fks, base, delta, tables)) == {};
  }

  lemma AbsorbedIsNotHeld(fks: seq<FK>, base: Image, delta: Delta, done: set<Table>)
    requires Valid(fks, base, delta) && Integrity(fks, View(base, delta)) && CascadesAbsorbed(fks, base, delta)
    ensures NothingHolds(fks, base, delta) ==> !HeldOn(fks, base, delta, done)
  {
    AbsorbedIsDeleted(fks, base, delta, done);
    hide Marks, Deleted, Integrity, CascadesAbsorbed, Valid;
    forall x, fk | x in base && RefTo(fk, x, base[x], TakenBy(fks, base, delta, done))
      ensures RefTo(fk, x, base[x], Tombstones(delta))
    {
    }
  }

  // ----- Base keeps its integrity -----

  /** Base refuses exactly the upserts that would leave a dangling row. */
  lemma UpsertRefusedIff(fks: seq<FK>, b: Image, delta: Delta, t: Table)
    requires Integrity(fks, b)
    ensures UpsertDangles(fks, Upserted(b, delta, t), delta, t) <==> !Integrity(fks, Upserted(b, delta, t))
  {
    var b1 := Upserted(b, delta, t);
    if r, fk :| r in delta && LiveIn(delta, t, r) && fk in fks && Dangles(fk, r, delta[r].vals, b1) {
      assert b1[r] == delta[r].vals && Dangles(fk, r, b1[r], b1);
    } else {
      forall x, fk | x in b1 && fk in fks ensures !Dangles(fk, x, b1[x], b1) {
        if !LiveIn(delta, t, x) {
          assert !Dangles(fk, x, b[x], b);
        }
      }
    }
  }

  lemma CascadeKeepsIntegrity(fks: seq<FK>, b: Image, rows: set<RowId>)
    requires Integrity(fks, b) && !HeldFromOutside(fks, b, rows)
    requires forall fk :: fk in fks ==> fk.rule != SetDefault
    ensures Integrity(fks, CascadeDelete(fks, b, rows))
  {
    var b2, gone := CascadeDelete(fks, b, rows), Reach(fks, b, rows);
    ReachIsLeastClosed(fks, b, rows);
    hide Reach;
    forall x, fk | x in b2 && fk in fks ensures !Dangles(fk, x, b2[x], b2) {
      SurvivorDoesNotDangle(fks, b, rows, x, fk);
    }
  }

  lemma CascadeRefs(fks: seq<FK>, x: RowId, vals: Cols, fk: FK, ys: set<RowId>)
    requires fk in fks && fk.rule == Rule.Cascade
    ensures RefTo(fk, x, vals, ys) ==> CascadesInto(fks, x, vals, ys)
  {
  }

  lemma SurvivorDoesNotDangle(fks: seq<FK>, b: Image, rows: set<RowId>, x: RowId, fk: FK)
    requires Integrity(fks, b) && !HeldFromOutside(fks, b, rows) && fk in fks && fk.rule != SetDefault
    requires Closed(fks, b, Reach(fks, b, rows))
    requires x in b && x !in Reach(fks, b, rows)
    ensures !Dangles(fk, x, CascadeDelete(fks, b, rows)[x], CascadeDelete(fks, b, rows))
  {
    var gone := Reach(fks, b, rows);
    assert !Dangles(fk, x, b[x], b);
    hide Reach;
    if fk.rule == Rule.Cascade {
      CascadeRefs(fks, x, b[x], fk, gone);
    }
    assert Blocks(fk, x) ==> !RefTo(fk, x, b[x], gone);
    NullRefsKeepsOthers(fks, x, b[x], gone, fk, b.Keys - gone);
    assert RefTo(fk, x, b[x], gone) && fk.rule == SetNull ==> NullsColumn(fks, x, b[x], fk.col, gone);
  }

  /** An accepted replay of a table keeps base's integrity. */
  lemma ReplayedTableKeepsIntegrity(fks: seq<FK>, b: Image, delta: Delta, t: Table)
    requires Integrity(fks, b) && Accepts(fks, b, delta, t)
    requires forall fk :: fk in fks ==> fk.rule != SetDefault
    ensures Integrity(fks, ReplayedTable(fks, b, delta, t))
  {
    UpsertRefusedIff(fks, b, delta, t);
    CascadeKeepsIntegrity(fks, Upserted(b, delta, t), Doomed(Upserted(b, delta, t), delta, t));
    hide CascadeDelete, Upserted, Integrity, UpsertDangles, HeldFromOutside;
  }

  /** A row that holds on from outside would be left dangling. */
  lemma HolderDangles(fks: seq<FK>, b: Image, rows: set<RowId>)
    requires DistinctColumns(fks) && HeldFromOutside(fks, b, rows)
    ensures !Integrity(fks, CascadeDelete(fks, b, rows))
  {
    var b2, gone := CascadeDelete(fks, b, rows), Reach(fks, b, rows);
    var x, fk :| x in b && fk in fks && x !in gone && Blocks(fk, x) && RefTo(fk, x, b[x], gone);
    NullRefsKeepsOthers(fks, x, b[x], gone, fk, gone);
    hide Reach, NullRefs;
    assert b2[x] == NullRefs(fks, x, b[x], gone);
    assert Dangles(fk, x, b2[x], b2);
  }

  /** Base refuses exactly the deletes that, with all they cascade to and null, would leave a dangling
      row. */
  lemma DeleteRefusedIff(fks: seq<FK>, b: Image, rows: set<RowId>)
    requires Integrity(fks, b) && DistinctColumns(fks) && forall fk :: fk in fks ==> fk.rule != SetDefault
    ensures HeldFromOutside(fks, b, rows) <==> !Integrity(fks, CascadeDelete(fks, b, rows))
  {
    hide HeldFromOutside, Integrity, CascadeDelete, DistinctColumns;
    if HeldFromOutside(fks, b, rows) {
      HolderDangles(fks, b, rows);
    } else {
      CascadeKeepsIntegrity(fks, b, rows);
    }
  }

  /** Base accepts the replay of a table exactly when each of its two statements leaves base without
      dangling rows. */
  lemma AcceptsIff(fks: seq<FK>, b: Image, delta: Delta, t: Table)
    requires Integrity(fks, b) && DistinctColumns(fks) && forall fk :: fk in fks ==> fk.rule != SetDefault
    ensures Accepts(fks, b, delta, t) <==>
      Integrity(fks, Upserted(b, delta, t)) && Integrity(fks, ReplayedTable(fks, b, delta, t))
  {
    hide CascadeDelete, Upserted, Integrity, UpsertDangles, HeldFromOutside, DistinctColumns;
    UpsertRefusedIff(fks, b, delta, t);
    if Integrity(fks, Upserted(b, delta, t)) {
      DeleteRefusedIff(fks, Upserted(b, delta, t), Doomed(Upserted(b, delta, t), delta, t));
    }
  }

  // ----- All tables -----

  lemma OneMore(fks: seq<FK>, base: Image, delta: Delta, order: seq<Table>, i: nat)
    requires i < |order|
    ensures
      var before, after := ReplayedAll(fks, base, delta, order[..i]), ReplayedAll(fks, base, delta, order[..i + 1]);
      after == if before.Some? && Accepts(fks, before.value, delta, order[i])
               then Some(ReplayedTable(fks, before.value, delta, order[i])) else None
  {
    var longer := order[..i + 1];
    assert longer[..|longer| - 1] == order[..i] && longer[|longer| - 1] == order[i];
    hide Accepts, ReplayedTable;
  }

  /** Parents first, base accepts the replay up to a table exactly when the conditions on what has fallen
      hold so far, and then the closed form does. */
  lemma {:induction false} ReplayedUpTo(fks: seq<FK>, base: Image, delta: Delta, order: seq<Table>, i: nat)
    requires NoDuplicates(order) && InOrder(fks, base, delta, order) && i <= |order|
    ensures
      var b := ReplayedAll(fks, base, delta, order[..i]);
      && (b.Some? <==> AcceptedUpTo(fks, base, delta, order, i))
      && (b.Some? ==> b.value == After(fks, base, delta, SetOf(order[..i])))
  {
    hide InOrder, AcceptedUpTo, After, Accepts, ReplayedTable;
    if i == 0 {
      NothingDone(fks, base, delta, order);
    } else {
      ReplayedUpTo(fks, base, delta, order, i - 1);
      OneMore(fks, base, delta, order, i - 1);
      hide ReplayedAll;
      if AcceptedUpTo(fks, base, delta, order, i - 1) {
        NextTurn(fks, base, delta, order, i - 1);
      } else {
        AcceptedEarlier(fks, base, delta, order, i - 1, i);
      }
    }
  }

  lemma AcceptedEarlier(fks: seq<FK>, base: Image, delta: Delta, order: seq<Table>, i: nat, j: nat)
    requires i <= j <= |order|
    ensures AcceptedUpTo(fks, base, delta, order, j) ==> AcceptedUpTo(fks, base, delta, order, i)
  {
    hide Marks, HeldOn, RefersToLost;
  }

  /** Parents first, the replay succeeds exactly when it is accepted, and its result is the closed form. */
  lemma ReplayedInOrder(fks: seq<FK>, base: Image, delta: Delta, order: seq<Table>)
    requires NoDuplicates(order) && InOrder(fks, base, delta, order)
    ensures
      var b := ReplayedAll(fks, base, delta, order);
      && (b.Some? <==> Accepted(fks, base, delta, order))
      && (b.Some? ==> b.value == After(fks, base, delta, SetOf(order)))
  {
    hide InOrder, AcceptedUpTo, After, ReplayedAll;
    ReplayedUpTo(fks, base, delta, order, |order|);
    assert order[..|order|] == order;
  }

  lemma NextOfOrder(order: seq<Table>, i: nat)
    requires NoDuplicates(order) && i < |order|
    ensures SetOf(order[..i + 1]) == SetOf(order[..i]) + {order[i]} && order[i] !in SetOf(order[..i])
    ensures order[i] in SetOf(order)
  {
    assert order[..i + 1] == order[..i] + [order[i]];
  }

  lemma {:induction false} FaithfulUpTo(fks: seq<FK>, base: Image, delta: Delta, order: seq<Table>, i: nat)
    requires NoDuplicates(order) && ReplayFaithful(fks, base, delta) && i <= |order|
    ensures
      var b := ReplayedAll(fks, base, delta, order[..i]);
      b.Some? ==> ReplayedSoFar(fks, base, delta, SetOf(order[..i]), b.value)
  {
    hide ReplayFaithful, ReplayedSoFar, Accepts, ReplayedTable;
    if i == 0 {
      NothingReplayed(fks, base, delta);
      assert SetOf(order[..0]) == {};
    } else {
      FaithfulUpTo(fks, base, delta, order, i - 1);
      OneMore(fks, base, delta, order, i - 1);
      NextOfOrder(order, i - 1);
      var before := ReplayedAll(fks, base, delta, order[..i - 1]);
      if before.Some? {
        NextReplayed(fks, base, delta, SetOf(order[..i - 1]), before.value, order[i - 1]);
      }
    }
  }

  /** In any order, an accepted replay shows a view without dangling rows when every cascade stays among
      the rows deleted. */
  lemma ReplayedFaithfully(fks: seq<FK>, base: Image, delta: Delta, order: seq<Table>)
    requires NoDuplicates(order) && ReplayFaithful(fks, base, delta) && forall r :: r in delta ==> r.t in order
    ensures ReplayedAll(fks, base, delta, order).Some? ==>
      ReplayedAll(fks, base, delta, order).value == View(base, delta)
  {
    FaithfulUpTo(fks, base, delta, order, |order|);
    assert order[..|order|] == order;
    hide ReplayFaithful, ReplayedSoFar, ReplayedAll;
    if ReplayedAll(fks, base, delta, order).Some? {
      AllReplayed(fks, base, delta, SetOf(order), ReplayedAll(fks, base, delta, order).value);
    }
  }

  /** In any order, an accepted replay leaves base without dangling rows. */
  lemma {:induction false} ReplayedKeepsIntegrity(fks: seq<FK>, base: Image, delta: Delta, order: seq<Table>)
    requires Integrity(fks, base) && forall fk :: fk in fks ==> fk.rule != SetDefault
    ensures ReplayedAll(fks, base, delta, order).Some? ==>
      Integrity(fks, ReplayedAll(fks, base, delta, order).value)
  {
    hide Integrity, Accepts, ReplayedTable;
    if order != [] {
      var n := |order| - 1;
      ReplayedKeepsIntegrity(fks, base, delta, order[..n]);
      var before := ReplayedAll(fks, base, delta, order[..n]);
      if before.Some? && Accepts(fks, before.value, delta, order[n]) {
        ReplayedTableKeepsIntegrity(fks, before.value, delta, order[n]);
      }
    }
  }

  /** Rows may be missing and values may be NULL; nothing is added and nothing else is changed. */
  ghost predicate OnlyLoses(v: Image, b: Image) {
    b.Keys <= v.Keys && forall x :: x in b ==> Worn(v[x], b[x])
  }

  /** The rows of the tables done come from the live delta rows, all others from base. */
  ghost predicate Remains(base: Image, delta: Delta, done: set<Table>, b: Image) {
    forall x :: x in b ==>
      if x in delta && x.t in done then !delta[x].deleted && Worn(delta[x].vals, b[x])
      else x in base && Worn(base[x], b[x])
  }

  lemma NullRefsWears(fks: seq<FK>, x: RowId, a: Cols, b: Cols, gone: set<RowId>)
    requires Worn(a, b)
    ensures Worn(a, NullRefs(fks, x, b, gone))
  {
    hide NullsColumn;
  }

  lemma TurnRemains(fks: seq<FK>, base: Image, delta: Delta, done: set<Table>, b: Image, t: Table)
    requires Remains(base, delta, done, b)
    ensures Remains(base, delta, done + {t}, ReplayedTable(fks, b, delta, t))
  {
    var b1 := Upserted(b, delta, t);
    var rows, b2 := Doomed(b1, delta, t), ReplayedTable(fks, b, delta, t);
    ReachIsLeastClosed(fks, b1, rows);
    forall x | x in b2
      ensures if x in delta && x.t in done + {t} then !delta[x].deleted && Worn(delta[x].vals, b2[x])
              else x in base && Worn(base[x], b2[x])
    {
      assert x in b1 && x !in rows;
      NullRefsWears(fks, x, if x in delta && x.t in done + {t} then delta[x].vals else base[x], b1[x],
                    Reach(fks, b1, rows));
    }
    hide Reach, NullRefs, Worn;
  }

  lemma {:induction false} ReplayedRemains(fks: seq<FK>, base: Image, delta: Delta, order: seq<Table>)
    ensures
      var b := ReplayedAll(fks, base, delta, order);
      b.Some? ==> Remains(base, delta, SetOf(order), b.value)
  {
    if order != [] {
      hide ReplayedTable, Accepts, Remains;
      var n := |order| - 1;
      ReplayedRemains(fks, base, delta, order[..n]);
      assert order == order[..n] + [order[n]];
      assert SetOf(order) == SetOf(order[..n]) + {order[n]};
      var before := ReplayedAll(fks, base, delta, order[..n]);
      if before.Some? {
        TurnRemains(fks, base, delta, SetOf(order[..n]), before.value, order[n]);
      }
    }
  }

  /** In any order and with any foreign keys, an accepted replay leaves base with the branch's view, but
      for rows that are missing and values that became NULL. */
  lemma ReplayedOnlyLoses(fks: seq<FK>, base: Image, delta: Delta, order: seq<Table>)
    requires forall r :: r in delta ==> r.t in order
    ensures
      var b := ReplayedAll(fks, base, delta, order);
      b.Some? ==> OnlyLoses(View(base, delta), b.value)
  {
    ReplayedRemains(fks, base, delta, order);
    hide ReplayedAll, Worn;
    assert forall t :: t in order ==> t in SetOf(order);
  }

  lemma {:induction false} RefusedEarlier(fks: seq<FK>, base: Image, delta: Delta, order: seq<Table>, i: nat)
    requires i <= |order| && ReplayedAll(fks, base, delta, order[..i]).None?
    ensures ReplayedAll(fks, base, delta, order).None?
    decreases |order| - i
  {
    hide Accepts, ReplayedTable;
    if i < |order| {
      OneMore(fks, base, delta, order, i);
      hide ReplayedAll;
      RefusedEarlier(fks, base, delta, order, i + 1);
    } else {
      assert order[..i] == order;
    }
  }

  /** Replays the tables in the given order, stopping at the first failing statement. */
  method ReplayAll(db: Database, bs: BranchSchema, order: seq<Table>, rejects: set<Table>) returns (ok: bool)
    modifies db`base
    ensures ok <==> rejects !! SetOf(order) && ReplayedAll(db.cat.fks, old(db.base), bs.delta, order).Some?
    ensures ok ==> Some(db.base) == ReplayedAll(db.cat.fks, old(db.base), bs.delta, order)
  {
    var fks := db.cat.fks;
    ghost var base0 := db.base;
    assert Some(base0) == ReplayedAll(fks, base0, bs.delta, order[..0]);
    hide Accepts, ReplayedTable, ReplayedAll;
    for i := 0 to |order|
      invariant Some(db.base) == ReplayedAll(fks, base0, bs.delta, order[..i])
      invariant forall j :: 0 <= j < i ==> order[j] !in rejects
    {
      var t := order[i];
      OneMore(fks, base0, bs.delta, order, i);
      ok := ReplayTable(db, bs, t, t in rejects);
      if !ok {
        IsInOrder(order, i);
        if t !in rejects {
          RefusedEarlier(fks, base0, bs.delta, order, i + 1);
        }
        return false;
      }
    }
    assert order[..|order|] == order;
    NoRejects(order, rejects);
    return true;
  }

  lemma IsInOrder(order: seq<Table>, i: nat)
    requires i < |order|
    ensures order[i] in SetOf(order)
  {
  }

  lemma NoRejects(order: seq<Table>, rejects: set<Table>)
    requires forall j :: 0 <= j < |order| ==> order[j] !in rejects
    ensures rejects !! SetOf(order)
  {
  }
}
