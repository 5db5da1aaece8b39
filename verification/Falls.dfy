/** Which rows base's own ON DELETE actions take while a branch's delta tables are replayed, parents
    before children.  A row may fall before the turn of its table, when it still is as in base, or in
    that turn, when the upsert has just made it as the branch shows it. */
module Falls {
  import opened Store

  datatype Mark = Early(r: RowId) | InTurn(r: RowId)

  function EarlyOf(m: set<Mark>): (rows: set<RowId>)
    ensures forall r :: r in rows <==> Early(r) in m
  {
    set k | k in m && k.Early? :: k.r
  }

  function TurnOf(m: set<Mark>): (rows: set<RowId>)
    ensures forall r :: r in rows <==> InTurn(r) in m
  {
    set k | k in m && k.InTurn? :: k.r
  }

  function Both(m: set<Mark>): (rows: set<RowId>)
    ensures forall r :: r in rows <==> Early(r) in m || InTurn(r) in m
  {
    EarlyOf(m) + TurnOf(m)
  }

  /** The base rows of the tables done that the branch deleted. */
  function Deleted(base: Image, delta: Delta, done: set<Table>): set<RowId> {
    set r | r in base && r in delta && delta[r].deleted && r.t in done
  }

  /** A CASCADE reference into ys, within the row's own table or to another one. */
  predicate Follows(fks: seq<FK>, own: bool, x: RowId, vals: Cols, ys: set<RowId>) {
    exists fk :: fk in fks && fk.rule == Rule.Cascade && (fk.ref == fk.src) == own && RefTo(fk, x, vals, ys)
  }

  /** A base row falls before its turn below a row of another table that fell or was deleted, and
      below a row of its own table that fell before the turn. */
  predicate FallsEarly(fks: seq<FK>, base: Image, delta: Delta, done: set<Table>, m: set<Mark>, x: RowId) {
    && x in base
    && (|| Follows(fks, false, x, base[x], Deleted(base, delta, done) + Both(m))
        || Follows(fks, true, x, base[x], EarlyOf(m)))
  }

  /** The row is in base after the upsert of its table, if it did not fall before. */
  predicate Upserts(base: Image, delta: Delta, x: RowId) {
    if x in delta then !delta[x].deleted else x in base
  }

  function Current(base: Image, delta: Delta, x: RowId): Cols
    requires x in base || x in delta
  {
    if x in delta then delta[x].vals else base[x]
  }

  /** In the turn of its table a row, as it is now, falls below a row of the same table that the delete
      finds or that falls with it. */
  predicate FallsInTurn(fks: seq<FK>, base: Image, delta: Delta, done: set<Table>, m: set<Mark>, x: RowId) {
    && Upserts(base, delta, x) && x.t in done
    && Follows(fks, true, x, Current(base, delta, x), Deleted(base, delta, done) + TurnOf(m))
  }

  function Universe(base: Image, delta: Delta): set<Mark> {
    (set r | r in base.Keys + delta.Keys :: Early(r)) + (set r | r in base.Keys + delta.Keys :: InTurn(r))
  }

  function MoreMarks(fks: seq<FK>, base: Image, delta: Delta, done: set<Table>, m: set<Mark>): set<Mark> {
    m + set k | k in Universe(base, delta)
      && if k.Early? then FallsEarly(fks, base, delta, done, m, k.r) else FallsInTurn(fks, base, delta, done, m, k.r)
  }

  function MarksFrom(fks: seq<FK>, base: Image, delta: Delta, done: set<Table>, m: set<Mark>): set<Mark>
    decreases Universe(base, delta) - m
  {
    var m' := MoreMarks(fks, base, delta, done, m);
    if m' == m then m else
      assert Universe(base, delta) - m' < Universe(base, delta) - m by {
        var k :| k in m' && k !in m;
        assert k in Universe(base, delta) - m && k !in Universe(base, delta) - m';
      }
      MarksFrom(fks, base, delta, done, m')
  }

  /** What has fallen when the tables done have had their turn. */
  function Marks(fks: seq<FK>, base: Image, delta: Delta, done: set<Table>): set<Mark> {
    MarksFrom(fks, base, delta, done, {})
  }

  /** All that has been taken by then. */
  function TakenBy(fks: seq<FK>, base: Image, delta: Delta, done: set<Table>): set<RowId> {
    Deleted(base, delta, done) + Both(Marks(fks, base, delta, done))
  }

  ghost predicate Settled(fks: seq<FK>, base: Image, delta: Delta, done: set<Table>, m: set<Mark>) {
    && (forall x :: FallsEarly(fks, base, delta, done, m, x) ==> Early(x) in m)
    && (forall x :: FallsInTurn(fks, base, delta, done, m, x) ==> InTurn(x) in m)
  }

  lemma InUniverse(fks: seq<FK>, base: Image, delta: Delta, done: set<Table>, m: set<Mark>, x: RowId)
    ensures FallsEarly(fks, base, delta, done, m, x) ==> Early(x) in Universe(base, delta)
    ensures FallsInTurn(fks, base, delta, done, m, x) ==> InTurn(x) in Universe(base, delta)
  {
    hide Follows;
  }

  lemma FollowsMore(fks: seq<FK>, own: bool, x: RowId, vals: Cols, ys: set<RowId>, more: set<RowId>)
    requires ys <= more && Follows(fks, own, x, vals, ys)
    ensures Follows(fks, own, x, vals, more)
  {
    var fk :| fk in fks && fk.rule == Rule.Cascade && (fk.ref == fk.src) == own && RefTo(fk, x, vals, ys);
    assert RefTo(fk, x, vals, more);
  }

  /** More marks and more tables make no row stand that fell. */
  lemma FallsMore(fks: seq<FK>, base: Image, delta: Delta, done: set<Table>, more: set<Table>, m: set<Mark>,
                  m': set<Mark>, x: RowId)
    requires m <= m' && done <= more
    ensures FallsEarly(fks, base, delta, done, m, x) ==> FallsEarly(fks, base, delta, more, m', x)
    ensures FallsInTurn(fks, base, delta, done, m, x) ==> FallsInTurn(fks, base, delta, more, m', x)
  {
    var gone, gone' := Deleted(base, delta, done), Deleted(base, delta, more);
    assert gone <= gone';
    hide Follows, Deleted;
    if FallsEarly(fks, base, delta, done, m, x) {
      if Follows(fks, false, x, base[x], gone + Both(m)) {
        FollowsMore(fks, false, x, base[x], gone + Both(m), gone' + Both(m'));
      } else {
        FollowsMore(fks, true, x, base[x], EarlyOf(m), EarlyOf(m'));
      }
    }
    if FallsInTurn(fks, base, delta, done, m, x) {
      FollowsMore(fks, true, x, Current(base, delta, x), gone + TurnOf(m), gone' + TurnOf(m'));
    }
  }

  lemma MoreMarksStayIn(fks: seq<FK>, base: Image, delta: Delta, done: set<Table>, m: set<Mark>, all: set<Mark>)
    requires m <= all && Settled(fks, base, delta, done, all)
    ensures MoreMarks(fks, base, delta, done, m) <= all
  {
    hide FallsEarly, FallsInTurn, Universe;
    forall k | k in MoreMarks(fks, base, delta, done, m) ensures k in all {
      FallsMore(fks, base, delta, done, done, m, all, k.r);
      assert k == Early(k.r) || k == InTurn(k.r);
    }
  }

  lemma FixedIsSettled(fks: seq<FK>, base: Image, delta: Delta, done: set<Table>, m: set<Mark>)
    requires MoreMarks(fks, base, delta, done, m) == m
    ensures Settled(fks, base, delta, done, m)
  {
    hide FallsEarly, FallsInTurn, Universe;
    forall x ensures FallsEarly(fks, base, delta, done, m, x) ==> Early(x) in m {
      InUniverse(fks, base, delta, done, m, x);
    }
    forall x ensures FallsInTurn(fks, base, delta, done, m, x) ==> InTurn(x) in m {
      InUniverse(fks, base, delta, done, m, x);
    }
  }

  lemma {:induction false} MarksFromAreLeast(fks: seq<FK>, base: Image, delta: Delta, done: set<Table>, m: set<Mark>)
    ensures Settled(fks, base, delta, done, MarksFrom(fks, base, delta, done, m))
    ensures MarksFrom(fks, base, delta, done, m) <= m + Universe(base, delta)
    ensures forall all :: m <= all && Settled(fks, base, delta, done, all) ==>
      MarksFrom(fks, base, delta, done, m) <= all
    decreases Universe(base, delta) - m
  {
    hide Settled, FallsEarly, FallsInTurn, Universe;
    var m' := MoreMarks(fks, base, delta, done, m);
    if m' == m {
      FixedIsSettled(fks, base, delta, done, m);
    } else {
      var k :| k in m' && k !in m;
      assert k in Universe(base, delta) - m && k !in Universe(base, delta) - m';
      MarksFromAreLeast(fks, base, delta, done, m');
      forall all | m <= all && Settled(fks, base, delta, done, all)
        ensures MarksFrom(fks, base, delta, done, m) <= all
      {
        MoreMarksStayIn(fks, base, delta, done, m, all);
      }
    }
  }

  /** Marks is the least set that is closed under the two ways of falling. */
  lemma MarksAreLeast(fks: seq<FK>, base: Image, delta: Delta, done: set<Table>)
    ensures Settled(fks, base, delta, done, Marks(fks, base, delta, done))
    ensures Marks(fks, base, delta, done) <= Universe(base, delta)
    ensures forall all :: Settled(fks, base, delta, done, all) ==> Marks(fks, base, delta, done) <= all
  {
    hide Settled, MarksFrom, Universe;
    MarksFromAreLeast(fks, base, delta, done, {});
  }

  lemma MarksGrow(fks: seq<FK>, base: Image, delta: Delta, done: set<Table>, more: set<Table>)
    requires done <= more
    ensures Marks(fks, base, delta, done) <= Marks(fks, base, delta, more)
  {
    hide Marks, FallsEarly, FallsInTurn, Universe;
    MarksAreLeast(fks, base, delta, done);
    MarksAreLeast(fks, base, delta, more);
    var m := Marks(fks, base, delta, more);
    assert Settled(fks, base, delta, done, m) by {
      forall x
        ensures FallsEarly(fks, base, delta, done, m, x) ==> Early(x) in m
        ensures FallsInTurn(fks, base, delta, done, m, x) ==> InTurn(x) in m
      {
        FallsMore(fks, base, delta, done, more, m, m, x);
      }
    }
  }

  /** Marks are as they were made: early ones on base rows, others on rows of tables done. */
  lemma WhereMarksAre(fks: seq<FK>, base: Image, delta: Delta, done: set<Table>)
    ensures forall r :: Early(r) in Marks(fks, base, delta, done) ==> r in base
    ensures forall r :: InTurn(r) in Marks(fks, base, delta, done) ==> r.t in done && Upserts(base, delta, r)
  {
    hide Marks, Follows, Universe, Deleted;
    MarksAreLeast(fks, base, delta, done);
    var m := Marks(fks, base, delta, done);
    var all := set k | k in m && if k.Early? then k.r in base else k.r.t in done && Upserts(base, delta, k.r);
    assert Settled(fks, base, delta, done, all) by {
      hide Upserts;
      forall x
        ensures FallsEarly(fks, base, delta, done, all, x) ==> Early(x) in all
        ensures FallsInTurn(fks, base, delta, done, all, x) ==> InTurn(x) in all
      {
        FallsMore(fks, base, delta, done, done, all, m, x);
      }
    }
  }

  /** The tables done are closed under references, and t is a table that may come next. */
  ghost predicate MayFollow(fks: seq<FK>, done: set<Table>, t: Table) {
    && t !in done
    && forall fk :: fk in fks ==> (fk.src in done ==> fk.ref in done) && (fk.src == t ==> fk.ref == t || fk.ref in done)
  }

  /** What later turns may add. */
  predicate MayCome(done: set<Table>, t: Table, k: Mark) {
    if k.Early? then k.r.t !in done + {t} else k.r.t !in done
  }

  /** A reference from t or a table done stays among them, and leaves t only for a table done. */
  lemma StaysAmongDone(fks: seq<FK>, done: set<Table>, t: Table, own: bool, x: RowId, vals: Cols, ys: set<RowId>,
                       zs: set<RowId>)
    requires MayFollow(fks, done, t) && Follows(fks, own, x, vals, ys)
    requires if own then forall y :: y in ys && y.t == x.t ==> y in zs
             else x.t in done + {t} && forall y :: y in ys && y.t in done ==> y in zs
    ensures Follows(fks, own, x, vals, zs)
  {
    var fk :| fk in fks && fk.rule == Rule.Cascade && (fk.ref == fk.src) == own && RefTo(fk, x, vals, ys);
    assert RefTo(fk, x, vals, zs);
  }

  /** What falls to cascades in t and the tables done falls before t's turn is over. */
  lemma MarksBefore(fks: seq<FK>, base: Image, delta: Delta, done: set<Table>, t: Table, more: set<Table>)
    requires MayFollow(fks, done, t) && done <= more
    ensures forall k :: k in Marks(fks, base, delta, more) && !MayCome(done, t, k) ==>
      k in Marks(fks, base, delta, done)
  {
    hide Marks, Universe, FallsEarly, FallsInTurn, Deleted;
    MarksAreLeast(fks, base, delta, done);
    MarksAreLeast(fks, base, delta, more);
    MarksGrow(fks, base, delta, done, more);
    var now, later := Marks(fks, base, delta, done), Marks(fks, base, delta, more);
    var all := now + set k | k in later && MayCome(done, t, k);
    assert Settled(fks, base, delta, more, all) by {
      hide MayCome;
      forall x
        ensures FallsEarly(fks, base, delta, more, all, x) ==> Early(x) in all
        ensures FallsInTurn(fks, base, delta, more, all, x) ==> InTurn(x) in all
      {
        FallsMore(fks, base, delta, more, more, all, later, x);
        FallenBefore(fks, base, delta, done, t, more, now, all, x);
      }
    }
  }

  lemma FallenBefore(fks: seq<FK>, base: Image, delta: Delta, done: set<Table>, t: Table, more: set<Table>,
                     now: set<Mark>, all: set<Mark>, x: RowId)
    requires MayFollow(fks, done, t) && done <= more
    requires forall k :: k in all && k !in now ==> MayCome(done, t, k)
    ensures FallsEarly(fks, base, delta, more, all, x) ==>
      FallsEarly(fks, base, delta, done, now, x) || MayCome(done, t, Early(x))
    ensures FallsInTurn(fks, base, delta, more, all, x) ==>
      FallsInTurn(fks, base, delta, done, now, x) || MayCome(done, t, InTurn(x))
  {
    hide Follows;
    if FallsEarly(fks, base, delta, more, all, x) && x.t in done + {t} {
      if Follows(fks, false, x, base[x], Deleted(base, delta, more) + Both(all)) {
        StaysAmongDone(fks, done, t, false, x, base[x], Deleted(base, delta, more) + Both(all),
                       Deleted(base, delta, done) + Both(now));
      } else {
        StaysAmongDone(fks, done, t, true, x, base[x], EarlyOf(all), EarlyOf(now));
      }
    }
    if FallsInTurn(fks, base, delta, more, all, x) && x.t in done {
      StaysAmongDone(fks, done, t, true, x, Current(base, delta, x), Deleted(base, delta, more) + TurnOf(all),
                     Deleted(base, delta, done) + TurnOf(now));
    }
  }
}
