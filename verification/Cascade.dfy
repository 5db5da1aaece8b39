/** What deleting rows means on a full copy of the tables: ON DELETE CASCADE removes the rows
    that transitively reference a deleted row, ON DELETE SET NULL nulls the references of the
    rows that remain. */
module Cascade {
  import opened Store

  predicate CascadesInto(fks: seq<FK>, x: RowId, vals: Cols, ys: set<RowId>) {
    exists fk :: fk in fks && fk.rule == Rule.Cascade && RefTo(fk, x, vals, ys)
  }

  function Grow(fks: seq<FK>, v: Image, s: set<RowId>): set<RowId> {
    s + set x | x in v && CascadesInto(fks, x, v[x], s)
  }

  /** The rows that deleting s deletes: s, and every row of v reaching s by CASCADE references. */
  function Reach(fks: seq<FK>, v: Image, s: set<RowId>): set<RowId>
    decreases v.Keys - s
  {
    var s' := Grow(fks, v, s);
    if s' == s then s else
      assert v.Keys - s' < v.Keys - s by {
        var x :| x in s' && x !in s;
        assert x in v.Keys - s && x !in v.Keys - s';
      }
      Reach(fks, v, s')
  }

  predicate NullsColumn(fks: seq<FK>, x: RowId, vals: Cols, c: Column, gone: set<RowId>) {
    exists fk :: fk in fks && fk.rule == SetNull && fk.col == c && RefTo(fk, x, vals, gone)
  }

  function NullRefs(fks: seq<FK>, x: RowId, vals: Cols, gone: set<RowId>): Cols {
    map c | c in vals :: if NullsColumn(fks, x, vals, c, gone) then Null else vals[c]
  }

  /** Deleting the rows s from the full copy v. */
  function CascadeDelete(fks: seq<FK>, v: Image, s: set<RowId>): Image {
    var gone := Reach(fks, v, s);
    map x | x in v && x !in gone :: NullRefs(fks, x, v[x], gone)
  }

  ghost predicate Closed(fks: seq<FK>, v: Image, t: set<RowId>) {
    forall x :: x in v && CascadesInto(fks, x, v[x], t) ==> x in t
  }

  /** Reach is the least set that holds s and is closed under CASCADE references. */
  lemma {:induction false} ReachIsLeastClosed(fks: seq<FK>, v: Image, s: set<RowId>)
    ensures s <= Reach(fks, v, s) <= s + v.Keys
    ensures Closed(fks, v, Reach(fks, v, s))
    ensures forall t :: s <= t && Closed(fks, v, t) ==> Reach(fks, v, s) <= t
    decreases v.Keys - s
  {
    var s' := Grow(fks, v, s);
    if s' == s {
      forall x | x in v && CascadesInto(fks, x, v[x], s) ensures x in s {
        assert x in s';
      }
    } else {
      var y :| y in s' && y !in s;
      assert y in v.Keys - s && y !in v.Keys - s';
      ReachIsLeastClosed(fks, v, s');
      forall t | s <= t && Closed(fks, v, t) ensures Reach(fks, v, s) <= t {
        GrowStaysIn(fks, v, s, t);
      }
    }
  }

  lemma GrowStaysIn(fks: seq<FK>, v: Image, s: set<RowId>, t: set<RowId>)
    requires s <= t && Closed(fks, v, t)
    ensures Grow(fks, v, s) <= t
  {
  }

  /** The same columns, but for values that became NULL. */
  predicate Worn(a: Cols, b: Cols) {
    b.Keys == a.Keys && forall c :: c in a ==> b[c] == a[c] || b[c] == Null
  }

  /** Columns of x change only by SET NULL of references into gone. */
  ghost predicate Faded(fks: seq<FK>, x: RowId, a: Cols, b: Cols, gone: set<RowId>) {
    && b.Keys == a.Keys
    && forall c :: c in a ==> b[c] == a[c] || (b[c] == Null && NullsColumn(fks, x, a, c, gone))
  }

  /** v' is v after losing some rows of gone and some references into gone. */
  ghost predicate Shrunk(fks: seq<FK>, v: Image, v': Image, gone: set<RowId>) {
    && v'.Keys <= v.Keys
    && v.Keys - v'.Keys <= gone
    && forall x :: x in v' ==> Faded(fks, x, v[x], v'[x], gone)
  }

  /** No row of v references a row of gone, by any rule the triggers implement. */
  ghost predicate Cleared(fks: seq<FK>, v: Image, gone: set<RowId>) {
    forall x, fk :: x in v && fk in fks && fk.rule != SetDefault ==> !RefTo(fk, x, v[x], gone)
  }

  function Gone(v: Image, v': Image, s: set<RowId>): set<RowId> {
    (v.Keys - v'.Keys) + s
  }

  /** The step from v to v' deleted the rows s and what had to go with them, and nothing else. */
  ghost predicate DeleteStep(fks: seq<FK>, v: Image, v': Image, s: set<RowId>) {
    && s !! v'.Keys
    && Gone(v, v', s) <= Reach(fks, v, s)
    && Shrunk(fks, v, v', Gone(v, v', s))
    && Cleared(fks, v', Gone(v, v', s))
  }

  /** SET NULL creates no references. */
  lemma FadedRefs(fks: seq<FK>, x: RowId, a: Cols, b: Cols, gone: set<RowId>, fk: FK, ys: set<RowId>)
    requires Faded(fks, x, a, b, gone) && RefTo(fk, x, b, ys)
    ensures RefTo(fk, x, a, ys)
  {
  }

  /** SET NULL leaves CASCADE references alone. */
  lemma FadedKeepsCascades(fks: seq<FK>, x: RowId, a: Cols, b: Cols, gone: set<RowId>, fk: FK, ys: set<RowId>)
    requires DistinctColumns(fks) && fk in fks && fk.rule == Rule.Cascade
    requires Faded(fks, x, a, b, gone) && RefTo(fk, x, a, ys)
    ensures RefTo(fk, x, b, ys)
  {
  }

  lemma ShrunkTransitive(fks: seq<FK>, v0: Image, v1: Image, v2: Image, g: set<RowId>, h: set<RowId>, all: set<RowId>)
    requires Shrunk(fks, v0, v1, g) && Shrunk(fks, v1, v2, h)
    requires g <= all && h <= all
    ensures Shrunk(fks, v0, v2, all)
  {
  }

  /** References that are gone stay gone. */
  lemma ClearedLater(fks: seq<FK>, v1: Image, v2: Image, h: set<RowId>, gone: set<RowId>)
    requires Cleared(fks, v1, gone) && Shrunk(fks, v1, v2, h)
    ensures Cleared(fks, v2, gone)
  {
  }

  /** What is reached after some rows left was already reached before. */
  lemma ReachShrinks(fks: seq<FK>, v0: Image, v1: Image, g: set<RowId>, s: set<RowId>, t: set<RowId>)
    requires Shrunk(fks, v0, v1, g)
    requires s <= Reach(fks, v0, t)
    ensures Reach(fks, v1, s) <= Reach(fks, v0, t)
  {
    var all := Reach(fks, v0, t);
    ReachIsLeastClosed(fks, v0, t);
    ReachIsLeastClosed(fks, v1, s);
    forall x | x in v1 && CascadesInto(fks, x, v1[x], all) ensures x in all {
      var fk :| fk in fks && fk.rule == Rule.Cascade && RefTo(fk, x, v1[x], all);
      FadedRefs(fks, x, v0[x], v1[x], g, fk, all);
    }
  }

  lemma ReachMonotone(fks: seq<FK>, v: Image, s: set<RowId>, t: set<RowId>)
    requires s <= t
    ensures Reach(fks, v, s) <= Reach(fks, v, t)
  {
    ReachIsLeastClosed(fks, v, s);
    ReachIsLeastClosed(fks, v, t);
  }

  /** Deleting s and then t deletes s + t. */
  lemma DeleteStepsCompose(fks: seq<FK>, v0: Image, v1: Image, v2: Image, s: set<RowId>, t: set<RowId>)
    requires DeleteStep(fks, v0, v1, s) && DeleteStep(fks, v1, v2, t)
    ensures DeleteStep(fks, v0, v2, s + t)
  {
    var g, h, all := Gone(v0, v1, s), Gone(v1, v2, t), Gone(v0, v2, s + t);
    assert all == g + h;
    ShrunkTransitive(fks, v0, v1, v2, g, h, all);
    ClearedLater(fks, v1, v2, h, g);
    ReachMonotone(fks, v0, s, s + t);
    ReachIsLeastClosed(fks, v0, s + t);
    ReachShrinks(fks, v0, v1, g, t, s + t);
    ClearedUnion(fks, v2, g, h);
  }

  lemma ClearedUnion(fks: seq<FK>, v: Image, g: set<RowId>, h: set<RowId>)
    requires Cleared(fks, v, g) && Cleared(fks, v, h)
    ensures Cleared(fks, v, g + h)
  {
  }

  lemma DeleteNothing(fks: seq<FK>, v: Image)
    ensures DeleteStep(fks, v, v, {})
  {
  }

  /** A delete step has exactly one outcome: what deleting s from a full copy gives. */
  lemma DeleteStepIsExact(fks: seq<FK>, v: Image, v': Image, s: set<RowId>)
    requires DistinctColumns(fks)
    requires DeleteStep(fks, v, v', s)
    ensures v' == CascadeDelete(fks, v, s)
  {
    var gone := Gone(v, v', s);
    assert Closed(fks, v, gone) by {
      forall x | x in v && CascadesInto(fks, x, v[x], gone) ensures x in gone {
        if x in v' {
          var fk :| fk in fks && fk.rule == Rule.Cascade && RefTo(fk, x, v[x], gone);
          FadedKeepsCascades(fks, x, v[x], v'[x], gone, fk, gone);
        }
      }
    }
    ReachIsLeastClosed(fks, v, s);
    assert gone == Reach(fks, v, s);
    forall x | x in v' ensures v'[x] == NullRefs(fks, x, v[x], gone) {
      ClearedIsNulled(fks, x, v[x], v'[x], gone);
    }
    assert v'.Keys == CascadeDelete(fks, v, s).Keys;
  }

  lemma ClearedIsNulled(fks: seq<FK>, x: RowId, a: Cols, b: Cols, gone: set<RowId>)
    requires Faded(fks, x, a, b, gone)
    requires forall fk :: fk in fks && fk.rule != SetDefault ==> !RefTo(fk, x, b, gone)
    ensures b == NullRefs(fks, x, a, gone)
  {
  }
}
