/** Replaying a branch's delta tables onto the base tables, which enforce their foreign keys and
    fire their own ON DELETE actions. */
module Replay {
  import opened Store
  import opened Cascade
  import opened Triggers

  predicate LiveIn(delta: Delta, t: Table, r: RowId) {
    r.t == t && r in delta && !delta[r].deleted
  }

  /** INSERT INTO t SELECT ... WHERE NOT __deleted ON CONFLICT DO UPDATE.  For a primary-key-only
      table the statement says DO NOTHING, which is the same as it has no other columns. */
  function Upserted(base: Image, delta: Delta, t: Table): Image {
    map r | r in base.Keys + delta.Keys && (r in base || LiveIn(delta, t, r))
      :: if LiveIn(delta, t, r) then delta[r].vals else base[r]
  }

  /** The rows that the DELETE ... USING finds. */
  function Doomed(base: Image, delta: Delta, t: Table): set<RowId> {
    set r | r in base && r.t == t && r in delta && delta[r].deleted
  }

  /** The upsert of t violates a foreign key of base. */
  predicate UpsertDangles(fks: seq<FK>, base: Image, delta: Delta, t: Table) {
    exists r, fk :: r in delta && LiveIn(delta, t, r) && fk in fks && Dangles(fk, r, delta[r].vals, base)
  }

  /** The two statements for table t.  The flag rejects stands for every other reason base may
      have to refuse them, such as a UNIQUE or CHECK constraint. */
  method ReplayTable(db: Database, bs: BranchSchema, t: Table, rejects: bool) returns (ok: bool)
    modifies db`base
    ensures ok <==> !rejects && Accepts(db.cat.fks, old(db.base), bs.delta, t)
    ensures ok ==> db.base == ReplayedTable(db.cat.fks, old(db.base), bs.delta, t)
  {
    db.base := Upserted(db.base, bs.delta, t);
    if rejects || UpsertDangles(db.cat.fks, db.base, bs.delta, t) {
      return false;
    }
    var rows := Doomed(db.base, bs.delta, t);
    if HeldFromOutside(db.cat.fks, db.base, rows) {
      return false;
    }
    db.base := CascadeDelete(db.cat.fks, db.base, rows);
    return true;
  }

  predicate Accepts(fks: seq<FK>, base: Image, delta: Delta, t: Table) {
    var b := Upserted(base, delta, t);
    !UpsertDangles(fks, b, delta, t) && !HeldFromOutside(fks, b, Doomed(b, delta, t))
  }

  function ReplayedTable(fks: seq<FK>, base: Image, delta: Delta, t: Table): Image {
    var b := Upserted(base, delta, t);
    CascadeDelete(fks, b, Doomed(b, delta, t))
  }

  /** What replaying the tables one after the other makes of base, unless base refuses a statement. */
  function ReplayedAll(fks: seq<FK>, base: Image, delta: Delta, order: seq<Table>): Option<Image> {
    if order == [] then Some(base)
    else
      var before, t := ReplayedAll(fks, base, delta, order[..|order| - 1]), order[|order| - 1];
      if before.Some? && Accepts(fks, before.value, delta, t) then Some(ReplayedTable(fks, before.value, delta, t))
      else None
  }

  // ----- Why the replay gives the view -----

  function Tombstones(delta: Delta): set<RowId> {
    set r | r in delta && delta[r].deleted
  }

  /** No row that the branch kept had, in base, a CASCADE reference to a row that it deleted. */
  ghost predicate CascadesAbsorbed(fks: seq<FK>, base: Image, delta: Delta) {
    forall x, fk :: x in base && x in delta && !delta[x].deleted && fk in fks && fk.rule == Rule.Cascade
      ==> !RefTo(fk, x, base[x], Tombstones(delta))
  }

  /** No base row holds on, by RESTRICT, NO ACTION or a key column, to a row the branch deleted. */
  ghost predicate NothingHolds(fks: seq<FK>, base: Image, delta: Delta) {
    forall x, fk :: x in base && fk in fks && Blocks(fk, x) ==> !RefTo(fk, x, base[x], Tombstones(delta))
  }

  /** The state of base when the tables done have been replayed: they show the view, and so do the
      rows without a delta row; elsewhere rows may be missing or have lost references. */
  ghost predicate ReplayedSoFar(fks: seq<FK>, base0: Image, delta: Delta, done: set<Table>, b: Image) {
    var v := View(base0, delta);
    && (forall r :: r in v && (r.t in done || r !in delta) ==> r in b && b[r] == v[r])
    && (forall r :: r in b && r.t in done ==> r in v)
    && (forall r :: r in b && r.t !in done ==> r in base0 && Faded(fks, r, base0[r], b[r], Tombstones(delta)))
  }

  /** Rows of the view do not reference deleted rows. */
  lemma ViewAvoidsTombstones(fks: seq<FK>, base0: Image, delta: Delta, x: RowId, fk: FK)
    requires Integrity(fks, View(base0, delta)) && x in View(base0, delta) && fk in fks
    ensures !RefTo(fk, x, View(base0, delta)[x], Tombstones(delta))
  {
  }

  /** After the upsert of t, the rows of t and of the tables done that the view shows are there. */
  lemma AfterUpsert(fks: seq<FK>, base0: Image, delta: Delta, done: set<Table>, b: Image, t: Table)
    requires ReplayedSoFar(fks, base0, delta, done, b) && t !in done
    ensures
      var v, b1 := View(base0, delta), Upserted(b, delta, t);
      && (forall r :: r in v && (r.t == t || r.t in done) ==> r in b1 && b1[r] == v[r])
      && (forall r :: r in b1 && (r.t == t || r.t in done) ==> r in v || r in Doomed(b1, delta, t))
      && (forall r: RowId :: r.t != t ==> (r in b1 <==> r in b) && (r in b ==> b1[r] == b[r]))
  {
  }

  /** The cascade that base fires stays within the rows the branch deleted. */
  lemma CascadeStaysInTombstones(fks: seq<FK>, base0: Image, delta: Delta, done: set<Table>, b: Image, t: Table)
    requires Integrity(fks, View(base0, delta)) && CascadesAbsorbed(fks, base0, delta)
    requires ReplayedSoFar(fks, base0, delta, done, b) && t !in done
    ensures
      var b1 := Upserted(b, delta, t);
      Reach(fks, b1, Doomed(b1, delta, t)) <= Tombstones(delta)
  {
    var v, b1, all := View(base0, delta), Upserted(b, delta, t), Tombstones(delta);
    AfterUpsert(fks, base0, delta, done, b, t);
    ReachIsLeastClosed(fks, b1, Doomed(b1, delta, t));
    forall x | x in b1 && CascadesInto(fks, x, b1[x], all) ensures x in all {
      var fk :| fk in fks && fk.rule == Rule.Cascade && RefTo(fk, x, b1[x], all);
      if x.t == t || x.t in done {
        if x in v {
          ViewAvoidsTombstones(fks, base0, delta, x, fk);
        }
      } else {
        FadedRefs(fks, x, base0[x], b[x], all, fk, all);
        if x !in delta {
          ViewAvoidsTombstones(fks, base0, delta, x, fk);
        }
      }
    }
  }

  lemma ViewRowSurvives(fks: seq<FK>, base0: Image, delta: Delta, b1: Image, gone: set<RowId>, r: RowId)
    requires Integrity(fks, View(base0, delta)) && gone <= Tombstones(delta)
    requires r in View(base0, delta) && r in b1 && b1[r] == View(base0, delta)[r]
    ensures r !in gone && NullRefs(fks, r, b1[r], gone) == b1[r]
  {
  }

  lemma NullRefsFades(fks: seq<FK>, x: RowId, a: Cols, b: Cols, gone: set<RowId>, all: set<RowId>)
    requires Faded(fks, x, a, b, all) && gone <= all
    ensures Faded(fks, x, a, NullRefs(fks, x, b, gone), all)
  {
  }

  /** What base's cascade took when t was replayed. */
  function Taken(fks: seq<FK>, b: Image, delta: Delta, t: Table): set<RowId> {
    Reach(fks, Upserted(b, delta, t), Doomed(Upserted(b, delta, t), delta, t))
  }

  lemma ReplayedShows(fks: seq<FK>, base0: Image, delta: Delta, done: set<Table>, b: Image, t: Table, r: RowId)
    requires Integrity(fks, View(base0, delta)) && Taken(fks, b, delta, t) <= Tombstones(delta)
    requires ReplayedSoFar(fks, base0, delta, done, b) && t !in done
    requires r in View(base0, delta) && (r.t in done || r.t == t || r !in delta)
    ensures r in ReplayedTable(fks, b, delta, t) && ReplayedTable(fks, b, delta, t)[r] == View(base0, delta)[r]
  {
    hide Reach, NullRefs, Integrity;
    var b1 := Upserted(b, delta, t);
    AfterUpsert(fks, base0, delta, done, b, t);
    assert r in b1 && b1[r] == View(base0, delta)[r];
    ViewRowSurvives(fks, base0, delta, b1, Taken(fks, b, delta, t), r);
  }

  lemma ReplayedShowsNoMore(fks: seq<FK>, base0: Image, delta: Delta, done: set<Table>, b: Image, t: Table, r: RowId)
    requires ReplayedSoFar(fks, base0, delta, done, b) && t !in done
    requires r in ReplayedTable(fks, b, delta, t) && r.t in done + {t}
    ensures r in View(base0, delta)
  {
    var b1 := Upserted(b, delta, t);
    AfterUpsert(fks, base0, delta, done, b, t);
    ReachIsLeastClosed(fks, b1, Doomed(b1, delta, t));
    hide Reach, NullRefs, View;
  }

  lemma ReplayedRemnant(fks: seq<FK>, base0: Image, delta: Delta, done: set<Table>, b: Image, t: Table, r: RowId)
    requires Taken(fks, b, delta, t) <= Tombstones(delta)
    requires ReplayedSoFar(fks, base0, delta, done, b)
    requires r in ReplayedTable(fks, b, delta, t) && r.t !in done + {t}
    ensures r in base0 && Faded(fks, r, base0[r], ReplayedTable(fks, b, delta, t)[r], Tombstones(delta))
  {
    hide Reach, NullRefs, View, Faded;
    NullRefsFades(fks, r, base0[r], b[r], Taken(fks, b, delta, t), Tombstones(delta));
  }

  lemma ReplayedOneMore(fks: seq<FK>, base0: Image, delta: Delta, done: set<Table>, b: Image, t: Table)
    requires Integrity(fks, View(base0, delta)) && CascadesAbsorbed(fks, base0, delta)
    requires ReplayedSoFar(fks, base0, delta, done, b) && t !in done
    ensures ReplayedSoFar(fks, base0, delta, done + {t}, ReplayedTable(fks, b, delta, t))
  {
    var v, b2 := View(base0, delta), ReplayedTable(fks, b, delta, t);
    hide *;
    CascadeStaysInTombstones(fks, base0, delta, done, b, t);
    TakenIs(fks, b, delta, t);
    forall r | r in v && (r.t in done + {t} || r !in delta) ensures r in b2 && b2[r] == v[r] {
      ReplayedShows(fks, base0, delta, done, b, t, r);
    }
    forall r | r in b2 && r.t in done + {t} ensures r in v {
      ReplayedShowsNoMore(fks, base0, delta, done, b, t, r);
    }
    forall r | r in b2 && r.t !in done + {t} ensures r in base0 && Faded(fks, r, base0[r], b2[r], Tombstones(delta)) {
      ReplayedRemnant(fks, base0, delta, done, b, t, r);
    }
    ReplayedIs(fks, base0, delta, done + {t}, b2);
  }

  lemma TakenIs(fks: seq<FK>, b: Image, delta: Delta, t: Table)
    ensures Taken(fks, b, delta, t) == Reach(fks, Upserted(b, delta, t), Doomed(Upserted(b, delta, t), delta, t))
  {
  }

  lemma ReplayedIs(fks: seq<FK>, base0: Image, delta: Delta, done: set<Table>, b: Image)
    requires forall r :: r in View(base0, delta) && (r.t in done || r !in delta) ==>
      r in b && b[r] == View(base0, delta)[r]
    requires forall r :: r in b && r.t in done ==> r in View(base0, delta)
    requires forall r :: r in b && r.t !in done ==> r in base0 && Faded(fks, r, base0[r], b[r], Tombstones(delta))
    ensures ReplayedSoFar(fks, base0, delta, done, b)
  {
  }

  // ----- All tables -----

  /** What the replay of delta onto base relies on. */
  ghost predicate ReplayFaithful(fks: seq<FK>, base: Image, delta: Delta) {
    Integrity(fks, View(base, delta)) && CascadesAbsorbed(fks, base, delta)
  }

  lemma NothingReplayed(fks: seq<FK>, base: Image, delta: Delta)
    ensures ReplayedSoFar(fks, base, delta, {}, base)
  {
  }

  lemma AllReplayed(fks: seq<FK>, base0: Image, delta: Delta, done: set<Table>, b: Image)
    requires ReplayedSoFar(fks, base0, delta, done, b)
    requires forall r :: r in delta ==> r.t in done
    ensures b == View(base0, delta)
  {
  }

  lemma NextReplayed(fks: seq<FK>, base0: Image, delta: Delta, done: set<Table>, b: Image, t: Table)
    requires ReplayFaithful(fks, base0, delta) && t !in done
    requires ReplayedSoFar(fks, base0, delta, done, b)
    ensures ReplayedSoFar(fks, base0, delta, done + {t}, ReplayedTable(fks, b, delta, t))
  {
    ReplayedOneMore(fks, base0, delta, done, b, t);
  }
}
