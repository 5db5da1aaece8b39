/** The INSTEAD OF triggers of a branch view, run against the overlay view.

    Every method touches the branch schema only, and of it the delta tables and, on INSERT, the
    branch-local sequence: base tables and other branches are outside their frame. */
module Triggers {
  import opened Store
  import opened Cascade

  /** Delta rows are never removed or revived and never change __is_new, and of their columns some become
      NULL.  New ones belong to base rows that are deleted or got a NULL, and to no others. */
  ghost predicate DeltaGrows(base: Image, d: Delta, d': Delta) {
    && d.Keys <= d'.Keys
    && (forall r :: r in d ==>
        d'[r].isNew == d[r].isNew && (d[r].deleted ==> d'[r].deleted) && Worn(d[r].vals, d'[r].vals))
    && (forall r :: r in d' && r !in d ==>
        r in base && !d'[r].isNew && (d'[r].deleted || (Worn(base[r], d'[r].vals) && d'[r].vals != base[r])))
  }

  lemma DeltaGrowsTransitive(base: Image, d0: Delta, d1: Delta, d2: Delta)
    requires DeltaGrows(base, d0, d1) && DeltaGrows(base, d1, d2)
    ensures DeltaGrows(base, d0, d2)
  {
  }

  /** A rule whose violation aborts the statement. */
  predicate Blocks(fk: FK, x: RowId) {
    fk.rule == Restrict || fk.rule == NoAction || (fk.rule == SetNull && KeyHas(x.k, fk.col))
  }

  /** Every reference to a row that deleting s reaches, but a row's reference to itself, is one that
      CASCADE follows, that SET NULL can null, or that the triggers leave alone. */
  ghost predicate LetsGo(fks: seq<FK>, v: Image, s: set<RowId>) {
    forall x, fk :: x in v && fk in fks && RefTo(fk, x, v[x], Reach(fks, v, s) - {x}) ==>
      fk.rule == Rule.Cascade || fk.rule == SetDefault || (fk.rule == SetNull && !KeyHas(x.k, fk.col))
  }

  lemma BlockedBefore(fks: seq<FK>, v0: Image, v1: Image, g: set<RowId>, s: set<RowId>, t: set<RowId>)
    requires Shrunk(fks, v0, v1, g)
    requires s <= Reach(fks, v0, t)
    requires !LetsGo(fks, v1, s)
    ensures !LetsGo(fks, v0, t)
  {
    ReachShrinks(fks, v0, v1, g, s, t);
    var x, fk :| x in v1 && fk in fks && Blocks(fk, x) && RefTo(fk, x, v1[x], Reach(fks, v1, s) - {x});
    assert RefTo(fk, x, v1[x], Reach(fks, v0, t) - {x});
    FadedRefs(fks, x, v0[x], v1[x], g, fk, Reach(fks, v0, t) - {x});
  }

  // ----- What each trigger does to the branch -----

  datatype BranchState = BranchState(delta: Delta, localSeq: map<Table, int>)

  function State(bs: BranchSchema): BranchState
    reads bs
  {
    BranchState(bs.delta, bs.localSeq)
  }

  /** The row is stored under the key given: a composite key always is, an id if base has it. */
  predicate AsGiven(cat: Catalog, base: Image, t: Table, key: Option<Key>) {
    key.Some? && (t in cat.idTables ==> RowId(t, key.value) in base)
  }

  /** An INSERT without a composite key fails; one of an id table takes the next branch-local id
      unless its id is in base. */
  ghost predicate Inserts(cat: Catalog, base: Image, s: BranchState, t: Table, key: Option<Key>, vals: Cols,
                          s': BranchState) {
    if AsGiven(cat, base, t, key) then
      s' == s.(delta := Upsert(s.delta, RowId(t, key.value), vals, true))
    else if t in cat.idTables then
      && t in s.localSeq
      && s' == BranchState(Upsert(s.delta, RowId(t, Id(s.localSeq[t])), vals, true), s.localSeq[t := s.localSeq[t] + 1])
    else
      s' == s
  }

  ghost predicate Deletes(cat: Catalog, base: Image, s: BranchState, rows: set<RowId>, s': BranchState) {
    && s'.localSeq == s.localSeq
    && DeltaGrows(base, s.delta, s'.delta)
    && DeleteStep(cat.fks, View(base, s.delta), View(base, s'.delta), rows)
  }

  // ----- INSERT and UPDATE -----

  /** The INSERT path.  A row of an id table whose id is missing or absent from base gets the next
      branch-local id; a composite key must be given, as its columns are NOT NULL. */
  method FireInsert(db: Database, bs: BranchSchema, t: Table, key: Option<Key>, vals: Cols)
    returns (row: Option<RowId>)
    requires t in db.cat.idTables ==> t in bs.localSeq && (key.Some? ==> key.value.Id?)
    modifies bs`delta, bs`localSeq
    ensures row.None? <==> t !in db.cat.idTables && key.None?
    ensures Inserts(db.cat, db.base, old(State(bs)), t, key, vals, State(bs))
    ensures row.Some? ==>
      row.value == RowId(t, if AsGiven(db.cat, db.base, t, key) then key.value else Id(old(bs.localSeq)[t]))
  {
    if t in db.cat.idTables {
      var r: RowId;
      if key.None? || RowId(t, key.value) !in db.base {
        r := RowId(t, Id(bs.localSeq[t]));
        bs.localSeq := bs.localSeq[t := bs.localSeq[t] + 1];
      } else {
        r := RowId(t, key.value);
      }
      bs.delta := Upsert(bs.delta, r, vals, true);
      return Some(r);
    }
    if key.None? {
      return None;
    }
    bs.delta := Upsert(bs.delta, RowId(t, key.value), vals, true);
    return Some(RowId(t, key.value));
  }

  /** The UPDATE path: it upserts NEW and does not look at OLD. */
  method FireUpdate(bs: BranchSchema, oldRow: RowId, newRow: RowId, vals: Cols)
    modifies bs`delta
    ensures bs.delta == Upsert(old(bs.delta), newRow, vals, false)
  {
    bs.delta := Upsert(bs.delta, newRow, vals, false);
  }

  // ----- DELETE -----

  /** No row of v references r by one of the first i foreign keys. */
  ghost predicate ClearedUpTo(fks: seq<FK>, v: Image, r: RowId, i: nat)
    requires i <= |fks|
  {
    forall j, x :: 0 <= j < i && x in v && fks[j].rule != SetDefault ==> !RefTo(fks[j], x, v[x], {r})
  }

  /** How far the cascade section of r's trigger has come: the first i foreign keys are done. */
  ghost predicate Progress(fks: seq<FK>, v0: Image, v: Image, r: RowId, i: nat)
    requires i <= |fks|
  {
    && r !in v
    && Gone(v0, v, {r}) <= Reach(fks, v0, {r})
    && Shrunk(fks, v0, v, Gone(v0, v, {r}))
    && Cleared(fks, v, Gone(v0, v, {r}) - {r})
    && ClearedUpTo(fks, v, r, i)
  }

  lemma ProgressStarts(fks: seq<FK>, v0: Image, r: RowId)
    ensures Progress(fks, v0, v0 - {r}, r, 0)
  {
    ReachIsLeastClosed(fks, v0, {r});
    assert Gone(v0, v0 - {r}, {r}) == {r};
  }

  lemma ProgressEnds(fks: seq<FK>, v0: Image, v: Image, r: RowId)
    requires Progress(fks, v0, v, r, |fks|)
    ensures DeleteStep(fks, v0, v, {r})
  {
  }

  /** One foreign key further: the step from v to v' lost h and left no reference to r by fks[i]. */
  lemma ProgressAdvances(fks: seq<FK>, v0: Image, v: Image, v': Image, r: RowId, i: nat, h: set<RowId>)
    requires i < |fks| && Progress(fks, v0, v, r, i)
    requires Shrunk(fks, v, v', h) && Cleared(fks, v', h - {r})
    requires h <= (v.Keys - v'.Keys) + {r} && h <= Reach(fks, v0, {r})
    requires fks[i].rule != SetDefault ==> forall x :: x in v' ==> !RefTo(fks[i], x, v'[x], {r})
    ensures Progress(fks, v0, v', r, i + 1)
  {
    var g, all := Gone(v0, v, {r}), Gone(v0, v', {r});
    assert all == g + (h - {r});
    ShrunkTransitive(fks, v0, v, v', g, h, all);
    ClearedLater(fks, v, v', h, g - {r});
    ClearedUnion(fks, v', g - {r}, h - {r});
    assert g - {r} + (h - {r}) == all - {r};
    forall j, x | 0 <= j < i && x in v' && fks[j].rule != SetDefault ensures !RefTo(fks[j], x, v'[x], {r}) {
      if RefTo(fks[j], x, v'[x], {r}) {
        FadedRefs(fks, x, v[x], v'[x], h, fks[j], {r});
      }
    }
  }

  function Hits(fk: FK, v: Image, r: RowId): set<RowId> {
    set x | x in v && RefTo(fk, x, v[x], {r})
  }

  lemma HitsAreReached(fks: seq<FK>, v0: Image, v: Image, r: RowId, i: nat)
    requires i < |fks| && Progress(fks, v0, v, r, i)
    requires fks[i].rule == Rule.Cascade
    ensures Hits(fks[i], v, r) <= Reach(fks, v0, {r})
  {
    ReachIsLeastClosed(fks, v0, {r});
    forall x | x in Hits(fks[i], v, r) ensures x in Reach(fks, v0, {r}) {
      FadedRefs(fks, x, v0[x], v[x], Gone(v0, v, {r}), fks[i], {r});
      assert RefTo(fks[i], x, v0[x], Reach(fks, v0, {r}));
    }
  }

  lemma AfterCascade(fks: seq<FK>, v0: Image, v: Image, v': Image, r: RowId, i: nat)
    requires i < |fks| && Progress(fks, v0, v, r, i)
    requires fks[i].rule == Rule.Cascade
    requires DeleteStep(fks, v, v', Hits(fks[i], v, r))
    ensures Progress(fks, v0, v', r, i + 1)
  {
    var s := Hits(fks[i], v, r);
    var h := Gone(v, v', s);
    HitsAreReached(fks, v0, v, r, i);
    ReachShrinks(fks, v0, v, Gone(v0, v, {r}), s, {r});
    forall x | x in v' ensures !RefTo(fks[i], x, v'[x], {r}) {
      if RefTo(fks[i], x, v'[x], {r}) {
        FadedRefs(fks, x, v[x], v'[x], h, fks[i], {r});
      }
    }
    ProgressAdvances(fks, v0, v, v', r, i, h);
  }

  function Nulled(v: Image, s: set<RowId>, c: Column): Image {
    map x | x in v :: if x in s then v[x][c := Null] else v[x]
  }

  lemma AfterSetNull(fks: seq<FK>, v0: Image, v: Image, r: RowId, i: nat)
    requires i < |fks| && Progress(fks, v0, v, r, i)
    requires fks[i].rule == SetNull
    requires forall x :: x in Hits(fks[i], v, r) ==> !KeyHas(x.k, fks[i].col)
    ensures Progress(fks, v0, Nulled(v, Hits(fks[i], v, r), fks[i].col), r, i + 1)
  {
    var s := Hits(fks[i], v, r);
    var v' := Nulled(v, s, fks[i].col);
    ReachIsLeastClosed(fks, v0, {r});
    forall x | x in v' ensures Faded(fks, x, v[x], v'[x], {r}) {
      if x in s {
        assert fks[i] in fks && RefTo(fks[i], x, v[x], {r});
        assert NullsColumn(fks, x, v[x], fks[i].col, {r});
      }
    }
    ProgressAdvances(fks, v0, v, v', r, i, {r});
  }

  lemma BlockedHere(fks: seq<FK>, v0: Image, v: Image, r: RowId, i: nat, x: RowId)
    requires i < |fks| && Progress(fks, v0, v, r, i)
    requires x in Hits(fks[i], v, r) && Blocks(fks[i], x)
    ensures !LetsGo(fks, v0, {r})
  {
    ReachIsLeastClosed(fks, v0, {r});
    FadedRefs(fks, x, v0[x], v[x], Gone(v0, v, {r}), fks[i], {r});
    assert RefTo(fks[i], x, v0[x], Reach(fks, v0, {r}) - {x});
    hide Reach, RefTo, Shrunk;
  }

  lemma SmallerView(v: Image, v': Image)
    requires v'.Keys <= v.Keys
    ensures |v'.Keys| <= |v.Keys|
    ensures v'.Keys != v.Keys ==> |v'.Keys| < |v.Keys|
  {
    assert v.Keys == v'.Keys + (v.Keys - v'.Keys);
    if v'.Keys != v.Keys {
      assert v.Keys - v'.Keys != {};
    }
  }

  /** A visible row is known to base or delta, now and after the delta grew. */
  lemma VisibleIsKnown(base: Image, d: Delta)
    ensures View(base, d).Keys <= base.Keys + d.Keys
  {
  }

  lemma DeltaAfterNull(base: Image, d: Delta, x: RowId, c: Column)
    requires x in View(base, d) && c in View(base, d)[x] && View(base, d)[x][c] != Null
    ensures DeltaGrows(base, d, Upsert(d, x, View(base, d)[x][c := Null], false))
  {
  }

  lemma DeltaAfterTombstone(cat: Catalog, base: Image, d: Delta, x: RowId)
    requires x in base.Keys + d.Keys
    ensures DeltaGrows(base, d, Tombstone(cat, d, x))
  {
  }

  lemma DeltaKeepsRows(base: Image, d: Delta, d': Delta)
    requires DeltaGrows(base, d, d')
    ensures d.Keys <= d'.Keys
  {
  }

  lemma DeltaUnchanged(base: Image, d: Delta)
    ensures DeltaGrows(base, d, d)
  {
  }

  lemma NulledOneMore(v: Image, s: set<RowId>, x: RowId, c: Column)
    requires x in v
    ensures Nulled(v, s + {x}, c) == Nulled(v, s, c)[x := v[x][c := Null]]
    ensures Nulled(v, {}, c) == v
  {
  }

  /** UPDATE view SET c = NULL WHERE c = OLD.id, for the rows hit: one UPDATE trigger per row of
      the statement's snapshot v. */
  method NullOut(db: Database, bs: BranchSchema, hit: set<RowId>, c: Column)
    requires forall x :: x in hit ==>
      x in View(db.base, bs.delta) && c in View(db.base, bs.delta)[x] && View(db.base, bs.delta)[x][c] != Null
    modifies bs`delta
    ensures View(db.base, bs.delta) == Nulled(View(db.base, old(bs.delta)), hit, c)
    ensures DeltaGrows(db.base, old(bs.delta), bs.delta)
  {
    var v := View(db.base, bs.delta);
    var todo := hit;
    DeltaUnchanged(db.base, bs.delta);
    assert Nulled(v, hit - todo, c) == v;
    hide View, DeltaGrows, Nulled, Upsert;
    while todo != {}
      invariant todo <= hit
      invariant View(db.base, bs.delta) == Nulled(v, hit - todo, c)
      invariant DeltaGrows(db.base, old(bs.delta), bs.delta)
    {
      var x :| x in todo;
      ViewOfUpsert(db.base, bs.delta, x, v[x][c := Null], false);
      NulledOneMore(v, hit - todo, x, c);
      NulledKeys(v, hit - todo, c);
      NotYetNulled(v, hit - todo, x, c);
      DeltaAfterNull(db.base, bs.delta, x, c);
      DeltaGrowsTransitive(db.base, old(bs.delta), bs.delta, Upsert(bs.delta, x, v[x][c := Null], false));
      FireUpdate(bs, x, x, v[x][c := Null]);
      assert hit - (todo - {x}) == hit - todo + {x};
      todo := todo - {x};
    }
    assert hit - todo == hit;
  }

  lemma NotYetNulled(v: Image, s: set<RowId>, x: RowId, c: Column)
    requires x in v && x !in s
    ensures x in Nulled(v, s, c) && Nulled(v, s, c)[x] == v[x]
  {
  }

  lemma HitsHaveValues(fk: FK, v: Image, r: RowId)
    requires forall x :: x in Hits(fk, v, r) ==> !KeyHas(x.k, fk.col)
    ensures forall x :: x in Hits(fk, v, r) ==> x in v && fk.col in v[x] && v[x][fk.col] != Null
  {
  }

  lemma NulledKeys(v: Image, s: set<RowId>, c: Column)
    ensures Nulled(v, s, c).Keys == v.Keys
  {
  }

  lemma ProgressView(fks: seq<FK>, v0: Image, v: Image, r: RowId, i: nat)
    requires i <= |fks| && Progress(fks, v0, v, r, i)
    ensures |v.Keys| <= |v0.Keys|
    ensures r in v0 ==> |v.Keys| < |v0.Keys|
  {
    SmallerView(v0, v);
  }

  /** The statement generated for one foreign key in the trigger of OLD = r.  A foreign key of
      another table generates nothing, and neither does SET DEFAULT. */
  method CascadeOne(db: Database, bs: BranchSchema, ghost v0: Image, r: RowId, i: nat) returns (ok: bool)
    requires i < |db.cat.fks| && Progress(db.cat.fks, v0, View(db.base, bs.delta), r, i)
    modifies bs`delta
    ensures DeltaGrows(db.base, old(bs.delta), bs.delta)
    ensures ok ==> Progress(db.cat.fks, v0, View(db.base, bs.delta), r, i + 1)
    ensures !ok ==> !LetsGo(db.cat.fks, v0, {r})
    decreases |View(db.base, bs.delta).Keys|, 3
  {
    DeltaUnchanged(db.base, bs.delta);
    var fks, fk := db.cat.fks, db.cat.fks[i];
    var v := View(db.base, bs.delta);
    hide View, DeltaGrows, Progress, DeleteStep, LetsGo;
    var hit := Hits(fk, v, r);
    if fk.ref != r.t || fk.rule == SetDefault {
      NothingGenerated(fks, v0, v, r, i);
      return true;
    }
    match fk.rule {
      case Cascade =>
        ok := DeleteRows(db, bs, hit);
        if ok {
          AfterCascade(fks, v0, v, View(db.base, bs.delta), r, i);
        } else {
          HitsAreReached(fks, v0, v, r, i);
          assert Progress(fks, v0, v, r, i);
          BlockedInside(fks, v0, v, r, i);
        }
      case SetNull =>
        if x :| x in hit && KeyHas(x.k, fk.col) {
          BlockedHere(fks, v0, v, r, i, x);
          return false;
        }
        HitsHaveValues(fk, v, r);
        NullOut(db, bs, hit, fk.col);
        AfterSetNull(fks, v0, v, r, i);
        return true;
      case _ =>
        if x :| x in hit {
          BlockedHere(fks, v0, v, r, i, x);
          return false;
        }
        NothingHit(fks, v0, v, r, i);
        return true;
    }
  }

  lemma NothingGenerated(fks: seq<FK>, v0: Image, v: Image, r: RowId, i: nat)
    requires i < |fks| && Progress(fks, v0, v, r, i)
    requires fks[i].ref != r.t || fks[i].rule == SetDefault
    ensures Progress(fks, v0, v, r, i + 1)
  {
  }

  lemma NothingHit(fks: seq<FK>, v0: Image, v: Image, r: RowId, i: nat)
    requires i < |fks| && Progress(fks, v0, v, r, i)
    requires Hits(fks[i], v, r) == {}
    ensures Progress(fks, v0, v, r, i + 1)
  {
    forall x | x in v ensures !RefTo(fks[i], x, v[x], {r}) {
      assert x !in Hits(fks[i], v, r);
    }
  }

  lemma BlockedInside(fks: seq<FK>, v0: Image, v: Image, r: RowId, i: nat)
    requires i < |fks| && Progress(fks, v0, v, r, i)
    requires fks[i].rule == Rule.Cascade
    requires !LetsGo(fks, v, Hits(fks[i], v, r))
    ensures !LetsGo(fks, v0, {r})
  {
    HitsAreReached(fks, v0, v, r, i);
    BlockedBefore(fks, v0, v, Gone(v0, v, {r}), Hits(fks[i], v, r), {r});
  }

  /** The DELETE path for OLD = r: tombstone, then one statement per referencing foreign key.
      A row that the running statement's snapshot still lists may have been tombstoned meanwhile;
      tombstoning it again is harmless. */
  method FireDelete(db: Database, bs: BranchSchema, r: RowId) returns (ok: bool)
    requires r in db.base || r in bs.delta
    modifies bs`delta
    ensures DeltaGrows(db.base, old(bs.delta), bs.delta)
    ensures ok ==> DeleteStep(db.cat.fks, View(db.base, old(bs.delta)), View(db.base, bs.delta), {r})
    ensures !ok ==> !LetsGo(db.cat.fks, View(db.base, old(bs.delta)), {r})
    decreases |View(db.base, bs.delta).Keys|, if r in View(db.base, bs.delta) then 0 else 4
  {
    var fks := db.cat.fks;
    ghost var v0 := View(db.base, bs.delta);
    hide View, DeltaGrows, Progress, DeleteStep, LetsGo, Tombstone;
    ViewOfTombstone(db.cat, db.base, bs.delta, r);
    DeltaAfterTombstone(db.cat, db.base, bs.delta, r);
    bs.delta := Tombstone(db.cat, bs.delta, r);
    ProgressStarts(fks, v0, r);
    for i := 0 to |fks|
      invariant DeltaGrows(db.base, old(bs.delta), bs.delta)
      invariant Progress(fks, v0, View(db.base, bs.delta), r, i)
    {
      ghost var d := bs.delta;
      ProgressView(fks, v0, View(db.base, d), r, i);
      var done := CascadeOne(db, bs, v0, r, i);
      DeltaGrowsTransitive(db.base, old(bs.delta), d, bs.delta);
      if !done {
        return false;
      }
    }
    ProgressEnds(fks, v0, View(db.base, bs.delta), r);
    return true;
  }

  lemma DeletedFewer(fks: seq<FK>, v0: Image, v: Image, s: set<RowId>)
    requires DeleteStep(fks, v0, v, s) && s <= v0.Keys
    ensures |v.Keys| <= |v0.Keys|
    ensures s != {} ==> |v.Keys| < |v0.Keys|
  {
    SmallerView(v0, v);
  }

  lemma BlockedLater(fks: seq<FK>, v0: Image, v: Image, done: set<RowId>, x: RowId, rows: set<RowId>)
    requires DeleteStep(fks, v0, v, done)
    requires x in rows && !LetsGo(fks, v, {x})
    ensures !LetsGo(fks, v0, rows)
  {
    ReachIsLeastClosed(fks, v0, rows);
    BlockedBefore(fks, v0, v, Gone(v0, v, done), {x}, rows);
  }

  /** The trigger of the next row x, after the rows done of the statement's snapshot. */
  method FireNext(db: Database, bs: BranchSchema, ghost v0: Image, ghost rows: set<RowId>, ghost done: set<RowId>,
                  x: RowId)
    returns (ok: bool)
    requires done <= rows <= v0.Keys && x in rows - done
    requires DeleteStep(db.cat.fks, v0, View(db.base, bs.delta), done)
    requires done == {} ==> View(db.base, bs.delta) == v0
    requires x in db.base || x in bs.delta
    modifies bs`delta
    ensures DeltaGrows(db.base, old(bs.delta), bs.delta)
    ensures ok ==> DeleteStep(db.cat.fks, v0, View(db.base, bs.delta), done + {x})
    ensures !ok ==> !LetsGo(db.cat.fks, v0, rows)
    decreases |v0.Keys|, 1
  {
    hide View, DeleteStep, LetsGo, DeltaGrows;
    ghost var v := View(db.base, bs.delta);
    DeletedFewer(db.cat.fks, v0, v, done);
    ok := FireDelete(db, bs, x);
    if ok {
      DeleteStepsCompose(db.cat.fks, v0, v, View(db.base, bs.delta), done, {x});
    } else {
      BlockedLater(db.cat.fks, v0, v, done, x, rows);
    }
  }

  /** DELETE FROM view: one DELETE trigger per row of the statement's snapshot, in any order. */
  method DeleteRows(db: Database, bs: BranchSchema, rows: set<RowId>) returns (ok: bool)
    requires rows <= View(db.base, bs.delta).Keys
    modifies bs`delta
    ensures DeltaGrows(db.base, old(bs.delta), bs.delta)
    ensures ok ==> DeleteStep(db.cat.fks, View(db.base, old(bs.delta)), View(db.base, bs.delta), rows)
    ensures !ok ==> !LetsGo(db.cat.fks, View(db.base, old(bs.delta)), rows)
    decreases |View(db.base, bs.delta).Keys|, 2
  {
    hide View, DeleteStep, LetsGo, DeltaGrows;
    ghost var v0 := View(db.base, bs.delta);
    var todo := rows;
    DeltaUnchanged(db.base, bs.delta);
    DeleteNothing(db.cat.fks, v0);
    assert rows - todo == {};
    VisibleIsKnown(db.base, bs.delta);
    while todo != {}
      invariant todo <= rows
      invariant DeltaGrows(db.base, old(bs.delta), bs.delta)
      invariant DeleteStep(db.cat.fks, v0, View(db.base, bs.delta), rows - todo)
      invariant todo == rows ==> bs.delta == old(bs.delta)
    {
      var x :| x in todo;
      ghost var d := bs.delta;
      DeltaKeepsRows(db.base, old(bs.delta), d);
      var fired := FireNext(db, bs, v0, rows, rows - todo, x);
      DeltaGrowsTransitive(db.base, old(bs.delta), d, bs.delta);
      if !fired {
        return false;
      }
      assert rows - (todo - {x}) == rows - todo + {x};
      todo := todo - {x};
    }
    assert rows - todo == rows;
    return true;
  }

  /** A DELETE statement: an exception aborts it and undoes everything it did.  It succeeds when every
      reference to a row it reaches lets go, and never when one that does not is that of a row not
      itself reached; otherwise the order of the generated statements decides. */
  method ExecDelete(db: Database, bs: BranchSchema, rows: set<RowId>) returns (ok: bool)
    requires rows <= View(db.base, bs.delta).Keys
    modifies bs`delta
    ensures ok ==> Deletes(db.cat, db.base, old(State(bs)), rows, State(bs))
    ensures ok && DistinctColumns(db.cat.fks) ==>
      View(db.base, bs.delta) == CascadeDelete(db.cat.fks, View(db.base, old(bs.delta)), rows)
    ensures !ok ==> bs.delta == old(bs.delta)
    ensures LetsGo(db.cat.fks, View(db.base, old(bs.delta)), rows) ==> ok
    ensures DistinctColumns(db.cat.fks) && HeldFromOutside(db.cat.fks, View(db.base, old(bs.delta)), rows) ==> !ok
  {
    var saved := bs.delta;
    ok := DeleteRows(db, bs, rows);
    if !ok {
      bs.delta := saved;
    } else if DistinctColumns(db.cat.fks) {
      SuccessMeansUnblocked(db.cat.fks, View(db.base, saved), View(db.base, bs.delta), rows);
      DeleteStepIsExact(db.cat.fks, View(db.base, saved), View(db.base, bs.delta), rows);
    }
    hide CascadeDelete, LetsGo, HeldFromOutside, View, Deletes;
  }

  /** With CASCADE keys alone every delete lets go and removes exactly the rows it reaches, whatever
      columns are part of a key. */
  lemma CascadesAlwaysLetGo(fks: seq<FK>, v: Image, s: set<RowId>)
    requires forall fk :: fk in fks ==> fk.rule == Rule.Cascade
    ensures LetsGo(fks, v, s) && CascadeDelete(fks, v, s) == v - Reach(fks, v, s)
  {
    forall x | x in v ensures NullRefs(fks, x, v[x], Reach(fks, v, s)) == v[x] {
      assert forall c :: !NullsColumn(fks, x, v[x], c, Reach(fks, v, s));
    }
    hide Reach, NullRefs;
  }

  /** Some row that is not itself reached holds on to a row that deleting s reaches. */
  predicate HeldFromOutside(fks: seq<FK>, v: Image, s: set<RowId>) {
    exists x, fk :: x in v && x !in Reach(fks, v, s) && fk in fks
      && Blocks(fk, x) && RefTo(fk, x, v[x], Reach(fks, v, s))
  }

  /** When a delete succeeds, no row that stays holds on to a row that goes. */
  lemma SuccessMeansUnblocked(fks: seq<FK>, v: Image, v': Image, rows: set<RowId>)
    requires DistinctColumns(fks) && DeleteStep(fks, v, v', rows)
    ensures !HeldFromOutside(fks, v, rows)
  {
    DeleteStepIsExact(fks, v, v', rows);
    var gone := Gone(v, v', rows);
    ReachIsLeastClosed(fks, v, rows);
    forall x, fk | x in v && x !in Reach(fks, v, rows) && fk in fks && Blocks(fk, x)
      ensures !RefTo(fk, x, v[x], Reach(fks, v, rows))
    {
      assert x in v' && gone == Reach(fks, v, rows);
      if RefTo(fk, x, v[x], gone) {
        assert RefTo(fk, x, v'[x], gone);
      }
    }
  }
}
