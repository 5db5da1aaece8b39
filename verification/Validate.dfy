/** The two read-only checks of a merge: foreign keys against the branch view, and conflicts
    with base rows written since the branch was created. */
module Validate {
  import opened Store
  import opened Triggers
  import opened BranchRuns

  datatype FKViolation = FKViolation(fk: FK, rows: set<RowId>)

  /** The live delta rows whose reference is to no row of v. */
  function Violators(fk: FK, delta: Delta, v: Image): set<RowId> {
    set r | r in delta && !delta[r].deleted && Dangles(fk, r, delta[r].vals, v)
  }

  /** Checks the live delta rows of every foreign key, and only those, against the views as they are. */
  method ValidateFKs(db: Database, bs: BranchSchema, fks: seq<FK>) returns (violations: seq<FKViolation>)
    ensures
      var shown := Shown(db.base, bs.delta, bs.overlay);
      forall v :: v in violations <==> v.fk in fks && v.rows == Violators(v.fk, bs.delta, shown) && v.rows != {}
  {
    violations := [];
    var shown := Shown(db.base, bs.delta, bs.overlay);
    for i := 0 to |fks|
      invariant forall v :: v in violations <==>
        v.fk in fks[..i] && v.rows == Violators(v.fk, bs.delta, shown) && v.rows != {}
    {
      var violatingRows := Violators(fks[i], bs.delta, shown);
      assert fks[..i + 1] == fks[..i] + [fks[i]];
      if violatingRows != {} {
        violations := violations + [FKViolation(fks[i], violatingRows)];
      }
    }
    assert fks[..|fks|] == fks;
  }

  ghost predicate NoViolators(fks: seq<FK>, delta: Delta, v: Image) {
    forall fk :: fk in fks ==> Violators(fk, delta, v) == {}
  }

  lemma NoViolationsMeansNoViolators(fks: seq<FK>, delta: Delta, shown: Image, violations: seq<FKViolation>)
    requires forall v :: v in violations <==> v.fk in fks && v.rows == Violators(v.fk, delta, shown) && v.rows != {}
    ensures violations == [] <==> NoViolators(fks, delta, shown)
  {
    if violations == [] {
      forall fk | fk in fks ensures Violators(fk, delta, shown) == {} {
        assert FKViolation(fk, Violators(fk, delta, shown)) !in violations;
      }
    } else {
      assert violations[0] in violations;
    }
  }

  /** A validator that looks at delta rows only is right about the whole view exactly when no
      untouched base row dangles. */
  lemma ValidatedMeansIntegrity(fks: seq<FK>, base: Image, delta: Delta)
    requires NoViolators(fks, delta, View(base, delta))
    ensures Integrity(fks, View(base, delta)) <==> BaseOriginSafe(fks, base, delta)
  {
    var v := View(base, delta);
    if BaseOriginSafe(fks, base, delta) {
      forall x, fk | x in v && fk in fks ensures !Dangles(fk, x, v[x], v) {
        if x in delta {
          assert x !in Violators(fk, delta, v);
        }
      }
    }
    if Integrity(fks, v) {
      forall x, fk | x in base && x !in delta && fk in fks ensures !Dangles(fk, x, base[x], v) {
        assert x in v && v[x] == base[x];
      }
    }
  }

  // ----- Validation reads the views in the tier they have -----

  /** The rows that the branch added, and those of base that it deleted. */
  function AddedOrDeleted(base: Image, delta: Delta): set<RowId> {
    set y | y in delta && (delta[y].deleted <==> y in base)
  }

  /** The tier of the referenced view does not matter exactly when the view is an overlay or no live
      delta row references a row that the branch added or deleted. */
  lemma TierMattersNotIff(fk: FK, base: Image, delta: Delta, overlay: set<Table>)
    ensures Violators(fk, delta, Shown(base, delta, overlay)) == Violators(fk, delta, View(base, delta))
      <==> fk.ref in overlay || forall r :: r in delta && !delta[r].deleted ==>
        !RefTo(fk, r, delta[r].vals, AddedOrDeleted(base, delta))
  {
    var shown, view := Shown(base, delta, overlay), View(base, delta);
    forall r | r in delta && !delta[r].deleted
      ensures Dangles(fk, r, delta[r].vals, shown) == Dangles(fk, r, delta[r].vals, view)
        <==> fk.ref in overlay || !RefTo(fk, r, delta[r].vals, AddedOrDeleted(base, delta))
    {
    }
    if Violators(fk, delta, shown) == Violators(fk, delta, view) {
      forall r | r in delta && !delta[r].deleted
        ensures Dangles(fk, r, delta[r].vals, shown) == Dangles(fk, r, delta[r].vals, view)
      {
        assert r in Violators(fk, delta, shown) <==> r in Violators(fk, delta, view);
      }
    }
  }

  /** Against a passthrough view of users, a new order of a new user is a violation, ... */
  lemma PassthroughRefusesNewReference() returns (fk: FK, base: Image, delta: Delta)
    ensures Integrity([fk], base) && Integrity([fk], View(base, delta))
    ensures Violators(fk, delta, Shown(base, delta, {"orders"})) != {}
  {
    fk := FK("orders", "user_id", "users", Rule.Cascade);
    var user, order := RowId("users", Id(1000)), RowId("orders", Id(1000));
    base := map[];
    delta := map[user := Entry(map[], false, true), order := Entry(map["user_id" := Int(1000)], false, true)];
    assert user in View(base, delta);
    assert order in Violators(fk, delta, Shown(base, delta, {"orders"}));
  }

  /** ... and an order of a deleted user is none. */
  lemma PassthroughMissesDeletedReference() returns (fk: FK, base: Image, delta: Delta)
    ensures Integrity([fk], base) && !Integrity([fk], View(base, delta))
    ensures Violators(fk, delta, Shown(base, delta, {"orders"})) == {}
  {
    fk := FK("orders", "user_id", "users", Rule.Cascade);
    var user, order := RowId("users", Id(1)), RowId("orders", Id(1));
    base := map[user := map[]];
    delta := map[user := Entry(map[], true, false), order := Entry(map["user_id" := Int(1)], false, true)];
    assert user !in View(base, delta) && fk in [fk];
    assert order in View(base, delta) && Dangles(fk, order, View(base, delta)[order], View(base, delta));
    assert user in Shown(base, delta, {"orders"});
  }

  /** Over a fixed base, trigger writes followed by a clean validation give a view in which every
      row of every table satisfies every foreign key. */
  lemma CleanRunHasIntegrity(cat: Catalog, base: Image, start: map<Table, int>, states: seq<BranchState>,
                             ws: seq<Write>)
    requires forall fk :: fk in cat.fks ==> fk.rule != SetDefault
    requires BaseBelow(cat, base, start) && Integrity(cat.fks, base)
    requires Run(cat, base, states, ws) && Starts(cat, start, states[0])
    requires NoViolators(cat.fks, states[|ws|].delta, View(base, states[|ws|].delta))
    ensures Integrity(cat.fks, View(base, states[|ws|].delta))
  {
    RunKeepsInvariant(cat, base, start, states, ws);
    ValidatedMeansIntegrity(cat.fks, base, states[|ws|].delta);
  }

  /** With base changing under the branch this fails: base gains a row that references a row the
      branch has tombstoned, and validation sees nothing. */
  lemma BaseInsertEscapesValidation()
    returns (fks: seq<FK>, base: Image, base': Image, delta: Delta)
    ensures Integrity(fks, base) && Integrity(fks, base') && BaseOriginSafe(fks, base, delta)
    ensures base'.Keys > base.Keys
    ensures NoViolators(fks, delta, View(base', delta)) && !Integrity(fks, View(base', delta))
  {
    var fk := FK("orders", "user_id", "users", Rule.Cascade);
    var user, order := RowId("users", Id(1)), RowId("orders", Id(1));
    fks := [fk];
    base := map[user := map[]];
    base' := base[order := map["user_id" := Int(1)]];
    delta := map[user := Entry(map[], true, false)];
    assert RefTo(fk, order, base'[order], {user});
    assert order in View(base', delta) && fk in fks;
    assert Dangles(fk, order, View(base', delta)[order], View(base', delta));
  }

  // ----- Conflict detection -----

  predicate StampedAfter(r: RowId, vals: Cols, time: int) {
    Val(r, vals, "updated_at").Int? && Val(r, vals, "updated_at").n > time
  }

  /** The join of the delta with base rows updated after the branch was created. */
  predicate IsConflict(base: Image, delta: Delta, createdAt: int, r: RowId) {
    r in delta && r in base && StampedAfter(r, base[r], createdAt)
  }

  /** The join is on column id: a table with updated_at and no id makes its query fail, which the
      loop ignores but which aborts the transaction for every later statement. */
  predicate Poisons(cat: Catalog, t: Table) {
    t in cat.stamped && t !in cat.idTables
  }

  /** The query for table t is made in a transaction that is still alive. */
  predicate Heeds(cat: Catalog, tables: seq<Table>, t: Table) {
    exists i :: 0 <= i < |tables| && tables[i] == t && forall j :: 0 <= j <= i ==> !Poisons(cat, tables[j])
  }

  lemma HeedsMore(cat: Catalog, tables: seq<Table>, i: nat, t: Table)
    requires i < |tables|
    ensures Heeds(cat, tables[..i + 1], t) <==>
      || Heeds(cat, tables[..i], t)
      || (t == tables[i] && forall j :: 0 <= j <= i ==> !Poisons(cat, tables[j]))
  {
    var less, more := tables[..i], tables[..i + 1];
    hide Poisons;
    if Heeds(cat, more, t) {
      var k :| 0 <= k <= i && more[k] == t && forall j :: 0 <= j <= k ==> !Poisons(cat, more[j]);
      if k < i {
        assert less[k] == t && forall j :: 0 <= j <= k ==> !Poisons(cat, less[j]) by {
          assert forall j :: 0 <= j <= k ==> less[j] == more[j];
        }
      } else {
        assert forall j :: 0 <= j <= i ==> tables[j] == more[j];
      }
    }
    if Heeds(cat, less, t) {
      var k :| 0 <= k < i && less[k] == t && forall j :: 0 <= j <= k ==> !Poisons(cat, less[j]);
      assert more[k] == t && forall j :: 0 <= j <= k ==> !Poisons(cat, more[j]);
    }
    if t == tables[i] && forall j :: 0 <= j <= i ==> !Poisons(cat, tables[j]) {
      assert more[i] == t && forall j :: 0 <= j <= i ==> !Poisons(cat, more[j]);
    }
  }

  lemma HeedsIsMember(cat: Catalog, tables: seq<Table>, t: Table)
    requires forall u :: u in tables ==> !Poisons(cat, u)
    ensures Heeds(cat, tables, t) <==> t in tables
  {
    hide Poisons;
    if t in tables {
      var i :| 0 <= i < |tables| && tables[i] == t;
      assert forall j :: 0 <= j <= i ==> !Poisons(cat, tables[j]);
    }
  }

  /** After a table with updated_at and no id no conflict is found any more; a table that comes before every
      such table is heeded. */
  lemma PoisonHidesConflicts(cat: Catalog, tables: seq<Table>, k: nat, t: Table)
    requires k < |tables| && tables[k] in cat.stamped && tables[k] !in cat.idTables
    requires forall i :: 0 <= i < k ==> tables[i] !in cat.stamped || tables[i] in cat.idTables
    ensures Heeds(cat, tables, t) <==> t in tables[..k]
  {
    if t in tables[..k] {
      var i :| 0 <= i < k && tables[..k][i] == t;
      assert tables[i] == t;
    }
    if Heeds(cat, tables, t) {
      var i :| 0 <= i < |tables| && tables[i] == t && forall j :: 0 <= j <= i ==> !Poisons(cat, tables[j]);
      assert i < k && tables[..k][i] == t;
    }
  }

  method DetectConflicts(db: Database, bs: BranchSchema, tables: seq<Table>, createdAt: int)
    returns (conflicts: set<RowId>, poisoned: bool)
    ensures poisoned <==> exists t :: t in tables && Poisons(db.cat, t)
    ensures forall r :: r in conflicts <==>
      r.t in db.cat.stamped && Heeds(db.cat, tables, r.t) && IsConflict(db.base, bs.delta, createdAt, r)
  {
    hide IsConflict, Poisons;
    conflicts, poisoned := {}, false;
    for i := 0 to |tables|
      invariant poisoned <==> exists j :: 0 <= j < i && Poisons(db.cat, tables[j])
      invariant forall r :: r in conflicts <==>
        r.t in db.cat.stamped && Heeds(db.cat, tables[..i], r.t) && IsConflict(db.base, bs.delta, createdAt, r)
    {
      var t := tables[i];
      forall u ensures Heeds(db.cat, tables[..i + 1], u)
        <==> Heeds(db.cat, tables[..i], u) || (u == t && forall j :: 0 <= j <= i ==> !Poisons(db.cat, tables[j]))
      {
        HeedsMore(db.cat, tables, i, u);
      }
      PoisonsIs(db.cat, t);
      if poisoned || t !in db.cat.stamped {
        continue;
      }
      if t !in db.cat.idTables {
        poisoned := true;
        continue;
      }
      conflicts := conflicts + ConflictsOf(db.base, bs.delta, createdAt, t);
    }
    assert tables[..|tables|] == tables;
  }

  function ConflictsOf(base: Image, delta: Delta, createdAt: int, t: Table): (rows: set<RowId>)
    ensures forall r :: r in rows <==> r.t == t && IsConflict(base, delta, createdAt, r)
  {
    set r | r in delta && r.t == t && IsConflict(base, delta, createdAt, r)
  }

  lemma PoisonsIs(cat: Catalog, t: Table)
    ensures Poisons(cat, t) <==> t in cat.stamped && t !in cat.idTables
  {
  }
}
