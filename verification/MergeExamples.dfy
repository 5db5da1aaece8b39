/** Branches that pass every check of a merge and still show why its conditions are needed. */
module MergeExamples {
  import opened Store
  import opened Cascade
  import opened Renaming
  import opened Remap
  import opened BranchRuns
  import opened Validate
  import opened TableSort
  import opened Replay
  import opened Falls
  import opened ReplayTurn
  import opened ReplayOutcome
  import opened MergedView
  import opened Merge

  const FLOOR := 1_000_000_000

  // ----- Parents and children -----

  const PARENT1 := RowId("parents", Id(1))
  const PARENT2 := RowId("parents", Id(2))
  const CHILD1 := RowId("children", Id(1))
  const CHILD2 := RowId("children", Id(2))
  const CHILD3 := RowId("children", Id(3))

  /** Children have a parent and may have a mate. */
  function Family(parent: Rule, mate: Rule): Catalog {
    Catalog(["parents", "children"], {"parents", "children"}, {},
            [FK("children", "parent", "parents", parent), FK("children", "mate", "children", mate)], map[], map[])
  }

  function Child(parent: int, mate: Value): Cols {
    map["parent" := Int(parent), "mate" := mate]
  }

  /** The first child has the first parent, the others have the second. */
  function FamilyBase(mate2: Value): Image {
    map[PARENT1 := map[], PARENT2 := map[], CHILD1 := Child(1, Null), CHILD2 := Child(2, mate2),
        CHILD3 := Child(2, Null)]
  }

  /** The branch deletes the first parent, deletes its child or gives it the other parent, and writes
      the third child. */
  function FamilyDelta(orphanDeleted: bool, mate3: Value): Delta {
    map[PARENT1 := Entry(map[], true, false),
        CHILD1 := Entry(Child(if orphanDeleted then 1 else 2, Null), orphanDeleted, false),
        CHILD3 := Entry(Child(2, mate3), false, false)]
  }

  /** Nothing in the hypotheses of a merge, or in its checks, is against such a branch. */
  ghost predicate PassesChecks(cat: Catalog, base: Image, delta: Delta, prodSeq: map<string, int>) {
    && MergeHypotheses(cat, base, delta, prodSeq, FLOOR) && BaseOriginSafe(cat.fks, base, delta)
    && NoViolators(cat.fks, delta, View(base, delta))
    && Acyclic(cat.tables, cat.fks) && cat.stamped == {}
  }

  ghost predicate SensibleFamily(parent: Rule, mate: Rule, mate2: Value, orphanDeleted: bool, mate3: Value) {
    && parent != SetDefault && mate != SetDefault
    && (mate2 == Null || (mate2 == Int(1) && !orphanDeleted)) && (mate3 == Null || mate3 == Int(2))
  }

  /** A child whose parent and mate are there. */
  predicate Placed(v: Image, child: Cols) {
    && "parent" in child && "mate" in child
    && child["parent"].Int? && RowId("parents", Id(child["parent"].n)) in v
    && (child["mate"] == Null || (child["mate"].Int? && RowId("children", Id(child["mate"].n)) in v))
  }

  lemma PlacedHasIntegrity(parent: Rule, mate: Rule, v: Image)
    requires forall x :: x in v ==> x.k.Id? && (x.t == "children" ==> Placed(v, v[x]))
    ensures Integrity(Family(parent, mate).fks, v)
  {
    forall x, fk | x in v && fk in Family(parent, mate).fks ensures !Dangles(fk, x, v[x], v) {
      assert fk == FK("children", "parent", "parents", parent) || fk == FK("children", "mate", "children", mate);
    }
  }

  function FamilyView(mate2: Value, orphanDeleted: bool, mate3: Value): Image {
    var others := map[PARENT2 := map[], CHILD2 := Child(2, mate2), CHILD3 := Child(2, mate3)];
    if orphanDeleted then others else others[CHILD1 := Child(2, Null)]
  }

  lemma FamilyViewIs(mate2: Value, orphanDeleted: bool, mate3: Value)
    ensures View(FamilyBase(mate2), FamilyDelta(orphanDeleted, mate3)) == FamilyView(mate2, orphanDeleted, mate3)
  {
    hide Child;
    var base, delta, view := FamilyBase(mate2), FamilyDelta(orphanDeleted, mate3), FamilyView(mate2, orphanDeleted,
                                        mate3);
    ViewRows(mate2, orphanDeleted, mate3);
    BaseRows(mate2);
    DeltaRows(orphanDeleted, mate3);
    hide FamilyBase, FamilyDelta, FamilyView;
    assert View(base, delta).Keys == view.Keys;
  }

  lemma ViewRows(mate2: Value, orphanDeleted: bool, mate3: Value)
    ensures FamilyView(mate2, orphanDeleted, mate3).Keys
      == {PARENT2, CHILD2, CHILD3} + if orphanDeleted then {} else {CHILD1}
    ensures
      var view := FamilyView(mate2, orphanDeleted, mate3);
      && view[PARENT2] == map[] && view[CHILD2] == Child(2, mate2) && view[CHILD3] == Child(2, mate3)
      && (CHILD1 in view ==> view[CHILD1] == Child(2, Null))
  {
    hide Child;
  }

  lemma FamilyHasIntegrity(parent: Rule, mate: Rule, mate2: Value, orphanDeleted: bool, mate3: Value)
    requires SensibleFamily(parent, mate, mate2, orphanDeleted, mate3)
    ensures Integrity(Family(parent, mate).fks, FamilyBase(mate2))
    ensures Integrity(Family(parent, mate).fks, View(FamilyBase(mate2), FamilyDelta(orphanDeleted, mate3)))
  {
    FamilyViewIs(mate2, orphanDeleted, mate3);
    hide Family, View;
    PlacedHasIntegrity(parent, mate, FamilyBase(mate2));
    PlacedHasIntegrity(parent, mate, FamilyView(mate2, orphanDeleted, mate3));
  }

  lemma FamilyHasNoNewRows(orphanDeleted: bool, mate3: Value, t: Table)
    ensures NewIds(FamilyDelta(orphanDeleted, mate3), t) == {}
  {
  }

  lemma FamilyIsWellFormed(parent: Rule, mate: Rule)
    requires parent != SetDefault && mate != SetDefault
    ensures forall fk :: fk in Family(parent, mate).fks ==> fk.rule != SetDefault
    ensures Family(parent, mate).stamped == {}
    ensures Family(parent, mate).WellFormed()
    ensures Acyclic(Family(parent, mate).tables, Family(parent, mate).fks)
  {
    assert Ranked(Family(parent, mate).tables, Family(parent, mate).fks, map["parents" := 0, "children" := 1]);
  }

  lemma FamilyIsShaped(parent: Rule, mate: Rule, mate2: Value, orphanDeleted: bool, mate3: Value)
    ensures RowsShaped(Family(parent, mate), FamilyBase(mate2), FamilyDelta(orphanDeleted, mate3))
    ensures NewRowsNotInBase(FamilyBase(mate2), FamilyDelta(orphanDeleted, mate3))
  {
    hide FamilyBase, FamilyDelta, Child;
    BaseRows(mate2);
    DeltaRows(orphanDeleted, mate3);
    ChildColumns(1, Null);
    ChildColumns(2, mate2);
    ChildColumns(2, Null);
  }

  lemma ChildColumns(parent: int, mate: Value)
    ensures Child(parent, mate).Keys == {"parent", "mate"}
  {
  }

  lemma FamilyPassesChecks(parent: Rule, mate: Rule, mate2: Value, orphanDeleted: bool, mate3: Value)
    requires SensibleFamily(parent, mate, mate2, orphanDeleted, mate3)
    ensures PassesChecks(Family(parent, mate), FamilyBase(mate2), FamilyDelta(orphanDeleted, mate3), map[])
    ensures Valid(Family(parent, mate).fks, FamilyBase(mate2), FamilyDelta(orphanDeleted, mate3))
  {
    var cat, base, delta := Family(parent, mate), FamilyBase(mate2), FamilyDelta(orphanDeleted, mate3);
    hide Family, FamilyBase, FamilyDelta, NewIds, Acyclic, RowsShaped, NewRowsNotInBase, Integrity, View,
      Catalog.WellFormed, Valid,
      NoViolators, BaseOriginSafe, SequencesSeparated, BaseIdsBelow;
    FamilyIsWellFormed(parent, mate);
    FamilyIsShaped(parent, mate, mate2, orphanDeleted, mate3);
    FamilyHasIntegrity(parent, mate, mate2, orphanDeleted, mate3);
    forall t ensures NewIds(delta, t) == {} {
      FamilyHasNoNewRows(orphanDeleted, mate3, t);
    }
    IntegrityHasNoViolators(cat.fks, base, delta);
    NothingNewIsSeparated(cat, base, delta);
    HypothesesHold(cat, base, delta, map[], FLOOR);
    HypothesesAreValid(cat, base, delta, map[], FLOOR);
  }

  lemma NothingNewIsSeparated(cat: Catalog, base: Image, delta: Delta)
    requires forall t :: NewIds(delta, t) == {}
    ensures SequencesSeparated(cat, cat.tables, delta, map[], FLOOR) && BaseIdsBelow(cat, base, delta, map[])
  {
  }

  lemma IntegrityHasNoViolators(fks: seq<FK>, base: Image, delta: Delta)
    requires Integrity(fks, View(base, delta))
    ensures NoViolators(fks, delta, View(base, delta)) && BaseOriginSafe(fks, base, delta)
  {
    var view := View(base, delta);
    forall r, fk | r in delta && !delta[r].deleted && fk in fks ensures !Dangles(fk, r, delta[r].vals, view) {
      assert r in view && view[r] == delta[r].vals;
    }
    forall r, fk | r in base && r !in delta && fk in fks ensures !Dangles(fk, r, base[r], view) {
      assert r in view && view[r] == base[r];
    }
    hide View, Dangles;
  }

  const TABLES := {"parents", "children"}

  function Up(parent: Rule): FK {
    FK("children", "parent", "parents", parent)
  }

  function Over(mate: Rule): FK {
    FK("children", "mate", "children", mate)
  }

  lemma FamilyFks(parent: Rule, mate: Rule)
    ensures Up(parent) in Family(parent, mate).fks && Over(mate) in Family(parent, mate).fks
    ensures forall fk :: fk in Family(parent, mate).fks ==> fk == Up(parent) || fk == Over(mate)
  {
  }

  lemma BaseRows(mate2: Value)
    ensures FamilyBase(mate2).Keys == {PARENT1, PARENT2, CHILD1, CHILD2, CHILD3}
    ensures FamilyBase(mate2)[PARENT1] == map[] && FamilyBase(mate2)[PARENT2] == map[]
    ensures FamilyBase(mate2)[CHILD1] == Child(1, Null) && FamilyBase(mate2)[CHILD2] == Child(2, mate2)
    ensures FamilyBase(mate2)[CHILD3] == Child(2, Null)
  {
    hide Child;
  }

  lemma DeltaRows(orphanDeleted: bool, mate3: Value)
    ensures FamilyDelta(orphanDeleted, mate3).Keys == {PARENT1, CHILD1, CHILD3}
    ensures FamilyDelta(orphanDeleted, mate3)[PARENT1].deleted
    ensures FamilyDelta(orphanDeleted, mate3)[CHILD1].deleted == orphanDeleted
    ensures FamilyDelta(orphanDeleted, mate3)[CHILD3] == Entry(Child(2, mate3), false, false)
    ensures forall r :: r in FamilyDelta(orphanDeleted, mate3) ==> !FamilyDelta(orphanDeleted, mate3)[r].isNew
    ensures FamilyDelta(orphanDeleted, mate3)[CHILD1].vals == Child(if orphanDeleted then 1 else 2, Null)
  {
    hide Child;
  }

  lemma ChildRefs(fk: FK, rule: Rule, n: int, parent: int, mate: Value, ys: set<RowId>)
    requires fk == Up(rule) || fk == Over(rule)
    ensures fk == Up(rule) ==>
      RefTo(fk, RowId("children", Id(n)), Child(parent, mate), ys) == (RowId("parents", Id(parent)) in ys)
    ensures fk == Over(rule) ==>
      RefTo(fk, RowId("children", Id(n)), Child(parent, mate), ys) == (mate.Int? && RowId("children", Id(mate.n)) in ys)
  {
  }

  lemma ParentsReferToNothing(fk: FK, a: Cols, b: Cols, ys: set<RowId>)
    requires fk.src == "children"
    ensures !RefTo(fk, PARENT1, a, ys) && !RefTo(fk, PARENT2, b, ys)
  {
  }

  lemma FamilyFollows(parent: Rule, mate: Rule, own: bool, n: int, p: int, m: Value, ys: set<RowId>)
    ensures Follows(Family(parent, mate).fks, own, RowId("children", Id(n)), Child(p, m), ys)
      <==> if own then mate == Rule.Cascade && m.Int? && RowId("children", Id(m.n)) in ys
           else parent == Rule.Cascade && RowId("parents", Id(p)) in ys
  {
    FamilyFks(parent, mate);
    ChildRefs(Up(parent), parent, n, p, m, ys);
    ChildRefs(Over(mate), mate, n, p, m, ys);
    hide Family, Child, RefTo;
  }

  lemma ParentsFollowNothing(parent: Rule, mate: Rule, own: bool, r: RowId, vals: Cols, ys: set<RowId>)
    requires r == PARENT1 || r == PARENT2
    ensures !Follows(Family(parent, mate).fks, own, r, vals, ys)
  {
    FamilyFks(parent, mate);
    hide Family;
  }

  lemma FamilyDeleted(mate2: Value, orphanDeleted: bool, mate3: Value, done: set<Table>)
    ensures
      var gone := Deleted(FamilyBase(mate2), FamilyDelta(orphanDeleted, mate3), done);
      && (PARENT1 in gone <==> "parents" in done)
      && gone <= {PARENT1, CHILD1} && (CHILD1 in gone <==> orphanDeleted && "children" in done)
  {
    BaseRows(mate2);
    DeltaRows(orphanDeleted, mate3);
    hide FamilyBase, FamilyDelta, Child;
  }

  /** The first child falls, being below the deleted parent in base. */
  lemma FirstChildFalls(mate: Rule, mate2: Value, mate3: Value)
    ensures Early(CHILD1) in Marks(Family(Rule.Cascade, mate).fks, FamilyBase(mate2), FamilyDelta(false, mate3), TABLES)
  {
    var fks, base, delta := Family(Rule.Cascade, mate).fks, FamilyBase(mate2), FamilyDelta(false, mate3);
    hide Family, FamilyBase, FamilyDelta, Child, Follows, Marks, FallsInTurn, Deleted;
    MarksAreLeast(fks, base, delta, TABLES);
    BaseRows(mate2);
    FamilyDeleted(mate2, false, mate3, TABLES);
    FamilyFollows(Rule.Cascade, mate, false, 1, 1, Null,
                  Deleted(base, delta, TABLES) + Both(Marks(fks, base, delta, TABLES)));
  }

  /** With no mates, or none that cascade, nothing falls with it. */
  lemma OnlyFirstChildFalls(mate: Rule, mate2: Value, mate3: Value)
    requires mate2 == Null || mate != Rule.Cascade
    ensures Marks(Family(Rule.Cascade, mate).fks, FamilyBase(mate2), FamilyDelta(false, mate3), TABLES)
      == {Early(CHILD1)}
  {
    var fks, base, delta := Family(Rule.Cascade, mate).fks, FamilyBase(mate2), FamilyDelta(false, mate3);
    var m := {Early(CHILD1)};
    hide Family, FamilyBase, FamilyDelta, Child, Follows, Marks, Deleted, FallsEarly, FallsInTurn, Universe;
    FirstChildFalls(mate, mate2, mate3);
    forall x
      ensures FallsEarly(fks, base, delta, TABLES, m, x) ==> x == CHILD1
      ensures !FallsInTurn(fks, base, delta, TABLES, m, x)
    {
      RestDoesNotFallEarly(mate, mate2, mate3, x);
      NoneFallsInTurn(mate, mate2, mate3, m, x);
    }
    MarksAreLeast(fks, base, delta, TABLES);
    assert Settled(fks, base, delta, TABLES, m);
  }

  lemma RestDoesNotFallEarly(mate: Rule, mate2: Value, mate3: Value, x: RowId)
    requires mate2 == Null || mate != Rule.Cascade
    ensures
      var fks, base, delta := Family(Rule.Cascade, mate).fks, FamilyBase(mate2), FamilyDelta(false, mate3);
      FallsEarly(fks, base, delta, TABLES, {Early(CHILD1)}, x) ==> x == CHILD1
  {
    var fks, base, delta := Family(Rule.Cascade, mate).fks, FamilyBase(mate2), FamilyDelta(false, mate3);
    var m := {Early(CHILD1)};
    hide Family, FamilyBase, FamilyDelta, Child, Follows, Deleted;
    BaseRows(mate2);
    FamilyDeleted(mate2, false, mate3, TABLES);
    var gone := Deleted(base, delta, TABLES) + Both(m);
    assert EarlyOf(m) == {CHILD1} && Both(m) == {CHILD1};
    FamilyFollows(Rule.Cascade, mate, false, 2, 2, mate2, gone);
    FamilyFollows(Rule.Cascade, mate, true, 2, 2, mate2, EarlyOf(m));
    FamilyFollows(Rule.Cascade, mate, false, 3, 2, Null, gone);
    FamilyFollows(Rule.Cascade, mate, true, 3, 2, Null, EarlyOf(m));
    if x == PARENT1 || x == PARENT2 {
      ParentsFollowNothing(Rule.Cascade, mate, false, x, base[x], gone);
      ParentsFollowNothing(Rule.Cascade, mate, true, x, base[x], EarlyOf(m));
    }
  }

  lemma NoneFallsInTurn(mate: Rule, mate2: Value, mate3: Value, m: set<Mark>, x: RowId)
    requires TurnOf(m) == {}
    ensures !FallsInTurn(Family(Rule.Cascade, mate).fks, FamilyBase(mate2), FamilyDelta(false, mate3), TABLES, m, x)
  {
    var fks, base, delta := Family(Rule.Cascade, mate).fks, FamilyBase(mate2), FamilyDelta(false, mate3);
    hide Family, FamilyBase, FamilyDelta, Child, Deleted, RefTo;
    FamilyDeleted(mate2, false, mate3, TABLES);
    assert Deleted(base, delta, TABLES) + TurnOf(m) == {PARENT1};
    forall vals ensures !Follows(fks, true, x, vals, {PARENT1}) {
      OwnIsNoParent(Rule.Cascade, mate, x, vals);
    }
    hide Follows;
  }

  lemma OwnIsNoParent(parent: Rule, mate: Rule, x: RowId, vals: Cols)
    ensures !Follows(Family(parent, mate).fks, true, x, vals, {PARENT1})
  {
    FamilyFks(parent, mate);
    hide Family;
  }

  /** CascadesAbsorbed is not needed: the child that got another parent falls with the old one in
      base and comes back with its own table. */
  lemma RepointedChildIsMerged()
    ensures
      var cat, base, delta := Family(Rule.Cascade, SetNull), FamilyBase(Null), FamilyDelta(false, Null);
      && PassesChecks(cat, base, delta, map[])
      && !CascadesAbsorbed(cat.fks, base, delta)
      && NothingLost(cat.fks, base, delta, TABLES)
  {
    var cat, base, delta := Family(Rule.Cascade, SetNull), FamilyBase(Null), FamilyDelta(false, Null);
    hide Family, FamilyBase, FamilyDelta, Child, RefTo, PassesChecks, Marks, Deleted;
    FamilyPassesChecks(Rule.Cascade, SetNull, Null, false, Null);
    OnlyFirstChildFalls(SetNull, Null, Null);
    FamilyFks(Rule.Cascade, SetNull);
    BaseRows(Null);
    DeltaRows(false, Null);
    FamilyDeleted(Null, false, Null, TABLES);
    ChildRefs(Up(Rule.Cascade), Rule.Cascade, 1, 1, Null, Tombstones(delta));
    var taken := TakenBy(cat.fks, base, delta, TABLES);
    assert Both({Early(CHILD1)}) == {CHILD1} && taken == {PARENT1, CHILD1};
    forall x, fk | x in base && x !in delta && fk in cat.fks && fk.rule == SetNull
      ensures !RefTo(fk, x, base[x], taken)
    {
      ParentsReferToNothing(fk, base[PARENT1], base[PARENT2], taken);
      ChildRefs(fk, SetNull, 2, 2, Null, taken);
    }
  }

  lemma SecondChildFalls(mate3: Value)
    ensures Early(CHILD2) in Marks(Family(Rule.Cascade, Rule.Cascade).fks, FamilyBase(Int(1)),
                                   FamilyDelta(false, mate3), TABLES)
  {
    var fks, base, delta := Family(Rule.Cascade, Rule.Cascade).fks, FamilyBase(Int(1)), FamilyDelta(false, mate3);
    hide Family, FamilyBase, FamilyDelta, Child, Follows, Marks, FallsInTurn;
    FirstChildFalls(Rule.Cascade, Int(1), mate3);
    MarksAreLeast(fks, base, delta, TABLES);
    BaseRows(Int(1));
    FamilyFollows(Rule.Cascade, Rule.Cascade, true, 2, 2, Int(1), EarlyOf(Marks(fks, base, delta, TABLES)));
  }

  /** A branch that is merged without the row that it did not touch: the second child is below the
      first one in base, falls with it, and does not come back. */
  lemma CascadeLosesUntouchedRow()
    ensures
      var cat, base, delta := Family(Rule.Cascade, Rule.Cascade), FamilyBase(Int(1)), FamilyDelta(false, Null);
      && PassesChecks(cat, base, delta, map[])
      && CHILD2 in View(base, delta) && CHILD2 !in After(cat.fks, base, delta, TABLES)
  {
    hide Family, FamilyBase, FamilyDelta, PassesChecks, Marks, After;
    FamilyPassesChecks(Rule.Cascade, Rule.Cascade, Int(1), false, Null);
    SecondChildFalls(Null);
    AfterIs(Family(Rule.Cascade, Rule.Cascade).fks, FamilyBase(Int(1)), FamilyDelta(false, Null), TABLES);
    BaseRows(Int(1));
    DeltaRows(false, Null);
  }

  /** With SET NULL mates the second child stays, but its mate, whom the branch shows, is gone. */
  lemma SetNullLosesReference()
    ensures
      var cat, base, delta := Family(Rule.Cascade, SetNull), FamilyBase(Int(1)), FamilyDelta(false, Null);
      && PassesChecks(cat, base, delta, map[])
      && CHILD2 in View(base, delta) && View(base, delta)[CHILD2] == Child(2, Int(1))
      && CHILD2 in After(cat.fks, base, delta, TABLES) && After(cat.fks, base, delta, TABLES)[CHILD2] == Child(2, Null)
  {
    var cat, base, delta := Family(Rule.Cascade, SetNull), FamilyBase(Int(1)), FamilyDelta(false, Null);
    hide Family, FamilyBase, FamilyDelta, Child, RefTo, PassesChecks, Marks, NullRefs, Deleted, After;
    FamilyPassesChecks(Rule.Cascade, SetNull, Int(1), false, Null);
    OnlyFirstChildFalls(SetNull, Int(1), Null);
    AfterIs(cat.fks, base, delta, TABLES);
    BaseRows(Int(1));
    DeltaRows(false, Null);
    FamilyDeleted(Int(1), false, Null, TABLES);
    assert Both({Early(CHILD1)}) == {CHILD1};
    SecondChildsMateIsNulled(TakenBy(cat.fks, base, delta, TABLES));
  }

  lemma SecondChildsMateIsNulled(taken: set<RowId>)
    requires CHILD1 in taken && PARENT2 !in taken
    ensures NullRefs(Family(Rule.Cascade, SetNull).fks, CHILD2, Child(2, Int(1)), taken) == Child(2, Null)
  {
    var fks, vals := Family(Rule.Cascade, SetNull).fks, Child(2, Int(1));
    assert fks[1] in fks && RefTo(fks[1], CHILD2, vals, taken);
    assert NullsColumn(fks, CHILD2, vals, "mate", taken) && !NullsColumn(fks, CHILD2, vals, "parent", taken);
  }

  lemma ReferrerIsRefused(fks: seq<FK>, base: Image, delta: Delta, order: seq<Table>, r: RowId, fk: FK)
    requires r.t in SetOf(order) && LiveIn(delta, r.t, r) && fk in fks
    requires RefTo(fk, r, delta[r].vals, Missing(delta, r.t, Marks(fks, base, delta, SetOf(order))))
    ensures !Accepted(fks, base, delta, order)
  {
    var j :| 0 <= j < |order| && order[j] == r.t;
    hide Marks, HeldOn, RefTo, SetOf, Missing;
    assert RefersToLost(fks, delta, Marks(fks, base, delta, SetOf(order)), order[j]);
  }

  lemma HolderIsRefused(fks: seq<FK>, base: Image, delta: Delta, order: seq<Table>, i: nat)
    requires i <= |order| && HeldOn(fks, base, delta, SetOf(order[..i]))
    ensures !Accepted(fks, base, delta, order)
  {
    hide Marks, HeldOn, RefersToLost, SetOf;
  }

  /** A branch that base refuses: the third child, written by the branch, has the second as its mate. */
  lemma ReferenceToLostIsRefused(order: seq<Table>)
    requires SetOf(order) == TABLES
    ensures
      var cat, base, delta := Family(Rule.Cascade, Rule.Cascade), FamilyBase(Int(1)), FamilyDelta(false, Int(2));
      PassesChecks(cat, base, delta, map[]) && !Accepted(cat.fks, base, delta, order)
  {
    var cat, base, delta := Family(Rule.Cascade, Rule.Cascade), FamilyBase(Int(1)), FamilyDelta(false, Int(2));
    hide Family, FamilyBase, FamilyDelta, Child, RefTo, PassesChecks, Marks, SetOf, Accepted;
    FamilyPassesChecks(Rule.Cascade, Rule.Cascade, Int(1), false, Int(2));
    SecondChildFalls(Int(2));
    FamilyFks(Rule.Cascade, Rule.Cascade);
    DeltaRows(false, Int(2));
    var missing := Missing(delta, "children", Marks(cat.fks, base, delta, TABLES));
    MissingIs(delta, "children", Marks(cat.fks, base, delta, TABLES), CHILD2);
    ChildRefs(Over(Rule.Cascade), Rule.Cascade, 3, 2, Int(2), missing);
    hide Missing;
    ReferrerIsRefused(cat.fks, base, delta, order, CHILD3, Over(Rule.Cascade));
  }

  /** A branch that base refuses: it deleted a child and its parent, and parents go first. */
  lemma ParentDeletedFirstIsRefused(order: seq<Table>)
    requires SetOf(order) == TABLES && NoDuplicates(order)
    requires ParentsFirst(order, Family(Restrict, Rule.Cascade).fks, order)
    ensures
      var cat, base, delta := Family(Restrict, Rule.Cascade), FamilyBase(Null), FamilyDelta(true, Null);
      PassesChecks(cat, base, delta, map[]) && !Accepted(cat.fks, base, delta, order)
  {
    hide Family, PassesChecks, SetOf, Accepted, ParentsFirst, HeldOn;
    FamilyPassesChecks(Restrict, Rule.Cascade, Null, true, Null);
    FamilyFks(Restrict, Rule.Cascade);
    assert Up(Restrict).src == "children" && Up(Restrict).ref == "parents";
    var i := ParentsComeFirst(order, Family(Restrict, Rule.Cascade).fks);
    FirstChildHolds(SetOf(order[..i + 1]));
    HolderIsRefused(Family(Restrict, Rule.Cascade).fks, FamilyBase(Null), FamilyDelta(true, Null), order, i + 1);
  }

  lemma FirstChildHolds(done: set<Table>)
    requires "parents" in done && "children" !in done
    ensures HeldOn(Family(Restrict, Rule.Cascade).fks, FamilyBase(Null), FamilyDelta(true, Null), done)
  {
    var cat, base, delta := Family(Restrict, Rule.Cascade), FamilyBase(Null), FamilyDelta(true, Null);
    hide Family, FamilyBase, FamilyDelta, Child, RefTo, Marks, Deleted;
    FamilyFks(Restrict, Rule.Cascade);
    BaseRows(Null);
    DeltaRows(true, Null);
    FamilyDeleted(Null, true, Null, done);
    NothingFallsYet(done);
    var m := Marks(cat.fks, base, delta, done);
    ChildRefs(Up(Restrict), Restrict, 1, 1, Null, Deleted(base, delta, done) + Both(m));
    assert OldHolds(base, delta, done, m, CHILD1, Up(Restrict));
  }

  lemma NothingFallsYet(done: set<Table>)
    requires "children" !in done
    ensures Marks(Family(Restrict, Rule.Cascade).fks, FamilyBase(Null), FamilyDelta(true, Null), done) == {}
  {
    var fks, base, delta := Family(Restrict, Rule.Cascade).fks, FamilyBase(Null), FamilyDelta(true, Null);
    hide Family, FamilyBase, FamilyDelta, RefTo, Deleted, Marks, Universe, Follows;
    FamilyDeleted(Null, true, Null, done);
    assert EarlyOf({}) == {} && TurnOf({}) == {} && Both({}) == {};
    forall x, vals, own, ys | ys == {} || !own || ys == Deleted(base, delta, done) + {}
      ensures !Follows(fks, own, x, vals, ys)
    {
      assert own ==> ys <= {PARENT1};
      RestrictedFollowNothing(own, x, vals, ys);
    }
    MarksAreLeast(fks, base, delta, done);
    assert Settled(fks, base, delta, done, {});
  }

  lemma RestrictedFollowNothing(own: bool, x: RowId, vals: Cols, ys: set<RowId>)
    requires own ==> ys <= {PARENT1}
    ensures !Follows(Family(Restrict, Rule.Cascade).fks, own, x, vals, ys)
  {
    FamilyFks(Restrict, Rule.Cascade);
    hide Family;
  }

  lemma ParentsComeFirst(order: seq<Table>, fks: seq<FK>) returns (i: nat)
    requires SetOf(order) == TABLES && NoDuplicates(order) && ParentsFirst(order, fks, order)
    requires exists fk :: fk in fks && fk.src == "children" && fk.ref == "parents"
    ensures i < |order| && "parents" in SetOf(order[..i + 1]) && "children" !in SetOf(order[..i + 1])
  {
    assert "parents" in SetOf(order) && "children" in SetOf(order);
    i :| 0 <= i < |order| && order[i] == "parents";
    var j :| 0 <= j < |order| && order[j] == "children";
    var fk :| fk in fks && fk.src == "children" && fk.ref == "parents";
    assert Depends(order, fk);
    assert order[i] in order[..i + 1];
  }

  // ----- Users and members -----

  const NEW_USER := RowId("users", Id(FLOOR))

  function Member(user: int): RowId {
    RowId("members", Composite(map["user_id" := Int(user), "team" := Int(7)]))
  }

  function Club(): Catalog {
    Catalog(["users", "members"], {"users"}, {}, [FK("members", "user_id", "users", Rule.Cascade)], map[],
            map["users" := "users_seq"])
  }

  /** A new user with a membership, and a deleted membership of the id that comes next. */
  function ClubDelta(): Delta {
    map[NEW_USER := Entry(map[], false, true), Member(FLOOR) := Entry(map[], false, true),
        Member(1) := Entry(map[], true, true)]
  }

  const CLUB_SEQUENCES: map<string, int> := map["users_seq" := 1]

  lemma ClubNewIds()
    ensures NewIds(ClubDelta(), "users") == {FLOOR} && TotalNew(Club(), ClubDelta(), Club().tables) == 1
  {
    assert NEW_USER in ClubDelta();
    assert NewIds(ClubDelta(), "users") == {FLOOR};
    var ts := Club().tables;
    assert ts[..1] == ["users"] && ts[..1][..0] == [];
    hide ClubDelta, NewIds;
    assert TotalNew(Club(), ClubDelta(), ts[..1]) == 1;
  }

  lemma ClubIsShaped()
    ensures RowsShaped(Club(), map[], ClubDelta()) && Club().WellFormed()
  {
  }

  lemma MembersDiffer()
    ensures Member(FLOOR) != Member(1)
    ensures Member(FLOOR) in ClubDelta() && Member(1) in ClubDelta() && ClubDelta()[Member(1)].deleted
    ensures !ClubDelta()[Member(FLOOR)].deleted
  {
    assert Member(FLOOR).k.cols["user_id"] != Member(1).k.cols["user_id"];
  }

  lemma ClubHasIntegrity()
    ensures Integrity(Club().fks, map[]) && Integrity(Club().fks, View(map[], ClubDelta()))
  {
    MembersDiffer();
    var view := View(map[], ClubDelta());
    assert view.Keys == {NEW_USER, Member(FLOOR)};
    hide View, ClubDelta;
  }

  lemma ClubIsSeparated()
    ensures SequencesSeparated(Club(), Club().tables, ClubDelta(), CLUB_SEQUENCES, FLOOR)
  {
    ClubNewIds();
    hide NewIds, TotalNew;
  }

  lemma ClubIsAcyclic()
    ensures Acyclic(Club().tables, Club().fks) && Club().stamped == {} && forall fk :: fk in Club().fks ==>
      fk.rule != SetDefault
  {
    assert Ranked(Club().tables, Club().fks, map["users" := 0, "members" := 1]);
  }

  lemma ClubPassesChecks()
    ensures PassesChecks(Club(), map[], ClubDelta(), CLUB_SEQUENCES)
  {
    hide ClubDelta, Club, SequencesSeparated, Integrity, View, RowsShaped, Catalog.WellFormed, NoViolators,
      BaseOriginSafe, Acyclic;
    ClubIsShaped();
    ClubHasIntegrity();
    ClubIsSeparated();
    ClubIsAcyclic();
    IntegrityHasNoViolators(Club().fks, map[], ClubDelta());
  }

  lemma ClubRemap()
    ensures
      var remaps := Predict(Club(), ClubDelta(), CLUB_SEQUENCES, Club().tables);
      "users" in remaps && remaps["users"] == map[FLOOR := 1]
  {
    ClubNewIds();
    var ts := Club().tables;
    assert ts[..1] == ["users"] && ts[..1][..0] == [];
    hide NewIds, TotalNew, ClubDelta, Rank;
    LeastRank({FLOOR}, FLOOR);
    assert PredictTable(Club(), ClubDelta(), AfterDrawing(Club(), ClubDelta(), CLUB_SEQUENCES, []), "users")
      == map[FLOOR := 1];
  }

  /** A branch whose references cannot be rewritten: the new membership would get the key of the
      deleted one. */
  lemma DeletedMembershipStopsMerge()
    ensures PassesChecks(Club(), map[], ClubDelta(), CLUB_SEQUENCES)
    ensures !KeysApart(Club(), ClubDelta(), CLUB_SEQUENCES)
  {
    hide ClubDelta, PassesChecks, Injective, Club, FullSub, Predict;
    ClubPassesChecks();
    ClubRemap();
    var remaps := Predict(Club(), ClubDelta(), CLUB_SEQUENCES, Club().tables);
    ClubSub(remaps);
    MembersDiffer();
    assert Member(1).k.cols == Member(FLOOR).k.cols["user_id" := Int(1)];
    FreshKeyCollides(FullSub(Club().fks, remaps), ClubDelta(), Member(FLOOR), Member(1), "user_id", FLOOR);
  }

  /** A new user, and a deleted membership of the id that comes next. */
  function ClubDeltaWithoutMember(): Delta {
    map[NEW_USER := Entry(map[], false, true), Member(1) := Entry(map[], true, true)]
  }

  /** Without the new membership nothing is in the way, although the deleted one holds the fresh id. */
  lemma DeletedMembershipAloneIsHarmless()
    ensures !NoFreshKeys(Club(), ClubDeltaWithoutMember(), CLUB_SEQUENCES, FLOOR)
    ensures KeysApart(Club(), ClubDeltaWithoutMember(), CLUB_SEQUENCES)
  {
    HoldsFreshId();
    var sub := FullSub(Club().fks, Predict(Club(), ClubDeltaWithoutMember(), CLUB_SEQUENCES, Club().tables));
    hide Club, FullSub, RenRow, Predict, NoFreshKeys, Member;
    RenRowKeepsTable(sub, NEW_USER);
    RenRowKeepsTable(sub, Member(1));
    assert NEW_USER.t != Member(1).t by {
      MemberTable(1);
    }
    assert ClubDeltaWithoutMember().Keys == {NEW_USER, Member(1)};
  }

  lemma MemberTable(user: int)
    ensures Member(user).t == "members"
  {
  }

  lemma HoldsFreshId()
    ensures !NoFreshKeys(Club(), ClubDeltaWithoutMember(), CLUB_SEQUENCES, FLOOR)
  {
    var fk := FK("members", "user_id", "users", Rule.Cascade);
    assert Member(1) in ClubDeltaWithoutMember() && fk in Club().fks && Club().SequenceOf("users") == "users_seq";
    assert Member(1).k.cols["user_id"] == Int(1);
    hide Club, ClubDeltaWithoutMember;
  }

  lemma ClubSub(remaps: Remaps)
    requires "users" in remaps
    ensures At(FullSub(Club().fks, remaps), "members", "user_id") == remaps["users"]
  {
    assert Club().fks[0] in Club().fks;
    FullSubAt(Club().fks, remaps, "members", "user_id");
  }

  // ----- An ordinary branch -----

  function ShopCatalog(): Catalog {
    Catalog(["orders", "users"], {"users", "orders"}, {"users"}, [FK("orders", "user_id", "users", Rule.Cascade)],
            map[], map["users" := "users_seq", "orders" := "orders_seq"])
  }

  /** A new user with an order, beside a base user and a deleted base order. */
  function ShopDelta(): Delta {
    map[
      RowId("users", Id(FLOOR)) := Entry(map[], false, true),
      RowId("orders", Id(FLOOR)) := Entry(map["user_id" := Int(FLOOR)], false, true),
      RowId("orders", Id(1)) := Entry(map["user_id" := Int(1)], true, false)]
  }

  function ShopBase(): Image {
    map[RowId("users", Id(1)) := map["updated_at" := Int(0)], RowId("orders", Id(1)) := map["user_id" := Int(1)]]
  }

  const SHOP_SEQUENCES: map<string, int> := map["users_seq" := 2, "orders_seq" := 2]

  lemma ShopNewIds()
    ensures NewIds(ShopDelta(), "users") == {FLOOR} && NewIds(ShopDelta(), "orders") == {FLOOR}
    ensures TotalNew(ShopCatalog(), ShopDelta(), ShopCatalog().tables) == 2
  {
    var user, order := RowId("users", Id(FLOOR)), RowId("orders", Id(FLOOR));
    assert user in ShopDelta() && order in ShopDelta();
    assert NewIds(ShopDelta(), "users") == {FLOOR};
    assert NewIds(ShopDelta(), "orders") == {FLOOR};
    var ts := ShopCatalog().tables;
    assert ts[..1] == ["orders"] && ts[..0] == [];
    assert TotalNew(ShopCatalog(), ShopDelta(), ts[..1]) == 1;
  }

  lemma ShopSequencesSeparated()
    ensures SequencesSeparated(ShopCatalog(), ShopCatalog().tables, ShopDelta(), SHOP_SEQUENCES, FLOOR)
    ensures BaseIdsBelow(ShopCatalog(), ShopBase(), ShopDelta(), SHOP_SEQUENCES)
  {
    ShopNewIds();
    hide NewIds, TotalNew;
  }

  lemma ShopHasIntegrity()
    ensures Integrity(ShopCatalog().fks, ShopBase())
    ensures NoViolators(ShopCatalog().fks, ShopDelta(), View(ShopBase(), ShopDelta()))
    ensures BaseOriginSafe(ShopCatalog().fks, ShopBase(), ShopDelta())
  {
    assert RowId("users", Id(1)) in ShopBase() && RowId("users", Id(FLOOR)) in View(ShopBase(), ShopDelta());
  }

  lemma ShopIsShaped()
    ensures RowsShaped(ShopCatalog(), ShopBase(), ShopDelta()) && NewRowsNotInBase(ShopBase(), ShopDelta())
  {
  }

  lemma ShopIsAbsorbed()
    ensures CascadesAbsorbed(ShopCatalog().fks, ShopBase(), ShopDelta())
    ensures NothingHolds(ShopCatalog().fks, ShopBase(), ShopDelta())
  {
  }

  lemma ShopIsWellFormed()
    ensures ShopCatalog().WellFormed() && forall fk :: fk in ShopCatalog().fks ==> fk.rule != SetDefault
  {
  }

  /** All that is asked of a branch holds together of an ordinary one: the hypotheses, keys that stay
      apart, a clean validation, and a replay that base accepts and that gives the branch's view. */
  lemma OrdinaryBranchMeetsHypotheses()
    ensures
      var cat, base, delta := ShopCatalog(), ShopBase(), ShopDelta();
      && MergeHypotheses(cat, base, delta, SHOP_SEQUENCES, FLOOR) && BaseOriginSafe(cat.fks, base, delta)
      && Acyclic(cat.tables, cat.fks) && KeysApart(cat, delta, SHOP_SEQUENCES)
      && NoViolators(cat.fks, delta, View(base, delta))
      && Welcome(cat, base, delta, SHOP_SEQUENCES, {}) && Replayed(cat, base, delta) == Some(View(base, delta))
  {
    var cat, base, delta := ShopCatalog(), ShopBase(), ShopDelta();
    ShopMeetsHypotheses();
    ShopHasIntegrity();
    ShopIsPlain();
    ShopIsAbsorbed();
    hide *;
    HypothesesHold(cat, base, delta, SHOP_SEQUENCES, FLOOR);
    HypothesesAreValid(cat, base, delta, SHOP_SEQUENCES, FLOOR);
    ValidatedMeansIntegrity(cat.fks, base, delta);
    RenamingKeepsKeysApart(cat, base, delta, SHOP_SEQUENCES, FLOOR);
    KeysApartIs(cat, delta, SHOP_SEQUENCES);
    AbsorbedIsAccepted(cat.fks, base, delta, DepthFirst(cat.tables, cat.fks));
    WhatReplayGives(cat, base, delta, SHOP_SEQUENCES, FLOOR);
    WelcomeIs(cat, base, delta, SHOP_SEQUENCES, {});
  }

  lemma KeysApartIs(cat: Catalog, delta: Delta, prodSeq: map<string, int>)
    ensures KeysApart(cat, delta, prodSeq) <==>
      Injective(FullSub(cat.fks, Predict(cat, delta, prodSeq, cat.tables)), delta.Keys)
  {
  }

  lemma ShopMeetsHypotheses()
    ensures MergeHypotheses(ShopCatalog(), ShopBase(), ShopDelta(), SHOP_SEQUENCES, FLOOR)
  {
    hide ShopCatalog, ShopBase, ShopDelta, SequencesSeparated, BaseIdsBelow, Integrity, RowsShaped, NewRowsNotInBase,
      Catalog.WellFormed;
    ShopSequencesSeparated();
    ShopHasIntegrity();
    ShopIsShaped();
    ShopIsWellFormed();
  }

  lemma ShopIsPlain()
    ensures Acyclic(ShopCatalog().tables, ShopCatalog().fks)
    ensures NoFreshKeys(ShopCatalog(), ShopDelta(), SHOP_SEQUENCES, FLOOR)
  {
    hide ShopBase;
    assert forall r :: r in ShopDelta() ==> r.k.Id?;
    hide ShopDelta;
    assert Ranked(ShopCatalog().tables, ShopCatalog().fks, map["users" := 0, "orders" := 1]);
  }
}
