/** Histories in which a merge overwrites, deletes or brings back what its branch did not see. */
module LostUpdateHistories {
  import opened Store
  import opened Cascade
  import opened Falls
  import opened TableSort
  import opened Validate
  import opened ReplayTurn
  import opened ReplayOutcome
  import opened LostUpdates

  const USER1 := RowId("users", Id(1))
  const USER2 := RowId("users", Id(2))
  const ORDER1 := RowId("orders", Id(1))
  const ORDER2 := RowId("orders", Id(2))

  /** Orders have a user and may be part of another order; both kinds of row are stamped. */
  function Shop(): Catalog {
    Catalog(["users", "orders"], {"users", "orders"}, {"users", "orders"},
            [FK("orders", "user_id", "users", Rule.Cascade),
             FK("orders", "part_of", "orders", Rule.Cascade)], map[], map[])
  }

  function User(at: int): Cols {
    map["updated_at" := Int(at)]
  }

  function Order(user: int, partOf: Value, at: int): Cols {
    map["user_id" := Int(user), "part_of" := partOf, "updated_at" := Int(at)]
  }

  lemma OrderFollows(own: bool, n: int, user: int, partOf: Value, at: int, ys: set<RowId>)
    ensures Follows(Shop().fks, own, RowId("orders", Id(n)), Order(user, partOf, at), ys)
      <==> if own then partOf.Int? && RowId("orders", Id(partOf.n)) in ys else RowId("users", Id(user)) in ys
  {
    var up, part := Shop().fks[0], Shop().fks[1];
    assert up in Shop().fks && part in Shop().fks;
    if own && partOf.Int? && RowId("orders", Id(partOf.n)) in ys {
      assert RefTo(part, RowId("orders", Id(n)), Order(user, partOf, at), ys);
    }
    if !own && RowId("users", Id(user)) in ys {
      assert RefTo(up, RowId("orders", Id(n)), Order(user, partOf, at), ys);
    }
  }

  /** An order of a deleted user falls, and so does one that is part of an order that fell. */
  lemma OrdersFall(base: Image, delta: Delta, n: int, at: int, partOf: Value)
    requires RowId("orders", Id(n)) in base && USER1 in base && USER1 in delta && delta[USER1].deleted
    requires base[RowId("orders", Id(n))] == Order(1, partOf, at)
    ensures Early(RowId("orders", Id(n))) in Marks(Shop().fks, base, delta, SetOf(Shop().tables))
  {
    var tables, fks := SetOf(Shop().tables), Shop().fks;
    assert "users" in Shop().tables && USER1 in Deleted(base, delta, tables);
    hide Marks, Follows, FallsInTurn, Order, Shop, Deleted;
    MarksAreLeast(fks, base, delta, tables);
    OrderFollows(false, n, 1, partOf, at, Deleted(base, delta, tables) + Both(Marks(fks, base, delta, tables)));
  }

  lemma PartFalls(base: Image, delta: Delta, n: int, user: int, whole: int, at: int)
    requires RowId("orders", Id(n)) in base && base[RowId("orders", Id(n))] == Order(user, Int(whole), at)
    requires Early(RowId("orders", Id(whole))) in Marks(Shop().fks, base, delta, SetOf(Shop().tables))
    ensures Early(RowId("orders", Id(n))) in Marks(Shop().fks, base, delta, SetOf(Shop().tables))
  {
    var tables, fks := SetOf(Shop().tables), Shop().fks;
    hide Marks, Follows, FallsInTurn, Order, Shop, Deleted;
    MarksAreLeast(fks, base, delta, tables);
    OrderFollows(true, n, user, Int(whole), at, EarlyOf(Marks(fks, base, delta, tables)));
  }

  /** The history: a branch is created at time 2 over base; at time 5 a writer makes base base'; then the
      branch merges delta. */
  function Worlds(base: Image, base': Image, delta: Delta): seq<World> {
    var o := Origin(2, base);
    [World(base, 2, map[]), World(base, 2, map[1 := o]), World(base, 5, map[1 := o]), World(base', 5, map[1 := o]),
     World(Left(Shop(), base', delta), 5, map[])]
  }

  function Events(base': Image, delta: Delta): seq<Event> {
    [CreateBranch(1), Tick(5), BaseWrite(base'), MergeOf(1, delta, map[], Left(Shop(), base', delta))]
  }

  lemma IsHistory(base: Image, base': Image, delta: Delta)
    requires Stamps(Shop(), base, base', 5) && NoConflict(Shop(), base', delta, 2)
    requires forall r :: r in delta ==> r.t in Shop().tables
    ensures History(Shop(), Worlds(base, base', delta), Events(base', delta))
  {
    hide Replays, Stamps, NoConflict, Left, Next, Shop;
    OpensAndWrites(base, base');
    MergesThen(base, base', delta);
  }

  lemma OpensAndWrites(base: Image, base': Image)
    requires Stamps(Shop(), base, base', 5)
    ensures
      var o := Origin(2, base);
      && Next(Shop(), World(base, 2, map[]), CreateBranch(1), World(base, 2, map[1 := o]))
      && Next(Shop(), World(base, 2, map[1 := o]), Tick(5), World(base, 5, map[1 := o]))
      && Next(Shop(), World(base, 5, map[1 := o]), BaseWrite(base'), World(base', 5, map[1 := o]))
  {
    hide Stamps, Shop;
  }

  lemma MergesThen(base: Image, base': Image, delta: Delta)
    requires NoConflict(Shop(), base', delta, 2) && forall r :: r in delta ==> r.t in Shop().tables
    ensures Next(Shop(), World(base', 5, map[1 := Origin(2, base)]),
                 MergeOf(1, delta, map[], Left(Shop(), base', delta)),
                 World(Left(Shop(), base', delta), 5, map[]))
  {
    hide Replays, NoConflict, Left, Shop;
    NothingRenamed(Shop(), base', delta);
    assert map[1 := Origin(2, base)] - {1} == map[];
  }

  /** The branch deletes user 1; a base writer then adds an order of that user.  No conflict is found
      and no live delta row dangles, and base's cascade deletes the order unseen. */
  lemma CascadeDeletesUnseenOrder()
    ensures
      var base, base' := map[USER1 := User(0)], map[USER1 := User(0), ORDER1 := Order(1, Null, 6)];
      var delta: Delta := map[USER1 := Entry(map[], true, false)];
      && History(Shop(), Worlds(base, base', delta), Events(base', delta))
      && NoneDangle(Shop().fks, base', delta)
      && !OverwritesOnlySeen(Shop(), World(base', 5, map[1 := Origin(2, base)]), Origin(2, base),
                             Left(Shop(), base', delta), base'.Keys)
  {
    var base, base' := map[USER1 := User(0)], map[USER1 := User(0), ORDER1 := Order(1, Null, 6)];
    var delta: Delta := map[USER1 := Entry(map[], true, false)];
    hide Marks, After, Worlds, Events, History;
    OrdersFall(base', delta, 1, 6, Null);
    AfterIs(Shop().fks, base', delta, SetOf(Shop().tables));
    assert "users" in Shop().tables && "orders" in Shop().tables;
    IsHistory(base, base', delta);
    assert ORDER1 !in Left(Shop(), base', delta) && ORDER1 !in base;
  }

  /** Within the hypotheses of a merge, too: the branch gives order 1 another user and deletes the first;
      a base writer adds order 2, which is part of order 1.  The view is sound, and order 2 is lost. */
  lemma CascadeDeletesUnseenPart()
    ensures
      var base, base', delta := PartBase() - {ORDER2}, PartBase(), PartDelta();
      && History(Shop(), Worlds(base, base', delta), Events(base', delta))
      && Integrity(Shop().fks, base') && Integrity(Shop().fks, View(base', delta))
      && !OverwritesOnlySeen(Shop(), World(base', 5, map[1 := Origin(2, base)]), Origin(2, base),
                             Left(Shop(), base', delta), base'.Keys)
  {
    var base, base', delta := PartBase() - {ORDER2}, PartBase(), PartDelta();
    hide Integrity, View, Stamps, NoConflict, Worlds, Events, History, Marks, After, Order, User;
    PartIsSound();
    PartHasNoConflict();
    IsHistory(base, base', delta);
    OrdersFall(base', delta, 1, 0, Null);
    PartFalls(base', delta, 2, 2, 1, 6);
    AfterIs(Shop().fks, base', delta, SetOf(Shop().tables));
    assert "users" in Shop().tables && "orders" in Shop().tables;
    assert ORDER2 !in Left(Shop(), base', delta) && ORDER2 !in base;
  }

  function PartBase(): Image {
    map[USER1 := User(0), USER2 := User(0), ORDER1 := Order(1, Null, 0), ORDER2 := Order(2, Int(1), 6)]
  }

  function PartDelta(): Delta {
    map[USER1 := Entry(map[], true, false), ORDER1 := Entry(Order(2, Null, 1), false, false)]
  }

  lemma PartView()
    ensures View(PartBase(), PartDelta())
      == map[USER2 := User(0), ORDER1 := Order(2, Null, 1), ORDER2 := Order(2, Int(1), 6)]
  {
    hide Order, User;
    assert USER1 != USER2 && ORDER1 != ORDER2;
    assert USER1 != ORDER1 && USER1 != ORDER2 && USER2 != ORDER1 && USER2 != ORDER2;
    var base, delta := PartBase(), PartDelta();
    assert base.Keys == {USER1, USER2, ORDER1, ORDER2} && delta.Keys == {USER1, ORDER1};
    assert base[USER2] == User(0) && base[ORDER2] == Order(2, Int(1), 6);
    assert delta[USER1].deleted && delta[ORDER1] == Entry(Order(2, Null, 1), false, false);
    hide PartBase, PartDelta;
    assert View(base, delta).Keys == {USER2, ORDER1, ORDER2};
  }

  lemma PartIsSound()
    ensures Integrity(Shop().fks, PartBase()) && Integrity(Shop().fks, View(PartBase(), PartDelta()))
  {
    PartView();
    hide View, PartDelta, Shop;
    OrdersHaveIntegrity(PartBase());
    OrdersHaveIntegrity(map[USER2 := User(0), ORDER1 := Order(2, Null, 1), ORDER2 := Order(2, Int(1), 6)]);
  }

  predicate OrderIsPlaced(v: Image, order: Cols) {
    && "user_id" in order && order["user_id"].Int? && RowId("users", Id(order["user_id"].n)) in v
    && "part_of" in order
    && (order["part_of"] == Null || (order["part_of"].Int? && RowId("orders", Id(order["part_of"].n)) in v))
  }

  lemma OrdersHaveIntegrity(v: Image)
    requires forall x :: x in v ==> x.k.Id? && (x.t == "orders" ==> OrderIsPlaced(v, v[x]))
    ensures Integrity(Shop().fks, v)
  {
    forall x, fk | x in v && fk in Shop().fks ensures !Dangles(fk, x, v[x], v) {
      assert fk == Shop().fks[0] || fk == Shop().fks[1];
    }
  }

  lemma PartHasNoConflict()
    ensures Stamps(Shop(), PartBase() - {ORDER2}, PartBase(), 5) && NoConflict(Shop(), PartBase(), PartDelta(), 2)
    ensures forall r :: r in PartDelta() ==> r.t in Shop().tables
  {
    assert "users" in Shop().tables && "orders" in Shop().tables;
  }

  /** A row that a base writer deleted comes back: the branch updated it before, and no conflict is found
      for a row that base no longer has. */
  lemma DeletedRowComesBack()
    ensures
      var base, base': Image := map[USER1 := User(0)], map[];
      var delta: Delta := map[USER1 := Entry(User(3), false, false)];
      && History(Shop(), Worlds(base, base', delta), Events(base', delta))
      && USER1 in base && USER1 !in base' && USER1 in Left(Shop(), base', delta)
  {
    var base, base': Image := map[USER1 := User(0)], map[];
    var delta: Delta := map[USER1 := Entry(User(3), false, false)];
    assert "users" in Shop().tables;
    IsHistory(base, base', delta);
    AfterIs(Shop().fks, base', delta, SetOf(Shop().tables));
    assert NoneDangle(Shop().fks, base', delta);
    NoTurnMarks(Shop().fks, base', delta, SetOf(Shop().tables));
    hide Marks, After, Worlds, Events, History;
    assert InTurn(USER1) !in Marks(Shop().fks, base', delta, SetOf(Shop().tables));
  }

  /** A history with a lost update.  Branch 1 writes a row at time 1, branch 2 is created at time 2 and
      writes it too; branch 1 merges at time 3 with its stamp of time 1, and branch 2 then finds no
      conflict: what branch 1 wrote is overwritten unseen. */
  lemma UnstampedReplayLosesUpdate(cat: Catalog) returns (worlds: seq<World>, events: seq<Event>)
    requires "accounts" in cat.stamped && "accounts" in cat.tables && cat.fks == []
    ensures History(cat, worlds, events) && worlds[0].open == map[] && |events| == 6 && events[5].MergeOf?
    ensures forall r :: r in worlds[0].base ==> !StampedAfter(r, worlds[0].base[r], worlds[0].now)
    ensures events[5].id in worlds[5].open
    ensures !OverwritesOnlySeen(cat, worlds[5], worlds[5].open[events[5].id], worlds[6].base, events[5].delta.Keys)
  {
    hide Next, Balance, Writes, OverwritesOnlySeen, StampedAfter;
    var base, base1, base2 := Balance(0, 10), Balance(1, 20), Balance(2, 30);
    var o1, o2 := Origin(0, base), Origin(2, base);
    events := [
      CreateBranch(1), Tick(2), CreateBranch(2), Tick(3),
      MergeOf(1, Writes(1, 20), map[], base1), MergeOf(2, Writes(2, 30), map[], base2)];
    worlds := [
      World(base, 0, map[]), World(base, 0, map[1 := o1]), World(base, 2, map[1 := o1]),
      World(base, 2, map[1 := o1, 2 := o2]), World(base, 3, map[1 := o1, 2 := o2]),
      World(base1, 3, map[2 := o2]), World(base2, 3, map[])];
    BranchesOpen(cat, base);
    FirstMerge(cat, o1, o2);
    SecondMerge(cat, o2);
    BalancesDiffer();
  }

  lemma BranchesOpen(cat: Catalog, base: Image)
    ensures
      var o1, o2 := Origin(0, base), Origin(2, base);
      && Next(cat, World(base, 0, map[]), CreateBranch(1), World(base, 0, map[1 := o1]))
      && Next(cat, World(base, 0, map[1 := o1]), Tick(2), World(base, 2, map[1 := o1]))
      && Next(cat, World(base, 2, map[1 := o1]), CreateBranch(2), World(base, 2, map[1 := o1, 2 := o2]))
      && Next(cat, World(base, 2, map[1 := o1, 2 := o2]), Tick(3), World(base, 3, map[1 := o1, 2 := o2]))
  {
    assert map[1 := Origin(0, base)][2 := Origin(2, base)] == map[1 := Origin(0, base), 2 := Origin(2, base)];
  }

  lemma FirstMerge(cat: Catalog, o1: Origin, o2: Origin)
    requires "accounts" in cat.stamped && "accounts" in cat.tables && cat.fks == [] && o1.createdAt == 0
    ensures Next(cat, World(Balance(0, 10), 3, map[1 := o1, 2 := o2]), MergeOf(1, Writes(1, 20), map[], Balance(1, 20)),
                 World(Balance(1, 20), 3, map[2 := o2]))
  {
    hide Replays, NoConflict, Balance, Writes;
    BalanceIsReplayed(cat, 0, 10, 1, 20);
    NoBalanceConflict(cat, 0, 10, Writes(1, 20), 0);
    assert map[1 := o1, 2 := o2] - {1} == map[2 := o2];
  }

  lemma BalanceIsReplayed(cat: Catalog, at0: int, balance0: int, at: int, balance: int)
    requires "accounts" in cat.tables && cat.fks == []
    ensures Replays(cat, Balance(at0, balance0), Writes(at, balance), map[], Balance(at, balance))
  {
    hide Replays;
    OneRowIsReplayed(cat, Balance(at0, balance0), Writes(at, balance), ACCOUNT);
    assert Balance(at, balance) == map[ACCOUNT := Writes(at, balance)[ACCOUNT].vals];
  }

  lemma NoBalanceConflict(cat: Catalog, at: int, balance: int, delta: Delta, createdAt: int)
    requires at <= createdAt
    ensures NoConflict(cat, Balance(at, balance), delta, createdAt)
  {
  }

  lemma SecondMerge(cat: Catalog, o2: Origin)
    requires "accounts" in cat.stamped && "accounts" in cat.tables && cat.fks == [] && o2 == Origin(2, Balance(0, 10))
    ensures Next(cat, World(Balance(1, 20), 3, map[2 := o2]), MergeOf(2, Writes(2, 30), map[], Balance(2, 30)),
                 World(Balance(2, 30), 3, map[]))
    ensures !OverwritesOnlySeen(cat, World(Balance(1, 20), 3, map[2 := o2]), o2, Balance(2, 30), Writes(2, 30).Keys)
  {
    hide Replays, NoConflict, Balance, StampedAfter;
    BalanceIsReplayed(cat, 1, 20, 2, 30);
    NoBalanceConflict(cat, 1, 20, Writes(2, 30), 2);
    BalancesDiffer();
    assert map[2 := o2] - {2} == map[];
    assert ACCOUNT in Writes(2, 30);
  }

  function Writes(at: int, balance: int): Delta {
    map[ACCOUNT := Entry(map["updated_at" := Int(at), "balance" := Int(balance)], false, false)]
  }

  const ACCOUNT := RowId("accounts", Id(1))

  function Balance(at: int, balance: int): Image {
    map[ACCOUNT := map["updated_at" := Int(at), "balance" := Int(balance)]]
  }

  lemma BalancesDiffer()
    ensures Balance(0, 10) != Balance(1, 20) && Balance(1, 20) != Balance(2, 30)
    ensures Balance(0, 10)[ACCOUNT] != Balance(1, 20)[ACCOUNT] && Balance(1, 20)[ACCOUNT] != Balance(2, 30)[ACCOUNT]
    ensures forall at, n :: Balance(at, n).Keys == {ACCOUNT} && !StampedAfter(ACCOUNT, Balance(at, n)[ACCOUNT], at)
  {
    assert Balance(0, 10)[ACCOUNT]["balance"] == Int(10) && Balance(1, 20)[ACCOUNT]["balance"] == Int(20);
    assert Balance(2, 30)[ACCOUNT]["balance"] == Int(30);
  }

  lemma OneRowIsReplayed(cat: Catalog, base: Image, delta: Delta, r: RowId)
    requires base.Keys == {r} && delta.Keys == {r} && !delta[r].deleted && r.t in cat.tables && cat.fks == []
    ensures Replays(cat, base, delta, map[], map[r := delta[r].vals])
  {
    NothingRenamed(cat, base, delta);
    OneRowIsLeft(cat, base, delta, r);
    hide Left, Replays;
  }

  lemma OneRowIsLeft(cat: Catalog, base: Image, delta: Delta, r: RowId)
    requires base.Keys == {r} && delta.Keys == {r} && !delta[r].deleted && r.t in cat.tables && cat.fks == []
    ensures Left(cat, base, delta) == map[r := delta[r].vals]
  {
    NoTurnMarks([], base, delta, SetOf(cat.tables));
    AfterIs([], base, delta, SetOf(cat.tables));
    NullRefsOfNone([], r, delta[r].vals, {});
    hide Marks, After, NullRefs, Deleted;
    assert InTurn(r) !in Marks([], base, delta, SetOf(cat.tables));
    assert Left(cat, base, delta).Keys == {r};
  }
}
