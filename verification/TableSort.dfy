/** The depth-first ordering of the tables for the replay. */
module TableSort {
  import opened Store

  function SetOf(ts: seq<Table>): set<Table> {
    set t | t in ts
  }

  ghost predicate NoDuplicates(ts: seq<Table>) {
    forall i, j :: 0 <= i < j < |ts| ==> ts[i] != ts[j]
  }

  /** fk makes its source table depend on another one of the tables. */
  predicate Depends(tables: seq<Table>, fk: FK) {
    fk.src in tables && fk.ref in tables && fk.ref != fk.src
  }

  /** Every referenced table precedes each table that references it. */
  ghost predicate ParentsFirst(tables: seq<Table>, fks: seq<FK>, order: seq<Table>) {
    forall i, fk :: 0 <= i < |order| && fk in fks && Depends(tables, fk) && order[i] == fk.src ==> fk.ref in order[..i]
  }

  ghost predicate Ranked(tables: seq<Table>, fks: seq<FK>, rank: map<Table, int>) {
    && SetOf(tables) <= rank.Keys
    && forall fk :: fk in fks && Depends(tables, fk) ==> rank[fk.ref] < rank[fk.src]
  }

  /** The foreign keys between the tables, self-references aside, form no cycle. */
  ghost predicate Acyclic(tables: seq<Table>, fks: seq<FK>) {
    exists rank :: Ranked(tables, fks, rank)
  }

  // ----- The order that the depth-first search finds -----

  /** The tables that name references, as often as it has foreign keys to them. */
  function Parents(tables: seq<Table>, fks: seq<FK>, name: Table, i: nat): (parents: seq<Table>)
    requires i <= |fks|
    ensures forall t :: t in parents ==> t in tables
  {
    if i == 0 then []
    else
      var fk := fks[i - 1];
      Parents(tables, fks, name, i - 1) + if fk.src == name && fk.ref != name && fk.ref in tables then [fk.ref] else []
  }

  /** The tables emitted when name has been visited below the open tables. */
  function Emit(tables: seq<Table>, fks: seq<FK>, open: set<Table>, emitted: seq<Table>, name: Table): seq<Table>
    requires name in tables
    decreases SetOf(tables) - open, 0, 0
  {
    if name in open || name in emitted then emitted
    else
      assert name in SetOf(tables) - open && name !in SetOf(tables) - (open + {name});
      EmitEach(tables, fks, open + {name}, emitted, Parents(tables, fks, name, |fks|)) + [name]
  }

  function EmitEach(tables: seq<Table>, fks: seq<FK>, open: set<Table>, emitted: seq<Table>,
                    names: seq<Table>): seq<Table>
    requires forall t :: t in names ==> t in tables
    decreases SetOf(tables) - open, 1, |names|
  {
    if names == [] then emitted
    else
      var last := |names| - 1;
      Emit(tables, fks, open, EmitEach(tables, fks, open, emitted, names[..last]), names[last])
  }

  function DepthFirst(tables: seq<Table>, fks: seq<FK>): seq<Table> {
    EmitEach(tables, fks, {}, [], tables)
  }

  lemma EmitEachMore(tables: seq<Table>, fks: seq<FK>, open: set<Table>, emitted: seq<Table>, names: seq<Table>,
                     name: Table)
    requires name in tables && forall t :: t in names ==> t in tables
    ensures EmitEach(tables, fks, open, emitted, names + [name])
      == Emit(tables, fks, open, EmitEach(tables, fks, open, emitted, names), name)
  {
    assert (names + [name])[..|names|] == names;
  }

  /** Visiting a table a second time emits nothing. */
  lemma EmitAgain(tables: seq<Table>, fks: seq<FK>, open: set<Table>, name: Table)
    ensures name in tables ==>
      forall emitted :: name in open || name in emitted ==> Emit(tables, fks, open, emitted, name) == emitted
  {
  }

  lemma NoParentsYet(tables: seq<Table>, fks: seq<FK>, name: Table, open: set<Table>, emitted: seq<Table>)
    ensures EmitEach(tables, fks, open, emitted, Parents(tables, fks, name, 0)) == emitted
  {
  }

  lemma EmitParent(tables: seq<Table>, fks: seq<FK>, name: Table, i: nat, open: set<Table>, emitted: seq<Table>)
    requires i < |fks|
    ensures
      var before := EmitEach(tables, fks, open, emitted, Parents(tables, fks, name, i));
      EmitEach(tables, fks, open, emitted, Parents(tables, fks, name, i + 1))
        == if fks[i].src == name && fks[i].ref != name && fks[i].ref in tables
           then Emit(tables, fks, open, before, fks[i].ref) else before
  {
    if fks[i].src == name && fks[i].ref != name && fks[i].ref in tables {
      EmitEachMore(tables, fks, open, emitted, Parents(tables, fks, name, i), fks[i].ref);
    } else {
      assert Parents(tables, fks, name, i + 1) == Parents(tables, fks, name, i);
    }
  }

  // ----- What the search keeps -----

  lemma {:induction false} EmitAdds(tables: seq<Table>, fks: seq<FK>, open: set<Table>, emitted: seq<Table>,
                                    name: Table)
    requires name in tables && open !! SetOf(emitted) && NoDuplicates(emitted)
    ensures
      var r := Emit(tables, fks, open, emitted, name);
      && emitted <= r && NoDuplicates(r) && open !! SetOf(r) && SetOf(r) <= SetOf(emitted) + SetOf(tables)
      && (name in open || name in r)
    decreases SetOf(tables) - open, 0, 0
  {
    hide Parents;
    if name !in open && name !in emitted {
      assert name in SetOf(tables) - open && name !in SetOf(tables) - (open + {name});
      EmitEachAdds(tables, fks, open + {name}, emitted, Parents(tables, fks, name, |fks|));
      var all := EmitEach(tables, fks, open + {name}, emitted, Parents(tables, fks, name, |fks|));
      assert name !in SetOf(all);
      assert SetOf(all + [name]) == SetOf(all) + {name};
    }
  }

  lemma {:induction false} EmitEachAdds(tables: seq<Table>, fks: seq<FK>, open: set<Table>, emitted: seq<Table>,
                                        names: seq<Table>)
    requires (forall t :: t in names ==> t in tables) && open !! SetOf(emitted) && NoDuplicates(emitted)
    ensures
      var r := EmitEach(tables, fks, open, emitted, names);
      && emitted <= r && NoDuplicates(r) && open !! SetOf(r) && SetOf(r) <= SetOf(emitted) + SetOf(tables)
      && forall t :: t in names ==> t in open || t in r
    decreases SetOf(tables) - open, 1, |names|
  {
    hide Emit;
    if names != [] {
      var last := |names| - 1;
      EmitEachAdds(tables, fks, open, emitted, names[..last]);
      var before := EmitEach(tables, fks, open, emitted, names[..last]);
      EmitAdds(tables, fks, open, before, names[last]);
      forall t | t in names ensures t in open || t in EmitEach(tables, fks, open, emitted, names) {
        if t in before {
          assert before <= EmitEach(tables, fks, open, emitted, names);
        } else {
          assert t == names[last] || t in names[..last];
        }
      }
    }
  }

  /** Every parent of name is among the tables. */
  lemma {:induction false} ParentsAre(tables: seq<Table>, fks: seq<FK>, name: Table, i: nat, t: Table)
    requires i <= |fks|
    ensures t in Parents(tables, fks, name, i) <==>
      exists k :: 0 <= k < i && fks[k].src == name && fks[k].ref == t && t != name && t in tables
    decreases i
  {
    if i > 0 {
      ParentsAre(tables, fks, name, i - 1, t);
    }
  }

  lemma OneAfterParents(tables: seq<Table>, fks: seq<FK>, emitted: seq<Table>, name: Table)
    requires ParentsFirst(tables, fks, emitted)
    requires forall fk :: fk in fks && fk.src == name && Depends(tables, fk) ==> fk.ref in emitted
    ensures ParentsFirst(tables, fks, emitted + [name])
  {
    var order := emitted + [name];
    forall i, fk | 0 <= i < |order| && fk in fks && Depends(tables, fk) && order[i] == fk.src
      ensures fk.ref in order[..i]
    {
      if i < |emitted| {
        assert order[..i] == emitted[..i];
      } else {
        assert order[..i] == emitted;
      }
    }
  }

  /** With a rank no open table can be met again, and parents come first. */
  lemma {:induction false} EmitRanked(tables: seq<Table>, fks: seq<FK>, rank: map<Table, int>, open: set<Table>,
                                      emitted: seq<Table>, name: Table)
    requires Ranked(tables, fks, rank) && name in tables && open <= SetOf(tables)
    requires forall t :: t in open ==> t in rank && rank[name] < rank[t]
    requires open !! SetOf(emitted) && NoDuplicates(emitted) && ParentsFirst(tables, fks, emitted)
    ensures ParentsFirst(tables, fks, Emit(tables, fks, open, emitted, name))
    decreases SetOf(tables) - open, 0, 0
  {
    hide Parents, ParentsFirst;
    if name !in open && name !in emitted {
      assert name in SetOf(tables) - open && name !in SetOf(tables) - (open + {name});
      var parents := Parents(tables, fks, name, |fks|);
      forall t ensures t in parents <==>
        exists k :: 0 <= k < |fks| && fks[k].src == name && fks[k].ref == t && t != name && t in tables
      {
        ParentsAre(tables, fks, name, |fks|, t);
      }
      forall t | t in parents ensures t in SetOf(tables) && t in rank && rank[t] < rank[name] {
        var k :| 0 <= k < |fks| && fks[k].src == name && fks[k].ref == t && t != name && t in tables;
        assert Depends(tables, fks[k]);
      }
      EmitEachRanked(tables, fks, rank, open + {name}, emitted, parents);
      EmitEachAdds(tables, fks, open + {name}, emitted, parents);
      var all := EmitEach(tables, fks, open + {name}, emitted, parents);
      forall fk | fk in fks && fk.src == name && Depends(tables, fk) ensures fk.ref in all {
        var k :| 0 <= k < |fks| && fks[k] == fk;
        assert fk.ref in parents && fk.ref !in open + {name};
      }
      OneAfterParents(tables, fks, all, name);
    }
  }

  lemma {:induction false} EmitEachRanked(tables: seq<Table>, fks: seq<FK>, rank: map<Table, int>, open: set<Table>,
                                          emitted: seq<Table>, names: seq<Table>)
    requires Ranked(tables, fks, rank) && open <= SetOf(tables)
    requires forall n :: n in names ==> n in tables && n in rank
    requires forall n, t :: n in names && t in open ==> t in rank && rank[n] < rank[t]
    requires open !! SetOf(emitted) && NoDuplicates(emitted) && ParentsFirst(tables, fks, emitted)
    ensures ParentsFirst(tables, fks, EmitEach(tables, fks, open, emitted, names))
    decreases SetOf(tables) - open, 1, |names|
  {
    hide ParentsFirst, Emit, Ranked;
    if names != [] {
      var last := |names| - 1;
      assert forall n :: n in names[..last] ==> n in names;
      EmitEachRanked(tables, fks, rank, open, emitted, names[..last]);
      EmitEachAdds(tables, fks, open, emitted, names[..last]);
      EmitRanked(tables, fks, rank, open, EmitEach(tables, fks, open, emitted, names[..last]), names[last]);
    }
  }

  /** Every table comes once, and parents come first exactly when that is possible at all. */
  lemma DepthFirstIsASort(tables: seq<Table>, fks: seq<FK>)
    ensures SetOf(DepthFirst(tables, fks)) == SetOf(tables) && NoDuplicates(DepthFirst(tables, fks))
    ensures ParentsFirst(tables, fks, DepthFirst(tables, fks)) <==> Acyclic(tables, fks)
  {
    var order := DepthFirst(tables, fks);
    EmitEachAdds(tables, fks, {}, [], tables);
    hide Parents, EmitEach;
    assert SetOf(order) == SetOf(tables);
    if Acyclic(tables, fks) {
      var rank :| Ranked(tables, fks, rank);
      EmitEachRanked(tables, fks, rank, {}, [], tables);
    }
    if ParentsFirst(tables, fks, order) {
      PositionsRank(tables, fks, order);
    }
  }

  // ----- Which of the orders it is -----

  lemma {:induction false} EmitKnown(tables: seq<Table>, fks: seq<FK>, open: set<Table>, emitted: seq<Table>,
                                     names: seq<Table>)
    requires forall t :: t in names ==> t in tables && t in emitted
    ensures EmitEach(tables, fks, open, emitted, names) == emitted
    decreases |names|
  {
    if names != [] {
      EmitKnown(tables, fks, open, emitted, names[..|names| - 1]);
    }
  }

  lemma {:induction false} SortedSoFar(tables: seq<Table>, fks: seq<FK>, i: nat)
    requires NoDuplicates(tables) && ParentsFirst(tables, fks, tables) && i <= |tables|
    ensures EmitEach(tables, fks, {}, [], tables[..i]) == tables[..i]
  {
    if i > 0 {
      var name, before := tables[i - 1], tables[..i - 1];
      SortedSoFar(tables, fks, i - 1);
      assert tables[..i] == before + [name];
      EmitEachMore(tables, fks, {}, [], before, name);
      forall t | t in Parents(tables, fks, name, |fks|) ensures t in before {
        ParentsAre(tables, fks, name, |fks|, t);
        var k :| 0 <= k < |fks| && fks[k].src == name && fks[k].ref == t && t != name && t in tables;
        assert Depends(tables, fks[k]);
      }
      EmitKnown(tables, fks, {name}, before, Parents(tables, fks, name, |fks|));
      assert {} + {name} == {name};
      hide Parents, EmitEach;
    }
  }

  /** A list in which parents come first stays as it is. */
  lemma SortedStays(tables: seq<Table>, fks: seq<FK>)
    requires NoDuplicates(tables) && ParentsFirst(tables, fks, tables)
    ensures DepthFirst(tables, fks) == tables
  {
    SortedSoFar(tables, fks, |tables|);
    assert tables[..|tables|] == tables;
  }

  /** A walk from one table to another along the foreign keys. */
  ghost predicate Needs(fks: seq<FK>, t: Table, u: Table) {
    exists walk: seq<Table> :: |walk| > 0 && walk[0] == t && walk[|walk| - 1] == u
      && forall i :: 0 <= i < |walk| - 1 ==> References(fks, walk[i], walk[i + 1])
  }

  ghost predicate References(fks: seq<FK>, t: Table, u: Table) {
    exists fk :: fk in fks && fk.src == t && fk.ref == u
  }

  lemma NeedsItself(fks: seq<FK>, t: Table)
    ensures Needs(fks, t, t)
  {
    assert [t][0] == t && |[t]| == 1;
  }

  lemma NeedsMore(fks: seq<FK>, t: Table, u: Table, v: Table)
    requires References(fks, t, u) && Needs(fks, u, v)
    ensures Needs(fks, t, v)
  {
    var walk: seq<Table> :| |walk| > 0 && walk[0] == u && walk[|walk| - 1] == v
      && forall i :: 0 <= i < |walk| - 1 ==> References(fks, walk[i], walk[i + 1]);
    var longer := [t] + walk;
    forall i | 0 <= i < |longer| - 1 ensures References(fks, longer[i], longer[i + 1]) {
      assert i > 0 ==> longer[i] == walk[i - 1] && longer[i + 1] == walk[i];
    }
    assert |longer| > 0 && longer[0] == t && longer[|longer| - 1] == v;
  }

  lemma {:induction false} EmitsNeeded(tables: seq<Table>, fks: seq<FK>, open: set<Table>, emitted: seq<Table>,
                                       name: Table)
    requires name in tables
    ensures forall t :: t in Emit(tables, fks, open, emitted, name) ==> t in emitted || Needs(fks, name, t)
    decreases SetOf(tables) - open, 0, 0
  {
    hide Parents, Needs;
    if name !in open && name !in emitted {
      assert name in SetOf(tables) - open && name !in SetOf(tables) - (open + {name});
      var parents := Parents(tables, fks, name, |fks|);
      EachEmitsNeeded(tables, fks, open + {name}, emitted, parents);
      NeedsItself(fks, name);
      forall t | t in EmitEach(tables, fks, open + {name}, emitted, parents) && t !in emitted
        ensures Needs(fks, name, t)
      {
        var p :| p in parents && Needs(fks, p, t);
        ParentsAre(tables, fks, name, |fks|, p);
        NeedsMore(fks, name, p, t);
      }
    }
  }

  lemma {:induction false} EachEmitsNeeded(tables: seq<Table>, fks: seq<FK>, open: set<Table>, emitted: seq<Table>,
                                           names: seq<Table>)
    requires forall t :: t in names ==> t in tables
    ensures forall t :: t in EmitEach(tables, fks, open, emitted, names) ==>
      t in emitted || exists n :: n in names && Needs(fks, n, t)
    decreases SetOf(tables) - open, 1, |names|
  {
    hide Needs, Emit;
    if names != [] {
      var last := |names| - 1;
      EachEmitsNeeded(tables, fks, open, emitted, names[..last]);
      EmitsNeeded(tables, fks, open, EmitEach(tables, fks, open, emitted, names[..last]), names[last]);
      assert names[last] in names && forall n :: n in names[..last] ==> n in names;
    }
  }

  /** A beginning of the order holds the first i tables and nothing but what they need, cycles or not. */
  lemma OnlyNeededFirst(tables: seq<Table>, fks: seq<FK>, i: nat) returns (first: seq<Table>)
    requires i <= |tables|
    ensures first <= DepthFirst(tables, fks)
    ensures forall t :: t in tables[..i] ==> t in first
    ensures forall t :: t in first ==> exists n :: n in tables[..i] && Needs(fks, n, t)
  {
    first := EmitEach(tables, fks, {}, [], tables[..i]);
    EmitEachAdds(tables, fks, {}, [], tables[..i]);
    EachEmitsNeeded(tables, fks, {}, [], tables[..i]);
    hide Needs, EmitEach, NoDuplicates, SetOf;
    BeginsWith(tables, fks, i, |tables|);
    assert tables[..|tables|] == tables;
  }

  lemma {:induction false} BeginsWith(tables: seq<Table>, fks: seq<FK>, i: nat, j: nat)
    requires i <= j <= |tables|
    ensures EmitEach(tables, fks, {}, [], tables[..i]) <= EmitEach(tables, fks, {}, [], tables[..j])
    decreases j
  {
    hide EmitEach;
    if i < j {
      BeginsWith(tables, fks, i, j - 1);
      EmitEachAdds(tables, fks, {}, [], tables[..j - 1]);
      assert tables[..j] == tables[..j - 1] + [tables[j - 1]];
      EmitEachMore(tables, fks, {}, [], tables[..j - 1], tables[j - 1]);
      EmitAdds(tables, fks, {}, EmitEach(tables, fks, {}, [], tables[..j - 1]), tables[j - 1]);
    }
  }

  /** Of two parents, that of the earlier foreign key comes first. */
  lemma KeysDecideAmongParents()
    ensures DepthFirst(["orders", "users", "shops"], OrderKeys()) == ["shops", "users", "orders"]
  {
    var tables, fks := ["orders", "users", "shops"], OrderKeys();
    ParentsOfOrders(tables);
    hide *;
    OrdersEmitted(tables, fks);
    EmitEachMore(tables, fks, {}, [], [], "orders");
    EmitEachMore(tables, fks, {}, [], ["orders"], "users");
    EmitEachMore(tables, fks, {}, [], ["orders", "users"], "shops");
    NothingEmitted(tables, fks, {}, []);
    EmitAgain(tables, fks, {}, "users");
    EmitAgain(tables, fks, {}, "shops");
    assert [] + ["orders"] == ["orders"] && ["orders"] + ["users"] == ["orders", "users"];
    assert ["orders", "users"] + ["shops"] == tables;
    DepthFirstIs(tables, fks);
  }

  lemma DepthFirstIs(tables: seq<Table>, fks: seq<FK>)
    ensures DepthFirst(tables, fks) == EmitEach(tables, fks, {}, [], tables)
  {
  }

  lemma NothingEmitted(tables: seq<Table>, fks: seq<FK>, open: set<Table>, emitted: seq<Table>)
    ensures EmitEach(tables, fks, open, emitted, []) == emitted
  {
  }

  lemma OrdersEmitted(tables: seq<Table>, fks: seq<FK>)
    requires "orders" in tables && "users" in tables && "shops" in tables
    requires "orders" != "users" && "orders" != "shops" && "users" != "shops"
    requires Parents(tables, fks, "orders", |fks|) == ["shops", "users"]
    requires Parents(tables, fks, "shops", |fks|) == [] && Parents(tables, fks, "users", |fks|) == []
    ensures Emit(tables, fks, {}, [], "orders") == ["shops", "users", "orders"]
  {
    hide Parents, EmitEach;
    var open := {"orders"};
    assert {} + {"orders"} == open;
    NothingEmitted(tables, fks, open, []);
    NothingEmitted(tables, fks, open + {"shops"}, []);
    NothingEmitted(tables, fks, open + {"users"}, ["shops"]);
    EmitEachMore(tables, fks, open, [], [], "shops");
    EmitEachMore(tables, fks, open, [], ["shops"], "users");
    assert [] + ["shops"] == ["shops"] && ["shops"] + ["users"] == ["shops", "users"];
  }

  function OrderKeys(): seq<FK> {
    [FK("orders", "shop_id", "shops", Rule.Cascade), FK("orders", "user_id", "users", Rule.Cascade)]
  }

  lemma ParentsOfOrders(tables: seq<Table>)
    requires tables == ["orders", "users", "shops"]
    ensures |OrderKeys()| == 2 && Parents(tables, OrderKeys(), "orders", 2) == ["shops", "users"]
    ensures Parents(tables, OrderKeys(), "users", 2) == [] && Parents(tables, OrderKeys(), "shops", 2) == []
    ensures "orders" != "users" && "orders" != "shops" && "users" != "shops"
  {
    assert "orders"[0] != "users"[0] && "orders"[0] != "shops"[0] && "users"[0] != "shops"[0];
    var fks := OrderKeys();
    assert fks[0].src == "orders" && fks[1].src == "orders" && fks[0].ref == "shops" && fks[1].ref == "users";
    hide OrderKeys;
    forall name ensures Parents(tables, fks, name, 0) == [] {
    }
    OneMoreParent(tables, fks, "orders", 0);
    OneMoreParent(tables, fks, "orders", 1);
    OneMoreParent(tables, fks, "users", 0);
    OneMoreParent(tables, fks, "users", 1);
    OneMoreParent(tables, fks, "shops", 0);
    OneMoreParent(tables, fks, "shops", 1);
    hide Parents;
  }

  lemma OneMoreParent(tables: seq<Table>, fks: seq<FK>, name: Table, i: nat)
    requires i < |fks|
    ensures Parents(tables, fks, name, i + 1) == Parents(tables, fks, name, i)
      + if fks[i].src == name && fks[i].ref != name && fks[i].ref in tables then [fks[i].ref] else []
  {
  }

  // ----- The sorter -----

  class TableSorter {
    const tables: seq<Table>
    const fks: seq<FK>
    var visited: set<Table>
    var result: seq<Table>

    constructor (tables: seq<Table>, fks: seq<FK>)
      ensures this.tables == tables && this.fks == fks && visited == {} && result == []
    {
      this.tables, this.fks, visited, result := tables, fks, {}, [];
    }

    /** The visited tables are those emitted and those still open. */
    ghost predicate Valid(open: set<Table>)
      reads this
    {
      open <= visited <= SetOf(tables) && SetOf(result) == visited - open && NoDuplicates(result)
    }

    /** Visits name below the open tables. */
    method Visit(name: Table, ghost open: set<Table>)
      requires name in tables && Valid(open)
      modifies this
      ensures Valid(open) && name in visited && old(visited) <= visited
      ensures result == Emit(tables, fks, open, old(result), name)
      decreases SetOf(tables) - visited, 0
    {
      assert name in visited <==> name in open || name in result by {
        assert name in visited && name !in open ==> name in SetOf(result);
        assert name in result ==> name in SetOf(result);
      }
      if name in visited {
        return;
      }
      visited := visited + {name};
      VisitParents(name, open + {name});
      assert SetOf(result + [name]) == SetOf(result) + {name};
      result := result + [name];
    }

    /** Visits the tables that name references, name being open. */
    method VisitParents(name: Table, ghost open: set<Table>)
      requires name in tables && name in open && Valid(open)
      modifies this
      ensures Valid(open) && old(visited) <= visited
      ensures result == EmitEach(tables, fks, open, old(result), Parents(tables, fks, name, |fks|))
      decreases SetOf(tables) - visited, 2
    {
      hide Parents, Emit, EmitEach;
      NoParentsYet(tables, fks, name, open, result);
      for i := 0 to |fks|
        invariant Valid(open) && old(visited) <= visited
        invariant result == EmitEach(tables, fks, open, old(result), Parents(tables, fks, name, i))
      {
        if fks[i].src == name && fks[i].ref != name {
          VisitParent(fks[i], open);
        }
        EmitParent(tables, fks, name, i, open, old(result));
      }
    }

    /** Visits the table that fk references, if it is one of the tables. */
    method VisitParent(fk: FK, ghost open: set<Table>)
      requires Valid(open)
      modifies this
      ensures Valid(open) && old(visited) <= visited
      ensures result == if fk.ref in tables then Emit(tables, fks, open, old(result), fk.ref) else old(result)
      decreases SetOf(tables) - visited, 1
    {
      hide Emit, EmitEach;
      EmitAgain(tables, fks, open, fk.ref);
      for j := 0 to |tables|
        invariant Valid(open) && old(visited) <= visited
        invariant result == if fk.ref in tables[..j] then Emit(tables, fks, open, old(result), fk.ref) else old(result)
        invariant fk.ref in tables[..j] ==> fk.ref in visited
      {
        assert tables[..j + 1] == tables[..j] + [tables[j]];
        if tables[j] == fk.ref {
          assert fk.ref in visited ==> fk.ref in open || fk.ref in SetOf(result);
          Visit(fk.ref, open);
        }
      }
      assert tables[..|tables|] == tables;
    }
  }

  /** Terminates on every foreign-key graph, emits every table exactly once in depth-first order,
      and puts parents first exactly when that is possible at all. */
  method SortTables(tables: seq<Table>, fks: seq<FK>) returns (order: seq<Table>)
    ensures SetOf(order) == SetOf(tables) && NoDuplicates(order)
    ensures ParentsFirst(tables, fks, order) <==> Acyclic(tables, fks)
    ensures order == DepthFirst(tables, fks)
  {
    var sorter := new TableSorter(tables, fks);
    for i := 0 to |tables|
      invariant fresh(sorter) && sorter.tables == tables && sorter.fks == fks
      invariant sorter.Valid({})
      invariant sorter.result == EmitEach(tables, fks, {}, [], tables[..i])
    {
      assert tables[..i + 1] == tables[..i] + [tables[i]];
      EmitEachMore(tables, fks, {}, [], tables[..i], tables[i]);
      sorter.Visit(tables[i], {});
    }
    assert tables[..|tables|] == tables;
    DepthFirstIsASort(tables, fks);
    order := sorter.result;
  }

  function Positions(order: seq<Table>): map<Table, int> {
    if order == [] then map[] else Positions(order[..|order| - 1])[order[|order| - 1] := |order|]
  }

  lemma {:induction false} PositionsAre(order: seq<Table>)
    requires NoDuplicates(order)
    ensures Positions(order).Keys == SetOf(order)
    ensures forall i :: 0 <= i < |order| ==> order[i] in Positions(order) && Positions(order)[order[i]] == i + 1
  {
    if order != [] {
      PositionsAre(order[..|order| - 1]);
    }
  }

  lemma PositionsRank(tables: seq<Table>, fks: seq<FK>, order: seq<Table>)
    requires SetOf(order) == SetOf(tables) && NoDuplicates(order)
    requires ParentsFirst(tables, fks, order)
    ensures Acyclic(tables, fks)
  {
    var rank := Positions(order);
    PositionsAre(order);
    forall fk | fk in fks && Depends(tables, fk) ensures rank[fk.ref] < rank[fk.src] {
      assert fk.src in SetOf(order);
      var i :| 0 <= i < |order| && order[i] == fk.src;
      var j :| 0 <= j < i && order[j] == fk.ref;
    }
    assert Ranked(tables, fks, rank);
  }
}
