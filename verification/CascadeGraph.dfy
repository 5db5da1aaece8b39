/** The tree of referencing foreign keys below a table, recorded with each branch. */
module CascadeGraph {
  import opened Store

  datatype CascadeNode = CascadeNode(fk: FK, children: seq<CascadeNode>)

  /** The tables that occur on the current path, shared by all calls. */
  class PathSet {
    var tables: set<Table>

    constructor ()
      ensures tables == {}
    {
      tables := {};
    }
  }

  function Sources(fks: seq<FK>): set<Table> {
    set fk | fk in fks :: fk.src
  }

  /** The nodes below table, for those of the first i foreign keys that reference it, when the
      tables of path, table included, are on the path to it. */
  function Siblings(fks: seq<FK>, all: set<Table>, table: Table, path: set<Table>, i: nat): seq<CascadeNode>
    requires i <= |fks| && Sources(fks) <= all
    decreases all - path, i
  {
    if i == 0 then [] else
      var fk := fks[i - 1];
      var before := Siblings(fks, all, table, path, i - 1);
      if fk.ref != table then before
      else if fk.src in path then before + [CascadeNode(fk, [])]
      else
        assert fk.src in Sources(fks) && fk.src in all - path;
        before + [CascadeNode(fk, Siblings(fks, all, fk.src, path + {fk.src}, |fks|))]
  }

  function Forest(fks: seq<FK>, all: set<Table>, table: Table, path: set<Table>): seq<CascadeNode>
    requires Sources(fks) <= all
  {
    if table in path then [] else Siblings(fks, all, table, path + {table}, |fks|)
  }

  /** The recursive helper: it puts table on the path, builds the children, and takes it off. */
  method BuildHelper(fks: seq<FK>, ghost all: set<Table>, table: Table, path: PathSet) returns (nodes: seq<CascadeNode>)
    requires table in all && Sources(fks) <= all
    modifies path
    ensures path.tables == old(path.tables)
    ensures nodes == Forest(fks, all, table, path.tables)
    decreases all - path.tables
  {
    nodes := [];
    if table in path.tables {
      return;
    }
    path.tables := path.tables + {table};
    for i := 0 to |fks|
      invariant path.tables == old(path.tables) + {table}
      invariant nodes == Siblings(fks, all, table, path.tables, i)
    {
      if fks[i].ref == table {
        assert fks[i].src in Sources(fks);
        assert table in all - old(path.tables);
        var children := BuildHelper(fks, all, fks[i].src, path);
        nodes := nodes + [CascadeNode(fks[i], children)];
      }
    }
    path.tables := path.tables - {table};
    assert path.tables == old(path.tables);
  }

  /** Terminates on every foreign-key graph, cyclic ones included. */
  method BuildCascadeGraph(fks: seq<FK>, table: Table) returns (nodes: seq<CascadeNode>)
    ensures nodes == Graph(fks, table) && IsTree(fks, nodes, table, {table})
  {
    var path := new PathSet();
    nodes := BuildHelper(fks, Sources(fks) + {table}, table, path);
    GraphIsTheTree(fks, table, nodes);
  }

  function Graph(fks: seq<FK>, table: Table): seq<CascadeNode> {
    Forest(fks, Sources(fks) + {table}, table, {})
  }

  // ----- What the tree looks like -----

  ghost predicate Increasing(at: seq<nat>) {
    forall k, l :: 0 <= k < l < |at| ==> at[k] < at[l]
  }

  /** The nodes are those of the foreign keys that reference table, at the increasing places at, with none
      left out and none twice. */
  ghost predicate NodesAt(fks: seq<FK>, nodes: seq<CascadeNode>, table: Table, at: seq<nat>) {
    && |at| == |nodes|
    && (forall k :: 0 <= k < |at| ==> at[k] < |fks| && nodes[k].fk == fks[at[k]] && fks[at[k]].ref == table)
    && Increasing(at)
    && (forall j :: 0 <= j < |fks| && fks[j].ref == table ==> j in at)
  }

  /** Below every table, the tables of path being on the path to it: one node for each foreign key that
      references it, in order, and below that node the same of its source, but nothing if the source
      is on the path. */
  ghost predicate IsTree(fks: seq<FK>, nodes: seq<CascadeNode>, table: Table, path: set<Table>) {
    && (exists at :: NodesAt(fks, nodes, table, at))
    && forall n :: n in nodes ==>
      && (n.children == [] <==> n.fk.src in path || forall fk :: fk in fks ==> fk.ref != n.fk.src)
      && (n.fk.src !in path ==> IsTree(fks, n.children, n.fk.src, path + {n.fk.src}))
  }

  lemma NodesAtMore(fks: seq<FK>, fk: FK, nodes: seq<CascadeNode>, table: Table, at: seq<nat>)
    requires NodesAt(fks, nodes, table, at)
    ensures fk.ref != table ==> NodesAt(fks + [fk], nodes, table, at)
    ensures fk.ref == table ==>
      forall children :: NodesAt(fks + [fk], nodes + [CascadeNode(fk, children)], table, at + [|fks|])
  {
    var more := at + [|fks|];
    assert more[|at|] == |fks|;
    forall j | 0 <= j < |fks + [fk]| && (fks + [fk])[j].ref == table
      ensures if fk.ref == table then j in more else j in at
    {
      if j < |fks| {
        assert fks[j].ref == table && j in at;
      }
    }
  }

  lemma {:induction false} SiblingsAt(fks: seq<FK>, all: set<Table>, table: Table, path: set<Table>, i: nat)
    returns (at: seq<nat>)
    requires i <= |fks| && Sources(fks) <= all
    ensures NodesAt(fks[..i], Siblings(fks, all, table, path, i), table, at)
    decreases i
  {
    if i == 0 {
      return [];
    }
    var fk := fks[i - 1];
    at := SiblingsAt(fks, all, table, path, i - 1);
    NodesAtMore(fks[..i - 1], fk, Siblings(fks, all, table, path, i - 1), table, at);
    assert fks[..i] == fks[..i - 1] + [fk];
    hide NodesAt;
    if fk.ref == table {
      at := at + [i - 1];
    }
  }

  lemma NoNodesIff(fks: seq<FK>, nodes: seq<CascadeNode>, table: Table, at: seq<nat>)
    requires NodesAt(fks, nodes, table, at)
    ensures nodes == [] <==> forall fk :: fk in fks ==> fk.ref != table
  {
    if fk :| fk in fks && fk.ref == table {
      var j :| 0 <= j < |fks| && fks[j] == fk;
      assert j in at;
    }
    if nodes != [] {
      assert fks[at[0]] in fks;
    }
  }

  lemma {:induction false} NodeOfSiblings(fks: seq<FK>, all: set<Table>, table: Table, path: set<Table>, i: nat,
                                          n: CascadeNode)
    requires i <= |fks| && Sources(fks) <= all && n in Siblings(fks, all, table, path, i)
    ensures n.fk in fks && n.fk.ref == table
    ensures n.children == if n.fk.src in path then [] else Siblings(fks, all, n.fk.src, path + {n.fk.src}, |fks|)
    decreases i
  {
    if i > 0 && n in Siblings(fks, all, table, path, i - 1) {
      NodeOfSiblings(fks, all, table, path, i - 1, n);
    }
  }

  lemma {:induction false} SiblingsAreTree(fks: seq<FK>, all: set<Table>, table: Table, path: set<Table>)
    requires Sources(fks) <= all
    ensures IsTree(fks, Siblings(fks, all, table, path, |fks|), table, path)
    decreases all - path
  {
    var nodes := Siblings(fks, all, table, path, |fks|);
    var at := SiblingsAt(fks, all, table, path, |fks|);
    assert fks[..|fks|] == fks;
    hide Siblings;
    forall n | n in nodes
      ensures n.children == [] <==> n.fk.src in path || forall fk :: fk in fks ==> fk.ref != n.fk.src
      ensures n.fk.src !in path ==> IsTree(fks, n.children, n.fk.src, path + {n.fk.src})
    {
      NodeOfSiblings(fks, all, table, path, |fks|, n);
      if n.fk.src !in path {
        assert n.fk.src in Sources(fks) && n.fk.src in all - path;
        SiblingsAreTree(fks, all, n.fk.src, path + {n.fk.src});
        var below :| NodesAt(fks, n.children, n.fk.src, below);
        NoNodesIff(fks, n.children, n.fk.src, below);
      }
    }
  }

  lemma PlaceIsThere(at: seq<nat>, at': seq<nat>, k: nat)
    requires Increasing(at) && Increasing(at') && k < |at| && k <= |at'|
    requires at[k] in at' && forall i :: 0 <= i < k ==> at[i] == at'[i]
    ensures k < |at'| && at'[k] <= at[k]
  {
    var l :| 0 <= l < |at'| && at'[l] == at[k];
  }

  /** The places of the nodes are determined. */
  lemma {:induction false} PlacesAreOne(at: seq<nat>, at': seq<nat>, k: nat)
    requires Increasing(at) && Increasing(at') && k <= |at| && k <= |at'|
    requires (forall a :: a in at ==> a in at') && forall a :: a in at' ==> a in at
    ensures forall i :: 0 <= i < k ==> at[i] == at'[i]
    ensures k == |at| <==> k == |at'|
  {
    hide Increasing;
    if k > 0 {
      PlacesAreOne(at, at', k - 1);
      PlaceIsThere(at, at', k - 1);
      PlaceIsThere(at', at, k - 1);
    }
    if k < |at| {
      PlaceIsThere(at, at', k);
    }
    if k < |at'| {
      PlaceIsThere(at', at, k);
    }
  }

  /** There is one such tree. */
  lemma {:induction false} TreeIsOne(fks: seq<FK>, all: set<Table>, nodes: seq<CascadeNode>,
                                     nodes': seq<CascadeNode>, table: Table, path: set<Table>)
    requires Sources(fks) <= all && IsTree(fks, nodes, table, path) && IsTree(fks, nodes', table, path)
    ensures nodes == nodes'
    decreases all - path
  {
    var at :| NodesAt(fks, nodes, table, at);
    var at' :| NodesAt(fks, nodes', table, at');
    var k := if |at| <= |at'| then |at| else |at'|;
    PlacesAreOne(at, at', k);
    forall k | 0 <= k < |nodes| ensures nodes[k] == nodes'[k] {
      var n, n' := nodes[k], nodes'[k];
      assert n in nodes && n' in nodes' && n.fk == n'.fk && n.fk in fks;
      if n.fk.src !in path {
        assert n.fk.src in Sources(fks) && n.fk.src in all - path;
        TreeIsOne(fks, all, n.children, n'.children, n.fk.src, path + {n.fk.src});
      }
    }
  }

  /** The tree built is that tree. */
  lemma GraphIsTheTree(fks: seq<FK>, root: Table, nodes: seq<CascadeNode>)
    ensures nodes == Graph(fks, root) <==> IsTree(fks, nodes, root, {root})
  {
    assert {} + {root} == {root};
    SiblingsAreTree(fks, Sources(fks) + {root}, root, {root});
    if IsTree(fks, nodes, root, {root}) {
      TreeIsOne(fks, Sources(fks) + {root}, nodes, Graph(fks, root), root, {root});
    }
  }

  /** The foreign key occurs somewhere in the tree. */
  ghost predicate Occurs(fk: FK, nodes: seq<CascadeNode>) {
    exists n :: n in nodes && (n.fk == fk || Occurs(fk, n.children))
  }

  /** A walk from table against the direction of the foreign keys. */
  ghost predicate Walk(fks: seq<FK>, walk: seq<Table>) {
    && walk != []
    && forall i :: 0 <= i < |walk| - 1 ==> Edge(fks, walk[i], walk[i + 1])
  }

  ghost predicate Edge(fks: seq<FK>, ref: Table, src: Table) {
    exists fk :: fk in fks && fk.ref == ref && fk.src == src
  }

  ghost predicate Simple(walk: seq<Table>) {
    forall i, j :: 0 <= i < j < |walk| ==> walk[i] != walk[j]
  }

  ghost predicate Leads(fks: seq<FK>, root: Table, target: Table) {
    exists walk :: Walk(fks, walk) && walk[0] == root && walk[|walk| - 1] == target
  }

  /** A walk that meets a table twice can be cut short. */
  lemma {:induction false} SimpleWalk(fks: seq<FK>, walk: seq<Table>) returns (simple: seq<Table>)
    requires Walk(fks, walk)
    ensures Walk(fks, simple) && Simple(simple)
    ensures simple[0] == walk[0] && simple[|simple| - 1] == walk[|walk| - 1]
    decreases |walk|
  {
    if i, j :| 0 <= i < j < |walk| && walk[i] == walk[j] {
      var cut := walk[..i] + walk[j..];
      assert cut[0] == walk[0];
      forall k | 0 <= k < |cut| - 1 ensures Edge(fks, cut[k], cut[k + 1]) {
        if k < i {
          assert Edge(fks, walk[k], walk[k + 1]);
        } else {
          assert Edge(fks, walk[k - i + j], walk[k - i + j + 1]);
        }
      }
      simple := SimpleWalk(fks, cut);
    } else {
      simple := walk;
    }
  }

  lemma {:induction false} SiblingHasNode(fks: seq<FK>, all: set<Table>, table: Table, path: set<Table>, i: nat, j: nat)
    requires j < i <= |fks| && Sources(fks) <= all && fks[j].ref == table
    ensures
      var children := if fks[j].src in path then [] else Siblings(fks, all, fks[j].src, path + {fks[j].src}, |fks|);
      CascadeNode(fks[j], children) in Siblings(fks, all, table, path, i)
    decreases i
  {
    if j < i - 1 {
      SiblingHasNode(fks, all, table, path, i - 1, j);
    }
  }

  /** Along a simple walk that stays off the path, the tree goes down to the foreign key. */
  lemma {:induction false} SimpleWalkIsCovered(fks: seq<FK>, all: set<Table>, path: set<Table>, walk: seq<Table>,
                                               fk: FK)
    requires Sources(fks) <= all && Walk(fks, walk) && Simple(walk)
    requires walk[0] in path && forall i :: 1 <= i < |walk| ==> walk[i] !in path
    requires fk in fks && fk.ref == walk[|walk| - 1]
    ensures Occurs(fk, Siblings(fks, all, walk[0], path, |fks|))
    decreases |walk|
  {
    var nodes := Siblings(fks, all, walk[0], path, |fks|);
    if |walk| == 1 {
      var j :| 0 <= j < |fks| && fks[j] == fk;
      SiblingHasNode(fks, all, walk[0], path, |fks|, j);
    } else {
      assert Edge(fks, walk[0], walk[1]);
      var step :| step in fks && step.ref == walk[0] && step.src == walk[1];
      var j :| 0 <= j < |fks| && fks[j] == step;
      SiblingHasNode(fks, all, walk[0], path, |fks|, j);
      forall k | 0 <= k < |walk[1..]| - 1 ensures Edge(fks, walk[1..][k], walk[1..][k + 1]) {
        assert Edge(fks, walk[k + 1], walk[k + 2]);
      }
      SimpleWalkIsCovered(fks, all, path + {walk[1]}, walk[1..], fk);
      var n := CascadeNode(step, Siblings(fks, all, walk[1], path + {walk[1]}, |fks|));
      assert n in nodes && Occurs(fk, n.children);
    }
  }

  /** Whatever occurs in the tree hangs together with its root. */
  lemma {:induction false} OccursIsReached(fks: seq<FK>, all: set<Table>, root: Table, table: Table, path: set<Table>,
                                           i: nat, fk: FK)
    requires i <= |fks| && Sources(fks) <= all && Leads(fks, root, table)
    requires Occurs(fk, Siblings(fks, all, table, path, i))
    ensures fk in fks && Leads(fks, root, fk.ref)
    decreases all - path, i
  {
    var edge, before := fks[i - 1], Siblings(fks, all, table, path, i - 1);
    var n :| n in Siblings(fks, all, table, path, i) && (n.fk == fk || Occurs(fk, n.children));
    if n in before {
      assert Occurs(fk, before);
      OccursIsReached(fks, all, root, table, path, i - 1, fk);
    } else {
      assert n.fk == edge && edge.ref == table;
      if n.fk != fk {
        assert edge.src in Sources(fks) && edge.src in all - path;
        LeadsFurther(fks, root, edge);
        OccursIsReached(fks, all, root, edge.src, path + {edge.src}, |fks|, fk);
      }
    }
  }

  lemma LeadsFurther(fks: seq<FK>, root: Table, fk: FK)
    requires fk in fks && Leads(fks, root, fk.ref)
    ensures Leads(fks, root, fk.src)
  {
    var walk :| Walk(fks, walk) && walk[0] == root && walk[|walk| - 1] == fk.ref;
    var longer := walk + [fk.src];
    forall i | 0 <= i < |longer| - 1 ensures Edge(fks, longer[i], longer[i + 1]) {
      if i < |walk| - 1 {
        assert Edge(fks, walk[i], walk[i + 1]);
      }
    }
    assert Walk(fks, longer);
  }

  /** The tree holds exactly the foreign keys whose target the root leads to. */
  lemma GraphIsComplete(fks: seq<FK>, root: Table, fk: FK)
    ensures Occurs(fk, Graph(fks, root)) <==> fk in fks && Leads(fks, root, fk.ref)
  {
    var all := Sources(fks) + {root};
    assert {} + {root} == {root};
    if fk in fks && Leads(fks, root, fk.ref) {
      var walk :| Walk(fks, walk) && walk[0] == root && walk[|walk| - 1] == fk.ref;
      var simple := SimpleWalk(fks, walk);
      SimpleWalkIsCovered(fks, all, {root}, simple, fk);
    }
    if Occurs(fk, Graph(fks, root)) {
      assert Walk(fks, [root]);
      OccursIsReached(fks, all, root, root, {root}, |fks|, fk);
    }
  }
}
