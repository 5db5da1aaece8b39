/** Renaming of ids in delta tables.  UPDATE t_delta SET c = new WHERE c = old renames one value of
    one column, and so possibly primary keys; a Sub says what a series of such statements did. */
module Renaming {
  import opened Store

  /** For each renamed column, which values became which. */
  type Sub = map<(Table, Column), map<int, int>>

  function At(sub: Sub, t: Table, c: Column): map<int, int> {
    if (t, c) in sub then sub[(t, c)] else map[]
  }

  function Apply(sub: Sub, t: Table, c: Column, v: Value): Value {
    if v.Int? && v.n in At(sub, t, c) then Int(At(sub, t, c)[v.n]) else v
  }

  function RenCols(sub: Sub, t: Table, cols: Cols): Cols {
    map c | c in cols :: Apply(sub, t, c, cols[c])
  }

  function RenRow(sub: Sub, r: RowId): RowId {
    match r.k
    case Id(n) => RowId(r.t, Id(Apply(sub, r.t, "id", Int(n)).n))
    case Composite(cols) => RowId(r.t, Composite(RenCols(sub, r.t, cols)))
  }

  function RenEntry(sub: Sub, t: Table, e: Entry): Entry {
    e.(vals := RenCols(sub, t, e.vals))
  }

  ghost predicate Injective(sub: Sub, rows: set<RowId>) {
    forall r, r' :: r in rows && r' in rows && RenRow(sub, r) == RenRow(sub, r') ==> r == r'
  }

  /** d' holds exactly the renamed rows of d, no two of which got the same key. */
  ghost predicate Renamed(sub: Sub, d: Delta, d': Delta) {
    Carries(sub, d, d') && ComesFrom(sub, d, d') && Injective(sub, d.Keys)
  }

  ghost predicate Carries(sub: Sub, d: Delta, d': Delta) {
    forall r :: r in d ==> RenRow(sub, r) in d' && d'[RenRow(sub, r)] == RenEntry(sub, r.t, d[r])
  }

  ghost predicate ComesFrom(sub: Sub, d: Delta, d': Delta) {
    forall r' :: r' in d' ==> exists r :: r in d && RenRow(sub, r) == r'
  }

  /** Doing sub and then next is doing both. */
  ghost predicate Composes(sub: Sub, next: Sub, both: Sub) {
    forall t, c, v :: Apply(next, t, c, Apply(sub, t, c, v)) == Apply(both, t, c, v)
  }

  lemma RenColsComposes(sub: Sub, next: Sub, both: Sub, t: Table, cols: Cols)
    requires Composes(sub, next, both)
    ensures RenCols(next, t, RenCols(sub, t, cols)) == RenCols(both, t, cols)
  {
  }

  lemma RenRowComposes(sub: Sub, next: Sub, both: Sub, r: RowId)
    requires Composes(sub, next, both)
    ensures RenRow(next, RenRow(sub, r)) == RenRow(both, r) && RenRow(sub, r).t == r.t
  {
    match r.k {
      case Id(n) => assert Apply(next, r.t, "id", Apply(sub, r.t, "id", Int(n))) == Apply(both, r.t, "id", Int(n));
      case Composite(cols) => RenColsComposes(sub, next, both, r.t, cols);
    }
  }

  lemma RenEntryComposes(sub: Sub, next: Sub, both: Sub, t: Table, e: Entry)
    requires Composes(sub, next, both)
    ensures RenEntry(next, t, RenEntry(sub, t, e)) == RenEntry(both, t, e)
  {
  }

  lemma InjectiveComposes(sub: Sub, next: Sub, both: Sub, d0: Delta, d1: Delta)
    requires Composes(sub, next, both) && Renamed(sub, d0, d1)
    ensures Injective(next, d1.Keys) <==> Injective(both, d0.Keys)
  {
    hide Composes, RenRow, RenEntry;
    if Injective(next, d1.Keys) {
      forall r, r' | r in d0 && r' in d0 && RenRow(both, r) == RenRow(both, r') ensures r == r' {
        RenRowComposes(sub, next, both, r);
        RenRowComposes(sub, next, both, r');
      }
    }
    if Injective(both, d0.Keys) {
      forall s, s' | s in d1 && s' in d1 && RenRow(next, s) == RenRow(next, s') ensures s == s' {
        var r :| r in d0 && RenRow(sub, r) == s;
        var r' :| r' in d0 && RenRow(sub, r') == s';
        RenRowComposes(sub, next, both, r);
        RenRowComposes(sub, next, both, r');
      }
    }
  }

  lemma CarriesComposes(sub: Sub, next: Sub, both: Sub, d0: Delta, d1: Delta, d2: Delta)
    requires Composes(sub, next, both)
    requires Carries(sub, d0, d1) && Carries(next, d1, d2)
    ensures Carries(both, d0, d2)
  {
    hide Composes, RenRow, RenEntry;
    forall r | r in d0 ensures RenRow(both, r) in d2 && d2[RenRow(both, r)] == RenEntry(both, r.t, d0[r]) {
      RenRowComposes(sub, next, both, r);
      RenEntryComposes(sub, next, both, r.t, d0[r]);
    }
  }

  lemma ComesFromComposes(sub: Sub, next: Sub, both: Sub, d0: Delta, d1: Delta, d2: Delta)
    requires Composes(sub, next, both)
    requires ComesFrom(sub, d0, d1) && ComesFrom(next, d1, d2)
    ensures ComesFrom(both, d0, d2)
  {
    hide Composes, RenRow, RenEntry;
    forall r'' | r'' in d2 ensures exists r :: r in d0 && RenRow(both, r) == r'' {
      var r' :| r' in d1 && RenRow(next, r') == r'';
      var r :| r in d0 && RenRow(sub, r) == r';
      RenRowComposes(sub, next, both, r);
    }
  }

  lemma RenamedComposes(sub: Sub, next: Sub, both: Sub, d0: Delta, d1: Delta, d2: Delta)
    requires Composes(sub, next, both)
    requires Renamed(sub, d0, d1) && Renamed(next, d1, d2)
    ensures Renamed(both, d0, d2)
  {
    hide Composes, Carries, ComesFrom, Injective;
    CarriesComposes(sub, next, both, d0, d1, d2);
    ComesFromComposes(sub, next, both, d0, d1, d2);
    InjectiveComposes(sub, next, both, d0, d1);
  }

  lemma RenamedNothing(sub: Sub, d: Delta)
    requires forall p :: p in sub ==> sub[p] == map[]
    ensures Renamed(sub, d, d)
  {
    forall r | r in d ensures RenRow(sub, r) == r && RenEntry(sub, r.t, d[r]) == d[r] {
      assert RenCols(sub, r.t, d[r].vals) == d[r].vals;
      assert r.k.Composite? ==> RenCols(sub, r.t, r.k.cols) == r.k.cols;
    }
  }

  function One(t: Table, c: Column, before: int, after: int): Sub {
    map[(t, c) := map[before := after]]
  }

  function Extend(sub: Sub, t: Table, c: Column, before: int, after: int): Sub {
    sub[(t, c) := At(sub, t, c)[before := after]]
  }

  /** One statement more, for a value that is neither renamed yet nor the result of a renaming. */
  lemma OneMore(sub: Sub, t: Table, c: Column, before: int, after: int)
    requires before !in At(sub, t, c) && before !in At(sub, t, c).Values
    ensures Composes(sub, One(t, c, before, after), Extend(sub, t, c, before, after))
  {
  }

  /** UPDATE t_delta SET c = after WHERE c = before: a unique violation fails it. */
  method UpdateColumn(bs: BranchSchema, t: Table, c: Column, before: int, after: int) returns (ok: bool)
    modifies bs`delta
    ensures ok <==> Injective(One(t, c, before, after), old(bs.delta).Keys)
    ensures ok ==> Renamed(One(t, c, before, after), old(bs.delta), bs.delta)
    ensures !ok ==> bs.delta == old(bs.delta)
  {
    var sub := One(t, c, before, after);
    var todo, next := bs.delta.Keys, map[];
    ghost var done: Delta := map[];
    RenamedNothing(map[], map[]);
    while todo != {}
      invariant todo <= bs.delta.Keys && done == bs.delta - todo
      invariant Renamed(sub, done, next) && bs.delta == old(bs.delta)
    {
      hide RenRow, RenEntry, Renamed, Injective;
      var r :| r in todo;
      var r' := RenRow(sub, r);
      if r' in next {
        NotInjective(sub, done, next, bs.delta, r);
        return false;
      }
      RenamedOneMore(sub, done, next, r, bs.delta[r]);
      next, done, todo := next[r' := RenEntry(sub, r.t, bs.delta[r])], done[r := bs.delta[r]], todo - {r};
    }
    assert done == bs.delta;
    bs.delta := next;
    return true;
  }

  lemma NotInjective(sub: Sub, done: Delta, next: Delta, all: Delta, r: RowId)
    requires Renamed(sub, done, next) && done.Keys <= all.Keys && r in all.Keys - done.Keys
    requires RenRow(sub, r) in next
    ensures !Injective(sub, all.Keys)
  {
  }

  lemma RenamedOneMore(sub: Sub, d: Delta, d': Delta, r: RowId, e: Entry)
    requires Renamed(sub, d, d') && r !in d && RenRow(sub, r) !in d'
    ensures Renamed(sub, d[r := e], d'[RenRow(sub, r) := RenEntry(sub, r.t, e)])
  {
  }

  method AnyOf<T>(s: set<T>) returns (x: T)
    requires s != {}
    ensures x in s
  {
    x :| x in s;
  }
}
