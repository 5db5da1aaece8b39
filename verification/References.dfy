/** Rewriting the foreign-key columns of the delta tables to the fresh ids. */
module References {
  import opened Store
  import opened Renaming

  /** The renaming of foreign-key columns that the remaps call for. */
  function FkSub(fks: seq<FK>, remaps: Remaps): Sub {
    if fks == [] then map[]
    else
      var fk := fks[|fks| - 1];
      var rest := FkSub(fks[..|fks| - 1], remaps);
      if fk.ref in remaps then rest[(fk.src, fk.col) := remaps[fk.ref]] else rest
  }

  lemma {:induction false} FkSubAt(fks: seq<FK>, remaps: Remaps, t: Table, c: Column)
    requires DistinctColumns(fks)
    ensures forall fk :: fk in fks && fk.src == t && fk.col == c && fk.ref in remaps ==>
      At(FkSub(fks, remaps), t, c) == remaps[fk.ref]
    ensures (forall fk :: fk in fks && fk.src == t && fk.col == c ==> fk.ref !in remaps) ==>
      At(FkSub(fks, remaps), t, c) == map[]
  {
    if fks != [] {
      FkSubAt(fks[..|fks| - 1], remaps, t, c);
      assert fks == fks[..|fks| - 1] + [fks[|fks| - 1]];
    }
  }

  /** No fresh id is itself an id to be replaced. */
  ghost predicate NoChains(remaps: Remaps) {
    forall t :: t in remaps ==> remaps[t].Keys !! remaps[t].Values
  }

  ghost predicate Commute(first: Sub, second: Sub) {
    forall t, c, v :: Apply(second, t, c, Apply(first, t, c, v)) == Apply(first, t, c, Apply(second, t, c, v))
  }

  /** NoChains is needed: two replacements in one column give the same values in either order exactly
      when neither result is the other's value to replace. */
  lemma OrderMattersIff(t: Table, c: Column, a: int, a': int, b: int, b': int)
    requires a != b && a' != b'
    ensures Commute(One(t, c, a, a'), One(t, c, b, b')) <==> a' != b && b' != a
  {
    var first, second := One(t, c, a, a'), One(t, c, b, b');
    OneAt(t, c, a, a');
    OneAt(t, c, b, b');
    hide One, Apply;
    if Commute(first, second) {
      assert Apply(second, t, c, Apply(first, t, c, Int(a))) == Apply(first, t, c, Apply(second, t, c, Int(a)));
      assert Apply(second, t, c, Apply(first, t, c, Int(b))) == Apply(first, t, c, Apply(second, t, c, Int(b)));
    }
  }

  lemma OneAt(t: Table, c: Column, a: int, a': int)
    ensures forall t', c', v ::
      Apply(One(t, c, a, a'), t', c', v) == if (t', c') == (t, c) && v == Int(a) then Int(a') else v
  {
  }

  ghost predicate NoChainsIn(sub: Sub) {
    forall t, c :: At(sub, t, c).Keys !! At(sub, t, c).Values
  }

  lemma FkSubHasNoChains(fks: seq<FK>, remaps: Remaps)
    requires DistinctColumns(fks) && NoChains(remaps)
    ensures NoChainsIn(FkSub(fks, remaps))
  {
    forall t, c ensures At(FkSub(fks, remaps), t, c).Keys !! At(FkSub(fks, remaps), t, c).Values {
      FkSubAt(fks, remaps, t, c);
    }
  }

  /** sub is some of what full does. */
  ghost predicate PartOf(sub: Sub, full: Sub) {
    forall t, c, n :: n in At(sub, t, c) ==> n in At(full, t, c) && At(full, t, c)[n] == At(sub, t, c)[n]
  }

  lemma PartThenFull(sub: Sub, full: Sub)
    requires PartOf(sub, full) && NoChainsIn(full)
    ensures Composes(sub, full, full)
  {
  }

  /** When part of a renaming already gives two rows one key, all of it does. */
  lemma CollisionsStay(sub: Sub, full: Sub, rows: set<RowId>)
    requires PartOf(sub, full) && NoChainsIn(full)
    requires Injective(full, rows)
    ensures Injective(sub, rows)
  {
    PartThenFull(sub, full);
    forall r, r' | r in rows && r' in rows && RenRow(sub, r) == RenRow(sub, r') ensures r == r' {
      RenRowComposes(sub, full, full, r);
      RenRowComposes(sub, full, full, r');
    }
  }

  /** Replacing a value a second time finds no row. */
  lemma OnceMore(sub: Sub, t: Table, c: Column, before: int, after: int)
    requires before in At(sub, t, c) && before !in At(sub, t, c).Values
    ensures Composes(sub, One(t, c, before, after), sub)
  {
  }

  lemma SameRenaming(sub: Sub, full: Sub, d0: Delta, d: Delta)
    requires PartOf(sub, full) && PartOf(full, sub)
    requires Renamed(sub, d0, d)
    ensures Renamed(full, d0, d)
  {
    assert Composes(sub, map[], full) by {
      forall t, c, v ensures Apply(map[], t, c, Apply(sub, t, c, v)) == Apply(full, t, c, v) {
      }
    }
    RenamedNothing(map[], d);
    RenamedComposes(sub, map[], full, d0, d, d);
  }

  /** What holds between two UPDATEs: the delta is renamed by a part of the whole. */
  ghost predicate PartlyFixed(d0: Delta, d: Delta, sub: Sub, full: Sub) {
    Renamed(sub, d0, d) && PartOf(sub, full) && NoChainsIn(full)
  }

  ghost function With(sub: Sub, t: Table, c: Column, before: int, after: int): Sub {
    if before in At(sub, t, c) then sub else Extend(sub, t, c, before, after)
  }

  lemma WithIsPart(sub: Sub, full: Sub, t: Table, c: Column, before: int)
    requires PartOf(sub, full) && NoChainsIn(full) && before in At(full, t, c)
    ensures PartOf(With(sub, t, c, before, At(full, t, c)[before]), full)
    ensures Composes(sub, One(t, c, before, At(full, t, c)[before]), With(sub, t, c, before, At(full, t, c)[before]))
  {
    forall n | n in At(sub, t, c) ensures At(sub, t, c)[n] != before {
      assert At(full, t, c)[n] in At(full, t, c).Values;
    }
    if before in At(sub, t, c) {
      OnceMore(sub, t, c, before, At(full, t, c)[before]);
    } else {
      OneMore(sub, t, c, before, At(full, t, c)[before]);
    }
  }

  lemma FixedOneMore(d0: Delta, d: Delta, d': Delta, sub: Sub, full: Sub, t: Table, c: Column, before: int)
    requires PartlyFixed(d0, d, sub, full) && before in At(full, t, c)
    requires Renamed(One(t, c, before, At(full, t, c)[before]), d, d')
    ensures PartlyFixed(d0, d', With(sub, t, c, before, At(full, t, c)[before]), full)
  {
    hide Renamed, With;
    WithIsPart(sub, full, t, c, before);
    RenamedComposes(sub, One(t, c, before, At(full, t, c)[before]), With(sub, t, c, before, At(full, t, c)[before]), d0,
                    d, d');
  }

  lemma FixRefused(d0: Delta, d: Delta, sub: Sub, full: Sub, t: Table, c: Column, before: int)
    requires PartlyFixed(d0, d, sub, full) && before in At(full, t, c)
    requires !Injective(One(t, c, before, At(full, t, c)[before]), d.Keys)
    ensures !Injective(full, d0.Keys)
  {
    var sub' := With(sub, t, c, before, At(full, t, c)[before]);
    hide With;
    WithIsPart(sub, full, t, c, before);
    InjectiveComposes(sub, One(t, c, before, At(full, t, c)[before]), sub', d0, d);
    if Injective(full, d0.Keys) {
      CollisionsStay(sub', full, d0.Keys);
    }
  }

  lemma WithGrows(sub: Sub, t: Table, c: Column, before: int, after: int)
    ensures before in At(With(sub, t, c, before, after), t, c)
    ensures forall t', c' :: At(sub, t', c').Keys <= At(With(sub, t, c, before, after), t', c').Keys
  {
  }

  /** The UPDATEs for one foreign key, in the arbitrary order of iterating over a map. */
  method FixColumn(bs: BranchSchema, t: Table, c: Column, m: map<int, int>, ghost known: bool, ghost d0: Delta,
                   ghost sub: Sub, ghost full: Sub)
    returns (ok: bool, ghost sub': Sub)
    requires known ==> PartlyFixed(d0, bs.delta, sub, full) && At(full, t, c) == m
    modifies bs`delta
    ensures known && ok ==> PartlyFixed(d0, bs.delta, sub', full) && At(sub', t, c).Keys >= m.Keys
    ensures known && ok ==> forall t', c' :: At(sub, t', c').Keys <= At(sub', t', c').Keys
    ensures known && !ok ==> !Injective(full, d0.Keys)
  {
    hide PartlyFixed, With, Injective, Renamed, One;
    ok, sub' := true, sub;
    var todo := m.Keys;
    while todo != {} && ok
      invariant todo <= m.Keys
      invariant known && ok ==> PartlyFixed(d0, bs.delta, sub', full)
      invariant known && ok ==> m.Keys - todo <= At(sub', t, c).Keys
      invariant known && ok ==> forall t', c' :: At(sub, t', c').Keys <= At(sub', t', c').Keys
      invariant known && !ok ==> !Injective(full, d0.Keys)
      decreases todo, ok
    {
      var before := AnyOf(todo);
      ghost var d := bs.delta;
      ok := UpdateColumn(bs, t, c, before, m[before]);
      if known {
        if ok {
          FixedOneMore(d0, d, bs.delta, sub', full, t, c, before);
        } else {
          FixRefused(d0, d, sub', full, t, c, before);
        }
      }
      WithGrows(sub', t, c, before, m[before]);
      sub' := With(sub', t, c, before, m[before]);
      todo := todo - {before};
    }
  }

  /** One value at a time gives the simultaneous substitution, whatever the iteration order, and is
      refused exactly when the substitution gives two delta rows the same key. */
  method FixFKReferences(bs: BranchSchema, remaps: Remaps, fks: seq<FK>) returns (ok: bool)
    modifies bs`delta
    ensures DistinctColumns(fks) && NoChains(remaps) ==>
      (ok <==> Injective(FkSub(fks, remaps), old(bs.delta).Keys))
    ensures DistinctColumns(fks) && NoChains(remaps) && ok ==>
      Renamed(FkSub(fks, remaps), old(bs.delta), bs.delta)
  {
    ghost var known, full, d0 := DistinctColumns(fks) && NoChains(remaps), FkSub(fks, remaps), bs.delta;
    ghost var sub: Sub := map[];
    NothingFixed(known, d0, fks, remaps);
    hide PartlyFixed, Injective, Renamed, FkSub, DistinctColumns, NoChains;
    ok := true;
    for i := 0 to |fks|
      invariant known ==> PartlyFixed(d0, bs.delta, sub, full)
      invariant known ==> ColumnsDone(fks, remaps, sub, i)
    {
      var fk := fks[i];
      if fk.ref in remaps && remaps[fk.ref] != map[] {
        if known {
          FkSubAt(fks, remaps, fk.src, fk.col);
        }
        ghost var sub0 := sub;
        ok, sub := FixColumn(bs, fk.src, fk.col, remaps[fk.ref], known, d0, sub, full);
        if !ok {
          if known {
            NotRenamed(full, d0);
          }
          return;
        }
      }
    }
    if known {
      AllFixed(d0, bs.delta, fks, remaps, sub);
    }
  }

  ghost predicate ColumnsDone(fks: seq<FK>, remaps: Remaps, sub: Sub, i: nat)
    requires i <= |fks|
  {
    forall j :: 0 <= j < i && fks[j].ref in remaps ==> remaps[fks[j].ref].Keys <= At(sub, fks[j].src, fks[j].col).Keys
  }

  lemma NothingFixed(known: bool, d: Delta, fks: seq<FK>, remaps: Remaps)
    requires known ==> DistinctColumns(fks) && NoChains(remaps)
    ensures known ==> PartlyFixed(d, d, map[], FkSub(fks, remaps))
  {
    if known {
      RenamedNothing(map[], d);
      FkSubHasNoChains(fks, remaps);
    }
  }

  lemma NotRenamed(full: Sub, d0: Delta)
    requires !Injective(full, d0.Keys)
    ensures forall d :: !Renamed(full, d0, d)
  {
  }

  lemma AllFixed(d0: Delta, d: Delta, fks: seq<FK>, remaps: Remaps, sub: Sub)
    requires DistinctColumns(fks) && PartlyFixed(d0, d, sub, FkSub(fks, remaps)) && ColumnsDone(fks, remaps, sub, |fks|)
    ensures Renamed(FkSub(fks, remaps), d0, d) && Injective(FkSub(fks, remaps), d0.Keys)
  {
    var full := FkSub(fks, remaps);
    forall t, c, n | n in At(full, t, c) ensures n in At(sub, t, c) {
      FkSubAt(fks, remaps, t, c);
      if fk :| fk in fks && fk.src == t && fk.col == c && fk.ref in remaps {
        var j :| 0 <= j < |fks| && fks[j] == fk;
      }
    }
    SameRenaming(sub, full, d0, d);
  }
}
