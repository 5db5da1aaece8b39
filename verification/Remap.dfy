/** Fresh production ids for the rows a branch added, and the references to them. */
module Remap {
  import opened Store
  import opened Renaming
  import opened TableSort

  /** The ids of the rows of t that the branch added, tombstoned ones included. */
  function NewIds(delta: Delta, t: Table): set<int> {
    set r | r in delta && r.t == t && r.k.Id? && delta[r].isNew :: r.k.n
  }

  ghost predicate Ascending(ids: seq<int>) {
    forall i, j :: 0 <= i < j < |ids| ==> ids[i] < ids[j]
  }

  /** ORDER BY id ASC. */
  method SortedIds(s: set<int>) returns (ids: seq<int>)
    ensures Ascending(ids) && Members(ids) == s && |ids| == |s|
  {
    ids := [];
    var rest := s;
    while rest != {}
      invariant Ascending(ids) && rest <= s && |ids| + |rest| == |s|
      invariant forall n :: n in ids <==> n in s && n !in rest
      invariant forall i, n :: 0 <= i < |ids| && n in rest ==> ids[i] < n
    {
      var least := LeastOf(rest);
      ids, rest := ids + [least], rest - {least};
    }
    assert forall n :: n in ids <==> n in s;
  }

  method LeastOf(s: set<int>) returns (least: int)
    requires s != {}
    ensures least in s && forall n :: n in s ==> least <= n
  {
    least := AnyOf(s);
    var rest := s - {least};
    while rest != {}
      invariant rest <= s && least in s
      invariant forall n :: n in s && n !in rest ==> least <= n
    {
      var n := AnyOf(rest);
      if n < least {
        least := n;
      }
      rest := rest - {n};
    }
  }

  ghost predicate Increasing(m: map<int, int>) {
    forall a, b :: a in m && b in m && a < b ==> m[a] < m[b]
  }

  ghost predicate Within(m: map<int, int>, low: int, high: int) {
    forall a :: a in m ==> low <= m[a] < high
  }

  function IdOnly(t: Table, m: map<int, int>): Sub {
    map[(t, "id") := m]
  }

  /** The next start values lie above every id of t but the new ones, and the values that will be
      drawn lie below every new id. */
  ghost predicate Separated(delta: Delta, t: Table, start: int, floor: int) {
    && start + |NewIds(delta, t)| <= floor
    && forall r :: r in delta && r.t == t ==>
      r.k.Id? && (if delta[r].isNew then floor <= r.k.n else r.k.n < start)
  }

  /** A row that is not renamed yet still has its key to itself, so its id is no result of a
      renaming. */
  lemma UnrenamedIdIsNoResult(d0: Delta, d: Delta, t: Table, m: map<int, int>, n: int)
    requires Renamed(IdOnly(t, m), d0, d)
    requires n in NewIds(d0, t) && n !in m && m.Keys <= NewIds(d0, t)
    ensures n !in m.Values
  {
  }

  /** With separated ids the key that nextval hands out is free. */
  lemma NextIdIsFree(d0: Delta, d: Delta, t: Table, m: map<int, int>, n: int, next: int, start: int, floor: int)
    requires Renamed(IdOnly(t, m), d0, d) && Separated(d0, t, start, floor)
    requires n in NewIds(d0, t) && n !in m && m.Keys <= NewIds(d0, t)
    requires Within(m, start, next) && start <= next < floor
    ensures Injective(One(t, "id", n, next), d.Keys)
  {
    var sub, one := IdOnly(t, m), One(t, "id", n, next);
    forall r | r in d0 ensures RenRow(sub, r) != RowId(t, Id(next)) {
    }
    forall r, r' | r in d && r' in d && RenRow(one, r) == RenRow(one, r') ensures r == r' {
      OnlyIdsChange(t, n, next, r);
      OnlyIdsChange(t, n, next, r');
    }
  }

  lemma OnlyIdsChange(t: Table, n: int, next: int, r: RowId)
    requires r.k.Id? || r.t != t
    ensures RenRow(One(t, "id", n, next), r) == if r == RowId(t, Id(n)) then RowId(t, Id(next)) else r
  {
  }

  /** The sequences are the same, none has gone back, and none has been called more than used times. */
  ghost predicate SequencesAdvance(before: map<string, int>, after: map<string, int>, used: nat) {
    before.Keys == after.Keys && forall q :: q in before ==> before[q] <= after[q] <= before[q] + used
  }

  // ----- The fresh ids, predicted -----

  /** How many of the ids are smaller. */
  function Rank(ids: set<int>, n: int): nat {
    |set k | k in ids && k < n|
  }

  /** The ids, ascending, get the values from start on, without a gap. */
  function Predicted(ids: set<int>, start: int): map<int, int> {
    map n | n in ids :: start + Rank(ids, n)
  }

  /** What one table's turn makes of the sequences, and its remap. */
  ghost predicate Draws(cat: Catalog, delta: Delta, t: Table, before: map<string, int>, m: map<int, int>,
                        after: map<string, int>) {
    var news, q := if t in cat.idTables then NewIds(delta, t) else {}, cat.SequenceOf(t);
    if news == {} then m == map[] && after == before
    else q in before && m == Predicted(news, before[q]) && after == before[q := before[q] + |news|]
  }

  /** How often the turns of the tables ts call the sequence q. */
  function Drawn(cat: Catalog, delta: Delta, ts: seq<Table>, q: string): nat {
    if ts == [] then 0
    else
      var t := ts[|ts| - 1];
      Drawn(cat, delta, ts[..|ts| - 1], q) + DrawnBy(cat, delta, t, q)
  }

  function DrawnBy(cat: Catalog, delta: Delta, t: Table, q: string): nat {
    if t in cat.idTables && cat.SequenceOf(t) == q then |NewIds(delta, t)| else 0
  }

  function AfterDrawing(cat: Catalog, delta: Delta, prodSeq: map<string, int>, ts: seq<Table>): map<string, int> {
    map q | q in prodSeq :: prodSeq[q] + Drawn(cat, delta, ts, q)
  }

  /** The remaps, known before the merge from the catalog, the delta and the sequences. */
  function Predict(cat: Catalog, delta: Delta, prodSeq: map<string, int>, ts: seq<Table>): Remaps {
    if ts == [] then map[]
    else
      var t := ts[|ts| - 1];
      var before := ts[..|ts| - 1];
      Predict(cat, delta, prodSeq, before)[t := PredictTable(cat, delta, AfterDrawing(cat, delta, prodSeq, before), t)]
  }

  function PredictTable(cat: Catalog, delta: Delta, prodSeq: map<string, int>, t: Table): map<int, int> {
    var q := cat.SequenceOf(t);
    if t in cat.idTables && q in prodSeq then Predicted(NewIds(delta, t), prodSeq[q]) else map[]
  }

  lemma NoMembers(ids: seq<int>)
    ensures Members(ids[..0]) == {}
  {
  }

  lemma {:induction false} PrefixSize(ids: seq<int>, i: nat)
    requires Ascending(ids) && i <= |ids|
    ensures |Members(ids[..i])| == i
  {
    hide Members, Ascending;
    if i == 0 {
      NoMembers(ids);
    } else {
      var k := i - 1;
      PrefixSize(ids, k);
      BelowNext(ids, k);
      OneMoreElement(Members(ids[..k]), ids[k]);
    }
  }

  lemma OneMoreElement(s: set<int>, n: int)
    requires n !in s
    ensures |s + {n}| == |s| + 1
  {
  }

  lemma SmallerArePrefix(ids: seq<int>, i: nat)
    requires Ascending(ids) && i < |ids|
    ensures (set k | k in Members(ids) && k < ids[i]) == Members(ids[..i])
  {
    forall k | k in Members(ids) && k < ids[i] ensures k in Members(ids[..i]) {
      var j :| 0 <= j < |ids| && ids[j] == k;
      assert j < i && ids[..i][j] == k;
    }
  }

  lemma RankOf(ids: seq<int>, i: nat)
    requires Ascending(ids) && i < |ids|
    ensures Rank(Members(ids), ids[i]) == i
  {
    hide Members, Ascending;
    PrefixSize(ids, i);
    SmallerArePrefix(ids, i);
  }

  /** Some of the ids, each with its value. */
  ghost predicate PredictedSoFar(ids: seq<int>, m: map<int, int>, start: int) {
    forall n :: n in m ==> n in Members(ids) && m[n] == start + Rank(Members(ids), n)
  }

  lemma PredictedOneMore(ids: seq<int>, i: nat, m: map<int, int>, start: int)
    requires Ascending(ids) && i < |ids| && PredictedSoFar(ids, m, start)
    ensures PredictedSoFar(ids, m[ids[i] := start + i], start)
  {
    RankOf(ids, i);
    hide Rank;
  }

  lemma AllPredicted(ids: seq<int>, m: map<int, int>, start: int)
    requires PredictedSoFar(ids, m, start) && m.Keys == Members(ids)
    ensures m == Predicted(Members(ids), start)
  {
    hide Rank;
  }

  lemma NothingDrawn(cat: Catalog, d: Delta, s: map<string, int>)
    ensures AfterDrawing(cat, d, s, []) == s
  {
  }

  lemma PredictedOfNone(start: int)
    ensures Predicted({}, start) == map[]
  {
  }

  lemma DrawnIsPredicted(cat: Catalog, delta: Delta, t: Table, before: map<string, int>, m: map<int, int>,
                         after: map<string, int>)
    requires Draws(cat, delta, t, before, m, after)
    ensures m == PredictTable(cat, delta, before, t)
    ensures after == map q | q in before :: before[q] + DrawnBy(cat, delta, t, q)
  {
    hide NewIds, Predicted;
    if NewIds(delta, t) == {} && cat.SequenceOf(t) in before {
      PredictedOfNone(before[cat.SequenceOf(t)]);
    }
  }

  lemma PredictUnfolds(cat: Catalog, delta: Delta, prodSeq: map<string, int>, tables: seq<Table>, i: nat)
    requires i < |tables|
    ensures
      var before, t := tables[..i], tables[i];
      && Predict(cat, delta, prodSeq, tables[..i + 1])
        == Predict(cat, delta, prodSeq, before)[t :=
          PredictTable(cat, delta, AfterDrawing(cat, delta, prodSeq, before), t)]
      && forall q :: Drawn(cat, delta, tables[..i + 1], q) == Drawn(cat, delta, before, q) + DrawnBy(cat, delta, t, q)
  {
    assert tables[..i + 1][..i] == tables[..i];
    hide PredictTable, AfterDrawing, NewIds;
  }

  lemma PredictNext(cat: Catalog, tables: seq<Table>, i: nat, d0: Delta, before: map<string, int>,
                    now: map<string, int>, after: map<string, int>, remaps: Remaps, m: map<int, int>)
    requires i < |tables| && Draws(cat, d0, tables[i], now, m, after)
    requires remaps == Predict(cat, d0, before, tables[..i]) && now == AfterDrawing(cat, d0, before, tables[..i])
    ensures remaps[tables[i] := m] == Predict(cat, d0, before, tables[..i + 1])
    ensures after == AfterDrawing(cat, d0, before, tables[..i + 1])
  {
    hide Draws, NewIds, PredictTable, Predict, Drawn, DrawnBy;
    DrawnIsPredicted(cat, d0, tables[i], now, m, after);
    PredictUnfolds(cat, d0, before, tables, i);
  }

  // ----- One table -----

  lemma NoneAdvances(start: map<string, int>, n: nat)
    ensures SequencesAdvance(start, start, n)
  {
  }

  /** One table: ids in ascending order, each replaced by the next production id. */
  method RemapTable(db: Database, bs: BranchSchema, t: Table, ghost floor: int) returns (m: map<int, int>, ok: bool)
    modifies db`prodSeq, bs`delta
    ensures SequencesAdvance(old(db.prodSeq), db.prodSeq, |NewIds(old(bs.delta), t)|)
    ensures ok ==> m.Keys == NewIds(old(bs.delta), t) && Increasing(m)
    ensures ok ==> Renamed(IdOnly(t, m), old(bs.delta), bs.delta)
    ensures ok && m != map[] ==>
      var q := db.cat.SequenceOf(t);
      q in old(db.prodSeq) && q in db.prodSeq && Within(m, old(db.prodSeq)[q], db.prodSeq[q])
    ensures ok && t in db.cat.idTables ==> Draws(db.cat, old(bs.delta), t, old(db.prodSeq), m, db.prodSeq)
    ensures NewIds(old(bs.delta), t) == {} ==> ok
    ensures
      var q := db.cat.SequenceOf(t);
      q in old(db.prodSeq) && Separated(old(bs.delta), t, old(db.prodSeq)[q], floor) ==> ok
  {
    hide Remapped, Rounds, Renamed, Separated, NewIds, PredictedSoFar, Draws, SequencesAdvance;
    m := map[];
    ghost var d0, start := bs.delta, db.prodSeq;
    var news := NewIds(bs.delta, t);
    var ids := SortedIds(news);
    RemappedStarts(d0, t, 0);
    if ids == [] {
      RemappedEnds(d0, d0, t, m, 0, 0);
      assert news == {};
      DrawsNothing(db.cat, d0, t, start);
      NoneAdvances(start, |news|);
      return m, true;
    }
    var q := db.cat.SequenceOf(t);
    if q !in db.prodSeq {
      assert ids[0] in Members(ids);
      NoneAdvances(start, |news|);
      return m, false;
    }
    m, ok := RemapIds(db, bs, t, q, ids, floor);
    if ok {
      AllRounds(d0, bs.delta, t, q, ids, m, start, db.prodSeq);
      RemappedEnds(d0, bs.delta, t, m, start[q], db.prodSeq[q]);
      if t in db.cat.idTables {
        DrawsAll(db.cat, d0, t, start, ids, m);
      }
    }
  }

  /** What holds of the loop over the new ids of t after i rounds. */
  ghost predicate Rounds(d0: Delta, d: Delta, t: Table, q: string, ids: seq<int>, i: nat, m: map<int, int>,
                         start: map<string, int>, prodSeq: map<string, int>)
    requires i <= |ids|
  {
    && q in start && prodSeq == start[q := start[q] + i]
    && m.Keys == Members(ids[..i]) && PredictedSoFar(ids, m, start[q])
    && Remapped(d0, d, t, m, start[q], start[q] + i)
  }

  lemma NoRounds(d0: Delta, t: Table, q: string, ids: seq<int>, start: map<string, int>)
    requires q in start
    ensures Rounds(d0, d0, t, q, ids, 0, map[], start, start)
  {
    RemappedStarts(d0, t, start[q]);
    hide Remapped;
  }

  lemma AllRounds(d0: Delta, d: Delta, t: Table, q: string, ids: seq<int>, m: map<int, int>, start: map<string, int>,
                  prodSeq: map<string, int>)
    requires Rounds(d0, d, t, q, ids, |ids|, m, start, prodSeq)
    ensures prodSeq == start[q := start[q] + |ids|] && m.Keys == Members(ids) && PredictedSoFar(ids, m, start[q])
    ensures q in prodSeq && Remapped(d0, d, t, m, start[q], prodSeq[q])
  {
    hide Remapped, PredictedSoFar;
    assert ids[..|ids|] == ids;
  }

  /** One round of the loop. */
  method RemapRound(db: Database, bs: BranchSchema, t: Table, q: string, ids: seq<int>, i: nat, m: map<int, int>,
                    ghost d0: Delta, ghost start: map<string, int>, ghost floor: int)
    returns (m': map<int, int>, ok: bool)
    requires i < |ids| && Ascending(ids) && Members(ids) == NewIds(d0, t) && |ids| == |NewIds(d0, t)|
    requires Rounds(d0, bs.delta, t, q, ids, i, m, start, db.prodSeq)
    modifies db`prodSeq, bs`delta
    ensures db.prodSeq == start[q := start[q] + (i + 1)]
    ensures ok ==> Rounds(d0, bs.delta, t, q, ids, i + 1, m', start, db.prodSeq)
    ensures Separated(d0, t, start[q], floor) ==> ok
  {
    hide Remapped, Separated, NewIds, PredictedSoFar, Ascending;
    assert ids[i] in Members(ids);
    BelowNext(ids, i);
    PredictedOneMore(ids, i, m, start[q]);
    SeparatedBound(d0, t, start[q], floor);
    m', ok := RemapOne(db, bs, t, q, ids[i], m, d0, start[q], floor);
  }

  /** The loop over the new ids of t. */
  method RemapIds(db: Database, bs: BranchSchema, t: Table, q: string, ids: seq<int>, ghost floor: int)
    returns (m: map<int, int>, ok: bool)
    requires q in db.prodSeq && Ascending(ids)
    requires Members(ids) == NewIds(bs.delta, t) && |ids| == |NewIds(bs.delta, t)|
    modifies db`prodSeq, bs`delta
    ensures SequencesAdvance(old(db.prodSeq), db.prodSeq, |ids|)
    ensures ok ==> Rounds(old(bs.delta), bs.delta, t, q, ids, |ids|, m, old(db.prodSeq), db.prodSeq)
    ensures Separated(old(bs.delta), t, old(db.prodSeq)[q], floor) ==> ok
  {
    hide Rounds, Separated, NewIds, Members, Ascending;
    ghost var d0, start := bs.delta, db.prodSeq;
    NoRounds(d0, t, q, ids, start);
    m, ok := map[], true;
    var i := 0;
    while i < |ids| && ok
      invariant i <= |ids| && SequencesAdvance(start, db.prodSeq, i)
      invariant ok ==> Rounds(d0, bs.delta, t, q, ids, i, m, start, db.prodSeq)
      invariant Separated(d0, t, start[q], floor) ==> ok
    {
      m, ok := RemapRound(db, bs, t, q, ids, i, m, d0, start, floor);
      i := i + 1;
    }
  }

  lemma DrawsNothing(cat: Catalog, delta: Delta, t: Table, before: map<string, int>)
    requires NewIds(delta, t) == {}
    ensures Draws(cat, delta, t, before, map[], before)
  {
  }

  lemma DrawsAll(cat: Catalog, delta: Delta, t: Table, before: map<string, int>, ids: seq<int>, m: map<int, int>)
    requires t in cat.idTables && cat.SequenceOf(t) in before && ids != []
    requires Members(ids) == NewIds(delta, t) && |ids| == |NewIds(delta, t)| && m.Keys == Members(ids)
    requires PredictedSoFar(ids, m, before[cat.SequenceOf(t)])
    ensures
      var q := cat.SequenceOf(t);
      Draws(cat, delta, t, before, m, before[q := before[q] + |ids|])
  {
    AllPredicted(ids, m, before[cat.SequenceOf(t)]);
    hide NewIds, Predicted, PredictedSoFar;
    assert ids[0] in Members(ids);
  }

  lemma NonePredicted(ids: seq<int>, start: int)
    ensures PredictedSoFar(ids, map[], start)
  {
  }

  lemma RemappedEnds(d0: Delta, d: Delta, t: Table, m: map<int, int>, start: int, next: int)
    requires Remapped(d0, d, t, m, start, next)
    ensures Increasing(m) && Within(m, start, next) && Renamed(IdOnly(t, m), d0, d)
  {
  }

  function Members(ids: seq<int>): set<int> {
    set n | n in ids
  }

  lemma BelowNext(ids: seq<int>, i: nat)
    requires Ascending(ids) && i < |ids|
    ensures forall n :: n in Members(ids[..i]) ==> n < ids[i]
    ensures ids[i] !in Members(ids[..i])
    ensures Members(ids[..i + 1]) == Members(ids[..i]) + {ids[i]}
  {
  }

  /** What holds between two rounds of the loop over the ids of t. */
  ghost predicate Remapped(d0: Delta, d: Delta, t: Table, m: map<int, int>, start: int, next: int) {
    && start <= next && m.Keys <= NewIds(d0, t)
    && Increasing(m) && Within(m, start, next)
    && Renamed(IdOnly(t, m), d0, d)
  }

  lemma RemappedOneMore(d0: Delta, d: Delta, d': Delta, t: Table, m: map<int, int>, start: int, next: int, n: int)
    requires Remapped(d0, d, t, m, start, next)
    requires n in NewIds(d0, t) && forall k :: k in m ==> k < n
    requires Renamed(One(t, "id", n, next), d, d')
    ensures Remapped(d0, d', t, m[n := next], start, next + 1)
  {
    var m' := m[n := next];
    assert Renamed(IdOnly(t, m'), d0, d') by {
      hide Renamed, NewIds;
      UnrenamedIdIsNoResult(d0, d, t, m, n);
      OneMore(IdOnly(t, m), t, "id", n, next);
      assert Extend(IdOnly(t, m), t, "id", n, next) == IdOnly(t, m');
      RenamedComposes(IdOnly(t, m), One(t, "id", n, next), IdOnly(t, m'), d0, d, d');
    }
    hide Renamed, IdOnly, NewIds;
  }

  lemma RemappedNextIsFree(d0: Delta, d: Delta, t: Table, m: map<int, int>, start: int, next: int, n: int, floor: int)
    requires Remapped(d0, d, t, m, start, next)
    requires n in NewIds(d0, t) && forall k :: k in m ==> k < n
    ensures Separated(d0, t, start, floor) && next < floor ==> Injective(One(t, "id", n, next), d.Keys)
  {
    if Separated(d0, t, start, floor) && next < floor {
      NextIdIsFree(d0, d, t, m, n, next, start, floor);
    }
  }

  lemma RemappedStarts(d: Delta, t: Table, start: int)
    ensures Remapped(d, d, t, map[], start, start)
  {
    RenamedNothing(IdOnly(t, map[]), d);
  }

  /** SELECT nextval, then UPDATE t_delta SET id = newID WHERE id = before. */
  method RemapOne(db: Database, bs: BranchSchema, t: Table, q: string, before: int, m: map<int, int>,
                  ghost d0: Delta, ghost start: int, ghost floor: int)
    returns (m': map<int, int>, ok: bool)
    requires q in db.prodSeq && Remapped(d0, bs.delta, t, m, start, db.prodSeq[q])
    requires before in NewIds(d0, t) && forall n :: n in m ==> n < before
    modifies db`prodSeq, bs`delta
    ensures db.prodSeq == old(db.prodSeq)[q := old(db.prodSeq)[q] + 1]
    ensures ok ==> m' == m[before := old(db.prodSeq)[q]]
    ensures ok ==> Remapped(d0, bs.delta, t, m', start, db.prodSeq[q])
    ensures Separated(d0, t, start, floor) && old(db.prodSeq)[q] < floor ==> ok
  {
    hide *;
    var after := db.prodSeq[q];
    m' := m[before := after];
    db.prodSeq := db.prodSeq[q := after + 1];
    ghost var d := bs.delta;
    RemappedNextIsFree(d0, d, t, m, start, after, before, floor);
    ok := UpdateColumn(bs, t, "id", before, after);
    if ok {
      RemappedOneMore(d0, d, bs.delta, t, m, start, after, before);
    }
  }

  lemma SeparatedBound(delta: Delta, t: Table, start: int, floor: int)
    ensures Separated(delta, t, start, floor) ==> start + |NewIds(delta, t)| <= floor
  {
  }

  // ----- All tables -----

  function IdSub(remaps: Remaps): Sub {
    map t | t in remaps :: (t, "id") := remaps[t]
  }

  lemma IdSubAt(remaps: Remaps, t: Table, c: Column)
    ensures At(IdSub(remaps), t, c) == if c == "id" && t in remaps then remaps[t] else map[]
  {
  }

  lemma IdSubGrows(remaps: Remaps, t: Table, m: map<int, int>)
    requires t !in remaps
    ensures Composes(IdSub(remaps), IdOnly(t, m), IdSub(remaps[t := m]))
  {
    forall t', c', v
      ensures Apply(IdOnly(t, m), t', c', Apply(IdSub(remaps), t', c', v)) == Apply(IdSub(remaps[t := m]), t', c', v)
    {
      IdSubAt(remaps, t', c');
      IdSubAt(remaps[t := m], t', c');
    }
  }

  lemma RowOfUnrenamedTable(remaps: Remaps, t: Table, r: RowId)
    requires t !in remaps && r.t == t
    ensures RenRow(IdSub(remaps), r) == r
  {
  }

  ghost predicate SameRowsOf(t: Table, d0: Delta, d: Delta) {
    forall r: RowId :: r.t == t ==> (r in d <==> r in d0) && (r in d0 ==> d[r].isNew == d0[r].isNew)
  }

  lemma RowsOfUnrenamedTable(remaps: Remaps, d0: Delta, d: Delta, t: Table)
    requires t !in remaps && Renamed(IdSub(remaps), d0, d)
    ensures SameRowsOf(t, d0, d)
  {
    hide RenRow, RenEntry, IdSub, Injective;
    forall r: RowId | r.t == t ensures (r in d <==> r in d0) && (r in d0 ==> d[r].isNew == d0[r].isNew) {
      RowOfUnrenamedTable(remaps, t, r);
      RenEntryKeepsFlags(IdSub(remaps));
      if r in d {
        var s :| s in d0 && RenRow(IdSub(remaps), s) == r;
        RenRowKeepsTable(IdSub(remaps), s);
        RowOfUnrenamedTable(remaps, t, s);
      }
    }
  }

  lemma RenRowKeepsTable(sub: Sub, r: RowId)
    ensures RenRow(sub, r).t == r.t
  {
  }

  lemma RenEntryKeepsFlags(sub: Sub)
    ensures forall t, e :: RenEntry(sub, t, e).isNew == e.isNew && RenEntry(sub, t, e).deleted == e.deleted
  {
  }

  /** A table whose turn has not come is as it was. */
  lemma NewIdsOfSameRows(d0: Delta, d: Delta, t: Table)
    requires SameRowsOf(t, d0, d)
    ensures NewIds(d, t) == NewIds(d0, t)
    ensures forall start, floor :: Separated(d, t, start, floor) <==> Separated(d0, t, start, floor)
  {
  }

  /** How many rows with new ids there are in the tables ts. */
  function TotalNew(cat: Catalog, delta: Delta, ts: seq<Table>): nat {
    if ts == [] then 0
    else
      var t := ts[|ts| - 1];
      TotalNew(cat, delta, ts[..|ts| - 1]) + if t in cat.idTables then |NewIds(delta, t)| else 0
  }

  lemma {:induction false} TotalNewOfPrefix(cat: Catalog, delta: Delta, ts: seq<Table>, i: nat)
    requires i <= |ts|
    ensures TotalNew(cat, delta, ts[..i]) <= TotalNew(cat, delta, ts)
  {
    if i < |ts| {
      TotalNewOfPrefix(cat, delta, ts[..|ts| - 1], i);
      assert ts[..|ts| - 1][..i] == ts[..i];
    } else {
      assert ts[..i] == ts;
    }
  }

  /** The hypothesis on ids: production sequences are above the ids base tables use and, even when
      called once for every new row, below the floor that branch-local ids start from. */
  ghost predicate SequencesSeparated(cat: Catalog, tables: seq<Table>, delta: Delta, prodSeq: map<string, int>,
                                     floor: int) {
    forall t :: t in tables && t in cat.idTables && NewIds(delta, t) != {} ==>
      var q := cat.SequenceOf(t);
      && q in prodSeq && prodSeq[q] + TotalNew(cat, delta, tables) <= floor
      && forall r :: r in delta && r.t == t ==>
          r.k.Id? && (if delta[r].isNew then floor <= r.k.n else r.k.n < prodSeq[q])
  }

  /** What the remaps say of table t, in terms of the delta before. */
  ghost predicate RemapsTable(cat: Catalog, d0: Delta, before: map<string, int>, after: map<string, int>, t: Table,
                              m: map<int, int>) {
    && m.Keys == (if t in cat.idTables then NewIds(d0, t) else {})
    && Increasing(m)
    && (m != map[] ==>
      var q := cat.SequenceOf(t);
      q in before && q in after && Within(m, before[q], after[q]))
  }

  lemma SeparatedStill(cat: Catalog, tables: seq<Table>, i: nat, d0: Delta, before: map<string, int>,
                       now: map<string, int>, floor: int)
    requires i < |tables| && tables[i] in cat.idTables
    requires SequencesSeparated(cat, tables, d0, before, floor)
    requires SequencesAdvance(before, now, TotalNew(cat, d0, tables[..i]))
    requires NewIds(d0, tables[i]) != {}
    ensures
      var q := cat.SequenceOf(tables[i]);
      q in now && Separated(d0, tables[i], now[q], floor)
  {
    var t := tables[i];
    TotalNewOfPrefix(cat, d0, tables, i + 1);
    assert tables[..i + 1][..i] == tables[..i];
    assert t in tables;
    assert TotalNew(cat, d0, tables[..i]) + |NewIds(d0, t)| <= TotalNew(cat, d0, tables);
  }

  /** Every id of a new row, tombstoned ones included, is replaced by a fresh production id. */
  method RemapNewRows(db: Database, bs: BranchSchema, tables: seq<Table>, ghost floor: int)
    returns (remaps: Remaps, ok: bool)
    requires NoDuplicates(tables)
    modifies db`prodSeq, bs`delta
    ensures SequencesAdvance(old(db.prodSeq), db.prodSeq, TotalNew(db.cat, old(bs.delta), tables))
    ensures ok ==> remaps.Keys == SetOf(tables)
    ensures ok ==>
      forall t :: t in tables ==> RemapsTable(db.cat, old(bs.delta), old(db.prodSeq), db.prodSeq, t, remaps[t])
    ensures ok ==> Renamed(IdSub(remaps), old(bs.delta), bs.delta)
    ensures ok ==> remaps == Predict(db.cat, old(bs.delta), old(db.prodSeq), tables)
    ensures ok ==> db.prodSeq == AfterDrawing(db.cat, old(bs.delta), old(db.prodSeq), tables)
    ensures SequencesSeparated(db.cat, tables, old(bs.delta), old(db.prodSeq), floor) ==> ok
  {
    hide Renamed, SequencesSeparated, SequencesAdvance, RemapsTable, NewIds, IdSub, RemappedTables;
    ghost var d0, seq0 := bs.delta, db.prodSeq;
    remaps := map[];
    NothingRemapped(db.cat, d0, db.prodSeq);
    ok := true;
    var i := 0;
    while i < |tables| && ok
      invariant i <= |tables|
      invariant SequencesAdvance(seq0, db.prodSeq, TotalNew(db.cat, d0, tables[..i]))
      invariant ok ==> RemappedTables(db.cat, tables[..i], d0, bs.delta, seq0, db.prodSeq, remaps)
      invariant SequencesSeparated(db.cat, tables, d0, seq0, floor) ==> ok
    {
      remaps, ok := RemapNext(db, bs, tables, i, remaps, d0, seq0, floor);
      i := i + 1;
    }
    if ok {
      assert tables[..i] == tables;
      TablesRemapped(db.cat, tables, d0, bs.delta, seq0, db.prodSeq, remaps);
    } else {
      TotalNewOfPrefix(db.cat, d0, tables, i);
      AdvanceMore(seq0, db.prodSeq, TotalNew(db.cat, d0, tables[..i]), TotalNew(db.cat, d0, tables));
    }
  }

  /** Every table with new ids has a sequence to draw from. */
  ghost predicate Sequenced(cat: Catalog, delta: Delta, prodSeq: map<string, int>, ts: seq<Table>) {
    forall t :: t in ts && t in cat.idTables && NewIds(delta, t) != {} ==> cat.SequenceOf(t) in prodSeq
  }

  /** What holds between two tables. */
  ghost predicate RemappedTables(cat: Catalog, ts: seq<Table>, d0: Delta, d: Delta, seq0: map<string, int>,
                                 now: map<string, int>,
                                 remaps: Remaps) {
    && Renamed(IdSub(remaps), d0, d) && Sequenced(cat, d0, seq0, ts)
    && remaps == Predict(cat, d0, seq0, ts) && now == AfterDrawing(cat, d0, seq0, ts)
  }

  lemma TablesRemapped(cat: Catalog, tables: seq<Table>, d0: Delta, d: Delta, seq0: map<string, int>,
                       now: map<string, int>,
                       remaps: Remaps)
    requires NoDuplicates(tables) && RemappedTables(cat, tables, d0, d, seq0, now, remaps)
    ensures remaps.Keys == SetOf(tables) && Renamed(IdSub(remaps), d0, d)
    ensures remaps == Predict(cat, d0, seq0, tables) && now == AfterDrawing(cat, d0, seq0, tables)
    ensures SequencesAdvance(seq0, now, TotalNew(cat, d0, tables))
    ensures forall t :: t in tables ==> RemapsTable(cat, d0, seq0, now, t, remaps[t])
  {
    hide Renamed, IdSub, Predict, AfterDrawing, SequencesAdvance, RemapsTable, Sequenced;
    PredictionHolds(cat, tables, d0, seq0);
  }

  lemma AdvanceMore(before: map<string, int>, after: map<string, int>, used: nat, more: nat)
    requires SequencesAdvance(before, after, used) && used <= more
    ensures SequencesAdvance(before, after, more)
  {
  }

  lemma RemappedTablesAre(cat: Catalog, ts: seq<Table>, d0: Delta, d: Delta, seq0: map<string, int>,
                          now: map<string, int>,
                          remaps: Remaps)
    ensures RemappedTables(cat, ts, d0, d, seq0, now, remaps) <==>
      && Renamed(IdSub(remaps), d0, d) && Sequenced(cat, d0, seq0, ts)
      && remaps == Predict(cat, d0, seq0, ts) && now == AfterDrawing(cat, d0, seq0, ts)
  {
  }

  lemma NothingRemapped(cat: Catalog, d: Delta, s: map<string, int>)
    ensures RemappedTables(cat, [], d, d, s, s, map[]) && SequencesAdvance(s, s, 0)
  {
    assert Sequenced(cat, d, s, []) && Predict(cat, d, s, []) == map[] && SequencesAdvance(s, s, 0) by {
      hide NewIds;
    }
    assert forall p :: p !in IdSub(map[]);
    hide *;
    RenamedNothing(IdSub(map[]), d);
    NothingDrawn(cat, d, s);
    RemappedTablesAre(cat, [], d, d, s, s, map[]);
  }

  /** The next table. */
  method RemapNext(db: Database, bs: BranchSchema, tables: seq<Table>, i: nat, remaps: Remaps,
                   ghost d0: Delta, ghost seq0: map<string, int>, ghost floor: int)
    returns (remaps': Remaps, ok: bool)
    requires NoDuplicates(tables) && i < |tables|
    requires SequencesAdvance(seq0, db.prodSeq, TotalNew(db.cat, d0, tables[..i]))
    requires RemappedTables(db.cat, tables[..i], d0, bs.delta, seq0, db.prodSeq, remaps)
    modifies db`prodSeq, bs`delta
    ensures SequencesAdvance(seq0, db.prodSeq, TotalNew(db.cat, d0, tables[..i + 1]))
    ensures ok ==> RemappedTables(db.cat, tables[..i + 1], d0, bs.delta, seq0, db.prodSeq, remaps')
    ensures SequencesSeparated(db.cat, tables, d0, seq0, floor) ==> ok
  {
    hide *;
    var t := tables[i];
    ghost var d, now := bs.delta, db.prodSeq;
    BeforeTurn(db.cat, tables, i, d0, d, seq0, now, remaps, floor);
    var m;
    m, ok := RemapIfKeyed(db, bs, t, floor);
    remaps' := remaps[t := m];
    AdvanceTogether(db.cat, tables, i, d0, seq0, now, db.prodSeq);
    if ok {
      DrawsSame(db.cat, d0, d, t, now, m, db.prodSeq);
      OneTableMore(db.cat, tables, i, d0, d, bs.delta, seq0, now, db.prodSeq, remaps, m, remaps');
    }
  }

  /** Tables without a column id keep their keys. */
  method RemapIfKeyed(db: Database, bs: BranchSchema, t: Table, ghost floor: int) returns (m: map<int, int>, ok: bool)
    modifies db`prodSeq, bs`delta
    ensures SequencesAdvance(old(db.prodSeq), db.prodSeq,
                             if t in db.cat.idTables then |NewIds(old(bs.delta), t)| else 0)
    ensures ok ==> Renamed(IdOnly(t, m), old(bs.delta), bs.delta)
    ensures ok ==> Draws(db.cat, old(bs.delta), t, old(db.prodSeq), m, db.prodSeq)
    ensures t !in db.cat.idTables || NewIds(old(bs.delta), t) == {} ==> ok
    ensures
      var q := db.cat.SequenceOf(t);
      q in old(db.prodSeq) && Separated(old(bs.delta), t, old(db.prodSeq)[q], floor) ==> ok
  {
    hide Renamed, Separated, SequencesAdvance, NewIds, Within;
    if t in db.cat.idTables {
      m, ok := RemapTable(db, bs, t, floor);
    } else {
      m, ok := map[], true;
      RenamedNothing(IdOnly(t, m), bs.delta);
      AdvanceNothing(db.prodSeq);
    }
  }

  /** What is known of the next table before its turn. */
  lemma BeforeTurn(cat: Catalog, tables: seq<Table>, i: nat, d0: Delta, d: Delta, s0: map<string, int>,
                   s1: map<string, int>, remaps: Remaps, floor: int)
    requires NoDuplicates(tables) && i < |tables| && RemappedTables(cat, tables[..i], d0, d, s0, s1, remaps)
    requires SequencesAdvance(s0, s1, TotalNew(cat, d0, tables[..i]))
    ensures tables[i] !in remaps && NewIds(d, tables[i]) == NewIds(d0, tables[i])
    ensures SequencesSeparated(cat, tables, d0, s0, floor) ==>
      var q := cat.SequenceOf(tables[i]);
      tables[i] !in cat.idTables || NewIds(d, tables[i]) == {} || (q in s1 && Separated(d, tables[i], s1[q], floor))
  {
    assert Renamed(IdSub(remaps), d0, d) && remaps == Predict(cat, d0, s0, tables[..i]);
    hide *;
    PredictKeys(cat, d0, s0, tables[..i]);
    TurnIsNew(tables, i, remaps);
    RowsOfUnrenamedTable(remaps, d0, d, tables[i]);
    NewIdsOfSameRows(d0, d, tables[i]);
    if SequencesSeparated(cat, tables, d0, s0, floor) && tables[i] in cat.idTables && NewIds(d0, tables[i]) != {} {
      SeparatedStill(cat, tables, i, d0, s0, s1, floor);
    }
  }

  lemma TurnIsNew(tables: seq<Table>, i: nat, remaps: Remaps)
    requires NoDuplicates(tables) && i < |tables| && remaps.Keys == SetOf(tables[..i])
    ensures tables[i] !in remaps
  {
    assert tables[i] !in tables[..i];
  }

  lemma DrawsSame(cat: Catalog, d0: Delta, d: Delta, t: Table, before: map<string, int>, m: map<int, int>,
                  after: map<string, int>)
    requires NewIds(d, t) == NewIds(d0, t) && Draws(cat, d, t, before, m, after)
    ensures Draws(cat, d0, t, before, m, after)
  {
    hide NewIds, Predicted;
  }

  lemma OneTableMore(cat: Catalog, tables: seq<Table>, i: nat, d0: Delta, d: Delta, d': Delta, s0: map<string, int>,
                     s1: map<string, int>, s2: map<string, int>, remaps: Remaps, m: map<int, int>, remaps': Remaps)
    requires i < |tables| && tables[i] !in remaps && remaps' == remaps[tables[i] := m]
    requires RemappedTables(cat, tables[..i], d0, d, s0, s1, remaps)
    requires Renamed(IdOnly(tables[i], m), d, d') && Draws(cat, d0, tables[i], s1, m, s2)
    ensures RemappedTables(cat, tables[..i + 1], d0, d', s0, s2, remaps')
  {
    hide *;
    var t := tables[i];
    RemappedTablesAre(cat, tables[..i], d0, d, s0, s1, remaps);
    StillSequenced(cat, tables, i, d0, s0, s1, m, s2);
    IdSubGrows(remaps, t, m);
    RenamedComposes(IdSub(remaps), IdOnly(t, m), IdSub(remaps'), d0, d, d');
    PredictNext(cat, tables, i, d0, s0, s1, s2, remaps, m);
    RemappedTablesAre(cat, tables[..i + 1], d0, d', s0, s2, remaps');
  }

  lemma StillSequenced(cat: Catalog, tables: seq<Table>, i: nat, d0: Delta, s0: map<string, int>, s1: map<string, int>,
                       m: map<int, int>, s2: map<string, int>)
    requires i < |tables| && Sequenced(cat, d0, s0, tables[..i]) && s1 == AfterDrawing(cat, d0, s0, tables[..i])
    requires Draws(cat, d0, tables[i], s1, m, s2)
    ensures Sequenced(cat, d0, s0, tables[..i + 1])
  {
    assert tables[..i + 1] == tables[..i] + [tables[i]];
    hide NewIds, Drawn, Predicted;
  }

  lemma AdvanceNothing(s: map<string, int>)
    ensures SequencesAdvance(s, s, 0)
  {
  }

  lemma AdvanceTogether(cat: Catalog, tables: seq<Table>, i: nat, d0: Delta, s0: map<string, int>, s1: map<string, int>,
                        s2: map<string, int>)
    requires i < |tables|
    requires SequencesAdvance(s0, s1, TotalNew(cat, d0, tables[..i]))
    requires SequencesAdvance(s1, s2, if tables[i] in cat.idTables then |NewIds(d0, tables[i])| else 0)
    ensures SequencesAdvance(s0, s2, TotalNew(cat, d0, tables[..i + 1]))
  {
    assert tables[..i + 1][..i] == tables[..i];
  }

  // ----- The prediction has the properties that the turns promise -----

  lemma RankGrows(ids: set<int>, a: int, b: int)
    requires a in ids && a < b
    ensures Rank(ids, a) < Rank(ids, b)
    ensures Rank(ids, a) < |ids|
  {
    var below, below' := set k | k in ids && k < a, set k | k in ids && k < b;
    assert below < below' by {
      assert a in below' && a !in below;
    }
    SmallerSet(below, below');
    assert below < ids;
    SmallerSet(below, ids);
  }

  lemma LeastRank(ids: set<int>, n: int)
    requires forall k :: k in ids ==> n <= k
    ensures Rank(ids, n) == 0
  {
    assert (set k | k in ids && k < n) == {};
  }

  lemma SmallerSet(a: set<int>, b: set<int>)
    requires a < b
    ensures |a| < |b|
  {
    assert b == a + (b - a) && b - a != {};
  }

  lemma PredictedIs(ids: set<int>, start: int)
    ensures Predicted(ids, start).Keys == ids
    ensures Increasing(Predicted(ids, start)) && Within(Predicted(ids, start), start, start + |ids|)
  {
    forall a, b | a in ids && b in ids && a < b ensures Rank(ids, a) < Rank(ids, b) {
      RankGrows(ids, a, b);
    }
    forall a | a in ids ensures Rank(ids, a) < |ids| {
      RankGrows(ids, a, a + 1);
    }
    hide Rank;
  }

  lemma {:induction false} DrawnOfPrefix(cat: Catalog, delta: Delta, ts: seq<Table>, i: nat, q: string)
    requires i <= |ts|
    ensures Drawn(cat, delta, ts[..i], q) <= Drawn(cat, delta, ts, q)
    ensures i < |ts| && ts[i] in cat.idTables && cat.SequenceOf(ts[i]) == q ==>
      Drawn(cat, delta, ts[..i], q) + |NewIds(delta, ts[i])| <= Drawn(cat, delta, ts, q)
  {
    if i < |ts| {
      var less := ts[..|ts| - 1];
      DrawnOfPrefix(cat, delta, less, i, q);
      assert less[..i] == ts[..i];
    } else {
      assert ts[..i] == ts;
    }
  }

  lemma {:induction false} DrawnIsBounded(cat: Catalog, delta: Delta, ts: seq<Table>, q: string)
    ensures Drawn(cat, delta, ts, q) <= TotalNew(cat, delta, ts)
  {
    if ts != [] {
      DrawnIsBounded(cat, delta, ts[..|ts| - 1], q);
    }
  }

  lemma {:induction false} PredictAt(cat: Catalog, delta: Delta, prodSeq: map<string, int>, ts: seq<Table>, i: nat)
    requires NoDuplicates(ts) && i < |ts|
    ensures ts[i] in Predict(cat, delta, prodSeq, ts)
    ensures Predict(cat, delta, prodSeq, ts)[ts[i]]
      == PredictTable(cat, delta, AfterDrawing(cat, delta, prodSeq, ts[..i]), ts[i])
  {
    hide PredictTable, AfterDrawing;
    if i < |ts| - 1 {
      PredictAt(cat, delta, prodSeq, ts[..|ts| - 1], i);
      assert ts[..|ts| - 1][..i] == ts[..i];
      assert ts[i] != ts[|ts| - 1];
    }
  }

  lemma {:induction false} PredictKeys(cat: Catalog, delta: Delta, prodSeq: map<string, int>, ts: seq<Table>)
    ensures Predict(cat, delta, prodSeq, ts).Keys == SetOf(ts)
  {
    hide PredictTable, AfterDrawing;
    if ts != [] {
      PredictKeys(cat, delta, prodSeq, ts[..|ts| - 1]);
      assert ts == ts[..|ts| - 1] + [ts[|ts| - 1]];
    }
  }

  lemma PredictedRemapsTable(cat: Catalog, delta: Delta, prodSeq: map<string, int>, ts: seq<Table>, i: nat, t: Table)
    requires NoDuplicates(ts) && i < |ts| && ts[i] == t
    requires t in cat.idTables && NewIds(delta, t) != {} ==> cat.SequenceOf(t) in prodSeq
    ensures t in Predict(cat, delta, prodSeq, ts)
    ensures RemapsTable(cat, delta, prodSeq, AfterDrawing(cat, delta, prodSeq, ts), t,
                        Predict(cat, delta, prodSeq, ts)[t])
  {
    hide *;
    PredictAt(cat, delta, prodSeq, ts, i);
    DrawnOfPrefix(cat, delta, ts, i, cat.SequenceOf(t));
    PredictedTableIs(cat, delta, prodSeq, ts[..i], ts, t);
  }

  lemma PredictedTableIs(cat: Catalog, delta: Delta, prodSeq: map<string, int>, before: seq<Table>, ts: seq<Table>,
                         t: Table)
    requires t in cat.idTables && NewIds(delta, t) != {} ==> cat.SequenceOf(t) in prodSeq
    requires t in cat.idTables ==>
      Drawn(cat, delta, before, cat.SequenceOf(t)) + |NewIds(delta, t)| <= Drawn(cat, delta, ts, cat.SequenceOf(t))
    ensures RemapsTable(cat, delta, prodSeq, AfterDrawing(cat, delta, prodSeq, ts), t,
                        PredictTable(cat, delta, AfterDrawing(cat, delta, prodSeq, before), t))
  {
    var q, news := cat.SequenceOf(t), NewIds(delta, t);
    hide NewIds, Drawn, Increasing, Within, Predicted, AfterDrawing;
    if t in cat.idTables && q in prodSeq {
      AfterDrawingAt(cat, delta, prodSeq, ts, q);
      AfterDrawingAt(cat, delta, prodSeq, before, q);
      var start := prodSeq[q] + Drawn(cat, delta, before, q);
      PredictedIs(news, start);
      WithinMore(Predicted(news, start), start, start + |news|, prodSeq[q], prodSeq[q] + Drawn(cat, delta, ts, q));
    } else {
      AfterDrawingKeys(cat, delta, prodSeq, before);
      NothingIncreases();
    }
  }

  lemma AfterDrawingAt(cat: Catalog, delta: Delta, prodSeq: map<string, int>, ts: seq<Table>, q: string)
    requires q in prodSeq
    ensures q in AfterDrawing(cat, delta, prodSeq, ts)
    ensures AfterDrawing(cat, delta, prodSeq, ts)[q] == prodSeq[q] + Drawn(cat, delta, ts, q)
  {
    hide Drawn;
  }

  lemma AfterDrawingKeys(cat: Catalog, delta: Delta, prodSeq: map<string, int>, ts: seq<Table>)
    ensures AfterDrawing(cat, delta, prodSeq, ts).Keys == prodSeq.Keys
  {
    hide Drawn;
  }

  lemma WithinMore(m: map<int, int>, low: int, high: int, lower: int, higher: int)
    requires Within(m, low, high) && lower <= low && high <= higher
    ensures Within(m, lower, higher)
  {
  }

  lemma NothingIncreases()
    ensures Increasing(map[])
  {
  }

  /** What was predicted is what the turns would promise. */
  lemma PredictionHolds(cat: Catalog, tables: seq<Table>, delta: Delta, prodSeq: map<string, int>)
    requires NoDuplicates(tables) && Sequenced(cat, delta, prodSeq, tables)
    ensures
      var remaps, after := Predict(cat, delta, prodSeq, tables), AfterDrawing(cat, delta, prodSeq, tables);
      && remaps.Keys == SetOf(tables) && SequencesAdvance(prodSeq, after, TotalNew(cat, delta, tables))
      && forall t :: t in tables ==> RemapsTable(cat, delta, prodSeq, after, t, remaps[t])
  {
    PredictKeys(cat, delta, prodSeq, tables);
    hide NewIds, Predict, TotalNew, Drawn, RemapsTable;
    forall q | q in prodSeq ensures Drawn(cat, delta, tables, q) <= TotalNew(cat, delta, tables) {
      DrawnIsBounded(cat, delta, tables, q);
    }
    forall t | t in tables
      ensures RemapsTable(cat, delta, prodSeq, AfterDrawing(cat, delta, prodSeq, tables), t,
                          Predict(cat, delta, prodSeq, tables)[t])
    {
      var i :| 0 <= i < |tables| && tables[i] == t;
      PredictedRemapsTable(cat, delta, prodSeq, tables, i, t);
    }
  }

  lemma SeparatedIsSequenced(cat: Catalog, tables: seq<Table>, delta: Delta, prodSeq: map<string, int>, floor: int)
    requires SequencesSeparated(cat, tables, delta, prodSeq, floor)
    ensures Sequenced(cat, delta, prodSeq, tables)
  {
    hide NewIds, TotalNew;
  }
}
