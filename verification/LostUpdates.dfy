/** Conflict detection over time: base writers and branch merges interleave, and updated_at stamps
    are all that a merge looks at. */
module LostUpdates {
  import opened Store
  import opened Cascade
  import opened Falls
  import opened TableSort
  import opened Renaming
  import opened Remap
  import opened BranchRuns
  import opened Validate
  import opened Replay
  import opened ReplayTurn
  import opened ReplayOutcome
  import opened MergedView
  import opened Merge

  /** What base looked like when a branch was created. */
  datatype Origin = Origin(createdAt: int, base: Image)

  datatype World = World(base: Image, now: int, open: map<int, Origin>)

  datatype Event =
    | Tick(now: int)
    | BaseWrite(base: Image)
    | CreateBranch(id: int)
    | MergeOf(id: int, delta: Delta, sub: Sub, base: Image)

  /** The rows of stamped tables that a write added or changed carry a later time than its commit. */
  ghost predicate Stamps(cat: Catalog, before: Image, after: Image, now: int) {
    forall r :: r in after && r.t in cat.stamped && (r !in before || after[r] != before[r]) ==>
      StampedAfter(r, after[r], now)
  }

  /** The test of DetectConflicts found nothing. */
  ghost predicate NoConflict(cat: Catalog, base: Image, delta: Delta, createdAt: int) {
    forall r: RowId :: r.t in cat.stamped ==> !IsConflict(base, delta, createdAt, r)
  }

  function Left(cat: Catalog, base: Image, delta: Delta): Image {
    After(cat.fks, base, delta, SetOf(cat.tables))
  }

  /** The merge leaves in base what the replay of the delta leaves, base's own ON DELETE actions
      included, under fresh ids. */
  ghost predicate Replays(cat: Catalog, before: Image, delta: Delta, sub: Sub, after: Image) {
    && BaseApart(sub, before, delta) && (forall r :: r in delta ==> r.t in cat.tables)
    && RenamedImage(sub, Left(cat, before, delta), after)
  }

  /** One event.  Writers to base stamp the rows they write; a merge replays its delta, with the
      stamps it has, when it found no conflict. */
  ghost predicate Next(cat: Catalog, w: World, e: Event, w': World) {
    match e
    case Tick(now) => w.now <= now && w' == w.(now := now)
    case BaseWrite(base) => Stamps(cat, w.base, base, w.now) && w' == w.(base := base)
    case CreateBranch(id) => id !in w.open && w' == w.(open := w.open[id := Origin(w.now, w.base)])
    case MergeOf(id, delta, sub, base) =>
      && id in w.open && NoConflict(cat, w.base, delta, w.open[id].createdAt)
      && Replays(cat, w.base, delta, sub, base)
      && w' == w.(base := base, open := w.open - {id})
  }

  ghost predicate History(cat: Catalog, worlds: seq<World>, events: seq<Event>) {
    && |worlds| == |events| + 1
    && forall i :: 0 <= i < |events| ==> Next(cat, worlds[i], events[i], worlds[i + 1])
  }

  /** The row is as the branch's origin had it. */
  predicate AsSeen(w: World, o: Origin, r: RowId)
    requires r in w.base
  {
    r in o.base && w.base[r] == o.base[r]
  }

  /** Of the given rows, the new base lacks or has changed only stamped ones that the branch started
      from. */
  ghost predicate OverwritesOnlySeen(cat: Catalog, w: World, o: Origin, base: Image, rows: set<RowId>) {
    forall r :: r in rows && r in w.base && r.t in cat.stamped && (r !in base || base[r] != w.base[r]) ==>
      AsSeen(w, o, r)
  }

  /** A merge of the code, with acyclic foreign keys, is such an event, whatever base has become under
      the branch. */
  lemma MergeIsAnEvent(cat: Catalog, branch: Branch, w: World, id: int, delta: Delta, overlay: set<Table>,
                       before: map<string, int>, after: map<string, int>, remaps: Remaps, base': Image, floor: int)
    requires id in w.open && w.open[id].createdAt == branch.createdAt && Acyclic(cat.tables, cat.fks)
    requires Mergeable(cat, branch, w.base, delta, overlay, before, floor)
    requires Checked(cat, branch, w.base, delta, overlay)
    requires MergedInto(cat, w.base, delta, before, after, remaps, base')
    ensures Next(cat, w, MergeOf(id, delta, FullSub(cat.fks, remaps), base'), w.(base := base', open := w.open - {id}))
  {
    hide Checked, MergeHypotheses, BaseApart, RemapsAll, RenamedImage, Upgraded, BaseOriginSafe, IsConflict, FullSub,
      View, Acyclic,
      NothingLost, After, Integrity, RowsShaped, CascadesAbsorbed, ShowsBranch, DistinctColumns;
    BaseIsApart(cat, w.base, delta, before, after, remaps, floor);
    CheckedHasNoConflict(cat, branch, w.base, delta, overlay, before, floor);
    HypothesesGive(cat, w.base, delta, before, after, remaps, floor);
    DeltaIsTracked(cat, w.base, delta);
  }

  lemma DeltaIsTracked(cat: Catalog, base: Image, delta: Delta)
    requires RowsShaped(cat, base, delta)
    ensures forall r :: r in delta ==> r.t in cat.tables
  {
  }

  lemma CheckedHasNoConflict(cat: Catalog, branch: Branch, base: Image, delta: Delta, overlay: set<Table>,
                             prodSeq: map<string, int>,
                             floor: int)
    requires NoDrift(cat, branch) && MergeHypotheses(cat, base, delta, prodSeq, floor)
    requires Checked(cat, branch, base, delta, overlay)
    ensures NoConflict(cat, base, delta, branch.createdAt)
  {
    assert RowsShaped(cat, base, delta);
    hide MergeHypotheses, NoViolators, Shaped, StampedAfter, Heeds, Poisons;
    forall r: RowId | r.t in cat.stamped ensures !IsConflict(base, delta, branch.createdAt, r) {
      if r in delta {
        HeedsIsMember(cat, branch.tables, r.t);
      }
    }
  }

  // ----- What a merge changes -----

  /** A merge leaves an untouched base row as it is exactly when base's own actions do. */
  lemma UntouchedIsLeftIff(cat: Catalog, before: Image, delta: Delta, sub: Sub, after: Image, r: RowId)
    requires Replays(cat, before, delta, sub, after)
    requires r in before && r !in delta && forall c :: c in before[r] ==> !KeyHas(r.k, c)
    ensures r in after && after[r] == before[r] <==> Keeps(cat.fks, before, delta, SetOf(cat.tables), r)
  {
    var left := Left(cat, before, delta);
    UntouchedKeptIff(cat.fks, before, delta, SetOf(cat.tables), r);
    hide After, Keeps, RenRow, RenCols, Injective, BaseApart, KeyHas;
    UntouchedStaysItself(cat, before, delta, sub, r);
    if r in after {
      var s :| s in left && RenRow(sub, s) == r;
      LeftIsKnown(cat, before, delta);
      ItselfOnly(sub, before, delta, r, s);
    }
  }

  lemma ItselfOnly(sub: Sub, before: Image, delta: Delta, r: RowId, s: RowId)
    requires BaseApart(sub, before, delta) && r in before && (s in before || s in delta) && RenRow(sub, s) == r
    ensures s == r
  {
    hide RenRow, RenCols;
  }

  lemma LeftIsKnown(cat: Catalog, base: Image, delta: Delta)
    ensures Left(cat, base, delta).Keys <= base.Keys + delta.Keys
  {
    hide Marks, AfterRow, Stays;
  }

  lemma UntouchedStaysItself(cat: Catalog, before: Image, delta: Delta, sub: Sub, r: RowId)
    requires BaseApart(sub, before, delta) && r in before && r !in delta
    ensures RenRow(sub, r) == r
    ensures r in Left(cat, before, delta) ==>
      RenCols(sub, r.t, Left(cat, before, delta)[r]) == Left(cat, before, delta)[r]
  {
    AfterIs(cat.fks, before, delta, SetOf(cat.tables));
    var taken := TakenBy(cat.fks, before, delta, SetOf(cat.tables));
    NullRefsStays(sub, cat.fks, r, before[r], taken);
    hide After, Marks, NullRefs, RenCols, RenRow, Deleted;
  }

  lemma NullRefsStays(sub: Sub, fks: seq<FK>, r: RowId, vals: Cols, gone: set<RowId>)
    requires RenCols(sub, r.t, vals) == vals
    ensures RenCols(sub, r.t, NullRefs(fks, r, vals, gone)) == NullRefs(fks, r, vals, gone)
  {
    forall c | c in vals ensures Apply(sub, r.t, c, vals[c]) == vals[c] {
      assert RenCols(sub, r.t, vals)[c] == vals[c];
    }
    hide NullsColumn;
  }

  /** The rows that the replay leaves are, under fresh ids, as base had them, or carry an updated_at
      above the time of the merge. */
  ghost predicate ReplayStamps(cat: Catalog, w: World, delta: Delta, sub: Sub) {
    var left := Left(cat, w.base, delta);
    forall s :: s in left && s.t in cat.stamped ==>
      var r, vals := RenRow(sub, s), RenCols(sub, s.t, left[s]);
      (r in w.base && w.base[r] == vals) || StampedAfter(r, vals, w.now)
  }

  /** When the merge shows its branch these are the live delta rows that differ from base. */
  lemma ReplayStampsIff(cat: Catalog, w: World, delta: Delta, sub: Sub)
    requires BaseApart(sub, w.base, delta) && Left(cat, w.base, delta) == View(w.base, delta)
    ensures ReplayStamps(cat, w, delta, sub) <==>
      forall s :: s in delta && !delta[s].deleted && s.t in cat.stamped ==>
        var r, vals := RenRow(sub, s), RenCols(sub, s.t, delta[s].vals);
        (r in w.base && w.base[r] == vals) || StampedAfter(r, vals, w.now)
  {
    hide Left, RenRow, RenCols, StampedAfter;
    if ReplayStamps(cat, w, delta, sub) {
      forall s | s in delta && !delta[s].deleted && s.t in cat.stamped
        ensures
          var r, vals := RenRow(sub, s), RenCols(sub, s.t, delta[s].vals);
          (r in w.base && w.base[r] == vals) || StampedAfter(r, vals, w.now)
      {
        assert s in View(w.base, delta) && View(w.base, delta)[s] == delta[s].vals;
      }
    }
  }

  lemma ReplayStampsMeansStamps(cat: Catalog, w: World, delta: Delta, sub: Sub, after: Image)
    requires Replays(cat, w.base, delta, sub, after) && ReplayStamps(cat, w, delta, sub)
    ensures Stamps(cat, w.base, after, w.now)
  {
    hide Left, RenRow, RenCols, StampedAfter, BaseApart, Injective;
    var left := Left(cat, w.base, delta);
    forall r | r in after && r.t in cat.stamped && (r !in w.base || after[r] != w.base[r])
      ensures StampedAfter(r, after[r], w.now)
    {
      var s :| s in left && RenRow(sub, s) == r;
      RenRowKeepsTable(sub, s);
    }
  }

  // ----- What every event keeps -----

  /** A row that looks older than a branch is as the branch's origin had it. */
  ghost predicate Truthful(cat: Catalog, base: Image, o: Origin) {
    forall r :: r in base && r.t in cat.stamped && !StampedAfter(r, base[r], o.createdAt) ==>
      r in o.base && base[r] == o.base[r]
  }

  ghost predicate WorldOk(cat: Catalog, w: World) {
    forall id :: id in w.open ==> w.open[id].createdAt <= w.now && Truthful(cat, w.base, w.open[id])
  }

  lemma StampedWriteStaysOk(cat: Catalog, w: World, base: Image)
    requires WorldOk(cat, w) && Stamps(cat, w.base, base, w.now)
    ensures WorldOk(cat, w.(base := base))
  {
  }

  lemma NextKeepsWorldOk(cat: Catalog, w: World, e: Event, w': World)
    requires WorldOk(cat, w) && Next(cat, w, e, w')
    requires e.MergeOf? ==> ReplayStamps(cat, w, e.delta, e.sub)
    ensures WorldOk(cat, w')
  {
    hide Replays, ReplayStamps;
    match e {
      case BaseWrite(base) => StampedWriteStaysOk(cat, w, base);
      case MergeOf(_, delta, sub, base) =>
        ReplayStampsMeansStamps(cat, w, delta, sub, base);
        StampedWriteStaysOk(cat, w, base);
      case _ =>
    }
  }

  lemma {:induction false} HistoryIsOk(cat: Catalog, worlds: seq<World>, events: seq<Event>, n: nat)
    requires History(cat, worlds, events) && n <= |events| && worlds[0].open == map[]
    requires forall i :: 0 <= i < n && events[i].MergeOf? ==>
      ReplayStamps(cat, worlds[i], events[i].delta, events[i].sub)
    ensures WorldOk(cat, worlds[n])
  {
    hide Next, ReplayStamps;
    if n > 0 {
      HistoryIsOk(cat, worlds, events, n - 1);
      NextKeepsWorldOk(cat, worlds[n - 1], events[n - 1], worlds[n]);
    } else {
      NoBranchIsOk(cat, worlds[0]);
    }
  }

  lemma NoBranchIsOk(cat: Catalog, w: World)
    requires w.open == map[]
    ensures WorldOk(cat, w)
  {
  }

  // ----- Conflicts are no false alarms -----

  /** No row of a stamped table carries a time to come; it may carry none. */
  ghost predicate StampsPast(cat: Catalog, base: Image, now: int) {
    forall r :: r in base && r.t in cat.stamped && Val(r, base[r], "updated_at").Int? ==>
      Val(r, base[r], "updated_at").n <= now
  }

  /** So it was whenever one of the branches was created. */
  ghost predicate CreatedOnPast(cat: Catalog, worlds: seq<World>, events: seq<Event>, n: nat)
    requires n <= |events| <= |worlds|
  {
    forall i :: 0 <= i < n && events[i].CreateBranch? ==> StampsPast(cat, worlds[i].base, worlds[i].now)
  }

  lemma {:induction false} OriginsArePast(cat: Catalog, worlds: seq<World>, events: seq<Event>, n: nat)
    requires History(cat, worlds, events) && n <= |events| && worlds[0].open == map[]
    requires CreatedOnPast(cat, worlds, events, n)
    ensures forall id :: id in worlds[n].open ==>
      StampsPast(cat, worlds[n].open[id].base, worlds[n].open[id].createdAt)
  {
    hide StampsPast, Stamps, NoConflict, Replays;
    if n > 0 {
      OriginsArePast(cat, worlds, events, n - 1);
      assert Next(cat, worlds[n - 1], events[n - 1], worlds[n]);
    }
  }

  lemma ConflictIff(cat: Catalog, w: World, o: Origin, delta: Delta, r: RowId)
    requires Truthful(cat, w.base, o) && StampsPast(cat, o.base, o.createdAt)
    requires r in delta && r in w.base && r.t in cat.stamped
    ensures IsConflict(w.base, delta, o.createdAt, r) <==> !AsSeen(w, o, r)
  {
  }

  /** In every interleaving in which writers and merges stamp what they write, a row that the branch
      touched is in conflict exactly when base has gained or changed it since the branch was created; a
      row that base left alone never is, not even one that carries no time at all. */
  lemma ConflictsAreExact(cat: Catalog, worlds: seq<World>, events: seq<Event>, k: nat, id: int, delta: Delta)
    requires History(cat, worlds, events) && worlds[0].open == map[]
    requires k <= |events| && id in worlds[k].open && CreatedOnPast(cat, worlds, events, k)
    requires forall i :: 0 <= i < k && events[i].MergeOf? ==>
      ReplayStamps(cat, worlds[i], events[i].delta, events[i].sub)
    ensures
      var w, o := worlds[k], worlds[k].open[id];
      && (forall r :: r in delta && r in w.base && r.t in cat.stamped ==>
          (IsConflict(w.base, delta, o.createdAt, r) <==> !AsSeen(w, o, r)))
      && (NoConflict(cat, w.base, delta, o.createdAt) <==>
          forall r :: r in delta && r in w.base && r.t in cat.stamped ==> AsSeen(w, o, r))
  {
    var w, o := worlds[k], worlds[k].open[id];
    HistoryIsOk(cat, worlds, events, k);
    OriginsArePast(cat, worlds, events, k);
    hide History, CreatedOnPast, ReplayStamps, StampsPast, Truthful, AsSeen, StampedAfter;
    forall r | r in delta && r in w.base && r.t in cat.stamped
      ensures IsConflict(w.base, delta, o.createdAt, r) <==> !AsSeen(w, o, r)
    {
      ConflictIff(cat, w, o, delta, r);
    }
  }

  // ----- What a merge overwrites -----

  /** Every stamped row that base gained or changed under the branch, and that the branch did not touch,
      is left alone by base's own ON DELETE actions. */
  ghost predicate UnseenIsKept(cat: Catalog, w: World, o: Origin, delta: Delta) {
    forall r :: r in w.base && r !in delta && r.t in cat.stamped && !AsSeen(w, o, r) ==>
      Keeps(cat.fks, w.base, delta, SetOf(cat.tables), r)
  }

  ghost predicate NoRepeats(base: Image) {
    forall r, c :: r in base && c in base[r] ==> !KeyHas(r.k, c)
  }

  lemma TouchedIsSeen(cat: Catalog, w: World, id: int, delta: Delta, r: RowId)
    requires id in w.open && Truthful(cat, w.base, w.open[id]) && NoConflict(cat, w.base, delta, w.open[id].createdAt)
    requires r in delta && r in w.base && r.t in cat.stamped
    ensures AsSeen(w, w.open[id], r)
  {
    assert !IsConflict(w.base, delta, w.open[id].createdAt, r);
    hide StampedAfter;
  }

  /** A conflict-free merge overwrites only what its branch saw of the rows it writes; and of all rows
      exactly when base's own actions leave the unseen ones alone. */
  lemma ConflictFreeMergeOverwritesOnlySeen(cat: Catalog, w: World, id: int, delta: Delta, sub: Sub, base: Image)
    requires id in w.open && Truthful(cat, w.base, w.open[id])
    requires NoConflict(cat, w.base, delta, w.open[id].createdAt) && Replays(cat, w.base, delta, sub, base)
    ensures OverwritesOnlySeen(cat, w, w.open[id], base, delta.Keys)
    ensures NoRepeats(w.base) ==>
      (OverwritesOnlySeen(cat, w, w.open[id], base, w.base.Keys) <==> UnseenIsKept(cat, w, w.open[id], delta))
  {
    hide Replays, NoConflict, Truthful, Keeps, KeyHas;
    forall r | r in delta && r in w.base && r.t in cat.stamped ensures AsSeen(w, w.open[id], r) {
      TouchedIsSeen(cat, w, id, delta, r);
    }
    if NoRepeats(w.base) {
      forall r | r in w.base && r !in delta
        ensures r in base && base[r] == w.base[r] <==> Keeps(cat.fks, w.base, delta, SetOf(cat.tables), r)
      {
        UntouchedIsLeftIff(cat, w.base, delta, sub, base, r);
      }
    }
  }

  /** No lost updates: in every interleaving in which the merges before it stamped what they wrote, a
      merge overwrites and deletes only what its branch saw; and base's own ON DELETE actions take or
      change nothing unseen exactly when they leave the unseen rows alone. */
  lemma MergeOverwritesOnlyWhatItSaw(cat: Catalog, worlds: seq<World>, events: seq<Event>, k: nat)
    requires History(cat, worlds, events) && worlds[0].open == map[]
    requires k < |events| && events[k].MergeOf?
    requires forall i :: 0 <= i < k && events[i].MergeOf? ==>
      ReplayStamps(cat, worlds[i], events[i].delta, events[i].sub)
    ensures events[k].id in worlds[k].open
    ensures OverwritesOnlySeen(cat, worlds[k], worlds[k].open[events[k].id], worlds[k + 1].base, events[k].delta.Keys)
    ensures
      var w, o, after := worlds[k], worlds[k].open[events[k].id], worlds[k + 1].base;
      NoRepeats(w.base) ==>
        (OverwritesOnlySeen(cat, w, o, after, w.base.Keys) <==> UnseenIsKept(cat, w, o, events[k].delta))
  {
    hide ReplayStamps, Replays, UnseenIsKept, OverwritesOnlySeen, NoRepeats, Truthful;
    HistoryIsOk(cat, worlds, events, k);
    assert Next(cat, worlds[k], events[k], worlds[k + 1]);
    ConflictFreeMergeOverwritesOnlySeen(cat, worlds[k], events[k].id, events[k].delta, events[k].sub, events[k].base);
  }

  /** A row of the origin that base has lost since is in base again after the merge exactly when it is a
      live delta row and does not fall in the turn of its table: no conflict is found for it. */
  lemma RevivedIff(cat: Catalog, w: World, delta: Delta, sub: Sub, after: Image, r: RowId)
    requires Replays(cat, w.base, delta, sub, after) && r !in w.base
    ensures r in after <==>
      exists s :: s in delta && !delta[s].deleted && RenRow(sub, s) == r
        && InTurn(s) !in Marks(cat.fks, w.base, delta, SetOf(cat.tables))
  {
    var left := Left(cat, w.base, delta);
    AfterIs(cat.fks, w.base, delta, SetOf(cat.tables));
    LeftIsKnown(cat, w.base, delta);
    hide After, Marks, AfterRow, RenRow, RenCols, Injective;
    if r in after {
      var s :| s in left && RenRow(sub, s) == r;
      assert s in delta;
    }
    var m := Marks(cat.fks, w.base, delta, SetOf(cat.tables));
    if s :| s in delta && !delta[s].deleted && RenRow(sub, s) == r && InTurn(s) !in m {
      assert s.t in cat.tables && s in left;
    }
  }

  // ----- When a replay is safe for the other branches -----

  /** Every merge that finds no conflict overwrites, of the rows it writes, only what its branch started
      from. */
  ghost predicate NoMergeLosesUpdate(cat: Catalog, w: World) {
    forall id, delta, sub, base ::
      Next(cat, w, MergeOf(id, delta, sub, base), w.(base := base, open := w.open - {id})) ==>
        OverwritesOnlySeen(cat, w, w.open[id], base, delta.Keys)
  }

  lemma DeletingOneRow(cat: Catalog, base: Image, r: RowId)
    requires r in base && r.t in cat.tables
    ensures
      var d: Delta := map[r := Entry(map[], true, false)];
      Replays(cat, base, d, map[], Left(cat, base, d)) && r !in Left(cat, base, d)
  {
    var d: Delta := map[r := Entry(map[], true, false)];
    AfterIs(cat.fks, base, d, SetOf(cat.tables));
    NothingRenamed(cat, base, d);
    hide After, Marks, Replays;
  }

  lemma NoRenaming()
    ensures forall x: RowId :: RenRow(map[], x) == x
    ensures forall t, cols :: RenCols(map[], t, cols) == cols
  {
    forall t, cols ensures RenCols(map[], t, cols) == cols {
    }
    forall x: RowId ensures RenRow(map[], x) == x {
      assert x.k.Composite? ==> RenCols(map[], x.t, x.k.cols) == x.k.cols;
    }
  }

  lemma NothingRenamed(cat: Catalog, before: Image, delta: Delta)
    requires forall r :: r in delta ==> r.t in cat.tables
    ensures Replays(cat, before, delta, map[], Left(cat, before, delta))
  {
    hide Left, RenRow, RenCols;
    NoRenaming();
  }

  /** The code's replay copies updated_at from the delta.  Consider the branches open at a merge and one
      created at the same instant before it.  After the merge none of them, finding no conflict,
      overwrites or deletes a change it did not see, exactly when the rows that the replay wrote carry
      stamps above the time of the merge. */
  lemma ReplayIsSafeIff(cat: Catalog, w: World, id: int, delta: Delta, sub: Sub, base: Image, last: int)
    requires WorldOk(cat, w) && id in w.open && last !in w.open && (forall t :: t in cat.stamped ==> t in cat.tables)
    requires Replays(cat, w.base, delta, sub, base)
    ensures ReplayStamps(cat, w, delta, sub)
      <==> NoMergeLosesUpdate(cat, World(base, w.now, w.open[last := Origin(w.now, w.base)] - {id}))
  {
    hide *;
    if ReplayStamps(cat, w, delta, sub) {
      StampedReplayIsSafe(cat, w, id, delta, sub, base, last);
    } else {
      UnstampedReplayIsUnsafe(cat, w, id, delta, sub, base, last);
    }
  }

  lemma StampedReplayIsSafe(cat: Catalog, w: World, id: int, delta: Delta, sub: Sub, base: Image, last: int)
    requires WorldOk(cat, w) && last !in w.open && Replays(cat, w.base, delta, sub, base)
    requires ReplayStamps(cat, w, delta, sub)
    ensures NoMergeLosesUpdate(cat, World(base, w.now, w.open[last := Origin(w.now, w.base)] - {id}))
  {
    var w' := World(base, w.now, w.open[last := Origin(w.now, w.base)] - {id});
    hide Replays, ReplayStamps, Stamps, NoConflict, OverwritesOnlySeen, UnseenIsKept, Truthful, NoRepeats;
    ReplayStampsMeansStamps(cat, w, delta, sub, base);
    StampsKeepOk(cat, w, base, last);
    forall id', d, s, b | Next(cat, w', MergeOf(id', d, s, b), w'.(base := b, open := w'.open - {id'}))
      ensures OverwritesOnlySeen(cat, w', w'.open[id'], b, d.Keys)
    {
      ConflictFreeMergeOverwritesOnlySeen(cat, w', id', d, s, b);
    }
  }

  lemma UnstampedReplayIsUnsafe(cat: Catalog, w: World, id: int, delta: Delta, sub: Sub, base: Image, last: int)
    requires id in w.open && last !in w.open && (forall t :: t in cat.stamped ==> t in cat.tables)
    requires Replays(cat, w.base, delta, sub, base) && !ReplayStamps(cat, w, delta, sub)
    ensures !NoMergeLosesUpdate(cat, World(base, w.now, w.open[last := Origin(w.now, w.base)] - {id}))
  {
    var w' := World(base, w.now, w.open[last := Origin(w.now, w.base)] - {id});
    hide Left, Replays, NoMergeLosesUpdate, RenRow, RenCols, StampedAfter;
    var s :| s in Left(cat, w.base, delta) && s.t in cat.stamped
      && var r, vals := RenRow(sub, s), RenCols(sub, s.t, Left(cat, w.base, delta)[s]);
         !((r in w.base && w.base[r] == vals) || StampedAfter(r, vals, w.now));
    UnstampedRowIsUnprotected(cat, w, delta, sub, base, last, w', s);
  }

  lemma StampsKeepOk(cat: Catalog, w: World, base: Image, last: int)
    requires WorldOk(cat, w) && Stamps(cat, w.base, base, w.now)
    ensures WorldOk(cat, World(base, w.now, w.open[last := Origin(w.now, w.base)]))
  {
  }

  lemma UnstampedRowIsUnprotected(cat: Catalog, w: World, delta: Delta, sub: Sub, base: Image, last: int, w': World,
                                  s: RowId)
    requires Replays(cat, w.base, delta, sub, base)
    requires w'.base == base && last in w'.open && w'.open[last] == Origin(w.now, w.base)
    requires s in Left(cat, w.base, delta) && s.t in cat.stamped && s.t in cat.tables
    requires
      var r, vals := RenRow(sub, s), RenCols(sub, s.t, Left(cat, w.base, delta)[s]);
      !((r in w.base && w.base[r] == vals) || StampedAfter(r, vals, w.now))
    ensures !NoMergeLosesUpdate(cat, w')
  {
    var r := RenRow(sub, s);
    RenRowKeepsTable(sub, s);
    hide Left, RenRow, RenCols, Next, StampedAfter, OverwritesOnlySeen, Injective, BaseApart;
    assert r in base && base[r] == RenCols(sub, s.t, Left(cat, w.base, delta)[s]);
    DeletingUnstampedRow(cat, w', last, r);
  }

  /** A row without a later stamp can be deleted by a merge that finds no conflict. */
  lemma DeletingUnstampedRow(cat: Catalog, w: World, id: int, r: RowId)
    requires id in w.open && r in w.base && r.t in cat.stamped && r.t in cat.tables
    requires !StampedAfter(r, w.base[r], w.open[id].createdAt) && !AsSeen(w, w.open[id], r)
    ensures !NoMergeLosesUpdate(cat, w)
  {
    hide Replays, Left, StampedAfter;
    DeletingOneRow(cat, w.base, r);
    var d: Delta := map[r := Entry(map[], true, false)];
    var left := Left(cat, w.base, d);
    assert NoConflict(cat, w.base, d, w.open[id].createdAt);
    assert Next(cat, w, MergeOf(id, d, map[], left), w.(base := left, open := w.open - {id}));
    assert !OverwritesOnlySeen(cat, w, w.open[id], left, d.Keys);
  }
}
