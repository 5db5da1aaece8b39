/** The merge of a branch: one transaction that validates, renames, replays and retires it. */
module Merge {
  import opened Store
  import opened Cascade
  import opened Renaming
  import opened Remap
  import opened References
  import opened BranchRuns
  import opened Validate
  import opened TableSort
  import opened Replay
  import opened ReplayTurn
  import opened ReplayOutcome
  import opened MergedView
  import opened RenamedReplay

  datatype MergeError =
    | BranchNotFound
    | AlreadyMerged
    | LockHeld
    | RelationMissing
    | FKViolations
    | Conflicts
    | TransactionAborted
    | RemapFailed
    | FixFailed
    | ReplayFailed

  datatype Outcome = Merged | DryRun | Error(error: MergeError)

  /** The renaming gives no two delta rows one key.  It is known before the merge. */
  ghost predicate KeysApart(cat: Catalog, delta: Delta, prodSeq: map<string, int>) {
    Injective(FullSub(cat.fks, Predict(cat, delta, prodSeq, cat.tables)), delta.Keys)
  }

  /** What the replay makes of base, before any renaming, unless base refuses it. */
  function Replayed(cat: Catalog, base: Image, delta: Delta): Option<Image> {
    ReplayedAll(cat.fks, base, delta, DepthFirst(cat.tables, cat.fks))
  }

  /** The renaming finds no key in its way, nothing rejects a row, and base accepts the replay. */
  ghost predicate Welcome(cat: Catalog, base: Image, delta: Delta, prodSeq: map<string, int>, rejects: set<Table>) {
    KeysApart(cat, delta, prodSeq) && rejects !! SetOf(cat.tables) && Replayed(cat, base, delta).Some?
  }

  /** The remaps are those expected, and base shows the branch's former view with the fresh ids. */
  ghost predicate ShowsBranch(cat: Catalog, base: Image, delta: Delta, before: map<string, int>,
                              after: map<string, int>, remaps: Remaps, base': Image) {
    && RemapsAll(cat, delta, before, after, remaps)
    && RenamedImage(FullSub(cat.fks, remaps), View(base, delta), base')
  }

  /** What a merge makes of base: the replayed base under the fresh ids.  Base keeps its integrity, and
      shows the branch exactly when the replay gives the branch's view; otherwise it has that view but
      for rows that are missing and values that became NULL.  With acyclic foreign keys the replay gives
      its closed form, and the view exactly when base's own ON DELETE actions take nothing that the
      branch did not touch.  With any foreign keys it gives a view without dangling rows when every
      cascade stays among the rows deleted. */
  ghost predicate MergedInto(cat: Catalog, base: Image, delta: Delta, before: map<string, int>, after: map<string, int>,
                             remaps: Remaps, base': Image) {
    && RemapsAll(cat, delta, before, after, remaps) && Integrity(cat.fks, base')
    && Replayed(cat, base, delta).Some?
    && var left := Replayed(cat, base, delta).value;
       && RenamedImage(FullSub(cat.fks, remaps), left, base')
       && OnlyLoses(View(base, delta), left)
       && (ShowsBranch(cat, base, delta, before, after, remaps, base') <==> left == View(base, delta))
       && (Acyclic(cat.tables, cat.fks) ==>
           && left == After(cat.fks, base, delta, SetOf(cat.tables))
           && (left == View(base, delta) <==> NothingLost(cat.fks, base, delta, SetOf(cat.tables))))
       && (BaseOriginSafe(cat.fks, base, delta) && CascadesAbsorbed(cat.fks, base, delta) ==>
           left == View(base, delta))
  }

  /** The two checks find nothing: no live delta row that dangles in the views as they are, and no
      delta row of a table with updated_at that base has changed since the branch was created. */
  ghost predicate NothingFound(cat: Catalog, branch: Branch, base: Image, delta: Delta, overlay: set<Table>) {
    && NoViolators(branch.fks, delta, Shown(base, delta, overlay))
    && (forall r: RowId :: r.t in cat.stamped && Heeds(cat, branch.tables, r.t) ==>
        !IsConflict(base, delta, branch.createdAt, r))
  }

  /** The branch passes the checks, and no query of theirs aborts the transaction. */
  ghost predicate Checked(cat: Catalog, branch: Branch, base: Image, delta: Delta, overlay: set<Table>) {
    NothingFound(cat, branch, base, delta, overlay) && forall t :: t in branch.tables ==> !Poisons(cat, t)
  }

  /** The tables and foreign keys are those recorded when the branch was created. */
  ghost predicate NoDrift(cat: Catalog, branch: Branch) {
    branch.tables == cat.tables && branch.fks == cat.fks
  }

  /** The hypotheses under which it is known what a merge does: no drift, upgraded views, and those on
      catalog, sequences and base. */
  ghost predicate Mergeable(cat: Catalog, branch: Branch, base: Image, delta: Delta, overlay: set<Table>,
                            prodSeq: map<string, int>, floor: int) {
    NoDrift(cat, branch) && Upgraded(delta, overlay) && MergeHypotheses(cat, base, delta, prodSeq, floor)
  }

  /** Which failure is reported: violated foreign keys before conflicts, and conflicts before a
      transaction that a query of theirs has aborted, which a dry run does not notice. */
  ghost predicate Reports(cat: Catalog, branch: Branch, base: Image, delta: Delta, overlay: set<Table>, dryRun: bool,
                          error: Option<MergeError>) {
    && (error == Some(FKViolations) <==> !NoViolators(branch.fks, delta, Shown(base, delta, overlay)))
    && (error == Some(Conflicts) <==>
        && NoViolators(branch.fks, delta, Shown(base, delta, overlay))
        && !NothingFound(cat, branch, base, delta, overlay))
    && (error == Some(TransactionAborted) <==>
        && !dryRun && NothingFound(cat, branch, base, delta, overlay)
        && exists t :: t in branch.tables && t in cat.stamped && t !in cat.idTables)
    && (dryRun ==> (error == None <==> NothingFound(cat, branch, base, delta, overlay)))
  }

  /** When a merge that is not a dry run succeeds, and which of its later steps fails. */
  ghost predicate Decides(cat: Catalog, branch: Branch, base: Image, delta: Delta, overlay: set<Table>,
                          prodSeq: map<string, int>, rejects: set<Table>, error: Option<MergeError>) {
    && (error == None <==> Checked(cat, branch, base, delta, overlay) && Welcome(cat, base, delta, prodSeq, rejects))
    && (error == Some(FixFailed) <==>
        Checked(cat, branch, base, delta, overlay) && !KeysApart(cat, delta, prodSeq))
    && error != Some(RemapFailed)
  }

  // ----- The proof of the pipeline, step by step -----

  lemma AfterRemap(cat: Catalog, base: Image, d0: Delta, d1: Delta, before: map<string, int>, after: map<string, int>,
                   remaps: Remaps, floor: int)
    requires MergeHypotheses(cat, base, d0, before, floor) && RemapsAll(cat, d0, before, after, remaps)
    requires Renamed(IdSub(remaps), d0, d1)
    ensures NoChains(remaps) && DistinctColumns(cat.fks)
    ensures Injective(FkSub(cat.fks, remaps), d1.Keys) <==> KeysApart(cat, d0, before)
  {
    RemapsHaveNoChains(cat, base, d0, before, after, remaps, floor);
    HypothesesGive(cat, base, d0, before, after, remaps, floor);
    IdsThenReferences(cat.fks, remaps);
    InjectiveComposes(IdSub(remaps), FkSub(cat.fks, remaps), FullSub(cat.fks, remaps), d0, d1);
    assert remaps == Predict(cat, d0, before, cat.tables);
    hide MergeHypotheses, RemapsAll, Predict, Injective, Renamed, Composes, IdSub, FkSub, FullSub;
  }

  /** What the renaming of the delta is to the replay. */
  lemma AfterFix(cat: Catalog, base: Image, d0: Delta, d1: Delta, d2: Delta, before: map<string, int>,
                 after: map<string, int>, remaps: Remaps, floor: int)
    requires MergeHypotheses(cat, base, d0, before, floor) && RemapsAll(cat, d0, before, after, remaps)
    requires Renamed(IdSub(remaps), d0, d1) && Renamed(FkSub(cat.fks, remaps), d1, d2)
    requires NoneDangle(cat.fks, base, d0)
    ensures Renames(cat.fks, remaps, base, d0, d2)
  {
    hide MergeHypotheses, RemapsAll, FullSub, IdSub, FkSub, Integrity, NoneDangle, BaseApart, Renamed, RowsShaped,
      Composes, DistinctColumns;
    HypothesesGive(cat, base, d0, before, after, remaps, floor);
    IdsThenReferences(cat.fks, remaps);
    RenamedComposes(IdSub(remaps), FkSub(cat.fks, remaps), FullSub(cat.fks, remaps), d0, d1, d2);
    BaseIsApart(cat, base, d0, before, after, remaps, floor);
  }

  lemma NoneDangleMeansIntegrity(fks: seq<FK>, base: Image, delta: Delta)
    requires NoneDangle(fks, base, delta) && BaseOriginSafe(fks, base, delta)
    ensures Integrity(fks, View(base, delta))
  {
    assert NoViolators(fks, delta, View(base, delta)) by {
      hide View, Dangles;
    }
    ValidatedMeansIntegrity(fks, base, delta);
  }

  lemma HypothesesAreValid(cat: Catalog, base: Image, delta: Delta, prodSeq: map<string, int>, floor: int)
    requires MergeHypotheses(cat, base, delta, prodSeq, floor) && NoneDangle(cat.fks, base, delta)
    ensures Valid(cat.fks, base, delta) && cat.WellFormed() && forall fk :: fk in cat.fks ==> fk.rule != SetDefault
    ensures forall r :: r in delta ==> r.t in cat.tables
  {
    hide Integrity, SequencesSeparated, BaseIdsBelow, NoneDangle;
    forall x, c | x in base && c in base[x] ensures !KeyHas(x.k, c) {
      assert Shaped(cat, x, base[x]);
    }
  }

  lemma DepthFirstIsInOrder(cat: Catalog, base: Image, delta: Delta, order: seq<Table>)
    requires cat.WellFormed() && Valid(cat.fks, base, delta)
    requires SetOf(order) == SetOf(cat.tables) && ParentsFirst(cat.tables, cat.fks, order)
    ensures InOrder(cat.fks, base, delta, order)
  {
    hide Valid;
    forall fk | fk in cat.fks ensures fk.src in order && fk.ref in order {
      assert fk.src in SetOf(cat.tables) && fk.ref in SetOf(cat.tables);
    }
    assert ParentsFirst(order, cat.fks, order);
  }

  /** What the replay of a checked branch is known to give.  With acyclic foreign keys base accepts it, and
      gives the closed form, exactly as what falls to base's own ON DELETE actions says, and that is the
      branch's view exactly when nothing untouched is lost to them.  With any foreign keys it is a view
      without dangling rows when every cascade stays among the rows deleted. */
  lemma WhatReplayGives(cat: Catalog, base: Image, delta: Delta, prodSeq: map<string, int>, floor: int)
    requires MergeHypotheses(cat, base, delta, prodSeq, floor) && NoneDangle(cat.fks, base, delta)
    ensures Acyclic(cat.tables, cat.fks) ==>
      && (Replayed(cat, base, delta).Some? <==>
          Accepted(cat.fks, base, delta, DepthFirst(cat.tables, cat.fks)))
      && (Replayed(cat, base, delta).Some? ==>
          Replayed(cat, base, delta).value == After(cat.fks, base, delta, SetOf(cat.tables)))
      && (After(cat.fks, base, delta, SetOf(cat.tables)) == View(base, delta)
          <==> NothingLost(cat.fks, base, delta, SetOf(cat.tables)))
    ensures BaseOriginSafe(cat.fks, base, delta) && CascadesAbsorbed(cat.fks, base, delta) ==>
      Replayed(cat, base, delta) in {None, Some(View(base, delta))}
  {
    var order := DepthFirst(cat.tables, cat.fks);
    HypothesesAreValid(cat, base, delta, prodSeq, floor);
    DepthFirstIsASort(cat.tables, cat.fks);
    SameTables(order, cat.tables);
    hide MergeHypotheses, Acyclic, View, After, BaseOriginSafe, CascadesAbsorbed, NoneDangle, ReplayedAll, Accepted,
      NothingLost, Valid, DepthFirst, ParentsFirst, InOrder, ReplayFaithful, Catalog.WellFormed;
    if Acyclic(cat.tables, cat.fks) {
      DepthFirstIsInOrder(cat, base, delta, order);
      ReplayedInOrder(cat.fks, base, delta, order);
      ShowsViewIff(cat.fks, base, delta, SetOf(cat.tables));
    }
    if BaseOriginSafe(cat.fks, base, delta) && CascadesAbsorbed(cat.fks, base, delta) {
      NoneDangleMeansIntegrity(cat.fks, base, delta);
      FaithfulIs(cat.fks, base, delta);
      ReplayedFaithfully(cat.fks, base, delta, order);
    }
  }

  lemma WornRenamed(sub: Sub, t: Table, a: Cols, b: Cols)
    requires Worn(a, b) && RenCols(sub, t, a) == RenCols(sub, t, b)
    ensures a == b
  {
    forall c | c in a ensures a[c] == b[c] {
      assert RenCols(sub, t, a)[c] == RenCols(sub, t, b)[c];
    }
  }

  /** The renaming hides no loss. */
  lemma LossIsSeen(sub: Sub, view: Image, left: Image, base': Image)
    requires OnlyLoses(view, left) && RenamedImage(sub, view, base') && RenamedImage(sub, left, base')
    ensures left == view
  {
    hide RenRow, RenCols, Worn;
    forall r | r in view ensures r in left && left[r] == view[r] {
      assert RenRow(sub, r) in base';
      var s :| s in left && RenRow(sub, s) == RenRow(sub, r);
      assert s == r;
      WornRenamed(sub, r.t, view[r], left[r]);
    }
  }

  /** The replay of the renamed delta gives the renamed result of the replay of the delta. */
  lemma ReplayOfRenamed(cat: Catalog, base: Image, d0: Delta, d2: Delta, remaps: Remaps, base': Image)
    requires Renames(cat.fks, remaps, base, d0, d2) && Replayed(cat, base, d2) == Some(base')
    requires forall r :: r in d0 ==> r.t in cat.tables
    requires forall fk :: fk in cat.fks ==> fk.rule != SetDefault
    ensures Integrity(cat.fks, base') && Replayed(cat, base, d0).Some?
    ensures RenamedImage(FullSub(cat.fks, remaps), Replayed(cat, base, d0).value, base')
    ensures OnlyLoses(View(base, d0), Replayed(cat, base, d0).value)
  {
    var order := DepthFirst(cat.tables, cat.fks);
    DepthFirstIsASort(cat.tables, cat.fks);
    SameTables(order, cat.tables);
    assert Integrity(cat.fks, base);
    hide Renames, FullSub, RenamedImage, View, Integrity, ReplayedAll, DepthFirst, Known, OnlyLoses, Sane, ParentsFirst,
      Acyclic, NoDuplicates;
    ReplayedKeepsIntegrity(cat.fks, base, d2, order);
    RenamedReplayAll(cat.fks, remaps, base, d0, d2, order);
    ReplayedOnlyLoses(cat.fks, base, d0, order);
  }

  /** The last step: what the replay made of base, said of the branch's delta before the renaming. */
  lemma AfterReplay(cat: Catalog, base: Image, d0: Delta, d2: Delta, before: map<string, int>, after: map<string, int>,
                    remaps: Remaps, base': Image, floor: int)
    requires MergeHypotheses(cat, base, d0, before, floor) && NoneDangle(cat.fks, base, d0)
    requires RemapsAll(cat, d0, before, after, remaps) && Renames(cat.fks, remaps, base, d0, d2)
    requires Replayed(cat, base, d2) == Some(base')
    ensures MergedInto(cat, base, d0, before, after, remaps, base')
  {
    hide *;
    HypothesesAreValid(cat, base, d0, before, floor);
    ReplayOfRenamed(cat, base, d0, d2, remaps, base');
    var sub, left := FullSub(cat.fks, remaps), Replayed(cat, base, d0).value;
    WhatReplayGives(cat, base, d0, before, floor);
    if RenamedImage(sub, View(base, d0), base') {
      LossIsSeen(sub, View(base, d0), left, base');
    }
    MergedIntoIs(cat, base, d0, before, after, remaps, base');
  }

  lemma MergedIntoIs(cat: Catalog, base: Image, delta: Delta, before: map<string, int>, after: map<string, int>,
                     remaps: Remaps, base': Image)
    requires RemapsAll(cat, delta, before, after, remaps) && Integrity(cat.fks, base')
    requires Replayed(cat, base, delta).Some?
    requires RenamedImage(FullSub(cat.fks, remaps), Replayed(cat, base, delta).value, base')
    requires OnlyLoses(View(base, delta), Replayed(cat, base, delta).value)
    requires RenamedImage(FullSub(cat.fks, remaps), View(base, delta), base') ==>
      Replayed(cat, base, delta).value == View(base, delta)
    requires Acyclic(cat.tables, cat.fks) ==>
      && Replayed(cat, base, delta).value == After(cat.fks, base, delta, SetOf(cat.tables))
      && (After(cat.fks, base, delta, SetOf(cat.tables)) == View(base, delta)
          <==> NothingLost(cat.fks, base, delta, SetOf(cat.tables)))
    requires BaseOriginSafe(cat.fks, base, delta) && CascadesAbsorbed(cat.fks, base, delta) ==>
      Replayed(cat, base, delta).value == View(base, delta)
    ensures MergedInto(cat, base, delta, before, after, remaps, base')
  {
    hide RemapsAll, Integrity, Replayed, RenamedImage, FullSub, OnlyLoses, View, After, NothingLost, Acyclic,
      BaseOriginSafe, CascadesAbsorbed;
  }

  // ----- The pipeline -----

  /** Steps 5 to 8: allocate ids, fix references, sort, replay. */
  method RenameAndReplay(db: Database, bs: BranchSchema, tables: seq<Table>, fks: seq<FK>, rejects: set<Table>,
                         ghost floor: int)
    returns (remaps: Remaps, error: Option<MergeError>)
    requires NoDuplicates(tables)
    modifies db`prodSeq, db`base, bs`delta
    ensures error in {None, Some(RemapFailed), Some(FixFailed), Some(ReplayFailed)}
    ensures SequencesAdvance(old(db.prodSeq), db.prodSeq, TotalNew(db.cat, old(bs.delta), tables))
    ensures error != Some(RemapFailed) ==>
      db.prodSeq == AfterDrawing(db.cat, old(bs.delta), old(db.prodSeq), tables)
    ensures
      tables == db.cat.tables && fks == db.cat.fks
      && MergeHypotheses(db.cat, old(db.base), old(bs.delta), old(db.prodSeq), floor)
      && NoViolators(fks, old(bs.delta), View(old(db.base), old(bs.delta)))
      ==>
      && (error == None ==>
          MergedInto(db.cat, old(db.base), old(bs.delta), old(db.prodSeq), db.prodSeq, remaps, db.base))
      && (error == None <==> Welcome(db.cat, old(db.base), old(bs.delta), old(db.prodSeq), rejects))
      && (error == Some(FixFailed) <==> !KeysApart(db.cat, old(bs.delta), old(db.prodSeq)))
      && error != Some(RemapFailed)
  {
    hide *;
    var cat := db.cat;
    ghost var base0, d0, seq0 := db.base, bs.delta, db.prodSeq;
    ghost var known := tables == cat.tables && fks == cat.fks && MergeHypotheses(cat, base0, d0, seq0, floor)
      && NoViolators(fks, d0, View(base0, d0));
    var ok;
    remaps, ok := RemapNewRows(db, bs, tables, floor);
    if known {
      HypothesesHold(cat, base0, d0, seq0, floor);
      WelcomeIs(cat, base0, d0, seq0, rejects);
    }
    if !ok {
      return remaps, Some(RemapFailed);
    }
    ghost var d1 := bs.delta;
    if known {
      RemapsAllIs(cat, d0, seq0, db.prodSeq, remaps);
      AfterRemap(cat, base0, d0, d1, seq0, db.prodSeq, remaps, floor);
    }
    ok := FixFKReferences(bs, remaps, fks);
    if !ok {
      return remaps, Some(FixFailed);
    }
    ghost var d2 := bs.delta;
    var order := SortTables(tables, fks);
    if known {
      AfterFix(cat, base0, d0, d1, d2, seq0, db.prodSeq, remaps, floor);
      RenamedReplayAll(cat.fks, remaps, base0, d0, d2, order);
      ReplayedIs(cat, base0, d0);
      ReplayedIs(cat, base0, d2);
    }
    ok := ReplayAll(db, bs, order, rejects);
    if !ok {
      return remaps, Some(ReplayFailed);
    }
    if known {
      AfterReplay(cat, base0, d0, d2, seq0, db.prodSeq, remaps, db.base, floor);
    }
    return remaps, None;
  }

  lemma ReplayedIs(cat: Catalog, base: Image, delta: Delta)
    ensures Replayed(cat, base, delta) == ReplayedAll(cat.fks, base, delta, DepthFirst(cat.tables, cat.fks))
  {
  }

  lemma HypothesesHold(cat: Catalog, base: Image, delta: Delta, prodSeq: map<string, int>, floor: int)
    requires MergeHypotheses(cat, base, delta, prodSeq, floor) && NoViolators(cat.fks, delta, View(base, delta))
    ensures SequencesSeparated(cat, cat.tables, delta, prodSeq, floor) && Integrity(cat.fks, base)
    ensures NoneDangle(cat.fks, base, delta)
  {
    hide View, Dangles, SequencesSeparated, Integrity;
    forall r, fk | r in delta && !delta[r].deleted && fk in cat.fks
      ensures !Dangles(fk, r, delta[r].vals, View(base, delta))
    {
      assert r !in Violators(fk, delta, View(base, delta));
    }
  }

  lemma WelcomeIs(cat: Catalog, base: Image, delta: Delta, prodSeq: map<string, int>, rejects: set<Table>)
    ensures Welcome(cat, base, delta, prodSeq, rejects) <==>
      && KeysApart(cat, delta, prodSeq)
      && rejects !! SetOf(cat.tables) && Replayed(cat, base, delta).Some?
  {
  }

  lemma FaithfulIs(fks: seq<FK>, base: Image, delta: Delta)
    ensures ReplayFaithful(fks, base, delta) <==>
      Integrity(fks, View(base, delta)) && CascadesAbsorbed(fks, base, delta)
  {
  }

  lemma RemapsAllIs(cat: Catalog, d0: Delta, before: map<string, int>, after: map<string, int>, remaps: Remaps)
    requires remaps == Predict(cat, d0, before, cat.tables) && after == AfterDrawing(cat, d0, before, cat.tables)
    requires remaps.Keys == SetOf(cat.tables) && SequencesAdvance(before, after, TotalNew(cat, d0, cat.tables))
    requires forall t :: t in cat.tables ==> RemapsTable(cat, d0, before, after, t, remaps[t])
    ensures RemapsAll(cat, d0, before, after, remaps)
  {
  }

  lemma SameTables(order: seq<Table>, tables: seq<Table>)
    requires SetOf(order) == SetOf(tables)
    ensures forall t :: t in order <==> t in tables
    ensures forall t :: t in tables ==> t in SetOf(tables)
  {
    forall t ensures t in order <==> t in tables {
      assert t in SetOf(order) <==> t in SetOf(tables);
    }
  }

  /** Sequences move forwards only, also when a merge fails. */
  ghost predicate NeverBack(before: map<string, int>, after: map<string, int>) {
    before.Keys == after.Keys && forall q :: q in before ==> before[q] <= after[q]
  }

  /** Steps 3 to 8 on an existing branch schema. */
  method Pipeline(db: Database, bs: BranchSchema, branch: Branch, dryRun: bool, rejects: set<Table>, ghost floor: int)
    returns (remaps: Remaps, error: Option<MergeError>)
    requires NoDuplicates(branch.tables)
    modifies db`prodSeq, db`base, bs`delta
    ensures NeverBack(old(db.prodSeq), db.prodSeq)
    ensures dryRun || error !in {None, Some(RemapFailed), Some(FixFailed), Some(ReplayFailed)} ==>
      db.prodSeq == old(db.prodSeq)
    ensures !dryRun && error in {None, Some(FixFailed), Some(ReplayFailed)} ==>
      db.prodSeq == AfterDrawing(db.cat, old(bs.delta), old(db.prodSeq), branch.tables)
    ensures error !in {Some(BranchNotFound), Some(AlreadyMerged), Some(LockHeld), Some(RelationMissing)}
    ensures error == None && !dryRun ==> Checked(db.cat, branch, old(db.base), old(bs.delta), bs.overlay)
    ensures Reports(db.cat, branch, old(db.base), old(bs.delta), bs.overlay, dryRun, error)
    ensures !dryRun && Mergeable(db.cat, branch, old(db.base), old(bs.delta), bs.overlay, old(db.prodSeq), floor) ==>
      && Decides(db.cat, branch, old(db.base), old(bs.delta), bs.overlay, old(db.prodSeq), rejects, error)
      && (error == None ==>
          MergedInto(db.cat, old(db.base), old(bs.delta), old(db.prodSeq), db.prodSeq, remaps, db.base))
  {
    hide MergeHypotheses, Welcome, KeysApart, MergedInto, Violators, IsConflict, NoViolators, Upgraded, View, Shown,
      Heeds, AfterDrawing;
    remaps := map[];
    ghost var shown := Shown(db.base, bs.delta, bs.overlay);
    ShownIsViewIff(db.base, bs.delta, bs.overlay);
    var violations := ValidateFKs(db, bs, branch.fks);
    NoViolationsMeansNoViolators(branch.fks, bs.delta, shown, violations);
    if violations != [] {
      return remaps, Some(FKViolations);
    }
    var conflicts, poisoned := DetectConflicts(db, bs, branch.tables, branch.createdAt);
    if conflicts != {} {
      var r :| r in conflicts;
      return remaps, Some(Conflicts);
    }
    if dryRun {
      return remaps, None;
    }
    if poisoned {
      return remaps, Some(TransactionAborted);
    }
    remaps, error := RenameAndReplay(db, bs, branch.tables, branch.fks, rejects, floor);
  }

  // ----- The transaction -----

  function ErrorOf(outcome: Outcome): Option<MergeError> {
    if outcome.Error? then Some(outcome.error) else None
  }

  const STALE_LOCK_SECONDS := 1800

  /** The lock may be broken: its time is known and more than 30 minutes ago. */
  predicate StaleLock(branch: Branch, now: int) {
    branch.lockedAt.Some? && now - branch.lockedAt.value > STALE_LOCK_SECONDS
  }

  predicate IsNamed(branches: map<int, Branch>, id: int, name: string) {
    id in branches && branches[id].name == name && branches[id].status != Dropped
  }

  /** The branch is not merged, and not locked by a merge that may still be running. */
  predicate MayMerge(branch: Branch, now: int) {
    branch.status != Status.Merged && (branch.status == Locked ==> StaleLock(branch, now))
  }

  /** A lock is broken when it is more than 30 minutes old, and only then. */
  lemma LockBreaksIff(branch: Branch, now: int)
    requires branch.status == Locked
    ensures MayMerge(branch, now) <==> branch.lockedAt.Some? && branch.lockedAt.value + 30 * 60 < now
  {
  }

  function SchemaOf(branch: Branch): string {
    Fold(branch.schemaName)
  }

  ghost predicate Retired(before: map<int, Branch>, id: Option<int>, after: map<int, Branch>) {
    && id.Some? && id.value in before
    && after == before[id.value := before[id.value].(status := Status.Merged, lockedAt := None)]
  }

  method FindBranch(db: Database, name: string) returns (id: Option<int>)
    ensures id.None? ==> forall i :: !IsNamed(db.branches, i, name)
    ensures id.Some? ==> IsNamed(db.branches, id.value, name)
  {
    var found := set i | i in db.branches && IsNamed(db.branches, i, name);
    if found == {} {
      assert forall i :: IsNamed(db.branches, i, name) ==> i in found;
      return None;
    }
    var i := AnyOf(found);
    return Some(i);
  }

  /** Merge(name, dryRun) at time now.  The id is the branch's, for the failure record. */
  method MergeBranch(db: Database, name: string, dryRun: bool, now: int, rejects: set<Table>, ghost floor: int)
    returns (outcome: Outcome, id: Option<int>, remaps: Remaps)
    requires forall i :: i in db.branches ==> NoDuplicates(db.branches[i].tables)
    modifies db, db.schemas.Values
    // which branch, and who may merge
    ensures id.None? ==> outcome == Error(BranchNotFound) && forall i :: !IsNamed(old(db.branches), i, name)
    ensures id.Some? ==> outcome != Error(BranchNotFound) && IsNamed(old(db.branches), id.value, name)
    ensures outcome == Error(AlreadyMerged) <==> id.Some? && old(db.branches)[id.value].status == Status.Merged
    ensures outcome == Error(LockHeld) <==>
      id.Some? && old(db.branches)[id.value].status == Locked && !StaleLock(old(db.branches)[id.value], now)
    // all or nothing
    ensures !outcome.Merged? ==>
      db.base == old(db.base) && db.branches == old(db.branches) && db.active == old(db.active)
    ensures !outcome.Merged? ==>
      db.schemas == old(db.schemas) && forall s :: s in old(db.schemas.Values) ==> unchanged(s)
    ensures outcome.Error? ==> db.history == old(db.history) + if id.Some? then [Failed(id.value)] else []
    ensures outcome.DryRun? ==> dryRun && db.history == old(db.history)
    ensures dryRun ==> db.prodSeq == old(db.prodSeq)
    ensures outcome.Error? && outcome.error !in {RemapFailed, FixFailed, ReplayFailed} ==> db.prodSeq == old(db.prodSeq)
    ensures NeverBack(old(db.prodSeq), db.prodSeq)
    ensures db.commits == old(db.commits)
    // what a merge does to the branch
    ensures outcome.Merged? ==> !dryRun && Retired(old(db.branches), id, db.branches)
    ensures outcome.Merged? ==> db.active == if old(db.active) == id then None else old(db.active)
    ensures outcome.Merged? ==> db.schemas == old(db.schemas) - {SchemaOf(old(db.branches)[id.value])}
    ensures outcome.Merged? ==> db.history == old(db.history) + [Succeeded(id.value, remaps)]
    // what a merge leaves alone
    ensures db.nextBranch == old(db.nextBranch)
    ensures id.Some? && SchemaOf(old(db.branches)[id.value]) in old(db.schemas) ==>
      forall s :: s in old(db.schemas.Values) && s != old(db.schemas[SchemaOf(db.branches[id.value])]) ==> unchanged(s)
    ensures id.None? || SchemaOf(old(db.branches)[id.value]) !in old(db.schemas) ==>
      forall s :: s in old(db.schemas.Values) ==> unchanged(s)
    // what a merge does to base, and when it does it
    ensures outcome.Merged? && SchemaOf(old(db.branches)[id.value]) in old(db.schemas) ==>
      var branch := old(db.branches)[id.value];
      var bs := old(db.schemas[SchemaOf(branch)]);
      Checked(db.cat, branch, old(db.base), old(bs.delta), old(bs.overlay))
    ensures outcome == Error(RelationMissing) <==>
      && id.Some? && MayMerge(old(db.branches)[id.value], now)
      && var branch := old(db.branches)[id.value];
         SchemaOf(branch) !in old(db.schemas) && (branch.fks != [] || (branch.tables != [] && !dryRun))
    ensures outcome.DryRun? ==> id.Some? && MayMerge(old(db.branches)[id.value], now)
    ensures outcome.Merged? ==> id.Some? && MayMerge(old(db.branches)[id.value], now)
    ensures
      && id.Some? && MayMerge(old(db.branches)[id.value], now)
      && SchemaOf(old(db.branches)[id.value]) in old(db.schemas)
      ==>
      var branch := old(db.branches)[id.value];
      var bs := old(db.schemas[SchemaOf(branch)]);
      && Reports(db.cat, branch, old(db.base), old(bs.delta), old(bs.overlay), dryRun, ErrorOf(outcome))
      && (!dryRun && ErrorOf(outcome) in {None, Some(FixFailed), Some(ReplayFailed)} ==>
          db.prodSeq == AfterDrawing(db.cat, old(bs.delta), old(db.prodSeq), branch.tables))
      && (!dryRun && Mergeable(db.cat, branch, old(db.base), old(bs.delta), old(bs.overlay), old(db.prodSeq), floor) ==>
          && Decides(db.cat, branch, old(db.base), old(bs.delta), old(bs.overlay), old(db.prodSeq), rejects,
                     ErrorOf(outcome))
          && (outcome.Merged? ==>
              MergedInto(db.cat, old(db.base), old(bs.delta), old(db.prodSeq), db.prodSeq, remaps, db.base)))
  {
    hide Mergeable, Reports, Decides, Checked, MergedInto, AfterDrawing, Fold;
    remaps := map[];
    id := FindBranch(db, name);
    if id.None? {
      return Error(BranchNotFound), None, remaps;
    }
    var branch := db.branches[id.value];
    if !MayMerge(branch, now) {
      db.history := db.history + [Failed(id.value)];
      return Error(if branch.status == Status.Merged then AlreadyMerged else LockHeld), id, remaps;
    }
    if SchemaOf(branch) in db.schemas {
      outcome, remaps := Transact(db, id.value, dryRun, now, rejects, floor);
      return;
    }
    // the first query on a delta table fails; without foreign keys a dry run makes none that counts
    if branch.fks != [] || (branch.tables != [] && !dryRun) {
      db.history := db.history + [Failed(id.value)];
      return Error(RelationMissing), id, remaps;
    }
    if dryRun {
      return DryRun, id, remaps;
    }
    Retire(db, id.value, remaps);
    return Outcome.Merged, id, remaps;
  }

  /** The transaction of a merge that may run: the lock, the pipeline, and commit or rollback. */
  method Transact(db: Database, id: int, dryRun: bool, now: int, rejects: set<Table>, ghost floor: int)
    returns (outcome: Outcome, remaps: Remaps)
    requires id in db.branches && NoDuplicates(db.branches[id].tables) && SchemaOf(db.branches[id]) in db.schemas
    modifies db, db.schemas.Values
    ensures ErrorOf(outcome) !in {Some(BranchNotFound), Some(AlreadyMerged), Some(LockHeld), Some(RelationMissing)}
    ensures !outcome.Merged? ==>
      db.base == old(db.base) && db.branches == old(db.branches) && db.active == old(db.active)
    ensures !outcome.Merged? ==>
      db.schemas == old(db.schemas) && forall s :: s in old(db.schemas.Values) ==> unchanged(s)
    ensures outcome.Error? ==> db.history == old(db.history) + [Failed(id)]
    ensures outcome.DryRun? ==> dryRun && db.history == old(db.history)
    ensures dryRun ==> db.prodSeq == old(db.prodSeq)
    ensures outcome.Error? && outcome.error !in {RemapFailed, FixFailed, ReplayFailed} ==> db.prodSeq == old(db.prodSeq)
    ensures NeverBack(old(db.prodSeq), db.prodSeq)
    ensures db.commits == old(db.commits)
    ensures outcome.Merged? ==> !dryRun && Retired(old(db.branches), Some(id), db.branches)
    ensures outcome.Merged? ==> db.active == if old(db.active) == Some(id) then None else old(db.active)
    ensures outcome.Merged? ==> db.schemas == old(db.schemas) - {SchemaOf(old(db.branches)[id])}
    ensures outcome.Merged? ==> db.history == old(db.history) + [Succeeded(id, remaps)]
    ensures db.nextBranch == old(db.nextBranch)
    ensures forall s :: s in old(db.schemas.Values) && s != old(db.schemas[SchemaOf(db.branches[id])]) ==> unchanged(s)
    ensures outcome.Merged? ==>
      var branch := old(db.branches)[id];
      var bs := old(db.schemas[SchemaOf(branch)]);
      Checked(db.cat, branch, old(db.base), old(bs.delta), old(bs.overlay))
    ensures
      var branch := old(db.branches)[id];
      var bs := old(db.schemas[SchemaOf(branch)]);
      && Reports(db.cat, branch, old(db.base), old(bs.delta), old(bs.overlay), dryRun, ErrorOf(outcome))
      && (!dryRun && ErrorOf(outcome) in {None, Some(FixFailed), Some(ReplayFailed)} ==>
          db.prodSeq == AfterDrawing(db.cat, old(bs.delta), old(db.prodSeq), branch.tables))
      && (!dryRun && Mergeable(db.cat, branch, old(db.base), old(bs.delta), old(bs.overlay), old(db.prodSeq), floor) ==>
          && Decides(db.cat, branch, old(db.base), old(bs.delta), old(bs.overlay), old(db.prodSeq), rejects,
                     ErrorOf(outcome))
          && (outcome.Merged? ==>
              MergedInto(db.cat, old(db.base), old(bs.delta), old(db.prodSeq), db.prodSeq, remaps, db.base)))
  {
    hide Mergeable, Reports, Decides, Checked, MergedInto, AfterDrawing, Fold;
    var branch := db.branches[id];
    var bs := db.schemas[SchemaOf(branch)];
    var savedBase, savedBranches, savedDelta := db.base, db.branches, bs.delta;
    db.branches := db.branches[id := branch.(status := Locked, lockedAt := Some(now))];
    var error;
    remaps, error := Pipeline(db, bs, branch, dryRun, rejects, floor);
    if error.None? && !dryRun {
      Retire(db, id, remaps);
      return Outcome.Merged, remaps;
    }
    db.base, db.branches, bs.delta := savedBase, savedBranches, savedDelta;
    if error.None? {
      return DryRun, remaps;
    }
    db.history := db.history + [Failed(id)];
    return Error(error.value), remaps;
  }

  /** Step 9: the history record, the status, the active branch, the schema. */
  method Retire(db: Database, id: int, remaps: Remaps)
    requires id in db.branches
    modifies db`history, db`branches, db`active, db`schemas
    ensures db.history == old(db.history) + [Succeeded(id, remaps)]
    ensures db.branches == old(db.branches)[id := old(db.branches)[id].(status := Status.Merged, lockedAt := None)]
    ensures db.active == if old(db.active) == Some(id) then None else old(db.active)
    ensures db.schemas == old(db.schemas) - {SchemaOf(old(db.branches)[id])}
  {
    db.history := db.history + [Succeeded(id, remaps)];
    var branch := db.branches[id];
    db.branches := db.branches[id := branch.(status := Status.Merged, lockedAt := None)];
    if db.active == Some(id) {
      db.active := None;
    }
    db.schemas := db.schemas - {SchemaOf(branch)};
  }
}
