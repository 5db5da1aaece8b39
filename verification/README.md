# chuckDB: copy-on-write branches and their merge, modelled and proved

chuckDB gives a PostgreSQL database branches.  A branch is a schema of *delta tables* laid over the
unchanged base tables.  Reads go through *overlay views*; writes go through generated INSTEAD OF
triggers that upsert, tombstone and cascade; `merge` validates the branch, gives its new rows
production ids, rewrites the references to them, and replays the delta tables onto base in one
serializable transaction.  Around this core lie the life of branches (create, checkout, commit,
drop), the asynchronous switch of views to the overlay tier, and a proxy that relays the PostgreSQL
wire protocol and routes a session to the active branch.

A table is modelled as a finite map, a SQL statement as a step on such maps.  All tables live in one
map from row identifier (table, key) to column values; a delta row adds the flags `__deleted` and
`__is_new`.  Code that updates state is a method on the classes `Database` and `BranchSchema` (and
`TableSorter`, `PathSet`, `Conn`), proved against functions and predicates about which the lemmas
speak.

## What is proved

1. **A branch is a private copy** (`BranchRuns.OverlayRefinesCopy`).  After any run of trigger writes
   the overlay view, with the branch-local sequences, is what the same statements make of a full copy
   of base with sequences of its own, where an id that a client gives and base does not have is
   ignored, as the trigger does.  `BranchRuns.InsertRefinesIff` says exactly which INSERTs act as on a
   copy.  The recursive DELETE trigger terminates on every data set, cyclic ones included, and deletes
   exactly what cascades from the deleted rows (`Triggers.FireDelete`, `Cascade.DeleteStepIsExact`); a
   DELETE succeeds whenever every reference to what it reaches is by CASCADE or can be nulled
   (`Triggers.ExecDelete`).
2. **Validation is enough** (`Validate.CleanRunHasIntegrity`).  The validator reads live delta rows
   only; together with what the triggers keep, that means every visible row of every table satisfies
   every foreign key.
3. **A merge is a renaming, and exactly when** (`Merge.MergeBranch`, `BranchMerge.MergeIsRenamedCopy`).
   A merge is all-or-nothing and keeps base's integrity.  With any foreign keys, and whatever base has
   become under the branch, its success and its result are known exactly: it succeeds if and only if
   the branch passes the checks, the ids that the sequences are about to give collide with no key, and
   base accepts the replay of the branch's own delta (`Merge.Welcome`), all of which can be seen
   beforehand; and base is then that replay's result under fresh ids, because replaying the renamed
   delta is renaming the replay, statement by statement (`RenamedReplay.RenamedReplayAll`).  It is the
   branch's view but for rows that are missing and values that became NULL
   (`ReplayOutcome.ReplayedOnlyLoses`).  With acyclic foreign keys acceptance and result have a closed
   form over the original base (`ReplayOutcome.ReplayedInOrder`), and nothing is lost if and only if
   base's own ON DELETE actions, a least fixed point (`Falls.Marks`), take nothing that the branch did
   not touch.  On the way: one-at-a-time reference rewriting in map order is the simultaneous
   substitution, and the table order is total and puts parents first exactly when that is possible.
4. **Many branches** (`TwoBranches.MergesKeepHypotheses`, `TwoBranches.MergeKeepsOriginSafeIff`).  Over
   any sequence of merges each branch still to be merged keeps what its merge relies on; that its view
   stays free of dangling rows has an exact condition.
5. **No lost updates, and exactly when** (`LostUpdates.MergeOverwritesOnlyWhatItSaw`,
   `LostUpdates.ConflictsAreExact`).  In every interleaving of base writers and merges in which the rows
   written carry new stamps, a merge changes or removes, of the rows that its branch wrote or deleted,
   only what the branch started from.  Base's own ON DELETE actions go further: of all rows that holds
   if and only if they leave every row alone that base gained or changed under the branch
   (`LostUpdates.UnseenIsKept`).  Nor are there false alarms: a row is in conflict exactly when base has
   gained or changed it since.  The replay stamps nothing itself; `LostUpdates.ReplayIsSafeIff` says
   exactly when that is safe.
6. **Every view becomes an overlay** (`Upgrade.QuiescentViewsAreOverlays`) in every interleaving of
   commits, notifications and upgrades.
7. **The life of branches** (`Lifecycle.RunKeepsMeta`, `Lifecycle.RunKeepsSchemasIff`).  Over any run of
   create, checkout, commit, merge and drop the metadata stays in order, and the open branches keep
   their schemas if and only if no drop is of a branch with an open namesake.  A name is free again after
   a drop, however often that was done (`BranchNames.DropsAreFree`).
8. **The relay is transparent** (`Wire.RelayUntilReady`, `Wire.Handshake`).  It succeeds exactly when
   neither stream ends too early; no byte is lost, added or changed through the first ready message,
   and none of the injected query's answer reaches the client.  On failure each side has got a
   beginning of what the other sent.

### What the code relies on

| hypothesis | what is known about it |
|---|---|
| an UPDATE keeps the key | `BranchRuns.UpdateRefinesIffKeyKept`: exactly then does it act as on a copy |
| an INSERT names no visible row | `BranchRuns.InsertRefinesIff`: a copy would refuse it, the trigger overwrites; `BranchRuns.InsertKeepsFlagsIff`: naming an untouched base row makes `__is_new` wrong |
| an INSERT gives no id, or that of a base row | needed only to get the id given: `BranchRuns.HeardAsGivenIff`; `BranchRuns.GivenIdIsReplaced` for id 42 |
| the branch's views are in overlay tier when it updates, deletes and merges | UPDATE: `Upgrade.UpdateThroughViewIff`, `Upgrade.PassthroughUpdateRevives`, `Upgrade.PassthroughUpdateForgets`; DELETE: `Passthrough.CascadeEndsIff`; checks: `Validate.TierMattersNotIff`, `Validate.PassthroughRefusesNewReference`, `Validate.PassthroughMissesDeletedReference` |
| base does not change under the branch | needed only for a view without dangling rows, not for the exact statements on merges: `Validate.BaseInsertEscapesValidation`; for merges of other branches `TwoBranches.MergeKeepsOriginSafeIff` |
| production ids are above base ids and below branch-local ids | `References.OrderMattersIff`: with chains the result depends on the order |
| no composite delta key already holds an id about to be handed out (`NoFreshKeys`) | enough (`MergedView.RenamingKeepsKeysApart`) but not needed (`MergeExamples.DeletedMembershipAloneIsHarmless`); exact is `Merge.KeysApart` |
| acyclic foreign keys | not needed for the exact success and result of a merge, only for the closed form and for what is said of lost updates; with cycles a branch whose view has no dangling rows is shown when `CascadesAbsorbed` |
| a branch is created when no row carries a time to come | needed only against false alarms: `LostUpdates.ConflictsAreExact` |
| every write to base stamps `updated_at` | `LostUpdates.ReplayIsSafeIff` |

The sequence hypothesis and the absence of SET DEFAULT and drift are in `MergedView.MergeHypotheses`
and `Merge.NoDrift`.  `MergeExamples.OrdinaryBranchMeetsHypotheses` shows an ordinary branch for which
all of them hold together.

### Where the code does not do what one would expect

Each of the branches below meets the hypotheses, the one on composite keys apart, and passes the checks of
a merge.

- Base's own cascade takes an untouched row below a child that the branch gave another parent before it
  deleted the old one (`MergeExamples.CascadeLosesUntouchedRow`), or nulls the untouched row's SET NULL
  reference (`MergeExamples.SetNullLosesReference`).  Exact condition: `ReplayOutcome.ShowsViewIff`.
- A branch row that references such an untouched row (`MergeExamples.ReferenceToLostIsRefused`), and a
  deleted parent with its deleted RESTRICT child (`MergeExamples.ParentDeletedFirstIsRefused`), are
  refused by base.  Exact condition: `ReplayOutcome.Accepted`.
- A tombstone in the way of a new row's composite key stops the merge: once the ids in the new key are
  replaced, both have the same (`MergeExamples.DeletedMembershipStopsMerge`).  Exact condition:
  `Merge.KeysApart`.

And beyond these:

- A client's own id for a new row is replaced (`BranchRuns.GivenIdIsReplaced`).
- A merge of a branch over a table that has `updated_at` but no `id` column never succeeds: the conflict
  query errs, the error is skipped, and the transaction is aborted (`Merge.MergeBranch`).  The conflicts
  of the tables after it are hidden, also from a dry run (`Validate.PoisonHidesConflicts`).
- The replay copies `updated_at` from the delta, so two merges can lose an update unnoticed
  (`LostUpdateHistories.UnstampedReplayLosesUpdate`).
- Conflicts are looked for among the branch's own rows only, so base's cascades delete rows that base
  gained since (`LostUpdateHistories.CascadeDeletesUnseenOrder`, and of a valid branch
  `LostUpdateHistories.CascadeDeletesUnseenPart`).  Exact condition: `LostUpdates.UnseenIsKept`.
- They are looked for among the rows that base still has, so a row deleted from base comes back with the
  branch that updated it (`LostUpdateHistories.DeletedRowComesBack`).  Exact condition:
  `LostUpdates.RevivedIff`.
- An UPDATE through a passthrough view revives a row that the branch deleted
  (`Upgrade.PassthroughUpdateRevives`).  Exact condition: `Upgrade.UpdateThroughViewIff`.
- Branch names are compared exactly but schema names are folded to lower case, so dropping the merged
  branch `Foo` drops the schema of the open branch `foo` (`Lifecycle.MergedNamesakeTakesSchema`,
  `Lifecycle.DroppingFooTakesSchemaOfFoo`).
- A drop is refused when an open or merged branch has the name that the dropped one would get
  (`BranchNames.DropSucceedsIff`).
- An 8-byte start-up request that is not an SSL request reaches upstream mangled
  (`Wire.StartupIsTransparentIff`, `Wire.GssRequestIsMangled`).

## Modules

`Store` data model; `Cascade` deletes on a full copy; `Triggers` the view triggers; `BranchRuns` runs of
writes; `Validate` validation and conflicts; `TableSort`, `Renaming`, `Remap`, `References`, `Replay`
the steps of a merge; `Falls` what base's own actions take in a replay, `ReplayTurn` the turn of one
table, `ReplayOutcome` the replay's exact outcome; `MergedView` and `RenamedReplay` why the steps
compose; `Merge` the transaction; `MergeExamples` branches that show why its conditions are needed;
`BranchMerge` end to end; `TwoBranches`, `LostUpdates` and `LostUpdateHistories` several branches;
`CascadeGraph` the foreign-key tree; `Passthrough` and `Upgrade` the view tiers; `Lifecycle` branches
and commits, `BranchNames` their names; `Wire` the proxy.

## Model

| member | source | states |
|---|---|---|
| `Store.ViewOfUpsert` | internal/delta/schema.go:390-400 | upserting a delta row sets exactly that row of the overlay view, also when it was tombstoned |
| `Store.ViewOfTombstone` | internal/delta/schema.go:513-515 | a tombstone removes exactly its row from the overlay view, whether the row came from base or delta |
| `Store.ShownIsViewIff` | internal/delta/view.go:8-29 | the views show the branch if and only if every table in passthrough tier has a delta that repeats what base says; when every written table is upgraded they do |
| `Cascade.ReachIsLeastClosed` | internal/delta/schema.go:533-538 | the rows a delete reaches are the least set that holds the deleted rows and is closed under CASCADE references |
| `Cascade.DeleteStepsCompose` | internal/delta/schema.go:533-549 | deleting s and then t deletes what s + t reaches and nulls what they null, so the order of cascades does not matter |
| `Cascade.DeleteStepIsExact` | internal/delta/schema.go:503-549 | a delete step removes exactly the reachable rows, nulls exactly the SET NULL references of the survivors, and changes nothing else |
| `Cascade.ReachShrinks` | internal/delta/schema.go:533-538 | what a nested cascade reaches after other rows went is within what the outer delete reached |
| `Triggers.FireInsert` | internal/delta/schema.go:474-490 | an id row whose id is missing or absent from base gets the next branch-local id, any other row is stored under its own key; a composite key must be given; the row stored is returned and all else stays |
| `Triggers.NullOut` | internal/delta/schema.go:539-541 | SET NULL over a snapshot nulls that column of exactly the hit rows in the view |
| `Triggers.CascadeOne` | internal/delta/schema.go:533-549 | the statement for one foreign key leaves no reference to the deleted row by it, loses only reachable rows, or else fails because another visible row holds on to a reached one; of the delta it touches only rows that it deletes or nulls |
| `Triggers.FireDelete` | internal/delta/schema.go:503-521 | terminates on any data; success is an exact delete step of the row, failure means that some visible row holds on to another one that is reached; no delta row is removed, revived or re-flagged, and none is added but for rows that are deleted or nulled |
| `Triggers.DeleteRows` | internal/delta/schema.go:537-538 | the row triggers of one DELETE, in any order and although earlier ones tombstone later rows, delete the rows as one step |
| `Triggers.ExecDelete` | internal/delta/schema.go:503-549 | a DELETE statement either gives exactly what it gives on a full copy or changes nothing; it succeeds whenever every reference to a reached row, self-references aside, is by CASCADE, by SET DEFAULT, or by SET NULL outside the key, and fails whenever another one is that of a row not itself reached |
| `Triggers.CascadesAlwaysLetGo` | internal/delta/schema.go:536-538 | with CASCADE keys alone, key columns included, every delete succeeds and removes exactly the rows it reaches |
| `Triggers.SuccessMeansUnblocked` | internal/delta/schema.go:542-547 | after a successful delete no row that stays holds, by RESTRICT, NO ACTION or a key column, to a row that went |
| `BranchRuns.StepRefines` | internal/delta/schema.go:474-521 | one statement changes view and sequences as the statement, as heard, changes a private copy |
| `BranchRuns.InsertRefinesIff` | internal/delta/schema.go:474-490 | an INSERT has the outcome, rows and sequences it has on a private copy if and only if its key is left out, or is one that is stored as given (for an id table: a base id) and not visible |
| `BranchRuns.GivenIdIsReplaced` | internal/delta/schema.go:478-482 | counterexample: id 42 is stored under 1000000000, and a private copy has it under 42 |
| `BranchRuns.HeardAsGivenIff` | internal/delta/schema.go:478-482 | every statement of a run is heard as given if and only if no INSERT gives an id that base lacks |
| `BranchRuns.OverlayRefinesCopy` | internal/delta/schema.go:390-521 | after any run of statements view and sequences are those of the private copy with the same statements, where an id absent from base is ignored |
| `BranchRuns.StepKeepsInvariant` | internal/delta/schema.go:478-515 | each write keeps the flag, issued-id and no-dangling-base-row invariants |
| `BranchRuns.RunKeepsInvariant` | internal/delta/schema.go:478-515 | over any run `__is_new` holds exactly for keys not in base, every other delta id was issued by the branch sequence, and no untouched base row dangles |
| `BranchRuns.IssuedIdIsFresh` | internal/delta/schema.go:478-482 | the next branch-local id is used by no base and no delta row |
| `BranchRuns.UpdateRefinesIffKeyKept` | internal/delta/schema.go:492-501 | the UPDATE path acts as an UPDATE on a copy if and only if the key is kept |
| `BranchRuns.InsertKeepsFlagsIff` | internal/delta/schema.go:484-488 | an INSERT keeps `__is_new` truthful if and only if it does not name an untouched base row |
| `Validate.ValidateFKs` | internal/merge/validate.go:17-99 | the violations are exactly the foreign keys with live delta rows that dangle in the views in the tier they have, each with all of those rows |
| `Validate.NoViolationsMeansNoViolators` | internal/merge/engine.go:123-131 | an empty result means no live delta row dangles, and conversely |
| `Validate.ValidatedMeansIntegrity` | internal/merge/validate.go:58-67 | a validation that scans delta rows only is right about the whole view if and only if no untouched base row dangles |
| `Validate.TierMattersNotIff` | internal/merge/validate.go:58-67 | validation against a view finds what it finds against the overlay if and only if the view is an overlay or no live delta row references a row the branch added or deleted |
| `Validate.PassthroughRefusesNewReference` | internal/merge/validate.go:58-67 | counterexample: against a passthrough view a valid new order of a new user is a violation |
| `Validate.PassthroughMissesDeletedReference` | internal/merge/validate.go:58-67 | counterexample: against a passthrough view an order of a deleted user is none |
| `Validate.CleanRunHasIntegrity` | internal/merge/validate.go:58-67 | after any run of writes over a base with integrity, a clean validation means every visible row of every table satisfies every foreign key |
| `Validate.BaseInsertEscapesValidation` | internal/merge/validate.go:58-67 | counterexample with base changing: a base row referencing a tombstoned row goes unseen |
| `Validate.DetectConflicts` | internal/merge/conflict.go:16-90 | the conflicts are exactly the joined rows of stamped tables, up to the first table whose query aborts the transaction, that base has changed since the branch was created; and one aborts exactly when some table has `updated_at` but no `id` |
| `Validate.PoisonHidesConflicts` | internal/merge/conflict.go:48-86 | the conflict query is heeded for exactly the tables before the first one with `updated_at` and no `id` |
| `TableSort.TableSorter.Visit` | internal/merge/engine.go:293-309 | ends on cyclic foreign keys, and emits what the depth-first order `TableSort.DepthFirst` says |
| `TableSort.DepthFirstIsASort` | internal/merge/engine.go:289-315 | that order has every table once, and parents first if and only if the foreign keys are acyclic |
| `TableSort.SortedStays` | internal/merge/engine.go:289-315 | a list that has parents first already stays as it is |
| `TableSort.OnlyNeededFirst` | internal/merge/engine.go:289-315 | for every i a beginning of the order holds the first i tables and nothing but what they reference, directly or not |
| `TableSort.KeysDecideAmongParents` | internal/merge/engine.go:299-307 | of two parents that of the earlier foreign key comes first |
| `TableSort.SortTables` | internal/merge/engine.go:289-315 | every table exactly once, in depth-first order; every referenced table before the tables referencing it if and only if the foreign keys, self-references aside, are acyclic |
| `TableSort.PositionsRank` | internal/merge/engine.go:289-315 | an order with parents first exists only when the foreign keys are acyclic |
| `Renaming.UpdateColumn` | internal/merge/remap.go:74-78 | the UPDATE of one value renames exactly the rows holding it, and fails without effect if and only if two rows would share a key |
| `Renaming.RenamedComposes` | internal/merge/remap.go:67-81 | one renaming after another is their composition, with flags and all other columns carried over |
| `Renaming.InjectiveComposes` | internal/merge/remap.go:67-81 | the second of two renamings keeps keys apart exactly when the composition does |
| `Remap.SortedIds` | internal/merge/remap.go:29-43 | the new ids, each once, in ascending order |
| `Remap.RemapOne` | internal/merge/remap.go:67-81 | one nextval and one UPDATE; it cannot collide while production values stay below the branch-local ids |
| `Remap.NextIdIsFree` | internal/merge/remap.go:67-78 | with ids separated, renaming to the next production value collides with no renamed, unrenamed or non-new row |
| `Remap.UnrenamedIdIsNoResult` | internal/merge/remap.go:67-78 | an id still to be renamed is not the result of an earlier rename |
| `Remap.RemapTable` | internal/merge/remap.go:29-81 | each new id gets its own sequence value, the values are consecutive and ascend with the ids, and the sequence ends just behind them; the table's rows are renamed so |
| `Remap.RemapNewRows` | internal/merge/remap.go:11-85 | the remaps and the final sequences are those predicted from catalog, delta and sequences alone, tables that share a sequence included; no sequence goes back; and it succeeds whenever new ids lie above the floor and sequences have room below it |
| `Remap.PredictionHolds` | internal/merge/remap.go:29-81 | what is predicted gives every table as many fresh ids as it has new rows, ascending with them, each within what its sequence went through |
| `References.FixFKReferences` | internal/merge/remap.go:87-110 | in every map order the UPDATEs give the simultaneous substitution, and they are refused if and only if that substitution gives two delta rows one key |
| `References.FixColumn` | internal/merge/remap.go:95-106 | the UPDATEs of one foreign key leave the delta renamed by a part of the substitution, that key's part complete |
| `References.CollisionsStay` | internal/merge/remap.go:95-106 | if the whole substitution keeps keys apart, so does every intermediate state |
| `References.OrderMattersIff` | internal/merge/remap.go:95-106 | two replacements in one column commute if and only if neither result is the other's value to replace |
| `Replay.CascadeStaysInTombstones` | internal/merge/engine.go:242-256 | the cascades base fires during the replay remove only rows the branch deleted |
| `Replay.ReplayedOneMore` | internal/merge/engine.go:164-257 | each replayed table shows the view's rows and keeps the tables already replayed and the untouched rows as the view has them |
| `Replay.AllReplayed` | internal/merge/engine.go:164-257 | once every table with delta rows is replayed, base is the overlay view |
| `Falls.MarksAreLeast` | internal/merge/engine.go:206-256 | the rows that base's own actions take in a replay are the least set closed under CASCADE, where a row that still is as in base follows base's references and one already upserted the branch's |
| `Falls.MarksBefore` | internal/merge/engine.go:242-256 | what falls to cascades in a table falls before its turn is over; later turns add nothing there |
| `ReplayTurn.TakenExactly` | internal/merge/engine.go:242-256 | what one table's delete takes with it, on the base as it then is, is what the original base and the delta say it takes |
| `ReplayTurn.TakenTogether` | internal/merge/engine.go:242-256 | what has been taken after a turn is what was taken before and what the turn takes |
| `ReplayTurn.AfterOneMore` | internal/merge/engine.go:206-256 | the two statements for a table lead from one closed form to the next, also when the view has dangling untouched rows |
| `ReplayTurn.DanglesIffReferredIsLost` | internal/merge/engine.go:206-240 | base refuses a table's upsert if and only if a row the branch wrote references a row that base's actions have taken and that no upsert has put back |
| `ReplayTurn.RefusedIffHeldOn` | internal/merge/engine.go:242-256 | base refuses a table's delete if and only if a row that is not itself taken holds on to a row taken; checks among rows removed together are left out |
| `ReplayOutcome.ShowsViewIff` | internal/merge/engine.go:164-257 | the replayed base is the overlay view if and only if base's own actions neither take an untouched row nor null a reference of one |
| `ReplayOutcome.UntouchedKeptIff` | internal/merge/engine.go:242-256 | an untouched base row is as it was after the replay if and only if it does not fall and no SET NULL reference of it is to a row taken |
| `ReplayOutcome.ReplayedTableKeepsIntegrity` | internal/merge/engine.go:206-256 | an accepted replay of a table leaves base without dangling rows |
| `ReplayOutcome.AcceptsIff` | internal/merge/engine.go:206-256 | over a base without dangling rows a table's replay is accepted if and only if the upsert, and then the delete with all it cascades to and nulls, leaves no dangling row |
| `ReplayOutcome.AbsorbedIsAccepted` | internal/merge/engine.go:164-257 | two simple conditions are enough for both: no kept row cascaded, in base, from a deleted one, and no base row holds on to a deleted one |
| `ReplayOutcome.ReplayAll` | internal/merge/engine.go:164-257 | in any order and with any foreign keys the replay succeeds if and only if nothing rejects a row and base accepts every statement on what the ones before made of it, and base is then the result |
| `ReplayOutcome.ReplayedInOrder` | internal/merge/engine.go:164-257 | parents first, base accepts every statement if and only if what falls to its own actions says so, and the result is the closed form |
| `ReplayOutcome.ReplayedFaithfully` | internal/merge/engine.go:164-257 | in any order an accepted replay shows a view without dangling rows when every cascade stays among the rows deleted |
| `ReplayOutcome.ReplayedOnlyLoses` | internal/merge/engine.go:206-256 | in any order and with any foreign keys an accepted replay leaves the branch's view but for rows that are missing and values that became NULL |
| `MergedView.RenamedDeltaGivesRenamedView` | internal/merge/engine.go:148-162 | the overlay of the renamed delta is the renamed overlay |
| `MergedView.FreshIds` | internal/merge/remap.go:67-81 | a fresh id is no base id and lies below every branch-local id |
| `MergedView.RemapsHaveNoChains` | internal/merge/remap.go:87-110 | no fresh id is itself an id to be replaced |
| `MergedView.BaseIsApart` | internal/merge/engine.go:148-162 | no base row would be renamed, and no renamed delta row, composite keys included, lands on a base row |
| `MergedView.RenamedImageHasIntegrity` | internal/merge/engine.go:123-162 | the renamed view satisfies every foreign key when the view did |
| `RenamedReplay.RenamedReach` | internal/merge/engine.go:242-257 | what a delete reaches among the renamed rows is what it reaches, renamed, on cyclic data too |
| `RenamedReplay.RenamedTurn` | internal/merge/engine.go:206-256 | base accepts a table of the renamed delta if and only if it would accept it of the delta, and the results are each other's renaming |
| `RenamedReplay.RenamedReplayAll` | internal/merge/engine.go:148-257 | so it is for the whole replay, in any order and with any foreign keys |
| `MergedView.RenamingKeepsKeysApart` | internal/merge/remap.go:87-110 | when no composite key already holds a value about to be handed out, no two delta rows get one key under the predicted ids |
| `MergedView.FreshKeyCollides` | internal/merge/remap.go:95-106 | a renaming collides when a composite key already holds the fresh value of another |
| `Merge.RenameAndReplay` | internal/merge/engine.go:148-257 | steps 5 to 8, with any foreign keys: when they succeed, that fixing references fails exactly when the predicted ids collide with a key and allocating them never does, and what base and sequences become |
| `Merge.WhatReplayGives` | internal/merge/engine.go:164-257 | with acyclic foreign keys acceptance and result of a branch's replay have a closed form, which is the view if and only if nothing untouched is lost; with any, an accepted replay gives the view when cascades are absorbed |
| `Merge.Pipeline` | internal/merge/engine.go:123-257 | a merge passes both checks first; which failure is reported: foreign keys before conflicts before an aborted transaction; a dry run succeeds if and only if the checks find nothing, a merge if and only if also no query aborts and base welcomes it; sequences move only once renaming has begun, and then to known values |
| `Merge.FindBranch` | internal/merge/engine.go:36-49 | the branch of that name that is not dropped, or none exists |
| `Merge.Transact` | internal/merge/engine.go:79-286 | lock, pipeline, commit or rollback: exactly when a dry run and a merge succeed and which failure is reported; anything but a merge leaves base, branches and every branch schema, its views and sequences included, as they were, and other branches' schemas are never touched |
| `Merge.MergeBranch` | internal/merge/engine.go:13-287 | who may merge (never twice, locks broken only after 30 minutes); all-or-nothing, views and branch-local sequences included, with one failure record and no effect of a dry run; which failure is reported when; with any foreign keys exactly when a dry run and a merge succeed; what a merge retires and what it leaves alone; base keeps its integrity and is the renamed result of the replay, which is the renamed view if and only if nothing is lost |
| `Merge.LockBreaksIff` | internal/merge/engine.go:55-76 | the lock of another merge is broken if and only if its time is known and more than 30 minutes ago |
| `BranchMerge.RunIsMergeable` | internal/merge/engine.go:123-162 | what trigger writes keep over any run is what the merge relies on |
| `BranchMerge.MergeIsRenamedCopy` | internal/merge/engine.go:13-287 | end to end: a merged branch leaves in base what its statements make of a private copy, under production ids that base did not use, but for rows and references lost to base's own actions; with acyclic foreign keys if and only if nothing untouched is lost |
| `MergeExamples.RepointedChildIsMerged` | internal/merge/engine.go:206-256 | a child that got another parent before the old one was deleted is merged rightly |
| `MergeExamples.CascadeLosesUntouchedRow` | internal/merge/engine.go:242-256 | a branch that passes every check and is merged without a row that it shows and did not touch |
| `MergeExamples.SetNullLosesReference` | internal/merge/engine.go:242-256 | one that is merged with an untouched row's reference nulled |
| `MergeExamples.ReferenceToLostIsRefused` | internal/merge/engine.go:206-240 | one that base refuses because a branch row references a row lost to a cascade |
| `MergeExamples.ParentDeletedFirstIsRefused` | internal/merge/engine.go:242-256 | one that base refuses, in every order with parents first, because a deleted RESTRICT child is still there |
| `MergeExamples.DeletedMembershipStopsMerge` | internal/merge/remap.go:95-106 | one whose references cannot be rewritten because a tombstone is in the way of a new row's key |
| `MergeExamples.DeletedMembershipAloneIsHarmless` | internal/merge/remap.go:95-106 | a tombstone that holds the fresh id is in nobody's way when no new row gets its key |
| `MergeExamples.OrdinaryBranchMeetsHypotheses` | internal/merge/engine.go:123-257 | the hypotheses of a merge, a clean validation, keys that stay apart, and a replay that base accepts and that gives the view hold together of an ordinary branch |
| `TwoBranches.MergeKeepsHypotheses` | internal/merge/engine.go:148-257 | a merge, with any foreign keys and whatever it lost to base's own actions, keeps what the merge of any other branch relies on of catalog, sequences, base and deltas |
| `TwoBranches.MergesKeepHypotheses` | internal/merge/engine.go:148-257 | so does any sequence of merges for every branch still to be merged, when the sequences have room for all of them |
| `TwoBranches.MergeKeepsOriginSafeIff` | internal/merge/engine.go:148-257 | after it another branch sees no dangling untouched row if and only if the merge wrote no row, untouched by the other branch, that references one the other branch deleted |
| `LostUpdates.NextKeepsWorldOk` | internal/merge/conflict.go:64-69 | every event whose rows are stamped, merges included, keeps it true that a row looking older than a branch is as the branch's origin had it |
| `LostUpdates.ConflictsAreExact` | internal/merge/conflict.go:64-69 | in every interleaving in which writers and merges stamp what they write, a row that the branch touched is in conflict if and only if base has gained or changed it since the branch was created, rows without a time included; and a branch has no conflict if and only if no such row |
| `LostUpdates.MergeIsAnEvent` | internal/merge/engine.go:133-257 | a checked merge with acyclic foreign keys is an event of these histories, whatever base has become under its branch and whatever base's own actions take |
| `LostUpdates.UntouchedIsLeftIff` | internal/merge/engine.go:242-256 | under the fresh ids, too, a merge leaves an untouched base row as it is if and only if base's own actions do |
| `LostUpdates.RevivedIff` | internal/merge/conflict.go:64-69 | a row that base lost while the branch was open is in base again after the merge if and only if it is, under its new id, a live delta row that no cascade takes |
| `LostUpdates.MergeOverwritesOnlyWhatItSaw` | internal/merge/conflict.go:16-90 | in every interleaving in which earlier merges stamped what they wrote, every stamped base row that a conflict-free merge removes or changes and that its branch wrote or deleted is as the branch's origin had it; and every stamped base row at all is, if and only if base's own actions leave alone the untouched rows that base gained or changed since |
| `LostUpdates.ReplayIsSafeIff` | internal/merge/engine.go:221-240 | consider the branches open at a replay and one opened at the same instant: after it no conflict-free merge of any of them overwrites an unseen change in a row it writes if and only if every row of a stamped table that the replay left, and that base did not have so, carries updated_at above the time of the merge |
| `LostUpdates.ReplayStampsIff` | internal/merge/engine.go:221-240 | when the merge shows its branch, those rows are the live delta rows that differ from base |
| `LostUpdateHistories.UnstampedReplayLosesUpdate` | internal/merge/engine.go:221-240 | counterexample history: the replay copies updated_at, and a second merge overwrites the first unseen |
| `LostUpdateHistories.CascadeDeletesUnseenOrder` | internal/merge/engine.go:242-256 | counterexample history: a base writer adds an order of a user that the branch deleted; no conflict is found, and base's cascade deletes the order |
| `LostUpdateHistories.CascadeDeletesUnseenPart` | internal/merge/engine.go:242-256 | the same for a branch whose view has no dangling row |
| `LostUpdateHistories.DeletedRowComesBack` | internal/merge/conflict.go:64-69 | counterexample history: a row deleted from base is put back by a branch that updated it |
| `CascadeGraph.BuildHelper` | internal/delta/schema.go:153-210 | ends on cyclic graphs and leaves the visited set as it found it |
| `CascadeGraph.BuildCascadeGraph` | internal/delta/schema.go:146-151 | the result is the tree of `GraphIsTheTree` |
| `CascadeGraph.GraphIsTheTree` | internal/delta/schema.go:153-210 | it is the one tree in which below every table the nodes are those of the foreign keys that reference it, in order and each once, and a node is childless exactly when its source is on its path or nothing references it |
| `CascadeGraph.GraphIsComplete` | internal/delta/schema.go:146-210 | a foreign key is in the tree if and only if its target leads back to the root |
| `Passthrough.CascadeEndsIff` | internal/delta/schema.go:533-538 | with views in any mixture of tiers a cascade ends if and only if it does not lead into a set of rows of passthrough views that reference each other without end; with overlay views alone it always ends |
| `Lifecycle.Create` | internal/branch/create.go:14-206 | each outcome and exactly when it occurs, the whole new branch row and its empty schema with offset sequences, the id spent, and the lifecycle invariants kept |
| `Lifecycle.LatestCommit` | internal/branch/create.go:50-56 | a commit of the branch with the greatest creation time, or there is none |
| `Lifecycle.IdRanges` | internal/delta/schema.go:335-339 | branches that issue fewer than 10^9 ids per table never issue the same one, and up to branch 9223372035 each fits 64 bits |
| `Lifecycle.IdsOverflowIff` | internal/delta/schema.go:335-339 | the ids that a branch may issue all fit 64 bits if and only if its number is at most 9223372035 |
| `Lifecycle.Checkout` | cmd/chuck/main.go:313-343 | the active branch becomes the named one, never a dropped one |
| `Lifecycle.RecordCommit` | cmd/chuck/main.go:347-457 | one commit is appended whose parent is the branch's latest commit, or else its base commit |
| `Lifecycle.Ancestry` | cmd/chuck/main.go:375-393 | following parents is a finite chain of ever earlier commits ending at one without a parent |
| `Lifecycle.Drop` | internal/branch/drop.go:9-45 | the schema goes, the row is renamed and deactivated, all or nothing, exactly when the new name is free; the lifecycle invariants are kept |
| `BranchNames.DigitsAre` | internal/branch/drop.go:33 | an id is written in decimal, without leading zeros |
| `BranchNames.SuffixesApart` | internal/branch/drop.go:33 | a name that ends in "_dropped_" and an id determines the id and what comes before |
| `BranchNames.DropSucceedsIff` | internal/branch/drop.go:33 | over any run, the name that a drop gives is taken if and only if a branch that is not dropped has been given that very name |
| `BranchNames.DropsAreFree` | internal/branch/drop.go:33 | over any run that creates no name with "_dropped_" in it every branch can be dropped, however often its name was used |
| `BranchNames.SameSchemaIff` | internal/branch/drop.go:26-30 | two branches have one schema if and only if their names differ in letter case only |
| `BranchNames.SchemaNames` | internal/branch/create.go:65-79 | no branch can be called meta, in any case of letters |
| `BranchNames.NameOkIff` | internal/branch/create.go:12-22 | names are of letters, digits and underscores and leave the schema name within 63 characters |
| `Lifecycle.DropKeepsSchemasIff` | internal/branch/drop.go:26-36 | a drop leaves every open branch its schema if and only if no other open branch has a schema of the same folded name |
| `Lifecycle.DropOfOpenBranchKeepsSchemas` | internal/branch/drop.go:26-36 | dropping an open branch takes no other branch's schema |
| `Lifecycle.MergedNamesakeTakesSchema` | internal/branch/drop.go:26-36 | dropping a merged branch takes the schema of its open lower-case namesake |
| `Lifecycle.MergeIsAStep` | internal/merge/engine.go:259-286 | what a merge does to branches, active branch and schemas is a step of the lifecycle |
| `Lifecycle.StepKeepsMeta` | internal/branch/create.go:40-206 | every operation keeps names unique, schema names derived, parents older, the active branch undropped and commit parents earlier |
| `Lifecycle.RunKeepsMeta` | internal/branch/create.go:40-206 | so does every run of create, checkout, commit, merge and drop |
| `Lifecycle.RunKeepsSchemasIff` | internal/branch/drop.go:26-36 | over any run exactly the open branches have a schema, each its own, if and only if no drop is of a branch with an open namesake |
| `Lifecycle.DroppingFooTakesSchemaOfFoo` | internal/branch/drop.go:26-36 | a concrete run that leaves the open branch foo without a schema |
| `Upgrade.UpdateThroughViewIff` | internal/delta/schema.go:492-501 | an UPDATE through a view acts as through the overlay if and only if the view is one, the branch has not touched the row, or the live delta row differs from base in no other column |
| `Upgrade.PassthroughUpdateRevives` | internal/delta/schema.go:492-501 | every UPDATE through a passthrough view of a row that the branch deleted revives it, where the overlay would not find it |
| `Upgrade.PassthroughUpdateForgets` | internal/delta/schema.go:492-501 | counterexample: through a passthrough view a second UPDATE of a row undoes the first |
| `Upgrade.ParseInvertsPayloadIff` | internal/proxy/proxy.go:109-115 | a notification is understood, and rightly, if and only if neither name has a dot |
| `Upgrade.NextKeepsCovered` | internal/proxy/proxy.go:102-165 | every step keeps the view of each table with delta rows upgraded, being upgraded or notified |
| `Upgrade.QuiescentViewsAreOverlays` | internal/proxy/proxy.go:102-165 | in every interleaving, when nothing is under way the views of every branch show its overlay over any base |
| `Upgrade.DottedViewIsNeverUpgraded` | internal/proxy/proxy.go:109-113 | the protocol relies on names without dots, which unquoted DDL ensures |
| `Wire.U32RoundTrip` | internal/proxy/proxy.go:215-217 | re-encoding a 32-bit length gives the bytes it was read from |
| `Wire.PutUint32` | internal/proxy/proxy.go:321 | four bytes of the buffer are set, the rest stays |
| `Wire.DecodeInvertsEncodeIff` | internal/proxy/proxy.go:301-331 | reading inverts writing, whatever follows, if and only if the payload's length plus 4 is below 2^32 |
| `Wire.EncodeInvertsDecode` | internal/proxy/proxy.go:301-331 | writing a message that was read gives the bytes it was read from |
| `Wire.StreamRoundTrip` | internal/proxy/proxy.go:301-331 | any concatenation of written messages is read back as those messages |
| `Wire.ReadMessage` | internal/proxy/proxy.go:301-316 | takes exactly the first message off the stream, and fails if and only if the stream does not begin with one |
| `Wire.WriteMessage` | internal/proxy/proxy.go:318-331 | appends the message's encoding, also for an empty payload |
| `Wire.RelayOne` | internal/proxy/proxy.go:223-250 | one message and, when asked for one, one answer pass through unchanged; it fails exactly when one of them is not there |
| `Wire.SkipMore` | internal/proxy/proxy.go:242-249 | taking n answers and then m is taking n + m |
| `Wire.RelayUntilReady` | internal/proxy/proxy.go:223-251 | succeeds if and only if upstream has a ready message and the client an answer for everything asked before it; then the client has exactly upstream's bytes through it, and upstream the client's answers; on failure each has a beginning of them |
| `Wire.InjectSearchPath` | internal/proxy/proxy.go:270-285 | the query is sent and exactly its answer through the ready message is swallowed; it fails only when the stream ends before |
| `Wire.Handshake` | internal/proxy/proxy.go:223-285 | both together, with success characterised: the split of both streams between the two sides, and what each side has in any case |
| `Wire.ForwardStartup` | internal/proxy/proxy.go:187-221 | succeeds if and only if the stream holds the message; what is forwarded, what is left, and whether an SSL request was refused |
| `Wire.StartupIsTransparentIff` | internal/proxy/proxy.go:187-221 | the client's first bytes reach upstream unchanged if and only if they are not an 8-byte request other than an SSL request |
| `Wire.GssRequestIsMangled` | internal/proxy/proxy.go:193-221 | a GSSAPI encryption request at concrete bytes |
| `Wire.SslRequestIsRefused` | internal/proxy/proxy.go:193-221 | an SSL request at concrete bytes is answered N, and the message after it passes unchanged |
| `Wire.AuthAsks` | internal/proxy/proxy.go:237-242 | of the authentication requests exactly kinds 3, 5, 10 and 11 want an answer |
| `Wire.ScramLogin` | internal/proxy/proxy.go:223-251 | a SCRAM login at concrete bytes asks the client twice and ends with its ready message |
| `Wire.QueryBytes` | internal/proxy/proxy.go:270-274 | an injected query at concrete bytes |

## Left out

- PostgreSQL itself: connections, drivers, `information_schema` queries and the text of the SQL. Table lists, keys, columns, defaults, sequences and foreign keys are the fields of `Catalog`.
- Foreign keys of several columns, those that do not reference an `id` key, those on a column named `id`, and two on one column: excluded by `Catalog.WellFormed`.
- Keys that combine an `id` column with others, `id` columns that are not the key (`Catalog.WellFormed` excludes them), and `id` columns that are not integers.
- SET DEFAULT: the triggers generate nothing for it; the theorems on runs and merges exclude it by hypothesis.
- Replay.ReplayTable: UNIQUE and CHECK constraints of base are one flag per table, which stands for any rejection; of the RESTRICT checks that base makes, only the outcome over the whole statement is modelled, not the order in which rows are deleted.
- Triggers.FireUpdate: the columns `__updated_at` and `__branch_seq_id` and the replicated timestamp triggers are not modelled, and neither is the notification, which `Upgrade` takes up. All trigger methods read the overlay view; in passthrough tier they behave differently, as the lemmas named above show.
- Triggers.FireInsert: the id default of an overlay view, which draws a production value that the trigger then replaces, is a missing key here.
- Triggers.ExecDelete: whether a delete fails when the only rows that hold on to others are themselves reached depends on the order of the generated statements and of the rows, which is left open.
- Validate.ValidateFKs: the rows of a violation are a set, without the text that is shown for them.
- Validate.DetectConflicts: the conflicts are a set, without the text shown for them.
- Merge.MergeBranch: merged_at, locked_by, durations, error texts and the report columns of the history are left out; what base becomes is stated for branches whose tables and foreign keys are still those recorded at creation, and says nothing of tracked tables outside the schema `public`. With cyclic foreign keys what the replay gives has no closed form.
- LostUpdates.MergeOverwritesOnlyWhatItSaw: is about tables with `id` and `updated_at` columns, and for merges about acyclic foreign keys; time is an integer clock.
- ReplayTurn.RefusedIffHeldOn: RESTRICT checks among rows that one statement removes together are not modelled.
- Passthrough.CascadeEndsIff: is about single paths of trigger calls; that calls on other paths may have hidden a row already only shortens them.
- Lifecycle.IdRanges: ids are unbounded integers elsewhere; this lemma and `Lifecycle.IdsOverflowIff` say up to where the 64-bit columns hold them.
- Lifecycle.RecordCommit: messages, authors and the counts of changed rows are left out, and commit ids are positions.
- Lifecycle.Create: the generated DDL is taken to succeed, apart from the creation of the schema.
- BranchRuns.OverlayRefinesCopy: INSERTs that name a visible row are excluded, and the copy has its foreign keys suspended as the delta tables have.
- Upgrade.QuiescentViewsAreOverlays: notifications lost while the listener reconnects and upgrades that fail are excluded; the lookup of the base schema is taken to succeed.
- Wire.ForwardStartup: on a length below 4 chuckDB panics; here it is a failure. Writes to a connection do not fail.
- Wire.Handshake: the lookup of the active schema is the parameter `query`; sockets, TLS and the final bidirectional copy are not part of this model.
- Password contents, the CLI's other commands and output, `TrackTable`, `Bootstrap` and process control.
