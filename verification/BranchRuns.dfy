/** Runs of trigger writes on one branch over a fixed base: the overlay behaves as a full private
    copy, and what every write keeps about the delta. */
module BranchRuns {
  import opened Store
  import opened Cascade
  import opened Triggers

  /** Statements as clients give them: an INSERT comes with a key or, for an id table, without. */
  datatype Write =
    | Insert(t: Table, key: Option<Key>, vals: Cols)
    | Update(r: RowId, vals: Cols)
    | Delete(rows: set<RowId>)
    | Aborted

  /** The key is one that a view row has. */
  predicate NamesVisible(cat: Catalog, base: Image, delta: Delta, t: Table, key: Option<Key>) {
    AsGiven(cat, base, t, key) && RowId(t, key.value) in View(base, delta)
  }

  /** One write.  Clients do not insert keys that a visible row has, update visible rows in place, and
      delete rows of a view snapshot. */
  ghost predicate Step(cat: Catalog, base: Image, s: BranchState, w: Write, s': BranchState) {
    match w
    case Insert(t, key, vals) =>
      !NamesVisible(cat, base, s.delta, t, key) && Inserts(cat, base, s, t, key, vals, s')
    case Update(r, vals) =>
      r in View(base, s.delta) && s' == s.(delta := Upsert(s.delta, r, vals, false))
    case Delete(rows) =>
      rows <= View(base, s.delta).Keys && Deletes(cat, base, s, rows, s')
    case Aborted => s' == s
  }

  ghost predicate Run(cat: Catalog, base: Image, states: seq<BranchState>, ws: seq<Write>) {
    && |states| == |ws| + 1
    && forall i :: 0 <= i < |ws| ==> Step(cat, base, states[i], ws[i], states[i + 1])
  }

  // ----- A full private copy -----

  /** A private copy of the tables, with id sequences of its own. */
  datatype Copy = Copy(rows: Image, seqs: map<Table, int>)

  /** An INSERT into the copy: under the given key or, for an id table, the next id.  It is refused
      when the key is taken, and for want of a composite key. */
  function InsertedInto(cat: Catalog, copy: Copy, t: Table, key: Option<Key>, vals: Cols): Option<Copy> {
    if key.None? && (t !in cat.idTables || t !in copy.seqs) then None
    else
      var r := RowId(t, if key.Some? then key.value else Id(copy.seqs[t]));
      if r in copy.rows then None
      else Some(Copy(copy.rows[r := vals], if key.None? then copy.seqs[t := copy.seqs[t] + 1] else copy.seqs))
  }

  /** The same write on the copy. */
  function OnCopy(cat: Catalog, copy: Copy, w: Write): Copy {
    match w
    case Insert(t, key, vals) =>
      var inserted := InsertedInto(cat, copy, t, key, vals);
      if inserted.Some? then inserted.value else copy
    case Update(r, vals) => copy.(rows := copy.rows[r := vals])
    case Delete(rows) => copy.(rows := CascadeDelete(cat.fks, copy.rows, rows))
    case Aborted => copy
  }

  function AllOnCopy(cat: Catalog, copy: Copy, ws: seq<Write>): Copy {
    if ws == [] then copy else OnCopy(cat, AllOnCopy(cat, copy, ws[..|ws| - 1]), ws[|ws| - 1])
  }

  function CopyOf(base: Image, s: BranchState): Copy {
    Copy(View(base, s.delta), s.localSeq)
  }

  /** The write as the trigger takes it: an id that base does not have is ignored. */
  function Heard(cat: Catalog, base: Image, w: Write): Write {
    if w.Insert? && w.t in cat.idTables && !AsGiven(cat, base, w.t, w.key) then w.(key := None) else w
  }

  function AllHeard(cat: Catalog, base: Image, ws: seq<Write>): seq<Write> {
    seq(|ws|, i requires 0 <= i < |ws| => Heard(cat, base, ws[i]))
  }

  /** An INSERT trigger does what the INSERT does to a private copy, outcome and sequences included,
      exactly when the key is left to the sequence, or given, stored as given, and free. */
  lemma InsertRefinesIff(cat: Catalog, base: Image, s: BranchState, t: Table, key: Option<Key>, vals: Cols,
                         s': BranchState)
    requires Inserts(cat, base, s, t, key, vals, s')
    requires t in cat.idTables ==> t in s.localSeq && RowId(t, Id(s.localSeq[t])) !in View(base, s.delta)
    ensures InsertedInto(cat, CopyOf(base, s), t, key, vals)
      == (if t !in cat.idTables && key.None? then None else Some(CopyOf(base, s')))
      <==> key.None? || (AsGiven(cat, base, t, key) && RowId(t, key.value) !in View(base, s.delta))
  {
    if AsGiven(cat, base, t, key) {
      ViewOfUpsert(base, s.delta, RowId(t, key.value), vals, true);
    } else if t in cat.idTables {
      ViewOfUpsert(base, s.delta, RowId(t, Id(s.localSeq[t])), vals, true);
      assert s'.localSeq[t] != s.localSeq[t];
    }
    hide View, Upsert;
  }

  /** A client's own id is not kept: INSERT INTO users (id) VALUES (42) is stored under the first
      branch-local id, and a private copy would have it under 42. */
  lemma GivenIdIsReplaced(cat: Catalog, vals: Cols)
    returns (s: BranchState, s': BranchState)
    requires cat.idTables == {"users"}
    ensures s == BranchState(map[], map["users" := 1_000_000_000])
    ensures Step(cat, map[], s, Insert("users", Some(Id(42)), vals), s')
    ensures View(map[], s'.delta) == map[RowId("users", Id(1_000_000_000)) := vals]
    ensures OnCopy(cat, CopyOf(map[], s), Insert("users", Some(Id(42)), vals)).rows
      == map[RowId("users", Id(42)) := vals]
  {
    s := BranchState(map[], map["users" := 1_000_000_000]);
    var r := RowId("users", Id(1_000_000_000));
    s' := BranchState(Upsert(map[], r, vals, true), map["users" := 1_000_000_001]);
    ViewOfUpsert(map[], map[], r, vals, true);
    assert View(map[], map[]) == map[];
  }

  lemma StepRefines(cat: Catalog, base: Image, s: BranchState, w: Write, s': BranchState)
    requires DistinctColumns(cat.fks)
    requires Step(cat, base, s, w, s')
    requires w.Insert? && w.t in cat.idTables ==>
      w.t in s.localSeq && RowId(w.t, Id(s.localSeq[w.t])) !in View(base, s.delta)
    ensures CopyOf(base, s') == OnCopy(cat, CopyOf(base, s), Heard(cat, base, w))
  {
    match w {
      case Insert(t, key, vals) =>
        var heard := Heard(cat, base, w);
        assert Inserts(cat, base, s, t, heard.key, vals, s');
        InsertRefinesIff(cat, base, s, t, heard.key, vals, s');
        hide Inserts, View;
      case Update(r, vals) => ViewOfUpsert(base, s.delta, r, vals, false);
      case Delete(rows) => DeleteStepIsExact(cat.fks, View(base, s.delta), View(base, s'.delta), rows);
      case Aborted =>
    }
  }

  /** The overlay view after any run is what the same writes, as heard, make of a private copy. */
  lemma {:induction false} OverlayRefinesCopy(cat: Catalog, base: Image, start: map<Table, int>,
                                              states: seq<BranchState>, ws: seq<Write>)
    requires DistinctColumns(cat.fks) && BaseBelow(cat, base, start)
    requires Run(cat, base, states, ws) && Starts(cat, start, states[0])
    ensures CopyOf(base, states[|ws|]) == AllOnCopy(cat, Copy(base, start), AllHeard(cat, base, ws))
  {
    if ws == [] {
      assert View(base, map[]) == base;
    } else {
      var n := |ws| - 1;
      OverlayRefinesCopy(cat, base, start, states[..n + 1], ws[..n]);
      RunKeepsIds(cat, base, start, states[..n + 1], ws[..n]);
      assert AllHeard(cat, base, ws)[..n] == AllHeard(cat, base, ws[..n]);
      assert Step(cat, base, states[n], ws[n], states[n + 1]);
      if ws[n].Insert? && ws[n].t in cat.idTables {
        IssuedIdIsFresh(cat, base, start, states[n], ws[n].t);
        VisibleIsKnown(base, states[n].delta);
      }
      hide Step, Run, InsertedInto;
      StepRefines(cat, base, states[n], ws[n], states[n + 1]);
    }
  }

  /** When no INSERT gives an id that base does not have, every write is heard as given. */
  lemma HeardAsGivenIff(cat: Catalog, base: Image, ws: seq<Write>)
    ensures AllHeard(cat, base, ws) == ws <==>
      forall i :: 0 <= i < |ws| && ws[i].Insert? && ws[i].t in cat.idTables && ws[i].key.Some? ==>
        RowId(ws[i].t, ws[i].key.value) in base
  {
    var heard := AllHeard(cat, base, ws);
    if heard == ws {
      forall i | 0 <= i < |ws| && ws[i].Insert? && ws[i].t in cat.idTables && ws[i].key.Some?
        ensures RowId(ws[i].t, ws[i].key.value) in base
      {
        assert heard[i] == ws[i];
      }
    }
  }

  // ----- What every write keeps -----

  /** __is_new says exactly that the key is not in base. */
  ghost predicate FlagsOk(base: Image, delta: Delta) {
    forall r :: r in delta ==> (delta[r].isNew <==> r !in base)
  }

  /** The ids the branch may have issued for table t. */
  ghost predicate IsIssued(start: map<Table, int>, localSeq: map<Table, int>, r: RowId) {
    r.t in start && r.t in localSeq && r.k.Id? && start[r.t] <= r.k.n < localSeq[r.t]
  }

  /** A delta row of an id table is a base row or carries an id its branch sequence issued. */
  ghost predicate IdsIssued(cat: Catalog, base: Image, start: map<Table, int>, s: BranchState) {
    && (forall t :: t in cat.idTables ==> t in start && t in s.localSeq && start[t] <= s.localSeq[t])
    && (forall r :: r in s.delta && r.t in cat.idTables && r !in base ==> IsIssued(start, s.localSeq, r))
  }

  /** A base row the branch has not touched dangles nowhere in the view. */
  ghost predicate BaseOriginSafe(fks: seq<FK>, base: Image, delta: Delta) {
    forall x, fk :: x in base && x !in delta && fk in fks ==> !Dangles(fk, x, base[x], View(base, delta))
  }

  ghost predicate Invariant(cat: Catalog, base: Image, start: map<Table, int>, s: BranchState) {
    && FlagsOk(base, s.delta)
    && IdsIssued(cat, base, start, s)
    && BaseOriginSafe(cat.fks, base, s.delta)
  }

  /** A new branch: no delta, and a sequence for every id table. */
  ghost predicate Starts(cat: Catalog, start: map<Table, int>, s: BranchState) {
    s.delta == map[] && s.localSeq == start && cat.idTables <= start.Keys
  }

  /** Branch-local ids start above every base id. */
  ghost predicate BaseBelow(cat: Catalog, base: Image, start: map<Table, int>) {
    forall r :: r in base && r.t in cat.idTables ==> r.t in start && r.k.Id? && r.k.n < start[r.t]
  }

  lemma DeleteKeepsBaseOriginSafe(cat: Catalog, base: Image, s: BranchState, rows: set<RowId>, s': BranchState)
    requires forall fk :: fk in cat.fks ==> fk.rule != SetDefault
    requires BaseOriginSafe(cat.fks, base, s.delta)
    requires Deletes(cat, base, s, rows, s')
    ensures BaseOriginSafe(cat.fks, base, s'.delta)
  {
    var v, v' := View(base, s.delta), View(base, s'.delta);
    forall x, fk | x in base && x !in s'.delta && fk in cat.fks
      ensures !Dangles(fk, x, base[x], v')
    {
      assert x in v && v[x] == base[x] && x in v' && v'[x] == base[x];
      assert !Dangles(fk, x, base[x], v);
      assert !RefTo(fk, x, v'[x], Gone(v, v', rows));
    }
  }

  lemma UpsertKeepsBaseOriginSafe(cat: Catalog, base: Image, delta: Delta, r: RowId, vals: Cols, isNew: bool)
    requires BaseOriginSafe(cat.fks, base, delta)
    ensures BaseOriginSafe(cat.fks, base, Upsert(delta, r, vals, isNew))
  {
  }

  lemma StepKeepsIds(cat: Catalog, base: Image, start: map<Table, int>, s: BranchState, w: Write, s': BranchState)
    requires IdsIssued(cat, base, start, s) && Step(cat, base, s, w, s')
    ensures IdsIssued(cat, base, start, s')
  {
  }

  lemma {:induction false} RunKeepsIds(cat: Catalog, base: Image, start: map<Table, int>, states: seq<BranchState>,
                                       ws: seq<Write>)
    requires Run(cat, base, states, ws) && Starts(cat, start, states[0])
    ensures IdsIssued(cat, base, start, states[|ws|])
  {
    if ws != [] {
      var n := |ws| - 1;
      RunKeepsIds(cat, base, start, states[..n + 1], ws[..n]);
      StepKeepsIds(cat, base, start, states[n], ws[n], states[n + 1]);
    }
  }

  lemma StepKeepsInvariant(cat: Catalog, base: Image, start: map<Table, int>, s: BranchState, w: Write, s': BranchState)
    requires forall fk :: fk in cat.fks ==> fk.rule != SetDefault
    requires BaseBelow(cat, base, start)
    requires Invariant(cat, base, start, s) && Step(cat, base, s, w, s')
    ensures Invariant(cat, base, start, s')
  {
    StepKeepsIds(cat, base, start, s, w, s');
    match w {
      case Insert(t, key, vals) =>
        if AsGiven(cat, base, t, key) {
          UpsertKeepsBaseOriginSafe(cat, base, s.delta, RowId(t, key.value), vals, true);
        } else if t in cat.idTables {
          UpsertKeepsBaseOriginSafe(cat, base, s.delta, RowId(t, Id(s.localSeq[t])), vals, true);
        }
        hide BaseOriginSafe;
      case Update(r, vals) =>
        UpsertKeepsBaseOriginSafe(cat, base, s.delta, r, vals, false);
      case Delete(rows) =>
        DeleteKeepsBaseOriginSafe(cat, base, s, rows, s');
      case Aborted =>
    }
  }

  lemma {:induction false} RunKeepsInvariant(cat: Catalog, base: Image, start: map<Table, int>,
                                             states: seq<BranchState>, ws: seq<Write>)
    requires forall fk :: fk in cat.fks ==> fk.rule != SetDefault
    requires BaseBelow(cat, base, start) && Integrity(cat.fks, base)
    requires Run(cat, base, states, ws) && Starts(cat, start, states[0])
    ensures Invariant(cat, base, start, states[|ws|])
  {
    if ws == [] {
      assert View(base, map[]) == base;
    } else {
      var n := |ws| - 1;
      RunKeepsInvariant(cat, base, start, states[..n + 1], ws[..n]);
      StepKeepsInvariant(cat, base, start, states[n], ws[n], states[n + 1]);
    }
  }

  /** An id the branch sequence issues is never in use: only given keys can name a visible row. */
  lemma IssuedIdIsFresh(cat: Catalog, base: Image, start: map<Table, int>, s: BranchState, t: Table)
    requires BaseBelow(cat, base, start) && IdsIssued(cat, base, start, s)
    requires t in cat.idTables
    ensures RowId(t, Id(s.localSeq[t])) !in base.Keys + s.delta.Keys
  {
  }

  // ----- The hypotheses about clients are needed, exactly -----

  /** An UPDATE trigger does what an UPDATE does to a private copy exactly when the key is kept:
      otherwise the row stays visible under its old key too. */
  lemma UpdateRefinesIffKeyKept(base: Image, delta: Delta, oldRow: RowId, newRow: RowId, vals: Cols)
    requires oldRow in View(base, delta)
    ensures View(base, Upsert(delta, newRow, vals, false)) == (View(base, delta) - {oldRow})[newRow := vals]
      <==> newRow == oldRow
  {
    ViewOfUpsert(base, delta, newRow, vals, false);
    var moved := (View(base, delta) - {oldRow})[newRow := vals];
    if newRow == oldRow {
      assert View(base, delta)[oldRow := vals] == moved;
    } else {
      assert oldRow !in moved;
    }
  }

  /** An INSERT keeps __is_new truthful exactly when it does not name an untouched base row. */
  lemma InsertKeepsFlagsIff(base: Image, delta: Delta, r: RowId, vals: Cols)
    requires FlagsOk(base, delta)
    ensures FlagsOk(base, Upsert(delta, r, vals, true)) <==> !(r in base && r !in delta)
  {
  }
}
