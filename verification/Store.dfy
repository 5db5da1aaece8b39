/** The data model: base tables, delta tables, the overlay view and foreign keys.

    All tables of a database are kept in one map from row identifiers to column values; a row
    identifier is a table name with a primary key.  A table whose primary key is the single
    column "id" has keys Id(n); every other table has keys Composite(cols), the values of its
    key columns.  The remaining columns of the row are the map's value, so a primary-key-only
    row has the value map[]. */
module Store {
  type Table = string
  type Column = string

  datatype Option<+T> = None | Some(value: T)

  datatype Value = Null | Int(n: int) | Text(s: string)

  type Cols = map<Column, Value>

  datatype Key = Id(n: int) | Composite(cols: Cols)

  datatype RowId = RowId(t: Table, k: Key)

  /** The contents of a set of tables. */
  type Image = map<RowId, Cols>

  /** A delta row: the user columns, and the flags __deleted and __is_new. */
  datatype Entry = Entry(vals: Cols, deleted: bool, isNew: bool)

  type Delta = map<RowId, Entry>

  datatype Rule = Cascade | SetNull | Restrict | NoAction | SetDefault

  /** A single-column foreign key src.col -> ref.id. */
  datatype FK = FK(src: Table, col: Column, ref: Table, rule: Rule)

  /** What information_schema says about the tracked tables: which have the primary key "id",
      which have an updated_at column, their foreign keys, the defaults (or NULL) of the columns
      beside the key, and the sequence behind each id column. */
  datatype Catalog = Catalog(
    tables: seq<Table>,
    idTables: set<Table>,
    stamped: set<Table>,
    fks: seq<FK>,
    defaults: map<Table, Cols>,
    serials: map<Table, string>)
  {
    function DefaultsOf(t: Table): Cols {
      if t in defaults then defaults[t] else map[]
    }

    /** The sequence nextval is called on: the resolved one, or the conventional name. */
    function SequenceOf(t: Table): string {
      if t in serials && serials[t] != "" then serials[t] else "public." + t + "_id_seq"
    }

    /** Foreign keys go from a tracked table to a tracked table with an id key, never start at
        a column named id, and a column carries at most one of them. */
    ghost predicate WellFormed() {
      && (forall fk :: fk in fks ==> fk.src in tables && fk.ref in tables && fk.ref in idTables && fk.col != "id")
      && DistinctColumns(fks)
      && (forall t :: t in tables ==> "id" !in DefaultsOf(t))
      && (forall i, j :: 0 <= i < j < |tables| ==> tables[i] != tables[j])
    }
  }

  ghost predicate DistinctColumns(fks: seq<FK>) {
    forall f, g :: f in fks && g in fks && f.src == g.src && f.col == g.col ==> f == g
  }

  predicate KeyHas(k: Key, c: Column) {
    match k
    case Id(_) => c == "id"
    case Composite(cols) => c in cols
  }

  /** The value of column c in the row r with other columns vals. */
  function Val(r: RowId, vals: Cols, c: Column): Value {
    match r.k
    case Id(n) => if c == "id" then Int(n) else Look(vals, c)
    case Composite(cols) => if c in cols then cols[c] else Look(vals, c)
  }

  function Look(vals: Cols, c: Column): Value {
    if c in vals then vals[c] else Null
  }

  /** Row x references, by fk, one of the rows in ys: fk.src.col = ref.id. */
  predicate RefTo(fk: FK, x: RowId, vals: Cols, ys: set<RowId>) {
    && x.t == fk.src
    && Val(x, vals, fk.col).Int?
    && RowId(fk.ref, Id(Val(x, vals, fk.col).n)) in ys
  }

  /** Row x has a value in its fk column that no row of v carries as its id. */
  predicate Dangles(fk: FK, x: RowId, vals: Cols, v: Image) {
    && x.t == fk.src
    && Val(x, vals, fk.col) != Null
    && !RefTo(fk, x, vals, v.Keys)
  }

  /** Every row of v satisfies every foreign key within v. */
  ghost predicate Integrity(fks: seq<FK>, v: Image) {
    forall x, fk :: x in v && fk in fks ==> !Dangles(fk, x, v[x], v)
  }

  /** The overlay view: base rows without a delta row, and delta rows that are not tombstones. */
  function View(base: Image, delta: Delta): Image {
    map r | r in base.Keys + delta.Keys && (r in delta ==> !delta[r].deleted)
      :: if r in delta then delta[r].vals else base[r]
  }

  /** What the views show when those of the tables overlay are in overlay tier and the others still
      pass base through. */
  function Shown(base: Image, delta: Delta, overlay: set<Table>): Image {
    map r | r in base.Keys + delta.Keys && (if r.t in overlay then r in View(base, delta) else r in base)
      :: if r.t in overlay && r in delta then delta[r].vals else base[r]
  }

  /** Every table the branch has written to is in overlay tier. */
  ghost predicate Upgraded(delta: Delta, overlay: set<Table>) {
    forall r :: r in delta ==> r.t in overlay
  }

  /** The delta row says what base says. */
  predicate Repeats(base: Image, delta: Delta, r: RowId)
    requires r in delta
  {
    if delta[r].deleted then r !in base else r in base && base[r] == delta[r].vals
  }

  /** The views show the branch exactly when every table in passthrough tier has a delta that repeats
      what base says; an empty delta does. */
  lemma ShownIsViewIff(base: Image, delta: Delta, overlay: set<Table>)
    ensures Shown(base, delta, overlay) == View(base, delta)
      <==> forall r :: r in delta && r.t !in overlay ==> Repeats(base, delta, r)
    ensures Upgraded(delta, overlay) ==> Shown(base, delta, overlay) == View(base, delta)
  {
    var shown, view := Shown(base, delta, overlay), View(base, delta);
    if shown == view {
      forall r | r in delta && r.t !in overlay ensures Repeats(base, delta, r) {
        assert r in shown <==> r in view;
      }
    }
  }

  /** INSERT ... ON CONFLICT DO UPDATE on a delta table: an existing row keeps its __is_new. */
  function Upsert(delta: Delta, r: RowId, vals: Cols, isNew: bool): Delta {
    delta[r := Entry(vals, false, if r in delta then delta[r].isNew else isNew)]
  }

  /** The tombstone upsert: a fresh tombstone takes the column defaults, an existing row keeps
      its columns. */
  function Tombstone(cat: Catalog, delta: Delta, r: RowId): Delta {
    delta[r := if r in delta then delta[r].(deleted := true)
               else Entry(cat.DefaultsOf(r.t), true, false)]
  }

  lemma ViewOfUpsert(base: Image, delta: Delta, r: RowId, vals: Cols, isNew: bool)
    ensures View(base, Upsert(delta, r, vals, isNew)) == View(base, delta)[r := vals]
  {
  }

  lemma ViewOfTombstone(cat: Catalog, base: Image, delta: Delta, r: RowId)
    ensures View(base, Tombstone(cat, delta, r)) == View(base, delta) - {r}
  {
  }

  /** PostgreSQL folds unquoted identifiers to lower case. */
  function Fold(s: string): string {
    if s == [] then [] else [FoldChar(s[0])] + Fold(s[1..])
  }

  function FoldChar(c: char): char {
    if 'A' <= c <= 'Z' then c - 'A' + 'a' else c
  }

  datatype Status = Active | Locked | Merged | Dropped

  /** A row of chuck_meta.branches with its chuck_meta.branch_tables rows. */
  datatype Branch = Branch(
    name: string,
    schemaName: string,
    parent: Option<int>,
    baseCommit: Option<int>,
    status: Status,
    lockedAt: Option<int>,
    createdAt: int,
    tables: seq<Table>,
    fks: seq<FK>)

  datatype Commit = Commit(branch: int, parent: Option<int>, createdAt: int)

  type Remaps = map<Table, map<int, int>>

  datatype MergeRecord = Succeeded(branch: int, remaps: Remaps) | Failed(branch: int)

  /** A branch schema: its delta tables, its branch-local id sequences, and the tables whose views
      are in overlay tier. */
  class BranchSchema {
    var delta: Delta
    var localSeq: map<Table, int>
    var overlay: set<Table>

    constructor (localSeq: map<Table, int>)
      ensures delta == map[] && this.localSeq == localSeq && overlay == {}
    {
      delta, overlay := map[], {};
      this.localSeq := localSeq;
    }
  }

  class Database {
    const cat: Catalog
    var base: Image
    var prodSeq: map<string, int>
    var branches: map<int, Branch>
    var nextBranch: int
    var active: Option<int>
    var commits: seq<Commit>
    var history: seq<MergeRecord>
    /** The schemas that exist, under their folded names. */
    var schemas: map<string, BranchSchema>

    constructor (cat: Catalog, base: Image, prodSeq: map<string, int>)
      ensures this.cat == cat && this.base == base && this.prodSeq == prodSeq
      ensures branches == map[] && nextBranch == 1 && active == None && commits == [] && history == []
      ensures schemas == map[]
    {
      this.cat := cat;
      this.base := base;
      this.prodSeq := prodSeq;
      branches, nextBranch, active, commits, history, schemas := map[], 1, None, [], [], map[];
    }
  }
}
