/** The life of branches: create, checkout, commit, merge and drop over chuck_meta. */
module Lifecycle {
  import opened Store
  import opened BranchRuns
  import opened Merge

  const MAX_NAME := 57
  const IDS_PER_BRANCH := 1_000_000_000
  const METADATA_SCHEMA := "chuck_meta"

  predicate NameChar(c: char) {
    'a' <= c <= 'z' || 'A' <= c <= 'Z' || '0' <= c <= '9' || c == '_'
  }

  predicate NameOk(name: string) {
    name != [] && (forall c :: c in name ==> NameChar(c)) && |name| <= MAX_NAME
  }

  function Digits(n: int): string
    decreases if n < 0 then 0 else n
  {
    if n < 10 then [Digit(n)] else Digits(n / 10) + [Digit(n % 10)]
  }

  function Digit(n: int): char {
    if 0 <= n < 10 then '0' + n as char else '-'
  }

  function DroppedSuffix(id: int): string {
    "_dropped_" + Digits(id)
  }

  /** A branch that is neither merged nor dropped, and so owns a schema. */
  predicate Open(branch: Branch) {
    branch.status == Active || branch.status == Locked
  }

  // ----- The invariant -----

  ghost predicate NamesOk(branches: map<int, Branch>) {
    && (forall i :: i in branches ==> branches[i].schemaName == "chuck_" + branches[i].name)
    && (forall i, j :: i in branches && j in branches && branches[i].name == branches[j].name ==> i == j)
  }

  ghost predicate LinksOk(branches: map<int, Branch>, nextBranch: int, active: Option<int>) {
    && 1 <= nextBranch && (forall i :: i in branches ==> 1 <= i < nextBranch)
    && (forall i :: i in branches && branches[i].parent.Some? ==>
          branches[i].parent.value in branches && branches[i].parent.value < i)
    && (active.Some? ==> active.value in branches && branches[active.value].status != Dropped)
  }

  /** Exactly the open branches have a schema, each its own. */
  ghost predicate SchemasOk(branches: map<int, Branch>, schemas: set<string>) {
    && (forall i :: i in branches && Open(branches[i]) ==> SchemaOf(branches[i]) in schemas)
    && (forall q :: q in schemas ==> exists i :: i in branches && Open(branches[i]) && SchemaOf(branches[i]) == q)
    && (forall i, j :: i in branches && j in branches && i != j && Open(branches[i]) && Open(branches[j]) ==>
          SchemaOf(branches[i]) != SchemaOf(branches[j]))
  }

  ghost predicate CommitsOk(branches: map<int, Branch>, commits: seq<Commit>) {
    && (forall k :: 0 <= k < |commits| && commits[k].parent.Some? ==> 0 <= commits[k].parent.value < k)
    && (forall i :: i in branches && branches[i].baseCommit.Some? ==> 0 <= branches[i].baseCommit.value < |commits|)
  }

  ghost predicate MetaOk(db: Database)
    reads db
  {
    && NamesOk(db.branches)
    && LinksOk(db.branches, db.nextBranch, db.active)
    && CommitsOk(db.branches, db.commits)
  }

  // ----- Runs -----

  /** chuck_meta, and the branch schemas that exist. */
  datatype Meta = Meta(branches: map<int, Branch>, nextBranch: int, active: Option<int>, commits: seq<Commit>,
                       schemas: set<string>)

  function MetaOf(db: Database): Meta
    reads db
  {
    Meta(db.branches, db.nextBranch, db.active, db.commits, db.schemas.Keys)
  }

  datatype Op =
    | Creates(branch: Branch)
    | SpendsId
    | ChecksOut(id: int)
    | Commits(commit: Commit)
    | Merges(id: int)
    | Drops(id: int)
    | Fails

  /** What the operations do to it.  A create that fails late has spent a branch id. */
  ghost predicate MetaStep(m: Meta, op: Op, m': Meta) {
    match op
    case Creates(branch) =>
      && !Taken(m.branches, branch.name) && SchemaOf(branch) !in m.schemas
      && branch.schemaName == "chuck_" + branch.name && branch.status == Active && branch.parent == m.active
      && (branch.baseCommit.Some? ==> 0 <= branch.baseCommit.value < |m.commits|)
      && m' == Meta(m.branches[m.nextBranch := branch], m.nextBranch + 1,
                    if m.active.None? then Some(m.nextBranch) else m.active,
                    m.commits, m.schemas + {SchemaOf(branch)})
    case SpendsId => m' == m.(nextBranch := m.nextBranch + 1)
    case ChecksOut(id) => id in m.branches && m.branches[id].status != Dropped && m' == m.(active := Some(id))
    case Commits(c) =>
      && m.active == Some(c.branch) && (c.parent.Some? ==> 0 <= c.parent.value < |m.commits|)
      && m' == m.(commits := m.commits + [c])
    case Merges(id) =>
      && id in m.branches && Open(m.branches[id]) && Retired(m.branches, Some(id), m'.branches)
      && m' == m.(branches := m'.branches, active := if m.active == Some(id) then None else m.active,
                  schemas := m.schemas - {SchemaOf(m.branches[id])})
    case Drops(id) =>
      && id in m.branches && m.branches[id].status != Dropped && !Taken(m.branches, AsDropped(m.branches[id], id).name)
      && m' == m.(branches := m.branches[id := AsDropped(m.branches[id], id)],
                  active := if m.active == Some(id) then None else m.active,
                  schemas := m.schemas - {SchemaOf(m.branches[id])})
    case Fails => m' == m
  }

  ghost predicate MetaRun(ms: seq<Meta>, ops: seq<Op>) {
    && |ms| == |ops| + 1 && ms[0] == Meta(map[], 1, None, [], {})
    && forall i :: 0 <= i < |ops| ==> MetaStep(ms[i], ops[i], ms[i + 1])
  }

  ghost predicate MetaInv(m: Meta) {
    NamesOk(m.branches) && LinksOk(m.branches, m.nextBranch, m.active) && CommitsOk(m.branches, m.commits)
  }

  /** No other open branch has the schema name of the branch that is dropped. */
  ghost predicate NoNamesake(m: Meta, op: Op) {
    op.Drops? && op.id in m.branches ==>
      forall j :: j in m.branches && j != op.id && Open(m.branches[j]) ==>
        SchemaOf(m.branches[j]) != SchemaOf(m.branches[op.id])
  }

  lemma StepKeepsMeta(m: Meta, op: Op, m': Meta)
    requires MetaInv(m) && MetaStep(m, op, m')
    ensures MetaInv(m')
  {
    hide SchemaOf, Fold;
    match op {
      case Creates(branch) =>
        IdIsNew(m.branches, m.nextBranch, m.active);
        NewBranchKeepsMeta(m.branches, m.nextBranch, m.active, m.commits, branch);
        hide NamesOk, LinksOk, CommitsOk;
      case SpendsId =>
        IdIsNew(m.branches, m.nextBranch, m.active);
      case Drops(id) =>
        DropKeepsMeta(m.branches, m.nextBranch, m.active, m.commits, id);
        hide NamesOk, LinksOk, CommitsOk;
      case Merges(id) =>
        MergeKeepsMeta(m.branches, m.nextBranch, m.active, m.commits, id, m'.branches);
        hide NamesOk, LinksOk, CommitsOk;
      case _ =>
    }
  }

  /** Over any run: names and schema names, parents, the active branch and commit parents are in
      order. */
  lemma {:induction false} RunKeepsMeta(ms: seq<Meta>, ops: seq<Op>, n: nat)
    requires MetaRun(ms, ops) && n <= |ops|
    ensures MetaInv(ms[n])
  {
    if n > 0 {
      RunKeepsMeta(ms, ops, n - 1);
      StepKeepsMeta(ms[n - 1], ops[n - 1], ms[n]);
    }
  }

  lemma StepKeepsSchemasIff(m: Meta, op: Op, m': Meta)
    requires MetaInv(m) && MetaStep(m, op, m') && SchemasOk(m.branches, m.schemas)
    ensures SchemasOk(m'.branches, m'.schemas) <==> NoNamesake(m, op)
  {
    hide SchemaOf, Fold, SchemasOk;
    match op {
      case Creates(branch) =>
        IdIsNew(m.branches, m.nextBranch, m.active);
        NewBranchKeepsSchemas(m.branches, m.schemas, m.nextBranch, branch);
        hide NamesOk, LinksOk, CommitsOk;
      case Drops(id) =>
        DropKeepsSchemasIff(m.branches, m.schemas, id);
        hide NamesOk, LinksOk, CommitsOk;
      case Merges(id) =>
        MergeKeepsSchemas(m.branches, m.schemas, id, m'.branches);
        hide NamesOk, LinksOk, CommitsOk;
      case _ =>
    }
  }

  /** Over any run: exactly the open branches have a schema, each its own, in every state if and only
      if no drop is of a branch with an open namesake. */
  lemma RunKeepsSchemasIff(ms: seq<Meta>, ops: seq<Op>)
    requires MetaRun(ms, ops)
    ensures (forall n :: 0 <= n <= |ops| ==> SchemasOk(ms[n].branches, ms[n].schemas))
      <==> forall n :: 0 <= n < |ops| ==> NoNamesake(ms[n], ops[n])
  {
    hide MetaStep, SchemasOk, NoNamesake, MetaInv;
    if forall n :: 0 <= n <= |ops| ==> SchemasOk(ms[n].branches, ms[n].schemas) {
      forall n | 0 <= n < |ops| ensures NoNamesake(ms[n], ops[n]) {
        RunKeepsMeta(ms, ops, n);
        StepKeepsSchemasIff(ms[n], ops[n], ms[n + 1]);
      }
    }
    if forall n :: 0 <= n < |ops| ==> NoNamesake(ms[n], ops[n]) {
      forall n | 0 <= n <= |ops| ensures SchemasOk(ms[n].branches, ms[n].schemas) {
        RunKeepsSchemas(ms, ops, n);
      }
    }
  }

  lemma NothingIsOk()
    ensures SchemasOk(map[], {})
  {
  }

  lemma {:induction false} RunKeepsSchemas(ms: seq<Meta>, ops: seq<Op>, n: nat)
    requires MetaRun(ms, ops) && n <= |ops| && forall i :: 0 <= i < |ops| ==> NoNamesake(ms[i], ops[i])
    ensures SchemasOk(ms[n].branches, ms[n].schemas)
  {
    hide SchemasOk, NoNamesake, MetaInv, MetaStep;
    if n == 0 {
      NothingIsOk();
    } else {
      RunKeepsSchemas(ms, ops, n - 1);
      RunKeepsMeta(ms, ops, n - 1);
      StepKeepsSchemasIff(ms[n - 1], ops[n - 1], ms[n]);
    }
  }

  /** Following parents from a commit ends, at a commit without a parent. */
  function Ancestry(commits: seq<Commit>, k: int): (chain: seq<int>)
    requires forall i :: 0 <= i < |commits| && commits[i].parent.Some? ==> 0 <= commits[i].parent.value < i
    requires 0 <= k < |commits|
    ensures chain != [] && chain[0] == k && forall i :: 0 <= i < |chain| ==> 0 <= chain[i] < |commits|
    ensures commits[chain[|chain| - 1]].parent == None
    ensures forall i :: 0 <= i < |chain| - 1 ==>
      commits[chain[i]].parent == Some(chain[i + 1]) && chain[i + 1] < chain[i]
    decreases k
  {
    match commits[k].parent
    case None => [k]
    case Some(p) => [k] + Ancestry(commits, p)
  }

  // ----- Create -----

  datatype CreateResult = Created(id: int) | InvalidName | NameInUse | UniqueViolation | SchemaExists

  /** k is a commit of the branch with the greatest creation time, if it has any. */
  ghost predicate IsLatest(commits: seq<Commit>, branch: int, k: Option<int>) {
    match k
    case None => forall i :: 0 <= i < |commits| ==> commits[i].branch != branch
    case Some(n) =>
      && 0 <= n < |commits| && commits[n].branch == branch
      && forall i :: 0 <= i < |commits| && commits[i].branch == branch ==> commits[i].createdAt <= commits[n].createdAt
  }

  /** ORDER BY created_at DESC LIMIT 1. */
  method LatestCommit(db: Database, branch: int) returns (k: Option<int>)
    ensures IsLatest(db.commits, branch, k)
  {
    k := None;
    for i := 0 to |db.commits|
      invariant k.None? <==> forall j :: 0 <= j < i ==> db.commits[j].branch != branch
      invariant k.Some? ==> 0 <= k.value < i && db.commits[k.value].branch == branch
      invariant k.Some? ==> forall j :: 0 <= j < i && db.commits[j].branch == branch ==>
        db.commits[j].createdAt <= db.commits[k.value].createdAt
    {
      if db.commits[i].branch == branch && (k.None? || db.commits[k.value].createdAt < db.commits[i].createdAt) {
        k := Some(i);
      }
    }
  }

  predicate Taken(branches: map<int, Branch>, name: string) {
    exists i :: i in branches && branches[i].name == name
  }

  /** CREATE SCHEMA would fail: the folded name exists, as the metadata schema always does. */
  predicate SchemaTaken(name: string, schemas: set<string>) {
    Fold("chuck_" + name) in schemas + {METADATA_SCHEMA}
  }

  /** Creates the branch below the active one, with a schema of its own, and makes it active if no
      branch is.  The branch id comes from a sequence and is spent even when a later step fails.
      The set others holds the schemas that are not branch schemas. */
  method Create(db: Database, name: string, now: int, others: set<string>) returns (result: CreateResult)
    requires MetaOk(db)
    modifies db
    ensures MetaOk(db)
    ensures exists op :: MetaStep(old(MetaOf(db)), op, MetaOf(db))
    ensures SchemasOk(old(db.branches), old(db.schemas.Keys)) ==> SchemasOk(db.branches, db.schemas.Keys)
    ensures !result.Created? ==>
      db.branches == old(db.branches) && db.schemas == old(db.schemas) && db.active == old(db.active)
    ensures result.InvalidName? <==> !NameOk(name)
    ensures result.NameInUse? <==> NameOk(name) && exists i :: IsNamed(old(db.branches), i, name)
    ensures result.UniqueViolation? <==>
      NameOk(name) && (forall i :: !IsNamed(old(db.branches), i, name)) && Taken(old(db.branches), name)
    ensures result.SchemaExists? <==>
      NameOk(name) && !Taken(old(db.branches), name) && SchemaTaken(name, old(db.schemas.Keys) + others)
    ensures db.nextBranch == old(db.nextBranch) + if result.InvalidName? || result.NameInUse? then 0 else 1
    ensures result.Created? ==>
      result.id == old(db.nextBranch) && result.id !in old(db.branches) && result.id in db.branches
    ensures result.Created? ==>
      var branch := db.branches[result.id];
      && db.branches == old(db.branches)[result.id := branch]
      && branch == Branch(name, "chuck_" + name, old(db.active), branch.baseCommit, Active, None, now, db.cat.tables,
                          db.cat.fks)
      && if old(db.active).None? then branch.baseCommit.None?
         else IsLatest(db.commits, old(db.active).value, branch.baseCommit)
    ensures result.Created? ==> db.active == if old(db.active).None? then Some(result.id) else old(db.active)
    ensures result.Created? ==>
      && Fold("chuck_" + name) !in old(db.schemas) && Fold("chuck_" + name) in db.schemas
      && fresh(db.schemas[Fold("chuck_" + name)])
      && db.schemas == old(db.schemas)[Fold("chuck_" + name) := db.schemas[Fold("chuck_" + name)]]
      && db.schemas[Fold("chuck_" + name)].delta == map[] && db.schemas[Fold("chuck_" + name)].overlay == {}
      && db.schemas[Fold("chuck_" + name)].localSeq == StartValues(db.cat, result.id)
    ensures db.base == old(db.base) && db.commits == old(db.commits) && db.history == old(db.history)
    ensures db.prodSeq == old(db.prodSeq)
  {
    hide NamesOk, LinksOk, CommitsOk, SchemasOk, NameOk, Fold, StartValues, MetaStep;
    ghost var m := MetaOf(db);
    FailsOrSpendsId(m);
    if !NameOk(name) {
      return InvalidName;
    }
    var named := FindBranch(db, name);
    assert MetaOf(db) == m;
    if named.Some? {
      return NameInUse;
    }
    var baseCommit := None;
    if db.active.Some? {
      baseCommit := LatestCommit(db, db.active.value);
    }
    var id := db.nextBranch;
    IdIsNew(db.branches, id, db.active);
    db.nextBranch := db.nextBranch + 1;
    assert MetaOf(db) == m.(nextBranch := id + 1);
    if Taken(db.branches, name) {
      return UniqueViolation;
    }
    if SchemaTaken(name, db.schemas.Keys + others) {
      return SchemaExists;
    }
    var branch := Branch(name, "chuck_" + name, db.active, baseCommit, Active, None, now, db.cat.tables, db.cat.fks);
    NewBranchKeepsMeta(db.branches, id, db.active, db.commits, branch);
    NewBranchKeepsSchemas(db.branches, db.schemas.Keys, id, branch);
    Install(db, id, branch);
    CreateIsAStep(m, branch, MetaOf(db));
    return Created(id);
  }

  /** The new branch's schema with offset sequences, its row, and the active branch. */
  method Install(db: Database, id: int, branch: Branch)
    requires SchemaOf(branch) !in db.schemas
    modifies db`schemas, db`branches, db`active
    ensures SchemaOf(branch) in db.schemas && fresh(db.schemas[SchemaOf(branch)])
    ensures db.schemas == old(db.schemas)[SchemaOf(branch) := db.schemas[SchemaOf(branch)]]
    ensures db.schemas.Keys == old(db.schemas.Keys) + {SchemaOf(branch)}
    ensures db.schemas[SchemaOf(branch)].delta == map[] && db.schemas[SchemaOf(branch)].overlay == {}
    ensures db.schemas[SchemaOf(branch)].localSeq == StartValues(db.cat, id)
    ensures db.branches == old(db.branches)[id := branch]
    ensures db.active == if old(db.active).None? then Some(id) else old(db.active)
  {
    hide Fold, StartValues;
    var schema := new BranchSchema(StartValues(db.cat, id));
    db.schemas := db.schemas[SchemaOf(branch) := schema];
    db.branches := db.branches[id := branch];
    if db.active.None? {
      db.active := Some(id);
    }
  }

  lemma FailsOrSpendsId(m: Meta)
    ensures MetaStep(m, Fails, m) && MetaStep(m, SpendsId, m.(nextBranch := m.nextBranch + 1))
  {
  }

  lemma CreateIsAStep(m: Meta, branch: Branch, m': Meta)
    requires !Taken(m.branches, branch.name) && SchemaOf(branch) !in m.schemas
    requires branch.schemaName == "chuck_" + branch.name && branch.status == Active && branch.parent == m.active
    requires branch.baseCommit.Some? ==> 0 <= branch.baseCommit.value < |m.commits|
    requires m' == Meta(m.branches[m.nextBranch := branch], m.nextBranch + 1,
                        if m.active.None? then Some(m.nextBranch) else m.active,
                        m.commits, m.schemas + {SchemaOf(branch)})
    ensures MetaStep(m, Creates(branch), m')
  {
    hide Fold;
  }

  lemma IdIsNew(branches: map<int, Branch>, nextBranch: int, active: Option<int>)
    requires LinksOk(branches, nextBranch, active)
    ensures nextBranch !in branches && nextBranch >= 1 && LinksOk(branches, nextBranch + 1, active)
  {
  }

  lemma NewBranchKeepsMeta(branches: map<int, Branch>, id: int, active: Option<int>, commits: seq<Commit>,
                           branch: Branch)
    requires NamesOk(branches) && LinksOk(branches, id, active) && CommitsOk(branches, commits)
    requires !Taken(branches, branch.name) && branch.schemaName == "chuck_" + branch.name && branch.status == Active
    requires branch.parent == active && (branch.baseCommit.Some? ==> 0 <= branch.baseCommit.value < |commits|)
    requires id >= 1
    ensures NamesOk(branches[id := branch]) && CommitsOk(branches[id := branch], commits)
    ensures LinksOk(branches[id := branch], id + 1, if active.None? then Some(id) else active)
  {
  }

  lemma NewBranchKeepsSchemas(branches: map<int, Branch>, schemas: set<string>, id: int, branch: Branch)
    requires id !in branches && branch.status == Active && SchemaOf(branch) !in schemas
    ensures SchemasOk(branches, schemas) ==> SchemasOk(branches[id := branch], schemas + {SchemaOf(branch)})
  {
    hide SchemaOf;
    if SchemasOk(branches, schemas) {
      var after := branches[id := branch];
      forall q | q in schemas + {SchemaOf(branch)}
        ensures exists i :: i in after && Open(after[i]) && SchemaOf(after[i]) == q
      {
        if q in schemas {
          var i :| i in branches && Open(branches[i]) && SchemaOf(branches[i]) == q;
          assert i in after && after[i] == branches[i];
        } else {
          assert id in after && after[id] == branch;
        }
      }
    }
  }

  /** Every branch-local sequence starts at 1000000000 * branchID. */
  function StartValues(cat: Catalog, id: int): map<Table, int> {
    map t | t in cat.tables :: IDS_PER_BRANCH * id
  }

  /** The branch-local sequences of branch id, none of which has issued 10^9 ids. */
  ghost predicate InRange(cat: Catalog, id: int, localSeq: map<Table, int>) {
    forall t :: t in localSeq ==> t in cat.tables && localSeq[t] <= IDS_PER_BRANCH * (id + 1)
  }

  /** No id is issued by two branches, as long as none issues 10^9 ids for a table; and up to branch
      9223372035, and no further, all of a branch's ids fit in 64 bits. */
  lemma IdRanges(cat: Catalog, b: int, c: int, seqsB: map<Table, int>, seqsC: map<Table, int>, r: RowId)
    requires InRange(cat, b, seqsB) && InRange(cat, c, seqsC)
    requires IsIssued(StartValues(cat, b), seqsB, r)
    ensures IsIssued(StartValues(cat, c), seqsC, r) ==> b == c
    ensures 0 <= b <= 9223372035 ==> 0 <= r.k.n < 0x8000_0000_0000_0000
  {
  }

  lemma IdsOverflowIff(cat: Catalog, b: int, t: Table)
    requires b >= 0 && t in cat.tables
    ensures (forall n, seqs :: InRange(cat, b, seqs) && IsIssued(StartValues(cat, b), seqs, RowId(t, Id(n))) ==>
      n < 0x8000_0000_0000_0000) <==> b <= 9223372035
  {
    if b > 9223372035 {
      var n, seqs := IDS_PER_BRANCH * (b + 1) - 1, map[t := IDS_PER_BRANCH * (b + 1)];
      assert InRange(cat, b, seqs) && IsIssued(StartValues(cat, b), seqs, RowId(t, Id(n)));
    }
  }

  // ----- Checkout and commit -----

  method Checkout(db: Database, name: string) returns (ok: bool)
    requires MetaOk(db)
    modifies db`active
    ensures MetaOk(db)
    ensures exists op :: MetaStep(old(MetaOf(db)), op, MetaOf(db))
    ensures ok <==> exists i :: IsNamed(db.branches, i, name)
    ensures if ok then db.active.Some? && IsNamed(db.branches, db.active.value, name) else db.active == old(db.active)
  {
    var found := FindBranch(db, name);
    ghost var m := MetaOf(db);
    if found.None? {
      assert MetaStep(m, Fails, MetaOf(db));
      return false;
    }
    db.active := found;
    assert MetaStep(m, ChecksOut(found.value), MetaOf(db));
    return true;
  }

  /** The new commit's parent is the branch's latest commit, or else the commit it was created at. */
  method RecordCommit(db: Database, now: int) returns (ok: bool)
    requires MetaOk(db)
    modifies db`commits
    ensures MetaOk(db)
    ensures exists op :: MetaStep(old(MetaOf(db)), op, MetaOf(db))
    ensures ok <==> db.active.Some?
    ensures !ok ==> db.commits == old(db.commits)
    ensures ok ==> |db.commits| == |old(db.commits)| + 1 && db.commits[..|old(db.commits)|] == old(db.commits)
    ensures ok ==>
      var c := db.commits[|old(db.commits)|];
      && c.branch == db.active.value && c.createdAt == now
      && if IsLatest(old(db.commits), c.branch, None) then c.parent == db.branches[c.branch].baseCommit
         else IsLatest(old(db.commits), c.branch, c.parent)
  {
    ghost var m := MetaOf(db);
    if db.active.None? {
      assert MetaStep(m, Fails, MetaOf(db));
      return false;
    }
    var branch := db.active.value;
    var parent := LatestCommit(db, branch);
    if parent.None? {
      parent := db.branches[branch].baseCommit;
    }
    db.commits := db.commits + [Commit(branch, parent, now)];
    assert MetaStep(m, Commits(Commit(branch, parent, now)), MetaOf(db));
    return true;
  }

  // ----- Drop -----

  datatype DropResult = DroppedBranch(id: int) | NotFound | RenameViolation

  /** Drops the schema, renames the branch row to free its name, and deactivates it.  The rename
      fails when a branch already has that name, and then nothing happens. */
  method Drop(db: Database, name: string) returns (result: DropResult)
    requires MetaOk(db)
    modifies db
    ensures MetaOk(db)
    ensures exists op :: MetaStep(old(MetaOf(db)), op, MetaOf(db))
    ensures result.NotFound? <==> forall i :: !IsNamed(old(db.branches), i, name)
    ensures !result.DroppedBranch? ==>
      db.branches == old(db.branches) && db.schemas == old(db.schemas) && db.active == old(db.active)
    ensures result.RenameViolation? <==>
      exists i :: IsNamed(old(db.branches), i, name) && Taken(old(db.branches), AsDropped(old(db.branches)[i], i).name)
    ensures result.DroppedBranch? ==>
      && IsNamed(old(db.branches), result.id, name)
      && db.branches == old(db.branches)[result.id := AsDropped(old(db.branches)[result.id], result.id)]
      && db.schemas == old(db.schemas) - {SchemaOf(old(db.branches)[result.id])}
      && db.active == if old(db.active) == Some(result.id) then None else old(db.active)
    ensures db.base == old(db.base) && db.commits == old(db.commits) && db.history == old(db.history)
    ensures db.prodSeq == old(db.prodSeq) && db.nextBranch == old(db.nextBranch)
  {
    hide LinksOk, CommitsOk, Fold, AsDropped;
    var found := FindBranch(db, name);
    ghost var m := MetaOf(db);
    if found.None? {
      assert MetaStep(m, Fails, MetaOf(db));
      return NotFound;
    }
    var id := found.value;
    var branch := db.branches[id];
    if Taken(db.branches, AsDropped(branch, id).name) {
      assert MetaStep(m, Fails, MetaOf(db));
      return RenameViolation;
    }
    DropKeepsMeta(db.branches, db.nextBranch, db.active, db.commits, id);
    db.schemas := db.schemas - {SchemaOf(branch)};
    db.branches := db.branches[id := AsDropped(branch, id)];
    if db.active == Some(id) {
      db.active := None;
    }
    assert MetaStep(m, Drops(id), MetaOf(db));
    return DroppedBranch(id);
  }

  lemma DroppedNames(branches: map<int, Branch>, id: int)
    requires NamesOk(branches) && id in branches && !Taken(branches, AsDropped(branches[id], id).name)
    ensures NamesOk(branches[id := AsDropped(branches[id], id)])
  {
    var dropped := AsDropped(branches[id], id);
    assert dropped.schemaName == "chuck_" + branches[id].name + DroppedSuffix(id) == "chuck_" + dropped.name;
    hide AsDropped;
  }

  lemma DropKeepsMeta(branches: map<int, Branch>, nextBranch: int, active: Option<int>, commits: seq<Commit>, id: int)
    requires NamesOk(branches) && LinksOk(branches, nextBranch, active) && CommitsOk(branches, commits)
    requires id in branches && !Taken(branches, AsDropped(branches[id], id).name)
    ensures NamesOk(branches[id := AsDropped(branches[id], id)])
    ensures CommitsOk(branches[id := AsDropped(branches[id], id)], commits)
    ensures LinksOk(branches[id := AsDropped(branches[id], id)], nextBranch,
                    if active == Some(id) then None else active)
  {
    DroppedNames(branches, id);
    hide NamesOk, Taken, DroppedSuffix;
  }

  function AsDropped(branch: Branch, id: int): Branch {
    branch.(name := branch.name + DroppedSuffix(id), schemaName := branch.schemaName + DroppedSuffix(id),
            status := Dropped)
  }

  // ----- Which schemas survive -----

  /** A drop leaves every other open branch its schema exactly when none of them has a name that
      differs from the dropped one's in case only. */
  lemma DropKeepsSchemasIff(branches: map<int, Branch>, schemas: set<string>, id: int)
    requires SchemasOk(branches, schemas) && id in branches
    ensures SchemasOk(branches[id := AsDropped(branches[id], id)], schemas - {SchemaOf(branches[id])})
      <==> forall j :: j in branches && j != id && Open(branches[j]) ==> SchemaOf(branches[j]) != SchemaOf(branches[id])
  {
    hide SchemaOf;
    var after, left := branches[id := AsDropped(branches[id], id)], schemas - {SchemaOf(branches[id])};
    if forall j :: j in branches && j != id && Open(branches[j]) ==> SchemaOf(branches[j]) != SchemaOf(branches[id]) {
      forall q | q in left ensures exists i :: i in after && Open(after[i]) && SchemaOf(after[i]) == q {
        var i :| i in branches && Open(branches[i]) && SchemaOf(branches[i]) == q;
        assert i in after && after[i] == branches[i];
      }
    }
    if SchemasOk(after, left) {
      forall j | j in branches && j != id && Open(branches[j]) ensures SchemaOf(branches[j]) != SchemaOf(branches[id]) {
        assert j in after && after[j] == branches[j];
      }
    }
  }

  /** Dropping an open branch is always safe: open branches have schemas of their own. */
  lemma DropOfOpenBranchKeepsSchemas(branches: map<int, Branch>, schemas: set<string>, id: int)
    requires SchemasOk(branches, schemas) && id in branches && Open(branches[id])
    ensures SchemasOk(branches[id := AsDropped(branches[id], id)], schemas - {SchemaOf(branches[id])})
  {
    DropKeepsSchemasIff(branches, schemas, id);
  }

  lemma MergeKeepsMeta(branches: map<int, Branch>, nextBranch: int, active: Option<int>, commits: seq<Commit>, id: int,
                       branches': map<int, Branch>)
    requires NamesOk(branches) && LinksOk(branches, nextBranch, active) && CommitsOk(branches, commits)
    requires id in branches && Retired(branches, Some(id), branches')
    ensures NamesOk(branches') && LinksOk(branches', nextBranch, if active == Some(id) then None else active)
    ensures CommitsOk(branches', commits)
  {
  }

  lemma MergeKeepsSchemas(branches: map<int, Branch>, schemas: set<string>, id: int, branches': map<int, Branch>)
    requires SchemasOk(branches, schemas)
    requires id in branches && Open(branches[id]) && Retired(branches, Some(id), branches')
    ensures SchemasOk(branches', schemas - {SchemaOf(branches[id])})
  {
    hide Fold;
    var left := schemas - {SchemaOf(branches[id])};
    forall q | q in left ensures exists i :: i in branches' && Open(branches'[i]) && SchemaOf(branches'[i]) == q {
      var i :| i in branches && Open(branches[i]) && SchemaOf(branches[i]) == q;
      assert i in branches' && branches'[i] == branches[i];
    }
  }

  /** A merge, as MergeBranch describes it, is a step of a run. */
  lemma MergeIsAStep(m: Meta, m': Meta, outcome: Outcome, id: Option<int>, name: string, now: int)
    requires id.Some? ==>
      IsNamed(m.branches, id.value, name) && (outcome.Merged? ==> MayMerge(m.branches[id.value], now))
    requires outcome.Merged? ==> Retired(m.branches, id, m'.branches)
    requires outcome.Merged? ==> m'.active == if m.active == id then None else m.active
    requires outcome.Merged? ==>
      id.Some? && id.value in m.branches && m'.schemas == m.schemas - {SchemaOf(m.branches[id.value])}
    requires !outcome.Merged? ==> m'.branches == m.branches && m'.active == m.active && m'.schemas == m.schemas
    requires m'.nextBranch == m.nextBranch && m'.commits == m.commits
    ensures MetaStep(m, if outcome.Merged? then Merges(id.value) else Fails, m')
  {
    hide Fold;
  }

  lemma {:induction false} FoldTwice(s: string)
    ensures Fold(Fold(s)) == Fold(s) && |Fold(s)| == |s|
  {
    if s != [] {
      FoldTwice(s[1..]);
    }
  }

  lemma {:induction false} FoldOfSum(s: string, t: string)
    ensures Fold(s + t) == Fold(s) + Fold(t)
  {
    if s == [] {
      assert s + t == t;
    } else {
      assert (s + t)[1..] == s[1..] + t;
      FoldOfSum(s[1..], t);
    }
  }

  /** The invariant is lost in practice: a name and its lower-case form are different names with one
      schema.  Once a branch is merged, its lower-case namesake can be created; dropping the merged
      branch then drops the schema of the open one. */
  lemma MergedNamesakeTakesSchema(branches: map<int, Branch>, schemas: set<string>, merged: int, open: int)
    requires NamesOk(branches) && SchemasOk(branches, schemas)
    requires merged in branches && branches[merged].status == Status.Merged
    requires open in branches && Open(branches[open]) && branches[open].name == Fold(branches[merged].name)
    ensures SchemaOf(branches[open]) in schemas
    ensures SchemaOf(branches[open]) !in schemas - {SchemaOf(branches[merged])}
    ensures !SchemasOk(branches[merged := AsDropped(branches[merged], merged)], schemas - {SchemaOf(branches[merged])})
  {
    FoldTwice(branches[merged].name);
    FoldOfSum("chuck_", branches[merged].name);
    FoldOfSum("chuck_", branches[open].name);
    DropKeepsSchemasIff(branches, schemas, merged);
  }

  function Named(name: string, now: int, tables: seq<Table>, fks: seq<FK>): Branch {
    Branch(name, "chuck_" + name, None, None, Active, None, now, tables, fks)
  }

  lemma FoosShareSchema(now: int, tables: seq<Table>, fks: seq<FK>)
    ensures SchemaOf(Named("Foo", now, tables, fks)) == SchemaOf(Named("foo", now, tables, fks))
  {
    FoldOfSum("chuck_", "Foo");
    FoldOfSum("chuck_", "foo");
    assert "Foo"[1..] == "foo"[1..];
  }

  lemma DroppedFooIsNotTaken(merged: Branch, lower: Branch)
    requires merged.name == "Foo" && lower.name == "foo"
    ensures !Taken(map[1 := merged, 2 := lower], AsDropped(merged, 1).name)
  {
    assert |AsDropped(merged, 1).name| > 3;
    assert |"foo"| == 3 && |"Foo"| == 3;
  }

  /** The run: create Foo, merge it, create foo, drop Foo.  The branch foo is open and has lost its
      schema. */
  lemma DroppingFooTakesSchemaOfFoo(now: int, tables: seq<Table>, fks: seq<FK>) returns (ms: seq<Meta>, ops: seq<Op>)
    ensures MetaRun(ms, ops) && |ops| == 4 && 2 in ms[4].branches && ms[4].branches[2].name == "foo"
    ensures Open(ms[4].branches[2]) && SchemaOf(ms[4].branches[2]) !in ms[4].schemas
  {
    var upper, lower := Named("Foo", now, tables, fks), Named("foo", now, tables, fks);
    FoosShareSchema(now, tables, fks);
    var q := SchemaOf(lower);
    var merged := upper.(status := Status.Merged, lockedAt := None);
    assert SchemaOf(merged) == SchemaOf(upper);
    assert "Foo" != "foo" by {
      assert "Foo"[0] != "foo"[0];
    }
    hide SchemaOf, Fold, DroppedSuffix, MetaStep, AsDropped;
    ops := [Creates(upper), Merges(1), Creates(lower), Drops(1)];
    ms := [
      Meta(map[], 1, None, [], {}),
      Meta(map[1 := upper], 2, Some(1), [], {q}),
      Meta(map[1 := merged], 2, None, [], {}),
      Meta(map[1 := merged, 2 := lower], 3, Some(2), [], {q}),
      Meta(map[1 := AsDropped(merged, 1), 2 := lower], 3, Some(2), [], {})];
    FooSteps(upper, merged, lower, q);
  }

  lemma FooSteps(upper: Branch, merged: Branch, lower: Branch, q: string)
    requires upper == Named("Foo", upper.createdAt, upper.tables, upper.fks)
    requires lower == Named("foo", lower.createdAt, lower.tables, lower.fks)
    requires merged == upper.(status := Status.Merged, lockedAt := None)
    requires SchemaOf(upper) == q && SchemaOf(merged) == q && SchemaOf(lower) == q && "Foo" != "foo"
    ensures MetaStep(Meta(map[], 1, None, [], {}), Creates(upper), Meta(map[1 := upper], 2, Some(1), [], {q}))
    ensures MetaStep(Meta(map[1 := upper], 2, Some(1), [], {q}), Merges(1), Meta(map[1 := merged], 2, None, [], {}))
    ensures MetaStep(Meta(map[1 := merged], 2, None, [], {}), Creates(lower),
                     Meta(map[1 := merged, 2 := lower], 3, Some(2), [], {q}))
    ensures MetaStep(Meta(map[1 := merged, 2 := lower], 3, Some(2), [], {q}), Drops(1),
                     Meta(map[1 := AsDropped(merged, 1), 2 := lower], 3, Some(2), [], {}))
  {
    DroppedFooIsNotTaken(merged, lower);
    hide SchemaOf, Fold, DroppedSuffix, AsDropped;
    assert map[1 := merged, 2 := lower][1 := AsDropped(merged, 1)] == map[1 := AsDropped(merged, 1), 2 := lower];
  }
}
