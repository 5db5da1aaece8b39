/** The names of branches and of their schemas: which names there are, which of them share a schema, and
    when a name is free again after a drop. */
module BranchNames {
  import opened Store
  import opened Merge
  import opened Lifecycle

  // ----- Letter case -----

  /** The same character, or the two cases of a letter from A to Z. */
  predicate SameLetter(c: char, d: char) {
    || c == d
    || ('A' <= c <= 'Z' && 'a' <= d <= 'z' && c as int - 'A' as int == d as int - 'a' as int)
    || ('A' <= d <= 'Z' && 'a' <= c <= 'z' && d as int - 'A' as int == c as int - 'a' as int)
  }

  ghost predicate SameButCase(a: string, b: string) {
    |a| == |b| && forall i :: 0 <= i < |a| ==> SameLetter(a[i], b[i])
  }

  lemma {:induction false} FoldAt(s: string, i: nat)
    requires i < |s|
    ensures |Fold(s)| == |s| && Fold(s)[i] == FoldChar(s[i])
  {
    FoldTwice(s);
    if i > 0 {
      FoldAt(s[1..], i - 1);
    }
  }

  lemma FoldCharIff(c: char, d: char)
    ensures FoldChar(c) == FoldChar(d) <==> SameLetter(c, d)
  {
  }

  lemma FoldIff(a: string, b: string)
    ensures Fold(a) == Fold(b) <==> SameButCase(a, b)
  {
    hide Fold, FoldChar, SameLetter;
    FoldTwice(a);
    FoldTwice(b);
    forall i | 0 <= i < |a| && i < |b| ensures Fold(a)[i] == Fold(b)[i] <==> SameLetter(a[i], b[i]) {
      FoldAt(a, i);
      FoldAt(b, i);
      FoldCharIff(a[i], b[i]);
    }
  }

  /** Two branches have one schema exactly when their names differ in letter case only. */
  lemma SameSchemaIff(a: Branch, b: Branch)
    requires a.schemaName == "chuck_" + a.name && b.schemaName == "chuck_" + b.name
    ensures SchemaOf(a) == SchemaOf(b) <==> SameButCase(a.name, b.name)
  {
    FoldOfSum("chuck_", a.name);
    FoldOfSum("chuck_", b.name);
    FoldIff(a.name, b.name);
    assert SchemaOf(a)[6..] == Fold(a.name) && SchemaOf(b)[6..] == Fold(b.name);
    hide Fold, SameButCase;
  }

  /** The schemas chuck_foo and chuck_meta, the one branch FOO's and the other no branch's. */
  lemma SchemaNames(schemas: set<string>)
    ensures Fold("chuck_" + "FOO") == "chuck_foo"
    ensures forall name :: SameButCase(name, "meta") ==> SchemaTaken(name, schemas)
  {
    FoldOfSum("chuck_", "FOO");
    assert "FOO"[1..] == "OO" && "FOO"[2..] == "O";
    LowerCase("chuck_");
    forall name | SameButCase(name, "meta") ensures SchemaTaken(name, schemas) {
      FoldIff(name, "meta");
      FoldOfSum("chuck_", name);
      LowerCase("meta");
      assert "chuck_" + "meta" == METADATA_SCHEMA;
    }
  }

  lemma {:induction false} LowerCase(s: string)
    requires forall i :: 0 <= i < |s| ==> !('A' <= s[i] <= 'Z')
    ensures Fold(s) == s
  {
    if s != [] {
      LowerCase(s[1..]);
    }
  }

  /** The names that can be given: of letters, digits and underscores, at least one, and so few that
      PostgreSQL does not cut the schema name off at 63. */
  lemma NameOkIff(name: string)
    ensures NameOk(name) <==> 0 < |name| && |"chuck_" + name| <= 63 && forall c :: c in name ==> NameChar(c)
    ensures forall c :: c in ['a', 'z', 'A', 'Z', '0', '9', '_'] ==> NameChar(c)
    ensures forall c :: c in ['`', '{', '@', '[', '/', ':', '-', '.', ' '] ==> !NameChar(c)
  {
  }

  // ----- Ids in names -----

  /** The number that a string of digits stands for. */
  function Number(s: string): int {
    if s == [] then 0 else 10 * Number(s[..|s| - 1]) + s[|s| - 1] as int - '0' as int
  }

  /** A number is written with its digits, and with no more of them than it takes. */
  lemma {:induction false} DigitsAre(n: int)
    requires n >= 0
    ensures Number(Digits(n)) == n && Digits(n) != []
    ensures forall c :: c in Digits(n) ==> '0' <= c <= '9'
    ensures n > 0 ==> Digits(n)[0] != '0'
    decreases n
  {
    if n < 10 {
      assert Digits(n)[..0] == [];
    } else {
      DigitsAre(n / 10);
      assert Digits(n)[..|Digits(n)| - 1] == Digits(n / 10);
    }
  }

  lemma SplitAt(x: string, d: string, y: string, e: string)
    requires x + d == y + e && |x| == |y|
    ensures x == y && d == e
  {
    assert (x + d)[..|x|] == x && (y + e)[..|y|] == y;
    assert (x + d)[|x|..] == d && (y + e)[|y|..] == e;
  }

  /** A name tells which suffix it ends in. */
  lemma SuffixesApart(a: string, i: int, b: string, j: int)
    requires i >= 0 && j >= 0 && a + DroppedSuffix(i) == b + DroppedSuffix(j)
    ensures i == j && a == b
  {
    var x, y := a + "_dropped_", b + "_dropped_";
    assert a + DroppedSuffix(i) == x + Digits(i) && b + DroppedSuffix(j) == y + Digits(j);
    assert x[|x| - 1] == '_' && y[|y| - 1] == '_' && |"_dropped_"| == 9;
    hide Digits, Number, DroppedSuffix;
    DigitsAre(i);
    DigitsAre(j);
    LastUnderscore(x, Digits(i), y, Digits(j));
    LastUnderscore(y, Digits(j), x, Digits(i));
    SplitAt(x, Digits(i), y, Digits(j));
    SplitAt(a, "_dropped_", b, "_dropped_");
  }

  lemma LastUnderscore(x: string, d: string, y: string, e: string)
    requires x + d == y + e && x != [] && x[|x| - 1] == '_'
    requires forall c :: c in e ==> '0' <= c <= '9'
    ensures |x| <= |y|
  {
    assert (x + d)[|x| - 1] == '_';
    assert forall i :: |y| <= i < |y + e| ==> (y + e)[i] == e[i - |y|] && e[i - |y|] in e;
  }

  // ----- Dropping -----

  /** The names of dropped branches end in their ids. */
  ghost predicate DroppedNamesOk(branches: map<int, Branch>) {
    forall i :: i in branches && branches[i].status == Dropped ==> exists a :: branches[i].name == a + DroppedSuffix(i)
  }

  lemma StepKeepsDroppedNames(m: Meta, op: Op, m': Meta)
    requires MetaStep(m, op, m') && DroppedNamesOk(m.branches)
    ensures DroppedNamesOk(m'.branches)
  {
    hide SchemaOf, DroppedSuffix;
    forall i | i in m'.branches && m'.branches[i].status == Dropped
      ensures exists a :: m'.branches[i].name == a + DroppedSuffix(i)
    {
      if op.Drops? && i == op.id {
        assert m'.branches[i].name == m.branches[i].name + DroppedSuffix(i);
      } else {
        assert i in m.branches && m'.branches[i] == m.branches[i];
      }
    }
  }

  lemma {:induction false} RunKeepsDroppedNames(ms: seq<Meta>, ops: seq<Op>, n: nat)
    requires MetaRun(ms, ops) && n <= |ops|
    ensures DroppedNamesOk(ms[n].branches)
  {
    hide MetaStep;
    if n > 0 {
      RunKeepsDroppedNames(ms, ops, n - 1);
      StepKeepsDroppedNames(ms[n - 1], ops[n - 1], ms[n]);
    }
  }

  /** Over any run, the name that a drop gives a branch is free exactly when no branch that is not dropped
      has been given that very name. */
  lemma DropSucceedsIff(ms: seq<Meta>, ops: seq<Op>, n: nat, id: int)
    requires MetaRun(ms, ops) && n <= |ops|
    requires id in ms[n].branches && ms[n].branches[id].status != Dropped
    ensures
      var branches := ms[n].branches;
      Taken(branches, AsDropped(branches[id], id).name) <==>
        exists j :: j in branches && branches[j].status != Dropped
          && branches[j].name == branches[id].name + "_dropped_" + Digits(id)
  {
    var branches := ms[n].branches;
    var name := AsDropped(branches[id], id).name;
    assert name == branches[id].name + "_dropped_" + Digits(id);
    RunKeepsMeta(ms, ops, n);
    RunKeepsDroppedNames(ms, ops, n);
    assert MetaInv(ms[n]) && forall i :: i in branches ==> 1 <= i;
    hide MetaRun, MetaInv, Digits;
    if j :| j in branches && branches[j].name == name && branches[j].status == Dropped {
      var a :| branches[j].name == a + DroppedSuffix(j);
      SuffixesApart(a, j, branches[id].name, id);
    }
  }

  ghost predicate Contains(s: string, part: string) {
    exists a, b :: s == a + part + b
  }

  /** No name given so far has "_dropped_" in it. */
  ghost predicate NoneLooksDropped(ops: seq<Op>, n: nat)
    requires n <= |ops|
  {
    forall i :: 0 <= i < n && ops[i].Creates? ==> !Contains(ops[i].branch.name, "_dropped_")
  }

  lemma {:induction false} NamesLookUndropped(ms: seq<Meta>, ops: seq<Op>, n: nat, id: int)
    requires MetaRun(ms, ops) && n <= |ops| && NoneLooksDropped(ops, n)
    requires id in ms[n].branches && ms[n].branches[id].status != Dropped
    ensures !Contains(ms[n].branches[id].name, "_dropped_")
  {
    hide Contains, SchemaOf;
    if n > 0 {
      assert MetaStep(ms[n - 1], ops[n - 1], ms[n]);
      var before := ms[n - 1].branches;
      if id in before && before[id].name == ms[n].branches[id].name && before[id].status != Dropped {
        NamesLookUndropped(ms, ops, n - 1, id);
      }
    }
  }

  /** Over any run that creates no name with "_dropped_" in it, every branch can be dropped, however often
      its name was used before. */
  lemma DropsAreFree(ms: seq<Meta>, ops: seq<Op>, n: nat, id: int)
    requires MetaRun(ms, ops) && n <= |ops| && NoneLooksDropped(ops, n)
    requires id in ms[n].branches && ms[n].branches[id].status != Dropped
    ensures !Taken(ms[n].branches, AsDropped(ms[n].branches[id], id).name)
  {
    var branches := ms[n].branches;
    DropSucceedsIff(ms, ops, n, id);
    hide MetaRun, Digits, AsDropped, NoneLooksDropped;
    var dropped := branches[id].name + "_dropped_" + Digits(id);
    if j :| j in branches && branches[j].status != Dropped && branches[j].name == dropped {
      assert Contains(branches[j].name, "_dropped_");
      NamesLookUndropped(ms, ops, n, j);
    }
  }
}
