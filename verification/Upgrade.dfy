/** The asynchronous switch of branch views from passthrough to overlay. */
module Upgrade {
  import opened Store

  // ----- What a view in passthrough tier does to an UPDATE -----

  /** UPDATE SET c = v for row r, through the views as they are: a row that is not shown is not updated. */
  function UpdatedThrough(delta: Delta, shown: Image, r: RowId, c: Column, v: Value): Delta {
    if r in shown then Upsert(delta, r, shown[r][c := v], false) else delta
  }

  /** An UPDATE of a row that is shown acts as on the overlay exactly when the view is an overlay, or the
      branch has not touched the row, or has written it live with no difference to base in another
      column. */
  lemma UpdateThroughViewIff(base: Image, delta: Delta, overlay: set<Table>, r: RowId, c: Column, v: Value)
    requires r in Shown(base, delta, overlay)
    ensures
      var through := UpdatedThrough(delta, Shown(base, delta, overlay), r, c, v);
      var asOverlay := UpdatedThrough(delta, View(base, delta), r, c, v);
      View(base, through) == View(base, asOverlay) <==>
        || r.t in overlay || r !in delta
        || (!delta[r].deleted && r in base && delta[r].vals[c := v] == base[r][c := v])
  {
    var shown, view := Shown(base, delta, overlay), View(base, delta);
    ViewOfUpsert(base, delta, r, shown[r][c := v], false);
    if r in view {
      ViewOfUpsert(base, delta, r, view[r][c := v], false);
      assert view[r := shown[r][c := v]][r] == shown[r][c := v] && view[r := view[r][c := v]][r] == view[r][c := v];
    } else {
      assert view[r := shown[r][c := v]] != view;
    }
    hide Upsert;
  }

  /** An UPDATE through a passthrough view revives a row that the branch deleted. */
  lemma PassthroughUpdateRevives(base: Image, delta: Delta, overlay: set<Table>, r: RowId, c: Column, v: Value)
    requires r in base && r in delta && delta[r].deleted && r.t !in overlay
    ensures r !in View(base, delta)
    ensures r in View(base, UpdatedThrough(delta, Shown(base, delta, overlay), r, c, v))
    ensures View(base, UpdatedThrough(delta, View(base, delta), r, c, v)) == View(base, delta)
  {
    assert r in Shown(base, delta, overlay);
    ViewOfUpsert(base, delta, r, Shown(base, delta, overlay)[r][c := v], false);
  }

  /** Two UPDATEs of one row through a view that still passes base through: the second starts from
      base's row again, and what the first wrote is lost. */
  lemma PassthroughUpdateForgets()
    returns (base: Image, r: RowId, delta: Delta, delta': Delta)
    ensures r in base && base[r] == map["a" := Int(0), "b" := Int(0)]
    ensures delta == Upsert(map[], r, Shown(base, map[], {})[r]["a" := Int(1)], false)
    ensures r in Shown(base, delta, {}) && delta' == Upsert(delta, r, Shown(base, delta, {})[r]["b" := Int(1)], false)
    ensures r in View(base, delta) && View(base, delta)[r]["b" := Int(1)] == map["a" := Int(1), "b" := Int(1)]
    ensures r in View(base, delta') && View(base, delta')[r] == map["a" := Int(0), "b" := Int(1)]
  {
    r := RowId("t", Id(1));
    base := map[r := map["a" := Int(0), "b" := Int(0)]];
    delta := Upsert(map[], r, map["a" := Int(1), "b" := Int(0)], false);
    delta' := Upsert(delta, r, map["a" := Int(0), "b" := Int(1)], false);
    assert Shown(base, map[], {}) == base && Shown(base, delta, {}) == base;
    assert map["a" := Int(0), "b" := Int(0)]["a" := Int(1)] == map["a" := Int(1), "b" := Int(0)];
    assert map["a" := Int(0), "b" := Int(0)]["b" := Int(1)] == map["a" := Int(0), "b" := Int(1)];
    assert map["a" := Int(1), "b" := Int(0)]["b" := Int(1)] == map["a" := Int(1), "b" := Int(1)];
  }

  // ----- Notifications -----

  /** A view: its branch schema and its table. */
  datatype Target = Target(schema: string, table: Table)

  function Payload(v: Target): string {
    v.schema + "." + v.table
  }

  /** strings.Split(s, "."). */
  function Split(s: string): (parts: seq<string>)
    ensures parts != []
  {
    if s == [] then [[]]
    else
      var rest := Split(s[1..]);
      if s[0] == '.' then [[]] + rest else [[s[0]] + rest[0]] + rest[1..]
  }

  function Parse(payload: string): Option<Target> {
    var parts := Split(payload);
    if |parts| == 2 then Some(Target(parts[0], parts[1])) else None
  }

  lemma TailOfSum(x: seq<string>, y: seq<string>)
    requires x != []
    ensures (x + y)[0] == x[0] && (x + y)[1..] == x[1..] + y
  {
  }

  lemma SplitFirst(s: string)
    ensures Split(s) == if s == [] then [[]] else
      var rest := Split(s[1..]);
      if s[0] == '.' then [[]] + rest else [[s[0]] + rest[0]] + rest[1..]
  {
  }

  lemma {:induction false} SplitOfParts(a: string, b: string)
    ensures Split(a + "." + b) == Split(a) + Split(b)
  {
    hide Split;
    var s := a + "." + b;
    SplitFirst(s);
    SplitFirst(a);
    if a == [] {
      assert s[0] == '.' && s[1..] == b;
    } else {
      assert s[0] == a[0] && s[1..] == a[1..] + "." + b;
      SplitOfParts(a[1..], b);
      TailOfSum(Split(a[1..]), Split(b));
    }
  }

  lemma {:induction false} SplitWithoutDots(s: string)
    ensures '.' !in s ==> Split(s) == [s]
    ensures '.' in s ==> |Split(s)| > 1
  {
    hide Split;
    SplitFirst(s);
    if s != [] {
      SplitWithoutDots(s[1..]);
      assert s == [s[0]] + s[1..];
    }
  }

  /** A notification is understood exactly when neither name has a dot in it. */
  lemma ParseInvertsPayloadIff(v: Target)
    ensures Parse(Payload(v)) == (if '.' !in v.schema && '.' !in v.table then Some(v) else None)
  {
    SplitOfParts(v.schema, v.table);
    SplitWithoutDots(v.schema);
    SplitWithoutDots(v.table);
  }

  // ----- The protocol -----

  /** The delta tables of each branch schema, the views in overlay tier, the notifications on their
      way, and the upgrades that the listener has started. */
  datatype Protocol = Protocol(deltas: map<string, Delta>, overlay: set<Target>, queue: seq<string>,
                               workers: multiset<Target>)

  datatype Step =
    | Written(schema: string, delta: Delta, views: seq<Target>)
    | Receive
    | Finish(view: Target)

  function DeltaOf(p: Protocol, schema: string): Delta {
    if schema in p.deltas then p.deltas[schema] else map[]
  }

  /** The transaction notifies the view of every table with a new or changed delta row. */
  ghost predicate Notifies(before: Delta, schema: string, after: Delta, views: seq<Target>) {
    forall r :: r in after ==> (r in before && before[r] == after[r]) || Target(schema, r.t) in views
  }

  /** A commit sends one notification per written view.  The listener takes them in order; the
      upgrades it starts run concurrently and finish in any order, and running one twice does no
      harm.  No notification or upgrade is lost. */
  ghost predicate Next(p: Protocol, s: Step, p': Protocol) {
    match s
    case Written(schema, delta, views) =>
      && Notifies(DeltaOf(p, schema), schema, delta, views)
      && p' == p.(deltas := p.deltas[schema := delta],
                  queue := p.queue + seq(|views|, i requires 0 <= i < |views| => Payload(views[i])))
    case Receive =>
      && p.queue != []
      && var v := Parse(p.queue[0]);
      p' == p.(queue := p.queue[1..], workers := if v.Some? then p.workers + multiset{v.value} else p.workers)
    case Finish(view) =>
      view in p.workers && p' == p.(overlay := p.overlay + {view}, workers := p.workers - multiset{view})
  }

  ghost predicate Run(ps: seq<Protocol>, steps: seq<Step>) {
    && |ps| == |steps| + 1
    && ps[0].deltas == map[]
    && forall i :: 0 <= i < |steps| ==> Next(ps[i], steps[i], ps[i + 1])
  }

  ghost predicate Plain(v: Target) {
    '.' !in v.schema && '.' !in v.table
  }

  ghost predicate WritesPlain(steps: seq<Step>) {
    forall i :: 0 <= i < |steps| && steps[i].Written? ==> WritePlain(steps[i])
  }

  ghost predicate WritePlain(s: Step)
    requires s.Written?
  {
    forall r :: r in s.delta ==> Plain(Target(s.schema, r.t))
  }

  ghost predicate CoveredView(p: Protocol, v: Target) {
    Plain(v) && (v in p.overlay || v in p.workers || Payload(v) in p.queue)
  }

  /** The view of a table with delta rows is in overlay tier, or its upgrade is running or on its way. */
  ghost predicate Covered(p: Protocol) {
    forall q, r :: q in p.deltas && r in p.deltas[q] ==> CoveredView(p, Target(q, r.t))
  }

  lemma QueuedIsCovered(p: Protocol, p': Protocol, schema: string, delta: Delta, views: seq<Target>, v: Target)
    requires Next(p, Written(schema, delta, views), p')
    ensures v in views ==> Payload(v) in p'.queue
    ensures Payload(v) in p.queue ==> Payload(v) in p'.queue
  {
    if v in views {
      var i :| 0 <= i < |views| && views[i] == v;
      assert p'.queue[|p.queue| + i] == Payload(v);
    }
  }

  lemma CoveredStays(p: Protocol, s: Step, p': Protocol, v: Target)
    requires CoveredView(p, v) && Next(p, s, p')
    ensures CoveredView(p', v)
  {
    hide Parse, Payload, Notifies;
    match s {
      case Written(schema, delta, views) =>
        QueuedIsCovered(p, p', schema, delta, views, v);
      case Receive =>
        ParseInvertsPayloadIff(v);
        assert p.queue == [p.queue[0]] + p.queue[1..];
      case Finish(_) =>
    }
  }

  lemma NextKeepsCovered(p: Protocol, s: Step, p': Protocol)
    requires Covered(p) && Next(p, s, p')
    requires s.Written? ==> WritePlain(s)
    ensures Covered(p')
  {
    forall q, r | q in p'.deltas && r in p'.deltas[q] ensures CoveredView(p', Target(q, r.t)) {
      if q in p.deltas && r in p.deltas[q] {
        CoveredStays(p, s, p', Target(q, r.t));
      } else {
        QueuedIsCovered(p, p', s.schema, s.delta, s.views, Target(q, r.t));
      }
    }
  }

  function OverlayTables(p: Protocol, schema: string): set<Table> {
    set v | v in p.overlay && v.schema == schema :: v.table
  }

  /** In every interleaving the view of every table with delta rows is covered, so that when nothing
      is under way the views of every branch show its overlay, over any base. */
  lemma {:induction false} QuiescentViewsAreOverlays(ps: seq<Protocol>, steps: seq<Step>, base: Image)
    requires Run(ps, steps) && WritesPlain(steps)
    ensures Covered(ps[|steps|])
    ensures ps[|steps|].queue == [] && ps[|steps|].workers == multiset{} ==>
      forall q :: q in ps[|steps|].deltas ==>
        Shown(base, ps[|steps|].deltas[q], OverlayTables(ps[|steps|], q)) == View(base, ps[|steps|].deltas[q])
  {
    var n := |steps|;
    if steps != [] {
      QuiescentViewsAreOverlays(ps[..n], steps[..n - 1], base);
      NextKeepsCovered(ps[n - 1], steps[n - 1], ps[n]);
    }
    var p := ps[n];
    hide Shown, View, Run, WritesPlain;
    if p.queue == [] && p.workers == multiset{} {
      forall q | q in p.deltas ensures Shown(base, p.deltas[q], OverlayTables(p, q)) == View(base, p.deltas[q]) {
        forall r | r in p.deltas[q] ensures r.t in OverlayTables(p, q) {
          assert CoveredView(p, Target(q, r.t));
          assert Target(q, r.t) in p.overlay;
        }
        ShownIsViewIff(base, p.deltas[q], OverlayTables(p, q));
      }
    }
  }

  /** The protocol relies on plain names: the notification of any other view is dropped.  chuckDB's
      names are plain, as its DDL does not quote them and fails to create a branch over a table with a
      dot in its name. */
  lemma DottedViewIsNeverUpgraded(v: Target, r: RowId, e: Entry) returns (ps: seq<Protocol>, steps: seq<Step>)
    requires !Plain(v) && r.t == v.table
    ensures Run(ps, steps) && |steps| == 2 && ps[2].queue == [] && ps[2].workers == multiset{}
    ensures v.schema in ps[2].deltas && r in ps[2].deltas[v.schema] && v !in ps[2].overlay
  {
    ParseInvertsPayloadIff(v);
    var deltas := map[v.schema := map[r := e]];
    ps := [Protocol(map[], {}, [], multiset{}), Protocol(deltas, {}, [Payload(v)], multiset{}),
           Protocol(deltas, {}, [], multiset{})];
    steps := [Written(v.schema, map[r := e], [v]), Receive];
    hide Parse, Payload;
    assert Next(ps[0], steps[0], ps[1]);
    assert Next(ps[1], steps[1], ps[2]);
  }
}
