/** Why cascades need the overlay tier: against a view in passthrough tier a DELETE trigger does not see
    its own tombstones.  Tiers switch table by table, so that some views hide deleted rows and others
    do not. */
module Passthrough {
  import opened Store
  import opened Cascade

  /** A row below r, by CASCADE, that the views show and that was not deleted through an overlay. */
  predicate Below(fks: seq<FK>, shown: Image, gone: set<RowId>, r: RowId, x: RowId) {
    x in shown && x !in gone && CascadesInto(fks, x, shown[x], {r})
  }

  /** What the trigger of x hides: its tombstone counts only in an overlay view. */
  function Hidden(overlay: set<Table>, gone: set<RowId>, x: RowId): set<RowId> {
    if x.t in overlay then gone + {x} else gone
  }

  /** Every path of trigger calls from r's DELETE trigger on ends within the given depth.  The rows gone
      are those that calls on the path deleted through overlay views. */
  predicate Ends(fks: seq<FK>, shown: Image, overlay: set<Table>, gone: set<RowId>, r: RowId, depth: nat)
    decreases depth
  {
    depth > 0 && forall x :: x in shown && Below(fks, shown, gone, r, x) ==>
      Ends(fks, shown, overlay, Hidden(overlay, gone, x), x, depth - 1)
  }

  ghost predicate EndsSometime(fks: seq<FK>, shown: Image, overlay: set<Table>, gone: set<RowId>, r: RowId) {
    exists depth: nat :: Ends(fks, shown, overlay, gone, r, depth)
  }

  /** Rows of passthrough views, each referenced, by CASCADE, by another of them. */
  ghost predicate Endless(fks: seq<FK>, shown: Image, overlay: set<Table>, c: set<RowId>) {
    forall r :: r in c ==> r.t !in overlay && exists x :: x in c && x in shown && CascadesInto(fks, x, shown[x], {r})
  }

  /** The cascade from r leads, through rows that are still shown, into such a set. */
  ghost predicate LeadsToEndless(fks: seq<FK>, shown: Image, overlay: set<Table>, gone: set<RowId>, r: RowId) {
    exists c :: Endless(fks, shown, overlay, c) && c * Reach(fks, shown - gone, {r}) != {}
  }

  /** Only rows of overlay views are ever gone. */
  ghost predicate OverlaysGone(overlay: set<Table>, gone: set<RowId>) {
    forall x :: x in gone ==> x.t in overlay
  }

  // ----- Reaching a row goes through a row below -----

  /** The row and what the rows below it reach without it. */
  function ReachedBelow(fks: seq<FK>, shown: Image, gone: set<RowId>, r: RowId): set<RowId> {
    {r} + set z, y | y in shown - gone && Below(fks, shown, gone, r, y) && z in Reach(fks, shown - gone - {y}, {y}) :: z
  }

  lemma ReachGoesBelow(fks: seq<FK>, shown: Image, overlay: set<Table>, gone: set<RowId>, r: RowId, s: RowId)
    returns (x: RowId)
    requires s in Reach(fks, shown - gone, {r}) && s != r
    ensures Below(fks, shown, gone, r, x) && s in Reach(fks, shown - gone - {x}, {x})
  {
    var v := shown - gone;
    var all := ReachedBelow(fks, shown, gone, r);
    ReachIsLeastClosed(fks, v, {r});
    hide Reach;
    assert Closed(fks, v, all) by {
      forall w, fk | w in v && fk in fks && fk.rule == Rule.Cascade && RefTo(fk, w, v[w], all) ensures w in all {
        BelowReached(fks, shown, gone, r, w, fk);
      }
    }
    assert s in all;
    x :| x in v && Below(fks, shown, gone, r, x) && s in Reach(fks, v - {x}, {x});
  }

  lemma BelowReached(fks: seq<FK>, shown: Image, gone: set<RowId>, r: RowId, w: RowId, fk: FK)
    requires w in shown - gone && fk in fks && fk.rule == Rule.Cascade
    requires RefTo(fk, w, shown[w], ReachedBelow(fks, shown, gone, r))
    ensures w in ReachedBelow(fks, shown, gone, r)
  {
    var v := shown - gone;
    var z := RowId(fk.ref, Id(Val(w, shown[w], fk.col).n));
    if z == r {
      assert RefTo(fk, w, shown[w], {r});
      ReachIsLeastClosed(fks, v - {w}, {w});
      hide Reach;
      assert Below(fks, shown, gone, r, w) && w in Reach(fks, v - {w}, {w});
    } else {
      var y :| y in v && Below(fks, shown, gone, r, y) && z in Reach(fks, v - {y}, {y});
      ReachIsLeastClosed(fks, v - {y}, {y});
      hide Reach;
      if w != y {
        assert w in v - {y} && RefTo(fk, w, (v - {y})[w], Reach(fks, v - {y}, {y}));
      }
    }
  }

  /** A row below leads on: what it reaches, r reaches. */
  lemma BelowIsReached(fks: seq<FK>, shown: Image, gone: set<RowId>, gone': set<RowId>, r: RowId, x: RowId)
    requires Below(fks, shown, gone, r, x) && gone <= gone'
    ensures Reach(fks, shown - gone', {x}) <= Reach(fks, shown - gone, {r})
  {
    var v, v' := shown - gone, shown - gone';
    ReachIsLeastClosed(fks, v, {r});
    ReachIsLeastClosed(fks, v', {x});
    var all := Reach(fks, v, {r});
    hide Reach;
    var fk :| fk in fks && fk.rule == Rule.Cascade && RefTo(fk, x, shown[x], {r});
    assert x in v && RefTo(fk, x, v[x], all);
    assert CascadesInto(fks, x, v[x], all);
    assert Closed(fks, v', all);
  }

  // ----- An endless set never ends -----

  lemma OneFurther(fks: seq<FK>, shown: Image, overlay: set<Table>, gone: set<RowId>, c: set<RowId>, r: RowId)
    returns (x: RowId)
    requires r in c && Endless(fks, shown, overlay, c) && OverlaysGone(overlay, gone)
    ensures x in c && x.t !in overlay && Below(fks, shown, gone, r, x)
  {
    hide CascadesInto;
    x :| x in c && x in shown && CascadesInto(fks, x, shown[x], {r});
  }

  lemma {:induction false} EndlessNeverEnds(fks: seq<FK>, shown: Image, overlay: set<Table>, gone: set<RowId>,
                                            c: set<RowId>,
                                            s: RowId, r: RowId, depth: nat)
    requires Endless(fks, shown, overlay, c) && s in c && s in Reach(fks, shown - gone, {r})
    requires OverlaysGone(overlay, gone)
    ensures !Ends(fks, shown, overlay, gone, r, depth)
    decreases depth
  {
    hide Endless, Reach, Below;
    if depth > 0 {
      var x: RowId, s' := r, s;
      if s == r {
        x := OneFurther(fks, shown, overlay, gone, c, r);
        s' := x;
        ReachHasStart(fks, shown - Hidden(overlay, gone, x), x);
      } else {
        x := ReachGoesBelow(fks, shown, overlay, gone, r, s);
        ReachWithMore(fks, shown, gone, x, Hidden(overlay, gone, x), s);
      }
      BelowIsShown(fks, shown, gone, r, x);
      EndlessNeverEnds(fks, shown, overlay, Hidden(overlay, gone, x), c, s', x, depth - 1);
    }
  }

  lemma BelowIsShown(fks: seq<FK>, shown: Image, gone: set<RowId>, r: RowId, x: RowId)
    requires Below(fks, shown, gone, r, x)
    ensures x in shown
  {
  }

  lemma ReachHasStart(fks: seq<FK>, v: Image, x: RowId)
    ensures x in Reach(fks, v, {x})
  {
    ReachIsLeastClosed(fks, v, {x});
  }

  lemma ReachWithMore(fks: seq<FK>, shown: Image, gone: set<RowId>, x: RowId, hidden: set<RowId>, s: RowId)
    requires s in Reach(fks, shown - gone - {x}, {x}) && hidden <= gone + {x}
    ensures s in Reach(fks, shown - hidden, {x})
  {
    var v, v' := shown - gone - {x}, shown - hidden;
    ReachIsLeastClosed(fks, v, {x});
    ReachIsLeastClosed(fks, v', {x});
    var all := Reach(fks, v', {x});
    hide Reach;
    assert Closed(fks, v, all);
  }

  // ----- Whatever does not end leads to an endless set -----

  lemma {:induction false} DeeperEnds(fks: seq<FK>, shown: Image, overlay: set<Table>, gone: set<RowId>, r: RowId,
                                      depth: nat,
                                      deeper: nat)
    requires Ends(fks, shown, overlay, gone, r, depth) && depth <= deeper
    ensures Ends(fks, shown, overlay, gone, r, deeper)
    decreases depth
  {
    hide Below;
    forall x | x in shown && Below(fks, shown, gone, r, x)
      ensures Ends(fks, shown, overlay, Hidden(overlay, gone, x), x, deeper - 1)
    {
      DeeperEnds(fks, shown, overlay, Hidden(overlay, gone, x), x, depth - 1, deeper - 1);
    }
  }

  lemma {:induction false} CommonDepth(fks: seq<FK>, shown: Image, overlay: set<Table>, gone: set<RowId>,
                                       rows: set<RowId>)
    returns (depth: nat)
    requires forall x :: x in rows ==> EndsSometime(fks, shown, overlay, Hidden(overlay, gone, x), x)
    ensures forall x :: x in rows ==> Ends(fks, shown, overlay, Hidden(overlay, gone, x), x, depth)
  {
    hide Ends;
    depth := 0;
    if rows != {} {
      var r :| r in rows;
      var rest := CommonDepth(fks, shown, overlay, gone, rows - {r});
      var own: nat :| Ends(fks, shown, overlay, Hidden(overlay, gone, r), r, own);
      depth := rest + own;
      forall x | x in rows ensures Ends(fks, shown, overlay, Hidden(overlay, gone, x), x, depth) {
        DeeperEnds(fks, shown, overlay, Hidden(overlay, gone, x), x, if x == r then own else rest, depth);
      }
    }
  }

  lemma EndsWhenBelowEnds(fks: seq<FK>, shown: Image, overlay: set<Table>, gone: set<RowId>, r: RowId)
    requires forall x :: x in shown && Below(fks, shown, gone, r, x) ==>
      EndsSometime(fks, shown, overlay, Hidden(overlay, gone, x), x)
    ensures EndsSometime(fks, shown, overlay, gone, r)
  {
    hide Below, Hidden, EndsSometime;
    var below := set x | x in shown && Below(fks, shown, gone, r, x);
    var depth := CommonDepth(fks, shown, overlay, gone, below);
    assert Ends(fks, shown, overlay, gone, r, depth + 1);
    EndsAtDepth(fks, shown, overlay, gone, r, depth + 1);
  }

  lemma EndsAtDepth(fks: seq<FK>, shown: Image, overlay: set<Table>, gone: set<RowId>, r: RowId, depth: nat)
    requires Ends(fks, shown, overlay, gone, r, depth)
    ensures EndsSometime(fks, shown, overlay, gone, r)
  {
  }

  lemma SomeBelowDoesNotEnd(fks: seq<FK>, shown: Image, overlay: set<Table>, gone: set<RowId>, y: RowId)
    requires !EndsSometime(fks, shown, overlay, gone, y)
    ensures exists x :: x in shown && Below(fks, shown, gone, y, x) && NeverEnds(fks, shown, overlay, gone, x)
  {
    hide Below, EndsSometime;
    if !exists x :: x in shown && Below(fks, shown, gone, y, x) && NeverEnds(fks, shown, overlay, gone, x) {
      EndsWhenBelowEnds(fks, shown, overlay, gone, y);
    }
  }

  /** The trigger of x, called when the rows gone are, starts a path that does not end. */
  ghost predicate NeverEnds(fks: seq<FK>, shown: Image, overlay: set<Table>, gone: set<RowId>, x: RowId) {
    !EndsSometime(fks, shown, overlay, Hidden(overlay, gone, x), x)
  }

  /** A row below leads to no endless set when r does not. */
  lemma BelowLeadsToNone(fks: seq<FK>, shown: Image, overlay: set<Table>, gone: set<RowId>, r: RowId, x: RowId)
    requires !LeadsToEndless(fks, shown, overlay, gone, r) && Below(fks, shown, gone, r, x)
    ensures !LeadsToEndless(fks, shown, overlay, Hidden(overlay, gone, x), x)
  {
    BelowIsReached(fks, shown, gone, Hidden(overlay, gone, x), r, x);
    hide Endless, Reach, Below;
  }

  /** Every path into another overlay view hides one row more; of the others one would be endless. */
  lemma {:induction false} EndsWithoutEndless(fks: seq<FK>, shown: Image, overlay: set<Table>, gone: set<RowId>,
                                              r: RowId)
    requires !LeadsToEndless(fks, shown, overlay, gone, r) && OverlaysGone(overlay, gone)
    ensures EndsSometime(fks, shown, overlay, gone, r)
    decreases shown.Keys - gone, 1
  {
    hide Reach, Endless, EndsSometime, Below, LeadsToEndless;
    if !EndsSometime(fks, shown, overlay, gone, r) {
      var stuck := set y | y in shown && y.t !in overlay && y in Reach(fks, shown - gone, {r})
        && !EndsSometime(fks, shown, overlay, gone, y);
      forall y | y in stuck + {r} ensures GoesOn(fks, shown, gone, stuck, y) {
        var x := StuckGoesOn(fks, shown, overlay, gone, r, y);
        assert x in stuck;
      }
      assert r in stuck + {r} && forall y :: y in stuck ==> y in stuck + {r};
      StuckIsEndless(fks, shown, overlay, gone, r, stuck);
    }
  }

  lemma {:induction false} StuckGoesOn(fks: seq<FK>, shown: Image, overlay: set<Table>, gone: set<RowId>, r: RowId,
                                       y: RowId)
    returns (x: RowId)
    requires !LeadsToEndless(fks, shown, overlay, gone, r) && OverlaysGone(overlay, gone)
    requires y == r || y in Reach(fks, shown - gone, {r})
    requires !EndsSometime(fks, shown, overlay, gone, y)
    ensures x in shown && x.t !in overlay && x in Reach(fks, shown - gone, {r})
    ensures !EndsSometime(fks, shown, overlay, gone, x) && Below(fks, shown, gone, y, x)
    decreases shown.Keys - gone, 0
  {
    hide Reach, Endless, EndsSometime, Below, LeadsToEndless;
    SomeBelowDoesNotEnd(fks, shown, overlay, gone, y);
    x :| x in shown && Below(fks, shown, gone, y, x) && NeverEnds(fks, shown, overlay, gone, x);
    BelowOfReached(fks, shown, gone, r, y, x);
    ReachedLeadsToNone(fks, shown, overlay, gone, r, y);
    if x.t in overlay {
      BelowLeadsToNone(fks, shown, overlay, gone, y, x);
      assert shown.Keys - (gone + {x}) < shown.Keys - gone by {
        assert x in shown.Keys - gone;
      }
      EndsWithoutEndless(fks, shown, overlay, gone + {x}, x);
    }
  }

  lemma BelowOfReached(fks: seq<FK>, shown: Image, gone: set<RowId>, r: RowId, y: RowId, x: RowId)
    requires (y == r || y in Reach(fks, shown - gone, {r})) && Below(fks, shown, gone, y, x)
    ensures x in Reach(fks, shown - gone, {r}) && x !in gone
  {
    var v := shown - gone;
    ReachIsLeastClosed(fks, v, {r});
    hide Reach;
    var fk :| fk in fks && fk.rule == Rule.Cascade && RefTo(fk, x, shown[x], {y});
    assert x in v && RefTo(fk, x, v[x], Reach(fks, v, {r}));
  }

  lemma ReachedLeadsToNone(fks: seq<FK>, shown: Image, overlay: set<Table>, gone: set<RowId>, r: RowId, y: RowId)
    requires !LeadsToEndless(fks, shown, overlay, gone, r) && (y == r || y in Reach(fks, shown - gone, {r}))
    ensures !LeadsToEndless(fks, shown, overlay, gone, y)
  {
    var v := shown - gone;
    ReachIsLeastClosed(fks, v, {r});
    ReachIsLeastClosed(fks, v, {y});
    hide Reach, Endless;
    assert Reach(fks, v, {y}) <= Reach(fks, v, {r});
  }

  ghost predicate GoesOn(fks: seq<FK>, shown: Image, gone: set<RowId>, stuck: set<RowId>, y: RowId) {
    exists x :: x in stuck && Below(fks, shown, gone, y, x)
  }

  lemma StuckIsEndless(fks: seq<FK>, shown: Image, overlay: set<Table>, gone: set<RowId>, r: RowId, stuck: set<RowId>)
    requires forall y :: y in stuck ==> y.t !in overlay && y in Reach(fks, shown - gone, {r})
    requires GoesOn(fks, shown, gone, stuck, r) && forall y :: y in stuck ==> GoesOn(fks, shown, gone, stuck, y)
    ensures LeadsToEndless(fks, shown, overlay, gone, r)
  {
    hide Reach, Endless, Below, GoesOn;
    StuckGoesOnForEver(fks, shown, overlay, gone, stuck);
    var s := OneOn(fks, shown, gone, stuck, r);
    LeadsThere(fks, shown, overlay, gone, r, stuck, s);
  }

  lemma OneOn(fks: seq<FK>, shown: Image, gone: set<RowId>, stuck: set<RowId>, y: RowId) returns (x: RowId)
    requires GoesOn(fks, shown, gone, stuck, y)
    ensures x in stuck && Below(fks, shown, gone, y, x)
  {
    x :| x in stuck && Below(fks, shown, gone, y, x);
  }

  lemma LeadsThere(fks: seq<FK>, shown: Image, overlay: set<Table>, gone: set<RowId>, r: RowId, c: set<RowId>, s: RowId)
    requires Endless(fks, shown, overlay, c) && s in c && s in Reach(fks, shown - gone, {r})
    ensures LeadsToEndless(fks, shown, overlay, gone, r)
  {
    hide Reach, Endless;
    assert s in c * Reach(fks, shown - gone, {r});
  }

  lemma StuckGoesOnForEver(fks: seq<FK>, shown: Image, overlay: set<Table>, gone: set<RowId>, stuck: set<RowId>)
    requires forall y :: y in stuck ==> y.t !in overlay && GoesOn(fks, shown, gone, stuck, y)
    ensures Endless(fks, shown, overlay, stuck)
  {
    hide CascadesInto, GoesOn;
    forall r | r in stuck ensures exists x :: x in stuck && x in shown && CascadesInto(fks, x, shown[x], {r}) {
      var x := OneOn(fks, shown, gone, stuck, r);
    }
  }

  /** A cascading delete of r ends exactly when it does not lead, through the views as they are, into a
      set of rows of passthrough views that reference each other without end.  Where every view is an
      overlay there is no such set. */
  lemma CascadeEndsIff(fks: seq<FK>, base: Image, delta: Delta, overlay: set<Table>, r: RowId)
    ensures
      var shown, gone := Shown(base, delta, overlay), Hidden(overlay, {}, r);
      EndsSometime(fks, shown, overlay, gone, r) <==> !LeadsToEndless(fks, shown, overlay, gone, r)
    ensures (forall x: RowId :: x.t in overlay) ==>
      EndsSometime(fks, Shown(base, delta, overlay), overlay, Hidden(overlay, {}, r), r)
  {
    var shown, gone := Shown(base, delta, overlay), Hidden(overlay, {}, r);
    hide Shown, Reach, Endless;
    if !LeadsToEndless(fks, shown, overlay, gone, r) {
      EndsWithoutEndless(fks, shown, overlay, gone, r);
    } else {
      var c :| Endless(fks, shown, overlay, c) && c * Reach(fks, shown - gone, {r}) != {};
      var s :| s in c * Reach(fks, shown - gone, {r});
      forall depth: nat ensures !Ends(fks, shown, overlay, gone, r, depth) {
        EndlessNeverEnds(fks, shown, overlay, gone, c, s, r, depth);
      }
    }
    if forall x: RowId :: x.t in overlay {
      NoEndlessOverlays(fks, shown, overlay, gone, r);
      EndsWithoutEndless(fks, shown, overlay, gone, r);
    }
  }

  lemma NoEndlessOverlays(fks: seq<FK>, shown: Image, overlay: set<Table>, gone: set<RowId>, r: RowId)
    requires forall x: RowId :: x.t in overlay
    ensures !LeadsToEndless(fks, shown, overlay, gone, r)
  {
    hide Reach;
  }
}
