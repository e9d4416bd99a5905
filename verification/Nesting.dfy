/**
 Every hole's rim lies inside one outer loop of the same trace that is strictly larger. So the
 loop of largest area always winds positively, which is what ring selection relies on.
 */
module Nesting {
  import opened Sums
  import opened Grid
  import opened TraceMask
  import opened Winding
  import opened LoopSides
  import opened AreaByCells

  /** Cell c lies inside the loop */
  ghost predicate Inside(lp: seq<Pt>, c: Pt) { Wind(lp, c) != 0 }

  ghost predicate IsOuter(lp: seq<Pt>)
    requires |lp| > 0
  {
    Level(lp) == 0
  }

  // ---- the sign of the area tells outer loops from holes

  /** Outer loops have positive area and holes negative, neither is ever zero. */
  lemma AreaTellsKind(mask: set<Pt>, lp: seq<Pt>)
    requires LoopOf(mask, lp)
    ensures IsOuter(lp) ==> Area(lp) > 0
    ensures !IsOuter(lp) ==> Area(lp) < 0
  {
    LoopIsUnit(mask, lp);
    var b := HasBox(lp);
    AreaCountsCells(lp, b);
    var f := WindOf(Edges(lp));
    var zero := (c: Pt) => 0;
    forall c ensures f(c) == Wind(lp, c) && (if IsOuter(lp) then zero(c) <= f(c) else f(c) <= zero(c)) {
      WindOfKind(mask, lp, c);
    }
    ZeroBox(zero, b);
    var e := Edges(lp)[0];
    TwoKinds(mask, lp);
    WindBesideEdge(mask, lp, e);
    var inner := if IsOuter(lp) then RightCell(e) else LeftCell(e);
    if !b.Has(inner) { OutsideBox(lp, b, inner); }
    assert f(inner) != zero(inner);
    if IsOuter(lp) {
      BoxSumMonotone(zero, f, b);
    } else {
      BoxSumMonotone(f, zero, b);
    }
  }

  lemma {:induction false} ZeroBox(zero: Pt -> int, b: Box)
    requires forall c :: zero(c) == 0
    ensures BoxSum(zero, b) == 0
    decreases b.y1 - b.y0
  {
    if b.y0 < b.y1 {
      ZeroBox(zero, b.(y1 := b.y1 - 1));
      RowSumZero(zero, b.y1 - 1, b.x0, b.x1);
    }
  }

  // ---- the outer loop around a hole

  /** Some outer loop winds around the empty cells beside the rim of a hole. */
  lemma OuterAroundRim(mask: set<Pt>, loops: seq<seq<Pt>>, k: nat) returns (m: nat)
    requires Traced(mask, loops) && k < |loops| && !IsOuter(loops[k])
    ensures m < |loops| && m != k && IsOuter(loops[m])
    ensures Wind(loops[m], LeftCell(Edges(loops[k])[0])) == 1
  {
    LoopsOfTrace(mask, loops, k);
    var e := Edges(loops[k])[0];
    var c := LeftCell(e);
    LoopEdge(mask, loops[k], e);
    TracingIsExact(mask, loops, c);
    var w := WindAt(c);
    WindBesideEdge(mask, loops[k], e);
    TwoKinds(mask, loops[k]);
    assert w(loops[k]) == -1;
    if forall i :: 0 <= i < |loops| ==> w(loops[i]) <= 0 {
      SumAtMostTerm(w, loops, k);
      assert false;
    }
    m :| 0 <= m < |loops| && w(loops[m]) > 0;
    LoopsOfTrace(mask, loops, m);
    WindOfKind(mask, loops[m], c);
  }

  /** An outer loop that winds around the rim of a hole at one place does so on both sides all along it. */
  lemma AroundWholeRim(mask: set<Pt>, loops: seq<seq<Pt>>, k: nat, m: nat, e: Edge)
    requires Traced(mask, loops) && k < |loops| && m < |loops| && k != m
    requires Wind(loops[m], LeftCell(Edges(loops[k])[0])) == 1 && e in Edges(loops[k])
    ensures Wind(loops[m], LeftCell(e)) == 1 && Wind(loops[m], RightCell(e)) == 1
  {
    LoopsOfTrace(mask, loops, k);
    LoopsOfTrace(mask, loops, m);
    LoopsShareNoEdge(mask, loops, k, m, e);
    var i :| 0 <= i < |Edges(loops[k])| && Edges(loops[k])[i] == e;
    WindOverRegion(mask, loops[m], LeftCell(Edges(loops[k])[0]), LeftCell(e));
    LoopEdge(mask, loops[k], e);
    LoopIsUnit(mask, loops[m]);
    Jump(loops[m], e);
    LoopEdge(mask, loops[m], e);
    LoopEdge(mask, loops[m], Rev(e));
  }

  /** Loop m is an outer loop around the whole rim k of a hole. */
  ghost predicate Encloses(mask: set<Pt>, loops: seq<seq<Pt>>, m: nat, k: nat) {
    && Traced(mask, loops) && k < |loops| && m < |loops| && k != m
    && IsOuter(loops[m]) && !IsOuter(loops[k])
    && Wind(loops[m], LeftCell(Edges(loops[k])[0])) == 1
  }

  /** Going left from a cell inside the hole but outside the outer loop, the outer loop comes before the rim. */
  lemma {:induction false} OuterEdgeInsideHole(mask: set<Pt>, loops: seq<seq<Pt>>, m: nat, k: nat, lo: int, c: Pt)
    returns (e: Edge)
    requires Encloses(mask, loops, m, k) && LeftBound(loops[k], lo)
    requires Wind(loops[k], c) == -1 && Wind(loops[m], c) == 0
    ensures e in Edges(loops[m]) && Wind(loops[k], LeftCell(e)) == -1
    decreases c.x - lo + 1
  {
    if c.x < lo { FarLeftIsOutside(loops[k], lo, c); }
    LoopsOfTrace(mask, loops, k);
    LoopsOfTrace(mask, loops, m);
    var next := Pt(c.x - 1, c.y);
    var g := Between(c, next);
    assert LeftCell(Rev(g)) == c by { assert Rev(Rev(g)) == g; }
    StepWind(mask, loops[k], c, next);
    StepWind(mask, loops[m], c, next);
    if g in Edges(loops[k]) {
      AroundWholeRim(mask, loops, k, m, g);
    } else if Rev(g) in Edges(loops[k]) {
      AroundWholeRim(mask, loops, k, m, Rev(g));
    } else if g in Edges(loops[m]) {
      WindBesideEdge(mask, loops[m], g);
    } else if Rev(g) in Edges(loops[m]) {
      e := Rev(g);
    } else {
      e := OuterEdgeInsideHole(mask, loops, m, k, lo, next);
    }
  }

  /** No row can start, from the left, with cells inside the hole and outside the outer loop. */
  lemma {:induction false} HoleCannotReachFarLeft(mask: set<Pt>, loops: seq<seq<Pt>>, m: nat, k: nat, lo: int, c: Pt)
    requires Encloses(mask, loops, m, k) && LeftBound(loops[k], lo)
    requires forall d: Pt :: d.y == c.y && d.x <= c.x ==> Wind(loops[m], d) == 0
    ensures Wind(loops[k], c) != -1
    decreases c.x - lo + 1
  {
    if Wind(loops[k], c) == -1 {
      if c.x < lo { FarLeftIsOutside(loops[k], lo, c); }
      LoopsOfTrace(mask, loops, k);
      var next := Pt(c.x - 1, c.y);
      var g := Between(c, next);
      assert LeftCell(Rev(g)) == c by { assert Rev(Rev(g)) == g; }
      StepWind(mask, loops[k], c, next);
      if g in Edges(loops[k]) {
        AroundWholeRim(mask, loops, k, m, g);
      } else if Rev(g) in Edges(loops[k]) {
        AroundWholeRim(mask, loops, k, m, Rev(g));
      } else {
        HoleCannotReachFarLeft(mask, loops, m, k, lo, next);
      }
    }
  }

  /** The left-hand cells of the outer loop are not inside the hole: one of them starts a row. */
  lemma OuterNotInsideHole(mask: set<Pt>, loops: seq<seq<Pt>>, m: nat, k: nat, e: Edge)
    requires Encloses(mask, loops, m, k) && e in Edges(loops[m])
    ensures Wind(loops[k], LeftCell(e)) != -1
  {
    LoopsOfTrace(mask, loops, k);
    LoopsOfTrace(mask, loops, m);
    var lo := HasLeftBound(loops[m]);
    WindBesideEdge(mask, loops[m], e);
    var f := FirstInRow(loops[m], lo, RightCell(e));
    var d := Pt(f.x - 1, f.y);
    var g := FirstIsBesideLoop(mask, loops[m], f);
    WindBesideEdge(mask, loops[m], g);
    SameLeftRegion(mask, loops[m], e, g);
    WindOverRegion(mask, loops[k], LeftCell(e), LeftCell(g));
    var lok := HasLeftBound(loops[k]);
    HoleCannotReachFarLeft(mask, loops, m, k, lok, d);
  }

  /** Whatever lies inside the hole lies inside the outer loop. */
  lemma HoleInsideOuter(mask: set<Pt>, loops: seq<seq<Pt>>, m: nat, k: nat, c: Pt)
    requires Encloses(mask, loops, m, k)
    ensures Inside(loops[k], c) ==> Inside(loops[m], c)
  {
    LoopsOfTrace(mask, loops, k);
    WindOfKind(mask, loops[k], c);
    if Inside(loops[k], c) && !Inside(loops[m], c) {
      var lo := HasLeftBound(loops[k]);
      var e := OuterEdgeInsideHole(mask, loops, m, k, lo, c);
      OuterNotInsideHole(mask, loops, m, k, e);
    }
  }

  lemma SameLeftRegion(mask: set<Pt>, lp: seq<Pt>, e: Edge, g: Edge)
    requires LoopOf(mask, lp) && e in Edges(lp) && g in Edges(lp)
    ensures Empty(mask).Linked(LeftCell(e), LeftCell(g))
  {
    var empty, first := Empty(mask), LeftCell(Edges(lp)[0]);
    var i :| 0 <= i < |Edges(lp)| && Edges(lp)[i] == e;
    var j :| 0 <= j < |Edges(lp)| && Edges(lp)[j] == g;
    empty.LinkedSym(first, LeftCell(e));
    empty.LinkedTrans(LeftCell(e), first, LeftCell(g));
  }

  /** For every hole there is an outer loop that contains it and has strictly more area. */
  lemma LargerOuter(mask: set<Pt>, loops: seq<seq<Pt>>, k: nat) returns (m: nat)
    requires Traced(mask, loops) && k < |loops| && !IsOuter(loops[k])
    ensures m < |loops| && IsOuter(loops[m])
    ensures forall c :: Inside(loops[k], c) ==> Inside(loops[m], c)
    ensures Area(loops[m]) > -Area(loops[k])
  {
    m := OuterAroundRim(mask, loops, k);
    forall c ensures Inside(loops[k], c) ==> Inside(loops[m], c) {
      HoleInsideOuter(mask, loops, m, k, c);
    }
    OuterHasMoreCells(mask, loops, m, k);
  }

  lemma MoreCells(f: Pt -> int, g: Pt -> int, b: Box, r: Pt)
    requires forall c :: 0 <= f(c) + g(c)
    requires b.Has(r) && 0 < f(r) + g(r)
    ensures -BoxSum(f, b) < BoxSum(g, b)
  {
    var sum := (c: Pt) => f(c) + g(c);
    var zero := (c: Pt) => 0;
    BoxSumLinear(sum, f, g, b);
    ZeroBox(zero, b);
    assert zero(r) < sum(r);
    BoxSumMonotone(zero, sum, b);
  }

  lemma HoleAndOuterTogether(mask: set<Pt>, loops: seq<seq<Pt>>, m: nat, k: nat, c: Pt)
    requires Encloses(mask, loops, m, k)
    ensures 0 <= Wind(loops[k], c) + Wind(loops[m], c)
    ensures c == RightCell(Edges(loops[k])[0]) ==> Wind(loops[k], c) == 0 && Wind(loops[m], c) == 1
  {
    LoopsOfTrace(mask, loops, k);
    LoopsOfTrace(mask, loops, m);
    WindOfKind(mask, loops[k], c);
    WindOfKind(mask, loops[m], c);
    HoleInsideOuter(mask, loops, m, k, c);
    var e := Edges(loops[k])[0];
    AroundWholeRim(mask, loops, k, m, e);
    WindBesideEdge(mask, loops[k], e);
    TwoKinds(mask, loops[k]);
  }

  lemma OuterHasMoreCells(mask: set<Pt>, loops: seq<seq<Pt>>, m: nat, k: nat)
    requires Encloses(mask, loops, m, k)
    ensures Area(loops[m]) > -Area(loops[k])
  {
    var hole, outer := loops[k], loops[m];
    LoopsOfTrace(mask, loops, k);
    LoopsOfTrace(mask, loops, m);
    LoopIsUnit(mask, hole);
    LoopIsUnit(mask, outer);
    var bk := HasBox(hole);
    var bm := HasBox(outer);
    var b := Join(bk, bm);
    AreaCountsCells(hole, b);
    AreaCountsCells(outer, b);
    var f, g := WindOf(Edges(hole)), WindOf(Edges(outer));
    forall c ensures 0 <= f(c) + g(c) {
      HoleAndOuterTogether(mask, loops, m, k, c);
      assert f(c) == Wind(hole, c) && g(c) == Wind(outer, c);
    }
    var r := RightCell(Edges(hole)[0]);
    HoleAndOuterTogether(mask, loops, m, k, r);
    if !b.Has(r) { OutsideBox(outer, b, r); }
    MoreCells(f, g, b, r);
  }

  /** The loop of largest absolute area is always an outer loop, whatever the mask and wherever the walks started. */
  lemma LargestIsOuter(mask: set<Pt>, loops: seq<seq<Pt>>, k: nat)
    requires Traced(mask, loops) && k < |loops|
    requires forall j :: 0 <= j < |loops| ==> Abs(Area(loops[j])) <= Abs(Area(loops[k]))
    ensures IsOuter(loops[k]) && Area(loops[k]) > 0
  {
    LoopsOfTrace(mask, loops, k);
    AreaTellsKind(mask, loops[k]);
    if !IsOuter(loops[k]) {
      var m := LargerOuter(mask, loops, k);
    }
  }

  function Abs(n: int): int { if n < 0 then -n else n }
}
