/**
 Outer loops alone fill the mask and everything it encloses: a cell lies inside some outer loop
 exactly when no path of empty cells leads from it out of the mask's bounding box.
 */
module SolidFill {
  import opened Sums
  import opened Grid
  import opened TraceMask
  import opened Winding
  import opened LoopSides
  import opened AreaByCells
  import opened Nesting

  /** Beyond the mask altogether, on one side */
  ghost predicate Outside(mask: set<Pt>, c: Pt) {
    || (forall m <- mask :: c.x < m.x)
    || (forall m <- mask :: c.x > m.x)
    || (forall m <- mask :: c.y < m.y)
    || (forall m <- mask :: c.y > m.y)
  }

  /** Some path over side-by-side empty cells leads out. */
  ghost predicate Escapes(mask: set<Pt>, c: Pt) {
    exists d :: Empty(mask).Linked(c, d) && Outside(mask, d)
  }

  /** The mask with everything it encloses */
  ghost predicate Solid(mask: set<Pt>, c: Pt) { !Escapes(mask, c) }

  lemma MaskIsSolid(mask: set<Pt>, c: Pt)
    requires c in mask
    ensures Solid(mask, c)
  {
  }

  // ---- no loop winds around a cell that can escape

  lemma VertexNearMask(mask: set<Pt>, lp: seq<Pt>, p: Pt) returns (m: Pt)
    requires LoopOf(mask, lp) && p in lp
    ensures m in mask && m.x <= p.x <= m.x + 1 && m.y <= p.y <= m.y + 1
  {
    var i :| 0 <= i < |lp| && lp[i] == p;
    var e := Edges(lp)[i];
    LoopEdge(mask, lp, e);
    m := RightCell(e);
  }

  lemma NoWindOutside(mask: set<Pt>, lp: seq<Pt>, c: Pt)
    requires LoopOf(mask, lp) && Outside(mask, c)
    ensures Wind(lp, c) == 0
  {
    LoopIsUnit(mask, lp);
    var b := HasBox(lp);
    b := if forall m <- mask :: c.x < m.x then b.(x0 := c.x + 1)
         else if forall m <- mask :: c.x > m.x then b.(x1 := c.x)
         else if forall m <- mask :: c.y < m.y then b.(y0 := c.y + 1)
         else b.(y1 := c.y);
    forall p | p in lp ensures b.x0 <= p.x <= b.x1 && b.y0 <= p.y <= b.y1 {
      var m := VertexNearMask(mask, lp, p);
    }
    OutsideBox(lp, b, c);
  }

  lemma NoWindIfEscapes(mask: set<Pt>, lp: seq<Pt>, c: Pt)
    requires LoopOf(mask, lp) && Escapes(mask, c)
    ensures Wind(lp, c) == 0
  {
    var d :| Empty(mask).Linked(c, d) && Outside(mask, d);
    WindOverRegion(mask, lp, c, d);
    NoWindOutside(mask, lp, d);
  }

  // ---- some loop winds backwards around an enclosed empty cell

  lemma {:induction false} MaskBox(mask: set<Pt>) returns (b: Box)
    ensures forall m <- mask :: b.Has(m)
    decreases |mask|
  {
    if mask == {} {
      b := Box(0, 0, 0, 0);
    } else {
      var m := Pick(mask);
      var rest := MaskBox(mask - {m});
      b := Join(rest, Box(m.x, m.y, m.x + 1, m.y + 1));
      forall n | n in mask ensures b.Has(n) {
        assert n == m || n in mask - {m};
      }
    }
  }

  /** All cells of the empty region of c */
  ghost predicate RegionOf(mask: set<Pt>, c: Pt, region: set<Pt>) {
    forall d :: d in region <==> Empty(mask).Linked(c, d)
  }

  lemma EnclosedRegionIsFinite(mask: set<Pt>, c: Pt) returns (region: set<Pt>)
    requires Solid(mask, c)
    ensures RegionOf(mask, c, region)
  {
    var b := MaskBox(mask);
    region := set x, y | b.x0 <= x < b.x1 && b.y0 <= y < b.y1 && Empty(mask).Linked(c, Pt(x, y)) :: Pt(x, y);
    forall d | Empty(mask).Linked(c, d) ensures d in region {
      assert !Outside(mask, d);
      assert d == Pt(d.x, d.y);
    }
  }

  /** Crossings by the edges that touch the region */
  ghost function Touching(region: set<Pt>, c: Pt): Edge -> int {
    (e: Edge) => if LeftCell(e) in region || RightCell(e) in region then CrossAt(e, c) else 0
  }

  lemma TouchingAntisymmetric(region: set<Pt>, c: Pt)
    ensures Antisymmetric(Touching(region, c))
  {
  }

  lemma SidesTouch(region: set<Pt>, c: Pt, r: Pt)
    requires r in region
    ensures SideWeight(Touching(region, c))(r) == Tally(c == r)
  {
    var w, v, s := Crossing(c), Touching(region, c), Sides(r);
    forall i | 0 <= i < 4 ensures v(s[i]) == w(s[i]) {
      SidesOfCell(s[i], r);
    }
    CellCrossing(c, r);
  }

  lemma RegionTouches(region: set<Pt>, c: Pt)
    requires c in region
    ensures SetSum(SideWeight(Touching(region, c)), region) == 1
  {
    var v, w := SideWeight(Touching(region, c)), SideWeight(Crossing(c));
    forall r | r in region ensures v(r) == w(r) {
      SidesTouch(region, c, r);
      CellCrossing(c, r);
    }
    SetSumEqual(v, w, region);
    CellCrossings(c, region);
  }

  lemma NothingTouchesFilled(mask: set<Pt>, c: Pt, region: set<Pt>)
    requires RegionOf(mask, c, region)
    ensures SetSum(Touching(region, c), Boundary(mask + region)) == 0
  {
    var v := Touching(region, c);
    forall e | e in Boundary(mask + region) ensures v(e) == 0 {
      var r, l := RightCell(e), LeftCell(e);
      if r in region {
        Empty(mask).LinkedOn(c, r);
        Empty(mask).LinkedStep(r, l);
        Empty(mask).LinkedTrans(c, r, l);
        assert false;
      }
    }
    SetSumZero(v, Boundary(mask + region));
  }

  /** Around an enclosed empty cell, the edges that touch its region wind once backwards. */
  lemma RegionWindsBackwards(mask: set<Pt>, c: Pt, region: set<Pt>)
    requires c !in mask && RegionOf(mask, c, region)
    ensures SetSum(Touching(region, c), Boundary(mask)) == -1
  {
    var v := Touching(region, c);
    Empty(mask).LinkedSelf(c);
    forall d | d in region ensures d !in mask { Empty(mask).LinkedOn(c, d); }
    TouchingAntisymmetric(region, c);
    BalanceLaw(v, mask);
    BalanceLaw(v, mask + region);
    SetSumUnion(SideWeight(v), mask, region);
    NothingTouchesFilled(mask, c, region);
    RegionTouches(region, c);
  }

  ghost function WeightOf(w: Edge -> int): seq<Pt> -> int { (lp: seq<Pt>) => Sum(w, Edges(lp)) }

  /** A loop with any weight on the region's edges has the whole region on its left. */
  lemma TouchingLoop(mask: set<Pt>, lp: seq<Pt>, c: Pt, region: set<Pt>)
    requires LoopOf(mask, lp) && RegionOf(mask, c, region)
    ensures Sum(Touching(region, c), Edges(lp)) == 0 || Sum(Touching(region, c), Edges(lp)) == Wind(lp, c)
  {
    var es, v, empty := Edges(lp), Touching(region, c), Empty(mask);
    forall e | e in es ensures RightCell(e) !in region {
      LoopEdge(mask, lp, e);
      if RightCell(e) in region { empty.LinkedOn(c, RightCell(e)); }
    }
    if LeftCell(es[0]) in region {
      forall e | e in es ensures v(e) == Crossing(c)(e) {
        SameLeftRegion(mask, lp, es[0], e);
        empty.LinkedTrans(c, LeftCell(es[0]), LeftCell(e));
      }
      SumEqual(v, Crossing(c), es);
    } else {
      forall e | e in es ensures v(e) == 0 {
        if LeftCell(e) in region {
          SameLeftRegion(mask, lp, e, es[0]);
          empty.LinkedTrans(c, LeftCell(e), LeftCell(es[0]));
        }
      }
      SumZero(v, es);
    }
  }

  lemma EnclosedByHole(mask: set<Pt>, loops: seq<seq<Pt>>, c: Pt) returns (k: nat)
    requires Traced(mask, loops) && c !in mask && Solid(mask, c)
    ensures k < |loops| && Wind(loops[k], c) < 0
  {
    var region := EnclosedRegionIsFinite(mask, c);
    var v := Touching(region, c);
    RegionWindsBackwards(mask, c, region);
    SumOverLoops(v, WeightOf(v), loops);
    SumOfListing(v, AllEdges(loops), Boundary(mask));
    k := SumHasNegative(WeightOf(v), loops);
    LoopsOfTrace(mask, loops, k);
    TouchingLoop(mask, loops[k], c, region);
  }

  // ---- the theorem

  lemma SolidIsInsideSomeOuter(mask: set<Pt>, loops: seq<seq<Pt>>, c: Pt) returns (k: nat)
    requires Traced(mask, loops) && Solid(mask, c)
    ensures k < |loops| && Area(loops[k]) > 0 && Wind(loops[k], c) == 1
  {
    TracingIsExact(mask, loops, c);
    var w := WindAt(c);
    if c in mask {
      k := SumHasPositive(w, loops);
    } else {
      var h := EnclosedByHole(mask, loops, c);
      if forall i :: 0 <= i < |loops| ==> w(loops[i]) <= 0 {
        SumAtMostTerm(w, loops, h);
        assert false;
      }
      k :| 0 <= k < |loops| && w(loops[k]) > 0;
    }
    LoopsOfTrace(mask, loops, k);
    WindOfKind(mask, loops[k], c);
    AreaTellsKind(mask, loops[k]);
  }

  ghost predicate InsideSomeOuter(loops: seq<seq<Pt>>, c: Pt) {
    exists k :: 0 <= k < |loops| && Area(loops[k]) > 0 && Inside(loops[k], c)
  }

  ghost predicate HasHole(loops: seq<seq<Pt>>) {
    exists k :: 0 <= k < |loops| && Area(loops[k]) < 0
  }

  /** Outer loops cover exactly the mask and what it encloses. */
  lemma OuterLoopsFillSolid(mask: set<Pt>, loops: seq<seq<Pt>>, c: Pt)
    requires Traced(mask, loops)
    ensures Solid(mask, c) <==> InsideSomeOuter(loops, c)
  {
    if Solid(mask, c) {
      var k := SolidIsInsideSomeOuter(mask, loops, c);
      assert Area(loops[k]) > 0 && Inside(loops[k], c);
    } else if k :| 0 <= k < |loops| && Area(loops[k]) > 0 && Inside(loops[k], c) {
      LoopsOfTrace(mask, loops, k);
      NoWindIfEscapes(mask, loops[k], c);
    }
  }

  /** A trace has a hole exactly when the mask encloses some empty cell. */
  lemma HolesAreEnclosures(mask: set<Pt>, loops: seq<seq<Pt>>)
    requires Traced(mask, loops)
    ensures HasHole(loops) <==> (exists c :: c !in mask && Solid(mask, c))
  {
    if k :| 0 <= k < |loops| && Area(loops[k]) < 0 {
      LoopsOfTrace(mask, loops, k);
      AreaTellsKind(mask, loops[k]);
      TwoKinds(mask, loops[k]);
      var e := Edges(loops[k])[0];
      LoopEdge(mask, loops[k], e);
      var c := LeftCell(e);
      if Escapes(mask, c) {
        NoWindIfEscapes(mask, loops[k], c);
      }
      assert c !in mask && Solid(mask, c);
    }
    if c :| c !in mask && Solid(mask, c) {
      var k := EnclosedByHole(mask, loops, c);
      LoopsOfTrace(mask, loops, k);
      WindOfKind(mask, loops[k], c);
      AreaTellsKind(mask, loops[k]);
      assert Area(loops[k]) < 0;
    }
  }
}
