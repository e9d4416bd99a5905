/**
 What the winding number of one traced loop looks like: constant off the loop, one higher on its
 right than on its left, and so either 0 and 1 (an outer loop) or -1 and 0 (the rim of a hole).
 */
module LoopSides {
  import opened Sums
  import opened Grid
  import opened TraceMask
  import opened Winding

  // ---- a closed loop returns to where it started

  function Gradient(phi: Pt -> int): Edge -> int { (e: Edge) => phi(e.dst) - phi(e.src) }

  lemma {:induction false} GradientAlong(phi: Pt -> int, lp: seq<Pt>, k: nat)
    requires 0 < |lp| && k <= |lp|
    ensures Sum(Gradient(phi), Edges(lp)[..k]) == phi(if k < |lp| then lp[k] else lp[0]) - phi(lp[0])
  {
    if k > 0 {
      GradientAlong(phi, lp, k - 1);
      assert Edges(lp)[..k][..k - 1] == Edges(lp)[..k - 1];
    }
  }

  lemma ClosedLoopSumsToZero(phi: Pt -> int, lp: seq<Pt>)
    requires 0 < |lp|
    ensures Sum(Gradient(phi), Edges(lp)) == 0
  {
    GradientAlong(phi, lp, |lp|);
    assert Edges(lp)[..|lp|] == Edges(lp);
  }

  // ---- crossing one edge

  function Count(g: Edge): Edge -> int { (e: Edge) => Tally(e == g) }

  lemma {:induction false} CountIsMultiplicity(g: Edge, es: seq<Edge>)
    ensures Sum(Count(g), es) == multiset(es)[g]
  {
    if es != [] {
      CountIsMultiplicity(g, es[..|es| - 1]);
      assert es == es[..|es| - 1] + [es[|es| - 1]];
    }
  }

  /** Vertices of one row, up to a column; nothing when g is upright. */
  function HalfRow(g: Edge): Pt -> int {
    (p: Pt) => if g.src.x == g.dst.x then 0
               else if g.dst.x > g.src.x then Tally(p.y == g.src.y && p.x <= g.src.x)
               else -Tally(p.y == g.src.y && p.x <= g.dst.x)
  }

  lemma CrossingStep(g: Edge, e: Edge)
    requires Unit(g) && Unit(e)
    ensures CrossAt(e, RightCell(g)) + Count(Rev(g))(e)
         == CrossAt(e, LeftCell(g)) + Count(g)(e) + Gradient(HalfRow(g))(e)
  {
  }

  ghost predicate UnitLoop(lp: seq<Pt>) {
    |lp| > 0 && forall e <- Edges(lp) :: Unit(e)
  }

  /** Across edge g the winding number changes by how often the loop uses g, less how often it uses its reverse. */
  lemma Jump(lp: seq<Pt>, g: Edge)
    requires UnitLoop(lp) && Unit(g)
    ensures Wind(lp, RightCell(g)) == Wind(lp, LeftCell(g)) + multiset(Edges(lp))[g] - multiset(Edges(lp))[Rev(g)]
  {
    var es, right, left := Edges(lp), Crossing(RightCell(g)), Crossing(LeftCell(g));
    var grad := Gradient(HalfRow(g));
    var a := (e: Edge) => right(e) + Count(Rev(g))(e);
    var b := (e: Edge) => left(e) + Count(g)(e);
    SumLinear(a, right, Count(Rev(g)), es);
    SumLinear(b, left, Count(g), es);
    forall e <- es ensures a(e) == b(e) + grad(e) { CrossingStep(g, e); }
    SumLinear(a, b, grad, es);
    ClosedLoopSumsToZero(HalfRow(g), lp);
    CountIsMultiplicity(g, es);
    CountIsMultiplicity(Rev(g), es);
  }

  // ---- one loop of a trace

  /** Closed, made of distinct boundary edges, one-sided */
  ghost predicate LoopOf(mask: set<Pt>, lp: seq<Pt>) {
    |lp| >= 4 && multiset(Edges(lp)) <= multiset(Boundary(mask)) && OneSided(mask, Edges(lp))
  }

  lemma LoopEdge(mask: set<Pt>, lp: seq<Pt>, e: Edge)
    requires LoopOf(mask, lp)
    ensures e in Edges(lp) ==> e in Boundary(mask) && Unit(e)
    ensures multiset(Edges(lp))[e] == Tally(e in Edges(lp))
    ensures e in Edges(lp) ==> Rev(e) !in Edges(lp)
  {
    assert multiset(Edges(lp))[e] <= multiset(Boundary(mask))[e];
    assert multiset(Edges(lp))[Rev(e)] <= multiset(Boundary(mask))[Rev(e)];
    if e in Edges(lp) {
      assert multiset(Edges(lp))[e] > 0;
      NotBothWays(mask, e);
    }
    if Rev(e) in Edges(lp) {
      assert multiset(Edges(lp))[Rev(e)] > 0;
    }
  }

  lemma LoopIsUnit(mask: set<Pt>, lp: seq<Pt>)
    requires LoopOf(mask, lp)
    ensures UnitLoop(lp)
  {
    forall e <- Edges(lp) ensures Unit(e) { LoopEdge(mask, lp, e); }
  }

  /** How often a loop uses an edge */
  ghost function Uses(lp: seq<Pt>, e: Edge): nat { multiset(Edges(lp))[e] }

  ghost function UsesInAll(loops: seq<seq<Pt>>, e: Edge): nat { multiset(AllEdges(loops))[e] }

  lemma UsesOfLast(loops: seq<seq<Pt>>, e: Edge)
    requires loops != []
    ensures UsesInAll(loops, e) == UsesInAll(loops[..|loops| - 1], e) + Uses(loops[|loops| - 1], e)
  {
  }

  lemma {:induction false} LoopInTrace(loops: seq<seq<Pt>>, k: nat, e: Edge)
    requires k < |loops|
    ensures Uses(loops[k], e) <= UsesInAll(loops, e)
  {
    UsesOfLast(loops, e);
    if k < |loops| - 1 {
      LoopInTrace(loops[..|loops| - 1], k, e);
    }
  }

  lemma {:induction false} TwoLoopsInTrace(loops: seq<seq<Pt>>, k: nat, m: nat, e: Edge)
    requires k < m < |loops|
    ensures Uses(loops[k], e) + Uses(loops[m], e) <= UsesInAll(loops, e)
  {
    var front := loops[..|loops| - 1];
    UsesOfLast(loops, e);
    assert front[k] == loops[k];
    if m < |loops| - 1 {
      TwoLoopsInTrace(front, k, m, e);
    } else {
      LoopInTrace(front, k, e);
    }
  }

  /** Each loop of a trace is a loop of the mask. */
  lemma LoopsOfTrace(mask: set<Pt>, loops: seq<seq<Pt>>, k: nat)
    requires Traced(mask, loops) && k < |loops|
    ensures LoopOf(mask, loops[k])
  {
    forall e ensures multiset(Edges(loops[k]))[e] <= multiset(Boundary(mask))[e] {
      LoopInTrace(loops, k, e);
    }
  }

  /** Two loops of a trace share no edge, in either direction. */
  lemma LoopsShareNoEdge(mask: set<Pt>, loops: seq<seq<Pt>>, k: nat, m: nat, e: Edge)
    requires Traced(mask, loops) && k < |loops| && m < |loops| && k != m
    requires e in Edges(loops[k])
    ensures e !in Edges(loops[m]) && Rev(e) !in Edges(loops[m])
  {
    LoopsOfTrace(mask, loops, k);
    LoopsOfTrace(mask, loops, m);
    LoopEdge(mask, loops[k], e);
    LoopEdge(mask, loops[m], e);
    LoopEdge(mask, loops[m], Rev(e));
    NotBothWays(mask, e);
    assert multiset(Boundary(mask))[e] == 1;
    if k < m {
      TwoLoopsInTrace(loops, k, m, e);
    } else {
      TwoLoopsInTrace(loops, m, k, e);
    }
  }

  // ---- stepping from cell to cell

  /** The edge between two neighbouring cells that has a on its right */
  function Between(a: Pt, b: Pt): (g: Edge)
    requires Adj4(a, b)
    ensures Unit(g) && RightCell(g) == a && LeftCell(g) == b
  {
    if b.y < a.y then Edge(a, Pt(a.x + 1, a.y))
    else if b.x > a.x then Edge(Pt(a.x + 1, a.y), Pt(a.x + 1, a.y + 1))
    else if b.y > a.y then Edge(Pt(a.x + 1, a.y + 1), Pt(a.x, a.y + 1))
    else Edge(Pt(a.x, a.y + 1), a)
  }

  /** Stepping between cells: the winding changes only across an edge of the loop. */
  lemma StepWind(mask: set<Pt>, lp: seq<Pt>, a: Pt, b: Pt)
    requires LoopOf(mask, lp) && Adj4(a, b)
    ensures Wind(lp, a) == Wind(lp, b) + Tally(Between(a, b) in Edges(lp)) - Tally(Rev(Between(a, b)) in Edges(lp))
  {
    LoopIsUnit(mask, lp);
    Jump(lp, Between(a, b));
    LoopEdge(mask, lp, Between(a, b));
    LoopEdge(mask, lp, Rev(Between(a, b)));
  }

  /** Between two neighbours that are both empty, or both in the mask, no loop passes. */
  lemma WindOffBoundary(mask: set<Pt>, lp: seq<Pt>, a: Pt, b: Pt)
    requires LoopOf(mask, lp) && Adj4(a, b) && (a in mask <==> b in mask)
    ensures Wind(lp, a) == Wind(lp, b)
  {
    var g := Between(a, b);
    StepWind(mask, lp, a, b);
    LoopEdge(mask, lp, g);
    LoopEdge(mask, lp, Rev(g));
    assert g !in Boundary(mask) && Rev(g) !in Boundary(mask);
  }

  lemma {:induction false} WindAlongPath(mask: set<Pt>, lp: seq<Pt>, p: seq<Pt>, i: nat)
    requires LoopOf(mask, lp) && Empty(mask).Path(p) && i < |p|
    ensures Wind(lp, p[i]) == Wind(lp, p[0])
  {
    if i > 0 {
      WindAlongPath(mask, lp, p, i - 1);
      assert Empty(mask).StepAt(p, i - 1);
      WindOffBoundary(mask, lp, p[i - 1], p[i]);
    }
  }

  /** A loop winds equally around all cells of one empty region. */
  lemma WindOverRegion(mask: set<Pt>, lp: seq<Pt>, a: Pt, b: Pt)
    requires LoopOf(mask, lp) && Empty(mask).Linked(a, b)
    ensures Wind(lp, a) == Wind(lp, b)
  {
    var p :| Empty(mask).Path(p) && p[0] == a && p[|p| - 1] == b;
    WindAlongPath(mask, lp, p, |p| - 1);
  }

  // ---- the two values of a loop

  /** The winding number on the left-hand side of the loop */
  ghost function Level(lp: seq<Pt>): int
    requires |lp| > 0
  {
    Wind(lp, LeftCell(Edges(lp)[0]))
  }

  lemma WindBesideEdge(mask: set<Pt>, lp: seq<Pt>, e: Edge)
    requires LoopOf(mask, lp) && e in Edges(lp)
    ensures Wind(lp, LeftCell(e)) == Level(lp)
    ensures Wind(lp, RightCell(e)) == Level(lp) + 1
  {
    var i :| 0 <= i < |Edges(lp)| && Edges(lp)[i] == e;
    WindOverRegion(mask, lp, LeftCell(Edges(lp)[0]), LeftCell(e));
    LoopIsUnit(mask, lp);
    LoopEdge(mask, lp, e);
    Jump(lp, e);
    LoopEdge(mask, lp, Rev(e));
  }

  ghost predicate LeftBound(lp: seq<Pt>, lo: int) {
    forall p <- lp :: lo <= p.x
  }

  lemma {:induction false} HasLeftBound(lp: seq<Pt>) returns (lo: int)
    ensures LeftBound(lp, lo)
  {
    if lp == [] {
      lo := 0;
    } else {
      lo := HasLeftBound(lp[1..]);
      lo := if lp[0].x < lo then lp[0].x else lo;
      assert lp == [lp[0]] + lp[1..];
    }
  }

  lemma FarLeftIsOutside(lp: seq<Pt>, lo: int, c: Pt)
    requires LeftBound(lp, lo) && c.x < lo
    ensures Wind(lp, c) == 0
  {
    forall e <- Edges(lp) ensures CrossAt(e, c) == 0 {
      assert e.src in lp;
    }
    SumZero(Crossing(c), Edges(lp));
  }

  /** Left of any cell a loop winds around, its row has a first such cell. */
  lemma {:induction false} FirstInRow(lp: seq<Pt>, lo: int, c: Pt) returns (f: Pt)
    requires LeftBound(lp, lo) && Wind(lp, c) != 0
    ensures f.y == c.y && f.x <= c.x && Wind(lp, f) != 0
    ensures forall d: Pt :: d.y == c.y && d.x < f.x ==> Wind(lp, d) == 0
    decreases c.x - lo + 1
  {
    if c.x < lo {
      FarLeftIsOutside(lp, lo, c);
    } else if d: Pt :| d.y == c.y && d.x < c.x && Wind(lp, d) != 0 {
      if d.x < lo { FarLeftIsOutside(lp, lo, d); }
      f := FirstInRow(lp, lo, d);
    } else {
      f := c;
    }
  }

  /** The first cell of a row that the loop winds around lies just beyond one of its edges. */
  lemma FirstIsBesideLoop(mask: set<Pt>, lp: seq<Pt>, f: Pt) returns (e: Edge)
    requires LoopOf(mask, lp) && Wind(lp, f) != 0 && Wind(lp, Pt(f.x - 1, f.y)) == 0
    ensures e in Edges(lp)
    ensures {RightCell(e), LeftCell(e)} == {f, Pt(f.x - 1, f.y)}
  {
    var before := Pt(f.x - 1, f.y);
    StepWind(mask, lp, f, before);
    e := Between(f, before);
    if e !in Edges(lp) {
      e := Rev(e);
    }
  }

  /** The left-hand side of a loop is at level 0 (an outer loop) or -1 (a hole). */
  lemma TwoKinds(mask: set<Pt>, lp: seq<Pt>)
    requires LoopOf(mask, lp)
    ensures Level(lp) == 0 || Level(lp) == -1
  {
    var e0 := Edges(lp)[0];
    WindBesideEdge(mask, lp, e0);
    var lo := HasLeftBound(lp);
    var f := FirstInRow(lp, lo, if Level(lp) != 0 then LeftCell(e0) else RightCell(e0));
    var e := FirstIsBesideLoop(mask, lp, f);
    WindBesideEdge(mask, lp, e);
  }

  /** Everywhere, a loop's winding number is 0 or one of the two values beside it. */
  lemma {:induction false} WindValues(mask: set<Pt>, lp: seq<Pt>, lo: int, c: Pt)
    requires LoopOf(mask, lp) && LeftBound(lp, lo)
    ensures Wind(lp, c) == 0 || Wind(lp, c) == Level(lp) || Wind(lp, c) == Level(lp) + 1
    decreases c.x - lo + 1
  {
    if c.x < lo {
      FarLeftIsOutside(lp, lo, c);
    } else {
      var before := Pt(c.x - 1, c.y);
      var g := Between(c, before);
      StepWind(mask, lp, c, before);
      if g in Edges(lp) {
        WindBesideEdge(mask, lp, g);
      } else if Rev(g) in Edges(lp) {
        WindBesideEdge(mask, lp, Rev(g));
        assert Rev(Rev(g)) == g;
      } else {
        WindValues(mask, lp, lo, before);
      }
    }
  }

  /** An outer loop winds 0 or 1 times around every cell, the rim of a hole -1 or 0 times. */
  lemma WindOfKind(mask: set<Pt>, lp: seq<Pt>, c: Pt)
    requires LoopOf(mask, lp)
    ensures Level(lp) == 0 ==> Wind(lp, c) == 0 || Wind(lp, c) == 1
    ensures Level(lp) != 0 ==> Level(lp) == -1 && (Wind(lp, c) == 0 || Wind(lp, c) == -1)
  {
    var lo := HasLeftBound(lp);
    TwoKinds(mask, lp);
    WindValues(mask, lp, lo, c);
  }
}
