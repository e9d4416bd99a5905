/** The signed area of a closed grid loop counts the cells it winds around. */
module AreaByCells {
  import opened Sums
  import opened Grid
  import opened TraceMask
  import opened Winding
  import opened LoopSides

  /** A rectangle of cells [x0, x1) by [y0, y1) */
  datatype Box = Box(x0: int, y0: int, x1: int, y1: int)
  {
    ghost predicate Has(c: Pt) {
      x0 <= c.x < x1 && y0 <= c.y < y1
    }
    ghost predicate Holds(lp: seq<Pt>) {
      forall p <- lp :: x0 <= p.x <= x1 && y0 <= p.y <= y1
    }
  }

  ghost function RowSum(f: Pt -> int, y: int, x0: int, x1: int): int
    decreases x1 - x0
  {
    if x1 <= x0 then 0 else RowSum(f, y, x0, x1 - 1) + f(Pt(x1 - 1, y))
  }

  ghost function BoxSum(f: Pt -> int, b: Box): int
    decreases b.y1 - b.y0
  {
    if b.y1 <= b.y0 then 0
    else BoxSum(f, b.(y1 := b.y1 - 1)) + RowSum(f, b.y1 - 1, b.x0, b.x1)
  }

  lemma {:induction false} RowSumLinear(f: Pt -> int, g: Pt -> int, h: Pt -> int, y: int, x0: int, x1: int)
    requires forall c :: f(c) == g(c) + h(c)
    ensures RowSum(f, y, x0, x1) == RowSum(g, y, x0, x1) + RowSum(h, y, x0, x1)
    decreases x1 - x0
  {
    if x0 < x1 {
      RowSumLinear(f, g, h, y, x0, x1 - 1);
    }
  }

  lemma {:induction false} BoxSumLinear(f: Pt -> int, g: Pt -> int, h: Pt -> int, b: Box)
    requires forall c :: f(c) == g(c) + h(c)
    ensures BoxSum(f, b) == BoxSum(g, b) + BoxSum(h, b)
    decreases b.y1 - b.y0
  {
    if b.y0 < b.y1 {
      BoxSumLinear(f, g, h, b.(y1 := b.y1 - 1));
      RowSumLinear(f, g, h, b.y1 - 1, b.x0, b.x1);
    }
  }

  lemma {:induction false} RowSumZero(f: Pt -> int, y: int, x0: int, x1: int)
    requires forall c: Pt :: c.y == y ==> f(c) == 0
    ensures RowSum(f, y, x0, x1) == 0
    decreases x1 - x0
  {
    if x0 < x1 {
      RowSumZero(f, y, x0, x1 - 1);
    }
  }

  lemma {:induction false} RowSumMonotone(f: Pt -> int, g: Pt -> int, y: int, x0: int, x1: int)
    requires forall c :: f(c) <= g(c)
    ensures RowSum(f, y, x0, x1) <= RowSum(g, y, x0, x1)
    ensures (exists x :: x0 <= x < x1 && f(Pt(x, y)) < g(Pt(x, y))) ==> RowSum(f, y, x0, x1) < RowSum(g, y, x0, x1)
    decreases x1 - x0
  {
    if x0 < x1 {
      RowSumMonotone(f, g, y, x0, x1 - 1);
      assert f(Pt(x1 - 1, y)) <= g(Pt(x1 - 1, y));
    }
  }

  lemma {:induction false} BoxSumMonotone(f: Pt -> int, g: Pt -> int, b: Box)
    requires forall c :: f(c) <= g(c)
    ensures BoxSum(f, b) <= BoxSum(g, b)
    ensures (exists c :: b.Has(c) && f(c) < g(c)) ==> BoxSum(f, b) < BoxSum(g, b)
    decreases b.y1 - b.y0
  {
    if b.y0 < b.y1 {
      var y := b.y1 - 1;
      BoxSumMonotone(f, g, b.(y1 := y));
      RowSumMonotone(f, g, y, b.x0, b.x1);
      if c :| b.Has(c) && f(c) < g(c) {
        if c.y == y {
          assert c == Pt(c.x, y);
        } else {
          assert b.(y1 := y).Has(c);
        }
      }
    }
  }

  // ---- one edge

  function CrossedBy(e: Edge): Pt -> int { (c: Pt) => CrossAt(e, c) }

  /** 1 for an edge going up, -1 for one going down */
  function Rise(e: Edge): int { e.src.y - e.dst.y }

  lemma {:induction false} RowCrossings(e: Edge, x0: int, x1: int)
    requires Unit(e) && e.src.x == e.dst.x && x0 <= e.src.x <= x1
    ensures RowSum(CrossedBy(e), if e.src.y < e.dst.y then e.src.y else e.dst.y, x0, x1) == Rise(e) * (x1 - e.src.x)
    decreases x1 - x0
  {
    var f, y := CrossedBy(e), if e.src.y < e.dst.y then e.src.y else e.dst.y;
    if x1 == e.src.x {
      LeftOfEdge(e, y, x0, x1);
    } else {
      RowCrossings(e, x0, x1 - 1);
      assert f(Pt(x1 - 1, y)) == Rise(e);
      assert Rise(e) * (x1 - e.src.x) == Rise(e) * (x1 - 1 - e.src.x) + Rise(e);
    }
  }

  lemma {:induction false} LeftOfEdge(e: Edge, y: int, x0: int, x1: int)
    requires x1 <= e.src.x
    ensures RowSum(CrossedBy(e), y, x0, x1) == 0
    decreases x1 - x0
  {
    if x0 < x1 {
      LeftOfEdge(e, y, x0, x1 - 1);
    }
  }

  /** An edge is crossed by the rays of all cells to its right in the box. */
  lemma {:induction false} BoxCrossings(e: Edge, b: Box)
    requires Unit(e) && b.x0 <= e.src.x <= b.x1 && b.y0 <= e.src.y && b.y0 <= e.dst.y
    ensures e.src.x == e.dst.x && e.src.y <= b.y1 && e.dst.y <= b.y1 ==>
      BoxSum(CrossedBy(e), b) == Rise(e) * (b.x1 - e.src.x)
    ensures e.src.x != e.dst.x || (if e.src.y < e.dst.y then e.src.y else e.dst.y) >= b.y1 ==>
      BoxSum(CrossedBy(e), b) == 0
    decreases b.y1 - b.y0
  {
    var f := CrossedBy(e);
    if b.y0 < b.y1 {
      BoxCrossings(e, b.(y1 := b.y1 - 1));
      if e.src.x == e.dst.x && (if e.src.y < e.dst.y then e.src.y else e.dst.y) == b.y1 - 1 {
        RowCrossings(e, b.x0, b.x1);
      } else {
        RowSumZero(f, b.y1 - 1, b.x0, b.x1);
      }
    }
  }

  // ---- a whole loop

  ghost function WindOf(es: seq<Edge>): Pt -> int { (c: Pt) => Sum(Crossing(c), es) }

  /** Twice the area to the right of an edge, within the box, signed by its direction */
  function Strip(b: Box): Edge -> int {
    (e: Edge) => if e.src.x == e.dst.x then 2 * (Rise(e) * (b.x1 - e.src.x)) else 0
  }

  lemma {:induction false} CellsByStrips(es: seq<Edge>, b: Box)
    requires forall e <- es :: Unit(e) && b.x0 <= e.src.x <= b.x1 && b.y0 <= e.src.y <= b.y1 && b.y0 <= e.dst.y <= b.y1
    ensures 2 * BoxSum(WindOf(es), b) == Sum(Strip(b), es)
  {
    if es == [] {
      NoCells(b);
    } else {
      var n := |es| - 1;
      assert es[n] in es;
      CellsByStrips(es[..n], b);
      BoxSumLinear(WindOf(es), WindOf(es[..n]), CrossedBy(es[n]), b);
      BoxCrossings(es[n], b);
    }
  }

  lemma {:induction false} NoCells(b: Box)
    ensures BoxSum(WindOf([]), b) == 0
    decreases b.y1 - b.y0
  {
    if b.y0 < b.y1 {
      NoCells(b.(y1 := b.y1 - 1));
      RowSumZero(WindOf([]), b.y1 - 1, b.x0, b.x1);
    }
  }

  function Corner(b: Box): Pt -> int { (p: Pt) => 2 * b.x1 * p.y - p.x * p.y }

  lemma ShoelaceByStrip(b: Box, e: Edge)
    requires Unit(e)
    ensures Shoelace()(e) == Strip(b)(e) + Gradient(Corner(b))(e)
  {
  }

  /** Half the shoelace sum of a closed grid loop is the number of cells it winds around, counted with sign. */
  lemma AreaCountsCells(lp: seq<Pt>, b: Box)
    requires UnitLoop(lp) && b.Holds(lp)
    ensures Area(lp) == 2 * BoxSum(WindOf(Edges(lp)), b)
  {
    var es := Edges(lp);
    forall e <- es ensures Shoelace()(e) == Strip(b)(e) + Gradient(Corner(b))(e) { ShoelaceByStrip(b, e); }
    SumLinear(Shoelace(), Strip(b), Gradient(Corner(b)), es);
    ClosedLoopSumsToZero(Corner(b), lp);
    forall e <- es ensures e.src in lp && e.dst in lp {
    }
    CellsByStrips(es, b);
  }

  lemma {:induction false} HasBox(lp: seq<Pt>) returns (b: Box)
    ensures b.Holds(lp)
  {
    if lp == [] {
      b := Box(0, 0, 0, 0);
    } else {
      var p := lp[0];
      var rest := HasBox(lp[1..]);
      b := Join(rest, Box(p.x, p.y, p.x, p.y));
      assert lp == [p] + lp[1..];
    }
  }

  function Min(a: int, b: int): int { if a < b then a else b }

  function Max(a: int, b: int): int { if a < b then b else a }

  function Join(a: Box, b: Box): Box {
    Box(Min(a.x0, b.x0), Min(a.y0, b.y0), Max(a.x1, b.x1), Max(a.y1, b.y1))
  }

  /** Outside its box a loop winds around nothing. */
  lemma OutsideBox(lp: seq<Pt>, b: Box, c: Pt)
    requires UnitLoop(lp) && b.Holds(lp) && !b.Has(c)
    ensures Wind(lp, c) == 0
  {
    var es := Edges(lp);
    if c.x < b.x0 || c.y < b.y0 || c.y >= b.y1 {
      forall e <- es ensures CrossAt(e, c) == 0 {
        assert e.src in lp && e.dst in lp;
      }
      SumZero(Crossing(c), es);
    } else {
      var above := (p: Pt) => Tally(p.y <= c.y);
      forall e <- es ensures CrossAt(e, c) == Gradient(above)(e) {
        assert e.src in lp && e.dst in lp;
      }
      SumEqual(Crossing(c), Gradient(above), es);
      ClosedLoopSumsToZero(above, lp);
    }
  }
}
