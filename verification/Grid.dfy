/**
 The y-down grid that room outlines are drawn on.

 A `Pt` names a grid-line crossing, and also the cell whose top-left corner it is. A mask is a
 finite set of cells. Its boundary is the set of directed unit edges that have a mask cell on
 their right and an empty cell on their left.
 */
module Grid {

  datatype Pt = Pt(x: int, y: int)
  datatype Edge = Edge(src: Pt, dst: Pt)

  function Rev(e: Edge): Edge { Edge(e.dst, e.src) }

  /** One step along a grid line. */
  predicate Unit(e: Edge) {
    || (e.src.y == e.dst.y && (e.dst.x == e.src.x + 1 || e.dst.x == e.src.x - 1))
    || (e.src.x == e.dst.x && (e.dst.y == e.src.y + 1 || e.dst.y == e.src.y - 1))
  }

  /** The cell on the right of somebody walking along the edge. */
  function RightCell(e: Edge): Pt {
    if e.dst.x > e.src.x then e.src
    else if e.dst.x < e.src.x then Pt(e.dst.x, e.dst.y - 1)
    else if e.dst.y > e.src.y then Pt(e.src.x - 1, e.src.y)
    else e.dst
  }

  function LeftCell(e: Edge): Pt { RightCell(Rev(e)) }

  ghost predicate IsBoundary(mask: set<Pt>, e: Edge) {
    Unit(e) && RightCell(e) in mask && LeftCell(e) !in mask
  }

  /** The four sides of a cell, top, right, bottom and left, each with the cell on its right. */
  function Sides(c: Pt): (s: seq<Edge>)
    ensures |s| == 4
  {
    [Edge(c, Pt(c.x + 1, c.y)),
     Edge(Pt(c.x + 1, c.y), Pt(c.x + 1, c.y + 1)),
     Edge(Pt(c.x + 1, c.y + 1), Pt(c.x, c.y + 1)),
     Edge(Pt(c.x, c.y + 1), c)]
  }

  lemma SidesOfCell(e: Edge, c: Pt)
    ensures e in Sides(c) <==> Unit(e) && RightCell(e) == c
  {
  }

  ghost function Boundary(mask: set<Pt>): (b: set<Edge>)
    ensures forall e :: e in b <==> IsBoundary(mask, e)
  {
    var b := set c, e | c in mask && e in Sides(c) && LeftCell(e) !in mask :: e;
    assert forall e :: e in b <==> IsBoundary(mask, e) by {
      forall e ensures e in b <==> IsBoundary(mask, e) {
        SidesOfCell(e, RightCell(e));
        forall c | c in mask && e in Sides(c) ensures RightCell(e) == c && Unit(e) {
          SidesOfCell(e, c);
        }
      }
    }
    b
  }

  lemma NotBothWays(mask: set<Pt>, e: Edge)
    requires e in Boundary(mask)
    ensures Rev(e) !in Boundary(mask)
  {
  }

  // ---- edges in and out of a vertex

  function Tally(b: bool): int { if b then 1 else 0 }

  ghost function Outgoing(s: set<Edge>, p: Pt): int {
    Tally(Edge(p, Pt(p.x + 1, p.y)) in s) + Tally(Edge(p, Pt(p.x, p.y + 1)) in s) +
    Tally(Edge(p, Pt(p.x - 1, p.y)) in s) + Tally(Edge(p, Pt(p.x, p.y - 1)) in s)
  }

  ghost function Incoming(s: set<Edge>, p: Pt): int {
    Tally(Edge(Pt(p.x + 1, p.y), p) in s) + Tally(Edge(Pt(p.x, p.y + 1), p) in s) +
    Tally(Edge(Pt(p.x - 1, p.y), p) in s) + Tally(Edge(Pt(p.x, p.y - 1), p) in s)
  }

  ghost function Excess(s: set<Edge>, p: Pt): int { Outgoing(s, p) - Incoming(s, p) }

  /** Every vertex of a mask's boundary is left as often as it is entered. */
  lemma BoundaryBalanced(mask: set<Pt>, p: Pt)
    ensures Excess(Boundary(mask), p) == 0
  {
  }

  lemma ExcessAfterRemove(s: set<Edge>, e: Edge, p: Pt)
    requires e in s && Unit(e)
    ensures Excess(s - {e}, p) == Excess(s, p) - Tally(p == e.src) + Tally(p == e.dst)
  {
  }

  lemma PositiveExcess(s: set<Edge>, p: Pt) returns (e: Edge)
    requires Excess(s, p) > 0
    ensures e in s && e.src == p
  {
    e := if Edge(p, Pt(p.x + 1, p.y)) in s then Edge(p, Pt(p.x + 1, p.y))
         else if Edge(p, Pt(p.x, p.y + 1)) in s then Edge(p, Pt(p.x, p.y + 1))
         else if Edge(p, Pt(p.x - 1, p.y)) in s then Edge(p, Pt(p.x - 1, p.y))
         else Edge(p, Pt(p.x, p.y - 1));
  }

  // ---- connected regions

  predicate Adj4(a: Pt, b: Pt) {
    Unit(Edge(a, b))
  }

  predicate Adj8(a: Pt, b: Pt) {
    a != b && -1 <= a.x - b.x <= 1 && -1 <= a.y - b.y <= 1
  }

  /** Where a path may go: over empty cells side by side, or over mask cells that at least touch at a corner. */
  datatype Terrain = Empty(mask: set<Pt>) | Filled(mask: set<Pt>)
  {
    ghost predicate On(a: Pt) {
      if Empty? then a !in mask else a in mask
    }
    ghost predicate Step(a: Pt, b: Pt) {
      On(a) && On(b) && if Empty? then Adj4(a, b) else Adj8(a, b)
    }
    ghost predicate StepAt(p: seq<Pt>, i: nat)
      requires i + 1 < |p|
    {
      Step(p[i], p[i + 1])
    }
    ghost predicate Path(p: seq<Pt>) {
      |p| > 0 && On(p[0]) && forall i :: 0 <= i < |p| - 1 ==> StepAt(p, i)
    }
    /** a and b lie in one connected region of the terrain */
    ghost predicate Linked(a: Pt, b: Pt) {
      exists p :: Path(p) && p[0] == a && p[|p| - 1] == b
    }

    lemma LinkedSelf(a: Pt)
      requires On(a)
      ensures Linked(a, a)
    {
      var p := [a];
      assert Path(p) && p[0] == a && p[|p| - 1] == a;
    }

    lemma LinkedStep(a: Pt, b: Pt)
      requires Step(a, b)
      ensures Linked(a, b)
    {
      var p := [a, b];
      assert Path(p) && p[0] == a && p[|p| - 1] == b;
    }

    lemma LinkedSym(a: Pt, b: Pt)
      requires Linked(a, b)
      ensures Linked(b, a)
    {
      var p :| Path(p) && p[0] == a && p[|p| - 1] == b;
      var q := seq(|p|, i requires 0 <= i < |p| => p[|p| - 1 - i]);
      forall i | 0 <= i < |q| - 1 ensures StepAt(q, i) {
        assert StepAt(p, |p| - 2 - i);
      }
      assert |p| > 1 ==> StepAt(p, |p| - 2);
      assert Path(q) && q[0] == b && q[|q| - 1] == a;
    }

    lemma LinkedTrans(a: Pt, b: Pt, c: Pt)
      requires Linked(a, b) && Linked(b, c)
      ensures Linked(a, c)
    {
      var p :| Path(p) && p[0] == a && p[|p| - 1] == b;
      var q :| Path(q) && q[0] == b && q[|q| - 1] == c;
      var r := p + q[1..];
      forall i | 0 <= i < |r| - 1 ensures StepAt(r, i) {
        if i + 1 < |p| {
          assert StepAt(p, i);
        } else {
          assert StepAt(q, i + 1 - |p|);
          assert r[i] == q[i + 1 - |p|];
        }
      }
      assert Path(r) && r[0] == a && r[|r| - 1] == c;
    }

    lemma LinkedOn(a: Pt, b: Pt)
      requires Linked(a, b)
      ensures On(a) && On(b)
    {
      var p :| Path(p) && p[0] == a && p[|p| - 1] == b;
      assert |p| > 1 ==> StepAt(p, |p| - 2);
    }
  }
}
