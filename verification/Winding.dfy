/**
 Winding numbers of closed grid loops, and the balance law behind every fact about a traced mask:
 a weight that changes sign when an edge is reversed sums over a mask's boundary to its sum over
 the sides of the mask's cells.
 */
module Winding {
  import opened Sums
  import opened Grid
  import opened TraceMask

  // ---- crossings left of a cell centre

  /** How an upright edge crosses the ray that runs left from the centre of cell c: 1 going up, -1 going down. */
  function CrossAt(e: Edge, c: Pt): int {
    if e.src.x == e.dst.x && e.src.x <= c.x then
      if e.dst.y <= c.y < e.src.y then 1
      else if e.src.y <= c.y < e.dst.y then -1
      else 0
    else 0
  }

  function Crossing(c: Pt): Edge -> int { (e: Edge) => CrossAt(e, c) }

  /** Winding number of a closed loop around the centre of cell c */
  ghost function Wind(lp: seq<Pt>, c: Pt): int { Sum(Crossing(c), Edges(lp)) }

  ghost function WindAt(c: Pt): seq<Pt> -> int { (lp: seq<Pt>) => Wind(lp, c) }

  /** Winding number of all the loops together */
  ghost function TotalWind(loops: seq<seq<Pt>>, c: Pt): int { Sum(WindAt(c), loops) }

  // ---- twice the signed area

  function Shoelace(): Edge -> int { (e: Edge) => e.src.x * e.dst.y - e.dst.x * e.src.y }

  ghost function Area(lp: seq<Pt>): int { Sum(Shoelace(), Edges(lp)) }

  ghost function AreaOf(): seq<Pt> -> int { (lp: seq<Pt>) => Area(lp) }

  // ---- the balance law

  ghost predicate Antisymmetric(w: Edge -> int) {
    forall e :: w(Rev(e)) == -w(e)
  }

  function SideWeight(w: Edge -> int): Pt -> int {
    (c: Pt) => w(Sides(c)[0]) + w(Sides(c)[1]) + w(Sides(c)[2]) + w(Sides(c)[3])
  }

  /** The edges after a side of a new cell is taken into account. */
  ghost function Fold(s: set<Edge>, mask: set<Pt>, e: Edge): set<Edge> {
    if LeftCell(e) in mask then s - {Rev(e)} else s + {e}
  }

  lemma FoldWeight(w: Edge -> int, s: set<Edge>, mask: set<Pt>, e: Edge)
    requires Antisymmetric(w)
    requires if LeftCell(e) in mask then Rev(e) in s else e !in s
    ensures SetSum(w, Fold(s, mask, e)) == SetSum(w, s) + w(e)
  {
    if LeftCell(e) in mask {
      SetSumRemove(w, s, Rev(e));
      assert w(Rev(e)) == -w(e);
    } else {
      SetSumAdd(w, s, e);
    }
  }

  /** The boundary of a mask after the first n sides of the new cell c are taken into account. */
  ghost function Folded(mask: set<Pt>, c: Pt, n: nat): set<Edge>
    requires n <= 4
  {
    if n == 0 then Boundary(mask) else Fold(Folded(mask, c, n - 1), mask, Sides(c)[n - 1])
  }

  lemma {:induction false} FoldedMembers(mask: set<Pt>, c: Pt, n: nat, e: Edge)
    requires c !in mask && n <= 4
    ensures e in Folded(mask, c, n) <==>
      (e in Boundary(mask) && !(Rev(e) in Sides(c)[..n])) || (e in Sides(c)[..n] && LeftCell(e) !in mask)
  {
    if n > 0 {
      FoldedMembers(mask, c, n - 1, e);
      var side := Sides(c)[n - 1];
      assert Sides(c)[..n] == Sides(c)[..n - 1] + [side];
      SidesOfCell(side, c);
      assert Rev(Rev(e)) == e;
      assert Rev(e) in Sides(c)[..n - 1] ==> Rev(e) in Sides(c);
      SidesOfCell(Rev(e), c);
    }
  }

  lemma {:induction false} FoldedWeight(w: Edge -> int, mask: set<Pt>, c: Pt, n: nat)
    requires Antisymmetric(w) && c !in mask && n <= 4
    ensures SetSum(w, Folded(mask, c, n)) == SetSum(w, Boundary(mask)) + Sum(w, Sides(c)[..n])
  {
    if n > 0 {
      FoldedWeight(w, mask, c, n - 1);
      var side := Sides(c)[n - 1];
      assert Sides(c)[..n][..n - 1] == Sides(c)[..n - 1];
      SidesOfCell(side, c);
      assert Rev(Rev(side)) == side;
      FoldedMembers(mask, c, n - 1, side);
      FoldedMembers(mask, c, n - 1, Rev(side));
      assert side !in Sides(c)[..n - 1];
      FoldWeight(w, Folded(mask, c, n - 1), mask, side);
    }
  }

  lemma BoundaryOfOneMore(mask: set<Pt>, c: Pt)
    requires c !in mask
    ensures Folded(mask, c, 4) == Boundary(mask + {c})
  {
    forall e ensures e in Folded(mask, c, 4) <==> e in Boundary(mask + {c}) {
      FoldedMembers(mask, c, 4, e);
      assert Sides(c)[..4] == Sides(c);
      SidesOfCell(e, c);
      SidesOfCell(Rev(e), c);
      assert Rev(Rev(e)) == e;
    }
  }

  lemma SumOfSides(w: Edge -> int, c: Pt)
    ensures Sum(w, Sides(c)[..4]) == SideWeight(w)(c)
  {
    var s := Sides(c);
    assert s[..4][..3] == s[..3] && s[..3][..2] == s[..2] && s[..2][..1] == s[..1] && s[..1][..0] == [];
    assert Sum(w, s[..1]) == w(s[0]);
    assert Sum(w, s[..2]) == w(s[0]) + w(s[1]);
    assert Sum(w, s[..3]) == w(s[0]) + w(s[1]) + w(s[2]);
  }

  /** An antisymmetric weight sums over the boundary to its sum over the sides of every cell. */
  lemma {:induction false} BalanceLaw(w: Edge -> int, mask: set<Pt>)
    requires Antisymmetric(w)
    ensures SetSum(w, Boundary(mask)) == SetSum(SideWeight(w), mask)
    decreases |mask|
  {
    if mask == {} {
      assert Boundary(mask) == {};
    } else {
      var c := Pick(mask);
      BalanceLaw(w, mask - {c});
      FoldedWeight(w, mask - {c}, c, 4);
      BoundaryOfOneMore(mask - {c}, c);
      SumOfSides(w, c);
      assert mask - {c} + {c} == mask;
    }
  }

  // ---- consequences for a trace

  lemma {:induction false} SumOverLoops(w: Edge -> int, per: seq<Pt> -> int, loops: seq<seq<Pt>>)
    requires forall lp :: per(lp) == Sum(w, Edges(lp))
    ensures Sum(w, AllEdges(loops)) == Sum(per, loops)
  {
    if loops != [] {
      var k := |loops| - 1;
      SumOverLoops(w, per, loops[..k]);
      SumAppend(w, AllEdges(loops[..k]), Edges(loops[k]));
    }
  }

  lemma SumOverTrace(w: Edge -> int, per: seq<Pt> -> int, mask: set<Pt>, loops: seq<seq<Pt>>)
    requires Traced(mask, loops) && Antisymmetric(w)
    requires forall lp :: per(lp) == Sum(w, Edges(lp))
    ensures Sum(per, loops) == SetSum(SideWeight(w), mask)
  {
    SumOverLoops(w, per, loops);
    SumOfListing(w, AllEdges(loops), Boundary(mask));
    BalanceLaw(w, mask);
  }

  lemma CellCrossing(c: Pt, d: Pt)
    ensures SideWeight(Crossing(c))(d) == Tally(c == d)
  {
    var w, s := Crossing(c), Sides(d);
    assert w(s[0]) == 0 && w(s[2]) == 0;
  }

  lemma CellArea(d: Pt)
    ensures SideWeight(Shoelace())(d) == 2
  {
    var w, s := Shoelace(), Sides(d);
    assert w(s[0]) == -d.y && w(s[1]) == d.x + 1 && w(s[2]) == d.y + 1 && w(s[3]) == -d.x;
  }

  lemma {:induction false} CellCrossings(c: Pt, mask: set<Pt>)
    ensures SetSum(SideWeight(Crossing(c)), mask) == Tally(c in mask)
  {
    var w := SideWeight(Crossing(c));
    forall d ensures w(d) == Tally(c == d) { CellCrossing(c, d); }
    if c in mask {
      SetSumRemove(w, mask, c);
      SetSumZero(w, mask - {c});
    } else {
      SetSumZero(w, mask);
    }
  }

  /** Tracing is exact: the loops wind once around every mask cell and not at all around any other. */
  lemma TracingIsExact(mask: set<Pt>, loops: seq<seq<Pt>>, c: Pt)
    requires Traced(mask, loops)
    ensures TotalWind(loops, c) == if c in mask then 1 else 0
  {
    SumOverTrace(Crossing(c), WindAt(c), mask, loops);
    CellCrossings(c, mask);
  }

  /** Filling the traced loops by their winding gives back the mask, so two masks with one trace are equal. */
  lemma TraceDeterminesMask(mask: set<Pt>, other: set<Pt>, loops: seq<seq<Pt>>)
    requires Traced(mask, loops) && Traced(other, loops)
    ensures mask == other
  {
    forall c ensures c in mask <==> c in other {
      TracingIsExact(mask, loops, c);
      TracingIsExact(other, loops, c);
    }
  }

  lemma {:induction false} EveryCellHasAreaTwo(mask: set<Pt>)
    ensures SetSum(SideWeight(Shoelace()), mask) == 2 * |mask|
    decreases |mask|
  {
    if mask != {} {
      CellArea(Pick(mask));
      EveryCellHasAreaTwo(mask - {Pick(mask)});
    }
  }

  /** Area is conserved: the signed areas of the loops add up to twice the number of mask cells. */
  lemma AreaIsConserved(mask: set<Pt>, loops: seq<seq<Pt>>)
    requires Traced(mask, loops)
    ensures Sum(AreaOf(), loops) == 2 * |mask|
  {
    SumOverTrace(Shoelace(), AreaOf(), mask, loops);
    EveryCellHasAreaTwo(mask);
  }
}
