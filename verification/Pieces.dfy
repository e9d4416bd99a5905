/**
 How many rings a room gets. Every piece of a mask (cells that at least touch at a corner) has an
 outer loop in every trace. It has only one exactly when no joined pinch, one with the same empty
 region on both sides, is shared between two loops; and in every trace when there is no such pinch.
 */
module Pieces {
  import opened Sums
  import opened Grid
  import opened TraceMask
  import opened Winding
  import opened LoopSides
  import opened Nesting

  /** Two edges that arrive at one vertex, a pinch, with one empty region on the left of both */
  ghost predicate SplitsAt(mask: set<Pt>, i: Edge, j: Edge) {
    && i in Boundary(mask) && j in Boundary(mask) && i.dst == j.dst && i != j
    && Empty(mask).Linked(LeftCell(i), LeftCell(j))
  }

  ghost predicate NoJoinedPinch(mask: set<Pt>) {
    forall i, j :: !SplitsAt(mask, i, j)
  }

  /** The loop passes every joined pinch on both sides or not at all. */
  ghost predicate KeepsPinches(mask: set<Pt>, lp: seq<Pt>) {
    forall i, j :: SplitsAt(mask, i, j) && i in Edges(lp) ==> j in Edges(lp)
  }

  ghost predicate AllKeepPinches(mask: set<Pt>, loops: seq<seq<Pt>>) {
    forall k :: 0 <= k < |loops| ==> KeepsPinches(mask, loops[k])
  }

  /** The first cell on the right of a loop; all others are in its piece. */
  ghost function Foot(lp: seq<Pt>): Pt
    requires |lp| > 0
  {
    RightCell(Edges(lp)[0])
  }

  /** No two outer loops of the trace run around one piece. */
  ghost predicate OneOuterPerPiece(mask: set<Pt>, loops: seq<seq<Pt>>) {
    forall k, m :: 0 <= k < m < |loops| ==> ApartOrHole(mask, loops[k], loops[m])
  }

  ghost predicate ApartOrHole(mask: set<Pt>, lp: seq<Pt>, lq: seq<Pt>) {
    |lp| > 0 && |lq| > 0 && IsOuter(lp) && IsOuter(lq) ==> !Filled(mask).Linked(Foot(lp), Foot(lq))
  }

  // ---- sides of a loop

  lemma SameRightPiece(mask: set<Pt>, lp: seq<Pt>, e: Edge)
    requires LoopOf(mask, lp) && e in Edges(lp)
    ensures Filled(mask).Linked(Foot(lp), RightCell(e))
  {
    var i :| 0 <= i < |lp| && Edges(lp)[i] == e;
  }

  lemma Follower(lp: seq<Pt>, e: Edge) returns (o: Edge)
    requires e in Edges(lp)
    ensures o in Edges(lp) && o.src == e.dst
  {
    var i :| 0 <= i < |lp| && Edges(lp)[i] == e;
    o := Edges(lp)[if i + 1 < |lp| then i + 1 else 0];
  }

  lemma Leader(lp: seq<Pt>, o: Edge) returns (e: Edge)
    requires o in Edges(lp)
    ensures e in Edges(lp) && e.dst == o.src
  {
    var i :| 0 <= i < |lp| && Edges(lp)[i] == o;
    e := Edges(lp)[if i > 0 then i - 1 else |lp| - 1];
  }

  // ---- a loop at a pinch

  lemma PinchArrivals(mask: set<Pt>, i: Edge, j: Edge, e: Edge)
    requires i in Boundary(mask) && j in Boundary(mask) && i.dst == j.dst && i != j
    requires e in Boundary(mask) && e.dst == i.dst
    ensures e == i || e == j
  {
  }

  lemma PinchLeaves(mask: set<Pt>, i: Edge, j: Edge, o: Edge)
    requires i in Boundary(mask) && j in Boundary(mask) && i.dst == j.dst && i != j
    requires o in Boundary(mask) && o.src == i.dst
    ensures o == LeftTurn(i) || o == LeftTurn(j)
  {
  }

  /** At a pinch that is not joined, a loop that arrives by i leaves by the left turn of i, and the other way round. */
  lemma PassesOnOneSide(mask: set<Pt>, lp: seq<Pt>, i: Edge, j: Edge)
    requires LoopOf(mask, lp) && !SplitsAt(mask, i, j)
    requires i in Boundary(mask) && j in Boundary(mask) && i.dst == j.dst && i != j
    ensures i in Edges(lp) <==> LeftTurn(i) in Edges(lp)
  {
    Pinch(mask, i, j);
    if i in Edges(lp) {
      var o := Follower(lp, i);
      LoopEdge(mask, lp, o);
      PinchLeaves(mask, i, j, o);
      SameLeftRegion(mask, lp, i, o);
    }
    if LeftTurn(i) in Edges(lp) {
      var e := Leader(lp, LeftTurn(i));
      LoopEdge(mask, lp, e);
      PinchArrivals(mask, i, j, e);
      SameLeftRegion(mask, lp, LeftTurn(i), e);
    }
  }

  /** Where a and b touch at a corner between the empty cells c and d: the arrivals on either side. */
  lemma DiagonalPinch(mask: set<Pt>, a: Pt, b: Pt, c: Pt, d: Pt) returns (i: Edge, j: Edge)
    requires a in mask && b in mask && c !in mask && d !in mask
    requires Adj8(a, b) && a.x != b.x && a.y != b.y && c == Pt(a.x, b.y) && d == Pt(b.x, a.y)
    ensures i in Boundary(mask) && j in Boundary(mask) && i.dst == j.dst && i != j
    ensures LeftCell(i) == c && LeftCell(j) == d
    ensures (i == Between(a, c) && LeftTurn(i) == Between(b, c)) || (i == Between(b, c) && LeftTurn(i) == Between(a, c))
  {
    i := if Between(a, c).dst == Between(b, c).src then Between(a, c) else Between(b, c);
    j := if Between(a, d).dst == Between(b, d).src then Between(a, d) else Between(b, d);
  }

  /** A loop that passes by i as by its left turn has the two cells on one side. */
  lemma WindPastPinch(mask: set<Pt>, lp: seq<Pt>, i: Edge, a: Pt, b: Pt, c: Pt)
    requires LoopOf(mask, lp) && (i in Edges(lp) <==> LeftTurn(i) in Edges(lp))
    requires a in mask && b in mask && c !in mask && Adj4(a, c) && Adj4(b, c)
    requires || (i == Between(a, c) && LeftTurn(i) == Between(b, c))
             || (i == Between(b, c) && LeftTurn(i) == Between(a, c))
    ensures Wind(lp, a) == Wind(lp, b)
  {
    StepWind(mask, lp, a, c);
    StepWind(mask, lp, b, c);
    LoopEdge(mask, lp, Rev(Between(a, c)));
    LoopEdge(mask, lp, Rev(Between(b, c)));
    NotBothWays(mask, Between(a, c));
    NotBothWays(mask, Between(b, c));
  }

  lemma WindAcrossPinch(mask: set<Pt>, lp: seq<Pt>, a: Pt, b: Pt, c: Pt, d: Pt)
    requires LoopOf(mask, lp) && KeepsPinches(mask, lp)
    requires a in mask && b in mask && c !in mask && d !in mask
    requires Adj8(a, b) && a.x != b.x && a.y != b.y && c == Pt(a.x, b.y) && d == Pt(b.x, a.y)
    ensures Wind(lp, a) == Wind(lp, b)
  {
    var i, j := DiagonalPinch(mask, a, b, c, d);
    if i in Edges(lp) && j in Edges(lp) {
      PinchCells(mask, i, j, a, b, c, d);
      WindBesideEdge(mask, lp, i);
      WindBesideEdge(mask, lp, j);
    } else {
      PassesBeside(mask, lp, i, j);
      WindPastPinch(mask, lp, i, a, b, c);
    }
  }

  /** The two arrivals have one of the cells each on their right. */
  lemma PinchCells(mask: set<Pt>, i: Edge, j: Edge, a: Pt, b: Pt, c: Pt, d: Pt)
    requires i in Boundary(mask) && j in Boundary(mask) && i.dst == j.dst && i != j
    requires LeftCell(i) == c && LeftCell(j) == d
    requires Adj8(a, b) && a.x != b.x && a.y != b.y && c == Pt(a.x, b.y) && d == Pt(b.x, a.y)
    requires i == Between(a, c) || i == Between(b, c)
    ensures (RightCell(i) == a && RightCell(j) == b) || (RightCell(i) == b && RightCell(j) == a)
  {
  }

  /** A loop that does not arrive at a pinch by both edges leaves by the left turn of the one it arrives by, if any. */
  lemma PassesBeside(mask: set<Pt>, lp: seq<Pt>, i: Edge, j: Edge)
    requires LoopOf(mask, lp) && KeepsPinches(mask, lp) && !(i in Edges(lp) && j in Edges(lp))
    requires i in Boundary(mask) && j in Boundary(mask) && i.dst == j.dst && i != j
    ensures i in Edges(lp) <==> LeftTurn(i) in Edges(lp)
  {
    if SplitsAt(mask, i, j) {
      SplitsBothWays(mask, i, j);
      assert i !in Edges(lp) && j !in Edges(lp);
      if LeftTurn(i) in Edges(lp) {
        var e := Leader(lp, LeftTurn(i));
        LoopEdge(mask, lp, e);
        PinchArrivals(mask, i, j, e);
      }
    } else {
      PassesOnOneSide(mask, lp, i, j);
    }
  }

  lemma SplitsBothWays(mask: set<Pt>, i: Edge, j: Edge)
    requires SplitsAt(mask, i, j)
    ensures SplitsAt(mask, j, i)
  {
    Empty(mask).LinkedSym(LeftCell(i), LeftCell(j));
  }

  /** A loop that keeps the pinches does not separate mask cells that touch. */
  lemma WindOverStep(mask: set<Pt>, lp: seq<Pt>, a: Pt, b: Pt)
    requires LoopOf(mask, lp) && KeepsPinches(mask, lp) && Filled(mask).Step(a, b)
    ensures Wind(lp, a) == Wind(lp, b)
  {
    if Adj4(a, b) {
      WindOffBoundary(mask, lp, a, b);
    } else {
      var c, d := Pt(a.x, b.y), Pt(b.x, a.y);
      if c in mask {
        WindOffBoundary(mask, lp, a, c);
        WindOffBoundary(mask, lp, c, b);
      } else if d in mask {
        WindOffBoundary(mask, lp, a, d);
        WindOffBoundary(mask, lp, d, b);
      } else {
        WindAcrossPinch(mask, lp, a, b, c, d);
      }
    }
  }

  lemma {:induction false} WindAlongPiece(mask: set<Pt>, lp: seq<Pt>, p: seq<Pt>, i: nat)
    requires LoopOf(mask, lp) && KeepsPinches(mask, lp) && Filled(mask).Path(p) && i < |p|
    ensures Wind(lp, p[i]) == Wind(lp, p[0])
  {
    if i > 0 {
      WindAlongPiece(mask, lp, p, i - 1);
      assert Filled(mask).StepAt(p, i - 1);
      WindOverStep(mask, lp, p[i - 1], p[i]);
    }
  }

  lemma WindOverPiece(mask: set<Pt>, lp: seq<Pt>, a: Pt, b: Pt)
    requires LoopOf(mask, lp) && KeepsPinches(mask, lp) && Filled(mask).Linked(a, b)
    ensures Wind(lp, a) == Wind(lp, b)
  {
    var p :| Filled(mask).Path(p) && p[0] == a && p[|p| - 1] == b;
    WindAlongPiece(mask, lp, p, |p| - 1);
  }

  // ---- no two loops wind around each other

  /** The second loop winds around both sides of the first, all along it. */
  ghost predicate WindsAround(lq: seq<Pt>, lp: seq<Pt>) {
    forall e <- Edges(lp) :: Inside(lq, LeftCell(e)) && Inside(lq, RightCell(e))
  }

  lemma FirstOutside(mask: set<Pt>, lp: seq<Pt>, lq: seq<Pt>, c: Pt) returns (f: Pt)
    requires LoopOf(mask, lp) && WindsAround(lq, lp) && Inside(lp, c)
    ensures f.y == c.y && f.x < c.x + 1 && Inside(lq, Pt(f.x - 1, f.y))
    ensures forall d: Pt :: d.y == c.y && d.x < f.x ==> !Inside(lp, d)
  {
    var lo := HasLeftBound(lp);
    f := FirstInRow(lp, lo, c);
    var e := FirstIsBesideLoop(mask, lp, f);
    assert Pt(f.x - 1, f.y) in {RightCell(e), LeftCell(e)};
  }

  /** Two loops cannot each wind around the other: some row would have no first cell. */
  lemma NotAroundEachOther(mask: set<Pt>, lp: seq<Pt>, lq: seq<Pt>)
    requires LoopOf(mask, lp) && LoopOf(mask, lq) && WindsAround(lq, lp)
    ensures !WindsAround(lp, lq)
  {
    if WindsAround(lp, lq) {
      var e := Edges(lq)[0];
      var f := FirstOutside(mask, lp, lq, RightCell(e));
      var g := FirstOutside(mask, lq, lp, Pt(f.x - 1, f.y));
    }
  }

  /** An edge of one loop has the same winding on both sides with respect to another. */
  lemma SameOnBothSides(mask: set<Pt>, loops: seq<seq<Pt>>, k: nat, m: nat, e: Edge)
    requires Traced(mask, loops) && k < |loops| && m < |loops| && k != m && e in Edges(loops[k])
    ensures Wind(loops[m], LeftCell(e)) == Wind(loops[m], RightCell(e))
  {
    LoopsOfTrace(mask, loops, k);
    LoopsOfTrace(mask, loops, m);
    LoopEdge(mask, loops[k], e);
    LoopsShareNoEdge(mask, loops, k, m, e);
    LoopIsUnit(mask, loops[m]);
    Jump(loops[m], e);
  }

  lemma OuterAroundPiece(mask: set<Pt>, loops: seq<seq<Pt>>, k: nat, m: nat)
    requires Traced(mask, loops) && k < |loops| && m < |loops| && k != m && KeepsPinches(mask, loops[m])
    requires IsOuter(loops[m]) && Filled(mask).Linked(Foot(loops[k]), Foot(loops[m]))
    ensures WindsAround(loops[m], loops[k])
  {
    LoopsOfTrace(mask, loops, k);
    LoopsOfTrace(mask, loops, m);
    WindBesideEdge(mask, loops[m], Edges(loops[m])[0]);
    WindOverPiece(mask, loops[m], Foot(loops[k]), Foot(loops[m]));
    forall e | e in Edges(loops[k]) ensures Inside(loops[m], LeftCell(e)) && Inside(loops[m], RightCell(e)) {
      SameRightPiece(mask, loops[k], e);
      WindOverPiece(mask, loops[m], Foot(loops[k]), RightCell(e));
      SameOnBothSides(mask, loops, k, m, e);
    }
  }

  /** If every loop keeps the pinches, no piece has two outer loops. */
  lemma OneOuterEach(mask: set<Pt>, loops: seq<seq<Pt>>)
    requires Traced(mask, loops) && AllKeepPinches(mask, loops)
    ensures OneOuterPerPiece(mask, loops)
  {
    forall k, m | 0 <= k < m < |loops| ensures ApartOrHole(mask, loops[k], loops[m]) {
      LoopsOfTrace(mask, loops, k);
      LoopsOfTrace(mask, loops, m);
      if IsOuter(loops[k]) && IsOuter(loops[m]) && Filled(mask).Linked(Foot(loops[k]), Foot(loops[m])) {
        OuterAroundPiece(mask, loops, k, m);
        Filled(mask).LinkedSym(Foot(loops[k]), Foot(loops[m]));
        OuterAroundPiece(mask, loops, m, k);
        NotAroundEachOther(mask, loops[k], loops[m]);
      }
    }
  }

  lemma RimAroundRegion(mask: set<Pt>, loops: seq<seq<Pt>>, k: nat, m: nat)
    requires Traced(mask, loops) && k < |loops| && m < |loops| && k != m && !IsOuter(loops[m])
    requires Empty(mask).Linked(LeftCell(Edges(loops[m])[0]), LeftCell(Edges(loops[k])[0]))
    ensures WindsAround(loops[m], loops[k])
  {
    LoopsOfTrace(mask, loops, k);
    LoopsOfTrace(mask, loops, m);
    var foot := LeftCell(Edges(loops[k])[0]);
    WindBesideEdge(mask, loops[m], Edges(loops[m])[0]);
    WindOverRegion(mask, loops[m], LeftCell(Edges(loops[m])[0]), foot);
    forall e | e in Edges(loops[k]) ensures Inside(loops[m], LeftCell(e)) && Inside(loops[m], RightCell(e)) {
      SameLeftRegion(mask, loops[k], Edges(loops[k])[0], e);
      WindOverRegion(mask, loops[m], foot, LeftCell(e));
      SameOnBothSides(mask, loops, k, m, e);
    }
  }

  /** In every trace an empty region has at most one rim, with or without joined pinches. */
  lemma OneRimPerRegion(mask: set<Pt>, loops: seq<seq<Pt>>, k: nat, m: nat)
    requires Traced(mask, loops) && k < |loops| && m < |loops| && k != m && |loops[k]| > 0 && |loops[m]| > 0
    requires !IsOuter(loops[k]) && !IsOuter(loops[m])
    ensures !Empty(mask).Linked(LeftCell(Edges(loops[k])[0]), LeftCell(Edges(loops[m])[0]))
  {
    var a, b := LeftCell(Edges(loops[k])[0]), LeftCell(Edges(loops[m])[0]);
    LoopsOfTrace(mask, loops, k);
    LoopsOfTrace(mask, loops, m);
    if Empty(mask).Linked(a, b) {
      RimAroundRegion(mask, loops, m, k);
      Empty(mask).LinkedSym(a, b);
      RimAroundRegion(mask, loops, k, m);
      NotAroundEachOther(mask, loops[k], loops[m]);
    }
  }

  // ---- every piece has an outer loop

  /** The piece of the mask that cell a is in */
  ghost function PieceOf(mask: set<Pt>, a: Pt): set<Pt> {
    set c | c in mask && Filled(mask).Linked(a, c)
  }

  /** Crossings of the ray left of c, by the edges of one piece only */
  ghost function PieceCrossing(piece: set<Pt>, c: Pt): Edge -> int {
    (e: Edge) => if RightCell(e) in piece then CrossAt(e, c) else 0
  }

  ghost function PieceWind(piece: set<Pt>, c: Pt): seq<Pt> -> int {
    (lp: seq<Pt>) => Sum(PieceCrossing(piece, c), Edges(lp))
  }

  lemma PieceIsClosed(mask: set<Pt>, a: Pt, c: Pt, d: Pt)
    requires c in PieceOf(mask, a) && d in mask && Adj4(c, d)
    ensures d in PieceOf(mask, a)
  {
    Filled(mask).LinkedStep(c, d);
    Filled(mask).LinkedTrans(a, c, d);
  }

  /** The boundary of a piece is the part of the mask's boundary that has it on the right. */
  lemma PieceBoundary(mask: set<Pt>, a: Pt, e: Edge)
    ensures e in Boundary(PieceOf(mask, a)) <==> e in Boundary(mask) && RightCell(e) in PieceOf(mask, a)
  {
    if IsBoundary(PieceOf(mask, a), e) && LeftCell(e) in mask {
      PieceIsClosed(mask, a, RightCell(e), LeftCell(e));
    }
  }

  /** The loops of a piece together wind around a cell once if it is in the piece, and not at all otherwise. */
  lemma PieceWinds(mask: set<Pt>, loops: seq<seq<Pt>>, a: Pt, c: Pt)
    requires Traced(mask, loops)
    ensures Sum(PieceWind(PieceOf(mask, a), c), loops) == Tally(c in PieceOf(mask, a))
  {
    var piece := PieceOf(mask, a);
    var w := PieceCrossing(piece, c);
    SumOverLoops(w, PieceWind(piece, c), loops);
    SumOfListing(w, AllEdges(loops), Boundary(mask));
    PieceBoundarySum(mask, a, c);
    BalanceLaw(Crossing(c), piece);
    CellCrossings(c, piece);
  }

  lemma PieceBoundarySum(mask: set<Pt>, a: Pt, c: Pt)
    ensures SetSum(PieceCrossing(PieceOf(mask, a), c), Boundary(mask))
         == SetSum(Crossing(c), Boundary(PieceOf(mask, a)))
  {
    var piece := PieceOf(mask, a);
    var w, own := PieceCrossing(piece, c), Boundary(piece);
    forall e ensures e in own <==> e in Boundary(mask) && RightCell(e) in piece { PieceBoundary(mask, a, e); }
    var rest := Boundary(mask) - own;
    assert own + rest == Boundary(mask);
    SetSumUnion(w, own, rest);
    SetSumZero(w, rest);
    SetSumEqual(w, Crossing(c), own);
  }

  /** A loop either has the whole piece's weight or none. */
  lemma PieceWindOfLoop(mask: set<Pt>, lp: seq<Pt>, a: Pt, c: Pt)
    requires LoopOf(mask, lp)
    ensures PieceWind(PieceOf(mask, a), c)(lp) == if Filled(mask).Linked(a, Foot(lp)) then Wind(lp, c) else 0
  {
    var w := PieceCrossing(PieceOf(mask, a), c);
    LoopEdge(mask, lp, Edges(lp)[0]);
    if Filled(mask).Linked(a, Foot(lp)) {
      forall e <- Edges(lp) ensures w(e) == Crossing(c)(e) {
        SameRightPiece(mask, lp, e);
        LoopEdge(mask, lp, e);
        Filled(mask).LinkedTrans(a, Foot(lp), RightCell(e));
      }
      SumEqual(w, Crossing(c), Edges(lp));
    } else {
      forall e <- Edges(lp) ensures w(e) == 0 {
        SameRightPiece(mask, lp, e);
        if Filled(mask).Linked(a, RightCell(e)) {
          Filled(mask).LinkedSym(Foot(lp), RightCell(e));
          Filled(mask).LinkedTrans(a, RightCell(e), Foot(lp));
        }
      }
      SumZero(w, Edges(lp));
    }
  }

  /** In every trace, every mask cell has an outer loop of its piece that winds around it. */
  lemma OuterOfPiece(mask: set<Pt>, loops: seq<seq<Pt>>, a: Pt) returns (k: nat)
    requires Traced(mask, loops) && a in mask
    ensures k < |loops| && |loops[k]| > 0 && IsOuter(loops[k]) && Filled(mask).Linked(a, Foot(loops[k]))
    ensures Wind(loops[k], a) == 1
  {
    Filled(mask).LinkedSelf(a);
    PieceWinds(mask, loops, a, a);
    k := SumHasPositive(PieceWind(PieceOf(mask, a), a), loops);
    LoopsOfTrace(mask, loops, k);
    PieceWindOfLoop(mask, loops[k], a, a);
    WindOfKind(mask, loops[k], a);
  }

  /** Around the rim of a hole runs an outer loop of the same piece. */
  lemma OuterOfRim(mask: set<Pt>, loops: seq<seq<Pt>>, h: nat) returns (m: nat)
    requires Traced(mask, loops) && h < |loops| && |loops[h]| > 0 && !IsOuter(loops[h])
    ensures m < |loops| && |loops[m]| > 0 && IsOuter(loops[m]) && Filled(mask).Linked(Foot(loops[h]), Foot(loops[m]))
    ensures Wind(loops[m], LeftCell(Edges(loops[h])[0])) == 1
  {
    LoopsOfTrace(mask, loops, h);
    var e := Edges(loops[h])[0];
    var a, c := Foot(loops[h]), LeftCell(e);
    var piece := PieceOf(mask, a);
    var per := PieceWind(piece, c);
    LoopEdge(mask, loops[h], e);
    Filled(mask).LinkedSelf(a);
    PieceWinds(mask, loops, a, c);
    PieceWindOfLoop(mask, loops[h], a, c);
    WindBesideEdge(mask, loops[h], e);
    TwoKinds(mask, loops[h]);
    assert per(loops[h]) == -1;
    m := PositiveBesideNegative(per, loops, h);
    LoopsOfTrace(mask, loops, m);
    PieceWindOfLoop(mask, loops[m], a, c);
    WindOfKind(mask, loops[m], c);
  }

  /** A sum that is not negative but has a negative term has a positive one. */
  lemma PositiveBesideNegative<T>(f: T -> int, s: seq<T>, k: nat) returns (m: nat)
    requires k < |s| && f(s[k]) < 0 && Sum(f, s) >= 0
    ensures m < |s| && f(s[m]) > 0
  {
    if forall i :: 0 <= i < |s| ==> f(s[i]) <= 0 {
      SumAtMostTerm(f, s, k);
      assert false;
    }
    m :| 0 <= m < |s| && f(s[m]) > 0;
  }

  // ---- two loops of one region and one piece

  lemma NotOne(mask: set<Pt>, loops: seq<seq<Pt>>, k: nat, m: nat)
    requires k < |loops| && m < |loops| && k != m && |loops[k]| > 0 && |loops[m]| > 0
    requires IsOuter(loops[k]) && IsOuter(loops[m]) && Filled(mask).Linked(Foot(loops[k]), Foot(loops[m]))
    ensures !OneOuterPerPiece(mask, loops)
  {
    if k < m {
      assert !ApartOrHole(mask, loops[k], loops[m]);
    } else {
      Filled(mask).LinkedSym(Foot(loops[k]), Foot(loops[m]));
      assert !ApartOrHole(mask, loops[m], loops[k]);
    }
  }

  /** Two loops with the same empty region on their left and the same piece on their right */
  ghost predicate Together(mask: set<Pt>, lp: seq<Pt>, lq: seq<Pt>) {
    && |lp| > 0 && |lq| > 0
    && Empty(mask).Linked(LeftCell(Edges(lp)[0]), LeftCell(Edges(lq)[0]))
    && Filled(mask).Linked(Foot(lp), Foot(lq))
  }

  lemma TogetherSym(mask: set<Pt>, lp: seq<Pt>, lq: seq<Pt>)
    requires Together(mask, lp, lq)
    ensures Together(mask, lq, lp)
  {
    Empty(mask).LinkedSym(LeftCell(Edges(lp)[0]), LeftCell(Edges(lq)[0]));
    Filled(mask).LinkedSym(Foot(lp), Foot(lq));
  }

  lemma OuterBesideRim(mask: set<Pt>, loops: seq<seq<Pt>>, h: nat, o: nat)
    requires Traced(mask, loops) && h < |loops| && o < |loops| && Together(mask, loops[h], loops[o])
    requires !IsOuter(loops[h]) && IsOuter(loops[o])
    ensures !OneOuterPerPiece(mask, loops)
  {
    var c, d := LeftCell(Edges(loops[h])[0]), LeftCell(Edges(loops[o])[0]);
    var x := OuterOfRim(mask, loops, h);
    LoopsOfTrace(mask, loops, o);
    WindOverRegion(mask, loops[o], c, d);
    WindBesideEdge(mask, loops[o], Edges(loops[o])[0]);
    Filled(mask).LinkedSym(Foot(loops[h]), Foot(loops[x]));
    Filled(mask).LinkedTrans(Foot(loops[x]), Foot(loops[h]), Foot(loops[o]));
    NotOne(mask, loops, x, o);
  }

  /** Two loops of one region and one piece: one of them, or another, is a second outer loop of the piece. */
  lemma TwoLoopsTogether(mask: set<Pt>, loops: seq<seq<Pt>>, k: nat, m: nat)
    requires Traced(mask, loops) && k < |loops| && m < |loops| && k != m && Together(mask, loops[k], loops[m])
    ensures !OneOuterPerPiece(mask, loops)
  {
    if IsOuter(loops[k]) && IsOuter(loops[m]) {
      NotOne(mask, loops, k, m);
    } else if IsOuter(loops[m]) {
      OuterBesideRim(mask, loops, k, m);
    } else if IsOuter(loops[k]) {
      TogetherSym(mask, loops[k], loops[m]);
      OuterBesideRim(mask, loops, m, k);
    } else {
      OneRimPerRegion(mask, loops, k, m);
    }
  }

  // ---- splitting a loop at a joined pinch

  lemma {:induction false} EdgeInSomeLoop(loops: seq<seq<Pt>>, e: Edge) returns (k: nat)
    requires e in AllEdges(loops)
    ensures k < |loops| && e in Edges(loops[k])
  {
    var n := |loops| - 1;
    if e in Edges(loops[n]) {
      k := n;
    } else {
      k := EdgeInSomeLoop(loops[..n], e);
    }
  }

  lemma TracedHas(mask: set<Pt>, loops: seq<seq<Pt>>, e: Edge) returns (k: nat)
    requires Traced(mask, loops) && e in Boundary(mask)
    ensures k < |loops| && e in Edges(loops[k])
  {
    assert multiset(AllEdges(loops))[e] == multiset(Boundary(mask))[e] > 0;
    k := EdgeInSomeLoop(loops, e);
  }

  /** Edges of one loop that are closed up by themselves are one-sided too, with the loop's region and piece. */
  lemma PartOneSided(mask: set<Pt>, lp: seq<Pt>, part: seq<Pt>)
    requires LoopOf(mask, lp) && |part| > 0 && forall e <- Edges(part) :: e in Edges(lp)
    ensures |part| >= 4 && OneSided(mask, Edges(part)) && Together(mask, lp, part)
  {
    forall i | 0 <= i < |part| ensures Edges(part)[i] in Boundary(mask) { LoopEdge(mask, lp, Edges(part)[i]); }
    LoopLength(mask, part);
    var first := Edges(part)[0];
    forall i | 0 <= i < |part|
      ensures Empty(mask).Linked(LeftCell(first), LeftCell(Edges(part)[i]))
      ensures Filled(mask).Linked(RightCell(first), RightCell(Edges(part)[i]))
    {
      SameSides(mask, lp, first, Edges(part)[i]);
    }
    SameSides(mask, lp, Edges(lp)[0], first);
  }

  lemma SameSides(mask: set<Pt>, lp: seq<Pt>, e: Edge, g: Edge)
    requires LoopOf(mask, lp) && e in Edges(lp) && g in Edges(lp)
    ensures Empty(mask).Linked(LeftCell(e), LeftCell(g)) && Filled(mask).Linked(RightCell(e), RightCell(g))
  {
    SameLeftRegion(mask, lp, e, g);
    SameRightPiece(mask, lp, e);
    SameRightPiece(mask, lp, g);
    Filled(mask).LinkedSym(Foot(lp), RightCell(e));
    Filled(mask).LinkedTrans(RightCell(e), Foot(lp), RightCell(g));
  }

  /** The part of a loop from after index s up to t, and the rest, when both ends of the cut are one vertex */
  lemma CutLoop(lp: seq<Pt>, s: nat, t: nat) returns (near: seq<Pt>, far: seq<Pt>)
    requires s < t < |lp| && Edges(lp)[s].dst == Edges(lp)[t].dst
    ensures near == lp[s + 1..t + 1] && far == lp[t + 1..] + lp[..s + 1]
    ensures Edges(near) == Edges(lp)[s + 1..t + 1]
    ensures Edges(far) == Edges(lp)[t + 1..] + Edges(lp)[..s + 1]
  {
    near, far := lp[s + 1..t + 1], lp[t + 1..] + lp[..s + 1];
    forall i | 0 <= i < |near| ensures Edges(near)[i] == Edges(lp)[s + 1..t + 1][i] {
    }
    forall i | 0 <= i < |far| ensures Edges(far)[i] == (Edges(lp)[t + 1..] + Edges(lp)[..s + 1])[i] {
      FarEdge(lp, s, t, far, i);
    }
  }

  lemma FarEdge(lp: seq<Pt>, s: nat, t: nat, far: seq<Pt>, i: nat)
    requires s < t < |lp| && Edges(lp)[s].dst == Edges(lp)[t].dst && far == lp[t + 1..] + lp[..s + 1] && i < |far|
    ensures Edges(far)[i] == if i < |lp| - t - 1 then Edges(lp)[t + 1 + i] else Edges(lp)[i - (|lp| - t - 1)]
  {
    var m := |lp| - t - 1;
    assert far[i] == if i < m then lp[t + 1 + i] else lp[i - m];
    if i + 1 < |far| {
      assert far[i + 1] == if i + 1 < m then lp[t + 2 + i] else lp[i + 1 - m];
    } else {
      assert far[0] == if 0 < m then lp[t + 1] else lp[0];
      assert far[0] == Edges(lp)[t].dst;
    }
  }

  /** How often all the loops use an edge, added up loop by loop */
  ghost function TotalUses(loops: seq<seq<Pt>>, e: Edge): nat {
    if loops == [] then 0 else TotalUses(loops[..|loops| - 1], e) + Uses(loops[|loops| - 1], e)
  }

  lemma {:induction false} TotalUsesCounts(loops: seq<seq<Pt>>, e: Edge)
    ensures TotalUses(loops, e) == UsesInAll(loops, e)
  {
    if loops != [] {
      TotalUsesCounts(loops[..|loops| - 1], e);
      UsesOfLast(loops, e);
    }
  }

  lemma {:induction false} ReplaceLoop(loops: seq<seq<Pt>>, k: nat, lp: seq<Pt>, e: Edge)
    requires k < |loops|
    ensures TotalUses(loops[k := lp], e) + Uses(loops[k], e) == TotalUses(loops, e) + Uses(lp, e)
  {
    var n := |loops| - 1;
    if k < n {
      ReplaceLoop(loops[..n], k, lp, e);
      assert loops[k := lp][..n] == loops[..n][k := lp];
    } else {
      assert loops[k := lp][..n] == loops[..n];
    }
  }

  lemma SplitUses(loops: seq<seq<Pt>>, k: nat, near: seq<Pt>, far: seq<Pt>, e: Edge)
    requires k < |loops| && Uses(near, e) + Uses(far, e) == Uses(loops[k], e)
    ensures TotalUses(loops[k := near] + [far], e) == TotalUses(loops, e)
  {
    var split := loops[k := near] + [far];
    ReplaceLoop(loops, k, near, e);
    assert split[..|loops|] == loops[k := near];
  }

  lemma SplitTraced(mask: set<Pt>, loops: seq<seq<Pt>>, k: nat, near: seq<Pt>, far: seq<Pt>)
    requires Traced(mask, loops) && k < |loops|
    requires |near| >= 4 && |far| >= 4 && OneSided(mask, Edges(near)) && OneSided(mask, Edges(far))
    requires forall e :: Uses(near, e) + Uses(far, e) == Uses(loops[k], e)
    ensures Traced(mask, loops[k := near] + [far])
  {
    var split := loops[k := near] + [far];
    SplitEdges(loops, k, near, far);
    forall m | 0 <= m < |split| ensures |split[m]| >= 4 && OneSided(mask, Edges(split[m])) {
      SplitSided(mask, loops, k, near, far, m);
    }
  }

  lemma SplitSided(mask: set<Pt>, loops: seq<seq<Pt>>, k: nat, near: seq<Pt>, far: seq<Pt>, m: nat)
    requires Traced(mask, loops) && k < |loops| && m <= |loops|
    requires |near| >= 4 && |far| >= 4 && OneSided(mask, Edges(near)) && OneSided(mask, Edges(far))
    ensures var split := loops[k := near] + [far]; |split[m]| >= 4 && OneSided(mask, Edges(split[m]))
  {
    var split := loops[k := near] + [far];
    assert split[m] == if m == |loops| then far else if m == k then near else loops[m];
  }

  lemma SplitEdges(loops: seq<seq<Pt>>, k: nat, near: seq<Pt>, far: seq<Pt>)
    requires k < |loops| && forall e :: Uses(near, e) + Uses(far, e) == Uses(loops[k], e)
    ensures multiset(AllEdges(loops[k := near] + [far])) == multiset(AllEdges(loops))
  {
    var split := loops[k := near] + [far];
    forall e ensures UsesInAll(split, e) == UsesInAll(loops, e) {
      assert Uses(near, e) + Uses(far, e) == Uses(loops[k], e);
      SplitUses(loops, k, near, far, e);
      TotalUsesCounts(split, e);
      TotalUsesCounts(loops, e);
    }
    forall e ensures multiset(AllEdges(split))[e] == multiset(AllEdges(loops))[e] {
      assert UsesInAll(split, e) == UsesInAll(loops, e);
    }
    SameCounts(AllEdges(split), AllEdges(loops));
  }

  lemma SameCounts<T>(s: seq<T>, t: seq<T>)
    requires forall x :: multiset(s)[x] == multiset(t)[x]
    ensures multiset(s) == multiset(t)
  {
  }

  lemma PartsCount<T>(es: seq<T>, near: seq<T>, far: seq<T>, a: nat, b: nat, x: T)
    requires a <= b <= |es| && near == es[a..b] && far == es[b..] + es[..a]
    ensures multiset(near)[x] + multiset(far)[x] == multiset(es)[x]
  {
    assert es == es[..a] + near + es[b..];
    assert multiset(es) == multiset(es[..a]) + multiset(near) + multiset(es[b..]);
  }

  lemma CutParts(lp: seq<Pt>, s: nat, t: nat) returns (near: seq<Pt>, far: seq<Pt>)
    requires s < t < |lp| && Edges(lp)[s].dst == Edges(lp)[t].dst
    ensures |near| > 0 && |far| > 0
    ensures forall e :: Uses(near, e) + Uses(far, e) == Uses(lp, e)
    ensures (forall e <- Edges(near) :: e in Edges(lp)) && forall e <- Edges(far) :: e in Edges(lp)
  {
    near, far := CutLoop(lp, s, t);
    forall e ensures Uses(near, e) + Uses(far, e) == Uses(lp, e) { CutUses(lp, s, t, near, far, e); }
    forall e | e in Edges(near) ensures e in Edges(lp) { UsedThere(lp, near, e); }
    forall e | e in Edges(far) ensures e in Edges(lp) { UsedThere(lp, far, e); }
  }

  lemma CutUses(lp: seq<Pt>, s: nat, t: nat, near: seq<Pt>, far: seq<Pt>, e: Edge)
    requires s < t < |lp|
    requires Edges(near) == Edges(lp)[s + 1..t + 1] && Edges(far) == Edges(lp)[t + 1..] + Edges(lp)[..s + 1]
    ensures Uses(near, e) + Uses(far, e) == Uses(lp, e)
  {
    PartsCount(Edges(lp), Edges(near), Edges(far), s + 1, t + 1, e);
  }

  lemma UsedThere(lp: seq<Pt>, part: seq<Pt>, e: Edge)
    requires Uses(part, e) <= Uses(lp, e) && e in Edges(part)
    ensures e in Edges(lp)
  {
    assert multiset(Edges(part))[e] > 0;
  }

  /** A loop that passes a joined pinch twice can be split there: the two parts are a trace with the other loops. */
  lemma SplitLoop(mask: set<Pt>, loops: seq<seq<Pt>>, k: nat, s: nat, t: nat) returns (split: seq<seq<Pt>>)
    requires Traced(mask, loops) && k < |loops| && s < t < |loops[k]|
    requires Edges(loops[k])[s].dst == Edges(loops[k])[t].dst
    ensures Traced(mask, split) && !OneOuterPerPiece(mask, split)
  {
    var lp := loops[k];
    LoopsOfTrace(mask, loops, k);
    var near, far := CutParts(lp, s, t);
    PartOneSided(mask, lp, near);
    PartOneSided(mask, lp, far);
    SplitTraced(mask, loops, k, near, far);
    split := loops[k := near] + [far];
    TogetherTrans(mask, lp, near, far);
    TwoLoopsTogether(mask, split, k, |loops|);
  }

  lemma TogetherTrans(mask: set<Pt>, lp: seq<Pt>, near: seq<Pt>, far: seq<Pt>)
    requires Together(mask, lp, near) && Together(mask, lp, far)
    ensures Together(mask, near, far)
  {
    TogetherSym(mask, lp, near);
    Empty(mask).LinkedTrans(LeftCell(Edges(near)[0]), LeftCell(Edges(lp)[0]), LeftCell(Edges(far)[0]));
    Filled(mask).LinkedTrans(Foot(near), Foot(lp), Foot(far));
  }

  /** The two cells of a pinch touch. */
  lemma PinchCellsTouch(mask: set<Pt>, i: Edge, j: Edge)
    requires i in Boundary(mask) && j in Boundary(mask) && i.dst == j.dst && i != j
    ensures Filled(mask).Step(RightCell(i), RightCell(j))
  {
  }

  /** At a joined pinch passed by two loops, these two belong together. */
  lemma LoopsAtPinch(mask: set<Pt>, lp: seq<Pt>, lq: seq<Pt>, i: Edge, j: Edge)
    requires LoopOf(mask, lp) && LoopOf(mask, lq) && SplitsAt(mask, i, j) && i in Edges(lp) && j in Edges(lq)
    ensures Together(mask, lp, lq)
  {
    SameSides(mask, lp, Edges(lp)[0], i);
    SameSides(mask, lq, j, Edges(lq)[0]);
    Empty(mask).LinkedTrans(LeftCell(Edges(lp)[0]), LeftCell(i), LeftCell(j));
    Empty(mask).LinkedTrans(LeftCell(Edges(lp)[0]), LeftCell(j), LeftCell(Edges(lq)[0]));
    PinchCellsTouch(mask, i, j);
    Filled(mask).LinkedStep(RightCell(i), RightCell(j));
    Filled(mask).LinkedTrans(Foot(lp), RightCell(i), RightCell(j));
    Filled(mask).LinkedTrans(Foot(lp), RightCell(j), Foot(lq));
  }

  /**
   How many rings a room gets from one trace: one for each piece exactly when no joined pinch is
   shared between two loops.
   */
  lemma OneRingIffPinchesKept(mask: set<Pt>, loops: seq<seq<Pt>>)
    requires Traced(mask, loops)
    ensures OneOuterPerPiece(mask, loops) <==> AllKeepPinches(mask, loops)
  {
    if AllKeepPinches(mask, loops) {
      OneOuterEach(mask, loops);
    } else {
      var k :| 0 <= k < |loops| && !KeepsPinches(mask, loops[k]);
      var i, j :| SplitsAt(mask, i, j) && i in Edges(loops[k]) && j !in Edges(loops[k]);
      SharedPinch(mask, loops, k, i, j);
    }
  }

  lemma SharedPinch(mask: set<Pt>, loops: seq<seq<Pt>>, k: nat, i: Edge, j: Edge)
    requires Traced(mask, loops) && k < |loops| && SplitsAt(mask, i, j)
    requires i in Edges(loops[k]) && j !in Edges(loops[k])
    ensures !OneOuterPerPiece(mask, loops)
  {
    var m := TracedHas(mask, loops, j);
    LoopsOfTrace(mask, loops, k);
    LoopsOfTrace(mask, loops, m);
    LoopsAtPinch(mask, loops[k], loops[m], i, j);
    TwoLoopsTogether(mask, loops, k, m);
  }

  /** A loop that starts at a joined pinch closes there on its first return, and so some piece gets two rings. */
  lemma StartAtPinchSplits(mask: set<Pt>, loops: seq<seq<Pt>>, k: nat, i: Edge, j: Edge)
    requires Traced(mask, loops) && k < |loops| && ClosesAtOnce(loops[k])
    requires SplitsAt(mask, i, j) && loops[k][0] == i.dst
    ensures !OneOuterPerPiece(mask, loops)
  {
    LoopsOfTrace(mask, loops, k);
    var last := OneArrival(mask, loops[k]);
    PinchArrivals(mask, i, j, last);
    SplitsBothWays(mask, i, j);
    if last == i {
      SharedPinch(mask, loops, k, i, j);
    } else {
      SharedPinch(mask, loops, k, j, i);
    }
  }

  /** Only the last edge of such a loop arrives where it starts. */
  lemma OneArrival(mask: set<Pt>, lp: seq<Pt>) returns (last: Edge)
    requires LoopOf(mask, lp) && ClosesAtOnce(lp)
    ensures last in Boundary(mask) && last in Edges(lp) && last.dst == lp[0]
    ensures forall e :: e in Edges(lp) && e != last ==> e.dst != lp[0]
  {
    last := Edges(lp)[|lp| - 1];
    LoopEdge(mask, lp, last);
    forall e | e in Edges(lp) && e != last ensures e.dst != lp[0] {
      var s :| 0 <= s < |lp| && Edges(lp)[s] == e;
    }
  }

  /** With a joined pinch, some trace has two outer loops around one piece. */
  lemma JoinedPinchSplits(mask: set<Pt>, loops: seq<seq<Pt>>, i: Edge, j: Edge) returns (split: seq<seq<Pt>>)
    requires Traced(mask, loops) && SplitsAt(mask, i, j)
    ensures Traced(mask, split) && !OneOuterPerPiece(mask, split)
  {
    var k := TracedHas(mask, loops, i);
    var m := TracedHas(mask, loops, j);
    LoopsOfTrace(mask, loops, k);
    LoopsOfTrace(mask, loops, m);
    if k != m {
      LoopsAtPinch(mask, loops[k], loops[m], i, j);
      TwoLoopsTogether(mask, loops, k, m);
      split := loops;
    } else {
      split := SplitAtPinch(mask, loops, k, i, j);
    }
  }

  lemma SplitAtPinch(mask: set<Pt>, loops: seq<seq<Pt>>, k: nat, i: Edge, j: Edge) returns (split: seq<seq<Pt>>)
    requires Traced(mask, loops) && k < |loops| && i in Edges(loops[k]) && j in Edges(loops[k])
    requires i.dst == j.dst && i != j
    ensures Traced(mask, split) && !OneOuterPerPiece(mask, split)
  {
    var s :| 0 <= s < |loops[k]| && Edges(loops[k])[s] == i;
    var t :| 0 <= t < |loops[k]| && Edges(loops[k])[t] == j;
    if s < t {
      split := SplitLoop(mask, loops, k, s, t);
    } else {
      split := SplitLoop(mask, loops, k, t, s);
    }
  }

  /**
   How many rings a room gets. Each piece has one outer loop in every trace, whatever the start
   edges, if and only if no pinch has the same empty region on both sides.
   */
  lemma OneRingPerPiece(mask: set<Pt>, loops: seq<seq<Pt>>)
    requires Traced(mask, loops)
    ensures (forall ls :: Traced(mask, ls) ==> OneOuterPerPiece(mask, ls)) <==> NoJoinedPinch(mask)
  {
    if NoJoinedPinch(mask) {
      forall ls | Traced(mask, ls) ensures OneOuterPerPiece(mask, ls) {
        assert AllKeepPinches(mask, ls);
        OneOuterEach(mask, ls);
      }
    } else {
      var i, j :| SplitsAt(mask, i, j);
      var split := JoinedPinchSplits(mask, loops, i, j);
    }
  }

  // ---- two cells that touch at a corner

  function TwoCells(): set<Pt> { {Pt(0, 0), Pt(1, 1)} }

  /** The loop around both, and the loops around each */
  function Joint(): seq<Pt> {
    [Pt(0, 0), Pt(1, 0), Pt(1, 1), Pt(2, 1), Pt(2, 2), Pt(1, 2), Pt(1, 1), Pt(0, 1)]
  }

  function AroundCell(c: Pt): seq<Pt> {
    [c, Pt(c.x + 1, c.y), Pt(c.x + 1, c.y + 1), Pt(c.x, c.y + 1)]
  }

  /** The empty cells around the two, side by side */
  function Ring(): seq<Pt> {
    [Pt(1, 0), Pt(2, 0), Pt(2, 1), Pt(2, 2), Pt(1, 2), Pt(0, 2), Pt(0, 1), Pt(-1, 1), Pt(-1, 0), Pt(-1, -1), Pt(0, -1)]
  }

  lemma PathLinks(t: Terrain, p: seq<Pt>, i: nat)
    requires t.Path(p) && i < |p|
    ensures t.Linked(p[0], p[i])
  {
    var q := p[..i + 1];
    forall j | 0 <= j < |q| - 1 ensures t.StepAt(q, j) { assert t.StepAt(p, j); }
    assert t.Path(q) && q[0] == p[0] && q[|q| - 1] == p[i];
  }

  lemma RingIsPath()
    ensures Empty(TwoCells()).Path(Ring())
  {
    var t, p := Empty(TwoCells()), Ring();
    forall i | 0 <= i < |p| - 1 ensures t.StepAt(p, i) {
      assert Adj4(p[i], p[i + 1]);
    }
  }

  lemma RingLinked(c: Pt, d: Pt)
    requires c in Ring() && d in Ring()
    ensures Empty(TwoCells()).Linked(c, d)
  {
    RingIsPath();
    var i :| 0 <= i < |Ring()| && Ring()[i] == c;
    var j :| 0 <= j < |Ring()| && Ring()[j] == d;
    PathLinks(Empty(TwoCells()), Ring(), i);
    PathLinks(Empty(TwoCells()), Ring(), j);
    Empty(TwoCells()).LinkedSym(Ring()[0], c);
    Empty(TwoCells()).LinkedTrans(c, Ring()[0], d);
  }

  lemma CellsLinked(c: Pt, d: Pt)
    requires c in TwoCells() && d in TwoCells()
    ensures Filled(TwoCells()).Linked(c, d)
  {
    var t := Filled(TwoCells());
    if c == d {
      t.LinkedSelf(c);
    } else {
      t.LinkedStep(c, d);
    }
  }

  lemma OneSidedThere(es: seq<Edge>)
    requires forall e <- es :: LeftCell(e) in Ring() && RightCell(e) in TwoCells()
    ensures OneSided(TwoCells(), es)
  {
    forall i | 0 <= i < |es|
      ensures Empty(TwoCells()).Linked(LeftCell(es[0]), LeftCell(es[i]))
      ensures Filled(TwoCells()).Linked(RightCell(es[0]), RightCell(es[i]))
    {
      RingLinked(LeftCell(es[0]), LeftCell(es[i]));
      CellsLinked(RightCell(es[0]), RightCell(es[i]));
    }
  }

  lemma {:induction false} ListsOnce<T>(es: seq<T>, s: set<T>)
    requires (forall x :: x in s <==> x in es) && forall i, j :: 0 <= i < j < |es| ==> es[i] != es[j]
    ensures multiset(es) == multiset(s)
  {
    if es != [] {
      var last, front := es[|es| - 1], es[..|es| - 1];
      assert es == front + [last];
      ListsOnce(front, s - {last});
      MultisetOfSetRemove(s, last);
    } else {
      assert s == {};
    }
  }

  lemma TwoCellBoundary(e: Edge)
    ensures e in Boundary(TwoCells()) <==> e in Sides(Pt(0, 0)) || e in Sides(Pt(1, 1))
  {
    SidesOfCell(e, Pt(0, 0));
    SidesOfCell(e, Pt(1, 1));
  }

  lemma JointEdges(e: Edge)
    ensures e in Edges(Joint()) <==> e in Sides(Pt(0, 0)) || e in Sides(Pt(1, 1))
  {
    var es := Edges(Joint());
    assert es[0] == Sides(Pt(0, 0))[0] && es[1] == Sides(Pt(0, 0))[1];
    assert es[2] == Sides(Pt(1, 1))[0] && es[3] == Sides(Pt(1, 1))[1];
    assert es[4] == Sides(Pt(1, 1))[2] && es[5] == Sides(Pt(1, 1))[3];
    assert es[6] == Sides(Pt(0, 0))[2] && es[7] == Sides(Pt(0, 0))[3];
  }

  lemma SidesBesideRing(c: Pt)
    requires c in TwoCells()
    ensures forall e <- Sides(c) :: LeftCell(e) in Ring() && RightCell(e) in TwoCells()
  {
    assert c == Pt(0, 0) || c == Pt(1, 1);
    assert Ring()[0] == Pt(1, 0) && Ring()[2] == Pt(2, 1) && Ring()[4] == Pt(1, 2) && Ring()[6] == Pt(0, 1);
    assert Ring()[8] == Pt(-1, 0) && Ring()[10] == Pt(0, -1);
  }

  lemma AllEdgesOfOne(a: seq<Pt>)
    ensures AllEdges([a]) == Edges(a)
  {
    assert [a][..0] == [];
    assert AllEdges([a]) == [] + Edges(a);
  }

  lemma AllEdgesOfTwo(a: seq<Pt>, b: seq<Pt>)
    ensures AllEdges([a, b]) == Edges(a) + Edges(b)
  {
    assert [a, b][..1] == [a];
    AllEdgesOfOne(a);
  }

  /** One loop that lists the boundary once is a trace. */
  lemma TracedByOne(mask: set<Pt>, a: seq<Pt>)
    requires |a| >= 4 && OneSided(mask, Edges(a)) && forall e :: e in Boundary(mask) <==> e in Edges(a)
    requires forall i, j :: 0 <= i < j < |a| ==> Edges(a)[i] != Edges(a)[j]
    ensures Traced(mask, [a])
  {
    AllEdgesOfOne(a);
    ListsOnce(Edges(a), Boundary(mask));
  }

  /** So are two loops that list it once between them. */
  lemma TracedByTwo(mask: set<Pt>, a: seq<Pt>, b: seq<Pt>, es: seq<Edge>)
    requires |a| >= 4 && |b| >= 4 && OneSided(mask, Edges(a)) && OneSided(mask, Edges(b)) && es == Edges(a) + Edges(b)
    requires forall e :: e in Boundary(mask) <==> e in es
    requires forall i, j :: 0 <= i < j < |es| ==> es[i] != es[j]
    ensures Traced(mask, [a, b])
  {
    AllEdgesOfTwo(a, b);
    ListsOnce(es, Boundary(mask));
    assert multiset(AllEdges([a, b])) == multiset(Boundary(mask));
    forall k | 0 <= k < 2 ensures |[a, b][k]| >= 4 && OneSided(mask, Edges([a, b][k])) {
      assert [a, b][k] == if k == 0 then a else b;
    }
  }

  lemma JointDistinct()
    ensures var es := Edges(Joint()); forall i, j :: 0 <= i < j < |es| ==> es[i] != es[j]
  {
  }

  lemma JointTraced()
    ensures Traced(TwoCells(), [Joint()])
  {
    var es := Edges(Joint());
    forall e ensures e in Boundary(TwoCells()) <==> e in es { TwoCellBoundary(e); JointEdges(e); }
    SidesBesideRing(Pt(0, 0));
    SidesBesideRing(Pt(1, 1));
    forall e <- es ensures LeftCell(e) in Ring() && RightCell(e) in TwoCells() { JointEdges(e); }
    OneSidedThere(es);
    JointDistinct();
    TracedByOne(TwoCells(), Joint());
  }

  lemma AroundIsSides(c: Pt)
    ensures Edges(AroundCell(c)) == Sides(c)
  {
  }

  function Apart(): seq<seq<Pt>> { [AroundCell(Pt(0, 0)), AroundCell(Pt(1, 1))] }

  lemma SidesDistinct()
    ensures var es := Sides(Pt(0, 0)) + Sides(Pt(1, 1)); forall i, j :: 0 <= i < j < |es| ==> es[i] != es[j]
  {
  }

  lemma ApartTraced()
    ensures Traced(TwoCells(), Apart())
  {
    var es := Sides(Pt(0, 0)) + Sides(Pt(1, 1));
    AroundIsSides(Pt(0, 0));
    AroundIsSides(Pt(1, 1));
    forall e ensures e in Boundary(TwoCells()) <==> e in es { TwoCellBoundary(e); }
    SidesBesideRing(Pt(0, 0));
    SidesBesideRing(Pt(1, 1));
    OneSidedThere(Sides(Pt(0, 0)));
    OneSidedThere(Sides(Pt(1, 1)));
    SidesDistinct();
    TracedByTwo(TwoCells(), AroundCell(Pt(0, 0)), AroundCell(Pt(1, 1)), es);
  }

  lemma ApartTogether()
    ensures Together(TwoCells(), AroundCell(Pt(0, 0)), AroundCell(Pt(1, 1)))
  {
    AroundIsSides(Pt(0, 0));
    AroundIsSides(Pt(1, 1));
    SidesBesideRing(Pt(0, 0));
    SidesBesideRing(Pt(1, 1));
    RingLinked(LeftCell(Sides(Pt(0, 0))[0]), LeftCell(Sides(Pt(1, 1))[0]));
    CellsLinked(Foot(AroundCell(Pt(0, 0))), Foot(AroundCell(Pt(1, 1))));
  }

  /**
   The number of rings is not a matter of the mask alone: one loop around both cells is a trace of
   them, and so are two loops, one around each; and the second has two outer loops for one piece.
   */
  lemma RingCountVaries()
    ensures Traced(TwoCells(), [Joint()]) && OneOuterPerPiece(TwoCells(), [Joint()])
    ensures Traced(TwoCells(), Apart()) && !OneOuterPerPiece(TwoCells(), Apart())
  {
    JointTraced();
    ApartTraced();
    ApartTogether();
    TwoLoopsTogether(TwoCells(), Apart(), 0, 1);
  }
}
