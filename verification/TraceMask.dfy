/**
 Tracing a mask into closed boundary loops.

 The walk stitches boundary edges end to start. Where two mask cells meet only at a corner (a
 pinch) two edges leave the same vertex, and the walk prefers the one that turns away from the
 cell it was following.
 */
module TraceMask {
  import opened Grid

  // ---- what a trace is

  /** The vertex after the i-th, going round. */
  function Next(lp: seq<Pt>, i: nat): Pt
    requires i < |lp|
  {
    lp[if i + 1 < |lp| then i + 1 else 0]
  }

  function Edges(lp: seq<Pt>): (es: seq<Edge>)
    ensures |es| == |lp|
  {
    seq(|lp|, i requires 0 <= i < |lp| => Edge(lp[i], Next(lp, i)))
  }

  ghost function AllEdges(loops: seq<seq<Pt>>): seq<Edge> {
    if loops == [] then [] else AllEdges(loops[..|loops| - 1]) + Edges(loops[|loops| - 1])
  }

  /** All left-hand cells lie in one region of empty cells, all right-hand cells in one region of the mask. */
  ghost predicate OneSided(mask: set<Pt>, es: seq<Edge>) {
    forall i :: 0 <= i < |es| ==>
      && Empty(mask).Linked(LeftCell(es[0]), LeftCell(es[i]))
      && Filled(mask).Linked(RightCell(es[0]), RightCell(es[i]))
  }

  /** Closed loops that use every boundary edge exactly once between them, each one-sided. */
  ghost predicate Traced(mask: set<Pt>, loops: seq<seq<Pt>>) {
    && multiset(AllEdges(loops)) == multiset(Boundary(mask))
    && forall k :: 0 <= k < |loops| ==> |loops[k]| >= 4 && OneSided(mask, Edges(loops[k]))
  }

  /** The loop comes back to the vertex it starts at only at its end. */
  ghost predicate ClosesAtOnce(loop: seq<Pt>) {
    forall s :: 0 < s < |loop| ==> loop[s] != loop[0]
  }

  ghost predicate AllCloseAtOnce(loops: seq<seq<Pt>>) {
    forall k :: 0 <= k < |loops| ==> ClosesAtOnce(loops[k])
  }

  // ---- turning at a vertex

  /** The edge that leaves at the end of e with a negative cross product: the turn away from the mask cell. */
  function LeftTurn(e: Edge): Edge {
    Edge(e.dst, Pt(e.dst.x + (e.dst.y - e.src.y), e.dst.y - (e.dst.x - e.src.x)))
  }

  /** The edge whose left turn is o. */
  function Partner(o: Edge): Edge {
    Edge(Pt(o.src.x + (o.dst.y - o.src.y), o.src.y - (o.dst.x - o.src.x)), o.src)
  }

  function Straight(e: Edge): Edge {
    Edge(e.dst, Pt(e.dst.x + (e.dst.x - e.src.x), e.dst.y + (e.dst.y - e.src.y)))
  }

  function Rank(cur: Pt, din: (int, int), end: Pt): int {
    var dx, dy := end.x - cur.x, end.y - cur.y;
    var cross := din.0 * dy - din.1 * dx;
    var dot := din.0 * dx + din.1 * dy;
    if cross < 0 then 0
    else if cross == 0 then (if dot > 0 then 1 else 3)
    else 2
  }

  function BestTurn(cur: Pt, din: (int, int), cands: seq<Pt>): (best: Pt)
    requires cands != []
    ensures best in cands
    ensures forall q <- cands :: Rank(cur, din, best) <= Rank(cur, din, q)
  {
    if |cands| == 1 then cands[0]
    else
      var rest := BestTurn(cur, din, cands[1..]);
      if Rank(cur, din, cands[0]) <= Rank(cur, din, rest) then cands[0] else rest
  }

  /** din is the direction of edge e */
  ghost predicate Heading(e: Edge, din: (int, int)) {
    din.0 == e.dst.x - e.src.x && din.1 == e.dst.y - e.src.y
  }

  lemma RankZeroIsLeftTurn(i: Edge, din: (int, int), q: Pt)
    requires Unit(i) && Unit(Edge(i.dst, q)) && Heading(i, din)
    ensures Rank(i.dst, din, q) >= 0
    ensures Rank(i.dst, din, q) == 0 <==> Edge(i.dst, q) == LeftTurn(i)
  {
  }

  /** Successive boundary edges never reverse and stay linked on the right; on the left unless a left turn was lost. */
  lemma Junction(mask: set<Pt>, i: Edge, o: Edge)
    requires i in Boundary(mask) && o in Boundary(mask) && i.dst == o.src
    ensures o != Rev(i)
    ensures Filled(mask).Linked(RightCell(i), RightCell(o))
    ensures o == LeftTurn(i) ==> LeftCell(o) == LeftCell(i)
    ensures LeftTurn(i) !in Boundary(mask) ==> Empty(mask).Linked(LeftCell(i), LeftCell(o))
  {
    NotBothWays(mask, i);
    var filled, empty := Filled(mask), Empty(mask);
    if RightCell(i) == RightCell(o) {
      filled.LinkedSelf(RightCell(i));
    } else {
      filled.LinkedStep(RightCell(i), RightCell(o));
    }
    if LeftTurn(i) !in Boundary(mask) {
      var ahead := LeftCell(Straight(i));
      assert RightCell(LeftTurn(i)) == ahead && LeftCell(LeftTurn(i)) == LeftCell(i);
      empty.LinkedStep(LeftCell(i), ahead);
      if o != Straight(i) {
        empty.LinkedStep(ahead, LeftCell(o));
        empty.LinkedTrans(LeftCell(i), ahead, LeftCell(o));
      }
    }
  }

  /** Where two boundary edges arrive at one vertex, the left turn of each leaves it again. */
  lemma Pinch(mask: set<Pt>, i: Edge, j: Edge)
    requires i in Boundary(mask) && j in Boundary(mask) && i.dst == j.dst && i != j
    ensures LeftTurn(i) in Boundary(mask) && LeftTurn(j) in Boundary(mask)
    ensures LeftCell(LeftTurn(i)) == LeftCell(i) && LeftCell(LeftTurn(j)) == LeftCell(j)
  {
  }

  // ---- loops that were cut short at a pinch

  ghost predicate Joined(mask: set<Pt>, a: Pt, b: Pt) {
    a !in mask && b !in mask ==> Empty(mask).Linked(a, b) && Empty(mask).Linked(b, a)
  }

  /** Empty cells that face each other across the vertex belong to one empty region. */
  ghost predicate PinchJoined(mask: set<Pt>, v: Pt) {
    && Joined(mask, Pt(v.x - 1, v.y - 1), v)
    && Joined(mask, Pt(v.x - 1, v.y), Pt(v.x, v.y - 1))
  }

  lemma JoinedAcross(mask: set<Pt>, i: Edge, o: Edge)
    requires i in Boundary(mask) && o in Boundary(mask) && i.dst == o.src
    requires LeftTurn(i) in Boundary(mask) && LeftTurn(i) != o
    requires PinchJoined(mask, o.src)
    ensures Empty(mask).Linked(LeftCell(i), LeftCell(o))
  {
  }

  /** Edge o is already walked, its partner still waits, and o is not the start of the open walk. */
  ghost predicate Cut(mask: set<Pt>, remaining: set<Edge>, open: set<Edge>, o: Edge) {
    o in Boundary(mask) && o !in remaining && o !in open && Partner(o) in remaining
  }

  /** Loops are cut short only at pinches whose empty cells are joined. */
  ghost predicate CutsJoined(mask: set<Pt>, remaining: set<Edge>, open: set<Edge>) {
    forall o :: Cut(mask, remaining, open, o) ==> PinchJoined(mask, o.src)
  }

  lemma PinchIsJoined(mask: set<Pt>, i: Edge, j: Edge)
    requires i in Boundary(mask) && j in Boundary(mask) && i.dst == j.dst && i != j
    requires Empty(mask).Linked(LeftCell(i), LeftCell(j))
    ensures PinchJoined(mask, i.dst)
  {
    Pinch(mask, i, j);
    Empty(mask).LinkedSym(LeftCell(i), LeftCell(j));
  }

  // ---- closed loops of boundary edges

  lemma {:induction false} ParityAlong(lp: seq<Pt>, i: nat)
    requires i < |lp| && forall j :: 0 <= j < |lp| ==> Unit(Edges(lp)[j])
    ensures (lp[i].x + lp[i].y + i) % 2 == (lp[0].x + lp[0].y) % 2
  {
    if i > 0 {
      ParityAlong(lp, i - 1);
      assert Unit(Edges(lp)[i - 1]);
    }
  }

  /** A closed loop of boundary edges has even length, at least four. */
  lemma LoopLength(mask: set<Pt>, lp: seq<Pt>)
    requires |lp| > 0 && forall i :: 0 <= i < |lp| ==> Edges(lp)[i] in Boundary(mask)
    ensures |lp| % 2 == 0 && |lp| >= 4
  {
    var n := |lp|;
    ParityAlong(lp, n - 1);
    assert Unit(Edges(lp)[n - 1]) && Unit(Edges(lp)[0]);
  }

  // ---- the tracer

  ghost predicate Distinct(ends: seq<Pt>) {
    forall i, j :: 0 <= i < j < |ends| ==> ends[i] != ends[j]
  }

  /** The index lists each of these edges, and no other, once under its start. */
  ghost predicate IndexesEdges(adj: map<Pt, seq<Pt>>, edges: set<Edge>) {
    && (forall e: Edge :: e in edges <==> e.src in adj && e.dst in adj[e.src])
    && (forall p :: p in adj ==> Distinct(adj[p]))
  }

  function Listed(adj: map<Pt, seq<Pt>>, e: Edge): map<Pt, seq<Pt>> {
    adj[e.src := (if e.src in adj then adj[e.src] else []) + [e.dst]]
  }

  lemma ListEdge(adj: map<Pt, seq<Pt>>, edges: set<Edge>, e: Edge)
    requires IndexesEdges(adj, edges) && e !in edges
    ensures IndexesEdges(Listed(adj, e), edges + {e})
  {
    var after, ends := Listed(adj, e), if e.src in adj then adj[e.src] else [];
    assert e.dst !in ends by {
      assert e == Edge(e.src, e.dst);
    }
    forall f: Edge ensures f in edges + {e} <==> f.src in after && f.dst in after[f.src] {
      assert f.src == e.src ==> after[f.src] == ends + [e.dst];
    }
  }

  lemma DistinctSides(cell: Pt, i: nat)
    requires i < 4
    ensures Sides(cell)[i] !in Sides(cell)[..i]
  {
  }

  method CollectEdges(mask: set<Pt>) returns (adj: map<Pt, seq<Pt>>, remaining: set<Edge>)
    ensures remaining == Boundary(mask)
    ensures IndexesEdges(adj, remaining)
  {
    adj, remaining := map[], {};
    var todo := mask;
    while todo != {}
      invariant todo <= mask
      invariant forall e :: e in remaining <==> IsBoundary(mask, e) && RightCell(e) !in todo
      invariant IndexesEdges(adj, remaining)
    {
      var cell :| cell in todo;
      todo := todo - {cell};
      var c, r := cell.x, cell.y;
      var sides := Sides(cell);
      var beyond := [Pt(c, r - 1), Pt(c + 1, r), Pt(c, r + 1), Pt(c - 1, r)];
      for i := 0 to 4
        invariant forall e :: e in remaining <==>
          IsBoundary(mask, e) && RightCell(e) !in todo && (RightCell(e) == cell ==> e in sides[..i])
        invariant IndexesEdges(adj, remaining)
      {
        var side := sides[i];
        SidesOfCell(side, cell);
        assert LeftCell(side) == beyond[i];
        if beyond[i] !in mask {
          DistinctSides(cell, i);
          ListEdge(adj, remaining, side);
          adj := adj[side.src := (if side.src in adj then adj[side.src] else []) + [side.dst]];
          remaining := remaining + {side};
        }
        assert sides[..i + 1] == sides[..i] + [side];
      }
      forall e | IsBoundary(mask, e) && RightCell(e) == cell ensures e in sides[..4] {
        SidesOfCell(e, cell);
      }
    }
  }

  function Candidates(ends: seq<Pt>, cur: Pt, remaining: set<Edge>): (cands: seq<Pt>)
    ensures forall q :: q in cands <==> q in ends && Edge(cur, q) in remaining
  {
    if ends == [] then []
    else if Edge(cur, ends[0]) in remaining then [ends[0]] + Candidates(ends[1..], cur, remaining)
    else Candidates(ends[1..], cur, remaining)
  }

  /** The candidates at a vertex are the ends of the edges that still leave it. */
  ghost predicate Offers(cands: seq<Pt>, cur: Pt, remaining: set<Edge>) {
    forall q :: q in cands <==> Edge(cur, q) in remaining
  }

  /** What holds of the unwalked edges between loops. */
  ghost predicate Ready(mask: set<Pt>, remaining: set<Edge>) {
    && remaining <= Boundary(mask)
    && (forall p :: Excess(remaining, p) == 0)
    && CutsJoined(mask, remaining, {})
  }

  /** The edges of an open walk are distinct edges that came out of the pool. */
  ghost predicate WalkSoFar(mask: set<Pt>, before: set<Edge>, remaining: set<Edge>, loop: seq<Pt>, walked: seq<Edge>) {
    && |loop| == |walked| + 1 && |walked| > 0
    && (forall i {:trigger walked[i]} :: 0 <= i < |walked| ==> walked[i] == Edge(loop[i], loop[i + 1]))
    && multiset(walked) + multiset(remaining) == multiset(before)
    && remaining < before <= Boundary(mask)
    && (forall i :: 0 <= i < |walked| ==> walked[i] in Boundary(mask))
    && OneSided(mask, walked)
  }

  /** Only the two ends of an open walk are out of balance. */
  ghost predicate OpenBalance(remaining: set<Edge>, start: Pt, cur: Pt) {
    forall p :: Excess(remaining, p) == Tally(p == cur) - Tally(p == start)
  }

  /** If the left turn at the end of the walk is already used, by another loop, the pinch there is joined. */
  ghost predicate ArrivalJoined(mask: set<Pt>, remaining: set<Edge>, first: Edge, last: Edge) {
    (LeftTurn(last) in Boundary(mask) && LeftTurn(last) !in remaining && LeftTurn(last) != first)
    ==> PinchJoined(mask, last.dst)
  }

  lemma StepLinks(mask: set<Pt>, remaining: set<Edge>, walked: seq<Edge>, out: Edge)
    requires |walked| > 0 && remaining <= Boundary(mask) && OneSided(mask, walked)
    requires walked[|walked| - 1] in Boundary(mask)
    requires ArrivalJoined(mask, remaining, walked[0], walked[|walked| - 1])
    requires out in remaining && out.src == walked[|walked| - 1].dst != walked[0].src
    requires LeftTurn(walked[|walked| - 1]) in remaining ==> out == LeftTurn(walked[|walked| - 1])
    ensures OneSided(mask, walked + [out])
  {
    var first, last := walked[0], walked[|walked| - 1];
    var empty, filled := Empty(mask), Filled(mask);
    Junction(mask, last, out);
    if out == LeftTurn(last) {
      empty.LinkedSelf(LeftCell(last));
    } else if LeftTurn(last) in Boundary(mask) {
      JoinedAcross(mask, last, out);
    }
    assert empty.Linked(LeftCell(last), LeftCell(out));
    empty.LinkedTrans(LeftCell(first), LeftCell(last), LeftCell(out));
    filled.LinkedTrans(RightCell(first), RightCell(last), RightCell(out));
  }

  lemma StepKeepsCutsJoined(mask: set<Pt>, remaining: set<Edge>, first: Edge, last: Edge, out: Edge)
    requires remaining <= Boundary(mask) && last in Boundary(mask) && last !in remaining
    requires CutsJoined(mask, remaining, {first})
    requires ArrivalJoined(mask, remaining, first, last)
    requires out in remaining && out.src == last.dst != first.src
    requires LeftTurn(last) in remaining ==> out == LeftTurn(last)
    ensures CutsJoined(mask, remaining - {out}, {first})
    ensures ArrivalJoined(mask, remaining - {out}, first, out)
  {
    forall o | Cut(mask, remaining - {out}, {first}, o) ensures PinchJoined(mask, o.src) {
      if o == out {
        Pinch(mask, last, Partner(out));
      } else {
        assert Cut(mask, remaining, {first}, o);
      }
    }
    var turn := LeftTurn(out);
    assert Partner(turn) == out;
    assert Cut(mask, remaining, {first}, turn) || !(turn in Boundary(mask) && turn !in remaining && turn != first);
  }

  lemma ClosingJoinsCuts(mask: set<Pt>, remaining: set<Edge>, walked: seq<Edge>)
    requires |walked| > 0 && OneSided(mask, walked) && remaining <= Boundary(mask)
    requires CutsJoined(mask, remaining, {walked[0]})
    requires walked[|walked| - 1] in Boundary(mask) && walked[|walked| - 1] !in remaining
    requires walked[0] in Boundary(mask) && walked[|walked| - 1].dst == walked[0].src
    ensures CutsJoined(mask, remaining, {})
  {
    var first, last := walked[0], walked[|walked| - 1];
    var other := Partner(first);
    forall o | Cut(mask, remaining, {}, o) ensures PinchJoined(mask, o.src) {
      if o == first {
        assert LeftCell(other) == LeftCell(first);
        PinchIsJoined(mask, other, last);
      } else {
        assert Cut(mask, remaining, {first}, o);
      }
    }
  }

  lemma BalanceAfterFirst(before: set<Edge>, first: Edge)
    requires first in before && Unit(first) && forall p :: Excess(before, p) == 0
    ensures OpenBalance(before - {first}, first.src, first.dst)
  {
    forall p ensures Excess(before - {first}, p) == Tally(p == first.dst) - Tally(p == first.src) {
      ExcessAfterRemove(before, first, p);
    }
  }

  lemma BalanceAfterStep(remaining: set<Edge>, start: Pt, out: Edge)
    requires out in remaining && Unit(out) && OpenBalance(remaining, start, out.src)
    ensures OpenBalance(remaining - {out}, start, out.dst)
  {
    forall p ensures Excess(remaining - {out}, p) == Tally(p == out.dst) - Tally(p == start) {
      ExcessAfterRemove(remaining, out, p);
    }
  }

  /** The state of an open walk that went from edge `first` to edge `last`. */
  ghost predicate Walking(mask: set<Pt>, before: set<Edge>, remaining: set<Edge>,
                          loop: seq<Pt>, walked: seq<Edge>, first: Edge, last: Edge) {
    && WalkSoFar(mask, before, remaining, loop, walked)
    && walked[0] == first && walked[|walked| - 1] == last && last !in remaining
    && OpenBalance(remaining, first.src, last.dst)
    && CutsJoined(mask, remaining, {first})
    && (last.dst != first.src ==> ArrivalJoined(mask, remaining, first, last))
  }

  lemma StartWalk(mask: set<Pt>, before: set<Edge>, first: Edge)
    requires Ready(mask, before) && first in before
    ensures Walking(mask, before, before - {first}, [first.src, first.dst], [first], first, first)
  {
    BalanceAfterFirst(before, first);
    FirstSoFar(mask, before, first);
    FirstKeepsCutsJoined(mask, before, first);
  }

  lemma FirstSoFar(mask: set<Pt>, before: set<Edge>, first: Edge)
    requires before <= Boundary(mask) && first in before
    ensures WalkSoFar(mask, before, before - {first}, [first.src, first.dst], [first])
  {
    Empty(mask).LinkedSelf(LeftCell(first));
    Filled(mask).LinkedSelf(RightCell(first));
    assert multiset([first]) + multiset(before - {first}) == multiset(before);
  }

  lemma FirstKeepsCutsJoined(mask: set<Pt>, before: set<Edge>, first: Edge)
    requires before <= Boundary(mask) && first in before && CutsJoined(mask, before, {})
    ensures CutsJoined(mask, before - {first}, {first})
    ensures ArrivalJoined(mask, before - {first}, first, first)
  {
    var turn := LeftTurn(first);
    assert Partner(turn) == first;
    assert Cut(mask, before, {}, turn) || !(turn in Boundary(mask) && turn !in before);
    forall o | Cut(mask, before - {first}, {first}, o) ensures PinchJoined(mask, o.src) {
      assert Cut(mask, before, {}, o);
    }
  }

  lemma ContinueWalk(mask: set<Pt>, before: set<Edge>, remaining: set<Edge>, loop: seq<Pt>, walked: seq<Edge>,
                     first: Edge, last: Edge, din: (int, int), cands: seq<Pt>)
    requires Walking(mask, before, remaining, loop, walked, first, last) && last.dst != first.src
    requires Heading(last, din)
    requires cands != [] && Offers(cands, last.dst, remaining)
    ensures var nxt := BestTurn(last.dst, din, cands);
            var out := Edge(last.dst, nxt);
            && out in remaining
            && Walking(mask, before, remaining - {out}, loop + [nxt], walked + [out], first, out)
  {
    var out := Edge(last.dst, BestTurn(last.dst, din, cands));
    BestTurnPrefersLeft(mask, remaining, last, din, cands, out.dst);
    StepLinks(mask, remaining, walked, out);
    StepKeepsCutsJoined(mask, remaining, first, last, out);
    TakeEdge(mask, before, remaining, loop, walked, out);
    BalanceAfterStep(remaining, first.src, out);
  }

  /** A walk that is not back at its start can always go on. */
  lemma NeverStuck(remaining: set<Edge>, start: Pt, cur: Pt) returns (q: Pt)
    requires OpenBalance(remaining, start, cur) && cur != start
    ensures Edge(cur, q) in remaining
  {
    var out := PositiveExcess(remaining, cur);
    q := out.dst;
  }

  lemma CloseWalk(mask: set<Pt>, before: set<Edge>, remaining: set<Edge>, loop: seq<Pt>, walked: seq<Edge>,
                  first: Edge, last: Edge)
    requires Walking(mask, before, remaining, loop, walked, first, last) && last.dst == first.src
    ensures Ready(mask, remaining)
    ensures |loop| >= 5 && Edges(loop[..|loop| - 1]) == walked
  {
    ClosingJoinsCuts(mask, remaining, walked);
    ClosedEdges(mask, before, remaining, loop, walked);
    assert forall p :: Excess(remaining, p) == Tally(p == last.dst) - Tally(p == first.src);
  }

  lemma ClosedEdges(mask: set<Pt>, before: set<Edge>, remaining: set<Edge>, loop: seq<Pt>, walked: seq<Edge>)
    requires WalkSoFar(mask, before, remaining, loop, walked)
    requires walked[|walked| - 1].dst == walked[0].src
    ensures |loop| >= 5 && Edges(loop[..|loop| - 1]) == walked
  {
    var lp := loop[..|loop| - 1];
    assert Edges(lp) == walked;
    LoopLength(mask, lp);
  }

  lemma CandidatesRemain(mask: set<Pt>, adj: map<Pt, seq<Pt>>, cur: Pt, remaining: set<Edge>, ends: seq<Pt>)
    requires IndexesEdges(adj, Boundary(mask)) && remaining <= Boundary(mask)
    requires ends == if cur in adj then adj[cur] else []
    ensures Offers(Candidates(ends, cur, remaining), cur, remaining)
  {
  }

  /** A walk from start to cur that was not at its start in between */
  ghost predicate NotYetBack(loop: seq<Pt>, start: Pt, cur: Pt) {
    && |loop| > 1 && loop[0] == start && loop[|loop| - 1] == cur
    && forall s :: 0 < s < |loop| - 1 ==> loop[s] != start
  }

  lemma FurtherOn(loop: seq<Pt>, start: Pt, cur: Pt, p: Pt)
    requires NotYetBack(loop, start, cur) && cur != start
    ensures NotYetBack(loop + [p], start, p)
  {
  }

  lemma BackAtLast(loop: seq<Pt>, start: Pt)
    requires NotYetBack(loop, start, start)
    ensures ClosesAtOnce(loop[..|loop| - 1]) && (|loop| > 2 ==> loop[..|loop| - 1][0] == start)
  {
  }

  /** Walk one loop, starting along `first`. */
  method WalkLoop(ghost mask: set<Pt>, adj: map<Pt, seq<Pt>>, before: set<Edge>, first: Edge)
    returns (loop: seq<Pt>, remaining: set<Edge>)
    requires Ready(mask, before) && first in before
    requires IndexesEdges(adj, Boundary(mask))
    ensures Ready(mask, remaining) && remaining < before
    ensures |loop| >= 4 && OneSided(mask, Edges(loop))
    ensures multiset(Edges(loop)) + multiset(remaining) == multiset(before)
    ensures loop[0] == first.src && ClosesAtOnce(loop)
  {
    var start, end := first.src, first.dst;
    remaining := before - {first};
    loop := [start, end];
    var prev, cur := start, end;
    ghost var walked := [first];
    StartWalk(mask, before, first);
    while cur != start
      invariant Walking(mask, before, remaining, loop, walked, first, Edge(prev, cur))
      invariant NotYetBack(loop, start, cur)
      decreases remaining
    {
      var din := (cur.x - prev.x, cur.y - prev.y);
      var ends := if cur in adj then adj[cur] else [];
      var cands := Candidates(ends, cur, remaining);
      CandidatesRemain(mask, adj, cur, remaining, ends);
      ghost var q := NeverStuck(remaining, start, cur);
      assert q in cands;
      if cands == [] {
        break;
      }
      var nxt := BestTurn(cur, din, cands);
      ghost var out := Edge(cur, nxt);
      FurtherOn(loop, start, cur, nxt);
      ContinueWalk(mask, before, remaining, loop, walked, first, Edge(prev, cur), din, cands);
      remaining := remaining - {Edge(cur, nxt)};
      prev, cur := cur, nxt;
      loop := loop + [cur];
      walked := walked + [out];
    }
    CloseWalk(mask, before, remaining, loop, walked, first, Edge(prev, cur));
    if cur == start {
      BackAtLast(loop, start);
      loop := loop[..|loop| - 1];
    }
  }

  lemma TakeEdge(mask: set<Pt>, before: set<Edge>, remaining: set<Edge>, loop: seq<Pt>, walked: seq<Edge>, out: Edge)
    requires WalkSoFar(mask, before, remaining, loop, walked)
    requires out in remaining && out.src == loop[|loop| - 1] && OneSided(mask, walked + [out])
    ensures WalkSoFar(mask, before, remaining - {out}, loop + [out.dst], walked + [out])
  {
  }

  lemma BestTurnPrefersLeft(mask: set<Pt>, remaining: set<Edge>, last: Edge, din: (int, int), cands: seq<Pt>, nxt: Pt)
    requires remaining <= Boundary(mask) && last in Boundary(mask)
    requires Offers(cands, last.dst, remaining)
    requires Heading(last, din)
    requires cands != [] && nxt == BestTurn(last.dst, din, cands)
    ensures Edge(last.dst, nxt) in remaining
    ensures LeftTurn(last) in remaining ==> Edge(last.dst, nxt) == LeftTurn(last)
  {
    RankZeroIsLeftTurn(last, din, nxt);
    if LeftTurn(last) in remaining {
      assert LeftTurn(last).dst in cands;
      RankZeroIsLeftTurn(last, din, LeftTurn(last).dst);
    }
  }

  /**
   Where two mask cells touch only at a corner, a walk that has to go on there leaves along the
   other cell, unless that way was walked before: exactly then it stays with its own cell and
   keeps the two apart.
   */
  lemma PinchPassesThrough(mask: set<Pt>, remaining: set<Edge>, i: Edge, j: Edge, din: (int, int), cands: seq<Pt>)
    requires i in Boundary(mask) && j in Boundary(mask) && i.dst == j.dst && i != j
    requires remaining <= Boundary(mask) && Offers(cands, i.dst, remaining) && cands != [] && Heading(i, din)
    ensures var o := Edge(i.dst, BestTurn(i.dst, din, cands));
      && RightCell(i) != RightCell(j)
      && (RightCell(o) == RightCell(j) <==> LeftTurn(i) in remaining)
      && (RightCell(o) == RightCell(i) <==> LeftTurn(i) !in remaining)
  {
    var nxt := BestTurn(i.dst, din, cands);
    BestTurnPrefersLeft(mask, remaining, i, din, cands, nxt);
    AcrossPinch(mask, i, j, Edge(i.dst, nxt));
  }

  /** Two cells that touch at a corner: a walk that comes down the right side of the first goes on along the second. */
  lemma TouchingCellsExample(cands: seq<Pt>)
    requires Offers(cands, Pt(1, 1), Boundary({Pt(0, 0), Pt(1, 1)}))
    ensures cands != [] && RightCell(Edge(Pt(1, 0), Pt(1, 1))) == Pt(0, 0)
    ensures RightCell(Edge(Pt(1, 1), BestTurn(Pt(1, 1), (0, 1), cands))) == Pt(1, 1)
  {
    var mask := {Pt(0, 0), Pt(1, 1)};
    var i, j := Edge(Pt(1, 0), Pt(1, 1)), Edge(Pt(1, 2), Pt(1, 1));
    assert LeftTurn(i) == Edge(Pt(1, 1), Pt(2, 1)) && LeftTurn(i) in Boundary(mask);
    assert Pt(2, 1) in cands;
    PinchPassesThrough(mask, Boundary(mask), i, j, (0, 1), cands);
  }

  /** Only two edges leave a pinch: the left turn of an arrival goes along the other cell, the other along its own. */
  lemma AcrossPinch(mask: set<Pt>, i: Edge, j: Edge, o: Edge)
    requires i in Boundary(mask) && j in Boundary(mask) && i.dst == j.dst && i != j
    requires o in Boundary(mask) && o.src == i.dst
    ensures RightCell(i) != RightCell(j)
    ensures RightCell(o) == if o == LeftTurn(i) then RightCell(j) else RightCell(i)
  {
  }

  /** The loops so far and the edges not yet walked make up the boundary between them. */
  ghost predicate Tracing(mask: set<Pt>, loops: seq<seq<Pt>>, remaining: set<Edge>) {
    && multiset(AllEdges(loops)) + multiset(remaining) == multiset(Boundary(mask))
    && (forall k :: 0 <= k < |loops| ==> |loops[k]| >= 4 && OneSided(mask, Edges(loops[k])))
    && AllCloseAtOnce(loops)
  }

  lemma AddLoop(mask: set<Pt>, loops: seq<seq<Pt>>, before: set<Edge>, remaining: set<Edge>, loop: seq<Pt>)
    requires Tracing(mask, loops, before)
    requires |loop| >= 4 && OneSided(mask, Edges(loop)) && ClosesAtOnce(loop)
    requires multiset(Edges(loop)) + multiset(remaining) == multiset(before)
    ensures Tracing(mask, loops + [loop], remaining)
  {
    var more := loops + [loop];
    AddEdges(mask, loops, before, remaining, loop);
    forall k | 0 <= k < |more| ensures |more[k]| >= 4 && OneSided(mask, Edges(more[k])) && ClosesAtOnce(more[k]) {
      assert more[k] == if k < |loops| then loops[k] else loop;
    }
  }

  lemma AddEdges(mask: set<Pt>, loops: seq<seq<Pt>>, before: set<Edge>, remaining: set<Edge>, loop: seq<Pt>)
    requires multiset(AllEdges(loops)) + multiset(before) == multiset(Boundary(mask))
    requires multiset(Edges(loop)) + multiset(remaining) == multiset(before)
    ensures multiset(AllEdges(loops + [loop])) + multiset(remaining) == multiset(Boundary(mask))
  {
    assert (loops + [loop])[..|loops + [loop]| - 1] == loops;
    assert multiset(AllEdges(loops + [loop])) == multiset(AllEdges(loops)) + multiset(Edges(loop));
  }

  /** Trace the mask. Which edge each loop starts from is left open. */
  method Trace(mask: set<Pt>) returns (loops: seq<seq<Pt>>)
    ensures Traced(mask, loops)
    ensures AllCloseAtOnce(loops)
  {
    var adj, remaining := CollectEdges(mask);
    loops := [];
    forall p ensures Excess(remaining, p) == 0 { BoundaryBalanced(mask, p); }
    assert forall o :: !Cut(mask, remaining, {}, o);
    while remaining != {}
      invariant Ready(mask, remaining)
      invariant Tracing(mask, loops, remaining)
      decreases remaining
    {
      var first :| first in remaining;
      ghost var before := remaining;
      var loop;
      loop, remaining := WalkLoop(mask, adj, remaining, first);
      AddLoop(mask, loops, before, remaining, loop);
      if |loop| >= 3 {
        loops := loops + [loop];
      }
    }
  }
}
