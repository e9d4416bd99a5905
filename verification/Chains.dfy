/** Choosing the rings that outline each room: the outer loops of its mask, compressed. */
module Chains {
  import opened Sums
  import opened Grid
  import opened TraceMask
  import opened Winding
  import opened LoopSides
  import opened Nesting
  import opened SolidFill
  import opened Corners
  import opened Rings

  datatype Chain = Chain(id: int, rings: seq<seq<Pt>>)

  /**
   What a room's rings promise a renderer. Filled by nonzero winding they paint the mask and all it
   encloses, nothing else; and their areas show whether anything was enclosed.
   */
  ghost predicate Draws(mask: set<Pt>, rings: seq<seq<Pt>>) {
    && |rings| > 0
    && (forall r :: 0 <= r < |rings| ==> RectRing(rings[r]))
    && (forall r, c :: 0 <= r < |rings| ==> 0 <= Wind(rings[r], c) <= 1)
    && (forall c :: TotalWind(rings, c) != 0 <==> Solid(mask, c))
    && Sum(AreaOf(), rings) >= 2 * |mask|
    && (Sum(AreaOf(), rings) == 2 * |mask| <==> forall c :: Solid(mask, c) ==> c in mask)
  }

  /** One chain per non-empty mask, in ascending order of label */
  ghost predicate ChainsOf(masks: map<int, set<Pt>>, chains: seq<Chain>) {
    && (forall i, j :: 0 <= i < j < |chains| ==> chains[i].id < chains[j].id)
    && (forall lab :: (lab in masks && masks[lab] != {}) <==> HasId(chains, lab))
    && (forall i :: 0 <= i < |chains| ==> Draws(masks[chains[i].id], chains[i].rings))
  }

  // ---- the selection

  /** The loops of positive area, compressed */
  ghost function OuterRings(loops: seq<seq<Pt>>): seq<seq<Pt>> {
    if loops == [] then []
    else
      var last := loops[|loops| - 1];
      OuterRings(loops[..|loops| - 1]) + (if Area(last) >= 0 then [Compressed(last)] else [])
  }

  /** All loops are loops of the mask */
  ghost predicate AllLoops(mask: set<Pt>, loops: seq<seq<Pt>>) {
    forall k :: 0 <= k < |loops| ==> LoopOf(mask, loops[k])
  }

  lemma RingOfLoop(mask: set<Pt>, lp: seq<Pt>, c: Pt)
    requires LoopOf(mask, lp) && Area(lp) >= 0
    ensures RectRing(Compressed(lp)) && Area(Compressed(lp)) == Area(lp)
    ensures Wind(Compressed(lp), c) == Wind(lp, c) && 0 <= Wind(lp, c) <= 1
  {
    TracedLoopIsGridLoop(mask, lp);
    CompressedIsRectRing(lp);
    CompressedMeasures(lp, c);
    AreaTellsKind(mask, lp);
    WindOfKind(mask, lp, c);
  }

  lemma {:induction false} OuterRingsShape(mask: set<Pt>, loops: seq<seq<Pt>>, c: Pt)
    requires AllLoops(mask, loops)
    ensures forall r :: 0 <= r < |OuterRings(loops)| ==>
      RectRing(OuterRings(loops)[r]) && 0 <= Wind(OuterRings(loops)[r], c) <= 1
  {
    if loops != [] {
      var last := loops[|loops| - 1];
      OuterRingsShape(mask, loops[..|loops| - 1], c);
      if Area(last) >= 0 {
        RingOfLoop(mask, last, c);
      }
    }
  }

  lemma {:induction false} OuterRingsCover(mask: set<Pt>, loops: seq<seq<Pt>>, c: Pt)
    requires AllLoops(mask, loops)
    ensures TotalWind(OuterRings(loops), c) >= 0
    ensures TotalWind(OuterRings(loops), c) != 0 <==> InsideSomeOuter(loops, c)
  {
    if loops != [] {
      var n := |loops| - 1;
      OuterRingsCover(mask, loops[..n], c);
      OneRingMore(mask, OuterRings(loops[..n]), loops[n], c);
      SomeLoopInside(loops, c);
    }
  }

  /** A further loop adds its winding if it is an outer one, and nothing otherwise. */
  lemma OneRingMore(mask: set<Pt>, rings: seq<seq<Pt>>, last: seq<Pt>, c: Pt)
    requires LoopOf(mask, last)
    ensures TotalWind(rings + (if Area(last) >= 0 then [Compressed(last)] else []), c)
         == TotalWind(rings, c) + (if Area(last) > 0 && Inside(last, c) then 1 else 0)
  {
    AreaTellsKind(mask, last);
    if Area(last) >= 0 {
      RingOfLoop(mask, last, c);
      SumAppend(WindAt(c), rings, [Compressed(last)]);
      assert Sum(WindAt(c), [Compressed(last)]) == Sum(WindAt(c), []) + Wind(last, c);
    } else {
      assert rings + [] == rings;
    }
  }

  lemma SomeLoopInside(loops: seq<seq<Pt>>, c: Pt)
    requires loops != []
    ensures var n := |loops| - 1;
      InsideSomeOuter(loops, c) <==> (Area(loops[n]) > 0 && Inside(loops[n], c)) || InsideSomeOuter(loops[..n], c)
  {
    var n := |loops| - 1;
    if k :| 0 <= k < |loops| && Area(loops[k]) > 0 && Inside(loops[k], c) {
      assert k < n ==> Area(loops[..n][k]) > 0 && Inside(loops[..n][k], c);
    }
    if k :| 0 <= k < n && Area(loops[..n][k]) > 0 && Inside(loops[..n][k], c) {
      assert Area(loops[k]) > 0 && Inside(loops[k], c);
    }
  }

  /** Dropping holes only adds area, and adds none exactly when there was no hole. */
  lemma {:induction false} OuterRingsArea(mask: set<Pt>, loops: seq<seq<Pt>>)
    requires AllLoops(mask, loops)
    ensures Sum(AreaOf(), OuterRings(loops)) >= Sum(AreaOf(), loops)
    ensures Sum(AreaOf(), OuterRings(loops)) == Sum(AreaOf(), loops) <==> !HasHole(loops)
  {
    if loops != [] {
      var n := |loops| - 1;
      var front, last := loops[..n], loops[n];
      OuterRingsArea(mask, front);
      AreaTellsKind(mask, last);
      var rings := OuterRings(front);
      if Area(last) >= 0 {
        RingOfLoop(mask, last, Pt(0, 0));
        SumAppend(AreaOf(), rings, [Compressed(last)]);
        assert Sum(AreaOf(), [Compressed(last)]) == Sum(AreaOf(), []) + Area(last);
      } else {
        assert rings + [] == rings;
      }
      SomeHole(loops);
    }
  }

  lemma SomeHole(loops: seq<seq<Pt>>)
    requires loops != []
    ensures var n := |loops| - 1;
      HasHole(loops) <==> Area(loops[n]) < 0 || HasHole(loops[..n])
  {
    var n := |loops| - 1;
    if k :| 0 <= k < |loops| && Area(loops[k]) < 0 {
      assert k < n ==> Area(loops[..n][k]) < 0;
    }
    if k :| 0 <= k < n && Area(loops[..n][k]) < 0 {
      assert Area(loops[k]) < 0;
    }
  }

  /** The outer loops of any trace of a non-empty mask draw it. */
  lemma OuterRingsDraw(mask: set<Pt>, loops: seq<seq<Pt>>)
    requires Traced(mask, loops) && mask != {}
    ensures Draws(mask, OuterRings(loops))
  {
    forall k | 0 <= k < |loops| ensures LoopOf(mask, loops[k]) { LoopsOfTrace(mask, loops, k); }
    var rings := OuterRings(loops);
    forall c ensures TotalWind(rings, c) != 0 <==> Solid(mask, c) {
      OuterRingsCover(mask, loops, c);
      OuterLoopsFillSolid(mask, loops, c);
    }
    forall r, c | 0 <= r < |rings| ensures RectRing(rings[r]) && 0 <= Wind(rings[r], c) <= 1 {
      OuterRingsShape(mask, loops, c);
    }
    forall r | 0 <= r < |rings| ensures RectRing(rings[r]) {
      assert 0 <= Wind(rings[r], Pt(0, 0)) <= 1;
    }
    var m :| m in mask;
    MaskIsSolid(mask, m);
    assert rings == [] ==> TotalWind(rings, m) == 0;
    OuterRingsArea(mask, loops);
    AreaIsConserved(mask, loops);
    HolesAreEnclosures(mask, loops);
  }

  // ---- the program

  method SignedArea(loop: seq<Pt>) returns (s: int)
    ensures s == Area(loop)
  {
    s := 0;
    var n := |loop|;
    assert Edges(loop)[..n] == Edges(loop);
    for i := 0 to n
      invariant s == Sum(Shoelace(), Edges(loop)[..i])
    {
      assert Edges(loop)[..i + 1][..i] == Edges(loop)[..i];
      var p, q := loop[i], loop[if i + 1 < n then i + 1 else 0];
      assert Edges(loop)[i] == Edge(p, q);
      s := s + (p.x * q.y - q.x * p.y);
    }
  }

  /** The first loop of largest absolute area */
  method Largest(loops: seq<seq<Pt>>) returns (best: nat, area: int)
    requires loops != []
    ensures best < |loops| && area == Area(loops[best])
    ensures forall j :: 0 <= j < |loops| ==> Abs(Area(loops[j])) <= Abs(area)
    ensures forall j :: 0 <= j < best ==> Abs(Area(loops[j])) < Abs(area)
  {
    best := 0;
    area := SignedArea(loops[0]);
    for i := 1 to |loops|
      invariant best < i && area == Area(loops[best])
      invariant forall j :: 0 <= j < i ==> Abs(Area(loops[j])) <= Abs(area)
      invariant forall j :: 0 <= j < best ==> Abs(Area(loops[j])) < Abs(area)
    {
      var a := SignedArea(loops[i]);
      if Abs(a) > Abs(area) {
        best, area := i, a;
      }
    }
  }

  lemma OuterRingsStep(loops: seq<seq<Pt>>, i: nat)
    requires i < |loops|
    ensures OuterRings(loops[..i + 1])
         == OuterRings(loops[..i]) + (if Area(loops[i]) >= 0 then [Compressed(loops[i])] else [])
  {
    assert loops[..i + 1][..i] == loops[..i];
  }

  /** What selection relies on: real loops, the largest of which is an outer one. */
  ghost predicate Selectable(loops: seq<seq<Pt>>) {
    && (forall k :: 0 <= k < |loops| ==> |loops[k]| >= 4)
    && (forall k :: 0 <= k < |loops| && IsLargest(loops, k) ==> Area(loops[k]) > 0)
  }

  ghost predicate IsLargest(loops: seq<seq<Pt>>, k: nat)
    requires k < |loops|
  {
    forall j :: 0 <= j < |loops| ==> Abs(Area(loops[j])) <= Abs(Area(loops[k]))
  }

  lemma TraceIsSelectable(mask: set<Pt>, loops: seq<seq<Pt>>)
    requires Traced(mask, loops)
    ensures Selectable(loops)
  {
    forall k | 0 <= k < |loops| && IsLargest(loops, k) ensures Area(loops[k]) > 0 {
      LargestIsOuter(mask, loops, k);
    }
  }

  /** The loops that wind like the largest one are exactly the outer loops. */
  method SelectRings(loops: seq<seq<Pt>>) returns (rings: seq<seq<Pt>>)
    requires Selectable(loops) && loops != []
    ensures rings == OuterRings(loops)
  {
    var best, area := Largest(loops);
    assert IsLargest(loops, best);
    var outer := area >= 0;
    rings := [];
    for i := 0 to |loops|
      invariant rings == OuterRings(loops[..i])
    {
      OuterRingsStep(loops, i);
      var a := SignedArea(loops[i]);
      if (a >= 0) == outer && |loops[i]| >= 3 {
        var ring := DropCollinear(loops[i]);
        rings := rings + [ring];
      }
    }
    assert loops[..|loops|] == loops;
  }

  lemma EmptyTrace(mask: set<Pt>, loops: seq<seq<Pt>>)
    requires Traced(mask, loops)
    ensures loops == [] <==> mask == {}
  {
    if loops == [] {
      AreaIsConserved(mask, loops);
    } else {
      LoopsOfTrace(mask, loops, 0);
      var e := Edges(loops[0])[0];
      LoopEdge(mask, loops[0], e);
      assert RightCell(e) in mask;
    }
  }

  method Sorted(s: set<int>) returns (q: seq<int>)
    ensures forall x :: x in q <==> x in s
    ensures forall i, j :: 0 <= i < j < |q| ==> q[i] < q[j]
  {
    q := [];
    var todo := s;
    while todo != {}
      invariant todo <= s
      invariant forall x :: x in q <==> x in s && x !in todo
      invariant forall i, j :: 0 <= i < j < |q| ==> q[i] < q[j]
    {
      // The picked element is the witness that there is one to take.
      ghost var first := Pick(todo);
      var x :| x in todo;
      todo := todo - {x};
      var i := 0;
      while i < |q| && q[i] < x
        invariant i <= |q| && forall j :: 0 <= j < i ==> q[j] < x
      {
        i := i + 1;
      }
      assert i < |q| ==> q[i] != x;
      InsertSorted(q, i, x);
      q := q[..i] + [x] + q[i..];
    }
  }

  lemma InsertSorted(q: seq<int>, i: nat, x: int)
    requires i <= |q| && (forall j :: 0 <= j < i ==> q[j] < x) && (i < |q| ==> x < q[i])
    requires forall j, k :: 0 <= j < k < |q| ==> q[j] < q[k]
    ensures var r := q[..i] + [x] + q[i..];
      && (forall y :: y in r <==> y in q || y == x)
      && (forall j, k :: 0 <= j < k < |r| ==> r[j] < r[k])
  {
    assert q == q[..i] + q[i..];
  }

  /** The chains of the first n labels */
  ghost predicate ChainsSoFar(masks: map<int, set<Pt>>, labels: seq<int>, n: nat, chains: seq<Chain>)
    requires n <= |labels|
  {
    && (forall i, j :: 0 <= i < j < |chains| ==> chains[i].id < chains[j].id)
    && (forall i :: 0 <= i < |chains| ==> chains[i].id in labels[..n])
    && (forall lab :: (lab in labels[..n] && lab in masks && masks[lab] != {}) <==> HasId(chains, lab))
    && (forall i :: 0 <= i < |chains| ==> Draws(masks[chains[i].id], chains[i].rings))
  }

  lemma OneMoreLabel(masks: map<int, set<Pt>>, labels: seq<int>, n: nat, chains: seq<Chain>, rings: seq<seq<Pt>>)
    requires n < |labels| && labels[n] in masks && ChainsSoFar(masks, labels, n, chains)
    requires forall i, j :: 0 <= i < j < |labels| ==> labels[i] < labels[j]
    requires if masks[labels[n]] == {} then rings == [] else Draws(masks[labels[n]], rings)
    ensures ChainsSoFar(masks, labels, n + 1, if rings == [] then chains else chains + [Chain(labels[n], rings)])
  {
    var lab := labels[n];
    var after := if rings == [] then chains else chains + [Chain(lab, rings)];
    assert labels[..n + 1] == labels[..n] + [lab];
    forall i | 0 <= i < |after| ensures after[i].id in labels[..n + 1] && (i < |chains| ==> after[i].id < lab) {
      if i < |chains| {
        SmallerLabel(labels, n, chains[i].id);
      }
    }
    forall l ensures HasId(after, l) <==> HasId(chains, l) || (l == lab && rings != []) {
      IdsOfMore(chains, Chain(lab, rings), l);
    }
  }

  ghost predicate HasId(chains: seq<Chain>, lab: int) {
    exists i :: 0 <= i < |chains| && chains[i].id == lab
  }

  lemma SmallerLabel(labels: seq<int>, n: nat, lab: int)
    requires n < |labels| && lab in labels[..n]
    requires forall i, j :: 0 <= i < j < |labels| ==> labels[i] < labels[j]
    ensures lab < labels[n]
  {
    var i :| 0 <= i < n && labels[..n][i] == lab;
    assert labels[i] == lab;
  }

  lemma IdsOfMore(chains: seq<Chain>, c: Chain, lab: int)
    ensures HasId(chains + [c], lab) <==> HasId(chains, lab) || lab == c.id
  {
    var after := chains + [c];
    if i :| 0 <= i < |chains| && chains[i].id == lab {
      assert after[i].id == lab;
    }
    if lab == c.id {
      assert after[|chains|].id == lab;
    }
    if i :| 0 <= i < |after| && after[i].id == lab {
      assert i < |chains| ==> chains[i].id == lab;
    }
  }

  /** The rings of one room; none when its mask is empty. */
  method RoomRings(mask: set<Pt>) returns (rings: seq<seq<Pt>>)
    ensures if mask == {} then rings == [] else Draws(mask, rings)
  {
    var loops := Trace(mask);
    EmptyTrace(mask, loops);
    TraceIsSelectable(mask, loops);
    if loops == [] {
      return [];
    }
    OuterRingsDraw(mask, loops);
    rings := SelectRings(loops);
  }

  /** Trace every mask and keep its outer rings. */
  method ChainsFromMasks(masks: map<int, set<Pt>>) returns (chains: seq<Chain>)
    ensures ChainsOf(masks, chains)
  {
    chains := [];
    var labels := Sorted(masks.Keys);
    for n := 0 to |labels|
      invariant ChainsSoFar(masks, labels, n, chains)
    {
      var lab := labels[n];
      assert lab in labels;
      var rings := RoomRings(masks[lab]);
      OneMoreLabel(masks, labels, n, chains, rings);
      if rings != [] {
        chains := chains + [Chain(lab, rings)];
      }
    }
    assert labels[..|labels|] == labels;
  }
}
