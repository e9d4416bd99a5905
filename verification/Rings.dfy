/** The shape of a compressed ring, and the way back from it to the traced loop. */
module Rings {
  import opened Grid
  import opened TraceMask
  import opened Corners

  // ---- walking a ring in unit steps

  function Toward(a: Pt, b: Pt): Pt {
    if b.x > a.x then a.(x := a.x + 1)
    else if b.x < a.x then a.(x := a.x - 1)
    else if b.y > a.y then a.(y := a.y + 1)
    else a.(y := a.y - 1)
  }

  function Dist(a: Pt, b: Pt): nat {
    (if a.x < b.x then b.x - a.x else a.x - b.x) + (if a.y < b.y then b.y - a.y else a.y - b.y)
  }

  /** The vertices from a up to, not including, b */
  function Steps(a: Pt, b: Pt): seq<Pt>
    decreases Dist(a, b)
  {
    if a == b then [] else [a] + Steps(Toward(a, b), b)
  }

  function Walk(es: seq<Edge>): seq<Pt> {
    if es == [] then [] else Walk(es[..|es| - 1]) + Steps(es[|es| - 1].src, es[|es| - 1].dst)
  }

  /** All the grid-line crossings along a ring */
  function Expanded(ring: seq<Pt>): seq<Pt> { Walk(Edges(ring)) }

  lemma {:induction false} OneStepMore(p: Pt, d: Dir, n: nat)
    ensures Steps(p, Shift(p, d, n + 1)) == Steps(p, Shift(p, d, n)) + [Shift(p, d, n)]
    decreases n
  {
    var q := Shift(p, d, 1);
    assert Toward(p, Shift(p, d, n + 1)) == q;
    if n == 0 {
      assert Steps(q, q) == [];
    } else {
      OneStepMore(q, d, n - 1);
      assert Toward(p, Shift(p, d, n)) == q;
      assert Shift(q, d, n) == Shift(p, d, n + 1) && Shift(q, d, n - 1) == Shift(p, d, n);
    }
  }

  /** The first t vertices come back from the sides kept so far and the one begun. */
  lemma {:induction false} WalkSides(lp: seq<Pt>, turn: seq<bool>, t: nat)
    requires Marked(lp, turn) && turn[0] && 0 < t <= |lp|
    ensures Kept(lp, turn, 0, t) != []
    ensures lp[..t] == Walk(Path(Kept(lp, turn, 0, t))) + Steps(lp[LastTurn(turn, t)], At(lp, t))
  {
    LastKept(lp, turn, t);
    var k, i := Kept(lp, turn, 0, t), LastTurn(turn, t);
    assert lp[..t] == lp[..t - 1] + [lp[t - 1]];
    StepsToHere(lp, turn, i, t);
    if t == 1 {
      assert Kept(lp, turn, 0, 0) == [] && k == [lp[0]];
      assert Path(k) == [] && Walk([]) == [];
    } else {
      LastKept(lp, turn, t - 1);
      WalkSides(lp, turn, t - 1);
      if turn[t - 1] {
        WalkNewSide(k, Kept(lp, turn, 0, t - 1), lp[LastTurn(turn, t - 1)], lp[t - 1]);
      } else {
        assert k == Kept(lp, turn, 0, t - 1);
      }
    }
  }

  /** The steps of the side begun at i are one more than up to the vertex before. */
  lemma StepsToHere(lp: seq<Pt>, turn: seq<bool>, i: nat, t: nat)
    requires Marked(lp, turn) && i < t <= |lp| && forall j :: i < j < t ==> !turn[j]
    ensures Steps(lp[i], At(lp, t)) == Steps(lp[i], lp[t - 1]) + [lp[t - 1]]
  {
    StraightRun(lp, turn, i, t);
    OneStepMore(lp[i], Out(lp, i), t - 1 - i);
    if i < t - 1 {
      StraightRun(lp, turn, i, t - 1);
    }
  }

  lemma WalkNewSide(k: seq<Pt>, before: seq<Pt>, p: Pt, q: Pt)
    requires |before| > 0 && k == before + [q] && before[|before| - 1] == p
    ensures Walk(Path(k)) == Walk(Path(before)) + Steps(p, q)
  {
    assert Path(k)[..|k| - 2] == Path(before);
    assert Path(k)[|k| - 2] == Edge(p, q);
  }

  /** Walking the compressed ring in unit steps gives the loop back, started at a corner. */
  lemma CompressionIsLossless(lp: seq<Pt>) returns (k: nat)
    requires GridLoop(lp)
    ensures k < |lp| && Expanded(Compressed(lp)) == Rotate(lp, k)
  {
    var r, turn;
    k, r, turn := FromCorner(lp);
    WalkFromCorner(r, turn, Compressed(lp));
  }

  lemma WalkFromCorner(lp: seq<Pt>, turn: seq<bool>, ring: seq<Pt>)
    requires Marked(lp, turn) && turn[0] && ring == Kept(lp, turn, 0, |lp|)
    ensures Expanded(ring) == lp
  {
    var n := |lp|;
    WalkSides(lp, turn, n);
    LastKept(lp, turn, n);
    ClosedPath(ring);
    assert lp[..n] == lp;
    assert Edges(ring)[..|Edges(ring)| - 1] == Path(ring);
  }

  // ---- sides turn between level and upright

  predicate Flat(e: Edge) { e.src.y == e.dst.y && e.src.x != e.dst.x }

  predicate Upright(e: Edge) { e.src.x == e.dst.x && e.src.y != e.dst.y }

  /** Side e goes in direction d */
  ghost predicate Goes(e: Edge, d: Dir) {
    match d
    case East => Flat(e) && e.src.x < e.dst.x
    case West => Flat(e) && e.src.x > e.dst.x
    case South => Upright(e) && e.src.y < e.dst.y
    case North => Upright(e) && e.src.y > e.dst.y
  }

  ghost predicate AlternatesAt(es: seq<Edge>, i: nat)
    requires 0 < i < |es|
  {
    || (Flat(es[i - 1]) && Upright(es[i]))
    || (Upright(es[i - 1]) && Flat(es[i]))
  }

  ghost predicate Alternates(es: seq<Edge>) {
    forall i :: 0 < i < |es| ==> AlternatesAt(es, i)
  }

  /** The sides kept so far and the one begun alternate; the last goes the way the loop last went. */
  lemma {:induction false} SidesAlternate(lp: seq<Pt>, turn: seq<bool>, t: nat)
    requires Marked(lp, turn) && turn[0] && 0 < t <= |lp|
    ensures Kept(lp, turn, 0, t) != []
    ensures var es := Sides(lp, turn, t);
      Alternates(es) && Goes(es[0], Out(lp, 0)) && Goes(es[|es| - 1], Out(lp, t - 1))
  {
    LastKept(lp, turn, t);
    if t == 1 {
      LastGoes(lp, turn, t);
      assert Kept(lp, turn, 0, 0) == [] && Kept(lp, turn, 0, t) == [lp[0]];
    } else {
      LastKept(lp, turn, t - 1);
      SidesAlternate(lp, turn, t - 1);
      OneStepAlternates(lp, turn, t);
    }
  }

  /** The side begun before index t goes the way the loop last went. */
  lemma LastGoes(lp: seq<Pt>, turn: seq<bool>, t: nat)
    requires Marked(lp, turn) && turn[0] && 0 < t <= |lp|
    ensures Goes(Edge(lp[LastTurn(turn, t)], At(lp, t)), Out(lp, t - 1))
  {
    StraightRun(lp, turn, LastTurn(turn, t), t);
  }

  /** The sides kept up to index t and the one begun */
  ghost function Sides(lp: seq<Pt>, turn: seq<bool>, t: nat): (es: seq<Edge>)
    requires 0 < t <= |lp| == |turn| && turn[0] && Kept(lp, turn, 0, t) != []
    ensures es != []
  {
    Path(Kept(lp, turn, 0, t)) + [Edge(lp[LastTurn(turn, t)], At(lp, t))]
  }

  lemma OneStepAlternates(lp: seq<Pt>, turn: seq<bool>, t: nat)
    requires Marked(lp, turn) && turn[0] && 1 < t <= |lp|
    requires Kept(lp, turn, 0, t - 1) != [] && Kept(lp, turn, 0, t) != []
    requires var es := Sides(lp, turn, t - 1);
      Alternates(es) && Goes(es[0], Out(lp, 0)) && Goes(es[|es| - 1], Out(lp, t - 2))
    ensures var es := Sides(lp, turn, t);
      Alternates(es) && Goes(es[0], Out(lp, 0)) && Goes(es[|es| - 1], Out(lp, t - 1))
  {
    LastGoes(lp, turn, t);
    LastKept(lp, turn, t - 1);
    var before, es := Sides(lp, turn, t - 1), Sides(lp, turn, t);
    var k' := Kept(lp, turn, 0, t - 1);
    assert MarkedAt(lp, turn, t - 1) && In(lp, t - 1) == Out(lp, t - 2);
    if turn[t - 1] {
      assert Kept(lp, turn, 0, t) == k' + [lp[t - 1]];
      OneCornerMore(k', lp[t - 1], before, es[|es| - 1]);
      OneSideMore(before, es[|es| - 1], Out(lp, t - 2), Out(lp, t - 1));
    } else {
      assert before[..|before| - 1] == Path(k') == es[..|es| - 1];
      SameSideLonger(before, es, Out(lp, t - 1));
      assert |es| > 1 ==> es[0] == es[..|es| - 1][0] == before[0];
    }
  }

  lemma OneCornerMore(k: seq<Pt>, p: Pt, es: seq<Edge>, last: Edge)
    requires k != [] && es == Path(k) + [Edge(k[|k| - 1], p)]
    ensures Path(k + [p]) + [last] == es + [last]
  {
    assert Path(k + [p])[..|k| - 1] == Path(k);
    assert Path(k + [p]) == es;
  }

  lemma OneSideMore(es: seq<Edge>, last: Edge, d: Dir, d': Dir)
    requires |es| > 0 && Alternates(es) && Goes(es[|es| - 1], d) && Goes(last, d') && d != d' && d' != Opposite(d)
    ensures Alternates(es + [last])
  {
    var fs := es + [last];
    forall i | 0 < i < |fs| ensures AlternatesAt(fs, i) {
      assert i < |es| ==> AlternatesAt(es, i);
    }
  }

  lemma SameSideLonger(es: seq<Edge>, fs: seq<Edge>, d: Dir)
    requires |es| == |fs| > 0 && Alternates(es) && es[..|es| - 1] == fs[..|fs| - 1]
    requires Goes(es[|es| - 1], d) && Goes(fs[|fs| - 1], d)
    ensures Alternates(fs)
  {
    forall i | 0 < i < |fs| ensures AlternatesAt(fs, i) {
      assert AlternatesAt(es, i);
      assert es[i - 1] == es[..|es| - 1][i - 1] == fs[i - 1];
      assert i < |es| - 1 ==> es[i] == es[..|es| - 1][i] == fs[i];
    }
  }

  /** A closed rectilinear ring without idle vertices */
  ghost predicate RectRing(ring: seq<Pt>) {
    && |ring| >= 4 && |ring| % 2 == 0
    && Alternates(Edges(ring))
    && AlternatesAt([Edges(ring)[|ring| - 1], Edges(ring)[0]], 1)
  }

  lemma {:induction false} AlternateParity(es: seq<Edge>, i: nat)
    requires Alternates(es) && i < |es|
    requires |es| > 1
    ensures Flat(es[i]) <==> (Flat(es[0]) <==> i % 2 == 0)
  {
    assert AlternatesAt(es, 1);
    if i > 0 {
      AlternateParity(es, i - 1);
      assert AlternatesAt(es, i);
    }
  }

  lemma ClosedAlternation(ring: seq<Pt>)
    requires |ring| > 0
    requires Alternates(Edges(ring)) && AlternatesAt([Edges(ring)[|ring| - 1], Edges(ring)[0]], 1)
    ensures RectRing(ring)
  {
    var es, m := Edges(ring), |ring|;
    var wrap := [es[m - 1], es[0]];
    assert wrap[0] == es[m - 1] && wrap[1] == es[0];
    if m > 1 {
      AlternateParity(es, m - 1);
      assert AlternatesAt(es, 1);
    }
  }

  lemma RingFromCorner(lp: seq<Pt>, turn: seq<bool>, ring: seq<Pt>)
    requires Marked(lp, turn) && turn[0] && ring == Kept(lp, turn, 0, |lp|)
    ensures RectRing(ring)
  {
    var n := |lp|;
    LastKept(lp, turn, n);
    SidesAlternate(lp, turn, n);
    ClosedPath(ring);
    var es := Edges(ring);
    assert es == Path(ring) + [Edge(ring[|ring| - 1], ring[0])];
    assert MarkedAt(lp, turn, 0) && In(lp, 0) == Out(lp, n - 1);
    var wrap := [es[|es| - 1], es[0]];
    assert wrap[0] == es[|es| - 1] && wrap[1] == es[0];
    ClosedAlternation(ring);
  }

  /** A compressed ring has an even number of corners, four or more, and its sides are level and upright by turns. */
  lemma CompressedIsRectRing(lp: seq<Pt>)
    requires GridLoop(lp)
    ensures RectRing(Compressed(lp))
  {
    var k, r, turn := FromCorner(lp);
    RingFromCorner(r, turn, Compressed(lp));
  }

  // ---- compressing twice

  lemma CornerBends(a: Pt, b: Pt, c: Pt)
    requires AlternatesAt([Edge(a, b), Edge(b, c)], 1)
    ensures Bends(a, b, c)
  {
  }

  lemma {:induction false} AllKept(ring: seq<Pt>, turn: seq<bool>, j: nat)
    requires j <= |ring| == |turn| && forall i :: 0 <= i < |turn| ==> turn[i]
    ensures Kept(ring, turn, 0, j) == ring[..j]
  {
    if j > 0 {
      AllKept(ring, turn, j - 1);
    }
  }

  lemma RingCornerBends(ring: seq<Pt>, i: nat)
    requires RectRing(ring) && i < |ring|
    ensures Turns(ring)[i]
  {
    var es := Edges(ring);
    var before := if i == 0 then |ring| - 1 else i - 1;
    assert i > 0 ==> AlternatesAt(es, i);
    assert es[before] == Edge(Prev(ring, i), ring[i]) && es[i] == Edge(ring[i], Next(ring, i));
    assert AlternatesAt([es[before], es[i]], 1);
    CornerBends(Prev(ring, i), ring[i], Next(ring, i));
  }

  /** A ring of corners is a fixed point of compression. */
  lemma RectRingIsFixed(ring: seq<Pt>)
    requires RectRing(ring)
    ensures Compressed(ring) == ring
  {
    forall i | 0 <= i < |ring| ensures Turns(ring)[i] {
      RingCornerBends(ring, i);
    }
    AllKept(ring, Turns(ring), |ring|);
  }

  /** Compressing is idempotent on traced loops. */
  lemma CompressionIsIdempotent(lp: seq<Pt>)
    requires GridLoop(lp)
    ensures Compressed(Compressed(lp)) == Compressed(lp)
  {
    CompressedIsRectRing(lp);
    RectRingIsFixed(Compressed(lp));
  }
}
