/**
 Compressing a traced loop to its corners, and why nothing is lost: the same area, the same
 winding number around every cell, and the loop itself comes back when the sides are walked in
 unit steps.
 */
module Corners {
  import opened Sums
  import opened Grid
  import opened TraceMask
  import opened Winding
  import opened LoopSides

  function Prev(lp: seq<Pt>, i: nat): Pt
    requires i < |lp|
  {
    lp[if i == 0 then |lp| - 1 else i - 1]
  }

  /** b is not on the line from a to c */
  predicate Bends(a: Pt, b: Pt, c: Pt) {
    (b.x - a.x) * (c.y - b.y) - (b.y - a.y) * (c.x - b.x) != 0
  }

  /** Which vertices of the loop are corners */
  function Turns(lp: seq<Pt>): (turn: seq<bool>)
    ensures |turn| == |lp|
  {
    seq(|lp|, i requires 0 <= i < |lp| => Bends(Prev(lp, i), lp[i], Next(lp, i)))
  }

  /** The marked vertices from i up to j */
  function Kept(lp: seq<Pt>, turn: seq<bool>, i: nat, j: nat): (kept: seq<Pt>)
    requires i <= j <= |lp| == |turn|
    decreases j - i
  {
    if i == j then []
    else Kept(lp, turn, i, j - 1) + (if turn[j - 1] then [lp[j - 1]] else [])
  }

  function Compressed(lp: seq<Pt>): seq<Pt> {
    var kept := Kept(lp, Turns(lp), 0, |lp|);
    if |lp| < 3 || kept == [] then lp else kept
  }

  method DropCollinear(loop: seq<Pt>) returns (ring: seq<Pt>)
    ensures ring == Compressed(loop)
  {
    var n := |loop|;
    if n < 3 {
      return loop;
    }
    var out := [];
    ghost var turn := Turns(loop);
    for i := 0 to n
      invariant out == Kept(loop, turn, 0, i)
    {
      var a, b, cc := loop[if i == 0 then n - 1 else i - 1], loop[i], loop[if i + 1 < n then i + 1 else 0];
      assert turn[i] == Bends(a, b, cc);
      if Bends(a, b, cc) {
        out := out + [b];
      }
    }
    return if out != [] then out else loop;
  }

  // ---- loops of unit steps that never turn back on themselves

  ghost predicate StepsOn(lp: seq<Pt>, i: nat)
    requires i < |lp|
  {
    Unit(Edge(lp[i], Next(lp, i))) && Prev(lp, i) != Next(lp, i)
  }

  ghost predicate GridLoop(lp: seq<Pt>) {
    |lp| >= 3 && forall i :: 0 <= i < |lp| ==> StepsOn(lp, i)
  }

  lemma TracedLoopIsGridLoop(mask: set<Pt>, lp: seq<Pt>)
    requires LoopOf(mask, lp)
    ensures GridLoop(lp)
  {
    forall i | 0 <= i < |lp| ensures StepsOn(lp, i) {
      var before := Edges(lp)[if i == 0 then |lp| - 1 else i - 1];
      LoopEdge(mask, lp, Edges(lp)[i]);
      LoopEdge(mask, lp, before);
      assert Edges(lp)[i] != Rev(before);
    }
  }

  datatype Dir = East | South | West | North

  ghost function Heading(a: Pt, b: Pt): Dir {
    if b.x > a.x then East else if b.x < a.x then West else if b.y > a.y then South else North
  }

  ghost function Shift(p: Pt, d: Dir, n: int): Pt {
    match d
    case East => p.(x := p.x + n)
    case West => p.(x := p.x - n)
    case South => p.(y := p.y + n)
    case North => p.(y := p.y - n)
  }

  ghost function Opposite(d: Dir): Dir {
    match d case East => West case West => East case South => North case North => South
  }

  /** The vertex at index t, where index |lp| is the first vertex again */
  ghost function At(lp: seq<Pt>, t: nat): Pt
    requires t <= |lp| && |lp| > 0
  {
    if t < |lp| then lp[t] else lp[0]
  }

  ghost function Out(lp: seq<Pt>, i: nat): Dir
    requires i < |lp|
  {
    Heading(lp[i], Next(lp, i))
  }

  ghost function In(lp: seq<Pt>, i: nat): Dir
    requires i < |lp|
  {
    Heading(Prev(lp, i), lp[i])
  }

  /** At vertex i the loop goes on by one step, never straight back, and is marked where it changes direction. */
  ghost predicate MarkedAt(lp: seq<Pt>, turn: seq<bool>, i: nat)
    requires i < |lp| == |turn|
  {
    && Next(lp, i) == Shift(lp[i], Out(lp, i), 1)
    && Out(lp, i) != Opposite(In(lp, i))
    && (turn[i] <==> In(lp, i) != Out(lp, i))
  }

  /** A loop of unit steps with its corners marked */
  ghost predicate Marked(lp: seq<Pt>, turn: seq<bool>) {
    |lp| == |turn| >= 3 && forall i :: 0 <= i < |lp| ==> MarkedAt(lp, turn, i)
  }

  lemma BendsIsTurn(a: Pt, b: Pt, c: Pt)
    requires Unit(Edge(a, b)) && Unit(Edge(b, c)) && a != c
    ensures Bends(a, b, c) <==> Heading(a, b) != Heading(b, c)
    ensures Heading(b, c) != Opposite(Heading(a, b)) && c == Shift(b, Heading(b, c), 1)
  {
  }

  lemma TurnMarksCorner(lp: seq<Pt>, i: nat)
    requires GridLoop(lp) && i < |lp|
    ensures MarkedAt(lp, Turns(lp), i)
  {
    assert StepsOn(lp, i) && StepsOn(lp, if i == 0 then |lp| - 1 else i - 1);
    BendsIsTurn(Prev(lp, i), lp[i], Next(lp, i));
  }

  lemma TurnsMarkCorners(lp: seq<Pt>)
    requires GridLoop(lp)
    ensures Marked(lp, Turns(lp))
  {
    var turn := Turns(lp);
    forall i | 0 <= i < |lp| ensures MarkedAt(lp, turn, i) {
      TurnMarksCorner(lp, i);
    }
  }

  /** From corner i on, the loop runs straight at least up to index t. */
  lemma {:induction false} StraightRun(lp: seq<Pt>, turn: seq<bool>, i: nat, t: nat)
    requires Marked(lp, turn) && i < t <= |lp|
    requires forall j :: i < j < t ==> !turn[j]
    ensures At(lp, t) == Shift(lp[i], Out(lp, i), t - i) && Out(lp, t - 1) == Out(lp, i)
  {
    if i + 1 < t {
      StraightRun(lp, turn, i, t - 1);
      assert In(lp, t - 1) == Out(lp, t - 2);
    }
    assert MarkedAt(lp, turn, t - 1) && At(lp, t) == Next(lp, t - 1);
  }

  /** A closed loop of unit steps turns somewhere; this is the first place from index i on. */
  lemma {:induction false} FirstTurn(lp: seq<Pt>, turn: seq<bool>, i: nat) returns (k: nat)
    requires Marked(lp, turn) && i <= |lp| && forall j :: 0 <= j < i ==> !turn[j]
    ensures k < |lp| && turn[k] && forall j :: 0 <= j < k ==> !turn[j]
    decreases |lp| - i
  {
    if i == |lp| {
      StraightRun(lp, turn, 0, |lp|);
      assert false;
    } else if turn[i] {
      k := i;
    } else {
      k := FirstTurn(lp, turn, i + 1);
    }
  }

  // ---- starting the loop at a corner

  function Rotate<T>(s: seq<T>, k: nat): seq<T>
    requires k <= |s|
  {
    s[k..] + s[..k]
  }

  lemma RotateVertex(lp: seq<Pt>, k: nat, i: nat)
    requires k < |lp| && i < |lp|
    ensures var j := if i + k < |lp| then i + k else i + k - |lp|;
            var r := Rotate(lp, k);
            r[i] == lp[j] && Next(r, i) == Next(lp, j) && Prev(r, i) == Prev(lp, j)
  {
  }

  lemma RotateEdges(lp: seq<Pt>, k: nat)
    requires k < |lp|
    ensures Edges(Rotate(lp, k)) == Rotate(Edges(lp), k)
  {
  }

  lemma RotateSum(w: Edge -> int, lp: seq<Pt>, k: nat)
    requires k < |lp|
    ensures Sum(w, Edges(Rotate(lp, k))) == Sum(w, Edges(lp))
  {
    RotateEdges(lp, k);
    SumAppend(w, Edges(lp)[k..], Edges(lp)[..k]);
    SumAppend(w, Edges(lp)[..k], Edges(lp)[k..]);
    assert Edges(lp) == Edges(lp)[..k] + Edges(lp)[k..];
  }

  lemma RotateMarked(lp: seq<Pt>, turn: seq<bool>, k: nat)
    requires Marked(lp, turn) && k < |lp|
    ensures Marked(Rotate(lp, k), Rotate(turn, k))
  {
    var r, s := Rotate(lp, k), Rotate(turn, k);
    forall i | 0 <= i < |r| ensures MarkedAt(r, s, i) {
      RotateVertex(lp, k, i);
      assert MarkedAt(lp, turn, if i + k < |lp| then i + k else i + k - |lp|);
    }
  }

  lemma {:induction false} KeptSplits(lp: seq<Pt>, turn: seq<bool>, i: nat, k: nat, j: nat)
    requires i <= k <= j <= |lp| == |turn|
    ensures Kept(lp, turn, i, j) == Kept(lp, turn, i, k) + Kept(lp, turn, k, j)
    decreases j - k
  {
    if k < j {
      KeptSplits(lp, turn, i, k, j - 1);
    }
  }

  /** Index i + t of one sequence and to + t of another hold the same. */
  ghost predicate SameAt<T>(s: seq<T>, i: nat, r: seq<T>, to: nat, t: nat) {
    i + t < |s| && to + t < |r| && s[i + t] == r[to + t]
  }

  lemma {:induction false} KeptShifts(lp: seq<Pt>, turn: seq<bool>, i: nat,
                                      r: seq<Pt>, rturn: seq<bool>, to: nat, n: nat)
    requires i + n <= |lp| == |turn| && to + n <= |r| == |rturn|
    requires forall t :: 0 <= t < n ==> SameAt(lp, i, r, to, t) && SameAt(turn, i, rturn, to, t)
    ensures Kept(r, rturn, to, to + n) == Kept(lp, turn, i, i + n)
    decreases n
  {
    if n > 0 {
      assert SameAt(lp, i, r, to, n - 1) && SameAt(turn, i, rturn, to, n - 1);
      KeptShifts(lp, turn, i, r, rturn, to, n - 1);
    }
  }

  lemma {:induction false} KeptNothing(lp: seq<Pt>, turn: seq<bool>, i: nat, j: nat)
    requires i <= j <= |lp| == |turn| && forall t :: i <= t < j ==> !turn[t]
    ensures Kept(lp, turn, i, j) == []
    decreases j - i
  {
    if i < j {
      KeptNothing(lp, turn, i, j - 1);
    }
  }

  lemma RotatedKept(lp: seq<Pt>, turn: seq<bool>, k: nat)
    requires k < |lp| == |turn|
    ensures Kept(Rotate(lp, k), Rotate(turn, k), 0, |lp| - k) == Kept(lp, turn, k, |lp|)
    ensures Kept(Rotate(lp, k), Rotate(turn, k), |lp| - k, |lp|) == Kept(lp, turn, 0, k)
  {
    RotatedParts(lp, k, |lp| - k);
    RotatedParts(turn, k, |lp| - k);
    KeptShifts(lp, turn, k, Rotate(lp, k), Rotate(turn, k), 0, |lp| - k);
    KeptShifts(lp, turn, 0, Rotate(lp, k), Rotate(turn, k), |lp| - k, k);
  }

  /** Rotating a loop to its first turn does not change what is kept. */
  lemma RotateKept(lp: seq<Pt>, turn: seq<bool>, k: nat)
    requires k < |lp| == |turn| && forall j :: 0 <= j < k ==> !turn[j]
    ensures Kept(Rotate(lp, k), Rotate(turn, k), 0, |lp|) == Kept(lp, turn, 0, |lp|)
  {
    RotatedKept(lp, turn, k);
    KeptSplits(Rotate(lp, k), Rotate(turn, k), 0, |lp| - k, |lp|);
    KeptSplits(lp, turn, 0, k, |lp|);
    KeptNothing(lp, turn, 0, k);
    var kept := Kept(lp, turn, k, |lp|);
    assert kept + [] == kept == [] + kept;
  }

  lemma RotatedParts<T>(s: seq<T>, k: nat, m: nat)
    requires k + m == |s|
    ensures |Rotate(s, k)| == |s|
    ensures forall t :: 0 <= t < m ==> SameAt(s, k, Rotate(s, k), 0, t)
    ensures forall t :: 0 <= t < k ==> SameAt(s, 0, Rotate(s, k), m, t)
  {
  }

  // ---- sides between corners

  /** The last turn before index t of a loop that starts at a corner */
  ghost function LastTurn(turn: seq<bool>, t: nat): (i: nat)
    requires 0 < t <= |turn| && turn[0]
    ensures i < t && turn[i] && forall j :: i < j < t ==> !turn[j]
  {
    if turn[t - 1] then t - 1 else LastTurn(turn, t - 1)
  }

  lemma {:induction false} LastKept(lp: seq<Pt>, turn: seq<bool>, t: nat)
    requires 0 < t <= |lp| == |turn| && turn[0]
    ensures var k := Kept(lp, turn, 0, t);
            |k| > 0 && k[0] == lp[0] && k[|k| - 1] == lp[LastTurn(turn, t)]
  {
    if t > 1 {
      LastKept(lp, turn, t - 1);
    }
  }

  ghost function Path(ps: seq<Pt>): (es: seq<Edge>)
    requires ps != []
    ensures |es| == |ps| - 1
  {
    seq(|ps| - 1, i requires 0 <= i < |ps| - 1 => Edge(ps[i], ps[i + 1]))
  }

  lemma ClosedPath(ps: seq<Pt>)
    requires ps != []
    ensures Edges(ps)[..|ps| - 1] == Path(ps) && Edges(ps)[|ps| - 1] == Edge(ps[|ps| - 1], ps[0])
  {
  }

  /** A weight of edges that adds up along straight lines */
  ghost predicate Additive(w: Edge -> int) {
    forall p, d, n :: n > 0 ==>
      w(Edge(p, Shift(p, d, n + 1))) == w(Edge(p, Shift(p, d, n))) + w(Edge(Shift(p, d, n), Shift(p, d, n + 1)))
  }

  /** The first t edges weigh as much as the sides kept so far and the one begun. */
  lemma {:induction false} SumOfSides(w: Edge -> int, lp: seq<Pt>, turn: seq<bool>, t: nat)
    requires Marked(lp, turn) && turn[0] && Additive(w) && 0 < t <= |lp|
    ensures Kept(lp, turn, 0, t) != []
    ensures Sum(w, Edges(lp)[..t]) == Sum(w, Path(Kept(lp, turn, 0, t))) + w(Edge(lp[LastTurn(turn, t)], At(lp, t)))
  {
    LastKept(lp, turn, t);
    var k, e := Kept(lp, turn, 0, t), Edges(lp)[t - 1];
    assert e == Edge(lp[t - 1], At(lp, t));
    assert Edges(lp)[..t][..t - 1] == Edges(lp)[..t - 1];
    assert Sum(w, Edges(lp)[..t]) == Sum(w, Edges(lp)[..t - 1]) + w(e);
    if t == 1 {
      assert Kept(lp, turn, 0, 0) == [] && k == [lp[0]];
      assert Path(k) == [] && Edges(lp)[..0] == [];
    } else {
      LastKept(lp, turn, t - 1);
      SumOfSides(w, lp, turn, t - 1);
      var i := LastTurn(turn, t - 1);
      if turn[t - 1] {
        PathSum(w, k, Kept(lp, turn, 0, t - 1), lp[i], lp[t - 1]);
      } else {
        assert k == Kept(lp, turn, 0, t - 1);
        LongerSide(w, lp, turn, i, t);
      }
    }
  }

  lemma PathSum(w: Edge -> int, k: seq<Pt>, before: seq<Pt>, p: Pt, q: Pt)
    requires |before| > 0 && k == before + [q] && before[|before| - 1] == p
    ensures Sum(w, Path(k)) == Sum(w, Path(before)) + w(Edge(p, q))
  {
    assert Path(k)[..|k| - 2] == Path(before);
    assert Path(k)[|k| - 2] == Edge(p, q);
  }

  /** A side that goes straight on weighs more by the step it grows by. */
  lemma LongerSide(w: Edge -> int, lp: seq<Pt>, turn: seq<bool>, i: nat, t: nat)
    requires Marked(lp, turn) && Additive(w) && i + 1 < t <= |lp| && forall j :: i < j < t ==> !turn[j]
    ensures w(Edge(lp[i], At(lp, t))) == w(Edge(lp[i], lp[t - 1])) + w(Edge(lp[t - 1], At(lp, t)))
  {
    StraightRun(lp, turn, i, t - 1);
    StraightRun(lp, turn, i, t);
    var q, d, n := lp[i], Out(lp, i), t - 1 - i;
    assert w(Edge(q, Shift(q, d, n + 1))) == w(Edge(q, Shift(q, d, n))) + w(Edge(Shift(q, d, n), Shift(q, d, n + 1)));
  }

  lemma StartAt(lp: seq<Pt>, turn: seq<bool>, k: nat) returns (r: seq<Pt>, s: seq<bool>)
    requires Marked(lp, turn) && k < |lp| && turn[k] && forall j :: 0 <= j < k ==> !turn[j]
    ensures r == Rotate(lp, k) && Marked(r, s) && s[0]
    ensures Kept(r, s, 0, |r|) == Kept(lp, turn, 0, |lp|) != []
  {
    r, s := Rotate(lp, k), Rotate(turn, k);
    RotateMarked(lp, turn, k);
    RotateKept(lp, turn, k);
    LastKept(r, s, |lp|);
  }

  /** A ring is the kept vertices of its loop r, which is the given one started at a corner. */
  lemma FromCorner(lp: seq<Pt>) returns (k: nat, r: seq<Pt>, turn: seq<bool>)
    requires GridLoop(lp)
    ensures k < |lp| && r == Rotate(lp, k) && Marked(r, turn) && turn[0]
    ensures Compressed(lp) == Kept(r, turn, 0, |r|)
  {
    TurnsMarkCorners(lp);
    k := FirstTurn(lp, Turns(lp), 0);
    r, turn := StartAt(lp, Turns(lp), k);
  }

  /** Compressing keeps every weight that adds up along straight lines. */
  lemma CompressedSum(w: Edge -> int, lp: seq<Pt>)
    requires GridLoop(lp) && Additive(w)
    ensures Sum(w, Edges(Compressed(lp))) == Sum(w, Edges(lp))
  {
    var k, r, turn := FromCorner(lp);
    RotateSum(w, lp, k);
    SumFromCorner(w, r, turn, Compressed(lp));
  }

  lemma SumFromCorner(w: Edge -> int, lp: seq<Pt>, turn: seq<bool>, ring: seq<Pt>)
    requires Marked(lp, turn) && turn[0] && ring == Kept(lp, turn, 0, |lp|) && Additive(w)
    ensures Sum(w, Edges(ring)) == Sum(w, Edges(lp))
  {
    SumOfSides(w, lp, turn, |lp|);
    LastKept(lp, turn, |lp|);
    assert Edges(lp)[..|lp|] == Edges(lp);
    ClosedPath(ring);
  }

  lemma ShoelaceIsAdditive()
    ensures Additive(Shoelace())
  {
  }

  /** Compressing keeps the signed area and the winding number around every cell. */
  lemma CompressedMeasures(lp: seq<Pt>, c: Pt)
    requires GridLoop(lp)
    ensures Area(Compressed(lp)) == Area(lp)
    ensures Wind(Compressed(lp), c) == Wind(lp, c)
  {
    ShoelaceIsAdditive();
    CompressedSum(Shoelace(), lp);
    CrossingIsAdditive(c);
    CompressedSum(Crossing(c), lp);
  }

  lemma CrossingIsAdditive(c: Pt)
    ensures Additive(Crossing(c))
  {
  }
}
