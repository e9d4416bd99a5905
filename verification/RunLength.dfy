/** The run-length encoding of the labelled grid, and the card's decoder for it. */
module RunLength {

  type Byte = b: int | 0 <= b < 256

  const MAX_RUN := 0xFFFFFFFF

  ghost function Repeat(v: int, n: nat): seq<int> { seq(n, _ => v) }

  /** The cells a flat list of values and counts stands for; a value without a count is ignored. */
  ghost function Expand(g: seq<int>): seq<int>
    requires Counts(g)
  {
    if |g| < 2 then [] else Repeat(g[0], g[1]) + Expand(g[2..])
  }

  /** Every count is a natural number. */
  ghost predicate Counts(g: seq<int>) {
    forall i :: 0 <= i < |g| && i % 2 == 1 ==> g[i] >= 0
  }

  ghost predicate RunAt(g: seq<int>, i: nat)
    requires i + 1 < |g|
  {
    && 0 <= g[i] < 256 && 1 <= g[i + 1] <= MAX_RUN
    && (i + 2 < |g| && g[i] == g[i + 2] ==> g[i + 1] == MAX_RUN)
  }

  /** Counts are positive and bounded, and a run only ends early at the bound. */
  ghost predicate Canonical(g: seq<int>) {
    |g| % 2 == 0 && forall i :: 0 <= i < |g| && i % 2 == 0 ==> RunAt(g, i)
  }

  lemma CanonicalCounts(g: seq<int>)
    requires Canonical(g)
    ensures Counts(g)
  {
    forall i | 0 <= i < |g| && i % 2 == 1 ensures g[i] >= 0 {
      assert RunAt(g, i - 1);
    }
  }

  lemma {:induction false} ExpandAppend(g: seq<int>, v: int, n: nat)
    requires Counts(g) && |g| % 2 == 0
    ensures Counts(g + [v, n]) && Expand(g + [v, n]) == Expand(g) + Repeat(v, n)
  {
    var h := g + [v, n];
    if g == [] {
      assert Expand(h[2..]) == [];
    } else {
      assert h[2..] == g[2..] + [v, n];
      ExpandAppend(g[2..], v, n);
    }
  }

  /** The encoding while its last run may still grow */
  ghost predicate OpenRun(out: seq<int>, prev: int, run: int) {
    Canonical(out) && 0 <= prev < 256 && 1 <= run <= MAX_RUN
    && (|out| > 0 && out[|out| - 2] == prev ==> out[|out| - 1] == MAX_RUN)
  }

  lemma CloseRun(out: seq<int>, prev: int, run: int)
    requires OpenRun(out, prev, run)
    ensures Canonical(out + [prev, run]) && Counts(out)
    ensures Counts(out + [prev, run]) && Expand(out + [prev, run]) == Expand(out) + Repeat(prev, run)
  {
    var g := out + [prev, run];
    forall i | 0 <= i < |g| && i % 2 == 0 ensures RunAt(g, i) {
      if i < |out| { assert RunAt(out, i); }
    }
    CanonicalCounts(out);
    ExpandAppend(out, prev, run);
  }

  /** Encode the grid. The result is canonical and stands for exactly the grid. */
  method Rle(grid: seq<Byte>) returns (out: seq<int>)
    ensures Canonical(out) && Counts(out) && Expand(out) == grid
  {
    out := [];
    if grid == [] {
      return;
    }
    var prev: int := grid[0];
    var run := 1;
    for i := 1 to |grid|
      invariant OpenRun(out, prev, run) && Counts(out)
      invariant Expand(out) + Repeat(prev, run) == grid[..i]
    {
      var b := grid[i];
      if b == prev && run < MAX_RUN {
        assert Repeat(prev, run + 1) == Repeat(prev, run) + [b];
        run := run + 1;
      } else {
        CloseRun(out, prev, run);
        out := out + [prev, run];
        prev, run := b, 1;
        assert Repeat(prev, 1) == [b];
      }
      assert grid[..i + 1] == grid[..i] + [grid[i]];
    }
    CloseRun(out, prev, run);
    out := out + [prev, run];
    assert grid[..|grid|] == grid;
  }

  // ---- the encoding of a grid is unique

  lemma CanonicalRest(g: seq<int>)
    requires Canonical(g) && g != []
    ensures Canonical(g[2..]) && RunAt(g, 0)
  {
    forall i | 0 <= i < |g[2..]| && i % 2 == 0 ensures RunAt(g[2..], i) {
      assert RunAt(g, i + 2);
    }
  }

  /** If g's first run is shorter than a stretch of equal cells, the next run repeats its value. */
  lemma ShortRunIsFull(g: seq<int>, n: nat)
    requires Canonical(g) && g != [] && Counts(g) && g[1] < n <= |Expand(g)|
    requires forall i :: 0 <= i < n ==> Expand(g)[i] == g[0]
    ensures g[1] == MAX_RUN
  {
    CanonicalRest(g);
    CanonicalCounts(g[2..]);
    var rest := Expand(g[2..]);
    assert |g| > 2;
    CanonicalRest(g[2..]);
    assert rest[0] == g[2];
    assert Expand(g)[g[1]] == rest[0];
  }

  /** Two canonical encodings of the same cells are the same list. */
  lemma {:induction false} CanonicalIsUnique(a: seq<int>, b: seq<int>)
    requires Canonical(a) && Canonical(b) && Counts(a) && Counts(b) && Expand(a) == Expand(b)
    ensures a == b
  {
    if a != [] { CanonicalRest(a); CanonicalCounts(a[2..]); }
    if b != [] { CanonicalRest(b); CanonicalCounts(b[2..]); }
    if a != [] && b != [] {
      assert a[0] == Expand(a)[0] == Expand(b)[0] == b[0];
      if a[1] < b[1] {
        forall i | 0 <= i < b[1] ensures Expand(a)[i] == a[0] { assert Expand(b)[i] == b[0]; }
        ShortRunIsFull(a, b[1]);
      } else if b[1] < a[1] {
        forall i | 0 <= i < a[1] ensures Expand(b)[i] == b[0] { assert Expand(a)[i] == a[0]; }
        ShortRunIsFull(b, a[1]);
      }
      assert Expand(a[2..]) == Expand(a)[a[1]..] == Expand(b)[b[1]..] == Expand(b[2..]);
      CanonicalIsUnique(a[2..], b[2..]);
      assert a == a[..2] + a[2..] && b == b[..2] + b[2..];
    }
  }

  // ---- the card's decoder

  /** The first n cells, with zeros for those that are missing */
  ghost function Fit(cells: seq<int>, n: nat): seq<int> {
    if |cells| >= n then cells[..n] else cells + Repeat(0, n - |cells|)
  }

  /** The cells after one stretch is overwritten */
  ghost function Filled(cells: seq<int>, v: int, start: nat, end: nat): seq<int> {
    seq(|cells|, i requires 0 <= i < |cells| => if start <= i < end then v else cells[i])
  }

  /** A position in an array of this length; a negative one counts from the end. */
  function Clip(k: int, len: nat): (i: nat)
    ensures i <= len && (0 <= k <= len ==> i == k)
  {
    if k < 0 then (if len + k < 0 then 0 else len + k) else if k < len then k else len
  }

  /** The typed array's fill: positions are clipped, and values wrap to a byte. */
  method Fill(grid: array<int>, v: int, start: int, end: int)
    modifies grid
    ensures grid[..] == Filled(old(grid[..]), v % 256, Clip(start, grid.Length), Clip(end, grid.Length))
  {
    var first, last := Clip(start, grid.Length), Clip(end, grid.Length);
    var k := first;
    while k < last
      invariant first <= k && (k <= last || k == first)
      invariant forall i :: 0 <= i < grid.Length ==>
                  grid[i] == if first <= i < k && i < last then v % 256 else old(grid[i])
    {
      grid[k] := v % 256;
      k := k + 1;
    }
  }

  /** What is left to paint, from a position on */
  ghost function Painted(g: seq<int>, pos: int, cells: seq<int>): (r: seq<int>)
    ensures |r| == |cells|
    decreases |g|
  {
    if |g| < 2 then cells
    else
      var end := if pos + g[1] < |cells| then pos + g[1] else |cells|;
      Painted(g[2..], pos + g[1], Filled(cells, g[0] % 256, Clip(pos, |cells|), Clip(end, |cells|)))
  }

  /** Cell values as a byte array holds them */
  ghost function Bytes(cells: seq<int>): (r: seq<int>)
    ensures |r| == |cells|
  {
    seq(|cells|, i requires 0 <= i < |cells| => cells[i] % 256)
  }

  /** The array the card ends up with, for a list without negative counts */
  ghost function CardCells(g: seq<int>, size: nat): seq<int>
    requires Counts(g)
  {
    Fit(Bytes(Expand(g)), size)
  }

  lemma BytesOfBytes(cells: seq<Byte>)
    ensures Bytes(cells) == cells
  {
  }

  lemma FitMore(cells: seq<int>, v: int, n: nat, size: nat)
    ensures var end := if |cells| + n < size then |cells| + n else size;
            Fit(cells + Repeat(v, n), size) == Filled(Fit(cells, size), v, Clip(|cells|, size), Clip(end, size))
  {
  }

  /** With no negative count, painting lays the cells the list stands for end to end. */
  lemma {:induction false} PaintedIsFit(g: seq<int>, done: seq<int>, size: nat)
    requires Counts(g)
    ensures Painted(g, |done|, Fit(done, size)) == Fit(done + Bytes(Expand(g)), size)
    decreases |g|
  {
    if |g| < 2 {
      assert done + [] == done;
    } else {
      var v, n := g[0] % 256, g[1];
      FitMore(done, v, n, size);
      PaintedIsFit(g[2..], done + Repeat(v, n), size);
      BytesOfRun(g[0], n, Expand(g[2..]), done);
    }
  }

  lemma BytesOfRun(v: int, n: nat, rest: seq<int>, done: seq<int>)
    ensures (done + Repeat(v % 256, n)) + Bytes(rest) == done + Bytes(Repeat(v, n) + rest)
  {
    var cells := Repeat(v, n) + rest;
    assert Bytes(cells) == Repeat(v % 256, n) + Bytes(rest);
  }

  lemma PaintedFromStart(g: seq<int>, size: nat)
    requires Counts(g)
    ensures Painted(g, 0, Repeat(0, size)) == CardCells(g, size)
  {
    PaintedIsFit(g, [], size);
    assert Fit([], size) == Repeat(0, size);
    assert [] + Bytes(Expand(g)) == Bytes(Expand(g));
  }

  lemma PaintedStep(g: seq<int>, i: nat, pos: int, cells: seq<int>)
    requires i + 1 < |g|
    ensures var end := if pos + g[i + 1] < |cells| then pos + g[i + 1] else |cells|;
      Painted(g[i..], pos, cells)
      == Painted(g[i + 2..], pos + g[i + 1], Filled(cells, g[i] % 256, Clip(pos, |cells|), Clip(end, |cells|)))
  {
    assert g[i..][2..] == g[i + 2..];
  }

  /** The card's loop over value and count pairs */
  method CardDecode(g: seq<int>, size: nat) returns (grid: array<int>)
    ensures fresh(grid) && grid[..] == Painted(g, 0, Repeat(0, size))
    ensures Counts(g) ==> grid[..] == CardCells(g, size)
  {
    grid := new int[size](_ => 0);
    var pos := 0;
    var i := 0;
    assert grid[..] == Repeat(0, size);
    while i + 1 < |g|
      invariant fresh(grid) && grid.Length == size && 0 <= i <= |g|
      invariant Painted(g[i..], pos, grid[..]) == Painted(g, 0, Repeat(0, size))
    {
      var v, n := g[i], g[i + 1];
      PaintedStep(g, i, pos, grid[..]);
      Fill(grid, v, pos, if pos + n < grid.Length then pos + n else grid.Length);
      pos := pos + n;
      i := i + 2;
    }
    if Counts(g) {
      PaintedFromStart(g, size);
    }
  }

  lemma {:induction false} TrailingValueIgnored(g: seq<int>, i: nat)
    requires Counts(g) && i <= |g| <= i + 1 && i % 2 == 0
    ensures Counts(g[..i]) && Expand(g[..i]) == Expand(g)
  {
    if |g| >= 2 {
      TrailingValueIgnored(g[2..], i - 2);
      assert g[..i][2..] == g[2..][..i - 2];
    }
  }

  /** Decoding an encoded grid of the right size gives the grid back. */
  method RoundTrip(grid: seq<Byte>) returns (decoded: array<int>)
    ensures decoded[..] == grid
  {
    var g := Rle(grid);
    decoded := CardDecode(g, |grid|);
    BytesOfBytes(grid);
  }
}
