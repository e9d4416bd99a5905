/** The dreame map frame: patching the vacuum position into its header, and the rooms in its grid. */
module DreameFrame {
  import opened Options
  import opened Sums
  import opened Grid
  import opened Chains
  import opened RunLength
  import opened RoomGrids

  // ---- signed 16-bit little-endian numbers

  function I16(lo: Byte, hi: Byte): int {
    var v := lo + 256 * hi;
    if v >= 0x8000 then v - 0x1_0000 else v
  }

  predicate FitsI16(v: int) { -0x8000 <= v < 0x8000 }

  function ToI16(v: int): seq<Byte>
    requires FitsI16(v)
  {
    var u := if v < 0 then v + 0x1_0000 else v;
    [u % 256, u / 256]
  }

  /** The low byte comes first, and the result is the number of two bytes read as signed. */
  lemma LittleEndian(lo: Byte, hi: Byte)
    ensures FitsI16(I16(lo, hi)) && (I16(lo, hi) - (lo + 256 * hi)) % 0x1_0000 == 0
  {
  }

  lemma I16RoundTrip(v: int)
    requires FitsI16(v)
    ensures |ToI16(v)| == 2 && I16(ToI16(v)[0], ToI16(v)[1]) == v
  {
  }

  function I16At(b: seq<Byte>, off: nat): int
    requires off + 2 <= |b|
  {
    I16(b[off], b[off + 1])
  }

  // ---- patching the position

  /** Assigning to a slice of a growable byte buffer; a slice past the end appends. */
  function Splice(b: seq<Byte>, off: nat, bytes: seq<Byte>): seq<Byte> {
    var from := if off < |b| then off else |b|;
    var to := if off + 2 < |b| then off + 2 else |b|;
    b[..from] + bytes + b[to..]
  }

  /** Replace x, y and angle at offsets 5, 7 and 9; None is the overflow error of a number beyond 16 bits. */
  method WithVacuumPosition(unpacked: seq<Byte>, pos: (int, int, int)) returns (r: Option<seq<Byte>>)
    ensures r.Some? <==> FitsI16(pos.0) && FitsI16(pos.1) && FitsI16(pos.2)
    ensures r.Some? ==> Patches(unpacked, r.value, pos)
  {
    var b := unpacked;
    var vals := [pos.0, pos.1, pos.2];
    var offs := [5, 7, 9];
    for k := 0 to 3
      invariant forall j :: 0 <= j < k ==> FitsI16(vals[j])
      invariant PatchedUpTo(unpacked, b, vals, k)
    {
      if !FitsI16(vals[k]) {
        return None;
      }
      I16RoundTrip(vals[k]);
      b := Splice(b, offs[k], ToI16(vals[k]));
    }
    assert FitsI16(vals[0]) && FitsI16(vals[1]) && FitsI16(vals[2]);
    assert |unpacked| >= 5 ==>
      I16At(b, 5 + 2 * 0) == vals[0] && I16At(b, 5 + 2 * 1) == vals[1] && I16At(b, 5 + 2 * 2) == vals[2];
    return Some(b);
  }

  /** After the first k numbers are written */
  ghost predicate PatchedUpTo(before: seq<Byte>, b: seq<Byte>, vals: seq<int>, k: nat)
    requires k <= |vals| == 3
  {
    && (|before| < 5 ==> |b| == |before| + 2 * k)
    && (|before| >= 5 ==>
         && |b| == (if |before| >= 5 + 2 * k then |before| else 5 + 2 * k)
         && (forall j :: 0 <= j < k ==> I16At(b, 5 + 2 * j) == vals[j])
         && (forall i :: 0 <= i < |before| && (i < 5 || 5 + 2 * k <= i) ==> b[i] == before[i]))
  }

  /** The header now carries the position, and nothing else changed. */
  ghost predicate Patches(before: seq<Byte>, after: seq<Byte>, pos: (int, int, int)) {
    && (|before| >= 11 ==> |after| == |before|)
    && (|after| >= 11 <==> |before| >= 5)
    && (|after| >= 11 ==> I16At(after, 5) == pos.0 && I16At(after, 7) == pos.1 && I16At(after, 9) == pos.2)
    && (|before| >= 5 ==> forall i :: 0 <= i < |before| && (i < 5 || 11 <= i) ==> after[i] == before[i])
  }

  // ---- the frame's grid

  datatype View = View(pixelSize: int, w: int, h: int, left: int, top: int, grid: seq<Byte>)

  /** Rounding a quotient to the nearest integer, halves to the even one */
  function RoundDiv(a: int, b: int): int
    requires b > 0
  {
    var q, r := a / b, a % b;
    if 2 * r < b || (2 * r == b && q % 2 == 0) then q else q + 1
  }

  lemma RoundDivIsNearest(a: int, b: int)
    requires b > 0
    ensures -b <= 2 * (a - RoundDiv(a, b) * b) <= b
    ensures 2 * (a - RoundDiv(a, b) * b) == b || 2 * (a - RoundDiv(a, b) * b) == -b ==> RoundDiv(a, b) % 2 == 0
  {
    var q, r := a / b, a % b;
    assert a == q * b + r;
    assert (q + 1) * b == q * b + b;
  }

  /** What the contour extractor reads of a frame; None when it is too short or its header is degenerate. */
  function Look(unpacked: seq<Byte>): Option<View> {
    if |unpacked| < 27 then None
    else
      var pixelSize, w, h := I16At(unpacked, 17), I16At(unpacked, 19), I16At(unpacked, 21);
      if pixelSize <= 0 || w <= 0 || h <= 0 || |unpacked| < 27 + w * h then None
      else
        Positive(w, h);
        Some(View(pixelSize, w, h, RoundDiv(I16At(unpacked, 23), pixelSize), RoundDiv(I16At(unpacked, 25), pixelSize),
                  unpacked[27..27 + w * h]))
  }

  /** A frame as the format lays it out: 17 bytes that are not looked at, the header's numbers, cells, trailer */
  ghost function Frame(lead: seq<Byte>, pixelSize: int, w: int, h: int, left: int, top: int,
                       cells: seq<Byte>, trailer: seq<Byte>): seq<Byte>
    requires FitsI16(pixelSize) && FitsI16(w) && FitsI16(h) && FitsI16(left) && FitsI16(top)
  {
    lead + ToI16(pixelSize) + ToI16(w) + ToI16(h) + ToI16(left) + ToI16(top) + cells + trailer
  }

  lemma FrameHeader(lead: seq<Byte>, pixelSize: int, w: int, h: int, left: int, top: int,
                    cells: seq<Byte>, trailer: seq<Byte>)
    requires |lead| == 17 && FitsI16(pixelSize) && FitsI16(w) && FitsI16(h) && FitsI16(left) && FitsI16(top)
    ensures var b := Frame(lead, pixelSize, w, h, left, top, cells, trailer);
      && |b| == 27 + |cells| + |trailer| && b[27..27 + |cells|] == cells
      && I16At(b, 17) == pixelSize && I16At(b, 19) == w && I16At(b, 21) == h
      && I16At(b, 23) == left && I16At(b, 25) == top
  {
    I16RoundTrip(pixelSize);
    I16RoundTrip(w);
    I16RoundTrip(h);
    I16RoundTrip(left);
    I16RoundTrip(top);
  }

  /** n is an integer nearest to a / b, and the even one of two. */
  ghost predicate Nearest(n: int, a: int, b: int) {
    && -b <= 2 * (a - n * b) <= b
    && (2 * (a - n * b) == b || 2 * (a - n * b) == -b ==> n % 2 == 0)
  }

  /** The extractor reads back what a frame was made of; all that follows the cells is ignored. */
  lemma LookAtFrame(lead: seq<Byte>, pixelSize: int, w: int, h: int, left: int, top: int,
                    cells: seq<Byte>, trailer: seq<Byte>)
    requires |lead| == 17 && FitsI16(pixelSize) && FitsI16(w) && FitsI16(h) && FitsI16(left) && FitsI16(top)
    requires pixelSize > 0 && w > 0 && h > 0 && |cells| == w * h
    ensures var view := Look(Frame(lead, pixelSize, w, h, left, top, cells, trailer));
      && view.Some? && view.value.pixelSize == pixelSize && view.value.w == w && view.value.h == h
      && view.value.grid == cells
      && Nearest(view.value.left, left, pixelSize) && Nearest(view.value.top, top, pixelSize)
  {
    FrameHeader(lead, pixelSize, w, h, left, top, cells, trailer);
    RoundDivIsNearest(left, pixelSize);
    RoundDivIsNearest(top, pixelSize);
  }

  /** It reads nothing exactly where the header is degenerate or promises more cells than come. */
  lemma LookFails(lead: seq<Byte>, pixelSize: int, w: int, h: int, left: int, top: int, rest: seq<Byte>)
    requires |lead| == 17 && FitsI16(pixelSize) && FitsI16(w) && FitsI16(h) && FitsI16(left) && FitsI16(top)
    ensures Look(Frame(lead, pixelSize, w, h, left, top, [], rest)).None? <==>
            pixelSize <= 0 || w <= 0 || h <= 0 || |rest| < w * h
  {
    FrameHeader(lead, pixelSize, w, h, left, top, [], rest);
  }

  /** Every frame of at least 27 bytes is laid out so, and a shorter one is not looked at. */
  lemma EveryFrame(b: seq<Byte>) returns (rest: seq<Byte>)
    ensures |b| < 27 ==> Look(b).None?
    ensures |b| >= 27 ==>
      && FitsI16(I16At(b, 17)) && FitsI16(I16At(b, 19)) && FitsI16(I16At(b, 21))
      && FitsI16(I16At(b, 23)) && FitsI16(I16At(b, 25))
      && b == Frame(b[..17], I16At(b, 17), I16At(b, 19), I16At(b, 21), I16At(b, 23), I16At(b, 25), [], rest)
  {
    rest := if |b| >= 27 then b[27..] else [];
    if |b| >= 27 {
      BytesBack(b, 17);
      BytesBack(b, 19);
      BytesBack(b, 21);
      BytesBack(b, 23);
      BytesBack(b, 25);
    }
  }

  lemma BytesBack(b: seq<Byte>, off: nat)
    requires off + 2 <= |b|
    ensures FitsI16(I16At(b, off)) && ToI16(I16At(b, off)) == [b[off], b[off + 1]]
  {
    LittleEndian(b[off], b[off + 1]);
  }

  lemma Positive(w: int, h: int)
    requires w > 0 && h > 0
    ensures w * h > 0
  {
  }

  function SegmentLabel(valid: set<int>): Labelling {
    (v: int) => if v / 4 in valid then Some(v / 4) else None
  }

  datatype DreameGrid = DreameGrid(minX: real, minY: real, maxX: real, maxY: real, resolution: real, chains: seq<Chain>)

  /** Grid columns or rows in metres */
  function Metres(n: int, resolution: real): real { n as real * resolution }

  ghost predicate HasSegmentCell(v: View, valid: set<int>)
    requires v.w * v.h <= |v.grid|
  {
    exists c :: In(c, v.w, v.h) && CellAt(v.grid, v.w, v.h, c) / 4 in valid
  }

  /** Trace the outlines of a frame's valid segments. The result depends on the frame only through what Look sees. */
  method ExtractDreameChains(unpacked: seq<Byte>, valid: set<int>, unitsPerMetre: real)
    returns (out: Option<DreameGrid>)
    requires unitsPerMetre != 0.0
    ensures out.Some? <==> Look(unpacked).Some? && HasSegmentCell(Look(unpacked).value, valid)
    ensures out.Some? ==> Outlines(Look(unpacked).value, valid, unitsPerMetre, out.value)
  {
    var look := Look(unpacked);
    if look.None? {
      return None;
    }
    var v := look.value;
    var masks := CollectMasks(v.grid, v.w, v.h, SegmentLabel(valid));
    NoSegments(v, masks, valid);
    if masks == map[] {
      return None;
    }
    var chains := ChainsFromMasks(masks);
    ScaledOutlines(v, valid, unitsPerMetre, masks, chains);
    return Some(Scaled(v, v.pixelSize as real / unitsPerMetre, chains));
  }

  /** The result for a frame whose cells have this size in metres */
  function Scaled(v: View, res: real, chains: seq<Chain>): DreameGrid {
    DreameGrid(Metres(v.left, res), Metres(v.top, res), Metres(v.left + v.w, res), Metres(v.top + v.h, res),
               res, chains)
  }

  lemma NoSegments(v: View, masks: map<int, set<Pt>>, valid: set<int>)
    requires v.w * v.h <= |v.grid| && LabelsGrid(masks, v.grid, v.w, v.h, SegmentLabel(valid))
    ensures masks == map[] <==> !HasSegmentCell(v, valid)
  {
    if masks != map[] {
      var lab := Pick(masks.Keys);
      var c :| c in masks[lab];
      assert Holds(masks, lab, c);
    }
    if c :| In(c, v.w, v.h) && CellAt(v.grid, v.w, v.h, c) / 4 in valid {
      assert Holds(masks, CellAt(v.grid, v.w, v.h, c) / 4, c);
    }
  }

  /** The masks hold exactly the cells of the valid segments; a cell's segment is its value without the two low bits. */
  ghost predicate SegmentMasks(masks: map<int, set<Pt>>, v: View, valid: set<int>)
    requires v.w * v.h <= |v.grid|
  {
    && (forall seg :: seg in masks ==> masks[seg] != {})
    && forall seg, c :: Holds(masks, seg, c) <==>
         In(c, v.w, v.h) && seg in valid && 4 * seg <= CellAt(v.grid, v.w, v.h, c) < 4 * seg + 4
  }

  lemma LabelledSegments(masks: map<int, set<Pt>>, v: View, valid: set<int>)
    requires v.w * v.h <= |v.grid| && LabelsGrid(masks, v.grid, v.w, v.h, SegmentLabel(valid))
    ensures SegmentMasks(masks, v, valid)
  {
  }

  /** Corners of the grid in metres, with chains for exactly the valid segments */
  ghost predicate Outlines(v: View, valid: set<int>, unitsPerMetre: real, out: DreameGrid)
    requires unitsPerMetre != 0.0 && v.w * v.h <= |v.grid|
  {
    && out.resolution == v.pixelSize as real / unitsPerMetre
    && out.minX == v.left as real * out.resolution && out.maxX == (v.left + v.w) as real * out.resolution
    && out.minY == v.top as real * out.resolution && out.maxY == (v.top + v.h) as real * out.resolution
    && exists masks :: SegmentMasks(masks, v, valid) && ChainsOf(masks, out.chains)
  }

  lemma ScaledOutlines(v: View, valid: set<int>, unitsPerMetre: real, masks: map<int, set<Pt>>, chains: seq<Chain>)
    requires unitsPerMetre != 0.0 && v.w * v.h <= |v.grid|
    requires LabelsGrid(masks, v.grid, v.w, v.h, SegmentLabel(valid)) && ChainsOf(masks, chains)
    ensures Outlines(v, valid, unitsPerMetre, Scaled(v, v.pixelSize as real / unitsPerMetre, chains))
  {
    LabelledSegments(masks, v, valid);
  }

  /** Moving the dot never moves the rooms: the extractor sees the same frame before and after. */
  lemma PatchKeepsView(before: seq<Byte>, after: seq<Byte>, pos: (int, int, int))
    requires |before| >= 27 && Patches(before, after, pos)
    ensures Look(after) == Look(before)
  {
    assert after[27..] == before[27..];
    var w, h := I16At(before, 19), I16At(before, 21);
    if w > 0 && h > 0 && |before| >= 27 + w * h {
      Positive(w, h);
      assert after[27..27 + w * h] == after[27..][..w * h];
      assert before[27..27 + w * h] == before[27..][..w * h];
    }
  }

  /** Patching twice leaves the second position; patching a position back restores the frame. */
  lemma PatchesCompose(a: seq<Byte>, b: seq<Byte>, c: seq<Byte>, p: (int, int, int), q: (int, int, int))
    requires |a| >= 11 && Patches(a, b, p) && Patches(b, c, q)
    ensures Patches(a, c, q)
    ensures q == (I16At(a, 5), I16At(a, 7), I16At(a, 9)) ==> c == a
  {
    if q == (I16At(a, 5), I16At(a, 7), I16At(a, 9)) {
      forall i | 0 <= i < |a| ensures c[i] == a[i] {
        if 5 <= i < 11 {
          var off := if i < 7 then 5 else if i < 9 then 7 else 9;
          I16Injective(a[off], a[off + 1], c[off], c[off + 1]);
        }
      }
    }
  }

  lemma I16Injective(a: Byte, b: Byte, c: Byte, d: Byte)
    requires I16(a, b) == I16(c, d)
    ensures a == c && b == d
  {
  }
}
