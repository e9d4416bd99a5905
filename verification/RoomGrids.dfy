/**
 The three labelled grids rooms are traced from, each with its own cell alphabet, and the raster
 the card paints from the one it is sent.
 */
module RoomGrids {
  import opened Options
  import opened Grid
  import opened Chains
  import opened RunLength

  const ROOM_MIN := 10
  const ROOM_MAX := 59
  const SELECTED_OFFSET := 50
  const JSON_ROOM_MIN := 3
  const JSON_ROOM_MAX := 63

  // ---- cells of a row-major grid

  predicate In(c: Pt, w: int, h: int) {
    0 <= c.x < w && 0 <= c.y < h
  }

  lemma WholeRows(above: nat, below: nat, w: nat)
    ensures above * w >= 0 && below * w >= 0
    ensures w * (above + 1 + below) == above * w + w + below * w
  {
  }

  lemma IndexInGrid(c: Pt, w: int, h: int)
    requires In(c, w, h)
    ensures 0 <= c.y * w + c.x < w * h
  {
    WholeRows(c.y, h - 1 - c.y, w);
  }

  ghost function CellAt(cells: seq<int>, w: int, h: int, c: Pt): int
    requires In(c, w, h) && w * h <= |cells|
  {
    IndexInGrid(c, w, h);
    cells[c.y * w + c.x]
  }

  ghost function Flat(rows: seq<seq<int>>): seq<int> {
    if rows == [] then [] else Flat(rows[..|rows| - 1]) + rows[|rows| - 1]
  }

  lemma {:induction false} FlatLength(rows: seq<seq<int>>, w: nat)
    requires forall y :: 0 <= y < |rows| ==> |rows[y]| == w
    ensures |Flat(rows)| == w * |rows|
  {
    if rows != [] {
      FlatLength(rows[..|rows| - 1], w);
      OneRowMore(|rows| - 1, w);
    }
  }

  lemma OneRowMore(n: nat, w: nat)
    ensures w * (n + 1) == w * n + w
  {
  }

  /** Where a grid is its rows, one after the other, a cell is found in its row at its column. */
  lemma {:induction false} CellOfRow(rows: seq<seq<int>>, w: nat, c: Pt)
    requires (forall y :: 0 <= y < |rows| ==> |rows[y]| == w) && In(c, w, |rows|)
    ensures w * |rows| <= |Flat(rows)| && CellAt(Flat(rows), w, |rows|, c) == rows[c.y][c.x]
  {
    var front, last := rows[..|rows| - 1], |rows| - 1;
    FlatLength(rows, w);
    FlatLength(front, w);
    IndexInGrid(c, w, |rows|);
    if c.y < last {
      IndexInGrid(c, w, last);
      CellOfRow(front, w, c);
      assert Flat(rows)[c.y * w + c.x] == Flat(front)[c.y * w + c.x];
    } else {
      WholeRows(last, 0, w);
      assert Flat(rows)[last * w + c.x] == rows[last][c.x];
    }
  }

  /** How a cell value names a room */
  type Labelling = int -> Option<int>

  predicate Holds(masks: map<int, set<Pt>>, lab: int, c: Pt) {
    lab in masks && c in masks[lab]
  }

  /** The masks hold exactly the labelled cells, each under its own label. */
  ghost predicate LabelsGrid(masks: map<int, set<Pt>>, cells: seq<int>, w: int, h: int, rule: Labelling)
    requires w <= 0 || h <= 0 || w * h <= |cells|
  {
    && (forall lab :: lab in masks ==> masks[lab] != {})
    && (forall lab, c :: Holds(masks, lab, c) <==> In(c, w, h) && rule(CellAt(cells, w, h, c)) == Some(lab))
  }

  /** The masks of a grid are disjoint and cover every labelled cell. */
  lemma MasksPartitionCells(masks: map<int, set<Pt>>, cells: seq<int>, w: int, h: int, rule: Labelling)
    requires w <= 0 || h <= 0 || w * h <= |cells|
    requires LabelsGrid(masks, cells, w, h, rule)
    ensures forall a, b :: a in masks && b in masks && a != b ==> masks[a] !! masks[b]
    ensures forall c :: In(c, w, h) ==>
      ((exists lab :: Holds(masks, lab, c)) <==> rule(CellAt(cells, w, h, c)).Some?)
  {
    forall a, b, c | Holds(masks, a, c) && Holds(masks, b, c) ensures a == b {
      assert rule(CellAt(cells, w, h, c)) == Some(a);
    }
    forall a, b | a in masks && b in masks && a != b ensures masks[a] !! masks[b] {
      forall c | c in masks[a] && c in masks[b] ensures false {
        assert Holds(masks, a, c) && Holds(masks, b, c);
      }
    }
    forall c | In(c, w, h) && rule(CellAt(cells, w, h, c)).Some? ensures exists lab :: Holds(masks, lab, c) {
      var lab := rule(CellAt(cells, w, h, c)).value;
      assert Holds(masks, lab, c);
    }
  }

  /** Masks are determined by the grid and the labelling. */
  lemma MasksAreUnique(m: map<int, set<Pt>>, n: map<int, set<Pt>>, cells: seq<int>, w: int, h: int, rule: Labelling)
    requires w <= 0 || h <= 0 || w * h <= |cells|
    requires LabelsGrid(m, cells, w, h, rule) && LabelsGrid(n, cells, w, h, rule)
    ensures m == n
  {
    forall lab ensures lab in m <==> lab in n {
      if lab in m { var c :| c in m[lab]; assert Holds(m, lab, c) && Holds(n, lab, c); }
      if lab in n { var c :| c in n[lab]; assert Holds(n, lab, c) && Holds(m, lab, c); }
    }
    forall lab | lab in m ensures m[lab] == n[lab] {
      forall c ensures c in m[lab] <==> c in n[lab] {
        assert Holds(m, lab, c) <==> Holds(n, lab, c);
      }
    }
  }

  /** The cells scanned before row r, column c */
  ghost predicate Scanned(p: Pt, r: int, c: int) {
    p.y < r || (p.y == r && p.x < c)
  }

  ghost predicate LabelsScanned(masks: map<int, set<Pt>>, cells: seq<int>, w: int, h: int, rule: Labelling,
                                r: int, c: int)
    requires w <= 0 || h <= 0 || w * h <= |cells|
  {
    && (forall lab :: lab in masks ==> masks[lab] != {})
    && (forall lab, p :: Holds(masks, lab, p) <==>
          In(p, w, h) && Scanned(p, r, c) && rule(CellAt(cells, w, h, p)) == Some(lab))
  }

  /** File one cell under its rule. */
  method AddCell(masks: map<int, set<Pt>>, lab: Option<int>, p: Pt) returns (more: map<int, set<Pt>>)
    requires forall l :: l in masks ==> masks[l] != {}
    ensures forall l :: l in more ==> more[l] != {}
    ensures forall l, q :: Holds(more, l, q) <==> Holds(masks, l, q) || (lab == Some(l) && q == p)
  {
    more := masks;
    if lab.Some? {
      more := masks[lab.value := (if lab.value in masks then masks[lab.value] else {}) + {p}];
    }
  }

  /** Collect the mask of every label in the grid. */
  method CollectMasks(cells: seq<int>, w: int, h: int, rule: Labelling) returns (masks: map<int, set<Pt>>)
    requires w <= 0 || h <= 0 || w * h <= |cells|
    ensures LabelsGrid(masks, cells, w, h, rule)
  {
    masks := map[];
    var r := 0;
    while r < h
      invariant 0 <= r && (r <= h || r == 0)
      invariant LabelsScanned(masks, cells, w, h, rule, r, 0)
    {
      var base := r * w;
      var c := 0;
      while c < w
        invariant 0 <= c && (c <= w || c == 0)
        invariant LabelsScanned(masks, cells, w, h, rule, r, c)
      {
        IndexInGrid(Pt(c, r), w, h);
        var lab := rule(cells[base + c]);
        assert CellAt(cells, w, h, Pt(c, r)) == cells[base + c];
        masks := AddCell(masks, lab, Pt(c, r));
        c := c + 1;
      }
      r := r + 1;
    }
  }

  // ---- the ijai grid and the card's labels

  function LabelOf(v: int): (r: Option<int>)
    ensures forall lab :: r == Some(lab) <==> 10 <= lab <= 59 && (v == lab || v == lab + 50)
  {
    if ROOM_MIN <= v <= ROOM_MAX then Some(v)
    else if ROOM_MAX + SELECTED_OFFSET >= v >= ROOM_MIN + SELECTED_OFFSET then Some(v - SELECTED_OFFSET)
    else None
  }

  /** The card's own rule, with its own constants */
  function CardLabel(v: int): (r: Option<int>)
    ensures forall lab :: r == Some(lab) <==> 10 <= lab <= 59 && (v == lab || v == lab + 50)
  {
    if v >= 10 && v <= 59 then Some(v)
    else if v >= 60 && v <= 109 then Some(v - 50)
    else None
  }

  datatype Result<T> = Done(value: T) | IndexError

  /** Trace the room outlines of an ijai grid; a grid that is too short is an index error. */
  method TraceRoomChains(grid: seq<Byte>, w: int, h: int) returns (r: Result<seq<Chain>>)
    ensures r.IndexError? <==> w > 0 && h > 0 && |grid| < w * h
    ensures r.Done? ==> exists masks :: LabelsGrid(masks, grid, w, h, LabelOf) && ChainsOf(masks, r.value)
  {
    if w > 0 && h > 0 && |grid| < w * h {
      return IndexError;
    }
    var masks := CollectMasks(grid, w, h, LabelOf);
    var chains := ChainsFromMasks(masks);
    return Done(chains);
  }

  /** The chains outline exactly the rooms that the card paints from the run-length list. */
  ghost predicate AgreesWithRaster(chains: seq<Chain>, rle: seq<int>, w: int, h: int)
    requires Counts(rle) && w * h >= 0
  {
    exists masks :: LabelsGrid(masks, CardCells(rle, w * h), w, h, CardLabel) && ChainsOf(masks, chains)
  }

  lemma SameLabels(masks: map<int, set<Pt>>, cells: seq<int>, rule: Labelling,
                   other: seq<int>, rule2: Labelling, w: int, h: int)
    requires w <= 0 || h <= 0 || (w * h <= |cells| && w * h <= |other|)
    requires LabelsGrid(masks, cells, w, h, rule)
    requires forall i :: 0 <= i < w * h ==> i < |cells| && i < |other| && rule(cells[i]) == rule2(other[i])
    ensures LabelsGrid(masks, other, w, h, rule2)
  {
    forall c | In(c, w, h) ensures rule(CellAt(cells, w, h, c)) == rule2(CellAt(other, w, h, c)) {
      IndexInGrid(c, w, h);
    }
  }

  /** Whatever an ijai map is labelled with, its traced outlines and its painted raster agree. */
  lemma OutlinesAgree(masks: map<int, set<Pt>>, chains: seq<Chain>, grid: seq<Byte>, rle: seq<int>, w: nat, h: nat)
    requires w * h <= |grid| && LabelsGrid(masks, grid, w, h, LabelOf) && ChainsOf(masks, chains)
    requires Counts(rle) && Expand(rle) == grid
    ensures AgreesWithRaster(chains, rle, w, h)
  {
    BytesOfBytes(grid);
    SameLabels(masks, grid, LabelOf, CardCells(rle, w * h), CardLabel, w, h);
  }

  /** A room of the firmware's own map: its id and a polygon, possibly without points */
  datatype FirmwareRoom = FirmwareRoom(id: int, points: seq<Pt>)

  /** The firmware's polygons, one ring each; rooms without points are skipped. */
  function FirmwareChains(rooms: seq<FirmwareRoom>): seq<Chain> {
    if rooms == [] then []
    else
      var room := rooms[|rooms| - 1];
      FirmwareChains(rooms[..|rooms| - 1]) + (if room.points != [] then [Chain(room.id, [room.points])] else [])
  }

  ghost predicate PolygonOf(rooms: seq<FirmwareRoom>, k: nat, chain: Chain) {
    k < |rooms| && rooms[k].points != [] && chain == Chain(rooms[k].id, [rooms[k].points])
  }

  /** These are the indices, in order, of the rooms with points, and these the chains made of them. */
  ghost predicate PolygonsOf(rooms: seq<FirmwareRoom>, picked: seq<nat>, chains: seq<Chain>) {
    && |chains| == |picked|
    && (forall i, j :: 0 <= i < j < |picked| ==> picked[i] < picked[j])
    && (forall i :: 0 <= i < |picked| ==> PolygonOf(rooms, picked[i], chains[i]))
    && (forall k :: 0 <= k < |rooms| && rooms[k].points != [] ==> k in picked)
  }

  /** The firmware's polygons are sent in order, one chain of one ring for each room with points. */
  lemma {:induction false} PolygonPerRoom(rooms: seq<FirmwareRoom>) returns (picked: seq<nat>)
    ensures PolygonsOf(rooms, picked, FirmwareChains(rooms))
  {
    if rooms == [] {
      picked := [];
    } else {
      var last := |rooms| - 1;
      var before := PolygonPerRoom(rooms[..last]);
      picked := OneRoomMore(rooms, before, FirmwareChains(rooms[..last]));
    }
  }

  lemma OneRoomMore(rooms: seq<FirmwareRoom>, before: seq<nat>, chains: seq<Chain>) returns (picked: seq<nat>)
    requires rooms != [] && PolygonsOf(rooms[..|rooms| - 1], before, chains)
    ensures var last := rooms[|rooms| - 1];
      PolygonsOf(rooms, picked, chains + (if last.points != [] then [Chain(last.id, [last.points])] else []))
  {
    var front, n := rooms[..|rooms| - 1], |rooms| - 1;
    forall i | 0 <= i < |before| ensures PolygonOf(rooms, before[i], chains[i]) && before[i] < n {
      assert PolygonOf(front, before[i], chains[i]);
    }
    forall k | 0 <= k < n && rooms[k].points != [] ensures k in before {
      assert front[k] == rooms[k];
    }
    if rooms[n].points == [] {
      picked := before;
    } else {
      picked := before + [n];
      assert PolygonOf(rooms, picked[|before|], Chain(rooms[n].id, [rooms[n].points]));
      forall k | 0 <= k < |rooms| && rooms[k].points != [] ensures k in picked {
        assert k < n ==> k in before;
        assert picked[|before|] == n;
      }
    }
  }

  /** What is sent of an ijai map */
  datatype IjaiGrid = IjaiGrid(rle: seq<int>, chains: seq<Chain>)

  ghost predicate HasRoom(grid: seq<Byte>, w: nat, h: nat)
    requires w * h <= |grid|
  {
    exists c :: In(c, w, h) && LabelOf(CellAt(grid, w, h, c)).Some?
  }

  lemma NoChains(masks: map<int, set<Pt>>, chains: seq<Chain>, grid: seq<Byte>, w: nat, h: nat)
    requires w * h <= |grid| && LabelsGrid(masks, grid, w, h, LabelOf) && ChainsOf(masks, chains)
    ensures chains != [] <==> HasRoom(grid, w, h)
  {
    if c :| In(c, w, h) && LabelOf(CellAt(grid, w, h, c)).Some? {
      assert Holds(masks, LabelOf(CellAt(grid, w, h, c)).value, c);
      assert HasId(chains, LabelOf(CellAt(grid, w, h, c)).value);
    }
    if chains != [] {
      var lab := chains[0].id;
      assert HasId(chains, lab);
      var c :| c in masks[lab];
      assert Holds(masks, lab, c);
    }
  }

  /**
   The raster and the outlines of an ijai map. The outlines are traced from the grid and agree
   with the raster, or, when no cell of the grid carries a room, are the firmware's polygons.
   */
  method ExtractGrid(grid: seq<Byte>, w: nat, h: nat, rooms: seq<FirmwareRoom>) returns (r: Result<IjaiGrid>)
    ensures r.IndexError? <==> w > 0 && h > 0 && |grid| < w * h
    ensures r.Done? ==> Canonical(r.value.rle) && Counts(r.value.rle) && Expand(r.value.rle) == grid
    ensures r.Done? ==> w * h <= |grid|
    ensures r.Done? && HasRoom(grid, w, h) ==> AgreesWithRaster(r.value.chains, r.value.rle, w, h)
    ensures r.Done? && !HasRoom(grid, w, h) ==> r.value.chains == FirmwareChains(rooms)
  {
    var traced := TraceRoomChains(grid, w, h);
    if traced.IndexError? {
      return IndexError;
    }
    assert w == 0 || h == 0 ==> w * h == 0;
    var chains := traced.value;
    var rle := Rle(grid);
    ghost var masks :| LabelsGrid(masks, grid, w, h, LabelOf) && ChainsOf(masks, chains);
    NoChains(masks, chains, grid, w, h);
    if chains == [] {
      for k := 0 to |rooms|
        invariant chains == FirmwareChains(rooms[..k])
      {
        assert rooms[..k + 1][..k] == rooms[..k];
        if rooms[k].points != [] {
          chains := chains + [Chain(rooms[k].id, [rooms[k].points])];
        }
      }
      assert rooms[..|rooms|] == rooms;
    } else {
      OutlinesAgree(masks, chains, grid, rle, w, h);
    }
    return Done(IjaiGrid(rle, chains));
  }
}
