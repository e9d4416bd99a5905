/** Room outlines and raster from a xiaomi JSON map payload. */
module JsonGrid {
  import opened Options
  import opened Sums
  import opened Grid
  import opened Chains
  import opened RunLength
  import opened RoomGrids

  // ---- the room table

  datatype RoomInfo = RoomInfo(gridId: int, roomId: int)

  ghost predicate OneToOne(m: map<int, int>) {
    forall a, b :: a in m && b in m && m[a] == m[b] ==> a == b
  }

  /** The entries of the table in order, the last one for a grid id winning; malformed entries are skipped. */
  ghost function LastWrites(info: seq<Option<RoomInfo>>): map<int, int> {
    if info == [] then map[]
    else
      var before, last := LastWrites(info[..|info| - 1]), info[|info| - 1];
      if last.Some? then before[last.value.gridId := last.value.roomId] else before
  }

  /** The table when it is a list that gives every grid id its own room */
  ghost function RoomTable(info: Option<seq<Option<RoomInfo>>>): map<int, int> {
    if info.Some? && OneToOne(LastWrites(info.value)) then LastWrites(info.value) else map[]
  }

  lemma {:induction false} ValueCount(m: map<int, int>)
    ensures |m.Values| <= |m|
    ensures |m.Values| == |m| <==> OneToOne(m)
    decreases |m|
  {
    if m == map[] {
      assert m.Values == {};
    } else {
      var k := Pick(m.Keys);
      var rest := m - {k};
      assert rest.Keys == m.Keys - {k};
      ValueCount(rest);
      ValuesWithout(m, k);
    }
  }

  lemma KeyOf<K, V>(m: map<K, V>, v: V) returns (k: K)
    requires v in m.Values
    ensures k in m && m[k] == v
  {
    k :| k in m && m[k] == v;
  }

  lemma ValuesWithout(m: map<int, int>, k: int)
    requires k in m
    ensures m.Values == (m - {k}).Values + {m[k]}
    ensures OneToOne(m) <==> OneToOne(m - {k}) && m[k] !in (m - {k}).Values
  {
    var rest := m - {k};
    forall v ensures v in m.Values <==> v in rest.Values + {m[k]} {
      if v in m.Values {
        var j := KeyOf(m, v);
        assert j != k ==> j in rest && rest[j] == v;
      }
      if v in rest.Values {
        var j := KeyOf(rest, v);
        assert j in m && m[j] == v;
      }
    }
    if m[k] in rest.Values {
      var j := KeyOf(rest, m[k]);
      assert j in m && m[j] == m[k] && j != k;
    } else if OneToOne(rest) {
      forall a, b | a in m && b in m && m[a] == m[b] ensures a == b {
        assert a != k ==> a in rest && rest[a] in rest.Values;
        assert b != k ==> b in rest && rest[b] in rest.Values;
      }
    }
    if OneToOne(m) {
      forall a, b | a in rest && b in rest && rest[a] == rest[b] ensures a == b {
        assert a in m && b in m;
      }
    }
  }

  /** Entry i gives grid id g its room, and no later entry does. */
  ghost predicate LastFor(info: seq<Option<RoomInfo>>, i: nat, g: int)
    requires i < |info|
  {
    && info[i].Some? && info[i].value.gridId == g
    && forall j :: i < j < |info| ==> info[j].None? || info[j].value.gridId != g
  }

  lemma LastForShorter(info: seq<Option<RoomInfo>>, i: nat, g: int)
    requires i + 1 < |info|
    ensures LastFor(info, i, g) <==>
      LastFor(info[..|info| - 1], i, g) && (info[|info| - 1].None? || info[|info| - 1].value.gridId != g)
  {
    var front := info[..|info| - 1];
    if LastFor(info, i, g) {
      forall j | i < j < |front| ensures front[j].None? || front[j].value.gridId != g { assert front[j] == info[j]; }
    }
    if LastFor(front, i, g) && (info[|info| - 1].None? || info[|info| - 1].value.gridId != g) {
      forall j | i < j < |info| ensures info[j].None? || info[j].value.gridId != g {
        assert j < |front| ==> front[j] == info[j];
      }
    }
  }

  lemma {:induction false} LastEntryWins(info: seq<Option<RoomInfo>>, g: int)
    ensures g in LastWrites(info) <==> exists i :: 0 <= i < |info| && LastFor(info, i, g)
    ensures forall i :: 0 <= i < |info| && LastFor(info, i, g) ==>
      g in LastWrites(info) && LastWrites(info)[g] == info[i].value.roomId
  {
    if info != [] {
      var front, n := info[..|info| - 1], |info| - 1;
      LastEntryWins(front, g);
      if info[n].Some? && info[n].value.gridId == g {
        assert LastFor(info, n, g);
      } else if g in LastWrites(front) {
        var i :| 0 <= i < |front| && LastFor(front, i, g);
        LastForShorter(info, i, g);
      }
      forall i | 0 <= i < |info| && LastFor(info, i, g)
        ensures g in LastWrites(info) && LastWrites(info)[g] == info[i].value.roomId
      {
        if i < n {
          LastForShorter(info, i, g);
        }
      }
    }
  }

  /** Two grid ids are given the same room. */
  ghost predicate Clash(info: seq<Option<RoomInfo>>, i: nat, j: nat)
    requires i < |info| && j < |info|
  {
    && info[i].Some? && info[j].Some?
    && LastFor(info, i, info[i].value.gridId) && LastFor(info, j, info[j].value.gridId)
    && info[i].value.gridId != info[j].value.gridId && info[i].value.roomId == info[j].value.roomId
  }

  ghost predicate NoClash(info: seq<Option<RoomInfo>>) {
    forall i, j :: 0 <= i < |info| && 0 <= j < |info| ==> !Clash(info, i, j)
  }

  lemma OneToOneIfNoClash(info: seq<Option<RoomInfo>>)
    ensures OneToOne(LastWrites(info)) <==> NoClash(info)
  {
    var m := LastWrites(info);
    if i, j :| 0 <= i < |info| && 0 <= j < |info| && Clash(info, i, j) {
      LastEntryWins(info, info[i].value.gridId);
      LastEntryWins(info, info[j].value.gridId);
    }
    forall a, b | a in m && b in m && m[a] == m[b] && a != b ensures !NoClash(info) {
      LastEntryWins(info, a);
      LastEntryWins(info, b);
      var i :| 0 <= i < |info| && LastFor(info, i, a);
      var j :| 0 <= j < |info| && LastFor(info, j, b);
      assert Clash(info, i, j);
    }
  }

  /** The entry that says which room a grid id is, where the table is a list without clashes */
  ghost predicate Tells(info: Option<seq<Option<RoomInfo>>>, i: int, g: int) {
    info.Some? && NoClash(info.value) && 0 <= i < |info.value| && LastFor(info.value, i, g)
  }

  /** The table by its entries: a grid id is in it exactly when an entry tells its room, and it has that room. */
  lemma TableByEntries(info: Option<seq<Option<RoomInfo>>>, g: int)
    ensures g in RoomTable(info) <==> exists i :: Tells(info, i, g)
    ensures forall i :: Tells(info, i, g) ==> g in RoomTable(info) && RoomTable(info)[g] == info.value[i].value.roomId
  {
    if info.Some? {
      LastEntryWins(info.value, g);
      OneToOneIfNoClash(info.value);
      if g in RoomTable(info) {
        var i :| 0 <= i < |info.value| && LastFor(info.value, i, g);
        assert Tells(info, i, g);
      }
    }
  }

  /** Grid id to room id; empty when the table is absent, not a list, or not one-to-one. */
  method JsonRoomMap(info: Option<seq<Option<RoomInfo>>>) returns (gridToRoom: map<int, int>)
    ensures OneToOne(gridToRoom) && gridToRoom == RoomTable(info)
  {
    gridToRoom := map[];
    if info.None? {
      return;
    }
    for i := 0 to |info.value|
      invariant gridToRoom == LastWrites(info.value[..i])
    {
      var entry := info.value[i];
      assert info.value[..i + 1][..i] == info.value[..i];
      if entry.Some? {
        gridToRoom := gridToRoom[entry.value.gridId := entry.value.roomId];
      }
    }
    assert info.value[..|info.value|] == info.value;
    ValueCount(gridToRoom);
    if |gridToRoom.Values| < |gridToRoom| {
      gridToRoom := map[];
    }
  }

  // ---- the payload

  datatype MapData = Missing | Undecodable | Cells(cells: seq<Byte>)

  /** Resolution and origin in metres; absent when they are not numbers or the unit divisor is zero */
  datatype Geometry = Geometry(resolution: real, minX: real, minY: real)

  datatype Payload =
    | NotAnObject
    | Payload(width: int, height: int, data: MapData, rooms: Option<seq<Option<RoomInfo>>>, geometry: Option<Geometry>)

  datatype Bounds = Bounds(minX: real, minY: real, maxX: real, maxY: real)

  function BoundsOf(g: Geometry, w: int, h: int): Bounds {
    Bounds(g.minX, g.minY, g.minX + w as real * g.resolution, g.minY + h as real * g.resolution)
  }

  /** The bounds start at the origin and are as many cells wide and high as the map. */
  ghost predicate Spans(b: Bounds, g: Geometry, w: int, h: int) {
    && b.minX == g.minX && b.maxX - b.minX == w as real * g.resolution
    && b.minY == g.minY && b.maxY - b.minY == h as real * g.resolution
  }

  datatype GridOut = GridOut(bounds: Option<Bounds>, resolution: Option<real>, chains: seq<Chain>,
                             size: Option<(int, int)>, rle: seq<int>)

  const EMPTY_GRID := GridOut(None, None, [], None, [])

  function RoomOf(v: int, gridToRoom: map<int, int>): int {
    if v in gridToRoom then gridToRoom[v] else v
  }

  function JsonLabel(gridToRoom: map<int, int>): Labelling {
    (v: int) => if JSON_ROOM_MIN <= v <= JSON_ROOM_MAX then Some(RoomOf(v, gridToRoom)) else None
  }

  /** A cell value names this room: a room value, with the room its entry tells, or with itself for want of one. */
  ghost predicate Names(info: Option<seq<Option<RoomInfo>>>, v: int, room: int) {
    3 <= v <= 63 &&
    if exists i :: Tells(info, i, v) then exists i :: Tells(info, i, v) && room == info.value[i].value.roomId
    else room == v
  }

  lemma LabelByEntries(info: Option<seq<Option<RoomInfo>>>, v: int, room: int)
    ensures JsonLabel(RoomTable(info))(v) == Some(room) <==> Names(info, v, room)
  {
    TableByEntries(info, v);
  }

  /** A cell relabelled to the alphabet of the card */
  function Normal(v: int, gridToRoom: map<int, int>): int {
    if v == 1 || v == 2 then v
    else if JSON_ROOM_MIN <= v <= JSON_ROOM_MAX then RoomOf(v, gridToRoom)
    else if v != 0 then 255
    else 0
  }

  /** Cell v of the payload is shipped as r: empty, floor and new area as is, rooms by room id, all else as wall. */
  ghost predicate ShippedAs(v: int, r: int, gridToRoom: map<int, int>) {
    && (0 <= v <= 2 ==> r == v)
    && (3 <= v <= 63 ==> r == if v in gridToRoom then gridToRoom[v] else v)
    && (v > 63 ==> r == 255)
  }

  predicate InBand(lab: int) { ROOM_MIN <= lab <= ROOM_MAX }

  /** Enough cells for the stated size, and the size stated */
  ghost predicate Readable(p: Payload) {
    && p.Payload? && p.width != 0 && p.height != 0 && p.data.Cells?
    && |p.data.cells| >= p.width * p.height
  }

  method AllInBand(masks: map<int, set<Pt>>) returns (all: bool)
    ensures all <==> forall lab :: lab in masks ==> InBand(lab)
  {
    var todo := masks.Keys;
    all := true;
    while todo != {}
      invariant todo <= masks.Keys
      invariant all ==> forall lab :: lab in masks && lab !in todo ==> InBand(lab)
      invariant !all ==> exists lab :: lab in masks && !InBand(lab)
    {
      // The picked element is the witness that there is one to take.
      ghost var first := Pick(todo);
      var lab :| lab in todo;
      todo := todo - {lab};
      all := all && InBand(lab);
    }
  }

  method Normalise(cells: seq<Byte>, size: nat, gridToRoom: map<int, int>) returns (norm: seq<Byte>)
    requires size <= |cells|
    requires forall i :: 0 <= i < size && JSON_ROOM_MIN <= cells[i] <= JSON_ROOM_MAX ==>
                           InBand(RoomOf(cells[i], gridToRoom))
    ensures |norm| == size && forall i :: 0 <= i < size ==> norm[i] == Normal(cells[i], gridToRoom)
    ensures forall i :: 0 <= i < size ==> ShippedAs(cells[i], norm[i], gridToRoom)
  {
    var out := new Byte[size](_ => 0);
    for i := 0 to size
      invariant forall j :: 0 <= j < size ==> out[j] == if j < i then Normal(cells[j], gridToRoom) else 0
    {
      var v := cells[i];
      if v == 1 || v == 2 {
        out[i] := v;
      } else if JSON_ROOM_MIN <= v <= JSON_ROOM_MAX {
        out[i] := RoomOf(v, gridToRoom);
      } else if v != 0 {
        out[i] := 255;
      }
    }
    norm := out[..];
  }

  lemma RowInGrid(i: nat, w: nat, h: nat)
    requires w > 0 && i < w * h
    ensures i / w < h
  {
  }

  lemma CellsInBand(masks: map<int, set<Pt>>, cells: seq<int>, w: int, h: int, gridToRoom: map<int, int>)
    requires w > 0 && h > 0 && w * h <= |cells|
    requires LabelsGrid(masks, cells, w, h, JsonLabel(gridToRoom)) && forall lab :: lab in masks ==> InBand(lab)
    ensures forall i :: 0 <= i < w * h && JSON_ROOM_MIN <= cells[i] <= JSON_ROOM_MAX ==>
                          InBand(RoomOf(cells[i], gridToRoom))
  {
    forall i | 0 <= i < w * h && JSON_ROOM_MIN <= cells[i] <= JSON_ROOM_MAX
      ensures InBand(RoomOf(cells[i], gridToRoom))
    {
      var c := Pt(i % w, i / w);
      assert i == (i / w) * w + i % w;
      RowInGrid(i, w, h);
      assert In(c, w, h) && CellAt(cells, w, h, c) == cells[i];
      assert Holds(masks, RoomOf(cells[i], gridToRoom), c);
    }
  }

  /** Relabel the cells for the card and encode them; the card then reads the same masks. */
  method Raster(ghost masks: map<int, set<Pt>>, cells: seq<Byte>, w: int, h: int, gridToRoom: map<int, int>)
    returns (rle: seq<int>)
    requires w > 0 && h > 0 && 0 < w * h <= |cells|
    requires LabelsGrid(masks, cells, w, h, JsonLabel(gridToRoom)) && forall lab :: lab in masks ==> InBand(lab)
    ensures Counts(rle) && |Expand(rle)| == w * h
    ensures forall i :: 0 <= i < w * h ==> ShippedAs(cells[i], Expand(rle)[i], gridToRoom)
    ensures LabelsGrid(masks, CardCells(rle, w * h), w, h, CardLabel)
  {
    CellsInBand(masks, cells, w, h, gridToRoom);
    var norm := Normalise(cells, w * h, gridToRoom);
    rle := Rle(norm);
    BytesOfBytes(norm);
    SameLabels(masks, cells, JsonLabel(gridToRoom), CardCells(rle, w * h), CardLabel, w, h);
  }

  /** Some cell of the map carries a room value. */
  ghost predicate HasRoomCell(p: Payload)
    requires Readable(p)
  {
    exists c :: In(c, p.width, p.height) && JSON_ROOM_MIN <= CellAt(p.data.cells, p.width, p.height, c) <= JSON_ROOM_MAX
  }

  /** The masks hold exactly the cells that name a room, each under that room. */
  ghost predicate NamedMasks(masks: map<int, set<Pt>>, p: Payload)
    requires Readable(p)
  {
    && (forall room :: room in masks ==> masks[room] != {})
    && forall room, c :: Holds(masks, room, c) <==>
         In(c, p.width, p.height) && Names(p.rooms, CellAt(p.data.cells, p.width, p.height, c), room)
  }

  lemma LabelledAreNamed(masks: map<int, set<Pt>>, p: Payload)
    requires Readable(p)
    requires LabelsGrid(masks, p.data.cells, p.width, p.height, JsonLabel(RoomTable(p.rooms)))
    ensures NamedMasks(masks, p)
  {
    forall room, c
      ensures Holds(masks, room, c) <==>
        In(c, p.width, p.height) && Names(p.rooms, CellAt(p.data.cells, p.width, p.height, c), room)
    {
      if In(c, p.width, p.height) {
        LabelByEntries(p.rooms, CellAt(p.data.cells, p.width, p.height, c), room);
      }
    }
  }

  /** Trace the payload's rooms, and ship the raster too when the card can read all its labels. */
  method ExtractJsonGrid(p: Payload) returns (out: GridOut)
    ensures out == EMPTY_GRID <==> !(Readable(p) && HasRoomCell(p) && p.geometry.Some?)
    ensures out != EMPTY_GRID ==>
      && out.resolution == Some(p.geometry.value.resolution)
      && out.bounds.Some? && Spans(out.bounds.value, p.geometry.value, p.width, p.height)
    ensures out != EMPTY_GRID ==> exists masks ::
      && NamedMasks(masks, p)
      && ChainsOf(masks, out.chains)
      && (out.size.Some? <==> forall lab :: lab in masks ==> InBand(lab))
    ensures out.size.Some? ==> p.Payload? && out.size.value == (p.width, p.height) && p.width > 0 && p.height > 0
    ensures out.size.Some? ==> Counts(out.rle) && p.width * p.height >= 0
    ensures out.size.Some? ==> AgreesWithRaster(out.chains, out.rle, p.width, p.height)
    ensures out.size.Some? ==> |Expand(out.rle)| == p.width * p.height && p.data.Cells?
    ensures out.size.Some? ==> |p.data.cells| >= p.width * p.height && forall i :: 0 <= i < p.width * p.height ==>
      ShippedAs(p.data.cells[i], Expand(out.rle)[i], RoomTable(p.rooms))
    ensures out.size.None? ==> out.rle == []
  {
    out := EMPTY_GRID;
    if p.NotAnObject? || p.width == 0 || p.height == 0 || !p.data.Cells? {
      return;
    }
    var w, h, cells := p.width, p.height, p.data.cells;
    if |cells| < w * h {
      return;
    }
    var gridToRoom := JsonRoomMap(p.rooms);
    var masks := CollectMasks(cells, w, h, JsonLabel(gridToRoom));
    NoMasks(p, masks, gridToRoom);
    LabelledAreNamed(masks, p);
    if masks == map[] || p.geometry.None? {
      return;
    }
    var g := p.geometry.value;
    out := out.(bounds := Some(BoundsOf(g, w, h)), resolution := Some(g.resolution));
    var chains := ChainsFromMasks(masks);
    SomeChain(masks, chains, cells, w, h, JsonLabel(gridToRoom));
    out := out.(chains := chains);
    var all := AllInBand(masks);
    if all {
      var rle := Raster(masks, cells, w, h, gridToRoom);
      out := out.(size := Some((w, h)), rle := rle);
    }
  }

  lemma NoMasks(p: Payload, masks: map<int, set<Pt>>, gridToRoom: map<int, int>)
    requires Readable(p) && LabelsGrid(masks, p.data.cells, p.width, p.height, JsonLabel(gridToRoom))
    ensures masks == map[] <==> !HasRoomCell(p)
  {
    if masks != map[] {
      var lab := Pick(masks.Keys);
      var c :| c in masks[lab];
      assert Holds(masks, lab, c);
    }
    if c :| In(c, p.width, p.height) && JSON_ROOM_MIN <= CellAt(p.data.cells, p.width, p.height, c) <= JSON_ROOM_MAX {
      assert Holds(masks, RoomOf(CellAt(p.data.cells, p.width, p.height, c), gridToRoom), c);
    }
  }

  lemma SomeChain(masks: map<int, set<Pt>>, chains: seq<Chain>, cells: seq<int>, w: int, h: int, rule: Labelling)
    requires w <= 0 || h <= 0 || w * h <= |cells|
    requires LabelsGrid(masks, cells, w, h, rule) && ChainsOf(masks, chains) && masks != map[]
    ensures chains != [] && w > 0 && h > 0 && w * h > 0
  {
    var lab := Pick(masks.Keys);
    var c :| c in masks[lab];
    assert Holds(masks, lab, c);
    IndexInGrid(c, w, h);
    var i :| 0 <= i < |chains| && chains[i].id == lab;
  }
}
