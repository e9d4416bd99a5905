/**
 The coordinator as an object. It hands out the cache's own dictionaries, so stamping a served
 payload also changes the cached entry; every method here does to the objects exactly what the
 state machine of MapProtocol does to their values.
 */
module MapCoordinator {
  import opened Options
  import opened MapStore
  import opened ActiveMap
  import opened MapProtocol
  import Upload = UploadThrottle

  /** A page takes a pose if it is active, and is left alone if not. */
  ghost predicate Takes(before: Fields, after: Fields, pose: Val) {
    after == if "active" in before && before["active"] == Flag(true) then before["vacuum" := pose] else before
  }

  /** The served result */
  class MapResult {
    var imagePng: Image
    const attributes: Dict
    const vector: Dict
    const mapId: MapId
    const hash: Hash
    const maps: seq<Dict>
    /** The ids and the values of the pages in `maps` */
    ghost const pageIds: seq<MapId>
    ghost var pages: map<MapId, Fields>

    constructor (imagePng0: Image, attributes0: Dict, vector0: Dict, mapId0: MapId, hash0: Hash, maps0: seq<Dict>,
                 ghost pageIds0: seq<MapId>, ghost pages0: map<MapId, Fields>)
      ensures imagePng == imagePng0 && attributes == attributes0 && vector == vector0
      ensures mapId == mapId0 && hash == hash0
      ensures maps == maps0 && pageIds == pageIds0 && pages == pages0
    {
      imagePng, attributes, vector, mapId, hash, maps := imagePng0, attributes0, vector0, mapId0, hash0, maps0;
      pageIds, pages := pageIds0, pages0;
    }

    ghost function Objects(): set<object> {
      {this, attributes, vector} + set d | d in maps
    }

    ghost predicate PageAt(i: nat)
      requires i < |maps| == |pageIds|
      reads `pages, maps[i]
    {
      maps[i].owner == PageOf(pageIds[i]) && pageIds[i] in pages && maps[i].m == pages[pageIds[i]]
    }

    ghost predicate Valid()
      reads Objects()
    {
      && vector.owner == VectorOf(mapId) && attributes.owner == AttributesOf(mapId)
      && |maps| == |pageIds|
      && (forall i :: 0 <= i < |maps| ==> PageAt(i))
      && (forall i, j :: 0 <= i < j < |pageIds| ==> pageIds[i] != pageIds[j])
      && (forall id :: id in pages ==> id in pageIds)
    }

    ghost predicate Owned() {
      |maps| == |pageIds|
      && (forall i :: 0 <= i < |maps| ==> maps[i].owner == PageOf(pageIds[i]))
      && (forall i, j :: 0 <= i < j < |pageIds| ==> pageIds[i] != pageIds[j])
    }

    /** Write a pose into every active page. */
    method StampActive(pose: Val, ghost before: map<MapId, Fields>)
      requires Owned() && forall j :: 0 <= j < |maps| ==> pageIds[j] in before && maps[j].m == before[pageIds[j]]
      modifies set d | d in maps
      ensures forall j :: 0 <= j < |maps| ==> maps[j].m == StampPages(before, pose)[pageIds[j]]
      ensures forall j :: 0 <= j < |maps| ==> Takes(old(maps[j].m), maps[j].m, pose)
    {
      for i := 0 to |maps|
        invariant forall j :: 0 <= j < i ==> maps[j].m == StampPages(before, pose)[pageIds[j]]
        invariant forall j :: i <= j < |maps| ==> maps[j].m == before[pageIds[j]]
      {
        if IsActivePage(maps[i].m) {
          maps[i].m := maps[i].m["vacuum" := pose];
        }
      }
    }

    lemma ValidParts()
      requires Valid()
      ensures Owned() && forall j :: 0 <= j < |maps| ==> pageIds[j] in pages && maps[j].m == pages[pageIds[j]]
    {
      forall j | 0 <= j < |maps|
        ensures maps[j].owner == PageOf(pageIds[j]) && pageIds[j] in pages && maps[j].m == pages[pageIds[j]]
      {
        assert PageAt(j);
      }
    }

    lemma ValidFromParts()
      requires Owned() && vector.owner == VectorOf(mapId) && attributes.owner == AttributesOf(mapId)
      requires forall i :: 0 <= i < |maps| ==> PageAt(i)
      requires forall id :: id in pages ==> id in pageIds
      ensures Valid()
    {
    }

    /** Write a pose into the vector and into every active page. */
    method StampPayload(pose: Val)
      requires Valid()
      modifies vector, `pages, set d | d in maps
      ensures Valid() && vector.m == StampFields(old(vector.m), pose) && pages == StampPages(old(pages), pose)
      ensures forall j :: 0 <= j < |maps| ==> Takes(old(maps[j].m), maps[j].m, pose)
    {
      ValidParts();
      vector.m := vector.m["vacuum" := pose];
      ghost var before := pages;
      StampActive(pose, before);
      pages := StampPages(before, pose);
      assert forall i :: 0 <= i < |maps| ==> PageAt(i);
    }

    /** Put in an image and a position attribute. */
    method PutRender(png: Image, vacuumPosition: Val)
      requires Valid()
      modifies attributes, `imagePng
      ensures Valid() && imagePng == png && attributes.m == old(attributes.m)["vacuum_position" := vacuumPosition]
      ensures vector.m == old(vector.m) && forall d <- maps :: d.m == old(d.m)
    {
      ValidParts();
      imagePng := png;
      attributes.m := attributes.m["vacuum_position" := vacuumPosition];
      assert forall i :: 0 <= i < |maps| ==> PageAt(i);
      ValidFromParts();
    }
  }

  /** Every page of the payload takes a pose, since the earlier state, if it is active. */
  twostate predicate PagesTake(r: MapResult, pose: Val)
    reads set d | d in r.maps
  {
    forall j :: 0 <= j < |r.maps| ==> Takes(old(r.maps[j].m), r.maps[j].m, pose)
  }

  /** The payload's vector, and so its active page and no other, has the vacuum at this position. */
  twostate predicate PositionTaken(r: MapResult, pos: Pos, units: real)
    reads r.vector, set d | d in r.maps
  {
    var v := Get(r.vector.m, "vacuum");
    v.Some? && IsAt(v.value, pos, units) && PagesTake(r, v.value)
  }

  /** r holds the dictionaries of its cache entry, or shares nothing with the cache. */
  ghost predicate Tied(r: MapResult, cache: MapCache, linked: bool)
    reads cache`maps
  {
    && (linked ==> r.mapId in cache.maps)
    && (r.mapId in cache.maps ==>
         && (linked <==> cache.maps[r.mapId].vector == r.vector)
         && (linked <==> cache.maps[r.mapId].attributes == r.attributes))
  }

  /** The entry of the payload's map, when the payload is linked to it, with some fields replaced */
  ghost function Through(view: Entries, k: MapId, linked: bool, attributes: Fields, vector: Fields): Entries
    requires linked ==> k in view
  {
    if linked then view[k := view[k].(attributes := attributes, vector := vector)] else view
  }

  lemma OtherEntriesApart(r: MapResult, cache: MapCache, linked: bool)
    requires cache.Valid() && r.Valid() && Tied(r, cache, linked)
    ensures forall j :: j in cache.maps && !(linked && j == r.mapId) ==>
      && cache.maps[j].vector != r.vector && cache.maps[j].attributes != r.vector
      && cache.maps[j].vector != r.attributes && cache.maps[j].attributes != r.attributes
    ensures forall j :: j in cache.maps ==> cache.maps[j].vector !in r.maps && cache.maps[j].attributes !in r.maps
    ensures r.vector !in r.maps && r.attributes !in r.maps && r.vector != r.attributes
  {
    r.ValidParts();
    forall d | d in r.maps ensures d.owner.PageOf? {
      var i :| 0 <= i < |r.maps| && r.maps[i] == d;
    }
    forall j | j in cache.maps ensures Fits(j, cache.maps[j], cache.view[j]) {
    }
  }

  /** Stamp a payload; the cache entry it is linked to follows. */
  method StampResult(r: MapResult, cache: MapCache, ghost linked: bool, pose: Val)
    requires cache.Valid() && r.Valid() && Tied(r, cache, linked)
    modifies r.vector, r`pages, set d | d in r.maps
    modifies cache`view
    ensures cache.Valid() && r.Valid() && Tied(r, cache, linked)
    ensures r.vector.m == StampFields(old(r.vector.m), pose) && r.pages == StampPages(old(r.pages), pose)
    ensures cache.view == Through(old(cache.view), r.mapId, linked, r.attributes.m, r.vector.m)
    ensures r.attributes.m == old(r.attributes.m)
    ensures PagesTake(r, pose)
  {
    OtherEntriesApart(r, cache, linked);
    r.StampPayload(pose);
    if linked {
      cache.Resee(r.mapId, cache.view[r.mapId].(vector := r.vector.m));
    }
  }

  /** Put a rendered frame's image and position attribute into a payload; the linked cache entry follows. */
  method PutFrame(r: MapResult, cache: MapCache, ghost linked: bool, png: Image, vacuumPosition: Val)
    requires cache.Valid() && r.Valid() && Tied(r, cache, linked)
    modifies r.attributes, r`imagePng, cache`view
    ensures cache.Valid() && r.Valid() && Tied(r, cache, linked)
    ensures r.imagePng == png && r.attributes.m == old(r.attributes.m)["vacuum_position" := vacuumPosition]
    ensures cache.view == Through(old(cache.view), r.mapId, linked, r.attributes.m, r.vector.m)
    ensures r.vector.m == old(r.vector.m) && r.pages == old(r.pages)
  {
    OtherEntriesApart(r, cache, linked);
    r.PutRender(png, vacuumPosition);
    if linked {
      cache.Resee(r.mapId, cache.view[r.mapId].(attributes := r.attributes.m));
    }
  }

  /** One fresh page per cached map. */
  method BuildPages(cache: MapCache, active: MapId, metas: seq<Meta>) returns (maps: seq<Dict>, ghost ids: seq<MapId>)
    requires cache.Valid()
    ensures |maps| == |ids| && (forall d <- maps :: fresh(d))
    ensures forall k :: k in ids <==> k in cache.maps
    ensures forall i, j :: 0 <= i < j < |ids| ==> ids[i] != ids[j]
    ensures var pages := Pages(cache.view, active, metas);
      forall i :: 0 <= i < |maps| ==> maps[i].owner == PageOf(ids[i]) && ids[i] in pages && maps[i].m == pages[ids[i]]
  {
    maps, ids := [], [];
    ghost var pages := Pages(cache.view, active, metas);
    var todo := cache.maps.Keys;
    while todo != {}
      invariant todo <= cache.maps.Keys
      invariant |maps| == |ids| && (forall d <- maps :: fresh(d))
      invariant forall k :: k in ids <==> k in cache.maps && k !in todo
      invariant forall i, j :: 0 <= i < j < |ids| ==> ids[i] != ids[j]
      invariant forall i :: 0 <= i < |maps| ==>
                  maps[i].owner == PageOf(ids[i]) && ids[i] in pages && maps[i].m == pages[ids[i]]
    {
      var k :| k in todo;
      todo := todo - {k};
      assert Fits(k, cache.maps[k], cache.view[k]);
      var page := new Dict(Page(k, cache.maps[k].vector.m, active, NameOf(metas, k)), PageOf(k));
      maps, ids := maps + [page], ids + [k];
    }
  }

  /** The result shares the active entry's dictionaries. */
  method BuildResult(cache: MapCache, active: MapId, metas: seq<Meta>) returns (r: MapResult)
    requires cache.Valid() && active in cache.maps
    ensures fresh(r) && r.Valid() && Tied(r, cache, true) && forall d <- r.maps :: fresh(d)
    ensures r.vector == cache.maps[active].vector && r.attributes == cache.maps[active].attributes
    ensures r.mapId == active && r.imagePng == cache.view[active].png && r.hash == cache.view[active].hash
    ensures r.pages == Pages(cache.view, active, metas)
  {
    var entry := cache.maps[active];
    assert Fits(active, entry, cache.view[active]);
    var maps, ids := BuildPages(cache, active, metas);
    ghost var pages := Pages(cache.view, active, metas);
    r := new MapResult(entry.png, entry.attributes, entry.vector, active, entry.hash, maps, ids, pages);
    assert forall i :: 0 <= i < |r.maps| ==> r.PageAt(i);
    r.ValidFromParts();
  }

  /** The payload, if there is one, is in order and tied to the cache. */
  ghost predicate PayloadValid(r: MapResult?, cache: MapCache, linked: bool)
    reads cache`maps, if r == null then {} else r.Objects()
  {
    r != null ==> r.Valid() && Tied(r, cache, linked)
  }

  /** Upsert a render, in dictionaries of its own. */
  method InsertRender(cache: MapCache, id: MapId, live: Decode, now: real) returns (written: bool)
    requires cache.Valid()
    modifies cache`maps, cache`view, cache`dicts, cache`file
    ensures written == !HasHash(old(cache.view), id, live.hash)
    ensures cache.Valid() && cache.view == Upserted(old(cache.view), EntryFor(id, live, now))
    ensures (forall d <- cache.dicts :: d in old(cache.dicts) || fresh(d))
    ensures !written ==> cache.dicts == old(cache.dicts)
    ensures HasHash(old(cache.view), id, live.hash) ==> cache.maps == old(cache.maps)
    ensures !HasHash(old(cache.view), id, live.hash) ==>
      && id in cache.maps && cache.maps == old(cache.maps)[id := cache.maps[id]]
      && fresh(cache.maps[id].vector) && fresh(cache.maps[id].attributes)
  {
    var attributes := new Dict(live.attributes, AttributesOf(id));
    var vector := new Dict(live.vector, VectorOf(id));
    written := cache.AsyncUpsert(id, live.png, attributes, vector, live.hash, now);
  }

  /**
   File a render under an id: fresh dictionaries, unless its hash is already cached. A payload of
   that id then loses its link.
   */
  method FileRender(cache: MapCache, id: MapId, live: Decode, now: real, ghost r: MapResult?, ghost linked: bool)
    returns (written: bool)
    requires cache.Valid() && PayloadValid(r, cache, linked)
    modifies cache`maps, cache`view, cache`dicts, cache`file
    ensures cache.Valid() && cache.view == Upserted(old(cache.view), EntryFor(id, live, now))
    ensures PayloadValid(r, cache, linked && (r != null && r.mapId == id ==> HasHash(old(cache.view), id, live.hash)))
    ensures (forall d <- cache.dicts :: d in old(cache.dicts) || fresh(d))
    ensures !written ==> cache.dicts == old(cache.dicts)
    ensures written == !HasHash(old(cache.view), id, live.hash)
  {
    written := InsertRender(cache, id, live, now);
    assert r != null ==> r.Valid();
  }

  /** Drop unlisted maps. A payload of a dropped map loses its link. */
  method DropUnlisted(cache: MapCache, keep: set<MapId>, ghost r: MapResult?, ghost linked: bool)
    returns (dropped: bool)
    requires cache.Valid() && PayloadValid(r, cache, linked)
    modifies cache`maps, cache`view, cache`file
    ensures cache.Valid() && cache.view == Pruned(old(cache.view), keep)
    ensures PayloadValid(r, cache, linked && (r != null ==> r.mapId in cache.view))
    ensures dropped <==> cache.view.Keys != old(cache.view).Keys
  {
    dropped := cache.AsyncPrune(keep);
  }

  class Coordinator {
    const hasMapList: bool
    const units: real
    const cache: MapCache
    const uploads: Upload.UploadRequester
    var fetcher: bool
    var slot0ServedIds: set<MapId>
    var livePosition: Option<Pos>
    var mqttActiveId: Option<MapId>
    var mapListMeta: seq<Meta>
    var lastLiveAt: Option<real>
    var data: MapResult?
    /** The cache has been read from its file. */
    var cacheReady: bool
    /** Where the running cycle waits, with what it will go on with */
    var pending: Phase
    /** The payload still holds the dictionaries of its cache entry. */
    ghost var linked: bool
    /** The fields by value */
    ghost var core: Core
    /** What the cache file will yield */
    ghost const stored: Option<Entries>

    ghost function PayloadObjects(): set<object>
      reads `data
    {
      if data == null then {} else data.Objects()
    }

    /** The objects are in order. */
    ghost predicate HeapValid()
      reads `data, `linked, cache`maps, cache`view, cache`dicts, cache.dicts, PayloadObjects()
    {
      units != 0.0 && cache.Valid() && PayloadValid(data, cache, linked)
    }

    ghost predicate Valid()
      reads this, cache`maps, cache`view, cache`dicts, cache.dicts, PayloadObjects()
    {
      HeapValid() && core == Fields()
    }

    /** Until the cache is read, its file is as it was. */
    ghost predicate FileKnown()
      reads `cacheReady, cache`file
    {
      !cacheReady ==> Load(cache.file) == stored
    }

    ghost function Shown(): Option<Served>
      reads `data, `linked, PayloadObjects()
    {
      if data == null then None
      else Some(Served(data.mapId, data.imagePng, data.attributes.m, data.vector.m, data.hash, data.pages, linked))
    }

    ghost function Fields(): Core
      reads this, cache`view, PayloadObjects()
    {
      Core(hasMapList, units, stored, cacheReady, fetcher, cache.view, slot0ServedIds, livePosition, mqttActiveId,
           mapListMeta, lastLiveAt, Shown())
    }

    /** The state by value, with where the running cycle waits */
    ghost function Now(): State
      reads `core, `pending
    {
      State(core, pending)
    }

    /** A coordinator over a cache file it has not read yet */
    constructor (hasMapList0: bool, units0: real, file: File)
      requires units0 != 0.0
      ensures Valid() && FileKnown() && Start(Now()) && stored == Load(file)
      ensures hasMapList == hasMapList0 && units == units0
      ensures uploads.Abs() == Upload.START && Upload.Inv(uploads.Abs())
    {
      hasMapList, units, stored := hasMapList0, units0, Load(file);
      fetcher, slot0ServedIds, livePosition, mqttActiveId, mapListMeta := false, {}, None, None, [];
      lastLiveAt, data := None, null;
      pending, linked, cacheReady := Resting(None), false, false;
      cache := new MapCache(file);
      uploads := new Upload.UploadRequester();
      new;
      core := Fields();
      LoadIsKeyed(file);
    }

    /** Catch up with the fields. */
    ghost method Note()
      requires HeapValid()
      modifies `core
      ensures Valid() && core == old(Fields())
    {
      core := Fields();
    }

    /** Write the latest signalled position into the payload, and so into the cache entry that shares its vector. */
    method StampLiveVacuum()
      requires Valid()
      modifies `core, cache`view, PayloadObjects()
      ensures data != null && fetcher && livePosition.Some? ==> PositionTaken(data, livePosition.value, units)
      ensures data == null || !fetcher || livePosition.None? ==> core == old(core)
      ensures Valid() && core == Stamp(old(core))
    {
      if !fetcher || livePosition.None? || data == null {
        return;
      }
      StampPose(PoseOf(livePosition.value, units));
      PoseIsAt(PoseOf(livePosition.value, units), livePosition.value, units);
    }

    method StampPose(pose: Val)
      requires Valid() && fetcher && livePosition.Some? && data != null && pose == PoseOf(livePosition.value, units)
      modifies `core, cache`view, PayloadObjects()
      ensures Get(data.vector.m, "vacuum") == Some(pose) && PagesTake(data, pose)
      ensures Valid() && core == Stamp(old(core))
    {
      StampResult(data, cache, linked, pose);
      Note();
    }

    /** While linked, the cache entry has the payload's fields. */
    lemma LinkedFields()
      requires Valid() && data != null
      ensures linked ==>
        && data.mapId in cache.view
        && cache.view[data.mapId].attributes == data.attributes.m && cache.view[data.mapId].vector == data.vector.m
    {
      assert linked ==> Fits(data.mapId, cache.maps[data.mapId], cache.view[data.mapId]);
    }

    method PutIn(png: Image, vacuumPosition: Val)
      requires HeapValid() && data != null
      modifies cache`view, PayloadObjects()
      ensures var attributes := PositionIn(old(data.attributes.m), vacuumPosition);
        && HeapValid()
        && cache.view == Through(old(cache.view), data.mapId, linked, attributes, old(data.vector.m))
        && Shown() == Some(old(Shown()).value.(png := png, attributes := attributes))
    {
      PutFrame(data, cache, linked, png, vacuumPosition);
    }

    lemma PutThrough(c: Core, png: Image, vacuumPosition: Val)
      requires c.data.Some? && (c.data.value.linked ==>
                 && c.data.value.mapId in c.cache && c.cache[c.data.value.mapId].attributes == c.data.value.attributes
                 && c.cache[c.data.value.mapId].vector == c.data.value.vector)
      ensures var d := c.data.value;
        Put(c, png, vacuumPosition) ==
        c.(cache := Through(c.cache, d.mapId, d.linked, PositionIn(d.attributes, vacuumPosition), d.vector),
           data := Some(d.(png := png, attributes := PositionIn(d.attributes, vacuumPosition))))
    {
    }

    /** Put a rendered frame into the payload. */
    method PutLive(png: Image, vacuumPosition: Val)
      requires Valid()
      modifies `core, cache`view, PayloadObjects()
      ensures Valid() && core == Put(old(core), png, vacuumPosition)
      ensures data == old(data)
    {
      if data != null {
        LinkedFields();
        PutThrough(core, png, vacuumPosition);
        PutIn(png, vacuumPosition);
        Note();
      }
    }

    /** A rendered live frame arrives: image, position attribute, stamp. */
    method PushLive(png: Image, vacuumPosition: Val)
      requires Valid()
      modifies `core, cache`view, PayloadObjects()
      ensures Valid() && core == Push(old(core), png, vacuumPosition)
    {
      PutLive(png, vacuumPosition);
      StampLiveVacuum();
    }

    method SetPosition(pos: Option<Pos>)
      requires Valid()
      modifies `core, `livePosition
      ensures Valid() && core == old(core).(livePos := pos)
    {
      livePosition := pos;
      Note();
    }

    method SetActiveId(id: Option<MapId>)
      requires Valid()
      modifies `core, `mqttActiveId
      ensures Valid() && core == old(core).(mqttId := id)
    {
      mqttActiveId := id;
      Note();
    }

    /** A live frame has been decoded: its position is pending. */
    method OnFrame(pos: Pos)
      requires Valid() && Steady(Now())
      modifies `core, `livePosition
      ensures Valid() && Now() == Next(old(Now()), FrameEvent(pos))
    {
      SetPosition(Some(pos));
    }

    /** A signalled map id, none if its value does not convert; a refresh with an upload is asked for either way. */
    method OnSignal(id: Option<MapId>) returns (refreshWithUpload: bool)
      requires Valid() && Steady(Now())
      modifies `core, `mqttActiveId
      ensures Valid() && Now() == Next(old(Now()), SignalEvent(id)) && refreshWithUpload
    {
      if id.Some? {
        SetActiveId(id);
      }
      return true;
    }

    method Store(id: MapId, live: Decode, now: real) returns (written: bool)
      requires HeapValid()
      modifies `linked, cache`maps, cache`view, cache`dicts, cache`file
      ensures HeapValid() && cache.view == Upserted(old(cache.view), EntryFor(id, live, now))
      ensures Shown() == SetLink(old(Shown()), ShowsMap(old(Shown()), id) ==> HasHash(old(cache.view), id, live.hash))
      ensures (forall d <- cache.dicts :: d in old(cache.dicts) || fresh(d))
      ensures !written ==> cache.dicts == old(cache.dicts)
      ensures written == !HasHash(old(cache.view), id, live.hash)
    {
      ghost var was := linked;
      linked := linked && (data != null && data.mapId == id ==> HasHash(cache.view, id, live.hash));
      written := FileRender(cache, id, live, now, data, was);
    }

    /** File a render under an id. */
    method Refile(id: MapId, live: Decode, now: real) returns (written: bool)
      requires Valid()
      modifies `core, `linked, cache`maps, cache`view, cache`dicts, cache`file
      ensures Valid() && core == Relink(old(core), Upserted(old(core).cache, EntryFor(id, live, now)),
                                        ShowsMap(old(core).data, id) ==> HasHash(old(core).cache, id, live.hash))
      ensures (forall d <- cache.dicts :: d in old(cache.dicts) || fresh(d))
      ensures !written ==> cache.dicts == old(cache.dicts)
      ensures written == !HasHash(old(core).cache, id, live.hash)
    {
      written := Store(id, live, now);
      Note();
    }

    method NoteLive(now: real)
      requires Valid()
      modifies `core, `lastLiveAt
      ensures Valid() && core == old(core).(lastLiveAt := Some(now))
    {
      lastLiveAt := Some(now);
      Note();
    }

    /** File this cycle's render, if there is one and an id to file it under. */
    method FileLiveRender(active: Option<MapId>, live: Option<Decode>, now: real) returns (written: bool)
      requires Valid()
      modifies `core, `lastLiveAt, `linked, cache`maps, cache`view, cache`dicts, cache`file
      ensures Valid() && core == FileLive(old(core), active, live, now)
      ensures (forall d <- cache.dicts :: d in old(cache.dicts) || fresh(d))
      ensures !written ==> cache.dicts == old(cache.dicts)
      ensures written == Writes(old(core), live, active)
    {
      if live.None? || active.None? {
        return false;
      }
      NoteLive(now);
      written := Refile(active.value, live.value, now);
    }

    method Drop(keep: set<MapId>) returns (dropped: bool)
      requires HeapValid()
      modifies `linked, cache`maps, cache`view, cache`file
      ensures HeapValid() && cache.view == Pruned(old(cache.view), keep)
      ensures linked == (old(linked) && (data != null ==> data.mapId in cache.view))
      ensures dropped <==> cache.view.Keys != old(cache.view).Keys
    {
      ghost var was := linked;
      linked := linked && (data != null ==> data.mapId in Pruned(cache.view, keep));
      dropped := DropUnlisted(cache, keep, data, was);
    }

    /** Drop every cached map but these. */
    method Unlist(keep: set<MapId>) returns (dropped: bool)
      requires Valid()
      modifies `core, `linked, cache`maps, cache`view, cache`file
      ensures Valid() && core == Prune(old(core), keep)
      ensures dropped <==> core.cache.Keys != old(core).cache.Keys
    {
      dropped := Drop(keep);
      Note();
    }

    /** Drop what the device no longer lists; never on an empty list, unless there is only one map. */
    method PruneCache(metas: seq<Meta>, active: Option<MapId>) returns (dropped: bool)
      requires Valid() && IdsParse(metas)
      modifies `core, `linked, cache`maps, cache`view, cache`file
      ensures Valid() && core == PruneMaps(old(core), metas, active)
      ensures dropped <==> core.cache.Keys != old(core).cache.Keys
    {
      dropped := false;
      if metas != [] {
        var keep := ListedIds(metas);
        if keep != {} {
          dropped := Unlist(keep);
        }
      } else if !hasMapList && active.Some? {
        dropped := Unlist({active.value});
      }
    }

    /** Serve the active map from the cache; false when nothing was ever cached for it. */
    method ServeMap(active: Option<MapId>, metas: seq<Meta>) returns (served: bool)
      requires Valid()
      modifies `core, `data, `linked, cache`view, cache.dicts
      ensures Valid() && (served <==> active.Some? && active.value in old(cache.view))
      ensures core == if served then Stamp(Present(old(core), active.value, metas)) else old(core)
    {
      if active.None? || active.value !in cache.maps {
        return false;
      }
      Adopt(active.value, metas);
      StampLiveVacuum();
      return true;
    }

    method Adopt(active: MapId, metas: seq<Meta>)
      requires Valid() && active in cache.maps
      modifies `core, `data, `linked
      ensures Valid() && core == Present(old(core), active, metas)
      ensures data != null && fresh(data) && (forall d <- data.maps :: fresh(d))
      ensures data.vector in cache.dicts && data.attributes in cache.dicts
    {
      assert Fits(active, cache.maps[active], cache.view[active]);
      data := BuildResult(cache, active, metas);
      linked := true;
      Note();
    }

    /** Try every slot, excusing a missing url unless all are missing. */
    method TrySlots(tries: seq<SlotOutcome>) returns (r: Fetched)
      requires |tries| == 2
      ensures r == FetchSlots(tries[0], tries[1])
    {
      var results: seq<Option<Decode>> := [];
      var anyResolved := false;
      for k := 0 to 2
        invariant |results| == k
        invariant forall j :: 0 <= j < k ==>
                    !tries[j].Unreachable? && !tries[j].Crashed? && results[j] == Result(tries[j])
        invariant anyResolved <==> exists j :: 0 <= j < k && !tries[j].NoUrl?
      {
        match tries[k]
        case Rendered(d) =>
          results := results + [Some(d)];
          anyResolved := true;
        case Undecodable =>
          results := results + [None];
          anyResolved := true;
        case NoUrl =>
          results := results + [None];
        case Unreachable =>
          return CloudDown;
        case Crashed =>
          return FetchCrash;
      }
      if !anyResolved {
        return AllExpired;
      }
      return Slots(results[0], results[1]);
    }

    /** Fetch both slots, renewing an expired session once. */
    method Fetch(i: CycleIn) returns (r: Attempt)
      ensures r == FetchWithRenewal(i)
    {
      var got := TrySlots([i.tries.0, i.tries.1]);
      if got.AllExpired? {
        match i.renewal
        case NotRenewed => return Gone(AuthFailed, true);
        case RenewUnreachable => return Gone(UpdateFailed, true);
        case RenewCrashed => return Gone(UpdateFailed, false);
        case Renewed =>
          got := TrySlots([i.retries.0, i.retries.1]);
          if got.AllExpired? {
            return Gone(UpdateFailed, true);
          }
      }
      match got
      case Slots(a, b) => return Got(a, b);
      case CloudDown => return Gone(UpdateFailed, true);
      case FetchCrash => return Gone(UpdateFailed, false);
    }

    /** Note which maps were served from slot 0 this clean, and pick the render to file. */
    method PickLive(i: CycleIn, a: Option<Decode>, b: Option<Decode>, active: Option<MapId>)
      returns (live: Option<Decode>)
      requires Valid()
      modifies `core, `slot0ServedIds
      ensures Valid() && live == Live(old(core), i, a, b, active)
      ensures core == old(core).(slot0 := NextSlot0(old(core), i, a, active))
    {
      live := if a.Some? then a else b;
      if IsReady(i.status) {
        MarkSlot0({});
      } else if a.Some? {
        if active.Some? {
          MarkSlot0(slot0ServedIds + {active.value});
        }
      } else if active.Some? && active.value in slot0ServedIds {
        live := None;
      }
    }

    method MarkSlot0(ids: set<MapId>)
      requires Valid()
      modifies `core, `slot0ServedIds
      ensures Valid() && core == old(core).(slot0 := ids)
    {
      slot0ServedIds := ids;
      Note();
    }

    method SetFetcher(there: bool)
      requires Valid()
      modifies `core, `fetcher
      ensures Valid() && core == old(core).(fetcher := there)
    {
      fetcher := there;
      Note();
    }

    method DeliverMap(active: Option<MapId>, metas: seq<Meta>) returns (outcome: Outcome)
      requires Valid()
      modifies `core, `fetcher, `data, `linked, cache`view, cache.dicts
      ensures Valid() && (core, outcome) == Deliver(old(core), metas, active)
    {
      var served := ServeMap(active, metas);
      if !served {
        SetFetcher(false);
        return UpdateFailed;
      }
      return Ok;
    }

    /** Where the cycle waits now */
    method Wait(phase: Phase)
      requires Valid()
      modifies `pending
      ensures Valid() && core == old(core) && pending == phase
    {
      pending := phase;
    }

    /** The cycle fails, and the fetcher goes. */
    method FailCycle()
      requires Valid()
      modifies `core, `fetcher, `pending
      ensures Valid() && core == old(core).(fetcher := false) && pending == Resting(Some(UpdateFailed))
    {
      SetFetcher(false);
      Wait(Resting(Some(UpdateFailed)));
    }

    /** The last part of a cycle */
    method ServeCycle(i: CycleIn, active: Option<MapId>)
      requires Valid() && Ready(core)
      modifies `core, `fetcher, `data, `linked, `pending, cache`view, cache.dicts
      ensures Valid() && Now() == Serve(old(core), i, active)
    {
      var outcome := DeliverMap(active, i.metas);
      Wait(Resting(Some(outcome)));
    }

    /** Discard the position if a render was filed: it is newer than any position signalled before it. */
    method DiscardPosition(filed: bool)
      requires Valid()
      modifies `core, `livePosition
      ensures Valid() && core == Discarded(old(core), filed)
    {
      if filed {
        SetPosition(None);
      }
    }

    /** Prune, and serve unless the file is being written. */
    method PruneCycle(i: CycleIn, active: Option<MapId>)
      requires Valid() && Ready(core) && core.loaded && IdsParse(i.metas)
      modifies this, cache`maps, cache`view, cache`file, cache.dicts
      ensures Valid() && Now() == Settle(old(core), i, active, false)
    {
      PruneThenServe(core, i, active);
      var dropped := PruneCache(i.metas, active);
      if dropped {
        Wait(Pruning(i, active));
      } else {
        ServeCycle(i, active);
      }
    }

    /** The part of a cycle that discards the position if a render was filed, and prunes */
    method SettleCycle(i: CycleIn, active: Option<MapId>, filed: bool)
      requires Valid() && Ready(core) && core.loaded
      modifies this, cache`maps, cache`view, cache`file, cache.dicts
      ensures Valid() && Now() == Settle(old(core), i, active, filed)
      ensures cache.dicts == old(cache.dicts)
    {
      ghost var c := core;
      DiscardPosition(filed);
      DiscardFirst(c, i, active, filed);
      ghost var settled := Settle(c, i, active, filed);
      if !IdsParse(i.metas) {
        FailCycle();
      } else {
        PruneCycle(i, active);
      }
      assert Now() == settled;
    }

    /** Put this cycle's render into the cache. Returns whether there was one, and whether the file is being written. */
    method FileCycle(i: CycleIn, a: Option<Decode>, b: Option<Decode>, active: Option<MapId>)
      returns (filed: bool, written: bool)
      requires Valid()
      modifies `core, `slot0ServedIds, `lastLiveAt, `linked, cache`maps, cache`view, cache`dicts, cache`file
      ensures Valid() && core == Filed(old(core), i, a, b, active)
      ensures var live := Live(old(core), i, a, b, active);
        filed == (live.Some? && active.Some?) && written == Writes(old(core), live, active)
      ensures (forall d <- cache.dicts :: d in old(cache.dicts) || fresh(d))
      ensures !written ==> cache.dicts == old(cache.dicts)
    {
      ghost var c := core;
      var live := PickLive(i, a, b, active);
      ghost var picked := core;
      assert picked == c.(slot0 := NextSlot0(c, i, a, active));
      filed := live.Some? && active.Some?;
      written := FileLiveRender(active, live, i.now);
    }

    /** The render goes into the cache, and the cycle waits if that writes the file. */
    method FileAndWait(i: CycleIn, a: Option<Decode>, b: Option<Decode>, active: Option<MapId>)
      returns (filed: bool, written: bool)
      requires Valid()
      modifies `core, `slot0ServedIds, `lastLiveAt, `linked, `pending, cache`maps, cache`view, cache`dicts, cache`file
      ensures Valid() && core == Filed(old(core), i, a, b, active)
      ensures var live := Live(old(core), i, a, b, active);
        filed == (live.Some? && active.Some?) && written == Writes(old(core), live, active)
      ensures pending == if written then Saving(i, active.value) else old(pending)
      ensures (forall d <- cache.dicts :: d in old(cache.dicts) || fresh(d))
      ensures !written ==> cache.dicts == old(cache.dicts)
    {
      filed, written := FileCycle(i, a, b, active);
      if written {
        Wait(Saving(i, active.value));
      }
    }

    /** The running cycle goes on to where it waits next. */
    method ResumeCycle()
      requires Valid() && Steady(Now())
      modifies this, cache, cache.dicts
      ensures Valid() && Now() == Resume(old(Now())) && Steady(Now())
      ensures (forall d <- cache.dicts :: d in old(cache.dicts) || fresh(d))
    {
      ResumeReady(Now());
      match pending
      case Resting(_) =>
      case Fetching(i) => TakeFetched(i);
      case Saving(i, id) => SettleCycle(i, Some(id), true);
      case Pruning(i, active) => ServeCycle(i, active);
    }

    method TakeFetched(i: CycleIn)
      requires Valid() && Steady(Now()) && pending == Fetching(i)
      modifies this, cache, cache.dicts
      ensures Valid() && Now() == Resume(old(Now()))
      ensures (forall d <- cache.dicts :: d in old(cache.dicts) || fresh(d))
    {
      var got := Fetch(i);
      match got
      case Gone(failure, keep) =>
        SetFetcher(keep);
        Wait(Resting(Some(failure)));
      case Got(a, b) =>
        FileAndGoOn(i, a, b);
    }

    method FileAndGoOn(i: CycleIn, a: Option<Decode>, b: Option<Decode>)
      requires Valid() && Ready(core) && core.loaded
      modifies this, cache, cache.dicts
      ensures Valid() && Now() == FileFetched(old(core), i, a, b)
      ensures (forall d <- cache.dicts :: d in old(cache.dicts) || fresh(d))
    {
      var decoded := Decoded(a, b);
      var active := ResolveActiveId(decoded, i.metas, mqttActiveId, hasMapList).0;
      FiledReady(core, i, a, b, active);
      var filed, written := FileAndWait(i, a, b, active);
      if !written {
        SettleCycle(i, active, filed);
      }
    }

    /** Read the cache file, the first time; false when that raises. */
    method EnsureCache() returns (ok: bool)
      requires Valid() && FileKnown() && Ready(core)
      modifies `core, `cacheReady, cache
      ensures Valid() && FileKnown() && ok == (old(cacheReady) || stored.Some?)
      ensures (forall d <- cache.dicts :: d in old(cache.dicts) || fresh(d))
      ensures core == if old(cacheReady) || stored.None? then old(core)
                       else old(core).(loaded := true, cache := stored.value)
    {
      if cacheReady {
        return true;
      }
      ok := cache.AsyncLoad();
      cacheReady := ok;
      Note();
    }

    /** The fetcher is there; a list that was read replaces the one known. */
    method TakeMapList(metas: seq<Meta>)
      requires Valid()
      modifies `core, `fetcher, `mapListMeta
      ensures Valid() && core == old(core).(fetcher := true, mapList := if metas != [] then metas else old(mapListMeta))
    {
      fetcher := true;
      if metas != [] {
        mapListMeta := metas;
      }
      Note();
    }

    /** A cycle starts: the fetcher, the cache and the map list. */
    method StartCycle(i: CycleIn)
      requires Valid() && FileKnown() && Steady(Now()) && pending.Resting?
      modifies `core, `fetcher, `mapListMeta, `pending, `cacheReady, cache
      ensures Valid() && Now() == Begin(old(Now()), i) && (forall d <- cache.dicts :: d in old(cache.dicts) || fresh(d))
    {
      if !fetcher && i.build != Built {
        Wait(Resting(Some(UpdateFailed)));
        return;
      }
      ghost var c := core;
      var ok := EnsureCache();
      if !ok {
        FailCycle();
        return;
      }
      ghost var read := core;
      assert read == c.(loaded := true, cache := if c.loaded then c.cache else stored.value);
      TakeMapList(i.metas);
      Wait(Fetching(i));
    }

    /**
     Before a cycle: while the vacuum is active an upload is asked for, of the map known to be
     current; and the cycle takes the record of the last request with it.
     */
    method RequestBeforeCycle(active: bool, at: real, hasCloud: bool, cloudReply: bool, localReply: bool)
      returns (request: Option<Upload.UploadRequest>)
      requires Upload.Inv(uploads.Abs()) && at >= uploads.now
      modifies uploads
      ensures Upload.Inv(uploads.Abs()) && uploads.pendingUploadRequest.None?
      ensures var wish := Upload.Wish(Upload.KnownId(mqttActiveId, mapListMeta, ShownId()), at);
        var asked := active && Upload.LetThrough(old(uploads.Abs()), wish);
        && uploads.Abs() == (if active then Upload.Step(old(uploads.Abs()), wish) else old(uploads.Abs()))
        && request == if asked then Some(Upload.Outcome(hasCloud && cloudReply, localReply))
                      else old(uploads.pendingUploadRequest)
    {
      if active {
        var id := Upload.KnownActiveMapId(mqttActiveId, mapListMeta, ShownId());
        var ok := uploads.RequestMapUpload(id, at, hasCloud, cloudReply, localReply);
      }
      request := uploads.TakePending();
    }

    function ShownId(): Option<MapId>
      reads `data
    {
      if data == null then None else Some(data.mapId)
    }

    /** One fetch cycle with nothing in between. */
    method AsyncUpdateData(i: CycleIn)
      requires Valid() && FileKnown() && Steady(Now()) && pending.Resting?
      modifies this, cache, cache.dicts
      ensures Valid() && Now() == Cycle(old(Now()), i)
    {
      BeginReady(Now(), i);
      StartCycle(i);
      ResumeCycle();
      ResumeCycle();
      ResumeCycle();
    }
  }

  lemma PruneThenServe(c: Core, i: CycleIn, active: Option<MapId>)
    requires Ready(c) && IdsParse(i.metas)
    ensures var kept := PruneMaps(c, i.metas, active);
      && Ready(kept)
      && Settle(c, i, active, false)
         == if kept.cache.Keys != c.cache.Keys then State(kept, Pruning(i, active)) else Serve(kept, i, active)
  {
    PruneReady(c, i.metas, active);
  }

  lemma DiscardFirst(c: Core, i: CycleIn, active: Option<MapId>, filed: bool)
    requires Ready(c)
    ensures Settle(c, i, active, filed) == Settle(Discarded(c, filed), i, active, false)
    ensures !IdsParse(i.metas) ==>
      Settle(c, i, active, filed) == State(Discarded(c, filed).(fetcher := false), Resting(Some(UpdateFailed)))
  {
  }

  lemma LoadIsKeyed(file: File)
    ensures Load(file).Some? ==> KeyedById(Load(file).value)
  {
    if file.Saved? {
      LoadKeepsIds(file.maps);
    }
  }
}
