/**
 What is served, said by the cache, the map list and the position: the payload a cycle builds, and
 what a push makes of it.
 */
module ServedPages {
  import opened Options
  import opened MapStore
  import opened ActiveMap
  import opened MapProtocol
  import opened MapRuns

  // ---- names

  /** Entry i names the map, and no later one is for it. */
  ghost predicate LastNamed(metas: seq<Meta>, i: nat, id: MapId)
    requires i < |metas|
  {
    metas[i].id == Listed(id) && forall j :: i < j < |metas| ==> metas[j].id != Listed(id)
  }

  ghost predicate Named(metas: seq<Meta>, id: MapId, name: Val) {
    && (forall i :: 0 <= i < |metas| && LastNamed(metas, i, id) ==> name == Text(metas[i].name))
    && ((forall i :: 0 <= i < |metas| ==> metas[i].id != Listed(id)) ==> name == Null)
  }

  lemma {:induction false} NameIsLast(metas: seq<Meta>, id: MapId)
    ensures Named(metas, id, NameOf(metas, id))
  {
    if metas != [] {
      var front, n := metas[..|metas| - 1], |metas| - 1;
      NameIsLast(front, id);
      forall i | 0 <= i < |metas| && LastNamed(metas, i, id) ensures NameOf(metas, id) == Text(metas[i].name) {
        if i < n {
          NamedBefore(metas, i, id);
        }
      }
      if forall i :: 0 <= i < |metas| ==> metas[i].id != Listed(id) {
        forall i | 0 <= i < |front| ensures front[i].id != Listed(id) { assert front[i] == metas[i]; }
      }
    }
  }

  lemma NamedBefore(metas: seq<Meta>, i: nat, id: MapId)
    requires i + 1 < |metas| && LastNamed(metas, i, id)
    ensures LastNamed(metas[..|metas| - 1], i, id) && metas[|metas| - 1].id != Listed(id)
  {
    var front := metas[..|metas| - 1];
    forall j | i < j < |front| ensures front[j].id != Listed(id) { assert front[j] == metas[j]; }
  }

  // ---- pages

  /** What the live side writes, and a page of another map never shows */
  predicate LiveOnly(key: string) {
    key == "path" || key == "vacuum" || key == "goto" || key == "vacuum_room" || key == "vacuum_room_name"
  }

  predicate Tag(key: string) { key == "map_id" || key == "map_name" || key == "active" }

  /** A page of a map that is not the one shown: its static fields, and the tags */
  ghost predicate OtherPage(page: Fields, id: MapId, vector: Fields, metas: seq<Meta>) {
    && Get(page, "map_id") == Some(Num(id.n)) && Get(page, "active") == Some(Flag(false))
    && "map_name" in page && Named(metas, id, page["map_name"])
    && (forall key: string :: !Tag(key) && !LiveOnly(key) ==> Get(page, key) == Get(vector, key))
    && (forall key: string :: !Tag(key) && LiveOnly(key) ==> key !in page)
  }

  /** The page of the map shown: all its fields, and the tags */
  ghost predicate ShownPage(page: Fields, id: MapId, vector: Fields, metas: seq<Meta>) {
    && Get(page, "map_id") == Some(Num(id.n)) && Get(page, "active") == Some(Flag(true))
    && "map_name" in page && Named(metas, id, page["map_name"])
    && forall key: string :: !Tag(key) ==> Get(page, key) == Get(vector, key)
  }

  lemma PageOfOther(id: MapId, vector: Fields, active: MapId, metas: seq<Meta>)
    requires id != active
    ensures OtherPage(Page(id, vector, active, NameOf(metas, id)), id, vector, metas)
  {
    NameIsLast(metas, id);
    var page := Page(id, vector, active, NameOf(metas, id));
    forall key: string | !Tag(key) && !LiveOnly(key) ensures Get(page, key) == Get(vector, key) {
      assert key !in LIVE_ONLY_KEYS;
    }
    forall key: string | !Tag(key) && LiveOnly(key) ensures key !in page {
      assert key in LIVE_ONLY_KEYS;
    }
  }

  lemma PageOfShown(id: MapId, vector: Fields, metas: seq<Meta>)
    ensures ShownPage(Page(id, vector, id, NameOf(metas, id)), id, vector, metas)
  {
    NameIsLast(metas, id);
  }

  // ---- the payload of a cycle

  /** The vector with the pending position written in, if there is one */
  ghost predicate WithPosition(before: Fields, after: Fields, pos: Option<Pos>, units: real) {
    && (pos.None? ==> after == before)
    && (pos.Some? ==> "vacuum" in after && IsAt(after["vacuum"], pos.value, units))
    && forall key: string :: key != "vacuum" ==> Get(after, key) == Get(before, key)
  }

  lemma StampedFields(f: Fields, pos: Pos, units: real)
    requires units != 0.0
    ensures WithPosition(f, StampFields(f, PoseOf(pos, units)), Some(pos), units)
  {
    PoseIsAt(PoseOf(pos, units), pos, units);
  }

  /** The payload is the cached map k, with a page for each cached map, and the pending position in it. */
  ghost predicate Serves(c: Core, d: Served, k: MapId, metas: seq<Meta>)
    requires k in c.cache
  {
    && d.mapId == k && d.png == c.cache[k].png && d.hash == c.cache[k].hash
    && d.attributes == c.cache[k].attributes && d.linked
    && WithPosition(c.cache[k].vector, d.vector, c.livePos, c.units)
    && d.pages.Keys == c.cache.Keys
    && ShownPage(d.pages[k], k, d.vector, metas)
    && forall id :: id in c.cache && id != k ==> OtherPage(d.pages[id], id, c.cache[id].vector, metas)
  }

  /** A cycle that comes to serve: exactly a cached map is served, by the cache it found, and else the fetcher goes. */
  lemma ServeStep(c: Core, i: CycleIn, active: Option<MapId>)
    requires Sound(c) && c.fetcher
    ensures var t := Serve(c, i, active);
      && (t.phase == Resting(Some(Ok)) <==> active.Some? && active.value in c.cache)
      && (t.phase == Resting(Some(Ok)) ==> t.c.data.Some? && Serves(c, t.c.data.value, active.value, i.metas))
      && (t.phase != Resting(Some(Ok)) ==> t == State(c.(fetcher := false), Resting(Some(UpdateFailed))))
  {
    if active.Some? && active.value in c.cache {
      BuiltAndStamped(c, active.value, i.metas);
    }
  }

  lemma BuiltAndStamped(c: Core, k: MapId, metas: seq<Meta>)
    requires Sound(c) && c.fetcher && k in c.cache
    ensures var t := Stamp(Present(c, k, metas)); t.data.Some? && Serves(c, t.data.value, k, metas)
  {
    var vector := c.cache[k].vector;
    BuiltPages(c, k, metas);
    if c.livePos.Some? {
      var pose := PoseOf(c.livePos.value, c.units);
      StampedFields(vector, c.livePos.value, c.units);
      StampedShown(Pages(c.cache, k, metas)[k], k, vector, metas, pose);
      forall id | id in c.cache && id != k ensures StampPages(Pages(c.cache, k, metas), pose)[id]
                                                == Pages(c.cache, k, metas)[id] {
        assert OtherPage(Pages(c.cache, k, metas)[id], id, c.cache[id].vector, metas);
      }
    }
  }

  lemma BuiltPages(c: Core, k: MapId, metas: seq<Meta>)
    requires k in c.cache
    ensures var pages := Pages(c.cache, k, metas);
      && pages.Keys == c.cache.Keys && ShownPage(pages[k], k, c.cache[k].vector, metas)
      && forall id :: id in c.cache && id != k ==> OtherPage(pages[id], id, c.cache[id].vector, metas)
  {
    PageOfShown(k, c.cache[k].vector, metas);
    forall id | id in c.cache && id != k
      ensures OtherPage(Pages(c.cache, k, metas)[id], id, c.cache[id].vector, metas)
    {
      PageOfOther(id, c.cache[id].vector, k, metas);
    }
  }

  lemma StampedShown(page: Fields, k: MapId, vector: Fields, metas: seq<Meta>, pose: Val)
    requires ShownPage(page, k, vector, metas)
    ensures IsActivePage(page) && ShownPage(StampFields(page, pose), k, StampFields(vector, pose), metas)
  {
    var after := StampFields(page, pose);
    forall key: string | !Tag(key) ensures Get(after, key) == Get(StampFields(vector, pose), key) {
      assert Get(page, key) == Get(vector, key);
    }
  }

  /** The payload is the cached map it names, with a page for each cached map, and the pending position in it. */
  ghost predicate ServesCached(c: Core, metas: seq<Meta>) {
    c.data.Some? && c.data.value.mapId in c.cache &&
    var d, e := c.data.value, c.cache[c.data.value.mapId];
    && d.png == e.png && d.hash == e.hash && d.attributes == e.attributes && d.vector == e.vector && d.linked
    && (c.livePos.Some? ==> "vacuum" in d.vector && IsAt(d.vector["vacuum"], c.livePos.value, c.units))
    && d.pages.Keys == c.cache.Keys
    && ShownPage(d.pages[d.mapId], d.mapId, d.vector, metas)
    && forall id :: id in c.cache && id != d.mapId ==> OtherPage(d.pages[id], id, c.cache[id].vector, metas)
  }

  lemma ServesAsCached(c: Core, i: CycleIn, active: Option<MapId>)
    requires Sound(c) && c.fetcher && Serve(c, i, active).phase == Resting(Some(Ok))
    ensures ServesCached(Serve(c, i, active).c, i.metas)
  {
    BuiltAndStamped(c, active.value, i.metas);
  }

  lemma SettlesAsCached(c: Core, i: CycleIn, active: Option<MapId>, filed: bool)
    requires Sound(c) && c.fetcher && Settle(c, i, active, filed).phase == Resting(Some(Ok))
    ensures ServesCached(Settle(c, i, active, filed).c, i.metas)
  {
    var d := Discarded(c, filed);
    PruneMapsSound(d, i.metas, active);
    PruneKeepsRest(d, i.metas, active);
    ServesAsCached(PruneMaps(d, i.metas, active), i, active);
  }

  /** Whichever step ends a cycle well, what is then served is a cached map, as it is cached at that moment. */
  lemma EndsServingCached(s: State)
    requires SoundState(s) && !s.phase.Resting? && Next(s, ResumeEvent).phase == Resting(Some(Ok))
    ensures ServesCached(Next(s, ResumeEvent).c, s.phase.i.metas)
  {
    match s.phase
    case Fetching(i) =>
      var got := FetchWithRenewal(i);
      FiledSound(s.c, i, got.first, got.second, ActiveOf(s));
      SettlesAsCached(Filed(s.c, i, got.first, got.second, ActiveOf(s)), i, ActiveOf(s),
                      LiveOf(s).Some? && ActiveOf(s).Some?);
    case Saving(i, id) => SettlesAsCached(s.c, i, Some(id), true);
    case Pruning(i, active) => ServesAsCached(s.c, i, active);
  }

  // ---- pushes

  /** Stamping writes the pending position into the payload, if there is a fetcher, and nothing anywhere else. */
  lemma StampStep(c: Core)
    requires Sound(c)
    ensures (!c.fetcher || c.livePos.None? || c.data.None?) ==> Stamp(c) == c
    ensures c.fetcher && c.livePos.Some? && c.data.Some? ==>
      var d, d' := c.data.value, Stamp(c).data.value;
      && WithPosition(d.vector, d'.vector, c.livePos, c.units) && d'.pages.Keys == d.pages.Keys
      && WithPosition(d.pages[d.mapId], d'.pages[d.mapId], c.livePos, c.units)
      && (forall id :: id in d.pages && id != d.mapId ==> d'.pages[id] == d.pages[id])
      && d'.(vector := d.vector, pages := d.pages) == d
  {
    if c.fetcher && c.livePos.Some? && c.data.Some? {
      var d := c.data.value;
      StampedFields(d.vector, c.livePos.value, c.units);
      StampedFields(d.pages[d.mapId], c.livePos.value, c.units);
      forall id | id in d.pages ensures PageOk(d, id) { }
    }
  }

  ghost predicate Pushed(c: Core, c': Core, png: Image, vacuumPosition: Val)
    requires c.data.Some?
  {
    c'.data.Some? &&
    var d, d' := c.data.value, c'.data.value;
    && d'.mapId == d.mapId && d'.png == png && d'.hash == d.hash && d'.linked == d.linked
    && Get(d'.attributes, "vacuum_position") == Some(vacuumPosition)
    && (forall key: string :: key != "vacuum_position" ==> Get(d'.attributes, key) == Get(d.attributes, key))
    && WithPosition(d.vector, d'.vector, if c.fetcher then c.livePos else None, c.units)
    && c'.cache.Keys == c.cache.Keys
    && (d.linked && d.mapId in c.cache ==>
          c'.cache[d.mapId] == c.cache[d.mapId].(attributes := d'.attributes, vector := d'.vector))
    && forall k :: k in c.cache && !(d.linked && k == d.mapId) ==> c'.cache[k] == c.cache[k]
  }

  /**
   A rendered frame that is pushed replaces the image and the position attribute of the payload,
   and the attribute in the cache entry it shares, and stamps the pending position.
   */
  lemma PushStep(s: State, png: Image, vacuumPosition: Val)
    requires SoundState(s)
    ensures var t := Next(s, PushEvent(png, vacuumPosition));
      (s.c.data.None? ==> t == s) && (s.c.data.Some? ==> Pushed(s.c, t.c, png, vacuumPosition))
  {
    if s.c.data.Some? {
      var put := Put(s.c, png, vacuumPosition);
      PushSound(s.c, png, vacuumPosition);
      StampStep(put);
    }
  }
}
