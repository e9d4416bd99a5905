/** What holds of every run of the map coordinator, from any cache file, whatever comes between the parts of a cycle. */
module MapRuns {
  import opened Options
  import opened MapStore
  import opened ActiveMap
  import opened MapProtocol

  // ---- the served payload

  /** One page of the list of maps is as it should be. */
  ghost predicate PageOk(d: Served, id: MapId)
    requires id in d.pages
  {
    && (IsActivePage(d.pages[id]) <==> id == d.mapId)
    && Get(d.pages[id], "map_id") == Some(Num(id.n))
    && (id != d.mapId ==> forall key <- LIVE_ONLY_KEYS :: key !in d.pages[id])
    && (id == d.mapId ==> Get(d.pages[id], "vacuum") == Get(d.vector, "vacuum"))
  }

  /** Exactly the page of the served map is active, only it has live keys, and its position is the payload's. */
  ghost predicate PayloadOk(d: Served) {
    d.mapId in d.pages && forall id :: id in d.pages ==> PageOk(d, id)
  }

  /** While linked, the payload's dictionaries are the cache entry's. */
  ghost predicate LinkOk(c: Core, d: Served) {
    d.linked ==>
      && d.mapId in c.cache
      && c.cache[d.mapId].vector == d.vector && c.cache[d.mapId].attributes == d.attributes
  }

  ghost predicate Sound(c: Core) {
    Ready(c) && (c.data.Some? ==> PayloadOk(c.data.value) && LinkOk(c, c.data.value))
  }

  lemma StampSound(c: Core)
    requires Sound(c)
    ensures Sound(Stamp(c))
  {
    if c.fetcher && c.livePos.Some? && c.data.Some? {
      var pose, d := PoseOf(c.livePos.value, c.units), c.data.value;
      var d' := Stamp(c).data.value;
      forall id | id in d'.pages ensures PageOk(d', id) {
        assert PageOk(d, id);
        StampedPage(d.pages[id], pose);
      }
    }
  }

  lemma StampedPage(page: Fields, pose: Val)
    ensures IsActivePage(StampFields(page, pose)) == IsActivePage(page)
    ensures forall key :: key != "vacuum" ==> Get(StampFields(page, pose), key) == Get(page, key)
    ensures Get(StampFields(page, pose), "vacuum") == Some(pose)
  {
  }

  lemma PushSound(c: Core, png: Image, vp: Val)
    requires Sound(c)
    ensures Sound(Put(c, png, vp)) && Sound(Push(c, png, vp))
  {
    if c.data.Some? {
      var d, d' := c.data.value, Put(c, png, vp).data.value;
      forall id | id in d'.pages ensures PageOk(d', id) { assert PageOk(d, id); }
    }
    StampSound(Put(c, png, vp));
  }

  lemma PresentSound(c: Core, active: MapId, metas: seq<Meta>)
    requires Sound(c) && active in c.cache
    ensures Sound(Stamp(Present(c, active, metas)))
  {
    var d := Present(c, active, metas).data.value;
    forall id | id in d.pages ensures PageOk(d, id) {
      FreshPage(id, c.cache[id].vector, active, NameOf(metas, id));
    }
    StampSound(Present(c, active, metas));
  }

  lemma FreshPage(id: MapId, vector: Fields, active: MapId, name: Val)
    ensures var p := Page(id, vector, active, name);
      && (IsActivePage(p) <==> id == active) && Get(p, "map_id") == Some(Num(id.n))
      && (id != active ==> forall key <- LIVE_ONLY_KEYS :: key !in p)
      && (id == active ==> Get(p, "vacuum") == Get(vector, "vacuum"))
  {
  }

  lemma FileLiveSound(c: Core, active: Option<MapId>, live: Option<Decode>, now: real)
    requires Sound(c) && c.loaded
    ensures Sound(FileLive(c, active, live, now))
  {
  }

  lemma FiledSound(c: Core, i: CycleIn, a: Option<Decode>, b: Option<Decode>, active: Option<MapId>)
    requires Sound(c) && c.loaded
    ensures Sound(Filed(c, i, a, b, active))
  {
    var next := c.(slot0 := NextSlot0(c, i, a, active));
    assert Sound(next);
    FileLiveSound(next, active, Live(c, i, a, b, active), i.now);
  }

  lemma PruneSound(c: Core, keep: set<MapId>)
    requires Sound(c)
    ensures Sound(Prune(c, keep))
  {
  }

  lemma PruneMapsSound(c: Core, metas: seq<Meta>, active: Option<MapId>)
    requires Sound(c)
    ensures Sound(PruneMaps(c, metas, active))
  {
    PruneSound(c, ListedIds(metas));
    if active.Some? {
      PruneSound(c, {active.value});
    }
  }

  lemma DeliverSound(c: Core, metas: seq<Meta>, active: Option<MapId>)
    requires Sound(c)
    ensures Sound(Deliver(c, metas, active).0)
  {
    if active.Some? && active.value in c.cache {
      PresentSound(c, active.value, metas);
    }
  }

  lemma SettleSound(c: Core, i: CycleIn, active: Option<MapId>, filed: bool)
    requires Sound(c)
    ensures Sound(Settle(c, i, active, filed).c)
  {
    var d := Discarded(c, filed);
    assert Sound(d);
    PruneMapsSound(d, i.metas, active);
    DeliverSound(PruneMaps(d, i.metas, active), i.metas, active);
  }

  lemma FileSound(c: Core, i: CycleIn, a: Option<Decode>, b: Option<Decode>)
    requires Sound(c) && c.loaded
    ensures Sound(FileFetched(c, i, a, b).c)
  {
    var active := Active(c, i, a, b);
    var live := Live(c, i, a, b, active);
    FiledSound(c, i, a, b, active);
    SettleSound(Filed(c, i, a, b, active), i, active, live.Some? && active.Some?);
  }

  ghost predicate SoundState(s: State) {
    Steady(s) && Sound(s.c)
  }

  lemma ResumeSound(s: State)
    requires SoundState(s)
    ensures Sound(Resume(s).c)
  {
    match s.phase
    case Resting(_) =>
    case Fetching(i) =>
      match FetchWithRenewal(i) {
        case Gone(_, _) =>
        case Got(a, b) => FileSound(s.c, i, a, b);
      }
    case Saving(i, id) => SettleSound(s.c, i, Some(id), true);
    case Pruning(i, active) => DeliverSound(s.c, i.metas, active);
  }

  lemma NextSound(s: State, e: Event)
    requires SoundState(s)
    ensures SoundState(Next(s, e))
  {
    NextReady(s, e);
    match e
    case ResumeEvent => ResumeSound(s);
    case PushEvent(png, vp) => PushSound(s.c, png, vp);
    case _ =>
  }

  /**
   In every reachable state, also while a cycle waits, the served payload is consistent, and
   linked to the cache when it says so.
   */
  lemma {:induction false} PayloadAlwaysOk(s: State, es: seq<Event>)
    requires Start(s)
    ensures SoundState(Run(s, es))
  {
    if es != [] {
      PayloadAlwaysOk(s, es[..|es| - 1]);
      NextSound(Run(s, es[..|es| - 1]), es[|es| - 1]);
    }
  }

  // ---- what live pushes may touch

  /** Everything but the stamped position */
  ghost predicate SameMap(e: Entry, f: Entry) {
    && e.mapHeadId == f.mapHeadId && e.png == f.png && e.hash == f.hash && e.timestamp == f.timestamp
    && e.vector - {"vacuum"} == f.vector - {"vacuum"}
    && e.attributes - {"vacuum_position"} == f.attributes - {"vacuum_position"}
  }

  /** The same maps are cached, each up to its stamped position; apart from `live`, exactly so. */
  ghost predicate SameCache(c: Entries, d: Entries, live: set<MapId>) {
    && c.Keys == d.Keys
    && forall k :: k in c ==> SameMap(c[k], d[k]) && (k !in live ==> c[k] == d[k])
  }

  /** The map whose cached dictionaries the served payload holds */
  ghost function Linked(c: Core): set<MapId> {
    if c.data.Some? && c.data.value.linked then {c.data.value.mapId} else {}
  }

  lemma OneEntryTouched(c: Entries, k: MapId, e: Entry)
    requires k in c && SameMap(c[k], e)
    ensures SameCache(c, c[k := e], {k})
  {
  }

  lemma StampTouches(c: Core)
    requires Sound(c)
    ensures SameCache(c.cache, Stamp(c).cache, Linked(c)) && Linked(Stamp(c)) == Linked(c)
  {
    if c.fetcher && c.livePos.Some? && c.data.Some? && c.data.value.linked {
      var k, pose := c.data.value.mapId, PoseOf(c.livePos.value, c.units);
      var v := c.cache[k].vector;
      assert StampFields(v, pose) - {"vacuum"} == v - {"vacuum"};
      OneEntryTouched(c.cache, k, c.cache[k].(vector := StampFields(v, pose)));
    }
  }

  lemma SameCacheTrans(c: Entries, d: Entries, e: Entries, live: set<MapId>)
    requires SameCache(c, d, live) && SameCache(d, e, live)
    ensures SameCache(c, e, live)
  {
  }

  lemma PutTouches(c: Core, png: Image, vp: Val)
    requires c.data.Some? && c.data.value.linked ==> c.data.value.mapId in c.cache
    ensures SameCache(c.cache, Put(c, png, vp).cache, Linked(c))
  {
  }

  lemma PushTouches(c: Core, png: Image, vp: Val)
    requires Sound(c)
    ensures SameCache(c.cache, Push(c, png, vp).cache, Linked(c)) && Linked(Push(c, png, vp)) == Linked(c)
  {
    PushSound(c, png, vp);
    PutTouches(c, png, vp);
    StampTouches(Put(c, png, vp));
    SameCacheTrans(c.cache, Put(c, png, vp).cache, Push(c, png, vp).cache, Linked(c));
  }

  /** An event of the live side: no part of a cycle */
  predicate IsLive(e: Event) { e.FrameEvent? || e.PushEvent? || e.SignalEvent? }

  ghost predicate AllLive(es: seq<Event>) {
    forall i :: 0 <= i < |es| ==> IsLive(es[i])
  }

  /**
   Between the parts of cycles, any number of frames, pushes and signals changes nothing in the
   cache but the position keys of the one map whose dictionaries the payload shares.
   */
  lemma {:induction false} PushesTouchOnlyPosition(s: State, es: seq<Event>)
    requires SoundState(s) && AllLive(es)
    ensures var t := Run(s, es);
      SoundState(t) && t.phase == s.phase && SameCache(s.c.cache, t.c.cache, Linked(s.c)) && Linked(t.c) == Linked(s.c)
  {
    if es != [] {
      var front, last := es[..|es| - 1], es[|es| - 1];
      forall i | 0 <= i < |front| ensures IsLive(front[i]) { assert front[i] == es[i]; }
      assert IsLive(last);
      PushesTouchOnlyPosition(s, front);
      LiveTouches(Run(s, front), last);
      SameCacheTrans(s.c.cache, Run(s, front).c.cache, Run(s, es).c.cache, Linked(s.c));
    }
  }

  lemma LiveTouches(s: State, e: Event)
    requires SoundState(s) && IsLive(e)
    ensures var t := Next(s, e);
      SoundState(t) && t.phase == s.phase && SameCache(s.c.cache, t.c.cache, Linked(s.c)) && Linked(t.c) == Linked(s.c)
  {
    NextSound(s, e);
    if e.PushEvent? {
      PushTouches(s.c, e.png, e.vacuumPosition);
    }
  }

  // ---- one map through one event

  /** k stays cached, if it is, as it was up to its stamped position. */
  ghost predicate Undisturbed(c: Core, d: Core, k: MapId) {
    k in d.cache ==> k in c.cache && SameMap(c.cache[k], d.cache[k])
  }

  lemma UndisturbedTrans(c: Core, d: Core, e: Core, k: MapId)
    requires Undisturbed(c, d, k) && Undisturbed(d, e, k)
    ensures Undisturbed(c, e, k)
  {
  }

  lemma PresentTouches(c: Core, active: MapId, metas: seq<Meta>, k: MapId)
    requires Sound(c) && active in c.cache
    ensures var d := Stamp(Present(c, active, metas));
      d.cache.Keys == c.cache.Keys && Undisturbed(c, d, k)
  {
  }

  /** Pruning by this list drops k: the list is not empty and omits it, or the profile has one map and it is another. */
  predicate Omits(hasMapList: bool, metas: seq<Meta>, active: Option<MapId>, k: MapId) {
    if metas != [] then (exists m <- metas :: m.id.Listed?) && forall m <- metas :: m.id != Listed(k)
    else !hasMapList && active.Some? && active.value != k
  }

  /** No entry of the map list has an id that does not convert. */
  predicate AllConvert(metas: seq<Meta>) {
    forall j :: 0 <= j < |metas| ==> metas[j].id != Unparseable
  }

  lemma ListedAre(metas: seq<Meta>)
    ensures IdsParse(metas) <==> AllConvert(metas)
    ensures forall k :: k in ListedIds(metas) <==> exists m <- metas :: m.id == Listed(k)
    ensures ListedIds(metas) == {} <==> !exists m <- metas :: m.id.Listed?
  {
    if m :| m in metas && m.id.Listed? {
      assert m.id.id in ListedIds(metas);
    }
    forall k | k in ListedIds(metas) ensures exists m <- metas :: m.id == Listed(k) {
    }
    if ListedIds(metas) != {} {
      var k :| k in ListedIds(metas);
      assert exists m <- metas :: m.id == Listed(k);
    }
  }

  /** The event files a render. */
  ghost predicate FilesRender(s: State, e: Event) {
    e.ResumeEvent? && AtFiling(s) && ActiveOf(s).Some? && LiveOf(s).Some?
  }

  /** The event is the step of a cycle that files, for map k. */
  ghost predicate ResolvesTo(s: State, e: Event, k: MapId) {
    e.ResumeEvent? && AtFiling(s) && ActiveOf(s) == Some(k)
  }

  /** The event drops k: a cycle whose list converts prunes, and omits it. */
  ghost predicate Drops(s: State, e: Event, k: MapId) {
    && e.ResumeEvent?
    && ((s.phase.Saving? && OmitsOf(s.c, s.phase.i, Some(s.phase.id), k))
        || (AtFiling(s) && !Writes(s.c, LiveOf(s), ActiveOf(s)) && OmitsOf(s.c, s.phase.i, ActiveOf(s), k)))
  }

  predicate OmitsOf(c: Core, i: CycleIn, active: Option<MapId>, k: MapId) {
    AllConvert(i.metas) && Omits(c.hasMapList, i.metas, active, k)
  }

  /** Filing, seen from one map */
  lemma FiledAt(c: Core, i: CycleIn, a: Option<Decode>, b: Option<Decode>, active: Option<MapId>, k: MapId)
    ensures var f := Filed(c, i, a, b, active);
      var live := Live(c, i, a, b, active);
      if Writes(c, live, active) && active == Some(k)
      then k in f.cache && f.cache[k] == EntryFor(k, live.value, i.now)
      else (k in f.cache <==> k in c.cache) && (k in c.cache ==> f.cache[k] == c.cache[k])
  {
  }

  /** Pruning, seen from one map */
  lemma PrunedAt(c: Core, metas: seq<Meta>, active: Option<MapId>, k: MapId)
    ensures var d := PruneMaps(c, metas, active);
      if Omits(c.hasMapList, metas, active, k) then k !in d.cache
      else (k in d.cache <==> k in c.cache) && (k in c.cache ==> d.cache[k] == c.cache[k])
  {
    ListedAre(metas);
  }

  lemma PruneOnlyDrops(c: Core, metas: seq<Meta>, active: Option<MapId>, k: MapId)
    ensures var d := PruneMaps(c, metas, active); k in d.cache ==> k in c.cache && d.cache[k] == c.cache[k]
  {
  }

  /** Serving a map touches no other, and none is dropped for it. */
  lemma DeliverAt(c: Core, metas: seq<Meta>, active: Option<MapId>, k: MapId)
    requires Sound(c)
    ensures var d := Deliver(c, metas, active).0;
      d.cache.Keys == c.cache.Keys && Undisturbed(c, d, k)
  {
    if active.Some? && active.value in c.cache {
      PresentTouches(c, active.value, metas, k);
    }
  }

  /** The part of a cycle that prunes, seen from one map: dropped, or kept up to the stamp. */
  lemma SettleAt(c: Core, i: CycleIn, active: Option<MapId>, filed: bool, k: MapId)
    requires Sound(c)
    ensures var d := Settle(c, i, active, filed).c;
      Undisturbed(c, d, k) && (k in d.cache <==> k in c.cache && !OmitsOf(c, i, active, k))
  {
    var d := Discarded(c, filed);
    if IdsParse(i.metas) {
      PruneMapsSound(d, i.metas, active);
      PrunedAt(d, i.metas, active, k);
      ServeAt(PruneMaps(d, i.metas, active), i, active, k);
    }
  }

  lemma ServeAt(c: Core, i: CycleIn, active: Option<MapId>, k: MapId)
    requires Sound(c)
    ensures var d := Serve(c, i, active).c;
      d.cache.Keys == c.cache.Keys && Undisturbed(c, d, k)
  {
    DeliverAt(c, i.metas, active, k);
  }

  /** The part that files, seen from one map */
  lemma FileAt(c: Core, i: CycleIn, a: Option<Decode>, b: Option<Decode>, k: MapId)
    requires Sound(c) && c.loaded
    ensures var active := Active(c, i, a, b);
      var live := Live(c, i, a, b, active);
      var filed, d := Filed(c, i, a, b, active), FileFetched(c, i, a, b).c;
      && Undisturbed(filed, d, k)
      && (k in d.cache <==> k in filed.cache && (Writes(c, live, active) || !OmitsOf(c, i, active, k)))
  {
    var active := Active(c, i, a, b);
    var live := Live(c, i, a, b, active);
    FiledSound(c, i, a, b, active);
    SettleAt(Filed(c, i, a, b, active), i, active, live.Some? && active.Some?, k);
  }

  // ---- slot-0 renders stick for a whole clean

  /** The event neither files in a docked or idle cycle nor files a slot-0 render under k. */
  ghost predicate SlotOneOnly(s: State, e: Event, k: MapId) {
    e.ResumeEvent? && AtFiling(s) ==>
      !IsReady(s.phase.i.status) && !(FetchWithRenewal(s.phase.i).first.Some? && ActiveOf(s) == Some(k))
  }

  ghost predicate SlotOneOnlyRun(s: State, es: seq<Event>, k: MapId)
    requires Steady(s)
  {
    es == [] || (SlotOneOnlyRun(s, es[..|es| - 1], k) && SlotOneOnly(Run(s, es[..|es| - 1]), es[|es| - 1], k))
  }

  lemma StampKeepsRest(c: Core)
    requires Ready(c)
    ensures Stamp(c).slot0 == c.slot0 && Stamp(c).livePos == c.livePos && Stamp(c).fetcher == c.fetcher
    ensures Stamp(c).units == c.units && Stamp(c).hasMapList == c.hasMapList
  {
  }

  lemma DeliverKeepsRest(c: Core, metas: seq<Meta>, active: Option<MapId>)
    requires Ready(c)
    ensures var d := Deliver(c, metas, active).0;
      d.slot0 == c.slot0 && d.livePos == c.livePos && d.units == c.units && d.hasMapList == c.hasMapList
  {
    if active.Some? && active.value in c.cache {
      StampKeepsRest(Present(c, active.value, metas));
    }
  }

  lemma PruneKeepsRest(c: Core, metas: seq<Meta>, active: Option<MapId>)
    ensures var d := PruneMaps(c, metas, active);
      && d.slot0 == c.slot0 && d.livePos == c.livePos && d.units == c.units
      && d.hasMapList == c.hasMapList && d.fetcher == c.fetcher
  {
  }

  lemma SettleKeepsRest(c: Core, i: CycleIn, active: Option<MapId>, filed: bool)
    requires Ready(c)
    ensures var d := Settle(c, i, active, filed).c;
      && d.slot0 == c.slot0 && d.livePos == Discarded(c, filed).livePos
      && d.units == c.units && d.hasMapList == c.hasMapList
  {
    var d := Discarded(c, filed);
    PruneReady(d, i.metas, active);
    PruneKeepsRest(d, i.metas, active);
    DeliverKeepsRest(PruneMaps(d, i.metas, active), i.metas, active);
  }

  lemma FiledKeepsRest(c: Core, i: CycleIn, a: Option<Decode>, b: Option<Decode>, active: Option<MapId>)
    ensures var d := Filed(c, i, a, b, active);
      && d.slot0 == NextSlot0(c, i, a, active) && d.livePos == c.livePos && d.units == c.units
      && d.hasMapList == c.hasMapList && d.fetcher == c.fetcher
  {
  }

  lemma FileKeepsRest(c: Core, i: CycleIn, a: Option<Decode>, b: Option<Decode>)
    requires Ready(c) && c.loaded
    ensures var d := FileFetched(c, i, a, b).c;
      && d.slot0 == NextSlot0(c, i, a, Active(c, i, a, b))
      && d.units == c.units && d.hasMapList == c.hasMapList
  {
    var active := Active(c, i, a, b);
    var live := Live(c, i, a, b, active);
    FiledReady(c, i, a, b, active);
    FiledKeepsRest(c, i, a, b, active);
    SettleKeepsRest(Filed(c, i, a, b, active), i, active, live.Some? && active.Some?);
  }

  lemma NextKeepsRest(s: State, e: Event)
    requires Steady(s)
    ensures var d := Next(s, e).c;
      && d.units == s.c.units && d.hasMapList == s.c.hasMapList
      && d.slot0 == if e.ResumeEvent? && AtFiling(s)
                    then NextSlot0(s.c, s.phase.i, FetchWithRenewal(s.phase.i).first, ActiveOf(s)) else s.c.slot0
  {
    if e.ResumeEvent? {
      match s.phase
      case Resting(_) =>
      case Fetching(i) =>
        if AtFiling(s) {
          FileKeepsRest(s.c, i, FetchWithRenewal(i).first, FetchWithRenewal(i).second);
        }
      case Saving(i, id) => SettleKeepsRest(s.c, i, Some(id), true);
      case Pruning(i, active) => DeliverKeepsRest(s.c, i.metas, active);
    } else if e.PushEvent? {
      PushReady(s.c, e.png, e.vacuumPosition);
      StampKeepsRest(Put(s.c, e.png, e.vacuumPosition));
    }
  }

  /** Every event, seen from one map: it is filed, dropped, loaded, or kept up to its stamp. */
  lemma NextAt(s: State, e: Event, k: MapId)
    requires SoundState(s)
    ensures var d := Next(s, e).c;
      if e.ResumeEvent? && AtFiling(s) then
        var got := FetchWithRenewal(s.phase.i);
        var filed := Filed(s.c, s.phase.i, got.first, got.second, ActiveOf(s));
        Undisturbed(filed, d, k) && (k in d.cache <==> k in filed.cache && !Drops(s, e, k))
      else if e.CycleEvent? && !s.c.loaded then true
      else Undisturbed(s.c, d, k) && (k in d.cache <==> k in s.c.cache && !Drops(s, e, k))
  {
    if e.ResumeEvent? {
      match s.phase
      case Resting(_) =>
      case Fetching(i) =>
        if AtFiling(s) {
          FileAt(s.c, i, FetchWithRenewal(i).first, FetchWithRenewal(i).second, k);
        }
      case Saving(i, id) => SettleAt(s.c, i, Some(id), true, k);
      case Pruning(i, active) => DeliverAt(s.c, i.metas, active, k);
    } else if IsLive(e) {
      LiveTouches(s, e);
    }
  }

  lemma StickyStep(s: State, e: Event, k: MapId)
    requires SoundState(s) && k in s.c.slot0 && SlotOneOnly(s, e, k)
    ensures k in Next(s, e).c.slot0 && Undisturbed(s.c, Next(s, e).c, k)
  {
    NextKeepsRest(s, e);
    NextAt(s, e, k);
    if e.ResumeEvent? && AtFiling(s) {
      var got := FetchWithRenewal(s.phase.i);
      FiledAt(s.c, s.phase.i, got.first, got.second, ActiveOf(s), k);
      UndisturbedTrans(s.c, Filed(s.c, s.phase.i, got.first, got.second, ActiveOf(s)), Next(s, e).c, k);
    }
  }

  /**
   Once a slot-0 render of k was served during a clean, no run without a docked or idle cycle and
   without a further slot-0 render of k replaces it, however the parts of cycles, frames and pushes mix.
   */
  lemma {:induction false} SlotZeroSticks(s: State, es: seq<Event>, k: MapId)
    requires SoundState(s) && k in s.c.slot0 && SlotOneOnlyRun(s, es, k)
    ensures SoundState(Run(s, es)) && k in Run(s, es).c.slot0 && Undisturbed(s.c, Run(s, es).c, k)
  {
    if es != [] {
      var before := Run(s, es[..|es| - 1]);
      SlotZeroSticks(s, es[..|es| - 1], k);
      NextSound(before, es[|es| - 1]);
      StickyStep(before, es[|es| - 1], k);
      UndisturbedTrans(s.c, before.c, Run(s, es).c, k);
    }
  }

  /** The event files a slot-0 render under k. */
  ghost predicate FilesSlotZero(s: State, e: Event, k: MapId) {
    e.ResumeEvent? && AtFiling(s) && FetchWithRenewal(s.phase.i).first.Some? && ActiveOf(s) == Some(k)
  }

  /** The hash of the last slot-0 render filed under k on a run, if there was one */
  ghost function SlotZeroHash(s: State, es: seq<Event>, k: MapId): Option<Hash>
    requires Steady(s)
  {
    if es == [] then None
    else
      var before, e := Run(s, es[..|es| - 1]), es[|es| - 1];
      if FilesSlotZero(before, e, k) then Some(FetchWithRenewal(before.phase.i).first.value.hash)
      else SlotZeroHash(s, es[..|es| - 1], k)
  }

  ghost predicate SlotZeroHolds(c: Core, h: Option<Hash>, k: MapId) {
    k in c.slot0 ==> h.Some? && (k in c.cache ==> c.cache[k].hash == h.value)
  }

  lemma SlotZeroStep(s: State, e: Event, h: Option<Hash>, k: MapId)
    requires SoundState(s) && SlotZeroHolds(s.c, h, k)
    ensures SlotZeroHolds(Next(s, e).c,
      if FilesSlotZero(s, e, k) then Some(FetchWithRenewal(s.phase.i).first.value.hash) else h, k)
  {
    NextKeepsRest(s, e);
    NextAt(s, e, k);
    if e.ResumeEvent? && AtFiling(s) {
      var got := FetchWithRenewal(s.phase.i);
      FiledAt(s.c, s.phase.i, got.first, got.second, ActiveOf(s), k);
    }
  }

  /** In every reachable state, a map marked as served from slot 0 is cached, if at all, as its last slot-0 render. */
  lemma {:induction false} SlotZeroIsCached(s: State, es: seq<Event>, k: MapId)
    requires Start(s)
    ensures SlotZeroHolds(Run(s, es).c, SlotZeroHash(s, es, k), k)
  {
    if es != [] {
      var before, e := Run(s, es[..|es| - 1]), es[|es| - 1];
      SlotZeroIsCached(s, es[..|es| - 1], k);
      PayloadAlwaysOk(s, es[..|es| - 1]);
      SlotZeroStep(before, e, SlotZeroHash(s, es[..|es| - 1], k), k);
    }
  }

  // ---- an unreadable upload never blanks a known map

  /** The event is the first cycle reading k from the cache file. */
  ghost predicate LoadsMap(s: State, e: Event, k: MapId) {
    && e.CycleEvent? && s.phase.Resting? && (s.c.fetcher || e.i.build == Built)
    && !s.c.loaded && s.c.stored.Some? && k in s.c.stored.value
  }

  lemma KnownStep(s: State, e: Event, k: MapId)
    requires SoundState(s)
    ensures k in Next(s, e).c.cache <==>
      !Drops(s, e, k) && (k in s.c.cache || LoadsMap(s, e, k) || (ResolvesTo(s, e, k) && LiveOf(s).Some?))
  {
    NextAt(s, e, k);
    if e.ResumeEvent? && AtFiling(s) {
      var got := FetchWithRenewal(s.phase.i);
      FiledAt(s.c, s.phase.i, got.first, got.second, ActiveOf(s), k);
    }
  }

  ghost predicate NeverDrops(s: State, es: seq<Event>, k: MapId)
    requires Steady(s)
  {
    es == [] || (NeverDrops(s, es[..|es| - 1], k) && !Drops(Run(s, es[..|es| - 1]), es[|es| - 1], k))
  }

  /** A cached map stays cached through any run of failures and other maps, until a map list omits it. */
  lemma {:induction false} KnownMapStays(s: State, es: seq<Event>, k: MapId)
    requires SoundState(s) && k in s.c.cache && NeverDrops(s, es, k)
    ensures SoundState(Run(s, es)) && k in Run(s, es).c.cache
  {
    if es != [] {
      KnownMapStays(s, es[..|es| - 1], k);
      NextSound(Run(s, es[..|es| - 1]), es[|es| - 1]);
      KnownStep(Run(s, es[..|es| - 1]), es[|es| - 1], k);
    }
  }

  // ---- what a cycle comes to

  /** A cycle at its filing step can serve k: listed ids convert, k was cached or is filed now, and is not omitted. */
  ghost predicate CanServe(s: State, k: MapId)
    requires AtFiling(s)
  {
    && AllConvert(s.phase.i.metas)
    && (k in s.c.cache || LiveOf(s).Some?)
    && !Omits(s.c.hasMapList, s.phase.i.metas, Some(k), k)
  }

  /** A cycle for k is on its way to being served, or to failing, or has ended so. */
  ghost predicate OnCourse(s: State, i: CycleIn, k: MapId, serves: bool) {
    match s.phase
    case Fetching(_) => false
    case Saving(j, id) =>
      && j == i && id == k && k in s.c.cache
      && (serves <==> AllConvert(i.metas) && !Omits(s.c.hasMapList, i.metas, Some(k), k))
    case Pruning(j, active) => j == i && active == Some(k) && (serves <==> k in s.c.cache)
    case Resting(last) =>
      if serves then last == Some(Ok) && s.c.data.Some? && s.c.data.value.mapId == k
      else last == Some(UpdateFailed) && !s.c.fetcher
  }

  lemma ServeCourse(c: Core, i: CycleIn, k: MapId)
    requires Ready(c)
    ensures OnCourse(Serve(c, i, Some(k)), i, k, k in c.cache)
  {
  }

  lemma SettleCourse(c: Core, i: CycleIn, filed: bool, k: MapId)
    requires Ready(c)
    ensures OnCourse(Settle(c, i, Some(k), filed), i, k,
                     k in c.cache && AllConvert(i.metas) && !Omits(c.hasMapList, i.metas, Some(k), k))
  {
    var d := Discarded(c, filed);
    PruneReady(d, i.metas, Some(k));
    PrunedAt(d, i.metas, Some(k), k);
    ServeCourse(PruneMaps(d, i.metas, Some(k)), i, k);
  }

  lemma FileCourse(s: State, k: MapId)
    requires SoundState(s) && AtFiling(s) && ActiveOf(s) == Some(k)
    ensures OnCourse(Resume(s), s.phase.i, k, CanServe(s, k))
  {
    var got := FetchWithRenewal(s.phase.i);
    FiledReady(s.c, s.phase.i, got.first, got.second, Some(k));
    FiledAt(s.c, s.phase.i, got.first, got.second, Some(k), k);
    SettleCourse(Filed(s.c, s.phase.i, got.first, got.second, Some(k)), s.phase.i, LiveOf(s).Some?, k);
  }

  lemma CourseStep(s: State, e: Event, i: CycleIn, k: MapId, serves: bool)
    requires SoundState(s) && !e.CycleEvent? && OnCourse(s, i, k, serves)
    ensures OnCourse(Next(s, e), i, k, serves)
  {
    if e.ResumeEvent? {
      match s.phase
      case Resting(_) =>
      case Saving(j, id) => SettleCourse(s.c, i, true, k);
      case Pruning(j, active) => ServeCourse(s.c, i, k);
    } else if e.PushEvent? {
      LiveTouches(s, e);
    }
  }

  ghost predicate NoStarts(es: seq<Event>) {
    forall i :: 0 <= i < |es| ==> !es[i].CycleEvent?
  }

  lemma {:induction false} CourseKept(s: State, es: seq<Event>, i: CycleIn, k: MapId, serves: bool)
    requires SoundState(s) && NoStarts(es) && OnCourse(s, i, k, serves)
    ensures SoundState(Run(s, es)) && OnCourse(Run(s, es), i, k, serves)
  {
    if es != [] {
      var front := es[..|es| - 1];
      assert NoStarts(front) by {
        forall j | 0 <= j < |front| ensures !front[j].CycleEvent? { assert front[j] == es[j]; }
      }
      CourseKept(s, front, i, k, serves);
      NextSound(Run(s, front), es[|es| - 1]);
      CourseStep(Run(s, front), es[|es| - 1], i, k, serves);
    }
  }

  lemma RunAfterFiling(s: State, es: seq<Event>)
    requires SoundState(s)
    ensures SoundState(Resume(s)) && Run(s, [ResumeEvent] + es) == Run(Resume(s), es)
  {
    NextSound(s, ResumeEvent);
    RunAppend(s, [ResumeEvent], es);
    assert Run(s, [ResumeEvent]) == Next(Run(s, []), ResumeEvent);
  }

  /**
   Exactly when a cycle that resolves to k serves it, whatever happens while it waits: all listed
   ids convert, k was cached or is filed now, and the list does not omit it. Unreadable slots
   alone never prevent it.
   */
  lemma ServesKnownMap(s: State, es: seq<Event>, k: MapId)
    requires SoundState(s) && ResolvesTo(s, ResumeEvent, k) && NoStarts(es)
    requires Run(s, [ResumeEvent] + es).phase.Resting?
    ensures var t := Run(s, [ResumeEvent] + es);
      && (t.phase.last == Some(Ok) <==> CanServe(s, k))
      && (CanServe(s, k) ==> t.c.data.Some? && t.c.data.value.mapId == k)
      && (!CanServe(s, k) ==> t.phase.last == Some(UpdateFailed) && !t.c.fetcher)
  {
    RunAfterFiling(s, es);
    FileCourse(s, k);
    CourseKept(Resume(s), es, s.phase.i, k, CanServe(s, k));
  }

  /** On a profile without a map list, a cycle for k that reads no list leaves at most k cached. */
  ghost predicate OnlyMap(s: State, k: MapId) {
    match s.phase
    case Fetching(_) => false
    case Saving(i, id) => id == k && i.metas == []
    case _ => s.c.cache.Keys <= {k}
  }

  lemma PruneToOne(c: Core, k: MapId)
    requires !c.hasMapList
    ensures PruneMaps(c, [], Some(k)).cache.Keys <= {k}
  {
  }

  lemma SettleToOne(c: Core, i: CycleIn, filed: bool, k: MapId)
    requires Sound(c) && !c.hasMapList && i.metas == []
    ensures OnlyMap(Settle(c, i, Some(k), filed), k)
  {
    var d := Discarded(c, filed);
    PruneToOne(d, k);
    PruneMapsSound(d, i.metas, Some(k));
    DeliverAt(PruneMaps(d, i.metas, Some(k)), i.metas, Some(k), k);
  }

  lemma OnlyMapStep(s: State, e: Event, k: MapId)
    requires SoundState(s) && !s.c.hasMapList && !e.CycleEvent? && OnlyMap(s, k)
    ensures OnlyMap(Next(s, e), k)
  {
    if e.ResumeEvent? {
      match s.phase
      case Resting(_) =>
      case Saving(i, id) => SettleToOne(s.c, i, true, k);
      case Pruning(i, active) => DeliverAt(s.c, i.metas, active, k);
    } else {
      LiveTouches(s, e);
    }
  }

  lemma {:induction false} OnlyMapKept(s: State, es: seq<Event>, k: MapId)
    requires SoundState(s) && !s.c.hasMapList && NoStarts(es) && OnlyMap(s, k)
    ensures SoundState(Run(s, es)) && !Run(s, es).c.hasMapList && OnlyMap(Run(s, es), k)
  {
    if es != [] {
      var front := es[..|es| - 1];
      assert NoStarts(front) by {
        forall j | 0 <= j < |front| ensures !front[j].CycleEvent? { assert front[j] == es[j]; }
      }
      OnlyMapKept(s, front, k);
      NextSound(Run(s, front), es[|es| - 1]);
      NextKeepsRest(Run(s, front), es[|es| - 1]);
      OnlyMapStep(Run(s, front), es[|es| - 1], k);
    }
  }

  /** On a profile without a map list, once a cycle for k that reads no list is over, at most k is cached. */
  lemma SingleMapKeepsOne(s: State, es: seq<Event>, k: MapId)
    requires SoundState(s) && ResolvesTo(s, ResumeEvent, k) && !s.c.hasMapList && s.phase.i.metas == []
    requires NoStarts(es) && Run(s, [ResumeEvent] + es).phase.Resting?
    ensures Run(s, [ResumeEvent] + es).c.cache.Keys <= {k}
  {
    var i, got := s.phase.i, FetchWithRenewal(s.phase.i);
    FiledSound(s.c, i, got.first, got.second, Some(k));
    SettleToOne(Filed(s.c, i, got.first, got.second, Some(k)), i, LiveOf(s).Some?, k);
    RunAfterFiling(s, es);
    NextKeepsRest(s, ResumeEvent);
    OnlyMapKept(Resume(s), es, k);
  }
}
