/**
 The map coordinator as a state machine: fetch cycles, cut where the coroutine waits, and between
 their parts live position frames, live pushes and signalled map ids. Held-by-reference
 dictionaries are described by value, with a flag that says whether the served payload still
 shares its dictionaries with the cache.
 */
module MapProtocol {
  import opened Options
  import opened MapStore
  import opened ActiveMap

  type Pos = (int, int, int)

  const LIVE_ONLY_KEYS: set<string> := {"path", "vacuum", "goto", "vacuum_room", "vacuum_room_name"}

  /** What is served: the active map, and one page for every cached map */
  datatype Served = Served(mapId: MapId, png: Image, attributes: Fields, vector: Fields, hash: Hash,
                           pages: map<MapId, Fields>, linked: bool)

  /** The coordinator's fields; `stored` is what the cache file will yield when the first cycle reads it. */
  datatype Core = Core(hasMapList: bool, units: real, stored: Option<Entries>, loaded: bool, fetcher: bool,
                       cache: Entries, slot0: set<MapId>, livePos: Option<Pos>, mqttId: Option<MapId>,
                       mapList: seq<Meta>, lastLiveAt: Option<real>, data: Option<Served>)

  // ---- pages

  function StaticOnly(v: Fields): Fields { v - LIVE_ONLY_KEYS }

  /** The name listed last for an id */
  function NameOf(metas: seq<Meta>, id: MapId): Val {
    if metas == [] then Null
    else
      var last := metas[|metas| - 1];
      if last.id == Listed(id) then Text(last.name) else NameOf(metas[..|metas| - 1], id)
  }

  /** A cached vector tagged for the list of maps; only the active one keeps its live keys. */
  function Page(id: MapId, vector: Fields, active: MapId, name: Val): Fields {
    (if id == active then vector else StaticOnly(vector))
      ["map_id" := Num(id.n)]["map_name" := name]["active" := Flag(id == active)]
  }

  function Pages(cache: Entries, active: MapId, metas: seq<Meta>): map<MapId, Fields> {
    map id | id in cache :: Page(id, cache[id].vector, active, NameOf(metas, id))
  }

  predicate IsActivePage(page: Fields) { "active" in page && page["active"] == Flag(true) }

  // ---- stamping the live position

  function PoseOf(pos: Pos, units: real): Val
    requires units != 0.0
  {
    Pose(pos.0 as real / units, pos.1 as real / units, pos.2)
  }

  /** The value is a pose at this position, in metres by so many units each, with the angle as it came. */
  ghost predicate IsAt(v: Val, pos: Pos, units: real) {
    v.Pose? && v.x * units == pos.0 as real && v.y * units == pos.1 as real && v.a == pos.2
  }

  lemma PoseIsAt(v: Val, pos: Pos, units: real)
    requires units != 0.0
    ensures IsAt(v, pos, units) <==> v == PoseOf(pos, units)
  {
    if v.Pose? {
      QuotientIs(v.x, pos.0 as real, units);
      QuotientIs(v.y, pos.1 as real, units);
    }
  }

  lemma QuotientIs(q: real, a: real, b: real)
    requires b != 0.0
    ensures q * b == a <==> q == a / b
  {
  }

  function StampFields(f: Fields, pose: Val): Fields { f["vacuum" := pose] }

  function StampPages(pages: map<MapId, Fields>, pose: Val): map<MapId, Fields> {
    map id | id in pages :: if IsActivePage(pages[id]) then StampFields(pages[id], pose) else pages[id]
  }

  ghost predicate Ready(c: Core) {
    && c.units != 0.0
    && KeyedById(c.cache)
    && (c.stored.Some? ==> KeyedById(c.stored.value))
    && (!c.loaded ==> c.cache == map[] && c.slot0 == {} && c.data.None?)
    && (c.data.Some? && c.data.value.linked ==> c.data.value.mapId in c.cache)
  }

  /** Write the latest signalled position into the served payload, and through it into the cache. */
  function Stamp(c: Core): Core
    requires c.units != 0.0 && (c.data.Some? && c.data.value.linked ==> c.data.value.mapId in c.cache)
  {
    if !c.fetcher || c.livePos.None? || c.data.None? then c
    else
      var pose, d := PoseOf(c.livePos.value, c.units), c.data.value;
      var cache := if d.linked
        then c.cache[d.mapId := c.cache[d.mapId].(vector := StampFields(c.cache[d.mapId].vector, pose))] else c.cache;
      c.(cache := cache, data := Some(d.(vector := StampFields(d.vector, pose), pages := StampPages(d.pages, pose))))
  }

  function PositionIn(attributes: Fields, vacuumPosition: Val): Fields {
    attributes["vacuum_position" := vacuumPosition]
  }

  /** A rendered live frame: new image, new position attribute, also in the cache entry the payload shares. */
  function Put(c: Core, png: Image, vacuumPosition: Val): Core
    requires c.data.Some? && c.data.value.linked ==> c.data.value.mapId in c.cache
  {
    if c.data.None? then c
    else
      var d := c.data.value;
      var cache := if d.linked
        then
          var e := c.cache[d.mapId];
          c.cache[d.mapId := e.(attributes := PositionIn(e.attributes, vacuumPosition))]
        else c.cache;
      c.(cache := cache, data := Some(d.(png := png, attributes := PositionIn(d.attributes, vacuumPosition))))
  }

  /** A rendered live frame arrives and is stamped with the latest position. */
  function Push(c: Core, png: Image, vacuumPosition: Val): Core
    requires c.units != 0.0 && (c.data.Some? && c.data.value.linked ==> c.data.value.mapId in c.cache)
  {
    Stamp(Put(c, png, vacuumPosition))
  }

  // ---- fetching the two slots

  datatype SlotOutcome = Rendered(d: Decode) | Undecodable | NoUrl | Unreachable | Crashed

  datatype Fetched = Slots(first: Option<Decode>, second: Option<Decode>) | AllExpired | CloudDown | FetchCrash

  function Result(o: SlotOutcome): Option<Decode> {
    if o.Rendered? then Some(o.d) else None
  }

  /** Each slot's missing url is excused on its own; only when no slot had one is the session expired. */
  function FetchSlots(first: SlotOutcome, second: SlotOutcome): Fetched {
    if first.Unreachable? then CloudDown
    else if first.Crashed? then FetchCrash
    else if second.Unreachable? then CloudDown
    else if second.Crashed? then FetchCrash
    else if first.NoUrl? && second.NoUrl? then AllExpired
    else Slots(Result(first), Result(second))
  }

  datatype Activity = Cleaning | Returning | Docked | Idle | OtherActivity

  datatype Build = Built | BuildRefused | BuildCrashed

  datatype Renewal = Renewed | NotRenewed | RenewUnreachable | RenewCrashed

  datatype CycleIn = CycleIn(status: Option<Activity>, build: Build, metas: seq<Meta>,
                             tries: (SlotOutcome, SlotOutcome), renewal: Renewal, retries: (SlotOutcome, SlotOutcome),
                             now: real)

  datatype Outcome = Ok | UpdateFailed | AuthFailed

  datatype Attempt = Got(first: Option<Decode>, second: Option<Decode>) | Gone(outcome: Outcome, keepFetcher: bool)

  /** The fetch with one renewal of an expired session */
  function FetchWithRenewal(i: CycleIn): Attempt {
    match FetchSlots(i.tries.0, i.tries.1)
    case Slots(a, b) => Got(a, b)
    case CloudDown => Gone(UpdateFailed, true)
    case FetchCrash => Gone(UpdateFailed, false)
    case AllExpired =>
      match i.renewal
      case NotRenewed => Gone(AuthFailed, true)
      case RenewUnreachable => Gone(UpdateFailed, true)
      case RenewCrashed => Gone(UpdateFailed, false)
      case Renewed =>
        match FetchSlots(i.retries.0, i.retries.1)
        case Slots(a, b) => Got(a, b)
        case AllExpired => Gone(UpdateFailed, true)
        case CloudDown => Gone(UpdateFailed, true)
        case FetchCrash => Gone(UpdateFailed, false)
  }

  // ---- one cycle

  predicate IsReady(status: Option<Activity>) {
    status.None? || status.value.Docked? || status.value.Idle?
  }

  function Decoded(a: Option<Decode>, b: Option<Decode>): seq<Decode> {
    (if a.Some? then [a.value] else []) + (if b.Some? then [b.value] else [])
  }

  function Active(c: Core, i: CycleIn, a: Option<Decode>, b: Option<Decode>): Option<MapId> {
    ResolveActiveId(Decoded(a, b), i.metas, c.mqttId, c.hasMapList).0
  }

  /** The slot-0 ids after this cycle's decodes */
  function NextSlot0(c: Core, i: CycleIn, a: Option<Decode>, active: Option<MapId>): set<MapId> {
    if IsReady(i.status) then {}
    else if a.Some? && active.Some? then c.slot0 + {active.value}
    else c.slot0
  }

  /** The render to file, if any: slot 0 wins, and a slot-1 render never replaces a slot-0 one during a clean. */
  function Live(c: Core, i: CycleIn, a: Option<Decode>, b: Option<Decode>, active: Option<MapId>): Option<Decode> {
    if a.Some? then a
    else if !IsReady(i.status) && active.Some? && active.value in c.slot0 then None
    else b
  }

  function EntryFor(id: MapId, d: Decode, now: real): Entry {
    Entry(id, d.png, d.attributes, d.vector, d.hash, now)
  }

  /** The served payload shares its dictionaries with the cache until its entry is replaced or dropped. */
  function SetLink(data: Option<Served>, stays: bool): Option<Served> {
    if data.Some? then Some(data.value.(linked := data.value.linked && stays)) else None
  }

  function Relink(c: Core, cache: Entries, stays: bool): Core {
    c.(cache := cache, data := SetLink(c.data, stays))
  }

  /** The render under this id is already cached. */
  predicate HasHash(cache: Entries, id: MapId, hash: Hash) {
    id in cache && cache[id].hash == hash
  }

  predicate ShowsMap(data: Option<Served>, id: MapId) {
    data.Some? && data.value.mapId == id
  }

  /** Insert the render into the cache, in memory. */
  function FileLive(c: Core, active: Option<MapId>, live: Option<Decode>, now: real): Core {
    if live.None? || active.None? then c
    else
      var id := active.value;
      Relink(c, Upserted(c.cache, EntryFor(id, live.value, now)),
             ShowsMap(c.data, id) ==> HasHash(c.cache, id, live.value.hash)).(lastLiveAt := Some(now))
  }

  function ListedIds(metas: seq<Meta>): set<MapId> {
    set m | m in metas && m.id.Listed? :: m.id.id
  }

  predicate IdsParse(metas: seq<Meta>) {
    forall m <- metas :: !m.id.Unparseable?
  }

  function Prune(c: Core, keep: set<MapId>): Core {
    Relink(c, Pruned(c.cache, keep), c.data.Some? ==> c.data.value.mapId in Pruned(c.cache, keep))
  }

  function PruneMaps(c: Core, metas: seq<Meta>, active: Option<MapId>): Core {
    if metas != [] then
      if ListedIds(metas) != {} then Prune(c, ListedIds(metas)) else c
    else if !c.hasMapList && active.Some? then Prune(c, {active.value})
    else c
  }

  /** The result built from the cache, before the live position is stamped on it */
  function Present(c: Core, active: MapId, metas: seq<Meta>): Core
    requires active in c.cache
  {
    var e := c.cache[active];
    c.(data := Some(Served(active, e.png, e.attributes, e.vector, e.hash, Pages(c.cache, active, metas), true)))
  }

  /** The state once this cycle's render is in the cache under the active id */
  function Filed(c: Core, i: CycleIn, a: Option<Decode>, b: Option<Decode>, active: Option<MapId>): Core {
    FileLive(c.(slot0 := NextSlot0(c, i, a, active)), active, Live(c, i, a, b, active), i.now)
  }

  /** A render was filed: whatever position was signalled so far is discarded. */
  function Discarded(c: Core, filed: bool): Core {
    if filed then c.(livePos := None) else c
  }

  /** The active map is served if it is cached; otherwise the cycle fails and the fetcher goes. */
  function Deliver(c: Core, metas: seq<Meta>, active: Option<MapId>): (Core, Outcome)
    requires c.units != 0.0 && (c.data.Some? && c.data.value.linked ==> c.data.value.mapId in c.cache)
  {
    if active.None? || active.value !in c.cache then (c.(fetcher := false), UpdateFailed)
    else (Stamp(Present(c, active.value, metas)), Ok)
  }

  /**
   The state once the fetcher is there, the cache is loaded and the map list is read; with an
   outcome when that fails. A cache file that raises costs the fetcher as well.
   */
  function Begun(c: Core, i: CycleIn): (Core, Option<Outcome>) {
    if !c.fetcher && i.build != Built then (c, Some(UpdateFailed))
    else if !c.loaded && c.stored.None? then (c.(fetcher := false), Some(UpdateFailed))
    else (c.(fetcher := true, loaded := true, cache := if c.loaded then c.cache else c.stored.value,
             mapList := if i.metas != [] then i.metas else c.mapList), None)
  }

  // ---- one cycle, cut where it waits

  /** Where the cycle is: not running, waiting for the slots, or waiting for the cache file to be written */
  datatype Phase =
    | Resting(last: Option<Outcome>)
    | Fetching(i: CycleIn)
    | Saving(i: CycleIn, id: MapId)                  // after the upsert
    | Pruning(i: CycleIn, active: Option<MapId>)     // after maps were dropped

  datatype State = State(c: Core, phase: Phase)

  /** A cycle under way has its fetcher and the cache. */
  ghost predicate Steady(s: State) {
    Ready(s.c) && (s.phase.Resting? || (s.c.loaded && s.c.fetcher))
  }

  function Begin(s: State, i: CycleIn): State {
    var (c, failed) := Begun(s.c, i);
    State(c, if failed.Some? then Resting(failed) else Fetching(i))
  }

  /** The last part: serve. */
  function Serve(c: Core, i: CycleIn, active: Option<MapId>): State
    requires Ready(c)
  {
    var (d, outcome) := Deliver(c, i.metas, active);
    State(d, Resting(Some(outcome)))
  }

  /** Discard the position, prune, and go on to serve unless maps were dropped and the file is to be written. */
  function Settle(c: Core, i: CycleIn, active: Option<MapId>, filed: bool): State
    requires Ready(c)
  {
    var d := Discarded(c, filed);
    if !IdsParse(i.metas) then State(d.(fetcher := false), Resting(Some(UpdateFailed)))
    else
      PruneReady(d, i.metas, active);
      var kept := PruneMaps(d, i.metas, active);
      if kept.cache.Keys != d.cache.Keys then State(kept, Pruning(i, active)) else Serve(kept, i, active)
  }

  /** The upsert changes the cache, and so writes its file. */
  predicate Writes(c: Core, live: Option<Decode>, active: Option<MapId>) {
    live.Some? && active.Some? && !HasHash(c.cache, active.value, live.value.hash)
  }

  /** File what was fetched, and go on to settle unless the file is to be written. */
  function FileFetched(c: Core, i: CycleIn, a: Option<Decode>, b: Option<Decode>): State
    requires Ready(c) && c.loaded
  {
    var active := Active(c, i, a, b);
    var live := Live(c, i, a, b, active);
    FiledReady(c, i, a, b, active);
    var filed := Filed(c, i, a, b, active);
    if Writes(c, live, active) then State(filed, Saving(i, active.value))
    else Settle(filed, i, active, live.Some? && active.Some?)
  }

  /** The running cycle goes on from where it waits. */
  function Resume(s: State): State
    requires Steady(s)
  {
    match s.phase
    case Resting(_) => s
    case Fetching(i) =>
      (match FetchWithRenewal(i)
       case Gone(outcome, keep) => State(s.c.(fetcher := keep), Resting(Some(outcome)))
       case Got(a, b) => FileFetched(s.c, i, a, b))
    case Saving(i, id) => Settle(s.c, i, Some(id), true)
    case Pruning(i, active) => Serve(s.c, i, active)
  }

  /** The next step files what was fetched. */
  predicate AtFiling(s: State) {
    s.phase.Fetching? && FetchWithRenewal(s.phase.i).Got?
  }

  /** The map id that step resolves to */
  function ActiveOf(s: State): Option<MapId>
    requires AtFiling(s)
  {
    var got := FetchWithRenewal(s.phase.i);
    Active(s.c, s.phase.i, got.first, got.second)
  }

  /** The render that step files, if it has an id to file it under */
  function LiveOf(s: State): Option<Decode>
    requires AtFiling(s)
  {
    var got := FetchWithRenewal(s.phase.i);
    Live(s.c, s.phase.i, got.first, got.second, ActiveOf(s))
  }

  // ---- runs

  /** A cycle starts, the running one goes on, a frame's position comes in, a render is pushed, an id is signalled. */
  datatype Event =
    | CycleEvent(i: CycleIn)
    | ResumeEvent
    | FrameEvent(pos: Pos)
    | PushEvent(png: Image, vacuumPosition: Val)
    | SignalEvent(id: Option<MapId>)

  /**
   One cycle runs at a time, and an id that does not convert changes nothing. A frame's position
   comes in when the frame has been decoded, which may be after its fetcher has gone.
   */
  function Next(s: State, e: Event): State
    requires Steady(s)
  {
    match e
    case CycleEvent(i) => if s.phase.Resting? then Begin(s, i) else s
    case ResumeEvent => Resume(s)
    case FrameEvent(pos) => s.(c := s.c.(livePos := Some(pos)))
    case PushEvent(png, vp) => s.(c := Push(s.c, png, vp))
    case SignalEvent(id) => if id.Some? then s.(c := s.c.(mqttId := id)) else s
  }

  lemma PushReady(c: Core, png: Image, vp: Val)
    requires Ready(c)
    ensures Ready(Put(c, png, vp)) && Ready(Push(c, png, vp))
  {
  }

  lemma FileLiveReady(c: Core, active: Option<MapId>, live: Option<Decode>, now: real)
    requires Ready(c) && c.loaded
    ensures Ready(FileLive(c, active, live, now))
  {
  }

  lemma PruneReady(c: Core, metas: seq<Meta>, active: Option<MapId>)
    requires Ready(c)
    ensures Ready(PruneMaps(c, metas, active))
  {
  }

  lemma FiledReady(c: Core, i: CycleIn, a: Option<Decode>, b: Option<Decode>, active: Option<MapId>)
    requires Ready(c) && c.loaded
    ensures Ready(Filed(c, i, a, b, active))
  {
    FileLiveReady(c.(slot0 := NextSlot0(c, i, a, active)), active, Live(c, i, a, b, active), i.now);
  }

  lemma FetcherReady(c: Core, fetcher: bool)
    requires Ready(c)
    ensures Ready(c.(fetcher := fetcher))
  {
  }

  lemma DeliverReady(c: Core, metas: seq<Meta>, active: Option<MapId>)
    requires Ready(c)
    ensures Ready(Deliver(c, metas, active).0)
  {
  }

  lemma SettleReady(c: Core, i: CycleIn, active: Option<MapId>, filed: bool)
    requires Ready(c) && c.loaded && c.fetcher
    ensures Steady(Settle(c, i, active, filed))
  {
    var d := Discarded(c, filed);
    FetcherReady(d, false);
    PruneReady(d, i.metas, active);
    DeliverReady(PruneMaps(d, i.metas, active), i.metas, active);
  }

  lemma FileReady(c: Core, i: CycleIn, a: Option<Decode>, b: Option<Decode>)
    requires Ready(c) && c.loaded && c.fetcher
    ensures Steady(FileFetched(c, i, a, b))
  {
    var active := Active(c, i, a, b);
    var live := Live(c, i, a, b, active);
    FiledReady(c, i, a, b, active);
    SettleReady(Filed(c, i, a, b, active), i, active, live.Some? && active.Some?);
  }

  lemma BeginReady(s: State, i: CycleIn)
    requires Steady(s)
    ensures Steady(Begin(s, i))
  {
  }

  lemma ResumeReady(s: State)
    requires Steady(s)
    ensures Steady(Resume(s))
  {
    match s.phase
    case Resting(_) =>
    case Fetching(i) =>
      match FetchWithRenewal(i) {
        case Gone(_, keep) => FetcherReady(s.c, keep);
        case Got(a, b) => FileReady(s.c, i, a, b);
      }
    case Saving(i, id) => SettleReady(s.c, i, Some(id), true);
    case Pruning(i, active) => DeliverReady(s.c, i.metas, active);
  }

  lemma NextReady(s: State, e: Event)
    requires Steady(s)
    ensures Steady(Next(s, e))
  {
    match e
    case CycleEvent(i) => BeginReady(s, i);
    case ResumeEvent => ResumeReady(s);
    case PushEvent(png, vp) => PushReady(s.c, png, vp);
    case _ =>
  }

  /** The state after a run of events */
  function Run(s: State, es: seq<Event>): (t: State)
    requires Steady(s)
    ensures Steady(t)
  {
    if es == [] then s
    else
      var before := Run(s, es[..|es| - 1]);
      NextReady(before, es[|es| - 1]);
      Next(before, es[|es| - 1])
  }

  lemma {:induction false} RunAppend(s: State, es: seq<Event>, fs: seq<Event>)
    requires Steady(s)
    ensures Run(s, es + fs) == Run(Run(s, es), fs)
    decreases |fs|
  {
    if fs == [] {
      assert es + fs == es;
    } else {
      RunAppend(s, es, fs[..|fs| - 1]);
      assert (es + fs)[..|es + fs| - 1] == es + fs[..|fs| - 1];
    }
  }

  /** A coordinator that has run no cycle yet, over whatever its cache file holds */
  predicate Start(s: State) {
    && s.c.units != 0.0
    && (s.c.stored.Some? ==> forall k :: k in s.c.stored.value ==> s.c.stored.value[k].mapHeadId == k)
    && !s.c.loaded && !s.c.fetcher && s.c.cache == map[] && s.c.slot0 == {} && s.c.livePos.None? && s.c.data.None?
    && s.phase == Resting(None)
  }

  /** A whole cycle with nothing in between */
  function Cycle(s: State, i: CycleIn): State
    requires Steady(s)
  {
    BeginReady(s, i);
    var fetching := Begin(s, i);
    ResumeReady(fetching);
    var saving := Resume(fetching);
    ResumeReady(saving);
    var pruning := Resume(saving);
    ResumeReady(pruning);
    Resume(pruning)
  }
}
