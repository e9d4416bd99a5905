/**
 Which vacuum position is served: the later of the last decoded header and the last signalled
 frame, unless that frame came while the cache file was being written.
 */
module NewestPosition {
  import opened Options
  import opened MapStore
  import opened ActiveMap
  import opened MapProtocol
  import opened MapRuns

  function VacuumOf(f: Fields): Option<Val> { Get(f, "vacuum") }

  /** The last position among some events */
  function LastFrame(es: seq<Event>): Option<Pos> {
    if es == [] then None
    else if es[|es| - 1].FrameEvent? then Some(es[|es| - 1].pos)
    else LastFrame(es[..|es| - 1])
  }

  /** The payload shares its dictionaries with map k's cache entry. */
  predicate LinkedTo(c: Core, k: MapId) {
    c.data.Some? && c.data.value.linked && c.data.value.mapId == k
  }

  /** The value is there, and is a pose at this position. */
  ghost predicate ShowsAt(v: Option<Val>, pos: Pos, units: real) {
    v.Some? && IsAt(v.value, pos, units)
  }

  /** The position if there is one, or else the header's */
  ghost predicate ShowsLatest(v: Option<Val>, header: Option<Val>, pos: Option<Pos>, units: real) {
    if pos.Some? then ShowsAt(v, pos.value, units) else v == header
  }

  // ---- one cycle, from filing to serving

  /** What the payload of a cycle shows if a position is pending when it is served, or none is */
  function Showing(c: Core, v: Option<Val>, pos: Option<Pos>): Option<Val>
    requires c.units != 0.0
  {
    if pos.Some? then Some(PoseOf(pos.value, c.units)) else v
  }

  /**
   A cycle for k carries position v to the payload: while its upsert is saved whatever is pending
   will be discarded, later on a position that comes in takes over.
   */
  ghost predicate Carries(s: State, i: CycleIn, k: MapId, v: Option<Val>, pos: Option<Pos>) {
    Ready(s.c) &&
    match s.phase
    case Fetching(_) => false
    case Saving(j, id) =>
      j == i && id == k && k in s.c.cache && VacuumOf(s.c.cache[k].vector) == v && !LinkedTo(s.c, k) && pos.None?
    case Pruning(j, active) =>
      && j == i && active == Some(k) && s.c.livePos == pos
      && (pos.None? && k in s.c.cache ==> VacuumOf(s.c.cache[k].vector) == v)
    case Resting(last) =>
      && s.c.livePos == pos
      && (last == Some(Ok) ==> s.c.data.Some? && VacuumOf(s.c.data.value.vector) == Showing(s.c, v, pos))
  }

  lemma ServeCarries(c: Core, i: CycleIn, k: MapId, v: Option<Val>, pos: Option<Pos>)
    requires Ready(c) && c.fetcher && c.livePos == pos
    requires pos.None? && k in c.cache ==> VacuumOf(c.cache[k].vector) == v
    ensures Carries(Serve(c, i, Some(k)), i, k, v, pos)
  {
    DeliverReady(c, i.metas, Some(k));
    if k in c.cache {
      StampKeepsRest(Present(c, k, i.metas));
    }
  }

  lemma SettleCarries(c: Core, i: CycleIn, k: MapId, v: Option<Val>)
    requires Ready(c) && c.fetcher
    requires k in c.cache ==> VacuumOf(c.cache[k].vector) == v
    ensures Carries(Settle(c, i, Some(k), true), i, k, v, None)
  {
    var d := Discarded(c, true);
    PruneReady(d, i.metas, Some(k));
    PruneKeepsRest(d, i.metas, Some(k));
    PruneOnlyDrops(d, i.metas, Some(k), k);
    ServeCarries(PruneMaps(d, i.metas, Some(k)), i, k, v, None);
  }

  /** Filing a render under k: a new hash brings its header position, a known one leaves the cached position. */
  lemma FileCarries(s: State, k: MapId)
    requires SoundState(s) && AtFiling(s) && ActiveOf(s) == Some(k) && LiveOf(s).Some?
    ensures Carries(Resume(s), s.phase.i, k, FiledVacuum(s, k), None)
  {
    var i, got := s.phase.i, FetchWithRenewal(s.phase.i);
    FiledReady(s.c, i, got.first, got.second, Some(k));
    FiledAt(s.c, i, got.first, got.second, Some(k), k);
    FiledKeepsRest(s.c, i, got.first, got.second, Some(k));
    SettleCarries(Filed(s.c, i, got.first, got.second, Some(k)), i, k, FiledVacuum(s, k));
  }

  /** The position in the cache entry of k once this step has filed its render */
  ghost function FiledVacuum(s: State, k: MapId): Option<Val>
    requires AtFiling(s) && LiveOf(s).Some?
  {
    if HasHash(s.c.cache, k, LiveOf(s).value.hash) then VacuumOf(s.c.cache[k].vector)
    else VacuumOf(LiveOf(s).value.vector)
  }

  lemma PushCarries(s: State, png: Image, vp: Val, i: CycleIn, k: MapId, v: Option<Val>, pos: Option<Pos>)
    requires Ready(s.c) && Carries(s, i, k, v, pos)
    ensures Carries(s.(c := Push(s.c, png, vp)), i, k, v, pos)
  {
    PushReady(s.c, png, vp);
    StampKeepsRest(Put(s.c, png, vp));
  }

  /** Frames count only once the upsert is saved, and up to the moment of serving. */
  function PendingAfter(s: State, e: Event, pos: Option<Pos>): Option<Pos> {
    if e.FrameEvent? && s.phase.Pruning? then Some(e.pos) else pos
  }

  lemma CarriesStep(s: State, e: Event, i: CycleIn, k: MapId, v: Option<Val>, pos: Option<Pos>)
    requires Steady(s) && !e.CycleEvent? && (s.phase.Resting? ==> !e.FrameEvent?) && Carries(s, i, k, v, pos)
    ensures Carries(Next(s, e), i, k, v, PendingAfter(s, e, pos))
  {
    if e.ResumeEvent? {
      match s.phase
      case Resting(_) =>
      case Saving(j, id) => SettleCarries(s.c, i, k, v);
      case Pruning(j, active) => ServeCarries(s.c, i, k, v, pos);
    } else if e.PushEvent? {
      PushCarries(s, e.png, e.vacuumPosition, i, k, v, pos);
    }
  }

  /** While a cycle waits, live events change what it carries by the last frame, and only after the save. */
  lemma {:induction false} CarriesAlong(s: State, es: seq<Event>, i: CycleIn, k: MapId, v: Option<Val>)
    requires SoundState(s) && AllLive(es) && !s.phase.Resting? && Carries(s, i, k, v, None)
    ensures var t := Run(s, es);
      SoundState(t) && t.phase == s.phase && Carries(t, i, k, v, if s.phase.Pruning? then LastFrame(es) else None)
  {
    if es != [] {
      var front := es[..|es| - 1];
      forall j | 0 <= j < |front| ensures IsLive(front[j]) { assert front[j] == es[j]; }
      assert IsLive(es[|es| - 1]);
      CarriesAlong(s, front, i, k, v);
      var before := Run(s, front);
      NextSound(before, es[|es| - 1]);
      CarriesStep(before, es[|es| - 1], i, k, v, if s.phase.Pruning? then LastFrame(front) else None);
    }
  }

  /** The state after filing, live events and settling */
  function Settled(s: State, during: seq<Event>): (t: State)
    requires Steady(s)
    ensures Steady(t)
  {
    ResumeReady(s);
    var saved := Run(Resume(s), during);
    ResumeReady(saved);
    Resume(saved)
  }

  /** The state after filing, live events, settling, live events and serving, in this order */
  function Around(s: State, during: seq<Event>, after: seq<Event>): State
    requires Steady(s)
  {
    Resume(Run(Settled(s, during), after))
  }

  /** Those events as one run */
  lemma AroundIsRun(s: State, during: seq<Event>, after: seq<Event>)
    requires Steady(s)
    ensures Run(s, [ResumeEvent] + during + [ResumeEvent] + after + [ResumeEvent]) == Around(s, during, after)
  {
    var one := [ResumeEvent];
    ResumeReady(s);
    assert Run(s, one) == Next(Run(s, []), ResumeEvent);
    RunAppend(s, one, during);
    var saved := Run(s, one + during);
    RunAppend(s, one + during, one);
    assert Run(saved, one) == Next(Run(saved, []), ResumeEvent) == Settled(s, during);
    RunAppend(s, one + during + one, after);
    var settled := Run(s, one + during + one + after);
    RunAppend(s, one + during + one + after, one);
    assert Run(settled, one) == Next(Run(settled, []), ResumeEvent);
  }

  /** Filing a render for k that has a new hash */
  ghost predicate FilesNewHash(s: State, k: MapId) {
    && AtFiling(s) && ActiveOf(s) == Some(k) && LiveOf(s).Some?
    && !HasHash(s.c.cache, k, LiveOf(s).value.hash)
  }

  /** The newest position a cycle may know of: the last frame that came while it waited, if one did */
  function Newest(during: seq<Event>, after: seq<Event>): Option<Pos> {
    if LastFrame(after).Some? then LastFrame(after) else LastFrame(during)
  }

  /**
   Whatever events come while a cycle that files a new hash saves its upsert (`during`) and, if maps
   were dropped, its pruning (`after`): if it serves, the payload shows the newest position exactly
   when no frame came during the first save, or one came after it, or the last of the former
   happens to be where the header has it.
   */
  lemma NewestUnlessDuringSave(s: State, k: MapId, during: seq<Event>, after: seq<Event>)
    requires SoundState(s) && FilesNewHash(s, k) && AllLive(during) && AllLive(after)
    requires Settled(s, during).phase.Pruning? || after == []
    requires Around(s, during, after).phase == Resting(Some(Ok))
    ensures var header := VacuumOf(LiveOf(s).value.vector);
      var d := Around(s, during, after).c.data;
      d.Some? && (ShowsLatest(VacuumOf(d.value.vector), header, Newest(during, after), s.c.units) <==>
        || LastFrame(during).None?
        || LastFrame(after).Some?
        || ShowsAt(header, LastFrame(during).value, s.c.units))
  {
    var i, header := s.phase.i, VacuumOf(LiveOf(s).value.vector);
    FileCarries(s, k);
    NextSound(s, ResumeEvent);
    CarriesAlong(Resume(s), during, i, k, header);
    var saved, settled := Run(Resume(s), during), Settled(s, during);
    NextSound(saved, ResumeEvent);
    CarriesStep(saved, ResumeEvent, i, k, header, None);
    if settled.phase.Pruning? {
      CarriesAlong(settled, after, i, k, header);
      CarriesStep(Run(settled, after), ResumeEvent, i, k, header, LastFrame(after));
    }
    AroundKeepsUnits(s, during, after);
    var shown := VacuumOf(Around(s, during, after).c.data.value.vector);
    if LastFrame(after).Some? {
      ShowsIs(shown, LastFrame(after).value, s.c.units);
    } else if LastFrame(during).Some? {
      ShowsIs(shown, LastFrame(during).value, s.c.units);
      ShowsIs(header, LastFrame(during).value, s.c.units);
    }
  }

  lemma ShowsIs(v: Option<Val>, pos: Pos, units: real)
    requires units != 0.0
    ensures ShowsAt(v, pos, units) <==> v == Some(PoseOf(pos, units))
  {
    if v.Some? {
      PoseIsAt(v.value, pos, units);
    }
  }

  lemma {:induction false} RunKeepsUnits(s: State, es: seq<Event>)
    requires Steady(s)
    ensures Run(s, es).c.units == s.c.units
  {
    if es != [] {
      RunKeepsUnits(s, es[..|es| - 1]);
      NextKeepsRest(Run(s, es[..|es| - 1]), es[|es| - 1]);
    }
  }

  lemma AroundKeepsUnits(s: State, during: seq<Event>, after: seq<Event>)
    requires Steady(s)
    ensures Around(s, during, after).c.units == s.c.units
  {
    AroundIsRun(s, during, after);
    RunKeepsUnits(s, [ResumeEvent] + during + [ResumeEvent] + after + [ResumeEvent]);
  }

  // ---- without the condition on the hash

  ghost predicate NoFrames(es: seq<Event>) {
    forall i :: 0 <= i < |es| ==> !es[i].FrameEvent? && !es[i].CycleEvent?
  }

  lemma {:induction false} CarriesQuietly(s: State, es: seq<Event>, i: CycleIn, k: MapId, v: Option<Val>)
    requires SoundState(s) && NoFrames(es) && Carries(s, i, k, v, None)
    ensures SoundState(Run(s, es)) && Carries(Run(s, es), i, k, v, None)
  {
    if es != [] {
      var front := es[..|es| - 1];
      assert NoFrames(front) by {
        forall j | 0 <= j < |front| ensures !front[j].FrameEvent? && !front[j].CycleEvent? { assert front[j] == es[j]; }
      }
      CarriesQuietly(s, front, i, k, v);
      NextSound(Run(s, front), es[|es| - 1]);
      CarriesStep(Run(s, front), es[|es| - 1], i, k, v, None);
    }
  }

  /**
   A cycle that files a render under k and, with no frame in between, serves it shows that
   render's header position exactly when the hash was new or the cached vector already held that position.
   */
  lemma EqualHashKeepsOldPosition(s: State, es: seq<Event>, k: MapId)
    requires SoundState(s) && AtFiling(s) && ActiveOf(s) == Some(k) && LiveOf(s).Some? && NoFrames(es)
    requires Run(s, [ResumeEvent] + es).phase == Resting(Some(Ok))
    ensures var live, d := LiveOf(s).value, Run(s, [ResumeEvent] + es).c.data;
      d.Some? && (VacuumOf(d.value.vector) == VacuumOf(live.vector) <==>
        (HasHash(s.c.cache, k, live.hash) ==> VacuumOf(s.c.cache[k].vector) == VacuumOf(live.vector)))
  {
    RunAfterFiling(s, es);
    FileCarries(s, k);
    CarriesQuietly(Resume(s), es, s.phase.i, k, FiledVacuum(s, k));
  }

  // ---- whole runs

  /** News of the position: a live frame, or the header of a render filed under a map */
  datatype News = NoNews | Signalled(pos: Pos) | Header(id: MapId, vacuum: Option<Val>)

  /** The most recent news, the header filed last, and whether the code has let the news go for that header */
  datatype Knowledge = Knowledge(newest: News, filed: News, lost: bool)

  const NOTHING := Knowledge(NoNews, NoNews, false)

  /** A frame that comes while an upsert is saved is the newest news, and is lost when the save is over. */
  ghost function NextKnowledge(s: State, e: Event, n: Knowledge): Knowledge {
    if e.FrameEvent? then Knowledge(Signalled(e.pos), n.filed, false)
    else if FilesRender(s, e) then
      var header := Header(ActiveOf(s).value, VacuumOf(LiveOf(s).value.vector));
      Knowledge(header, header, false)
    else if e.ResumeEvent? && s.phase.Saving? then n.(lost := n.newest.Signalled?)
    else n
  }

  ghost function KnowledgeAfter(s: State, es: seq<Event>): Knowledge
    requires Steady(s)
  {
    if es == [] then NOTHING
    else NextKnowledge(Run(s, es[..|es| - 1]), es[|es| - 1], KnowledgeAfter(s, es[..|es| - 1]))
  }

  /** A render filed by this event has a hash other than the cached one. */
  ghost predicate BringsNewHash(s: State, e: Event) {
    FilesRender(s, e) ==> Writes(s.c, LiveOf(s), ActiveOf(s))
  }

  ghost predicate AllNewHashes(s: State, es: seq<Event>)
    requires Steady(s)
  {
    es == [] || (AllNewHashes(s, es[..|es| - 1]) && BringsNewHash(Run(s, es[..|es| - 1]), es[|es| - 1]))
  }

  ghost predicate HeaderCached(c: Core, n: News) {
    n.Header? && n.id in c.cache ==> VacuumOf(c.cache[n.id].vector) == n.vacuum
  }

  /** What the code works with: the newest news, or after a loss the header filed last */
  function Kept(n: Knowledge): News { if n.lost then n.filed else n.newest }

  ghost predicate UpToDate(s: State, n: Knowledge) {
    && (n.lost ==> n.newest.Signalled? && n.filed.Header?)
    && (!s.c.loaded ==> n.filed.NoNews? && !n.newest.Header?)
    && (match Kept(n)
        case NoNews => s.c.livePos.None?
        case Signalled(pos) => s.c.livePos == Some(pos)
        case Header(_, _) => (s.phase.Saving? || s.c.livePos.None?) && HeaderCached(s.c, Kept(n)))
    && (s.phase.Saving? ==>
          && !n.lost && n.filed.Header? && n.filed.id == s.phase.id && HeaderCached(s.c, n.filed)
          && !LinkedTo(s.c, s.phase.id) && (n.newest.Signalled? || n.newest == n.filed))
  }

  lemma FrameNews(s: State, pos: Pos, n: Knowledge)
    requires Steady(s) && UpToDate(s, n)
    ensures UpToDate(Next(s, FrameEvent(pos)), NextKnowledge(s, FrameEvent(pos), n))
  {
  }

  lemma PushNews(s: State, png: Image, vp: Val, n: Knowledge)
    requires Steady(s) && UpToDate(s, n)
    ensures UpToDate(Next(s, PushEvent(png, vp)), n)
  {
    PushReady(s.c, png, vp);
    StampKeepsRest(Put(s.c, png, vp));
  }

  lemma DeliverNews(c: Core, metas: seq<Meta>, active: Option<MapId>, n: News)
    requires Ready(c) && c.livePos.None? && HeaderCached(c, n)
    ensures HeaderCached(Deliver(c, metas, active).0, n)
  {
  }

  lemma SettleNews(c: Core, i: CycleIn, active: Option<MapId>, filed: bool, n: News)
    requires Ready(c) && HeaderCached(c, n) && (n.Header? ==> Discarded(c, filed).livePos.None?)
    ensures HeaderCached(Settle(c, i, active, filed).c, n)
  {
    var d := Discarded(c, filed);
    PruneReady(d, i.metas, active);
    PruneKeepsRest(d, i.metas, active);
    if n.Header? {
      PrunedAt(d, i.metas, active, n.id);
      DeliverNews(PruneMaps(d, i.metas, active), i.metas, active, n);
    }
  }

  lemma FileRenderNews(s: State, n: Knowledge)
    requires SoundState(s) && UpToDate(s, n) && BringsNewHash(s, ResumeEvent) && FilesRender(s, ResumeEvent)
    ensures UpToDate(Resume(s), NextKnowledge(s, ResumeEvent, n))
  {
    var i, got, active := s.phase.i, FetchWithRenewal(s.phase.i), ActiveOf(s);
    FiledAt(s.c, i, got.first, got.second, active, active.value);
    FiledKeepsRest(s.c, i, got.first, got.second, active);
  }

  lemma FileNothingNews(s: State, n: Knowledge)
    requires SoundState(s) && UpToDate(s, n) && AtFiling(s) && !FilesRender(s, ResumeEvent)
    ensures UpToDate(Resume(s), n)
  {
    var i, got, active := s.phase.i, FetchWithRenewal(s.phase.i), ActiveOf(s);
    var filed := Filed(s.c, i, got.first, got.second, active);
    FiledReady(s.c, i, got.first, got.second, active);
    FiledKeepsRest(s.c, i, got.first, got.second, active);
    SettleNothingNews(filed, i, active, n);
    NextReady(s, ResumeEvent);
  }

  lemma SettleNothingNews(c: Core, i: CycleIn, active: Option<MapId>, n: Knowledge)
    requires Ready(c) && c.loaded && c.fetcher && UpToDate(State(c, Fetching(i)), n)
    ensures UpToDate(Settle(c, i, active, false), n)
  {
    SettleNews(c, i, active, false, Kept(n));
    SettleKeepsRest(c, i, active, false);
    SettleReady(c, i, active, false);
  }

  lemma ResumeNews(s: State, n: Knowledge)
    requires SoundState(s) && UpToDate(s, n) && BringsNewHash(s, ResumeEvent)
    ensures UpToDate(Resume(s), NextKnowledge(s, ResumeEvent, n))
  {
    NextReady(s, ResumeEvent);
    match s.phase
    case Resting(_) =>
    case Fetching(i) =>
      if FilesRender(s, ResumeEvent) {
        FileRenderNews(s, n);
      } else if AtFiling(s) {
        FileNothingNews(s, n);
      }
    case Saving(i, id) => SavedNews(s, n);
    case Pruning(i, active) => PrunedNews(s, n);
  }

  lemma SavedNews(s: State, n: Knowledge)
    requires SoundState(s) && UpToDate(s, n) && s.phase.Saving?
    ensures UpToDate(Resume(s), n.(lost := n.newest.Signalled?))
  {
    var i, id := s.phase.i, s.phase.id;
    SettleNews(s.c, i, Some(id), true, n.filed);
    SettleKeepsRest(s.c, i, Some(id), true);
    SettleReady(s.c, i, Some(id), true);
  }

  lemma PrunedNews(s: State, n: Knowledge)
    requires SoundState(s) && UpToDate(s, n) && s.phase.Pruning?
    ensures UpToDate(Resume(s), n)
  {
    var i, active := s.phase.i, s.phase.active;
    DeliverKeepsRest(s.c, i.metas, active);
    if Kept(n).Header? {
      DeliverNews(s.c, i.metas, active, Kept(n));
    }
    ResumeReady(s);
  }

  lemma BeginNews(s: State, i: CycleIn, n: Knowledge)
    requires Steady(s) && UpToDate(s, n)
    ensures UpToDate(Next(s, CycleEvent(i)), n)
  {
  }

  lemma NextNews(s: State, e: Event, n: Knowledge)
    requires SoundState(s) && UpToDate(s, n) && BringsNewHash(s, e)
    ensures UpToDate(Next(s, e), NextKnowledge(s, e, n))
  {
    match e
    case CycleEvent(i) => BeginNews(s, i, n);
    case ResumeEvent => ResumeNews(s, n);
    case FrameEvent(pos) => FrameNews(s, pos, n);
    case PushEvent(png, vp) => PushNews(s, png, vp, n);
    case SignalEvent(_) =>
  }

  /**
   Along every run whose filed renders all bring a new hash, the code works with the newest news,
   except after a frame that came during a save: then with the header filed last.
   */
  lemma {:induction false} NewsStaysUpToDate(s: State, es: seq<Event>)
    requires Start(s) && AllNewHashes(s, es)
    ensures UpToDate(Run(s, es), KnowledgeAfter(s, es))
  {
    if es != [] {
      var front := es[..|es| - 1];
      NewsStaysUpToDate(s, front);
      PayloadAlwaysOk(s, front);
      NextNews(Run(s, front), es[|es| - 1], KnowledgeAfter(s, front));
    }
  }

  /** The event refreshes the payload: the part of a cycle that serves, or a push while there is a fetcher. */
  ghost predicate Refreshes(s: State, e: Event)
    requires Steady(s)
  {
    || (e.ResumeEvent? && !s.phase.Resting? && Resume(s).phase == Resting(Some(Ok)))
    || (e.PushEvent? && s.c.fetcher && s.c.data.Some?)
  }

  /** The payload shows the pending position, if there is one. */
  ghost predicate ShowsPending(c: Core) {
    c.units != 0.0 && c.data.Some?
    && (c.livePos.Some? ==> VacuumOf(c.data.value.vector) == Some(PoseOf(c.livePos.value, c.units)))
  }

  lemma StampShows(c: Core)
    requires Ready(c) && c.fetcher && c.data.Some?
    ensures ShowsPending(Stamp(c))
  {
    StampKeepsRest(c);
  }

  lemma ServeShows(c: Core, i: CycleIn, active: Option<MapId>)
    requires Ready(c) && c.fetcher && Serve(c, i, active).phase == Resting(Some(Ok))
    ensures ShowsPending(Serve(c, i, active).c)
  {
    StampShows(Present(c, active.value, i.metas));
  }

  lemma SettleShows(c: Core, i: CycleIn, active: Option<MapId>, filed: bool)
    requires Ready(c) && c.fetcher && Settle(c, i, active, filed).phase == Resting(Some(Ok))
    ensures ShowsPending(Settle(c, i, active, filed).c)
  {
    var d := Discarded(c, filed);
    PruneReady(d, i.metas, active);
    PruneKeepsRest(d, i.metas, active);
    ServeShows(PruneMaps(d, i.metas, active), i, active);
  }

  lemma RefreshShows(s: State, e: Event)
    requires Steady(s) && Refreshes(s, e)
    ensures ShowsPending(Next(s, e).c)
  {
    if e.PushEvent? {
      PushReady(s.c, e.png, e.vacuumPosition);
      StampShows(Put(s.c, e.png, e.vacuumPosition));
    } else {
      match s.phase
      case Fetching(i) =>
        var got := FetchWithRenewal(i);
        FiledReady(s.c, i, got.first, got.second, ActiveOf(s));
        FiledKeepsRest(s.c, i, got.first, got.second, ActiveOf(s));
        SettleShows(Filed(s.c, i, got.first, got.second, ActiveOf(s)), i, ActiveOf(s),
                    LiveOf(s).Some? && ActiveOf(s).Some?);
      case Saving(i, id) => SettleShows(s.c, i, Some(id), true);
      case Pruning(i, active) => ServeShows(s.c, i, active);
    }
  }

  /**
   The newest position wins, with one exact exception. After any run whose filed renders all
   brought a new hash, a payload just refreshed shows the last frame's position if that came last,
   and the last filed header of its map if that did; but when the last frame came during a save
   that is over, the payload of the map then filed shows it only if the header is in the same place.
   */
  lemma NewestPositionWins(s: State, es: seq<Event>)
    requires Start(s) && es != [] && AllNewHashes(s, es)
    requires Refreshes(Run(s, es[..|es| - 1]), es[|es| - 1])
    ensures var c, n := Run(s, es).c, KnowledgeAfter(s, es);
      c.data.Some? &&
      var shown := VacuumOf(c.data.value.vector);
      && c.data.value.mapId in c.data.value.pages && VacuumOf(c.data.value.pages[c.data.value.mapId]) == shown
      && (!n.lost && n.newest.Signalled? ==> ShowsAt(shown, n.newest.pos, s.c.units))
      && (!n.lost && n.newest.Header? && LinkedTo(c, n.newest.id) ==> shown == n.newest.vacuum)
      && (n.lost ==> n.newest.Signalled? && n.filed.Header?)
      && (n.lost && LinkedTo(c, n.filed.id) ==>
            (ShowsAt(shown, n.newest.pos, s.c.units) <==> ShowsAt(n.filed.vacuum, n.newest.pos, s.c.units)))
  {
    NewsStaysUpToDate(s, es);
    PayloadAlwaysOk(s, es);
    RunKeepsUnits(s, es);
    RefreshShows(Run(s, es[..|es| - 1]), es[|es| - 1]);
    var c, n := Run(s, es).c, KnowledgeAfter(s, es);
    assert PageOk(c.data.value, c.data.value.mapId);
    if n.newest.Signalled? {
      ShowsIs(VacuumOf(c.data.value.vector), n.newest.pos, s.c.units);
      if n.filed.Header? {
        ShowsIs(n.filed.vacuum, n.newest.pos, s.c.units);
      }
    }
  }

  // ---- two runs from a fresh start

  /** A dreame-like profile: no map list, and an empty cache file */
  function Fresh(): State {
    State(Core(false, 1.0, Some(map[]), false, false, map[], {}, None, None, [], None, None), Resting(None))
  }

  function Header0(): Val { Pose(0.0, 0.0, 0) }

  function Render0(): Decode {
    Decode(None, Image(""), map[], map["vacuum" := Header0()], Hash("h"))
  }

  /** A docked cycle whose first slot holds the render */
  function Cycle0(): CycleIn {
    CycleIn(None, Built, [], (Rendered(Render0()), Undecodable), NotRenewed, (Undecodable, Undecodable), 1.0)
  }

  lemma Cycle0Files(s: State)
    requires Steady(s) && !s.c.hasMapList && s.phase == Fetching(Cycle0())
    ensures AtFiling(s) && ActiveOf(s) == Some(SINGLE_MAP_ID) && LiveOf(s) == Some(Render0())
  {
    assert FetchWithRenewal(Cycle0()) == Got(Some(Render0()), None);
    var decoded := Decoded(Some(Render0()), None);
    assert decoded == [Render0()];
    assert BlobId(decoded[1..]).None? && BlobId(decoded).None?;
  }

  lemma RunOneMore(s: State, es: seq<Event>, e: Event)
    requires Steady(s)
    ensures Run(s, es + [e]) == Next(Run(s, es), e)
  {
    assert (es + [e])[..|es|] == es;
  }

  /** The first cycle up to where its upsert is being saved */
  lemma FirstSave() returns (es: seq<Event>, saving: State)
    ensures Start(Fresh()) && saving == Run(Fresh(), es) && SoundState(saving)
    ensures saving.phase == Saving(Cycle0(), SINGLE_MAP_ID) && saving.c.livePos.None? && saving.c.fetcher
    ensures !saving.c.hasMapList && saving.c.units == 1.0 && saving.c.loaded
    ensures saving.c.cache == map[SINGLE_MAP_ID := EntryFor(SINGLE_MAP_ID, Render0(), 1.0)]
  {
    var started := [CycleEvent(Cycle0())];
    RunOneMore(Fresh(), [], CycleEvent(Cycle0()));
    assert [] + started == started;
    var fetching := Run(Fresh(), started);
    Cycle0Files(fetching);
    es := started + [ResumeEvent];
    RunOneMore(Fresh(), started, ResumeEvent);
    saving := Run(Fresh(), es);
    PayloadAlwaysOk(Fresh(), es);
  }

  /** With the one map cached, settling goes on to serve it at once. */
  lemma SettlesAtOnce(c: Core, filed: bool)
    requires Ready(c) && c.fetcher && !c.hasMapList && c.cache.Keys == {SINGLE_MAP_ID}
    ensures var t := Settle(c, Cycle0(), Some(SINGLE_MAP_ID), filed);
      t.phase == Resting(Some(Ok)) && LinkedTo(t.c, SINGLE_MAP_ID)
  {
    var d := Discarded(c, filed);
    PruneReady(d, [], Some(SINGLE_MAP_ID));
    assert PruneMaps(d, [], Some(SINGLE_MAP_ID)).cache.Keys == d.cache.Keys;
  }

  /**
   A run in which the newest position loses: the only frame, at (7, 0), comes while the first
   render is being saved, and the payload then served shows the header's (0, 0).
   */
  lemma LostFrameExample() returns (es: seq<Event>)
    ensures Start(Fresh()) && var t := Run(Fresh(), es);
      t.phase == Resting(Some(Ok)) && t.c.data.Some? && VacuumOf(t.c.data.value.vector) == Some(Header0())
    ensures LastFrame(es) == Some((7, 0, 0)) && !ShowsAt(Some(Header0()), (7, 0, 0), 1.0)
  {
    var front, saving := FirstSave();
    var frame := FrameEvent((7, 0, 0));
    RunOneMore(Fresh(), front, frame);
    var late := Run(Fresh(), front + [frame]);
    RunOneMore(Fresh(), front + [frame], ResumeEvent);
    SettleCarries(late.c, Cycle0(), SINGLE_MAP_ID, Some(Header0()));
    SettlesAtOnce(late.c, true);
    es := front + [frame] + [ResumeEvent];
    assert es[..|es| - 1] == front + [frame];
  }

  /** The first cycle, all of it */
  lemma FirstServed() returns (es: seq<Event>, served: State)
    ensures Start(Fresh()) && served == Run(Fresh(), es) && SoundState(served)
    ensures served.phase == Resting(Some(Ok)) && served.c.fetcher && served.c.loaded
    ensures !served.c.hasMapList && served.c.units == 1.0 && LinkedTo(served.c, SINGLE_MAP_ID)
    ensures served.c.cache.Keys == {SINGLE_MAP_ID} && served.c.cache[SINGLE_MAP_ID].hash == Hash("h")
  {
    var front, saving := FirstSave();
    RunOneMore(Fresh(), front, ResumeEvent);
    es := front + [ResumeEvent];
    served := Run(Fresh(), es);
    SettlesAtOnce(saving.c, true);
    SettleAt(saving.c, Cycle0(), Some(SINGLE_MAP_ID), true, SINGLE_MAP_ID);
    PayloadAlwaysOk(Fresh(), es);
    SettleToOne(saving.c, Cycle0(), true, SINGLE_MAP_ID);
    SettleKeepsRest(saving.c, Cycle0(), Some(SINGLE_MAP_ID), true);
  }

  /** A frame and a push stamp the cache entry that the payload shares, and leave its hash. */
  lemma PushStamps(s: State, pos: Pos, png: Image, vp: Val)
    requires SoundState(s) && s.phase.Resting? && s.c.fetcher && LinkedTo(s.c, SINGLE_MAP_ID)
    ensures var t := Next(Next(s, FrameEvent(pos)), PushEvent(png, vp));
      && SoundState(t) && t.phase.Resting? && t.c.fetcher && t.c.cache.Keys == s.c.cache.Keys
      && SINGLE_MAP_ID in t.c.cache && t.c.cache[SINGLE_MAP_ID].hash == s.c.cache[SINGLE_MAP_ID].hash
      && VacuumOf(t.c.cache[SINGLE_MAP_ID].vector) == Some(PoseOf(pos, s.c.units))
  {
    var framed := Next(s, FrameEvent(pos));
    NextSound(s, FrameEvent(pos));
    LiveTouches(framed, PushEvent(png, vp));
    var put := Put(framed.c, png, vp);
    PushReady(framed.c, png, vp);
    StampKeepsRest(put);
    StampShows(put);
  }

  /** The first cycle, a frame, and a push that stamps the cached vector */
  lemma FirstStamped() returns (es: seq<Event>, stamped: State)
    ensures Start(Fresh()) && stamped == Run(Fresh(), es) && SoundState(stamped)
    ensures stamped.phase.Resting? && stamped.c.fetcher && stamped.c.loaded && !stamped.c.hasMapList
    ensures stamped.c.cache.Keys == {SINGLE_MAP_ID} && stamped.c.cache[SINGLE_MAP_ID].hash == Hash("h")
    ensures VacuumOf(stamped.c.cache[SINGLE_MAP_ID].vector) == Some(Pose(1.0, 0.0, 0))
  {
    var front, served := FirstServed();
    var frame, push := FrameEvent((1, 0, 0)), PushEvent(Image(""), Null);
    RunOneMore(Fresh(), front, frame);
    RunOneMore(Fresh(), front + [frame], push);
    PushStamps(served, (1, 0, 0), Image(""), Null);
    NextKeepsRest(served, frame);
    NextReady(served, frame);
    NextKeepsRest(Next(served, frame), push);
    es := front + [frame] + [push];
    stamped := Run(Fresh(), es);
  }

  lemma RefilesSameHash(s: State)
    requires SoundState(s) && s.phase == Fetching(Cycle0()) && !s.c.hasMapList
    requires s.c.cache.Keys == {SINGLE_MAP_ID} && s.c.cache[SINGLE_MAP_ID].hash == Hash("h")
    ensures var t := Resume(s);
      && t.phase == Resting(Some(Ok)) && t.c.livePos.None? && t.c.data.Some?
      && VacuumOf(t.c.data.value.vector) == VacuumOf(s.c.cache[SINGLE_MAP_ID].vector)
  {
    Cycle0Files(s);
    FileCarries(s, SINGLE_MAP_ID);
    var k := SINGLE_MAP_ID;
    FiledReady(s.c, Cycle0(), Some(Render0()), None, Some(k));
    FiledAt(s.c, Cycle0(), Some(Render0()), None, Some(k), k);
    FiledKeepsRest(s.c, Cycle0(), Some(Render0()), None, Some(k));
    SettlesAtOnce(Filed(s.c, Cycle0(), Some(Render0()), None, Some(k)), true);
  }

  /**
   A run in which the same render comes twice, and the second time the payload shows the position
   stamped over it in between instead of its header's.
   */
  lemma EqualHashExample() returns (es: seq<Event>)
    ensures Start(Fresh()) && es != [] && es[|es| - 1] == ResumeEvent
    ensures var s, t := Run(Fresh(), es[..|es| - 1]), Run(Fresh(), es);
      && AtFiling(s) && LiveOf(s) == Some(Render0()) && t.phase == Resting(Some(Ok)) && t.c.livePos.None?
      && t.c.data.Some? && VacuumOf(t.c.data.value.vector) == Some(Pose(1.0, 0.0, 0)) != Some(Header0())
  {
    var front, stamped := FirstStamped();
    var again := front + [CycleEvent(Cycle0())];
    RunOneMore(Fresh(), front, CycleEvent(Cycle0()));
    var s := Run(Fresh(), again);
    NextSound(stamped, CycleEvent(Cycle0()));
    Cycle0Files(s);
    RefilesSameHash(s);
    RunOneMore(Fresh(), again, ResumeEvent);
    es := again + [ResumeEvent];
    assert es[..|es| - 1] == again;
  }
}
