/**
 What the steps of a fetch cycle do, said by what comes in: the outcomes of the two slots, the map
 list read, the vacuum's status and the renders fetched.
 */
module CycleSteps {
  import opened Options
  import opened MapStore
  import opened ActiveMap
  import opened MapProtocol
  import opened MapRuns

  // ---- the two slots

  type Tries = (SlotOutcome, SlotOutcome)

  /** No slot has a url: what tells a dead session from a missing object */
  predicate BothMissing(t: Tries) { t.0 == NoUrl && t.1 == NoUrl }

  /** The first slot that fails outright, if one does, crashed. */
  predicate Crashes(t: Tries) {
    t.0 == Crashed || (t.0 != Unreachable && t.1 == Crashed)
  }

  /** The first slot that fails outright, if one does, was not reached. */
  predicate Unreached(t: Tries) {
    t.0 == Unreachable || (t.0 != Crashed && t.1 == Unreachable)
  }

  predicate Answered(t: Tries) { !Crashes(t) && !Unreached(t) && !BothMissing(t) }

  /** The slot yields a render exactly when it was rendered, and that one. */
  ghost predicate Yields(o: SlotOutcome, r: Option<Decode>) {
    forall d :: r == Some(d) <==> o == Rendered(d)
  }

  ghost predicate YieldBoth(t: Tries, a: Option<Decode>, b: Option<Decode>) {
    Answered(t) && Yields(t.0, a) && Yields(t.1, b)
  }

  /** A session is expired only when no slot had a url; else the first failure decides, or each slot yields its own. */
  lemma TwoSlots(t: Tries)
    ensures var f := FetchSlots(t.0, t.1);
      && (f == AllExpired <==> BothMissing(t))
      && (f == FetchCrash <==> Crashes(t))
      && (f == CloudDown <==> Unreached(t))
      && forall a, b :: f == Slots(a, b) <==> YieldBoth(t, a, b)
  {
    forall a, b ensures FetchSlots(t.0, t.1) == Slots(a, b) <==> YieldBoth(t, a, b) {
      OwnYield(t.0, a);
      OwnYield(t.1, b);
    }
  }

  lemma OwnYield(o: SlotOutcome, r: Option<Decode>)
    ensures Yields(o, r) <==> r == Result(o)
  {
    if r.Some? {
      assert Yields(o, r) ==> (r == Some(r.value) <==> o == Rendered(r.value));
    }
    if o.Rendered? {
      assert Yields(o, r) ==> (r == Some(o.d) <==> o == Rendered(o.d));
    }
  }

  /** The cycle fetches these renders, at once or after its session was renewed. */
  ghost predicate Fetches(i: CycleIn, a: Option<Decode>, b: Option<Decode>) {
    || YieldBoth(i.tries, a, b)
    || (BothMissing(i.tries) && i.renewal == Renewed && YieldBoth(i.retries, a, b))
  }

  /** Somewhere in its fetch the cycle meets an error nobody expects. */
  predicate FetchCrashes(i: CycleIn) {
    || Crashes(i.tries)
    || (BothMissing(i.tries) && (i.renewal == RenewCrashed || (i.renewal == Renewed && Crashes(i.retries))))
  }

  /**
   A fetch either yields renders, or ends the cycle: asking for new credentials exactly when both
   slots had no url and the session could not be renewed, and losing the fetcher exactly on a crash.
   */
  lemma FetchEnds(i: CycleIn)
    ensures forall a, b :: FetchWithRenewal(i) == Got(a, b) <==> Fetches(i, a, b)
    ensures var f := FetchWithRenewal(i);
      f.Gone? ==>
        && (f.outcome == AuthFailed <==> BothMissing(i.tries) && i.renewal == NotRenewed)
        && (f.outcome == AuthFailed || f.outcome == UpdateFailed)
        && (f.keepFetcher <==> !FetchCrashes(i))
  {
    TwoSlots(i.tries);
    TwoSlots(i.retries);
  }

  /** The step that fetches: what it ends the cycle with, and that it changes nothing else then. */
  lemma FetchStep(s: State)
    requires Steady(s) && s.phase.Fetching?
    ensures var i, t := s.phase.i, Next(s, ResumeEvent);
      && (AtFiling(s) <==> exists a, b :: Fetches(i, a, b))
      && (!AtFiling(s) && BothMissing(i.tries) && i.renewal == NotRenewed ==> t.phase == Resting(Some(AuthFailed)))
      && (!AtFiling(s) && !(BothMissing(i.tries) && i.renewal == NotRenewed) ==>
            t.phase == Resting(Some(UpdateFailed)))
      && (!AtFiling(s) ==> t.c == s.c.(fetcher := !FetchCrashes(i)))
  {
    FetchEnds(s.phase.i);
    if AtFiling(s) {
      var got := FetchWithRenewal(s.phase.i);
      assert Fetches(s.phase.i, got.first, got.second);
    }
  }

  /** A second fetch without a url, right after a renewal, is no matter of credentials. */
  lemma NothingToServeYet(s: State)
    requires Steady(s) && s.phase.Fetching?
    requires BothMissing(s.phase.i.tries) && s.phase.i.renewal == Renewed && BothMissing(s.phase.i.retries)
    ensures Next(s, ResumeEvent) == State(s.c, Resting(Some(UpdateFailed)))
  {
  }

  // ---- the start of a cycle

  /** A cycle starts with this: a fetcher there or built, and a cache read or readable. */
  predicate Begins(s: State, i: CycleIn) {
    && s.phase.Resting?
    && (s.c.fetcher || i.build == Built)
    && (s.c.loaded || s.c.stored.Some?)
  }

  /** A cycle either begins, with the cache read the first time, or fails and has no fetcher. */
  lemma BeginStep(s: State, i: CycleIn)
    requires Steady(s) && s.phase.Resting?
    ensures var t := Next(s, CycleEvent(i));
      && (Begins(s, i) ==> t.phase == Fetching(i) && t.c.fetcher && t.c.loaded)
      && (Begins(s, i) && s.c.loaded ==> t.c.cache == s.c.cache)
      && (Begins(s, i) && !s.c.loaded ==> t.c.cache == s.c.stored.value)
      && (!Begins(s, i) ==> t == State(s.c.(fetcher := false), Resting(Some(UpdateFailed))))
  {
  }

  // ---- a whole cycle

  /** The cycle is under way, or has ended with this being true of its end. */
  ghost predicate AuthCourse(s: State, i: CycleIn) {
    match s.phase
    case Fetching(j) => j == i
    case Saving(j, _) => j == i && !(BothMissing(i.tries) && i.renewal == NotRenewed)
    case Pruning(j, _) => j == i && !(BothMissing(i.tries) && i.renewal == NotRenewed)
    case Resting(last) => last == Some(AuthFailed) <==> BothMissing(i.tries) && i.renewal == NotRenewed
  }

  lemma SettleNoAuth(c: Core, i: CycleIn, active: Option<MapId>, filed: bool)
    requires Ready(c) && !(BothMissing(i.tries) && i.renewal == NotRenewed)
    ensures AuthCourse(Settle(c, i, active, filed), i)
  {
  }

  lemma AuthStep(s: State, e: Event, i: CycleIn)
    requires Steady(s) && !e.CycleEvent? && AuthCourse(s, i)
    ensures AuthCourse(Next(s, e), i)
  {
    if e.ResumeEvent? {
      match s.phase
      case Resting(_) =>
      case Fetching(_) =>
        FetchStep(s);
        if AtFiling(s) {
          FetchEnds(i);
          var got := FetchWithRenewal(i);
          FiledReady(s.c, i, got.first, got.second, ActiveOf(s));
          SettleNoAuth(Filed(s.c, i, got.first, got.second, ActiveOf(s)), i, ActiveOf(s),
                       LiveOf(s).Some? && ActiveOf(s).Some?);
        }
      case Saving(_, id) => SettleNoAuth(s.c, i, Some(id), true);
      case Pruning(_, _) =>
    }
  }

  lemma {:induction false} AuthKept(s: State, es: seq<Event>, i: CycleIn)
    requires Steady(s) && NoStarts(es) && AuthCourse(s, i)
    ensures AuthCourse(Run(s, es), i)
  {
    if es != [] {
      NoStartsBefore(es);
      AuthKept(s, es[..|es| - 1], i);
      AuthStep(Run(s, es[..|es| - 1]), es[|es| - 1], i);
    }
  }

  lemma NoStartsBefore(es: seq<Event>)
    requires NoStarts(es) && es != []
    ensures NoStarts(es[..|es| - 1]) && !es[|es| - 1].CycleEvent?
  {
  }

  /**
   A whole cycle, whatever comes in between, ends asking for new credentials exactly when both
   slots had no url and the session could not be renewed.
   */
  lemma AuthOnlyIfRefused(s: State, i: CycleIn, es: seq<Event>)
    requires Steady(s) && Begins(s, i) && NoStarts(es) && Run(s, [CycleEvent(i)] + es).phase.Resting?
    ensures Run(s, [CycleEvent(i)] + es).phase == Resting(Some(AuthFailed)) <==>
            BothMissing(i.tries) && i.renewal == NotRenewed
  {
    RunAppend(s, [CycleEvent(i)], es);
    BeginReady(s, i);
    assert Run(s, []) == s && [CycleEvent(i)][..0] == [];
    assert Run(s, [CycleEvent(i)]) == Next(s, CycleEvent(i));
    BeginStep(s, i);
    AuthKept(Next(s, CycleEvent(i)), es, i);
  }

  // ---- which map, and which render is filed

  /** The id the cycle resolves to, by the order of trust */
  ghost predicate TrustedId(c: Core, i: CycleIn, a: Option<Decode>, b: Option<Decode>, id: Option<MapId>) {
    if a.Some? && a.value.mapId.Some? then id == a.value.mapId
    else if b.Some? && b.value.mapId.Some? then id == b.value.mapId
    else if exists k :: ListsCurrent(i.metas, k) then id.Some? && ListsCurrent(i.metas, id.value)
    else if c.hasMapList then id == c.mqttId
    else id == if i.metas == [] then Some(MapId(0)) else None
  }

  lemma ActiveIsTrusted(c: Core, i: CycleIn, a: Option<Decode>, b: Option<Decode>)
    ensures TrustedId(c, i, a, b, Active(c, i, a, b))
  {
    var decoded := Decoded(a, b);
    OrderOfTrust(decoded, i.metas, c.mqttId, c.hasMapList);
    if a.Some? && a.value.mapId.Some? {
      assert FirstWithId(decoded, 0);
    } else if b.Some? && b.value.mapId.Some? {
      assert FirstWithId(decoded, if a.Some? then 1 else 0);
    } else {
      assert NoIds(decoded);
    }
  }

  /** The vacuum is not moving, or nothing is known of it. */
  predicate AtRest(status: Option<Activity>) {
    status == None || status == Some(Docked) || status == Some(Idle)
  }

  /** The render to file under k: slot 0's, or slot 1's unless k was filed from slot 0 during this clean */
  predicate FilesAs(c: Core, i: CycleIn, a: Option<Decode>, b: Option<Decode>, k: MapId, d: Decode) {
    if a.Some? then d == a.value else b == Some(d) && (AtRest(i.status) || k !in c.slot0)
  }

  lemma LiveIsFiled(c: Core, i: CycleIn, a: Option<Decode>, b: Option<Decode>, k: MapId)
    ensures forall d :: Live(c, i, a, b, Some(k)) == Some(d) <==> FilesAs(c, i, a, b, k, d)
  {
  }

  /** The entry is made of the render, under its id and with its time. */
  ghost predicate MadeOf(e: Entry, k: MapId, d: Decode, now: real) {
    && e.mapHeadId == k && e.png == d.png && e.attributes == d.attributes && e.vector == d.vector
    && e.hash == d.hash && e.timestamp == now
  }

  /**
   The step that files a render with a new hash waits for the file with exactly that entry made anew,
   and the map marked as filed from slot 0 when the render is slot 0's and the vacuum is on its way.
   */
  lemma FilingStep(s: State, a: Option<Decode>, b: Option<Decode>, k: MapId, d: Decode)
    requires Steady(s) && s.phase.Fetching? && Fetches(s.phase.i, a, b)
    requires TrustedId(s.c, s.phase.i, a, b, Some(k)) && FilesAs(s.c, s.phase.i, a, b, k, d)
    requires k in s.c.cache ==> s.c.cache[k].hash != d.hash
    ensures var i, t := s.phase.i, Next(s, ResumeEvent);
      && t.phase == Saving(i, k) && t.c.lastLiveAt == Some(i.now)
      && t.c.cache.Keys == s.c.cache.Keys + {k} && MadeOf(t.c.cache[k], k, d, i.now)
      && (forall j :: j in s.c.cache && j != k ==> t.c.cache[j] == s.c.cache[j])
      && t.c.slot0 == (if AtRest(i.status) then {} else if a.Some? then s.c.slot0 + {k} else s.c.slot0)
  {
    var i := s.phase.i;
    FetchedAndFiled(s, a, b, k, d);
    assert Writes(s.c, LiveOf(s), Some(k));
    FiledNew(s.c, i, a, b, k, d);
  }

  lemma FetchedAndFiled(s: State, a: Option<Decode>, b: Option<Decode>, k: MapId, d: Decode)
    requires s.phase.Fetching? && Fetches(s.phase.i, a, b)
    requires TrustedId(s.c, s.phase.i, a, b, Some(k)) && FilesAs(s.c, s.phase.i, a, b, k, d)
    ensures FetchWithRenewal(s.phase.i) == Got(a, b) && ActiveOf(s) == Some(k) && LiveOf(s) == Some(d)
  {
    FetchEnds(s.phase.i);
    OneTrusted(s.c, s.phase.i, a, b, k);
    LiveIsFiled(s.c, s.phase.i, a, b, k);
  }

  lemma FiledNew(c: Core, i: CycleIn, a: Option<Decode>, b: Option<Decode>, k: MapId, d: Decode)
    requires Live(c, i, a, b, Some(k)) == Some(d) && (k in c.cache ==> c.cache[k].hash != d.hash)
    ensures var f := Filed(c, i, a, b, Some(k));
      && f.lastLiveAt == Some(i.now) && f.cache.Keys == c.cache.Keys + {k} && MadeOf(f.cache[k], k, d, i.now)
      && (forall j :: j in c.cache && j != k ==> f.cache[j] == c.cache[j])
      && f.slot0 == (if AtRest(i.status) then {} else if a.Some? then c.slot0 + {k} else c.slot0)
  {
  }

  /** A render whose hash is cached is filed without a change: no file is written, and the entry stays as it was. */
  lemma RefilingStep(s: State, a: Option<Decode>, b: Option<Decode>, k: MapId, d: Decode)
    requires SoundState(s) && s.phase.Fetching? && Fetches(s.phase.i, a, b)
    requires TrustedId(s.c, s.phase.i, a, b, Some(k)) && FilesAs(s.c, s.phase.i, a, b, k, d)
    requires k in s.c.cache && s.c.cache[k].hash == d.hash
    ensures var t := Next(s, ResumeEvent);
      && !t.phase.Saving? && t.c.livePos.None?
      && forall j :: j in t.c.cache ==> j in s.c.cache && SameMap(s.c.cache[j], t.c.cache[j])
  {
    var i, t := s.phase.i, Next(s, ResumeEvent);
    FetchedAndFiled(s, a, b, k, d);
    forall j | j in t.c.cache ensures j in s.c.cache && SameMap(s.c.cache[j], t.c.cache[j]) {
      NextAt(s, ResumeEvent, j);
      FiledAt(s.c, i, a, b, Some(k), j);
    }
    FiledReady(s.c, i, a, b, Some(k));
    SettleKeepsRest(Filed(s.c, i, a, b, Some(k)), i, Some(k), true);
  }

  lemma OneTrusted(c: Core, i: CycleIn, a: Option<Decode>, b: Option<Decode>, k: MapId)
    requires TrustedId(c, i, a, b, Some(k))
    ensures Active(c, i, a, b) == Some(k)
  {
    ActiveIsTrusted(c, i, a, b);
    var active := Active(c, i, a, b);
    if active.Some? && ListsCurrent(i.metas, k) && ListsCurrent(i.metas, active.value) {
      OneCurrent(i.metas, k, active.value);
    }
  }

  lemma OneCurrent(metas: seq<Meta>, j: MapId, k: MapId)
    requires ListsCurrent(metas, j) && ListsCurrent(metas, k)
    ensures j == k
  {
    var x :| 0 <= x < |metas| && FirstCurrent(metas, x) && metas[x].id == Listed(j);
    var y :| 0 <= y < |metas| && FirstCurrent(metas, y) && metas[y].id == Listed(k);
    assert x == y;
  }
}
