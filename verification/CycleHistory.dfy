/**
 What the coordinator's fields say of its past: after any run each is told by the events alone,
 last signal, last map list, last filing, and the maps filed from slot 0 during the running clean.
 */
module CycleHistory {
  import opened Options
  import opened MapStore
  import opened ActiveMap
  import opened MapProtocol
  import opened MapRuns
  import opened CycleSteps

  // ---- the id signalled last, the list read last, the time of the last filing

  /** The fields that no step after the fetch touches */
  ghost predicate SameWords(c: Core, d: Core) {
    c.mqttId == d.mqttId && c.mapList == d.mapList && c.hasMapList == d.hasMapList && c.stored == d.stored
  }

  lemma DeliverKeepsWords(c: Core, metas: seq<Meta>, active: Option<MapId>)
    requires Ready(c)
    ensures SameWords(c, Deliver(c, metas, active).0) && Deliver(c, metas, active).0.lastLiveAt == c.lastLiveAt
  {
  }

  lemma PruneKeepsWords(c: Core, metas: seq<Meta>, active: Option<MapId>)
    ensures SameWords(c, PruneMaps(c, metas, active)) && PruneMaps(c, metas, active).lastLiveAt == c.lastLiveAt
  {
  }

  lemma SettleKeepsWords(c: Core, i: CycleIn, active: Option<MapId>, filed: bool)
    requires Ready(c)
    ensures SameWords(c, Settle(c, i, active, filed).c) && Settle(c, i, active, filed).c.lastLiveAt == c.lastLiveAt
  {
    var d := Discarded(c, filed);
    PruneReady(d, i.metas, active);
    var kept := PruneMaps(d, i.metas, active);
    PruneKeepsWords(d, i.metas, active);
    DeliverKeepsWords(kept, i.metas, active);
    assert SameWords(c, d) && d.lastLiveAt == c.lastLiveAt;
  }

  lemma ResumeKeepsWords(s: State)
    requires Steady(s)
    ensures SameWords(s.c, Resume(s).c)
    ensures Resume(s).c.lastLiveAt == if FilesRender(s, ResumeEvent) then Some(s.phase.i.now) else s.c.lastLiveAt
  {
    match s.phase
    case Resting(_) =>
    case Fetching(i) =>
      if AtFiling(s) {
        var got := FetchWithRenewal(i);
        FiledReady(s.c, i, got.first, got.second, ActiveOf(s));
        SettleKeepsWords(Filed(s.c, i, got.first, got.second, ActiveOf(s)), i, ActiveOf(s),
                         LiveOf(s).Some? && ActiveOf(s).Some?);
      }
    case Saving(i, id) => SettleKeepsWords(s.c, i, Some(id), true);
    case Pruning(i, active) => DeliverKeepsWords(s.c, i.metas, active);
  }

  /** The map id signalled last, of those that convert */
  ghost function LastSignal(before: Option<MapId>, es: seq<Event>): Option<MapId> {
    if es == [] then before
    else if es[|es| - 1].SignalEvent? && es[|es| - 1].id.Some? then es[|es| - 1].id
    else LastSignal(before, es[..|es| - 1])
  }

  /** The last map list that was not empty, read by a cycle that began */
  ghost function LastList(s: State, es: seq<Event>): seq<Meta>
    requires Steady(s)
  {
    if es == [] then s.c.mapList
    else
      var e := es[|es| - 1];
      if e.CycleEvent? && Begins(Run(s, es[..|es| - 1]), e.i) && e.i.metas != [] then e.i.metas
      else LastList(s, es[..|es| - 1])
  }

  /** When a render was filed last */
  ghost function LastFiling(s: State, es: seq<Event>): Option<real>
    requires Steady(s)
  {
    if es == [] then s.c.lastLiveAt
    else
      var before := Run(s, es[..|es| - 1]);
      if FilesRender(before, es[|es| - 1]) then Some(before.phase.i.now) else LastFiling(s, es[..|es| - 1])
  }

  /** After any run the signalled id, the known map list and the time of the last render are the last there were. */
  lemma {:induction false} WordsAreTheLast(s: State, es: seq<Event>)
    requires Steady(s)
    ensures var c := Run(s, es).c;
      c.mqttId == LastSignal(s.c.mqttId, es) && c.mapList == LastList(s, es) && c.lastLiveAt == LastFiling(s, es)
  {
    if es != [] {
      var before, e := Run(s, es[..|es| - 1]), es[|es| - 1];
      WordsAreTheLast(s, es[..|es| - 1]);
      WordsStep(before, e);
    }
  }

  lemma WordsStep(s: State, e: Event)
    requires Steady(s)
    ensures var c := Next(s, e).c;
      && c.mqttId == (if e.SignalEvent? && e.id.Some? then e.id else s.c.mqttId)
      && c.mapList == (if e.CycleEvent? && Begins(s, e.i) && e.i.metas != [] then e.i.metas else s.c.mapList)
      && c.lastLiveAt == (if FilesRender(s, e) then Some(s.phase.i.now) else s.c.lastLiveAt)
  {
    if e.ResumeEvent? {
      ResumeKeepsWords(s);
    }
  }

  // ---- the maps filed from slot 0 during the running clean

  /** The event files while the vacuum is at rest. */
  ghost predicate FilesAtRest(s: State, e: Event) {
    e.ResumeEvent? && AtFiling(s) && AtRest(s.phase.i.status)
  }

  /** Some event of the run filed k from slot 0, and neither it nor a later one filed with the vacuum at rest. */
  ghost predicate FiledInClean(s: State, es: seq<Event>, k: MapId)
    requires Steady(s)
  {
    es != [] &&
    var before, e := Run(s, es[..|es| - 1]), es[|es| - 1];
    !FilesAtRest(before, e) && (FilesSlotZero(before, e, k) || FiledInClean(s, es[..|es| - 1], k))
  }

  ghost predicate RestsAt(s: State, es: seq<Event>, m: nat)
    requires Steady(s)
  {
    m < |es| && FilesAtRest(Run(s, es[..m]), es[m])
  }

  ghost predicate ZeroAt(s: State, es: seq<Event>, m: nat, k: MapId)
    requires Steady(s)
  {
    m < |es| && FilesSlotZero(Run(s, es[..m]), es[m], k)
  }

  /** Event n filed k from slot 0, and no event from there on filed with the vacuum at rest. */
  ghost predicate FiledFrom(s: State, es: seq<Event>, n: nat, k: MapId)
    requires Steady(s)
  {
    ZeroAt(s, es, n, k) && forall m: nat :: n <= m < |es| ==> !RestsAt(s, es, m)
  }

  lemma FrontAt(s: State, es: seq<Event>, m: nat, k: MapId)
    requires Steady(s) && m + 1 < |es|
    ensures RestsAt(s, es[..|es| - 1], m) <==> RestsAt(s, es, m)
    ensures ZeroAt(s, es[..|es| - 1], m, k) <==> ZeroAt(s, es, m, k)
  {
    assert es[..|es| - 1][..m] == es[..m];
  }

  lemma SameRests(s: State, es: seq<Event>, front: seq<Event>, k: MapId)
    requires Steady(s) && es != [] && front == es[..|es| - 1]
    ensures forall m: nat :: m < |front| ==> (RestsAt(s, front, m) <==> RestsAt(s, es, m))
  {
    forall m: nat | m < |front| ensures RestsAt(s, front, m) <==> RestsAt(s, es, m) {
      FrontAt(s, es, m, k);
    }
  }

  lemma FiledFromMore(s: State, es: seq<Event>, n: nat, k: MapId)
    requires Steady(s) && n + 1 < |es|
    ensures FiledFrom(s, es, n, k) <==> FiledFrom(s, es[..|es| - 1], n, k) && !RestsAt(s, es, |es| - 1)
  {
    var front := es[..|es| - 1];
    FrontAt(s, es, n, k);
    SameRests(s, es, front, k);
    assert FiledFrom(s, front, n, k) <==>
           ZeroAt(s, es, n, k) && forall m: nat :: n <= m < |front| ==> !RestsAt(s, es, m);
  }

  /** The same, with the event that filed named */
  lemma {:induction false} FiledInCleanAt(s: State, es: seq<Event>, k: MapId)
    requires Steady(s)
    ensures FiledInClean(s, es, k) <==> exists n: nat :: FiledFrom(s, es, n, k)
  {
    if es != [] {
      var front, last := es[..|es| - 1], |es| - 1;
      FiledInCleanAt(s, front, k);
      LastOrBefore(s, es, front, k);
      if n: nat :| FiledFrom(s, front, n, k) {
        FiledFromMore(s, es, n, k);
      }
    }
  }

  lemma LastOrBefore(s: State, es: seq<Event>, front: seq<Event>, k: MapId)
    requires Steady(s) && es != [] && front == es[..|es| - 1]
    ensures (exists n: nat :: FiledFrom(s, es, n, k)) ==>
      && !RestsAt(s, es, |es| - 1)
      && (ZeroAt(s, es, |es| - 1, k) || exists n: nat :: FiledFrom(s, front, n, k))
    ensures ZeroAt(s, es, |es| - 1, k) && !RestsAt(s, es, |es| - 1) ==> FiledFrom(s, es, |es| - 1, k)
  {
    if n: nat :| FiledFrom(s, es, n, k) {
      if n + 1 < |es| {
        FiledFromMore(s, es, n, k);
      }
    }
  }

  lemma MarkStep(s: State, e: Event, k: MapId)
    requires Steady(s)
    ensures k in Next(s, e).c.slot0 <==> !FilesAtRest(s, e) && (FilesSlotZero(s, e, k) || k in s.c.slot0)
  {
    NextKeepsRest(s, e);
  }

  /** After any run a map is marked exactly when it was filed from slot 0 and the vacuum was not at rest since. */
  lemma {:induction false} MarkedIffFiledInClean(s: State, es: seq<Event>, k: MapId)
    requires Start(s)
    ensures k in Run(s, es).c.slot0 <==> FiledInClean(s, es, k)
    ensures k in Run(s, es).c.slot0 <==> exists n: nat :: FiledFrom(s, es, n, k)
  {
    FiledInCleanAt(s, es, k);
    if es != [] {
      MarkedIffFiledInClean(s, es[..|es| - 1], k);
      MarkStep(Run(s, es[..|es| - 1]), es[|es| - 1], k);
    }
  }

  // ---- a slot-0 render stays for the rest of the clean

  /** No event files with the vacuum at rest, or files k from slot 0 again. */
  ghost predicate CleaningOn(s: State, es: seq<Event>, k: MapId)
    requires Steady(s)
  {
    es == [] ||
    var before, e := Run(s, es[..|es| - 1]), es[|es| - 1];
    CleaningOn(s, es[..|es| - 1], k) && !FilesAtRest(before, e) && !FilesSlotZero(before, e, k)
  }

  lemma {:induction false} CleaningIsSlotOneOnly(s: State, es: seq<Event>, k: MapId)
    requires Steady(s) && CleaningOn(s, es, k)
    ensures SlotOneOnlyRun(s, es, k)
  {
    if es != [] {
      CleaningIsSlotOneOnly(s, es[..|es| - 1], k);
    }
  }

  /**
   Once a cycle files a slot-0 render of k during a clean, then for the rest of that clean, until
   slot 0 renders k again, the cache has k with that render's hash, unless a map list drops it;
   whatever slot 1 renders, and however the parts of cycles, frames and pushes mix.
   */
  lemma SlotZeroRenderStays(s: State, t: State, es: seq<Event>, k: MapId)
    requires SoundState(s) && SoundState(t) && t == Next(s, ResumeEvent)
    requires FilesSlotZero(s, ResumeEvent, k) && !AtRest(s.phase.i.status) && CleaningOn(t, es, k)
    ensures var hash, c := FetchWithRenewal(s.phase.i).first.value.hash, Run(t, es).c;
      && (k in c.cache ==> c.cache[k].hash == hash)
      && (!Drops(s, ResumeEvent, k) && NeverDrops(t, es, k) ==> k in c.cache)
  {
    MarkStep(s, ResumeEvent, k);
    FiledZero(s, k);
    CleaningIsSlotOneOnly(t, es, k);
    SlotZeroSticks(t, es, k);
    if !Drops(s, ResumeEvent, k) && NeverDrops(t, es, k) {
      KnownStep(s, ResumeEvent, k);
      KnownMapStays(t, es, k);
    }
  }

  lemma FiledZero(s: State, k: MapId)
    requires SoundState(s) && FilesSlotZero(s, ResumeEvent, k)
    ensures LiveOf(s) == FetchWithRenewal(s.phase.i).first
    ensures var t := Next(s, ResumeEvent);
      k in t.c.cache ==> t.c.cache[k].hash == FetchWithRenewal(s.phase.i).first.value.hash
  {
    var got := FetchWithRenewal(s.phase.i);
    NextAt(s, ResumeEvent, k);
    FiledAt(s.c, s.phase.i, got.first, got.second, ActiveOf(s), k);
  }
}
