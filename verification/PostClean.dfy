/**
 What the map coordinator does as the vacuum's activity changes: the poll interval follows it, and
 when a clean ends a timer is armed to fetch the finished map once; becoming active again disarms it.
 */
module PostClean {
  import opened Options

  const POST_CLEAN_FETCH_DELAY := 60.0
  const MAP_SCAN_INTERVAL := 30.0
  const MAP_IDLE_INTERVAL := 900.0

  /** A timer: armed since a time, cancelled, or elapsed */
  datatype Timer = Armed(since: real) | Cancelled | Elapsed(since: real, at: real)

  /** The poll interval, the one set for idle times, and how often the pending poll was rescheduled */
  datatype Poll = Poll(interval: real, idleSeconds: real, reschedules: nat)

  /** What the coordinator last saw, the timer it can cancel, and all timers so far */
  datatype State = State(wasActive: bool, cancel: Option<nat>, timers: seq<Timer>, poll: Poll, now: real)

  /** An update of the control data, a new idle interval (applied like one), a cycle's start, a timer, unloading */
  datatype Event =
    | ControlUpdate(active: bool, at: real)
    | SetIdleSeconds(seconds: real, active: bool, at: real)
    | CycleStart(active: bool, at: real)
    | Elapse(k: nat, at: real)
    | Unload(at: real)

  function Start(active: bool): State {
    State(active, None, [], Poll(MAP_IDLE_INTERVAL, MAP_IDLE_INTERVAL, 0), 0.0)
  }

  /** Fast while the vacuum is active, slow otherwise */
  function IntervalFor(active: bool, idleSeconds: real): real {
    if active then MAP_SCAN_INTERVAL else idleSeconds
  }

  function Tuned(p: Poll, active: bool): Poll {
    p.(interval := IntervalFor(active, p.idleSeconds))
  }

  /** A changed interval is applied at once, by rescheduling the pending poll. */
  function Rescheduled(p: Poll, active: bool): Poll {
    var tuned := Tuned(p, active);
    if tuned.interval != p.interval then tuned.(reschedules := p.reschedules + 1) else tuned
  }

  predicate CanElapse(s: State, k: nat, at: real) {
    k < |s.timers| && s.timers[k].Armed? && at >= s.timers[k].since + POST_CLEAN_FETCH_DELAY
  }

  predicate Possible(s: State, e: Event) {
    e.at >= s.now && (e.Elapse? ==> CanElapse(s, e.k, e.at))
  }

  function Disarmed(timers: seq<Timer>, k: Option<nat>): seq<Timer> {
    if k.Some? && k.value < |timers| && timers[k.value].Armed? then timers[k.value := Cancelled] else timers
  }

  function OnUpdate(s: State, active: bool, at: real): State {
    var poll := Rescheduled(s.poll, active);
    if active then State(true, None, Disarmed(s.timers, s.cancel), poll, at)
    else if s.wasActive then State(false, Some(|s.timers|), Disarmed(s.timers, s.cancel) + [Armed(at)], poll, at)
    else s.(poll := poll, now := at)
  }

  function OnElapse(s: State, k: nat, at: real): State
    requires CanElapse(s, k, at)
  {
    s.(cancel := None, timers := s.timers[k := Elapsed(s.timers[k].since, at)], now := at)
  }

  function Step(s: State, e: Event): State
    requires Possible(s, e)
  {
    match e
    case ControlUpdate(active, at) => OnUpdate(s, active, at)
    case SetIdleSeconds(seconds, active, at) => OnUpdate(s.(poll := s.poll.(idleSeconds := seconds)), active, at)
    case CycleStart(active, at) => s.(poll := Tuned(s.poll, active), now := at)
    case Elapse(k, at) => OnElapse(s, k, at)
    case Unload(at) => s.(cancel := None, timers := Disarmed(s.timers, s.cancel), now := at)
  }

  ghost predicate Runs(s: State, es: seq<Event>, t: State)
    decreases |es|
  {
    if es == [] then t == s
    else Possible(s, es[0]) && Runs(Step(s, es[0]), es[1..], t)
  }

  predicate IsUpdate(e: Event) { e.ControlUpdate? || e.SetIdleSeconds? }

  /** The times at which activity, as reported, went from active to idle */
  ghost function Edges(wasActive: bool, es: seq<Event>): seq<real>
    decreases |es|
  {
    if es == [] then []
    else if !IsUpdate(es[0]) then Edges(wasActive, es[1..])
    else (if wasActive && !es[0].active then [es[0].at] else []) + Edges(es[0].active, es[1..])
  }

  ghost predicate Inv(s: State) {
    && (s.cancel.Some? ==> s.cancel.value < |s.timers|)
    && (forall k :: 0 <= k < |s.timers| ==> (s.timers[k].Armed? <==> s.cancel == Some(k)))
    && (s.wasActive ==> s.cancel.None?)
    && (s.cancel.Some? ==> s.cancel.value == |s.timers| - 1)
    && (forall k :: 0 <= k < |s.timers| && s.timers[k].Elapsed? ==>
                      s.timers[k].at >= s.timers[k].since + POST_CLEAN_FETCH_DELAY)
  }

  lemma StepKeepsInv(s: State, e: Event)
    requires Inv(s) && Possible(s, e)
    ensures Inv(Step(s, e))
  {
  }

  /** A timer made for an edge keeps its time until it is cancelled. */
  ghost predicate MadeFor(timer: Timer, edge: real) {
    !timer.Cancelled? ==> timer.since == edge
  }

  /** A step adds a timer for the edge it brings, if any, and touches the others only to end them. */
  lemma StepArmsEdges(s: State, e: Event)
    requires Inv(s) && Possible(s, e)
    ensures |Step(s, e).timers| == |s.timers| + |Edges(s.wasActive, [e])|
    ensures forall k, edge :: 0 <= k < |s.timers| && MadeFor(s.timers[k], edge) ==> MadeFor(Step(s, e).timers[k], edge)
    ensures Edges(s.wasActive, [e]) != [] ==> Step(s, e).timers[|s.timers|] == Armed(Edges(s.wasActive, [e])[0])
  {
  }

  lemma EdgesCons(s: State, e: Event, es: seq<Event>)
    requires Possible(s, e)
    ensures Edges(s.wasActive, [e] + es) == Edges(s.wasActive, [e]) + Edges(Step(s, e).wasActive, es)
  {
    var all := [e] + es;
    assert all[0] == e && all[1..] == es && [e][1..] == [];
    if IsUpdate(e) {
      var first := if s.wasActive && !e.active then [e.at] else [];
      assert Edges(s.wasActive, [e]) == first + Edges(e.active, []) == first;
      assert Edges(s.wasActive, all) == first + Edges(e.active, es);
    } else {
      assert Edges(s.wasActive, [e]) == Edges(s.wasActive, []) == [];
      assert Edges(s.wasActive, all) == Edges(s.wasActive, es) == [] + Edges(s.wasActive, es);
    }
  }

  /** The timers are the old ones and one for each edge of the run, in order. */
  ghost predicate ArmedForEdges(s: State, edges: seq<real>, t: State) {
    && |t.timers| == |s.timers| + |edges|
    && (forall k, edge :: 0 <= k < |s.timers| && MadeFor(s.timers[k], edge) ==> MadeFor(t.timers[k], edge))
    && (forall i :: 0 <= i < |edges| ==> MadeFor(t.timers[|s.timers| + i], edges[i]))
  }

  lemma ArmedFurther(s: State, first: seq<real>, m: State, rest: seq<real>, t: State)
    requires ArmedForEdges(s, first, m) && ArmedForEdges(m, rest, t)
    ensures ArmedForEdges(s, first + rest, t)
  {
  }

  lemma {:induction false} RunArmsEdges(s: State, es: seq<Event>, t: State)
    requires Inv(s) && Runs(s, es, t)
    ensures Inv(t) && ArmedForEdges(s, Edges(s.wasActive, es), t)
    decreases |es|
  {
    if es != [] {
      var m := Step(s, es[0]);
      StepKeepsInv(s, es[0]);
      StepArmsEdges(s, es[0]);
      assert ArmedForEdges(s, Edges(s.wasActive, [es[0]]), m);
      RunArmsEdges(m, es[1..], t);
      ArmedFurther(s, Edges(s.wasActive, [es[0]]), m, Edges(m.wasActive, es[1..]), t);
      EdgesCons(s, es[0], es[1..]);
      assert es == [es[0]] + es[1..];
    }
  }

  /**
   On any run the timers are, one for one and in order, those of the active-to-idle edges; at
   most one is armed, the last, and none while the last seen activity was active; and one that
   elapsed did so no sooner than the delay after its edge.
   */
  lemma OneTimerPerClean(active: bool, es: seq<Event>, t: State)
    requires Runs(Start(active), es, t)
    ensures |t.timers| == |Edges(active, es)|
    ensures forall k :: 0 <= k < |t.timers| && !t.timers[k].Cancelled? ==> t.timers[k].since == Edges(active, es)[k]
    ensures forall k :: 0 <= k < |t.timers| && t.timers[k].Armed? ==> k == |t.timers| - 1 && !t.wasActive
    ensures forall k :: 0 <= k < |t.timers| && t.timers[k].Elapsed? ==>
                          t.timers[k].at >= t.timers[k].since + POST_CLEAN_FETCH_DELAY
  {
    RunArmsEdges(Start(active), es, t);
    var edges := Edges(active, es);
    forall k | 0 <= k < |t.timers| ensures MadeFor(t.timers[k], edges[k]) {
      assert MadeFor(t.timers[|Start(active).timers| + k], edges[k]);
    }
  }

  predicate Disturbs(e: Event) {
    e.Unload? || (IsUpdate(e) && e.active)
  }

  /** An armed timer is lost only to renewed activity or unloading: until then it is armed still, or has elapsed. */
  lemma {:induction false} ArmedUnlessDisturbed(s: State, es: seq<Event>, t: State)
    requires Inv(s) && Runs(s, es, t) && s.cancel.Some?
    requires forall i :: 0 <= i < |es| ==> !Disturbs(es[i])
    ensures |t.timers| == |s.timers|
    ensures var last := t.timers[|t.timers| - 1];
      || (last == s.timers[|s.timers| - 1] && t.cancel == s.cancel)
      || (last.Elapsed? && last.since == s.timers[|s.timers| - 1].since && t.cancel.None?)
    decreases |es|
  {
    if es != [] {
      var m := Step(s, es[0]);
      StepKeepsInv(s, es[0]);
      assert !Disturbs(es[0]);
      forall i | 0 <= i < |es[1..]| ensures !Disturbs(es[1..][i]) { assert es[1..][i] == es[i + 1]; }
      if m.cancel.Some? {
        ArmedUnlessDisturbed(m, es[1..], t);
      } else {
        ElapsedForGood(m, es[1..], t);
      }
    }
  }

  lemma {:induction false} ElapsedForGood(s: State, es: seq<Event>, t: State)
    requires Inv(s) && Runs(s, es, t) && s.cancel.None? && !s.wasActive
    requires forall i :: 0 <= i < |es| ==> !Disturbs(es[i])
    ensures t.timers == s.timers && t.cancel.None?
    decreases |es|
  {
    if es != [] {
      StepKeepsInv(s, es[0]);
      assert !Disturbs(es[0]);
      forall i | 0 <= i < |es[1..]| ensures !Disturbs(es[1..][i]) { assert es[1..][i] == es[i + 1]; }
      ElapsedForGood(Step(s, es[0]), es[1..], t);
    }
  }

  // ---- the poll interval

  /** The activity last seen by an update or the start of a cycle; idle to begin with */
  ghost function LastSeen(es: seq<Event>): bool {
    if es == [] then false
    else
      var last := es[|es| - 1];
      if IsUpdate(last) || last.CycleStart? then last.active else LastSeen(es[..|es| - 1])
  }

  ghost function LastIdleSeconds(es: seq<Event>): real {
    if es == [] then MAP_IDLE_INTERVAL
    else if es[|es| - 1].SetIdleSeconds? then es[|es| - 1].seconds
    else LastIdleSeconds(es[..|es| - 1])
  }

  lemma {:induction false} RunSplits(s: State, es: seq<Event>, t: State) returns (m: State)
    requires es != [] && Runs(s, es, t)
    ensures Runs(s, es[..|es| - 1], m) && Possible(m, es[|es| - 1]) && t == Step(m, es[|es| - 1])
    decreases |es|
  {
    if |es| == 1 {
      m := s;
      assert es[1..] == [] && es[..0] == [];
    } else {
      m := RunSplits(Step(s, es[0]), es[1..], t);
      assert es[1..][..|es| - 2] == es[..|es| - 1][1..];
    }
  }

  /** On any run the poll interval is the fast one if the activity last seen was active, else the idle one last set. */
  lemma {:induction false} IntervalFollows(active: bool, es: seq<Event>, t: State)
    requires Runs(Start(active), es, t)
    ensures t.poll.interval == if LastSeen(es) then MAP_SCAN_INTERVAL else LastIdleSeconds(es)
    ensures t.poll.idleSeconds == LastIdleSeconds(es)
    decreases |es|
  {
    if es != [] {
      var m := RunSplits(Start(active), es, t);
      IntervalFollows(active, es[..|es| - 1], m);
    }
  }

  // ---- the object

  class PostCleanFetch {
    var wasActive: bool
    var cancelPostClean: Option<nat>
    var timers: seq<Timer>
    var updateInterval: real
    var idleSafetyNetSeconds: real
    ghost var reschedules: nat
    ghost var now: real

    ghost function Abs(): State
      reads this
    {
      State(wasActive, cancelPostClean, timers, Poll(updateInterval, idleSafetyNetSeconds, reschedules), now)
    }

    constructor (active: bool)
      ensures Abs() == Start(active) && Inv(Abs())
    {
      wasActive, cancelPostClean, timers, now := active, None, [], 0.0;
      updateInterval, idleSafetyNetSeconds, reschedules := MAP_IDLE_INTERVAL, MAP_IDLE_INTERVAL, 0;
    }

    method TuneInterval(active: bool)
      modifies this`updateInterval
      ensures updateInterval == if active then MAP_SCAN_INTERVAL else idleSafetyNetSeconds
    {
      var secs := if active then MAP_SCAN_INTERVAL else idleSafetyNetSeconds;
      if updateInterval != secs {
        updateInterval := secs;
      }
    }

    method SetIdleSafetyNetSeconds(seconds: real, active: bool, at: real) returns (reschedule: bool)
      requires Inv(Abs()) && at >= now
      modifies this
      ensures Abs() == Step(old(Abs()), SetIdleSeconds(seconds, active, at)) && Inv(Abs())
      ensures reschedule <==> updateInterval != old(updateInterval)
    {
      idleSafetyNetSeconds := seconds;
      reschedule := OnControlUpdate(active, at);
    }

    /** Apply a changed poll interval, and arm or disarm the timer. Returns whether the pending poll is rescheduled. */
    method OnControlUpdate(active: bool, at: real) returns (reschedule: bool)
      requires Inv(Abs()) && at >= now
      modifies this
      ensures Abs() == OnUpdate(old(Abs()), active, at) && Inv(Abs())
      ensures reschedule <==> updateInterval != old(updateInterval)
    {
      StepKeepsInv(Abs(), ControlUpdate(active, at));
      var before := updateInterval;
      TuneInterval(active);
      reschedule := updateInterval != before;
      if reschedule {
        reschedules := reschedules + 1;
      }
      if active {
        CancelPostCleanFetch();
      } else if wasActive {
        CancelPostCleanFetch();
        cancelPostClean := Some(|timers|);
        timers := timers + [Armed(at)];
      }
      wasActive := active;
      now := at;
    }

    method CancelPostCleanFetch()
      modifies this`cancelPostClean, this`timers
      ensures cancelPostClean.None? && timers == Disarmed(old(timers), old(cancelPostClean))
    {
      if cancelPostClean.Some? {
        timers := Disarmed(timers, cancelPostClean);
        cancelPostClean := None;
      }
    }

    /** Timer k goes off: the map is fetched. */
    method Elapses(k: nat, at: real)
      requires Inv(Abs()) && Possible(Abs(), Elapse(k, at))
      modifies this
      ensures Abs() == OnElapse(old(Abs()), k, at) && Inv(Abs())
    {
      StepKeepsInv(Abs(), Elapse(k, at));
      cancelPostClean := None;
      timers := timers[k := Elapsed(timers[k].since, at)];
      now := at;
    }
  }
}
