/**
 Refreshing because somebody looks: viewers poll, and an idle vacuum's map is fetched for them
 only when there is none yet, or when a switch asks for it and the last fetch is old.
 */
module OnDemand {
  import opened Options

  const MAX_AGE := 30.0

  /** A look at the map: when, and what the coordinator knows then */
  datatype Look = Look(at: real, active: bool, hasData: bool, switchOn: bool)

  /** A refresh that was kicked off, and the look that did it */
  datatype Kick = Kick(look: Look, lastFetch: real)

  /** The last fetch and kick, the task held, which tasks still run, and the kicks so far */
  datatype State = State(lastFetch: real, lastKick: Option<real>, handle: Option<nat>, running: seq<bool>,
                         kicks: seq<Kick>, now: real)

  const START := State(0.0, None, None, [], [], 0.0)

  datatype Event =
    | View(look: Look)
    | TaskDone(k: nat, at: real)
    | CycleDone(at: real)

  function TimeOf(e: Event): real {
    match e
    case View(look) => look.at
    case TaskDone(_, at) => at
    case CycleDone(at) => at
  }

  predicate Possible(s: State, e: Event) {
    TimeOf(e) >= s.now && (e.TaskDone? ==> e.k < |s.running| && s.running[e.k])
  }

  /** The map on show will do: nothing is fetched for this look. */
  predicate GoodEnough(look: Look, lastFetch: real) {
    look.active || (look.hasData && (!look.switchOn || look.at - lastFetch < MAX_AGE))
  }

  predicate InFlight(s: State) {
    s.handle.Some? && s.handle.value < |s.running| && s.running[s.handle.value]
  }

  predicate Kicks(s: State, look: Look) {
    !GoodEnough(look, s.lastFetch) && !InFlight(s) && (s.lastKick.None? || look.at - s.lastKick.value >= MAX_AGE)
  }

  function OnView(s: State, look: Look): State {
    if Kicks(s, look)
    then State(s.lastFetch, Some(look.at), Some(|s.running|), s.running + [true],
               s.kicks + [Kick(look, s.lastFetch)], look.at)
    else s.(now := look.at)
  }

  function Step(s: State, e: Event): State
    requires Possible(s, e)
  {
    match e
    case View(look) => OnView(s, look)
    case TaskDone(k, at) => s.(running := s.running[k := false], now := at)
    case CycleDone(at) => s.(lastFetch := at, now := at)
  }

  ghost predicate Runs(s: State, es: seq<Event>, t: State)
    decreases |es|
  {
    if es == [] then t == s
    else Possible(s, es[0]) && Runs(Step(s, es[0]), es[1..], t)
  }

  ghost predicate Spaced(s: State, i: nat)
    requires 0 < i < |s.kicks|
  {
    s.kicks[i].look.at >= s.kicks[i - 1].look.at + MAX_AGE
  }

  ghost predicate Inv(s: State) {
    && (s.handle.Some? ==> s.handle.value < |s.running|)
    && (forall k :: 0 <= k < |s.running| && s.running[k] ==> s.handle == Some(k))
    && (s.lastKick == if s.kicks == [] then None else Some(s.kicks[|s.kicks| - 1].look.at))
    && (forall i :: 0 <= i < |s.kicks| ==> !GoodEnough(s.kicks[i].look, s.kicks[i].lastFetch))
    && (forall i :: 0 < i < |s.kicks| ==> Spaced(s, i))
  }

  lemma StepKeepsInv(s: State, e: Event)
    requires Inv(s) && Possible(s, e)
    ensures Inv(Step(s, e))
  {
    var t := Step(s, e);
    forall i | 0 < i < |t.kicks| ensures Spaced(t, i) {
      if i < |s.kicks| { assert Spaced(s, i); }
    }
  }

  lemma {:induction false} RunKeepsInv(s: State, es: seq<Event>, t: State)
    requires Inv(s) && Runs(s, es, t)
    ensures Inv(t)
    decreases |es|
  {
    if es != [] {
      StepKeepsInv(s, es[0]);
      RunKeepsInv(Step(s, es[0]), es[1..], t);
    }
  }

  lemma {:induction false} KicksApart(s: State, i: nat, j: nat)
    requires Inv(s) && i < j < |s.kicks|
    ensures s.kicks[j].look.at >= s.kicks[i].look.at + MAX_AGE
  {
    assert Spaced(s, j);
    if i < j - 1 {
      KicksApart(s, i, j - 1);
    }
  }

  /**
   On any run: at most one refresh kicked off by a look is in flight, any two kicks are at least
   the age limit apart, none happens while the vacuum is active, and one made with a map on show
   means that the switch was on and the map at least that old.
   */
  lemma ViewersAreThrottled(es: seq<Event>, t: State)
    requires Runs(START, es, t)
    ensures forall j, k :: 0 <= j < |t.running| && 0 <= k < |t.running| && t.running[j] && t.running[k] ==> j == k
    ensures forall i, j :: 0 <= i < j < |t.kicks| ==> t.kicks[j].look.at >= t.kicks[i].look.at + MAX_AGE
    ensures forall i :: 0 <= i < |t.kicks| ==>
      && !t.kicks[i].look.active
      && (t.kicks[i].look.hasData ==> t.kicks[i].look.switchOn && t.kicks[i].look.at - t.kicks[i].lastFetch >= MAX_AGE)
  {
    RunKeepsInv(START, es, t);
    forall i, j | 0 <= i < j < |t.kicks| ensures t.kicks[j].look.at >= t.kicks[i].look.at + MAX_AGE {
      KicksApart(t, i, j);
    }
  }

  /** When the last cycle that fetched was done, as far as a run tells */
  ghost function LastDone(before: real, es: seq<Event>): real
    decreases |es|
  {
    if es == [] then before
    else LastDone(if es[0].CycleDone? then es[0].at else before, es[1..])
  }

  lemma {:induction false} FetchesAreRecorded(s: State, es: seq<Event>, t: State)
    requires Runs(s, es, t)
    ensures t.lastFetch == LastDone(s.lastFetch, es)
    decreases |es|
  {
    if es != [] {
      FetchesAreRecorded(Step(s, es[0]), es[1..], t);
    }
  }

  /**
   On any run a look kicks off a refresh exactly when the vacuum is idle, there is no map on show
   or the switch is on and the last fetch old, no kicked refresh is in flight, and the last kick is old.
   */
  lemma KicksExactly(es: seq<Event>, t: State, look: Look)
    requires Runs(START, es, t) && look.at >= t.now
    ensures |OnView(t, look).kicks| == |t.kicks| + 1 <==>
      && !look.active
      && (look.hasData ==> look.switchOn && look.at - LastDone(0.0, es) >= MAX_AGE)
      && (forall k :: 0 <= k < |t.running| ==> !t.running[k])
      && (t.kicks != [] ==> look.at - t.kicks[|t.kicks| - 1].look.at >= MAX_AGE)
  {
    RunKeepsInv(START, es, t);
    FetchesAreRecorded(START, es, t);
    if InFlight(t) {
      assert t.running[t.handle.value];
    }
  }

  /** All that holds back a refresh somebody waits for is another kick: one in flight, or one within the limit. */
  lemma NeededRefreshComes(es: seq<Event>, t: State, look: Look)
    requires Runs(START, es, t) && look.at >= t.now
    requires !look.active && (look.hasData ==> look.switchOn && look.at - LastDone(0.0, es) >= MAX_AGE)
    ensures |OnView(t, look).kicks| == |t.kicks| <==>
      (|t.kicks| > 0 && (look.at - t.kicks[|t.kicks| - 1].look.at < MAX_AGE
                         || exists k :: 0 <= k < |t.running| && t.running[k]))
  {
    RunKeepsInv(START, es, t);
    RunCountsTasks(START, es, t);
    FetchesAreRecorded(START, es, t);
    if InFlight(t) {
      assert t.running[t.handle.value];
    }
  }

  /** Every task was kicked off by a look. */
  lemma {:induction false} RunCountsTasks(s: State, es: seq<Event>, t: State)
    requires Runs(s, es, t) && |s.running| == |s.kicks|
    ensures |t.running| == |t.kicks|
    decreases |es|
  {
    if es != [] {
      RunCountsTasks(Step(s, es[0]), es[1..], t);
    }
  }

  // ---- the object

  class Refresher {
    var lastFetchMonotonic: real
    var lastOnDemandKick: Option<real>
    var backgroundRefreshTask: Option<nat>
    var running: seq<bool>
    ghost var kicks: seq<Kick>
    ghost var now: real

    ghost function Abs(): State
      reads this
    {
      State(lastFetchMonotonic, lastOnDemandKick, backgroundRefreshTask, running, kicks, now)
    }

    constructor ()
      ensures Abs() == START && Inv(Abs())
    {
      lastFetchMonotonic, lastOnDemandKick, backgroundRefreshTask, running := 0.0, None, None, [];
      kicks, now := [], 0.0;
    }

    method EnsureFresh(look: Look)
      requires Inv(Abs()) && look.at >= now
      modifies this
      ensures Abs() == OnView(old(Abs()), look) && Inv(Abs())
    {
      StepKeepsInv(Abs(), View(look));
      now := look.at;
      if look.active {
        return;
      }
      if look.hasData {
        if !look.switchOn {
          return;
        }
        if look.at - lastFetchMonotonic < MAX_AGE {
          return;
        }
      }
      if backgroundRefreshTask.Some? && running[backgroundRefreshTask.value] {
        return;
      }
      if lastOnDemandKick.Some? && look.at - lastOnDemandKick.value < MAX_AGE {
        return;
      }
      lastOnDemandKick := Some(look.at);
      backgroundRefreshTask := Some(|running|);
      running := running + [true];
      kicks := kicks + [Kick(look, lastFetchMonotonic)];
    }
  }
}
