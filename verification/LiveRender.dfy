/**
 Live frames as interleaved tasks: each notes the time once, may wait for the render lock, and
 checks the throttle again under it, still with the time it noted before waiting.
 */
module LiveRender {
  import opened Options

  const LIVE_RENDER_MIN_INTERVAL := 8.0

  /** Where a frame's task is: waiting for the lock, rendering under it, or finished */
  datatype Frame = Waiting(noted: real) | Full(noted: real, started: real) | Quick(noted: real) | Finished

  /** A full render: the stamp recorded for the throttle, and when it really started */
  datatype Render = Render(stamp: real, started: real)

  datatype State = State(lastLiveRender: real, lock: Option<nat>, frames: seq<Frame>, now: real, renders: seq<Render>)

  const START := State(0.0, None, [], 0.0, [])

  datatype Event =
    | Arrive(at: real)            // a frame comes in
    | Grant(k: nat, at: real)     // the lock goes to a waiting frame, any one
    | Release(k: nat, at: real)   // a frame is done under the lock

  predicate Throttled(s: State, noted: real) {
    noted - s.lastLiveRender < LIVE_RENDER_MIN_INTERVAL
  }

  predicate Possible(s: State, e: Event) {
    && e.at >= s.now
    && match e
       case Arrive(_) => true
       case Grant(k, _) => s.lock.None? && k < |s.frames| && s.frames[k].Waiting?
       case Release(k, _) => s.lock == Some(k)
  }

  /** A frame inside the throttle window is done at once; otherwise it queues for the lock. */
  function OnArrive(s: State, at: real): State {
    s.(frames := s.frames + [if Throttled(s, at) then Finished else Waiting(at)], now := at)
  }

  /** Under the lock the window is checked again, with the time noted on arrival. */
  function OnGrant(s: State, k: nat, at: real): State
    requires k < |s.frames| && s.frames[k].Waiting?
  {
    var noted := s.frames[k].noted;
    if Throttled(s, noted) then s.(lock := Some(k), frames := s.frames[k := Quick(noted)], now := at)
    else State(noted, Some(k), s.frames[k := Full(noted, at)], at, s.renders + [Render(noted, at)])
  }

  function OnRelease(s: State, k: nat, at: real): State {
    s.(lock := None, frames := if k < |s.frames| then s.frames[k := Finished] else s.frames, now := at)
  }

  function Step(s: State, e: Event): State
    requires Possible(s, e)
  {
    match e
    case Arrive(at) => OnArrive(s, at)
    case Grant(k, at) => OnGrant(s, k, at)
    case Release(k, at) => OnRelease(s, k, at)
  }

  ghost predicate Runs(s: State, es: seq<Event>, t: State)
    decreases |es|
  {
    if es == [] then t == s
    else Possible(s, es[0]) && Runs(Step(s, es[0]), es[1..], t)
  }

  /** Frame k is between acquiring the lock and releasing it. */
  predicate UnderLock(s: State, k: nat)
    requires k < |s.frames|
  {
    s.frames[k].Full? || s.frames[k].Quick?
  }

  ghost predicate Spaced(s: State, i: nat)
    requires 0 < i < |s.renders|
  {
    s.renders[i].stamp >= s.renders[i - 1].stamp + LIVE_RENDER_MIN_INTERVAL
  }

  ghost predicate Inv(s: State) {
    && (s.lock.Some? ==> s.lock.value < |s.frames|)
    && (forall k :: 0 <= k < |s.frames| ==> (UnderLock(s, k) <==> s.lock == Some(k)))
    && (forall k :: 0 <= k < |s.frames| && s.frames[k].Waiting? ==> s.frames[k].noted <= s.now)
    && (forall i :: 0 < i < |s.renders| ==> Spaced(s, i))
    && (forall i :: 0 <= i < |s.renders| ==> s.renders[i].stamp <= s.renders[i].started)
    && s.lastLiveRender == if s.renders == [] then 0.0 else s.renders[|s.renders| - 1].stamp
  }

  lemma StepKeepsInv(s: State, e: Event)
    requires Inv(s) && Possible(s, e)
    ensures Inv(Step(s, e))
  {
    var t := Step(s, e);
    match e
    case Arrive(at) =>
      assert forall i :: 0 < i < |s.renders| ==> Spaced(s, i);
      forall k | 0 <= k < |t.frames| ensures UnderLock(t, k) <==> t.lock == Some(k) {
        if k < |s.frames| { assert UnderLock(s, k) <==> s.lock == Some(k); }
      }
      forall i | 0 < i < |t.renders| ensures Spaced(t, i) { assert Spaced(s, i); }
    case Grant(k, at) =>
      forall j | 0 <= j < |t.frames| ensures UnderLock(t, j) <==> t.lock == Some(j) {
        assert UnderLock(s, j) <==> s.lock == Some(j);
      }
      forall i | 0 < i < |t.renders| ensures Spaced(t, i) {
        if i < |s.renders| { assert Spaced(s, i); }
      }
    case Release(k, at) =>
      forall j | 0 <= j < |t.frames| ensures UnderLock(t, j) <==> t.lock == Some(j) {
        assert UnderLock(s, j) <==> s.lock == Some(j);
      }
      forall i | 0 < i < |t.renders| ensures Spaced(t, i) { assert Spaced(s, i); }
  }

  lemma {:induction false} RunKeepsInv(s: State, es: seq<Event>, t: State)
    requires Inv(s) && Runs(s, es, t)
    ensures Inv(t)
    decreases |es|
  {
    if es != [] {
      StepKeepsInv(s, es[0]);
      RunKeepsInv(Step(s, es[0]), es[1..], t);
    }
  }

  lemma {:induction false} StampsApart(s: State, i: nat, j: nat)
    requires Inv(s) && i < j < |s.renders|
    ensures s.renders[j].stamp >= s.renders[i].stamp + LIVE_RENDER_MIN_INTERVAL
  {
    assert Spaced(s, j);
    if i < j - 1 {
      StampsApart(s, i, j - 1);
    }
  }

  /**
   Whatever order frames arrive and the lock is granted in, no two frames render at once and any
   two recorded start stamps are at least the interval apart.
   */
  lemma RendersNeverOverlap(es: seq<Event>, t: State)
    requires Runs(START, es, t)
    ensures forall j, k :: 0 <= j < |t.frames| && 0 <= k < |t.frames| && UnderLock(t, j) && UnderLock(t, k) ==> j == k
    ensures forall i, j :: 0 <= i < j < |t.renders| ==>
                             t.renders[j].stamp >= t.renders[i].stamp + LIVE_RENDER_MIN_INTERVAL
  {
    RunKeepsInv(START, es, t);
    forall i, j | 0 <= i < j < |t.renders| ensures t.renders[j].stamp >= t.renders[i].stamp + LIVE_RENDER_MIN_INTERVAL {
      StampsApart(t, i, j);
    }
  }

  /** How long a render's frame waited for the lock */
  function Wait(r: Render): real { r.started - r.stamp }

  /** Renders may start closer together than the interval, by at most the time the earlier frame had waited. */
  lemma StartsApartUnlessWaited(es: seq<Event>, t: State, i: nat, j: nat)
    requires Runs(START, es, t) && i < j < |t.renders|
    ensures t.renders[j].started - t.renders[i].started >= LIVE_RENDER_MIN_INTERVAL - Wait(t.renders[i])
  {
    RunKeepsInv(START, es, t);
    StampsApart(t, i, j);
  }

  lemma {:induction false} RunKeepsRenders(s: State, es: seq<Event>, t: State)
    requires Runs(s, es, t)
    ensures s.renders <= t.renders
    decreases |es|
  {
    if es != [] {
      RunKeepsRenders(Step(s, es[0]), es[1..], t);
    }
  }

  /** Letting frame k in now starts a full render. */
  predicate StartsRender(s: State, k: nat, at: real) {
    Possible(s, Grant(k, at)) && !Throttled(s, s.frames[k].noted)
  }

  /** After the last render, run es brings another full one, and at least the interval later. */
  ghost predicate NextStartsApart(s: State, es: seq<Event>, t: State) {
    s.renders != [] && Runs(s, es, t) && |t.renders| > |s.renders| ==>
      t.renders[|s.renders|].started >= s.renders[|s.renders| - 1].started + LIVE_RENDER_MIN_INTERVAL
  }

  /**
   A full render is followed, in every possible continuation, by none that starts sooner than the
   interval, exactly when its frame did not have to wait for the lock.
   */
  lemma ApartIffNoWait(s: State, k: nat, at: real)
    requires Inv(s) && StartsRender(s, k, at)
    ensures (forall es, t :: NextStartsApart(Step(s, Grant(k, at)), es, t)) <==> at == s.frames[k].noted
  {
    var noted := s.frames[k].noted;
    StepKeepsInv(s, Grant(k, at));
    if at == noted {
      forall es, t ensures NextStartsApart(Step(s, Grant(k, at)), es, t) {
        ApartWithoutWait(s, k, at, es, t);
      }
    } else {
      var es, t := SoonAfterWait(s, k, at);
      assert !NextStartsApart(Step(s, Grant(k, at)), es, t);
    }
  }

  lemma ApartWithoutWait(s: State, k: nat, at: real, es: seq<Event>, t: State)
    requires Inv(s) && StartsRender(s, k, at) && at == s.frames[k].noted
    ensures NextStartsApart(Step(s, Grant(k, at)), es, t)
  {
    var s1 := Step(s, Grant(k, at));
    StepKeepsInv(s, Grant(k, at));
    if Runs(s1, es, t) && |t.renders| > |s1.renders| {
      RunKeepsInv(s1, es, t);
      RunKeepsRenders(s1, es, t);
      var n := |s1.renders|;
      assert t.renders[n - 1] == s1.renders[n - 1] == Render(at, at);
      StampsApart(t, n - 1, n);
    }
  }

  /** After a render whose frame waited: release the lock, and let a frame in as soon as the window allows. */
  lemma SoonAfterWait(s: State, k: nat, at: real) returns (es: seq<Event>, t: State)
    requires Inv(s) && StartsRender(s, k, at) && at > s.frames[k].noted
    ensures var s1 := Step(s, Grant(k, at));
      && Runs(s1, es, t) && |t.renders| > |s1.renders|
      && t.renders[|s1.renders|].started < at + LIVE_RENDER_MIN_INTERVAL
  {
    var s1 := Step(s, Grant(k, at));
    StepKeepsInv(s, Grant(k, at));
    var due := s.frames[k].noted + LIVE_RENDER_MIN_INTERVAL;
    var next := if at > due then at else due;
    var s2 := Step(s1, Release(k, at));
    var s3 := Step(s2, Arrive(next));
    var late := |s2.frames|;
    t := Step(s3, Grant(late, next));
    RunsCons(s3, Grant(late, next), [], t);
    var e2 := [Grant(late, next)] + [];
    RunsCons(s2, Arrive(next), e2, t);
    var e1 := [Arrive(next)] + e2;
    RunsCons(s1, Release(k, at), e1, t);
    es := [Release(k, at)] + e1;
  }

  lemma RunsCons(s: State, e: Event, es: seq<Event>, t: State)
    requires Possible(s, e) && Runs(Step(s, e), es, t)
    ensures Runs(s, [e] + es, t)
  {
  }

  /** After a full render stamped at 10, two more frames wait for the lock. */
  function Queued(): State {
    State(10.0, Some(0), [Full(10.0, 10.0), Waiting(18.0), Waiting(29.0)], 29.0, [Render(10.0, 10.0)])
  }

  lemma QueuedRun(rest: seq<Event>, t: State) returns (es: seq<Event>)
    requires Runs(Queued(), rest, t)
    ensures Runs(START, es, t)
  {
    var s1 := Step(START, Arrive(10.0));
    var s2 := Step(s1, Grant(0, 10.0));
    var s3 := Step(s2, Arrive(18.0));
    assert Step(s3, Arrive(29.0)) == Queued();
    RunsCons(s3, Arrive(29.0), rest, t);
    var e3 := [Arrive(29.0)] + rest;
    RunsCons(s2, Arrive(18.0), e3, t);
    var e2 := [Arrive(18.0)] + e3;
    RunsCons(s1, Grant(0, 10.0), e2, t);
    es := [Grant(0, 10.0)] + e2;
    RunsCons(START, Arrive(10.0), es, t);
    es := [Arrive(10.0)] + es;
  }

  /**
   A run whose last two full renders start one second apart: a frame that arrived at 18 but was
   let in at 30, and one that arrived at 29 and was let in at 31.
   */
  lemma StaleStampRun() returns (es: seq<Event>, t: State)
    ensures Runs(START, es, t) && |t.renders| == 3
    ensures t.renders[2].started - t.renders[1].started == 1.0
  {
    var s1 := Step(Queued(), Release(0, 30.0));
    var s2 := Step(s1, Grant(1, 30.0));
    var s3 := Step(s2, Release(1, 31.0));
    t := Step(s3, Grant(2, 31.0));
    RunsCons(s3, Grant(2, 31.0), [], t);
    var e3 := [Grant(2, 31.0)] + [];
    RunsCons(s2, Release(1, 31.0), e3, t);
    var e2 := [Release(1, 31.0)] + e3;
    RunsCons(s1, Grant(1, 30.0), e2, t);
    var e1 := [Grant(1, 30.0)] + e2;
    RunsCons(Queued(), Release(0, 30.0), e1, t);
    es := QueuedRun([Release(0, 30.0)] + e1, t);
  }

  // ---- the object

  /** The two fields that take part, with the frames the event loop holds */
  class LiveRenderer {
    var lastLiveRender: real
    var lock: Option<nat>
    var frames: seq<Frame>
    ghost var now: real
    ghost var renders: seq<Render>

    ghost function Abs(): State
      reads this
    {
      State(lastLiveRender, lock, frames, now, renders)
    }

    constructor ()
      ensures Abs() == START && Inv(Abs())
    {
      lastLiveRender, lock, frames := 0.0, None, [];
      now, renders := 0.0, [];
    }

    /** A frame's task up to its first wait; it reads the clock once. */
    method Begin(at: real) returns (done: bool)
      requires Inv(Abs()) && at >= now
      modifies this
      ensures Abs() == OnArrive(old(Abs()), at) && Inv(Abs())
      ensures done <==> at - old(lastLiveRender) < LIVE_RENDER_MIN_INTERVAL
      ensures frames == old(frames) + [if done then Finished else Waiting(at)]
      ensures lastLiveRender == old(lastLiveRender) && lock == old(lock)
    {
      StepKeepsInv(Abs(), Arrive(at));
      done := at - lastLiveRender < LIVE_RENDER_MIN_INTERVAL;
      frames := frames + [if done then Finished else Waiting(at)];
      now := at;
    }

    /** Frame k gets the lock: a full render, or only its position when another got there first. */
    method Enter(k: nat, at: real) returns (full: bool)
      requires Inv(Abs()) && Possible(Abs(), Grant(k, at))
      modifies this
      ensures Abs() == OnGrant(old(Abs()), k, at) && Inv(Abs())
      ensures full <==> |renders| > |old(renders)|
      ensures full <==> old(frames)[k].noted - old(lastLiveRender) >= LIVE_RENDER_MIN_INTERVAL
      ensures lock == Some(k) && lastLiveRender == if full then old(frames)[k].noted else old(lastLiveRender)
      ensures frames == old(frames)[k := if full then Full(old(frames)[k].noted, at) else Quick(old(frames)[k].noted)]
    {
      StepKeepsInv(Abs(), Grant(k, at));
      var noted := frames[k].noted;
      lock, now := Some(k), at;
      full := noted - lastLiveRender >= LIVE_RENDER_MIN_INTERVAL;
      if full {
        lastLiveRender := noted;
        frames := frames[k := Full(noted, at)];
        renders := renders + [Render(noted, at)];
      } else {
        frames := frames[k := Quick(noted)];
      }
    }

    /** Frame k is done under the lock. */
    method Leave(k: nat, at: real)
      requires Inv(Abs()) && Possible(Abs(), Release(k, at))
      modifies this
      ensures Abs() == OnRelease(old(Abs()), k, at) && Inv(Abs())
      ensures lock.None? && frames == old(frames)[k := Finished] && lastLiveRender == old(lastLiveRender)
    {
      StepKeepsInv(Abs(), Release(k, at));
      lock, frames, now := None, frames[k := Finished], at;
    }
  }
}
