/**
 Position-only pushes between full renders, as interleaved tasks: each compares the clock with the
 stamp of the last push, renders, and only then writes its own stamp.
 */
module FastPush {
  const LIVE_FAST_MIN_INTERVAL := 1.0

  /** A push that is being rendered, one that was sent, or one whose render failed; with the time it started */
  datatype Task = Rendering(noted: real) | Sent(noted: real, at: real) | Failed(noted: real)

  datatype State = State(lastFastPush: real, tasks: seq<Task>, now: real)

  const START := State(0.0, [], 0.0)

  datatype Event =
    | Ask(at: real)                           // a frame inside the full-render window
    | Rendered(k: nat, ok: bool, at: real)    // a render ends, well or not

  predicate Possible(s: State, e: Event) {
    && e.at >= s.now
    && (e.Rendered? ==> e.k < |s.tasks| && s.tasks[e.k].Rendering?)
  }

  /** A push asked for now starts. */
  predicate Starts(s: State, at: real) {
    at >= s.now && at - s.lastFastPush >= LIVE_FAST_MIN_INTERVAL
  }

  function OnAsk(s: State, at: real): State {
    s.(tasks := if at - s.lastFastPush < LIVE_FAST_MIN_INTERVAL then s.tasks else s.tasks + [Rendering(at)], now := at)
  }

  function OnRendered(s: State, k: nat, ok: bool, at: real): State
    requires k < |s.tasks|
  {
    var noted := s.tasks[k].noted;
    if ok then State(noted, s.tasks[k := Sent(noted, at)], at)
    else s.(tasks := s.tasks[k := Failed(noted)], now := at)
  }

  function Step(s: State, e: Event): State
    requires Possible(s, e)
  {
    match e
    case Ask(at) => OnAsk(s, at)
    case Rendered(k, ok, at) => OnRendered(s, k, ok, at)
  }

  ghost predicate Runs(s: State, es: seq<Event>, t: State)
    decreases |es|
  {
    if es == [] then t == s
    else Possible(s, es[0]) && Runs(Step(s, es[0]), es[1..], t)
  }

  /** Started, and not failed so far */
  predicate Live(s: State, k: nat) {
    k < |s.tasks| && !s.tasks[k].Failed?
  }

  /** A push started at this time comes at least the interval after task k. */
  predicate After(s: State, k: nat, at: real)
    requires k < |s.tasks|
  {
    at >= s.tasks[k].noted + LIVE_FAST_MIN_INTERVAL
  }

  /** When the push started that ended well last on a run, if one did */
  ghost function LastSent(before: real, s: State, es: seq<Event>): real
    decreases |es|
  {
    if es == [] || !Possible(s, es[0]) then before
    else LastSent(if es[0].Rendered? && es[0].ok then s.tasks[es[0].k].noted else before, Step(s, es[0]), es[1..])
  }

  /** On any run the stamp is the start of the push that ended well last; failed ones leave no trace. */
  lemma {:induction false} StampIsLastSent(s: State, es: seq<Event>, t: State)
    requires Runs(s, es, t)
    ensures t.lastFastPush == LastSent(s.lastFastPush, s, es)
    decreases |es|
  {
    if es != [] {
      StampIsLastSent(Step(s, es[0]), es[1..], t);
    }
  }

  // ---- when the next start keeps its distance

  /** The stamp covers task k: it is the task's or a later one, or the task is old enough. */
  predicate Covered(s: State, k: nat)
    requires k < |s.tasks|
  {
    s.tasks[k].noted <= s.lastFastPush || After(s, k, s.now)
  }

  /**
   Whenever the next push starts, it starts at least the interval after all live ones, exactly when
   the stamp covers every live one. It does not while a younger one is still being rendered, or
   when an older one ended last and put the stamp back.
   */
  lemma ApartIffCovered(s: State)
    ensures (forall at, k: nat :: Starts(s, at) && Live(s, k) ==> After(s, k, at)) <==>
            forall k: nat :: Live(s, k) ==> Covered(s, k)
  {
    var due := s.lastFastPush + LIVE_FAST_MIN_INTERVAL;
    var first := if due > s.now then due else s.now;
    if forall at, k: nat :: Starts(s, at) && Live(s, k) ==> After(s, k, at) {
      forall k: nat | Live(s, k) ensures Covered(s, k) {
        assert Starts(s, first) ==> After(s, k, first);
      }
    }
    if forall k: nat :: Live(s, k) ==> Covered(s, k) {
      forall at, k: nat | Starts(s, at) && Live(s, k) ensures After(s, k, at) {
        assert Covered(s, k);
      }
    }
  }

  // ---- runs in which no two renders overlap

  predicate Idle(s: State) {
    forall k :: 0 <= k < |s.tasks| ==> !s.tasks[k].Rendering?
  }

  /** Pushes start only while no other is being rendered. */
  ghost predicate OneByOne(s: State, es: seq<Event>)
    decreases |es|
  {
    es != [] && Possible(s, es[0]) ==>
      && (es[0].Ask? && Starts(s, es[0].at) ==> Idle(s))
      && OneByOne(Step(s, es[0]), es[1..])
  }

  /** A sent push is not newer than the stamp; the one being rendered is the last, and newer than the stamp. */
  predicate InOrder(s: State, k: nat)
    requires k < |s.tasks|
  {
    && (s.tasks[k].Sent? ==> s.tasks[k].noted <= s.lastFastPush && s.tasks[k].noted <= s.tasks[k].at)
    && (s.tasks[k].Rendering? ==> k == |s.tasks| - 1 && s.tasks[k].noted >= s.lastFastPush + LIVE_FAST_MIN_INTERVAL)
  }

  ghost predicate Orderly(s: State) {
    && (forall k :: 0 <= k < |s.tasks| ==> InOrder(s, k) && s.tasks[k].noted <= s.now)
    && (forall i: nat, j: nat :: i < j && Live(s, i) && Live(s, j) ==> After(s, i, s.tasks[j].noted))
  }

  lemma StepKeepsOrder(s: State, e: Event)
    requires Orderly(s) && Possible(s, e) && (e.Ask? && Starts(s, e.at) ==> Idle(s))
    ensures Orderly(Step(s, e))
  {
    var t := Step(s, e);
    forall k | 0 <= k < |t.tasks| ensures InOrder(t, k) && t.tasks[k].noted <= t.now {
      if k < |s.tasks| {
        assert InOrder(s, k) && s.tasks[k].noted <= s.now;
      }
      if e.Rendered? {
        assert InOrder(s, e.k) && s.tasks[e.k].noted <= s.now;
      }
    }
    forall i: nat, j: nat | i < j && Live(t, i) && Live(t, j) ensures After(t, i, t.tasks[j].noted) {
      assert InOrder(s, i) && Live(s, i);
      if j < |s.tasks| {
        assert Live(s, j) && After(s, i, s.tasks[j].noted);
      }
    }
  }

  /**
   While no two renders overlap, any two pushes start at least the interval apart, and the later
   one is sent at least the interval after the earlier one started.
   */
  lemma {:induction false} ApartOneByOne(s: State, es: seq<Event>, t: State)
    requires Orderly(s) && Runs(s, es, t) && OneByOne(s, es)
    ensures Orderly(t)
    ensures forall i: nat, j: nat :: i < j && Live(t, i) && Live(t, j) ==> After(t, i, t.tasks[j].noted)
    ensures forall i: nat, j: nat ::
      i < j && Live(t, i) && Live(t, j) && t.tasks[j].Sent? ==> After(t, i, t.tasks[j].at)
    decreases |es|
  {
    if es != [] {
      StepKeepsOrder(s, es[0]);
      ApartOneByOne(Step(s, es[0]), es[1..], t);
    } else {
      forall i: nat, j: nat | i < j && Live(t, i) && Live(t, j) && t.tasks[j].Sent? ensures After(t, i, t.tasks[j].at) {
        assert InOrder(t, j) && After(t, i, t.tasks[j].noted);
      }
    }
  }

  // ---- overlapping renders

  lemma RunsCons(s: State, e: Event, es: seq<Event>, t: State)
    requires Possible(s, e) && Runs(Step(s, e), es, t)
    ensures Runs(s, [e] + es, t)
  {
  }

  /** Whenever a push may start, a second may start at the same moment, and both are sent. */
  lemma TwoAtOnce(s: State, at: real) returns (es: seq<Event>, t: State)
    requires Starts(s, at)
    ensures Runs(s, es, t) && |t.tasks| == |s.tasks| + 2
    ensures t.tasks[|s.tasks|] == t.tasks[|s.tasks| + 1] == Sent(at, at)
  {
    var n := |s.tasks|;
    var s1 := Step(s, Ask(at));
    var s2 := Step(s1, Ask(at));
    var s3 := Step(s2, Rendered(n, true, at));
    t := Step(s3, Rendered(n + 1, true, at));
    RunsCons(s3, Rendered(n + 1, true, at), [], t);
    var e3 := [Rendered(n + 1, true, at)] + [];
    RunsCons(s2, Rendered(n, true, at), e3, t);
    var e2 := [Rendered(n, true, at)] + e3;
    RunsCons(s1, Ask(at), e2, t);
    var e1 := [Ask(at)] + e2;
    RunsCons(s, Ask(at), e1, t);
    es := [Ask(at)] + e1;
  }

  // ---- the object

  class FastPusher {
    var lastFastPush: real
    var tasks: seq<Task>
    ghost var now: real

    ghost function Abs(): State
      reads this
    {
      State(lastFastPush, tasks, now)
    }

    constructor ()
      ensures Abs() == START && Orderly(Abs())
    {
      lastFastPush, tasks, now := 0.0, [], 0.0;
    }

    /** A push up to its render, begun only when there is something to show. */
    method Begin(at: real, presentable: bool) returns (started: bool)
      requires at >= now
      modifies this
      ensures started <==> presentable && Starts(old(Abs()), at)
      ensures Abs() == if presentable then Step(old(Abs()), Ask(at)) else old(Abs()).(now := at)
    {
      started := presentable && at - lastFastPush >= LIVE_FAST_MIN_INTERVAL;
      if started {
        tasks := tasks + [Rendering(at)];
      }
      now := at;
    }

    /** The rest of push k; its stamp is the time it started. */
    method Finish(k: nat, ok: bool, at: real)
      requires Possible(Abs(), Rendered(k, ok, at))
      modifies this
      ensures Abs() == Step(old(Abs()), Rendered(k, ok, at))
      ensures lastFastPush == if ok then old(tasks)[k].noted else old(lastFastPush)
    {
      var noted := tasks[k].noted;
      if ok {
        lastFastPush, tasks := noted, tasks[k := Sent(noted, at)];
      } else {
        tasks := tasks[k := Failed(noted)];
      }
      now := at;
    }
  }
}
