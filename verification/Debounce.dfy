/**
 Collapsing bursts of signals into one refresh: every message restarts a two-second delay, and the
 refresh that finally runs asks for an upload when some message of its burst did.
 */
module Debounce {
  import opened Options

  const DEBOUNCE_SECONDS := 2.0

  datatype Msg = Msg(at: real, upload: bool)

  /** A debounce task: inside its delay since a time, cancelled there, or past it */
  datatype Task = Sleeping(since: real) | Cancelled | Fired

  /** One refresh: when, whether it asked for an upload, and the messages it answers */
  datatype Firing = Firing(at: real, upload: bool, burst: seq<Msg>)

  /** The coordinator's two fields, the event loop's tasks, and what has happened so far */
  datatype State = State(needsUpload: bool, handle: Option<nat>, tasks: seq<Task>, now: real,
                         pending: seq<Msg>, firings: seq<Firing>)

  const IDLE := State(false, None, [], 0.0, [], [])

  function CancelAt(tasks: seq<Task>, k: Option<nat>): seq<Task> {
    if k.Some? && k.value < |tasks| && tasks[k.value].Sleeping? then tasks[k.value := Cancelled] else tasks
  }

  /** A message: cancel the pending task and start a fresh one. */
  function OnMessage(s: State, m: Msg): State {
    State(s.needsUpload || m.upload, Some(|s.tasks|), CancelAt(s.tasks, s.handle) + [Sleeping(m.at)], m.at,
          s.pending + [m], s.firings)
  }

  predicate CanWake(s: State, k: nat, at: real) {
    k < |s.tasks| && s.tasks[k].Sleeping? && at >= s.tasks[k].since + DEBOUNCE_SECONDS
  }

  /** A task that slept its delay out: take the flag and refresh. */
  function OnWake(s: State, k: nat, at: real): State
    requires CanWake(s, k, at)
  {
    State(false, None, s.tasks[k := Fired], at, [], s.firings + [Firing(at, s.needsUpload, s.pending)])
  }

  datatype Event = MessageEvent(m: Msg) | WakeEvent(k: nat, at: real)

  /** Time does not run backwards, and the event loop wakes only tasks whose delay is over. */
  predicate Possible(s: State, e: Event) {
    match e
    case MessageEvent(m) => m.at >= s.now
    case WakeEvent(k, at) => at >= s.now && CanWake(s, k, at)
  }

  function Step(s: State, e: Event): State
    requires Possible(s, e)
  {
    match e
    case MessageEvent(m) => OnMessage(s, m)
    case WakeEvent(k, at) => OnWake(s, k, at)
  }

  /** From s some run of the events es leads to t. */
  ghost predicate Runs(s: State, es: seq<Event>, t: State)
    decreases |es|
  {
    if es == [] then t == s
    else Possible(s, es[0]) && Runs(Step(s, es[0]), es[1..], t)
  }

  ghost function Messages(es: seq<Event>): seq<Msg> {
    if es == [] then [] else (if es[0].MessageEvent? then [es[0].m] else []) + Messages(es[1..])
  }

  ghost function Answered(firings: seq<Firing>): seq<Msg> {
    if firings == [] then [] else Answered(firings[..|firings| - 1]) + firings[|firings| - 1].burst
  }

  /** All messages so far, as the refreshes made and the one pending account for them */
  ghost function Accounted(s: State): seq<Msg> { Answered(s.firings) + s.pending }

  ghost predicate Wants(burst: seq<Msg>) {
    exists i :: 0 <= i < |burst| && burst[i].upload
  }

  /** A refresh answers a burst, the delay after its last message or later, asking for an upload when the burst did. */
  ghost predicate GoodFiring(f: Firing) {
    f.burst != [] && f.at >= f.burst[|f.burst| - 1].at + DEBOUNCE_SECONDS && (f.upload <==> Wants(f.burst))
  }

  ghost predicate Inv(s: State) {
    && (forall k :: 0 <= k < |s.tasks| ==> (s.tasks[k].Sleeping? <==> s.handle == Some(k)))
    && (s.handle.Some? ==> s.handle.value < |s.tasks|)
    && (s.handle.Some? <==> s.pending != [])
    && (s.handle.Some? ==> s.tasks[s.handle.value] == Sleeping(s.pending[|s.pending| - 1].at))
    && (s.needsUpload <==> Wants(s.pending))
    && (forall i :: 0 <= i < |s.firings| ==> GoodFiring(s.firings[i]))
  }

  lemma WantsMore(burst: seq<Msg>, m: Msg)
    ensures Wants(burst + [m]) <==> Wants(burst) || m.upload
  {
    var more := burst + [m];
    if i :| 0 <= i < |burst| && burst[i].upload { assert more[i].upload; }
    if m.upload { assert more[|burst|].upload; }
    if i :| 0 <= i < |more| && more[i].upload { assert i < |burst| ==> burst[i].upload; }
  }

  lemma MessageKeepsInv(s: State, m: Msg)
    requires Inv(s)
    ensures Inv(OnMessage(s, m)) && Answered(OnMessage(s, m).firings) == Answered(s.firings)
  {
    WantsMore(s.pending, m);
  }

  lemma WakeKeepsInv(s: State, k: nat, at: real)
    requires Inv(s) && CanWake(s, k, at)
    ensures Inv(OnWake(s, k, at)) && s.handle == Some(k)
    ensures Answered(OnWake(s, k, at).firings) == Answered(s.firings) + s.pending
  {
  }

  lemma StepAccountsForMessages(s: State, e: Event)
    requires Inv(s) && Possible(s, e)
    ensures Inv(Step(s, e))
    ensures Accounted(Step(s, e)) == Accounted(s) + (if e.MessageEvent? then [e.m] else [])
  {
    match e
    case MessageEvent(m) =>
      MessageKeepsInv(s, m);
    case WakeEvent(k, at) =>
      WakeKeepsInv(s, k, at);
  }

  /**
   The debounce loses nothing. On any run at most one task is inside its delay and it is the one
   the coordinator holds; a wanted upload implies there is such a task; and the messages so far
   are, in order, exactly those of the refreshes made plus those still pending.
   */
  lemma {:induction false} DebounceLosesNothing(s: State, es: seq<Event>, t: State)
    requires Inv(s) && Runs(s, es, t)
    ensures Inv(t)
    ensures Accounted(t) == Accounted(s) + Messages(es)
    decreases |es|
  {
    if es == [] {
      assert Messages(es) == [] && Accounted(s) + [] == Accounted(s);
    } else {
      StepAccountsForMessages(s, es[0]);
      DebounceLosesNothing(Step(s, es[0]), es[1..], t);
      Regroup(Accounted(s), if es[0].MessageEvent? then [es[0].m] else [], Messages(es[1..]));
    }
  }

  lemma Regroup(a: seq<Msg>, b: seq<Msg>, c: seq<Msg>)
    ensures (a + b) + c == a + (b + c)
  {
  }

  /**
   From the start, whatever messages come and whenever: the refreshes made and the one pending
   answer the messages one for one and in order, each refresh is good, and a task is inside its
   delay exactly while some message waits.
   */
  lemma EveryMessageIsAnswered(es: seq<Event>, t: State)
    requires Runs(IDLE, es, t)
    ensures Answered(t.firings) + t.pending == Messages(es)
    ensures forall i :: 0 <= i < |t.firings| ==> GoodFiring(t.firings[i])
    ensures forall j, k :: 0 <= j < |t.tasks| && 0 <= k < |t.tasks| && t.tasks[j].Sleeping? && t.tasks[k].Sleeping? ==>
                             j == k
    ensures (exists k :: 0 <= k < |t.tasks| && t.tasks[k].Sleeping?) <==> t.pending != []
    ensures t.needsUpload ==> t.pending != []
  {
    assert Inv(IDLE) && Accounted(IDLE) == [];
    DebounceLosesNothing(IDLE, es, t);
    assert [] + Messages(es) == Messages(es);
    if t.handle.Some? {
      assert t.tasks[t.handle.value].Sleeping?;
    }
  }

  /** While a message waits, its refresh can still come, and then nothing is left waiting. */
  lemma PendingWillFire(s: State, at: real)
    requires Inv(s) && s.pending != [] && at >= s.now && at >= s.pending[|s.pending| - 1].at + DEBOUNCE_SECONDS
    ensures Possible(s, WakeEvent(s.handle.value, at))
    ensures var t := Step(s, WakeEvent(s.handle.value, at));
      t.pending == [] && t.firings == s.firings + [Firing(at, Wants(s.pending), s.pending)]
  {
  }

  // ---- the object

  /** The fields of the coordinator that take part, with its event loop */
  class Debouncer {
    var needsUpload: bool
    var debounceTask: Option<nat>
    var tasks: seq<Task>
    ghost var now: real
    ghost var pending: seq<Msg>
    ghost var firings: seq<Firing>

    ghost function Abs(): State
      reads this
    {
      State(needsUpload, debounceTask, tasks, now, pending, firings)
    }

    constructor ()
      ensures Abs() == IDLE && Inv(Abs())
    {
      needsUpload, debounceTask, tasks := false, None, [];
      now, pending, firings := 0.0, [], [];
    }

    /** Cancel any pending task and start a fresh one. */
    method ScheduleRefresh(requestUpload: bool, at: real)
      requires Inv(Abs())
      modifies this
      ensures Abs() == OnMessage(old(Abs()), Msg(at, requestUpload)) && Inv(Abs())
    {
      MessageKeepsInv(Abs(), Msg(at, requestUpload));
      needsUpload := needsUpload || requestUpload;
      if debounceTask.Some? && debounceTask.value < |tasks| && tasks[debounceTask.value].Sleeping? {
        tasks := tasks[debounceTask.value := Cancelled];
      }
      debounceTask := Some(|tasks|);
      tasks := tasks + [Sleeping(at)];
      now, pending := at, pending + [Msg(at, requestUpload)];
    }

    /** The event loop resumes task k. A cancelled task does nothing; one that slept out its delay refreshes. */
    method Resume(k: nat, at: real) returns (refresh: Option<bool>)
      requires Inv(Abs()) && k < |tasks| && (tasks[k].Sleeping? ==> CanWake(Abs(), k, at))
      modifies this
      ensures old(tasks)[k].Sleeping? ==> Abs() == OnWake(old(Abs()), k, at) && refresh == Some(Wants(old(pending)))
      ensures !old(tasks)[k].Sleeping? ==> Abs() == old(Abs()) && refresh.None?
      ensures Inv(Abs())
    {
      if !tasks[k].Sleeping? {
        return None;
      }
      WakeKeepsInv(Abs(), k, at);
      tasks := tasks[k := Fired];
      debounceTask := None;
      var requestUpload := needsUpload;
      needsUpload := false;
      now, firings, pending := at, firings + [Firing(at, requestUpload, pending)], [];
      return Some(requestUpload);
    }
  }
}
