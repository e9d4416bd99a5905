/**
 Asking the vacuum to upload a fresh map: which map is meant, and how often one may be asked for.
 */
module UploadThrottle {
  import opened Options
  import opened MapStore
  import opened ActiveMap

  const UPLOAD_THROTTLE_SECONDS := 30.0

  // ---- which map is meant

  /** An entry whose id settles the search: flagged as current and carrying one */
  predicate Settles(meta: Meta) {
    meta.cur && !meta.id.Absent?
  }

  /** The first entry that is flagged as current and has an id, be it one that converts or not */
  ghost predicate FirstSettling(metas: seq<Meta>, i: nat)
    requires i < |metas|
  {
    && metas[i].cur && metas[i].id != Absent
    && forall j :: 0 <= j < i ==> !(metas[j].cur && metas[j].id != Absent)
  }

  /** The id a map-list entry holds, if it converts to one */
  function IdOf(meta: Meta): Option<MapId> {
    if meta.id.Listed? then Some(meta.id.id) else None
  }

  /** The id of the first entry that settles the search, or else the map shown */
  function ListedOr(metas: seq<Meta>, shown: Option<MapId>): Option<MapId> {
    if metas == [] then shown
    else if Settles(metas[0]) then IdOf(metas[0])
    else ListedOr(metas[1..], shown)
  }

  function KnownId(mqttId: Option<MapId>, metas: seq<Meta>, shown: Option<MapId>): Option<MapId> {
    if mqttId.Some? then mqttId else ListedOr(metas, shown)
  }

  lemma {:induction false} SkipUnsettling(metas: seq<Meta>, shown: Option<MapId>, i: nat)
    requires i <= |metas| && forall j :: 0 <= j < i ==> !Settles(metas[j])
    ensures ListedOr(metas, shown) == ListedOr(metas[i..], shown)
  {
    if i > 0 {
      SkipUnsettling(metas, shown, i - 1);
      assert metas[i - 1..][1..] == metas[i..];
    }
  }

  /**
   The map a request without an id is for: the last signalled id, else the first current entry
   of the map list that has an id (none at all when that id does not convert), else the map shown.
   */
  method KnownActiveMapId(mqttId: Option<MapId>, metas: seq<Meta>, shown: Option<MapId>) returns (id: Option<MapId>)
    ensures id == KnownId(mqttId, metas, shown)
    ensures mqttId.Some? ==> id == mqttId
    ensures mqttId.None? ==> forall i :: 0 <= i < |metas| && FirstSettling(metas, i) ==>
      forall k :: id == Some(k) <==> metas[i].id == Listed(k)
    ensures mqttId.None? && (forall i :: 0 <= i < |metas| ==> !FirstSettling(metas, i)) ==> id == shown
  {
    if mqttId.Some? {
      return mqttId;
    }
    for i := 0 to |metas|
      invariant forall j :: 0 <= j < i ==> !Settles(metas[j])
    {
      if metas[i].cur && !metas[i].id.Absent? {
        assert FirstSettling(metas, i);
        SkipUnsettling(metas, shown, i);
        return IdOf(metas[i]);
      }
    }
    SkipUnsettling(metas, shown, |metas|);
    assert forall i :: 0 <= i < |metas| && FirstSettling(metas, i) ==> Settles(metas[i]);
    return shown;
  }

  // ---- how often

  /** A request that went out */
  datatype Sent = Sent(id: MapId, at: real)

  /** When each map was last asked for, and the requests sent so far */
  datatype State = State(lastAt: map<MapId, real>, sent: seq<Sent>, now: real)

  const START := State(map[], [], 0.0)

  /** A wish for an upload; the target is none when no map is known */
  datatype Wish = Wish(target: Option<MapId>, at: real)

  predicate Throttled(s: State, id: MapId, at: real) {
    id in s.lastAt && at - s.lastAt[id] < UPLOAD_THROTTLE_SECONDS
  }

  predicate LetThrough(s: State, w: Wish) {
    w.target.Some? && !Throttled(s, w.target.value, w.at)
  }

  function Step(s: State, w: Wish): State {
    if LetThrough(s, w)
    then State(s.lastAt[w.target.value := w.at], s.sent + [Sent(w.target.value, w.at)], w.at)
    else s.(now := w.at)
  }

  ghost predicate Runs(s: State, ws: seq<Wish>, t: State)
    decreases |ws|
  {
    if ws == [] then t == s
    else ws[0].at >= s.now && Runs(Step(s, ws[0]), ws[1..], t)
  }

  /** Request i is within the window before a time. */
  ghost predicate Recent(s: State, i: nat, id: MapId, at: real)
    requires i < |s.sent|
  {
    s.sent[i].id == id && at - s.sent[i].at < UPLOAD_THROTTLE_SECONDS
  }

  /** The stamp of a map is its latest request. */
  ghost predicate Stamped(s: State, i: nat)
    requires i < |s.sent|
  {
    s.sent[i].id in s.lastAt && s.sent[i].at <= s.lastAt[s.sent[i].id] <= s.now
  }

  ghost predicate Backed(s: State, id: MapId)
    requires id in s.lastAt
  {
    exists i :: 0 <= i < |s.sent| && s.sent[i] == Sent(id, s.lastAt[id])
  }

  ghost predicate Apart(s: State, i: nat, j: nat)
    requires i < j < |s.sent|
  {
    s.sent[i].id == s.sent[j].id ==> s.sent[j].at >= s.sent[i].at + UPLOAD_THROTTLE_SECONDS
  }

  ghost predicate Inv(s: State) {
    && (forall i :: 0 <= i < |s.sent| ==> Stamped(s, i))
    && (forall id :: id in s.lastAt ==> Backed(s, id))
    && (forall i, j :: 0 <= i < j < |s.sent| ==> Apart(s, i, j))
  }

  /** The stamp answers for all requests: a wish is throttled when one for its map went out within the window. */
  lemma ThrottledByRequest(s: State, id: MapId, at: real)
    requires Inv(s)
    ensures Throttled(s, id, at) <==> exists i :: 0 <= i < |s.sent| && Recent(s, i, id, at)
  {
    if Throttled(s, id, at) {
      assert Backed(s, id);
      var i :| 0 <= i < |s.sent| && s.sent[i] == Sent(id, s.lastAt[id]);
      assert Recent(s, i, id, at);
    }
    if i :| 0 <= i < |s.sent| && Recent(s, i, id, at) {
      assert Stamped(s, i);
    }
  }

  lemma SendKeepsBacked(s: State, w: Wish, id: MapId)
    requires Inv(s) && w.at >= s.now && LetThrough(s, w) && id in Step(s, w).lastAt
    ensures Backed(Step(s, w), id)
  {
    var t := Step(s, w);
    if id == w.target.value {
      assert t.sent[|s.sent|] == Sent(id, t.lastAt[id]);
    } else {
      assert Backed(s, id);
      var i :| 0 <= i < |s.sent| && s.sent[i] == Sent(id, s.lastAt[id]);
      assert t.sent[i] == Sent(id, t.lastAt[id]);
    }
  }

  lemma SendKeepsApart(s: State, w: Wish, i: nat, j: nat)
    requires Inv(s) && w.at >= s.now && LetThrough(s, w) && i < j < |Step(s, w).sent|
    ensures Apart(Step(s, w), i, j)
  {
    assert Stamped(s, i);
    if j < |s.sent| {
      assert Apart(s, i, j);
    }
  }

  lemma StepKeepsInv(s: State, w: Wish)
    requires Inv(s) && w.at >= s.now
    ensures Inv(Step(s, w))
  {
    var t := Step(s, w);
    forall i | 0 <= i < |t.sent| ensures Stamped(t, i) {
      if i < |s.sent| { assert Stamped(s, i); }
    }
    if LetThrough(s, w) {
      forall id | id in t.lastAt ensures Backed(t, id) { SendKeepsBacked(s, w, id); }
      forall i, j | 0 <= i < j < |t.sent| ensures Apart(t, i, j) { SendKeepsApart(s, w, i, j); }
    } else {
      forall id | id in t.lastAt ensures Backed(t, id) { assert Backed(s, id); }
      forall i, j | 0 <= i < j < |t.sent| ensures Apart(t, i, j) { assert Apart(s, i, j); }
    }
  }

  lemma {:induction false} RunKeepsInv(s: State, ws: seq<Wish>, t: State)
    requires Inv(s) && Runs(s, ws, t)
    ensures Inv(t)
    decreases |ws|
  {
    if ws != [] {
      StepKeepsInv(s, ws[0]);
      RunKeepsInv(Step(s, ws[0]), ws[1..], t);
    }
  }

  /**
   On any run from the start, two requests for the same map are at least the window apart, and a
   wish fails to go out only for want of a target or because its own map was asked for within the window.
   */
  lemma UploadsAreSpaced(ws: seq<Wish>, t: State, next: Wish)
    requires Runs(START, ws, t) && next.at >= t.now
    ensures forall i, j :: 0 <= i < j < |t.sent| && t.sent[i].id == t.sent[j].id ==>
                             t.sent[j].at >= t.sent[i].at + UPLOAD_THROTTLE_SECONDS
    ensures LetThrough(t, next) <==>
            (next.target.Some? && forall i :: 0 <= i < |t.sent| ==> !Recent(t, i, next.target.value, next.at))
  {
    RunKeepsInv(START, ws, t);
    forall i, j | 0 <= i < j < |t.sent| && t.sent[i].id == t.sent[j].id
      ensures t.sent[j].at >= t.sent[i].at + UPLOAD_THROTTLE_SECONDS
    {
      assert Apart(t, i, j);
    }
    if next.target.Some? {
      ThrottledByRequest(t, next.target.value, next.at);
    }
  }

  // ---- the object

  datatype Route = Cloud | Local

  /** The record of a request for the cycle that follows */
  datatype UploadRequest = UploadRequest(route: Route, ok: bool)

  /** What comes of a request: the cloud is asked first, when there is one; the vacuum itself if that fails. */
  function Outcome(cloudAccepts: bool, localAccepts: bool): UploadRequest {
    if cloudAccepts then UploadRequest(Cloud, true) else UploadRequest(Local, localAccepts)
  }

  class UploadRequester {
    var lastUploadRequestAt: map<MapId, real>
    var pendingUploadRequest: Option<UploadRequest>
    ghost var sent: seq<Sent>
    ghost var now: real

    ghost function Abs(): State
      reads this
    {
      State(lastUploadRequestAt, sent, now)
    }

    constructor ()
      ensures Abs() == START && Inv(Abs()) && pendingUploadRequest.None?
    {
      lastUploadRequestAt, pendingUploadRequest := map[], None;
      sent, now := [], 0.0;
    }

    /** The request without a target or inside the window leaves no trace and reports false. */
    method RequestMapUpload(target: Option<MapId>, at: real, hasCloud: bool, cloudReply: bool, localReply: bool)
      returns (ok: bool)
      requires Inv(Abs()) && at >= now
      modifies this
      ensures Inv(Abs()) && Abs() == Step(old(Abs()), Wish(target, at))
      ensures LetThrough(old(Abs()), Wish(target, at)) ==>
        && (hasCloud && cloudReply ==> pendingUploadRequest == Some(UploadRequest(Cloud, true)))
        && (!(hasCloud && cloudReply) ==> pendingUploadRequest == Some(UploadRequest(Local, localReply)))
        && (ok <==> (hasCloud && cloudReply) || localReply)
      ensures !LetThrough(old(Abs()), Wish(target, at)) ==> pendingUploadRequest == old(pendingUploadRequest) && !ok
    {
      StepKeepsInv(Abs(), Wish(target, at));
      now := at;
      if target.None? {
        return false;
      }
      var id := target.value;
      if id in lastUploadRequestAt && at - lastUploadRequestAt[id] < UPLOAD_THROTTLE_SECONDS {
        return false;
      }
      lastUploadRequestAt := lastUploadRequestAt[id := at];
      sent := sent + [Sent(id, at)];
      if hasCloud {
        if cloudReply {
          pendingUploadRequest := Some(UploadRequest(Cloud, true));
          return true;
        }
      }
      pendingUploadRequest := Some(UploadRequest(Local, localReply));
      return localReply;
    }

    /** The record of the last request, for the cycle that begins */
    method TakePending() returns (request: Option<UploadRequest>)
      modifies `pendingUploadRequest
      ensures request == old(pendingUploadRequest) && pendingUploadRequest.None?
    {
      request := pendingUploadRequest;
      pendingUploadRequest := None;
    }
  }
}
