/** Which physical map a fetch cycle's data belongs to. */
module ActiveMap {
  import opened Options
  import opened MapStore

  /** A map rendered from one cloud slot */
  datatype Decode = Decode(mapId: Option<MapId>, png: Image, attributes: Fields, vector: Fields, hash: Hash)

  /** The id of a map-list entry: missing, a number, or something that does not convert to one */
  datatype MetaId = Absent | Listed(id: MapId) | Unparseable

  datatype Meta = Meta(id: MetaId, cur: bool, name: string)

  /** The source that settled the id */
  datatype TrustStep = Blob | MapList | Mqtt | SingleMap | Unresolved

  const SINGLE_MAP_ID := MapId(0)

  /** The id embedded in the first decoded blob that carries one */
  function BlobId(decoded: seq<Decode>): Option<MapId> {
    if decoded == [] then None
    else if decoded[0].mapId.Some? then decoded[0].mapId
    else BlobId(decoded[1..])
  }

  /** The first entry flagged as current */
  function CurrentMeta(metas: seq<Meta>): Option<Meta> {
    if metas == [] then None
    else if metas[0].cur then Some(metas[0])
    else CurrentMeta(metas[1..])
  }

  /** The trust order: a blob's own id, the current map-list entry, the last signalled id, the one map there is. */
  function ResolveActiveId(decoded: seq<Decode>, metas: seq<Meta>, mqttId: Option<MapId>, hasMapList: bool)
    : (Option<MapId>, TrustStep)
  {
    var current := CurrentMeta(metas);
    if BlobId(decoded).Some? then (BlobId(decoded), Blob)
    else if current.Some? && current.value.id.Listed? then (Some(current.value.id.id), MapList)
    else if hasMapList && mqttId.Some? then (mqttId, Mqtt)
    else if !hasMapList && metas == [] then (Some(SINGLE_MAP_ID), SingleMap)
    else (None, Unresolved)
  }

  ghost predicate FirstWithId(decoded: seq<Decode>, i: nat)
    requires i < |decoded|
  {
    decoded[i].mapId.Some? && forall j :: 0 <= j < i ==> decoded[j].mapId.None?
  }

  lemma {:induction false} BlobIdIsFirst(decoded: seq<Decode>)
    ensures BlobId(decoded).None? <==> forall i :: 0 <= i < |decoded| ==> decoded[i].mapId.None?
    ensures BlobId(decoded).Some? ==>
      exists i :: 0 <= i < |decoded| && FirstWithId(decoded, i) && decoded[i].mapId == BlobId(decoded)
  {
    if decoded != [] && decoded[0].mapId.None? {
      BlobIdIsFirst(decoded[1..]);
      if BlobId(decoded[1..]).Some? {
        var i :| 0 <= i < |decoded[1..]| && FirstWithId(decoded[1..], i) && decoded[1..][i].mapId == BlobId(decoded);
        forall j | 0 <= j < i + 1 ensures decoded[j].mapId.None? {
          assert j > 0 ==> decoded[j] == decoded[1..][j - 1];
        }
        assert FirstWithId(decoded, i + 1);
      }
    }
  }

  ghost predicate FirstCurrent(metas: seq<Meta>, i: nat)
    requires i < |metas|
  {
    metas[i].cur && forall j :: 0 <= j < i ==> !metas[j].cur
  }

  /** The first entry flagged as current holds this id. */
  ghost predicate ListsCurrent(metas: seq<Meta>, id: MapId) {
    exists i :: 0 <= i < |metas| && FirstCurrent(metas, i) && metas[i].id == Listed(id)
  }

  lemma {:induction false} CurrentMetaIsFirst(metas: seq<Meta>)
    ensures CurrentMeta(metas).None? <==> forall i :: 0 <= i < |metas| ==> !metas[i].cur
    ensures forall i :: 0 <= i < |metas| && FirstCurrent(metas, i) ==> CurrentMeta(metas) == Some(metas[i])
    ensures CurrentMeta(metas).Some? ==> exists i :: 0 <= i < |metas| && FirstCurrent(metas, i)
  {
    if metas != [] {
      var rest := metas[1..];
      if metas[0].cur {
        assert FirstCurrent(metas, 0);
      } else {
        CurrentMetaIsFirst(rest);
        forall i | 0 <= i < |metas| && FirstCurrent(metas, i) ensures CurrentMeta(metas) == Some(metas[i]) {
          FirstCurrentShifts(metas, i);
        }
        if CurrentMeta(rest).Some? {
          var i :| 0 <= i < |rest| && FirstCurrent(rest, i);
          FirstCurrentShifts(metas, i + 1);
        }
      }
    }
  }

  lemma FirstCurrentShifts(metas: seq<Meta>, i: nat)
    requires 0 < i < |metas| && !metas[0].cur
    ensures FirstCurrent(metas, i) <==> FirstCurrent(metas[1..], i - 1)
  {
    var rest := metas[1..];
    if FirstCurrent(rest, i - 1) {
      forall j | 0 <= j < i ensures !metas[j].cur { assert j > 0 ==> metas[j] == rest[j - 1]; }
    }
    if FirstCurrent(metas, i) {
      forall j | 0 <= j < i - 1 ensures !rest[j].cur { assert rest[j] == metas[j + 1]; }
    }
  }

  ghost predicate NoIds(decoded: seq<Decode>) {
    forall i :: 0 <= i < |decoded| ==> decoded[i].mapId.None?
  }

  /**
   The order of trust, whatever else is known. The id of the first blob that carries one; without
   that the id of the first entry flagged as current, if it is one; without that, where the device
   has a map list, the last signalled id; where it has none and none was read, its only map.
   */
  lemma OrderOfTrust(decoded: seq<Decode>, metas: seq<Meta>, mqttId: Option<MapId>, hasMapList: bool)
    ensures var r := ResolveActiveId(decoded, metas, mqttId, hasMapList);
      && (forall i :: 0 <= i < |decoded| && FirstWithId(decoded, i) ==> r == (decoded[i].mapId, Blob))
      && (NoIds(decoded) ==> forall id :: ListsCurrent(metas, id) ==> r == (Some(id), MapList))
      && (NoIds(decoded) && (forall id :: !ListsCurrent(metas, id)) ==>
            && (hasMapList && mqttId.Some? ==> r == (mqttId, Mqtt))
            && (hasMapList && mqttId.None? ==> r == (None, Unresolved))
            && (!hasMapList && metas == [] ==> r == (Some(MapId(0)), SingleMap))
            && (!hasMapList && metas != [] ==> r == (None, Unresolved)))
  {
    BlobIdIsFirst(decoded);
    CurrentMetaIsFirst(metas);
    forall i | 0 <= i < |decoded| && FirstWithId(decoded, i) ensures BlobId(decoded) == decoded[i].mapId {
      OneFirst(decoded, i);
    }
    if NoIds(decoded) && CurrentMeta(metas).Some? && CurrentMeta(metas).value.id.Listed? {
      assert ListsCurrent(metas, CurrentMeta(metas).value.id.id);
    }
  }

  lemma OneFirst(decoded: seq<Decode>, i: nat)
    requires i < |decoded| && FirstWithId(decoded, i)
    ensures BlobId(decoded) == decoded[i].mapId
  {
    BlobIdIsFirst(decoded);
    var j :| 0 <= j < |decoded| && FirstWithId(decoded, j) && decoded[j].mapId == BlobId(decoded);
    assert i == j;
  }

  /**
   A profile without a map list never trusts a signalled id, and one with a map list is never
   mistaken for a single-map device, however the list read went.
   */
  lemma MqttOnlyWithMapList(decoded: seq<Decode>, metas: seq<Meta>, mqttId: Option<MapId>, hasMapList: bool)
    ensures !hasMapList ==>
      ResolveActiveId(decoded, metas, mqttId, hasMapList) == ResolveActiveId(decoded, metas, None, hasMapList)
    ensures hasMapList ==> ResolveActiveId(decoded, metas, mqttId, hasMapList).1 != SingleMap
    ensures ResolveActiveId(decoded, metas, mqttId, hasMapList).0.None? <==>
      && (forall i :: 0 <= i < |decoded| ==> decoded[i].mapId.None?)
      && (CurrentMeta(metas).None? || !CurrentMeta(metas).value.id.Listed?)
      && (if hasMapList then mqttId.None? else metas != [])
  {
    BlobIdIsFirst(decoded);
  }
}
