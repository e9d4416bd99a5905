/**
 The last-known-good map cache: entries by map id, written only when a content hash changes or a
 map is dropped, and saved to a versioned file.
 */
module MapStore {
  import opened Options
  import opened Sums

  /** The id of a physical map (its mapHeadId) */
  datatype MapId = MapId(n: int)

  /** A rendered image */
  datatype Image = Image(png: string)

  /** The digest of the bytes a map was rendered from */
  datatype Hash = Hash(hex: string)

  /** Values inside a map's attribute and vector dictionaries */
  datatype Val = Pose(x: real, y: real, a: int) | Num(n: int) | Text(s: string) | Flag(b: bool) | Null

  type Fields = map<string, Val>

  function Get(f: Fields, key: string): Option<Val> {
    if key in f then Some(f[key]) else None
  }

  /** What a dictionary was made for */
  datatype Owner = VectorOf(id: MapId) | AttributesOf(id: MapId) | PageOf(id: MapId)

  /** A dictionary object; several holders may share one. */
  class Dict {
    ghost const owner: Owner
    var m: Fields

    constructor (m0: Fields, ghost owner0: Owner)
      ensures m == m0 && owner == owner0
    {
      m, owner := m0, owner0;
    }
  }

  /** One cached map as stored: the dictionaries are held by reference. */
  datatype CachedMap = CachedMap(mapHeadId: MapId, png: Image, attributes: Dict, vector: Dict, hash: Hash,
                                 timestamp: real)

  /** One cached map by value */
  datatype Entry = Entry(mapHeadId: MapId, png: Image, attributes: Fields, vector: Fields, hash: Hash, timestamp: real)

  type Entries = map<MapId, Entry>

  // ---- the persisted form

  /** Base64 text, taken as an exact wrapping of what it encodes, or text that does not decode */
  datatype Text64 = Encoded(payload: Image) | Garbage

  /** A persisted record; None stands for a key that is missing or does not convert. */
  datatype Record =
    | NotARecord
    | Record(mapHeadId: Option<MapId>, png64: Option<Text64>, attributes: Option<Fields>, vector: Option<Fields>,
             hash: Option<Hash>, timestamp: Option<real>)

  /** What the storage file holds; Misshapen is an object whose maps are neither empty nor an object. */
  datatype File = NoFile | Unreadable | NotAnObject | Misshapen(version: int) | Saved(version: int, maps: seq<Record>)

  const STORAGE_VERSION := 5

  function ToJson(e: Entry): Record {
    Record(Some(e.mapHeadId), Some(Encoded(e.png)), Some(e.attributes), Some(e.vector), Some(e.hash), Some(e.timestamp))
  }

  function FromJson(r: Record): Option<Entry> {
    match r
    case Record(Some(id), Some(Encoded(png)), attributes, vector, Some(hash), Some(ts)) =>
      Some(Entry(id, png, if attributes.Some? then attributes.value else map[],
                 if vector.Some? then vector.value else map[], hash, ts))
    case _ => None
  }

  /** The entries of a list of records, a later record winning over an earlier one with the same id */
  function LoadRecords(records: seq<Record>): Entries {
    if records == [] then map[]
    else
      var before, last := LoadRecords(records[..|records| - 1]), FromJson(records[|records| - 1]);
      if last.Some? then before[last.value.mapHeadId := last.value] else before
  }

  /** The entries a file yields. None: the file is of this version but misshapen, and reading it raises. */
  function Load(file: File): Option<Entries> {
    match file
    case Saved(version, maps) => Some(if version == STORAGE_VERSION then LoadRecords(maps) else map[])
    case Misshapen(version) => if version == STORAGE_VERSION then None else Some(map[])
    case _ => Some(map[])
  }

  /** What the cache holds after reading a file, also when that raised */
  function Loaded(file: File): Entries {
    if Load(file).Some? then Load(file).value else map[]
  }

  ghost predicate IsRecordOf(r: Record, entries: Entries) {
    exists k :: k in entries && r == ToJson(entries[k])
  }

  /** The file holds exactly these entries, in some order. */
  ghost predicate FileHolds(file: File, entries: Entries) {
    && file.Saved? && file.version == STORAGE_VERSION
    && (forall i :: 0 <= i < |file.maps| ==> IsRecordOf(file.maps[i], entries))
    && (forall k :: k in entries ==> ToJson(entries[k]) in file.maps)
  }

  ghost predicate KeyedById(entries: Entries) {
    forall k :: k in entries ==> entries[k].mapHeadId == k
  }

  lemma {:induction false} LoadKeepsIds(records: seq<Record>)
    ensures KeyedById(LoadRecords(records))
  {
    if records != [] {
      LoadKeepsIds(records[..|records| - 1]);
    }
  }

  /** A record that stands for an entry, or one that is malformed */
  ghost predicate RecordOrJunk(r: Record, entries: Entries) {
    FromJson(r).None? || IsRecordOf(r, entries)
  }

  /** Loading a mix of records of entries and malformed ones gives exactly the entries that have a record. */
  lemma {:induction false} LoadOfRecords(records: seq<Record>, entries: Entries)
    requires KeyedById(entries)
    requires forall i :: 0 <= i < |records| ==> RecordOrJunk(records[i], entries)
    ensures forall k :: k in LoadRecords(records) <==> k in entries && ToJson(entries[k]) in records
    ensures forall k :: k in LoadRecords(records) ==> LoadRecords(records)[k] == entries[k]
  {
    if records != [] {
      var front, r := records[..|records| - 1], records[|records| - 1];
      assert records == front + [r];
      LoadOfRecords(front, entries);
      assert RecordOrJunk(r, entries);
      forall k | k in entries ensures FromJson(ToJson(entries[k])) == Some(entries[k]) {
      }
      if FromJson(r).Some? {
        var id :| id in entries && r == ToJson(entries[id]);
      }
    }
  }

  /** Loading what was saved restores the same entries. */
  lemma LoadAfterSave(file: File, entries: Entries)
    requires KeyedById(entries) && FileHolds(file, entries)
    ensures Load(file) == Some(entries)
  {
    forall i | 0 <= i < |file.maps| ensures RecordOrJunk(file.maps[i], entries) {
      assert IsRecordOf(file.maps[i], entries);
    }
    LoadOfRecords(file.maps, entries);
    assert LoadRecords(file.maps) == entries by {
      assert forall k :: k in LoadRecords(file.maps) <==> k in entries;
    }
  }

  // ---- what records and files mean

  /** The record describes the entry; dictionaries that are missing count as empty. */
  ghost predicate Describes(r: Record, e: Entry) {
    && r.Record? && r.mapHeadId == Some(e.mapHeadId) && r.png64 == Some(Encoded(e.png))
    && e.attributes == (if r.attributes == None then map[] else r.attributes.value)
    && e.vector == (if r.vector == None then map[] else r.vector.value)
    && r.hash == Some(e.hash) && r.timestamp == Some(e.timestamp)
  }

  /** A record is read as the one entry it describes, or as none when it describes none. */
  lemma ReadAsDescribed(r: Record)
    ensures forall e :: Describes(r, e) <==> FromJson(r) == Some(e)
  {
  }

  /** Record i describes an entry of map k, and no later one does. */
  ghost predicate LastOf(records: seq<Record>, i: nat, k: MapId, e: Entry)
    requires i < |records|
  {
    && Describes(records[i], e) && e.mapHeadId == k
    && forall j, f :: i < j < |records| && Describes(records[j], f) ==> f.mapHeadId != k
  }

  lemma LastOfMore(records: seq<Record>, i: nat, k: MapId, e: Entry)
    requires i + 1 < |records|
    ensures LastOf(records, i, k, e) <==>
      && LastOf(records[..|records| - 1], i, k, e)
      && forall f :: Describes(records[|records| - 1], f) ==> f.mapHeadId != k
  {
    var front := records[..|records| - 1];
    if LastOf(records, i, k, e) {
      forall j, f | i < j < |front| && Describes(front[j], f) ensures f.mapHeadId != k {
        assert front[j] == records[j];
      }
    }
    if LastOf(front, i, k, e) && forall f :: Describes(records[|records| - 1], f) ==> f.mapHeadId != k {
      forall j, f | i < j < |records| && Describes(records[j], f) ensures f.mapHeadId != k {
        assert j < |front| ==> front[j] == records[j];
      }
    }
  }

  /** A list of records yields, for each map, the entry of the last record that describes one, and nothing else. */
  lemma {:induction false} LastRecordWins(records: seq<Record>, k: MapId)
    ensures k in LoadRecords(records) <==> exists i, e :: 0 <= i < |records| && LastOf(records, i, k, e)
    ensures forall i, e :: 0 <= i < |records| && LastOf(records, i, k, e) ==>
      k in LoadRecords(records) && LoadRecords(records)[k] == e
  {
    if records != [] {
      var front, n := records[..|records| - 1], |records| - 1;
      LastRecordWins(front, k);
      ReadAsDescribed(records[n]);
      var last := FromJson(records[n]);
      if last.Some? && last.value.mapHeadId == k {
        assert LastOf(records, n, k, last.value);
      } else if k in LoadRecords(front) {
        var i, e :| 0 <= i < |front| && LastOf(front, i, k, e);
        LastOfMore(records, i, k, e);
      }
      forall i, e | 0 <= i < |records| && LastOf(records, i, k, e)
        ensures k in LoadRecords(records) && LoadRecords(records)[k] == e
      {
        if i < n {
          LastOfMore(records, i, k, e);
        }
      }
    }
  }

  /** Only a file of the current version counts, any other is empty; reading raises where its maps have no values. */
  lemma LoadByVersion(file: File)
    ensures Load(file).None? <==> file.Misshapen? && file.version == 5
    ensures Load(file).Some? && (file.Saved? ==> file.version != 5) ==> Load(file).value == map[]
    ensures file.Saved? && file.version == 5 ==>
      forall k, i, e :: 0 <= i < |file.maps| && LastOf(file.maps, i, k, e) ==>
        k in Load(file).value && Load(file).value[k] == e
    ensures file.Saved? && file.version == 5 ==> forall k :: k in Load(file).value ==>
      exists i, e :: 0 <= i < |file.maps| && LastOf(file.maps, i, k, e)
  {
    if file.Saved? && file.version == 5 {
      forall k {
        LastRecordWins(file.maps, k);
      }
    }
  }

  ghost predicate DescribedIn(records: seq<Record>, e: Entry) {
    exists i :: 0 <= i < |records| && Describes(records[i], e)
  }

  ghost predicate DescribesOneOf(r: Record, entries: Entries) {
    exists k :: k in entries && Describes(r, entries[k])
  }

  /** A file that was saved is of the current version and describes each entry, and only those. */
  lemma SavedFileDescribes(file: File, entries: Entries)
    requires FileHolds(file, entries)
    ensures file.version == 5
    ensures forall k :: k in entries ==> DescribedIn(file.maps, entries[k])
    ensures forall i :: 0 <= i < |file.maps| ==> DescribesOneOf(file.maps[i], entries)
  {
    forall k | k in entries ensures DescribedIn(file.maps, entries[k]) {
      WrittenAsDescribed(entries[k]);
    }
    forall i | 0 <= i < |file.maps| ensures DescribesOneOf(file.maps[i], entries) {
      assert IsRecordOf(file.maps[i], entries);
      var k :| k in entries && file.maps[i] == ToJson(entries[k]);
      WrittenAsDescribed(entries[k]);
    }
  }

  lemma WrittenAsDescribed(e: Entry)
    ensures Describes(ToJson(e), e)
  {
  }

  // ---- the cache as a value

  function Upserted(c: Entries, e: Entry): Entries {
    if e.mapHeadId in c && c[e.mapHeadId].hash == e.hash then c else c[e.mapHeadId := e]
  }

  function Pruned(c: Entries, keep: set<MapId>): Entries {
    map k | k in c && k in keep :: c[k]
  }

  datatype Op = LoadOp(file: File) | UpsertOp(entry: Entry) | PruneOp(keep: set<MapId>)

  ghost function After(c: Entries, ops: seq<Op>): Entries {
    if ops == [] then c
    else
      var before := After(c, ops[..|ops| - 1]);
      match ops[|ops| - 1]
      case LoadOp(file) => Loaded(file)
      case UpsertOp(e) => Upserted(before, e)
      case PruneOp(keep) => Pruned(before, keep)
  }

  ghost function Hashes(c: Entries): map<MapId, Hash> {
    map k | k in c :: c[k].hash
  }

  /** The plain map from id to the hash written last */
  ghost function LastWritten(h: map<MapId, Hash>, ops: seq<Op>): map<MapId, Hash> {
    if ops == [] then h
    else
      var before := LastWritten(h, ops[..|ops| - 1]);
      match ops[|ops| - 1]
      case LoadOp(file) => Hashes(Loaded(file))
      case UpsertOp(e) => before[e.mapHeadId := e.hash]
      case PruneOp(keep) => map k | k in before && k in keep :: before[k]
  }

  /** After any operations the cache is keyed by id and holds, for each id, the hash upserted last. */
  lemma {:induction false} CacheIsLastWriteMap(c: Entries, ops: seq<Op>)
    requires KeyedById(c)
    ensures KeyedById(After(c, ops)) && Hashes(After(c, ops)) == LastWritten(Hashes(c), ops)
  {
    if ops != [] {
      CacheIsLastWriteMap(c, ops[..|ops| - 1]);
      var last := ops[|ops| - 1];
      if last.LoadOp? && last.file.Saved? {
        LoadKeepsIds(last.file.maps);
      }
    }
  }

  // ---- the cache object

  class MapCache {
    var maps: map<MapId, CachedMap>
    var loaded: bool
    var file: File
    /** The entries by value */
    ghost var view: Entries

    /** Every dictionary the cache has held */
    ghost var dicts: set<Dict>

    /** Each dictionary was made for its own entry, so no two entries share one; and the view is what they hold. */
    ghost predicate Valid()
      reads `maps, `view, `dicts, dicts
    {
      InOrder(maps, view, dicts)
    }

    constructor (file0: File)
      ensures Valid() && view == map[] && !loaded && file == file0
    {
      maps, loaded, file, view, dicts := map[], false, file0, map[], {};
    }

    /** Catch up with a change to the dictionaries of one entry. */
    ghost method Resee(k: MapId, e: Entry)
      requires k in maps && maps.Keys == view.Keys && Fits(k, maps[k], e)
      requires forall j :: j in maps && j != k ==> Fits(j, maps[j], view[j])
      requires forall j :: j in maps ==> maps[j].vector in dicts && maps[j].attributes in dicts
      requires forall d <- dicts :: !d.owner.PageOf?
      modifies `view
      ensures Valid() && view == old(view)[k := e]
    {
      view := view[k := e];
    }

    /** Load the persisted entries; anything unreadable or of another version counts as empty. False: it raised. */
    method AsyncLoad() returns (ok: bool)
      modifies this
      ensures Valid() && file == old(file) && view == Loaded(file) && KeyedById(view)
      ensures ok == Load(file).Some? && loaded == (old(loaded) || ok)
      ensures fresh(dicts)
    {
      maps, view, dicts := map[], map[], {};
      if file.Misshapen? && file.version == STORAGE_VERSION {
        return false;
      }
      if file.Saved? && file.version == STORAGE_VERSION {
        var records := file.maps;
        for i := 0 to |records|
          invariant Valid() && file == old(file) && loaded == old(loaded) && view == LoadRecords(records[..i])
          invariant fresh(dicts)
        {
          assert records[..i + 1][..i] == records[..i];
          var cached := FromJson(records[i]);
          if cached.Some? {
            var e := cached.value;
            var attributes := new Dict(e.attributes, AttributesOf(e.mapHeadId));
            var vector := new Dict(e.vector, VectorOf(e.mapHeadId));
            Put(e, CachedMap(e.mapHeadId, e.png, attributes, vector, e.hash, e.timestamp));
          }
        }
        assert records[..|records|] == records;
        LoadKeepsIds(records);
      }
      loaded := true;
      return true;
    }

    method Put(ghost e: Entry, c: CachedMap)
      requires Valid() && Fits(c.mapHeadId, c, e)
      modifies `maps, `view, `dicts
      ensures Valid() && maps == old(maps)[c.mapHeadId := c] && view == old(view)[c.mapHeadId := e]
      ensures dicts == old(dicts) + {c.vector, c.attributes}
    {
      PutFits(maps, view, dicts, c, e);
      maps, view, dicts := maps[c.mapHeadId := c], view[c.mapHeadId := e], dicts + {c.vector, c.attributes};
    }

    method Replace(c: CachedMap)
      requires Valid() && c.vector.owner == VectorOf(c.mapHeadId) && c.attributes.owner == AttributesOf(c.mapHeadId)
      modifies `maps, `view, `dicts, `file
      ensures Valid() && maps == old(maps)[c.mapHeadId := c]
      ensures dicts == old(dicts) + {c.vector, c.attributes}
      ensures view == old(view)[c.mapHeadId := ByValue(c)] && FileHolds(file, view)
    {
      Put(ByValue(c), c);
      AsyncSave();
    }

    /** Insert or replace one entry, unless its hash is already cached. Returns whether storage was written. */
    method AsyncUpsert(id: MapId, png: Image, attributes: Dict, vector: Dict, hash: Hash, timestamp: real)
      returns (written: bool)
      requires Valid() && vector.owner == VectorOf(id) && attributes.owner == AttributesOf(id)
      modifies `maps, `view, `dicts, `file
      ensures Valid() && (written <==> !(id in old(view) && old(view)[id].hash == hash))
      ensures var c := CachedMap(id, png, attributes, vector, hash, timestamp);
        maps == if written then old(maps)[id := c] else old(maps)
      ensures view == Upserted(old(view), Entry(id, png, attributes.m, vector.m, hash, timestamp))
      ensures dicts == if written then old(dicts) + {attributes, vector} else old(dicts)
      ensures if written then FileHolds(file, view) else file == old(file)
    {
      assert id in maps ==> Fits(id, maps[id], view[id]);
      if id in maps && maps[id].hash == hash {
        return false;
      }
      Replace(CachedMap(id, png, attributes, vector, hash, timestamp));
      return true;
    }

    /** Drop every entry that is not to be kept. Returns whether anything was dropped. */
    method AsyncPrune(keep: set<MapId>) returns (written: bool)
      requires Valid()
      modifies `maps, `view, `file
      ensures Valid() && (written <==> exists k :: k in old(view) && k !in keep)
      ensures maps == (map k | k in old(maps) && k in keep :: old(maps)[k]) && view == Pruned(old(view), keep)
      ensures if written then FileHolds(file, view) else file == old(file)
    {
      var drop := maps.Keys - keep;
      if drop == {} {
        KeepsAll(maps, keep);
        KeepsAll(view, keep);
        return false;
      }
      assert Pick(drop) in view && Pick(drop) !in keep;
      Keep(keep);
      AsyncSave();
      return true;
    }

    method Keep(keep: set<MapId>)
      requires Valid()
      modifies `maps, `view
      ensures Valid()
      ensures maps == (map k | k in old(maps) && k in keep :: old(maps)[k]) && view == Pruned(old(view), keep)
    {
      maps, view := map k | k in maps && k in keep :: maps[k], Pruned(view, keep);
    }

    method AsyncSave()
      requires Valid()
      modifies `file
      ensures FileHolds(file, view)
    {
      var records: seq<Record> := [];
      var todo := maps.Keys;
      while todo != {}
        invariant todo <= maps.Keys
        invariant forall i :: 0 <= i < |records| ==> IsRecordOf(records[i], view)
        invariant forall k :: k in maps && k !in todo ==> ToJson(view[k]) in records
      {
        var k :| k in todo;
        todo := todo - {k};
        var c := maps[k];
        var r := ToJson(Entry(c.mapHeadId, c.png, c.attributes.m, c.vector.m, c.hash, c.timestamp));
        assert r == ToJson(view[k]);
        assert IsRecordOf(r, view);
        records := records + [r];
      }
      file := Saved(STORAGE_VERSION, records);
    }
  }

  ghost function ByValue(c: CachedMap): Entry
    reads c.attributes, c.vector
  {
    Entry(c.mapHeadId, c.png, c.attributes.m, c.vector.m, c.hash, c.timestamp)
  }

  /** The cached map under key k reads as entry e. */
  ghost predicate Fits(k: MapId, c: CachedMap, e: Entry)
    reads c.attributes, c.vector
  {
    && c.vector.owner == VectorOf(k) && c.attributes.owner == AttributesOf(k)
    && e == Entry(k, c.png, c.attributes.m, c.vector.m, c.hash, c.timestamp)
    && c.mapHeadId == k
  }

  /** The parts of a valid cache, over values of its fields */
  ghost predicate InOrder(maps: map<MapId, CachedMap>, view: Entries, dicts: set<Dict>)
    reads dicts
  {
    && maps.Keys == view.Keys
    && (forall k :: k in maps ==> maps[k].vector in dicts && maps[k].attributes in dicts)
    && (forall d <- dicts :: !d.owner.PageOf?)
    && forall k :: k in maps ==> Fits(k, maps[k], view[k])
  }

  lemma PutFits(maps: map<MapId, CachedMap>, view: Entries, dicts: set<Dict>, c: CachedMap, e: Entry)
    requires InOrder(maps, view, dicts) && Fits(c.mapHeadId, c, e)
    ensures InOrder(maps[c.mapHeadId := c], view[c.mapHeadId := e], dicts + {c.vector, c.attributes})
  {
  }

  lemma KeepsAll<V>(m: map<MapId, V>, keep: set<MapId>)
    requires m.Keys - keep == {}
    ensures m == map k | k in m && k in keep :: m[k]
    ensures forall k :: k in m ==> k in keep
  {
    assert forall k :: k in m && k !in keep ==> k in m.Keys - keep;
  }
}
