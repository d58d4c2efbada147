/** The vector database: the catalog `metadata: id -> record`, its inverse
    `pathToId: path -> id`, the id counter `currentId`, and the HNSW index,
    which supports only soft deletion and is modelled as a map from label to
    (vector, deleted). The operations are first given as functions on a
    `Store` value, whose properties are proved as lemmas; the class
    `VectorDatabase` then updates its fields in place and is proved to
    follow those functions. */
module VectorDb {
  import opened Common

  type Vector = seq<real>

  /** One HNSW element: its vector and whether it is marked deleted. */
  datatype Entry = Entry(vector: Vector, deleted: bool)

  type Index = map<int, Entry>

  /** The capacity the index is created and loaded with. */
  const MaxElements: nat := 100000

  datatype Store = Store(index: Index, metadata: map<int, Record>, pathToId: map<string, int>, currentId: int)

  const Empty := Store(map[], map[], map[], 0)

  /** One answer of a k-nearest-neighbour query: a label and its cosine distance. */
  datatype Hit = Hit(id: int, distance: real)

  /** The index file on disk: a serialized index, or bytes that
      `load_index` rejects. */
  datatype IndexImage = IndexImage(entries: Index) | CorruptIndex

  /** The catalog file on disk: the `metadata` and `current_id` members
      (`None` where the member is absent), or text that does not parse. */
  datatype CatalogFile = Catalog(records: Option<map<int, Record>>, currentId: Option<int>) | CorruptCatalog

  /** The two files of the storage directory (`None`: the file does not exist). */
  datatype Disk = Disk(indexFile: Option<IndexImage>, metadataFile: Option<CatalogFile>)

  /** Status report of the database. */
  datatype DbStatus = DbStatus(documentCount: nat, embeddingDimension: nat, storageLocation: string,
                               indexFileExists: bool, metadataFileExists: bool)

  /** The `path` field of a record, when it is a string. */
  function PathOf(r: Record): Option<string> {
    if "path" in r && r["path"].Str? then Some(r["path"].s) else None
  }

  function Min(a: int, b: int): int {
    if a <= b then a else b
  }

  /** No two records carry the same path. */
  ghost predicate DistinctPaths(metadata: map<int, Record>) {
    forall i, j :: i in metadata && j in metadata && i != j ==> PathOf(metadata[i]) != PathOf(metadata[j])
  }

  /** `pathToId` holds exactly the records' paths, each mapped to an id
      whose record carries it: what `{v['path']: k for k, v in
      metadata.items()}` builds, whichever record wins for a shared path. */
  ghost predicate PathsOf(pathToId: map<string, int>, metadata: map<int, Record>) {
    && (forall p :: p in pathToId ==>
          pathToId[p] in metadata && PathOf(metadata[pathToId[p]]) == Some(p))
    && (forall id :: id in metadata ==>
          PathOf(metadata[id]).Some? && PathOf(metadata[id]).value in pathToId)
  }

  /** The mapping of `p` points at a record carrying `p`. */
  lemma PathIndexed(pathToId: map<string, int>, metadata: map<int, Record>, p: string)
    requires PathsOf(pathToId, metadata) && p in pathToId
    ensures pathToId[p] in metadata && PathOf(metadata[pathToId[p]]) == Some(p)
  {
  }

  /** The path of a record is mapped. */
  lemma RecordIndexed(pathToId: map<string, int>, metadata: map<int, Record>, id: int)
    requires PathsOf(pathToId, metadata) && id in metadata
    ensures PathOf(metadata[id]).Some? && PathOf(metadata[id]).value in pathToId
  {
  }

  /** `pathToId` and `metadata` are mutually inverse through the records'
      `path` fields. */
  ghost predicate IsPathIndex(pathToId: map<string, int>, metadata: map<int, Record>) {
    && (forall p :: p in pathToId ==>
          pathToId[p] in metadata && PathOf(metadata[pathToId[p]]) == Some(p))
    && (forall id :: id in metadata ==>
          PathOf(metadata[id]).Some? && PathOf(metadata[id]).value in pathToId)
    && DistinctPaths(metadata)
  }

  /** Every label ever given out is below the counter. */
  ghost predicate IdsBelow(index: Index, currentId: int) {
    forall id :: id in index ==> id < currentId
  }

  /** The live (not deleted) labels are exactly the catalogued ids. */
  ghost predicate LiveIsCatalog(index: Index, metadata: map<int, Record>) {
    && metadata.Keys <= index.Keys
    && (forall id :: id in index ==> (id in metadata <==> IsLive(index, id)))
  }

  /** The store invariant. */
  ghost predicate Consistent(s: Store) {
    && IsPathIndex(s.pathToId, s.metadata)
    && IdsBelow(s.index, s.currentId)
    && LiveIsCatalog(s.index, s.metadata)
  }

  /** The record of a re-added path, `{**prev, **meta, 'updated_at': now}`:
      the new metadata wins over the old record and `updated_at` is refreshed. */
  function Merged(prev: Record, meta: Record, updatedAt: string): (r: Record)
    ensures r.Keys == prev.Keys + meta.Keys + {"updated_at"}
    ensures r["updated_at"] == Str(updatedAt)
    ensures forall k :: k in meta && k != "updated_at" ==> r[k] == meta[k]
    ensures forall k :: k in prev && k !in meta && k != "updated_at" ==> r[k] == prev[k]
    ensures "path" !in meta ==> PathOf(r) == PathOf(prev)
  {
    prev + meta + map["updated_at" := Str(updatedAt)]
  }

  /** The record of a newly added path, `{'path': path, 'created_at': c,
      'updated_at': u, **meta}`: the caller's metadata is spread last, so it
      can overwrite the three fixed fields. */
  function NewRecord(path: string, createdAt: string, updatedAt: string, meta: Record): (r: Record)
    ensures r.Keys == meta.Keys + {"path", "created_at", "updated_at"}
    ensures forall k :: k in meta ==> r[k] == meta[k]
    ensures "path" !in meta ==> PathOf(r) == Some(path)
    ensures "created_at" !in meta ==> r["created_at"] == Str(createdAt)
    ensures "updated_at" !in meta ==> r["updated_at"] == Str(updatedAt)
  {
    map["path" := Str(path), "created_at" := Str(createdAt), "updated_at" := Str(updatedAt)] + meta
  }

  /** The label `id` is in the index and not marked deleted, so
      `mark_deleted(id)` succeeds (hnswlib raises on an unknown label and on
      a label already marked deleted). */
  predicate IsLive(index: Index, id: int) {
    id in index && !index[id].deleted
  }

  /** `add_document` for a path already in the database: it keeps its id;
      its label is marked deleted and re-added with the new vector (hnswlib
      then un-deletes it), and its record is merged. Marking raises on a
      label that is unknown or already deleted; the lookup of the old record
      raises if the id has none. */
  function Updated(s: Store, path: string, v: Vector, meta: Record, updatedAt: string)
    : (r: (Store, Result<int>))
    requires path in s.pathToId
    ensures r.0.pathToId == s.pathToId && r.0.currentId == s.currentId
    ensures var id := s.pathToId[path];
      && (r.1.Ok? <==> IsLive(s.index, id) && id in s.metadata)
      && (IsLive(s.index, id) ==> r.0.index == s.index[id := Entry(v, false)])
      && (!IsLive(s.index, id) ==> r.0 == s)
      && (r.1.Err? ==> r.0.metadata == s.metadata)
    ensures r.1.Ok? ==>
      var id := s.pathToId[path];
      && r.1.value == id
      && id in s.metadata
      && r.0.metadata == s.metadata[id := Merged(s.metadata[id], meta, updatedAt)]
  {
    var id := s.pathToId[path];
    if !IsLive(s.index, id) then
      (s, Err("Label not found or already deleted"))
    else if id !in s.metadata then
      (s.(index := s.index[id := Entry(v, false)]), Err("KeyError: document id"))
    else
      (s.(index := s.index[id := Entry(v, false)], metadata := s.metadata[id := Merged(s.metadata[id], meta, updatedAt)]), Ok(id))
  }

  /** `add_document` for a new path: it takes the counter's value as its id
      and the counter moves on by one. Adding a label the index does not
      hold to a full index raises, after the counter has moved; re-adding a
      label it holds overwrites that entry. */
  function Inserted(s: Store, path: string, v: Vector, meta: Record, createdAt: string, updatedAt: string)
    : (r: (Store, Result<int>))
    requires path !in s.pathToId
    ensures r.0.currentId == s.currentId + 1
    ensures r.1.Err? <==> s.currentId !in s.index && |s.index| >= MaxElements
    ensures r.1.Err? ==> r.0 == s.(currentId := s.currentId + 1)
    ensures r.1.Ok? ==>
      var id := s.currentId;
      && r.1.value == id
      && r.0.pathToId == s.pathToId[path := id]
      && r.0.index == s.index[id := Entry(v, false)]
      && r.0.metadata == s.metadata[id := NewRecord(path, createdAt, updatedAt, meta)]
  {
    var id := s.currentId;
    if id !in s.index && |s.index| >= MaxElements then
      (s.(currentId := id + 1), Err("The number of elements exceeds the specified limit"))
    else
      (Store(s.index[id := Entry(v, false)], s.metadata[id := NewRecord(path, createdAt, updatedAt, meta)],
             s.pathToId[path := id], id + 1), Ok(id))
  }

  /** `add_document`: an upsert keyed by path; the two timestamps are the
      clock's readings. */
  function Added(s: Store, path: string, v: Vector, meta: Record, createdAt: string, updatedAt: string)
    : (r: (Store, Result<int>))
    ensures path in s.pathToId ==> r.0.pathToId == s.pathToId
    ensures r.1.Ok? ==> && path in r.0.pathToId && r.0.pathToId[path] == r.1.value
                        && r.1.value in r.0.index && r.0.index[r.1.value] == Entry(v, false)
  {
    if path in s.pathToId then
      var u := Updated(s, path, v, meta, updatedAt);
      assert u.1.Ok? ==> IsLive(s.index, s.pathToId[path]);
      u
    else Inserted(s, path, v, meta, createdAt, updatedAt)
  }

  /** `delete_document`: a known path has its label marked deleted (which
      raises if the label is unknown or already deleted), then loses its
      record (which raises if there is none) and its mapping. An unknown
      path changes nothing and yields `False`. */
  function Deleted(s: Store, path: string): (r: (Store, Result<bool>))
    ensures path !in s.pathToId ==> r == (s, Ok(false))
    ensures path in s.pathToId ==>
      var id := s.pathToId[path];
      && (r.1.Ok? <==> IsLive(s.index, id) && id in s.metadata)
      && (r.1.Ok? ==> r.1.value)
      && (!IsLive(s.index, id) ==> r.0 == s)
      && (IsLive(s.index, id) ==> r.0.index == s.index[id := Entry(s.index[id].vector, true)])
      && r.0.currentId == s.currentId
      && (r.1.Ok? ==> r.0.pathToId == s.pathToId - {path} && r.0.metadata == s.metadata - {id})
      && (r.1.Err? ==> r.0.pathToId == s.pathToId && r.0.metadata == s.metadata)
  {
    if path in s.pathToId then
      var id := s.pathToId[path];
      if !IsLive(s.index, id) then
        (s, Err("Label not found or already deleted"))
      else
        var marked := s.index[id := Entry(s.index[id].vector, true)];
        if id !in s.metadata then
          (s.(index := marked), Err("KeyError: document id"))
        else
          (Store(marked, s.metadata - {id}, s.pathToId - {path}, s.currentId), Ok(true))
    else
      (s, Ok(false))
  }

  /** Replacing records by records with the same paths keeps the path index. */
  lemma SamePathsIndex(pathToId: map<string, int>, m: map<int, Record>, m': map<int, Record>)
    requires IsPathIndex(pathToId, m)
    requires m'.Keys == m.Keys
    requires forall j :: j in m ==> PathOf(m'[j]) == PathOf(m[j])
    ensures IsPathIndex(pathToId, m')
  {
    forall p | p in pathToId
      ensures pathToId[p] in m' && PathOf(m'[pathToId[p]]) == Some(p)
    {
      var j := pathToId[p];
      assert j in m && PathOf(m[j]) == Some(p);
      assert PathOf(m'[j]) == PathOf(m[j]);
    }
    forall i, j | i in m' && j in m' && i != j
      ensures PathOf(m'[i]) != PathOf(m'[j])
    {
      assert PathOf(m[i]) != PathOf(m[j]);
    }
  }

  /** Re-adding a known path keeps the invariant when the new metadata has
      no `path` key. */
  lemma AddedKnownConsistent(s: Store, path: string, v: Vector, meta: Record, createdAt: string, updatedAt: string)
    requires Consistent(s) && path in s.pathToId
    requires "path" !in meta
    ensures Consistent(Added(s, path, v, meta, createdAt, updatedAt).0)
  {
    var id := s.pathToId[path];
    var t := Added(s, path, v, meta, createdAt, updatedAt).0;
    assert id in s.metadata;
    assert IsLive(s.index, id);
    SamePathsIndex(s.pathToId, s.metadata, t.metadata);
  }

  /** Cataloguing a record under a fresh id and an unknown path keeps the
      path index. */
  lemma InsertedIndex(pathToId: map<string, int>, m: map<int, Record>, path: string, id: int, rec: Record)
    requires IsPathIndex(pathToId, m)
    requires path !in pathToId && id !in m && PathOf(rec) == Some(path)
    ensures IsPathIndex(pathToId[path := id], m[id := rec])
  {
    var pt', m' := pathToId[path := id], m[id := rec];
    forall q | q in pt'
      ensures pt'[q] in m' && PathOf(m'[pt'[q]]) == Some(q)
    {
      if q != path {
        assert pathToId[q] in m && pathToId[q] != id;
      }
    }
    forall j | j in m'
      ensures PathOf(m'[j]).Some? && PathOf(m'[j]).value in pt'
    {
      if j != id {
        assert PathOf(m[j]).value in pathToId;
      }
    }
    forall i, j | i in m' && j in m' && i != j
      ensures PathOf(m'[i]) != PathOf(m'[j])
    {
      if i == id {
        assert PathOf(m[j]).value in pathToId;
      } else if j == id {
        assert PathOf(m[i]).value in pathToId;
      } else {
        assert PathOf(m[i]) != PathOf(m[j]);
      }
    }
  }

  /** Adding an unknown path keeps the invariant when the new metadata has
      no `path` key: the fresh id is below no stored id, and no stored record
      already carries the path. */
  lemma AddedNewConsistent(s: Store, path: string, v: Vector, meta: Record, createdAt: string, updatedAt: string)
    requires Consistent(s) && path !in s.pathToId && |s.index| < MaxElements
    requires "path" !in meta
    ensures Consistent(Added(s, path, v, meta, createdAt, updatedAt).0)
  {
    var id := s.currentId;
    assert id !in s.index;
    assert id !in s.metadata;
    InsertedIndex(s.pathToId, s.metadata, path, id, NewRecord(path, createdAt, updatedAt, meta));
  }

  /** Upserting preserves the store invariant, provided the caller's
      metadata does not overwrite the record's `path` field. */
  lemma AddedConsistent(s: Store, path: string, v: Vector, meta: Record, createdAt: string, updatedAt: string)
    requires Consistent(s)
    requires "path" !in meta
    ensures Consistent(Added(s, path, v, meta, createdAt, updatedAt).0)
  {
    if path in s.pathToId {
      AddedKnownConsistent(s, path, v, meta, createdAt, updatedAt);
    } else if |s.index| < MaxElements {
      AddedNewConsistent(s, path, v, meta, createdAt, updatedAt);
    }
  }

  /** Dropping a path and its record keeps the path index. */
  lemma RemovedIndex(pathToId: map<string, int>, m: map<int, Record>, path: string)
    requires IsPathIndex(pathToId, m) && path in pathToId
    ensures IsPathIndex(pathToId - {path}, m - {pathToId[path]})
  {
    var id := pathToId[path];
    var pt', m' := pathToId - {path}, m - {id};
    forall q | q in pt'
      ensures pt'[q] in m' && PathOf(m'[pt'[q]]) == Some(q)
    {
      assert pathToId[q] in m && PathOf(m[pathToId[q]]) == Some(q);
    }
    forall j | j in m'
      ensures PathOf(m'[j]).Some? && PathOf(m'[j]).value in pt'
    {
      assert PathOf(m[j]).value in pathToId;
      assert PathOf(m[j]) != PathOf(m[id]);
    }
    forall i, j | i in m' && j in m' && i != j
      ensures PathOf(m'[i]) != PathOf(m'[j])
    {
      assert PathOf(m[i]) != PathOf(m[j]);
    }
  }

  /** Deleting preserves the store invariant. */
  lemma DeletedConsistent(s: Store, path: string)
    requires Consistent(s)
    ensures Consistent(Deleted(s, path).0)
  {
    if path in s.pathToId {
      assert s.pathToId[path] in s.metadata;
      assert IsLive(s.index, s.pathToId[path]);
      RemovedIndex(s.pathToId, s.metadata, path);
    }
  }

  /** On a consistent store `add_document` raises only when a new path
      meets a full index. */
  lemma AddedFailsOnlyWhenFull(s: Store, path: string, v: Vector, meta: Record, createdAt: string, updatedAt: string)
    requires Consistent(s)
    ensures Added(s, path, v, meta, createdAt, updatedAt).1.Err? <==>
              path !in s.pathToId && |s.index| >= MaxElements
  {
    if path in s.pathToId {
      assert s.pathToId[path] in s.metadata;
      assert IsLive(s.index, s.pathToId[path]);
    } else {
      assert s.currentId !in s.index;
    }
  }

  /** On a consistent store `delete_document` never raises, and it reports
      `True` exactly for a known path. */
  lemma DeletedNeverFails(s: Store, path: string)
    requires Consistent(s)
    ensures Deleted(s, path).1 == Ok(path in s.pathToId)
  {
    if path in s.pathToId {
      assert s.pathToId[path] in s.metadata;
      assert IsLive(s.index, s.pathToId[path]);
    }
  }

  /** After a path is deleted, adding it again gives it a fresh id: ids are
      never reused. */
  lemma DeleteThenAddGivesFreshId(s: Store, path: string, v: Vector, meta: Record, createdAt: string, updatedAt: string)
    requires Consistent(s) && path in s.pathToId && |s.index| < MaxElements
    ensures var t := Deleted(s, path).0;
            && Added(t, path, v, meta, createdAt, updatedAt).1 == Ok(s.currentId)
            && s.currentId != s.pathToId[path]
  {
    var id := s.pathToId[path];
    assert id in s.metadata;
    assert IsLive(s.index, id);
    var t := Deleted(s, path).0;
    assert t.index.Keys == s.index.Keys;
    assert |t.index| == |s.index|;
    assert s.currentId !in t.index;
  }

  /** The path index is a bijection, so there are as many paths as records. */
  lemma {:induction false} PathCount(pathToId: map<string, int>, metadata: map<int, Record>)
    requires IsPathIndex(pathToId, metadata)
    ensures |pathToId| == |metadata|
    decreases |pathToId|
  {
    if pathToId.Keys == {} {
      assert metadata.Keys == {} by {
        forall id | id in metadata
          ensures PathOf(metadata[id]).value in pathToId.Keys
        {
        }
      }
    } else {
      var p := Element(pathToId.Keys);
      var id := pathToId[p];
      RemovedIndex(pathToId, metadata, p);
      PathCount(pathToId - {p}, metadata - {id});
      assert (pathToId - {p}).Keys == pathToId.Keys - {p};
      assert (metadata - {id}).Keys == metadata.Keys - {id};
    }
  }

  /** `get_document_paths`: the keys of the path index. */
  function DocumentPaths(s: Store): set<string> {
    s.pathToId.Keys
  }

  /** The paths the database reports are exactly the paths its records carry. */
  lemma DocumentPathsAreRecordPaths(s: Store, p: string)
    requires Consistent(s)
    ensures p in DocumentPaths(s) <==> exists id :: id in s.metadata && PathOf(s.metadata[id]) == Some(p)
  {
    if p in DocumentPaths(s) {
      var id := s.pathToId[p];
      assert id in s.metadata && PathOf(s.metadata[id]) == Some(p);
    }
  }

  /** `get_status`. */
  function Status(s: Store, dim: nat, storageDir: string, disk: Disk): DbStatus {
    DbStatus(|s.metadata|, dim, storageDir, disk.indexFile.Some?, disk.metadataFile.Some?)
  }

  /** The reported document count is the number of document paths. */
  lemma StatusCountsPaths(s: Store, dim: nat, storageDir: string, disk: Disk)
    requires Consistent(s)
    ensures Status(s, dim, storageDir, disk).documentCount == |DocumentPaths(s)|
  {
    PathCount(s.pathToId, s.metadata);
    assert |s.pathToId.Keys| == |s.pathToId|;
  }

  /** One search result, `{'document_id': id, 'score': 1 - distance, **record}`:
      the record is spread last, so its own `document_id` or `score` wins. */
  function Match(h: Hit, record: Record): (r: Record)
    ensures r.Keys == record.Keys + {"document_id", "score"}
    ensures forall k :: k in record ==> r[k] == record[k]
    ensures "document_id" !in record ==> r["document_id"] == Int(h.id)
    ensures "score" !in record ==> r["score"] == Real(1.0 - h.distance)
  {
    map["document_id" := Int(h.id), "score" := Real(1.0 - h.distance)] + record
  }

  /** The neighbours `search` keeps: those whose label still has a record,
      in the order the index returned them. */
  function Kept(hits: seq<Hit>, metadata: map<int, Record>): (r: seq<Hit>)
    ensures |r| <= |hits|
    ensures forall i :: 0 <= i < |r| ==> r[i].id in metadata && r[i] in hits
    ensures forall i :: 0 <= i < |hits| && hits[i].id in metadata ==> hits[i] in r
    ensures (forall i :: 0 <= i < |hits| ==> hits[i].id in metadata) ==> r == hits
    decreases |hits|
  {
    if hits == [] then []
    else
      var last := hits[|hits| - 1];
      var r := Kept(hits[..|hits| - 1], metadata) + (if last.id in metadata then [last] else []);
      assert hits == hits[..|hits| - 1] + [last];
      r
  }

  /** The result records `search` builds: one `Match` per kept neighbour. */
  function Joined(hits: seq<Hit>, metadata: map<int, Record>): (r: seq<Record>)
    ensures |r| == |Kept(hits, metadata)|
    ensures forall i :: 0 <= i < |r| ==>
      var h := Kept(hits, metadata)[i]; r[i] == Match(h, metadata[h.id])
    decreases |hits|
  {
    if hits == [] then []
    else
      var last := hits[|hits| - 1];
      Joined(hits[..|hits| - 1], metadata) + (if last.id in metadata then [Match(last, metadata[last.id])] else [])
  }

  /** Filtering distributes over concatenation, so it never reorders. */
  lemma {:induction false} KeptAppend(a: seq<Hit>, b: seq<Hit>, metadata: map<int, Record>)
    ensures Kept(a + b, metadata) == Kept(a, metadata) + Kept(b, metadata)
    decreases |b|
  {
    if b == [] {
      assert a + b == a;
    } else {
      assert (a + b)[..|a + b| - 1] == a + b[..|b| - 1];
      KeptAppend(a, b[..|b| - 1], metadata);
    }
  }

  /** `search`: nothing on an empty catalog or for `top_k == 0`; otherwise
      the index is asked for `min(top_k, number of documents)` neighbours and
      each neighbour that still has a record becomes a result. The index
      query is the parameter `knn`; an exception it raises is `Err`. */
  function Searched(s: Store, query: Vector, topK: int, knn: (Index, Vector, int) -> Result<seq<Hit>>)
    : (r: Result<seq<Record>>)
    ensures |s.metadata| == 0 || topK == 0 ==> r == Ok([])
    ensures r.Err? <==> |s.metadata| > 0 && topK != 0 && knn(s.index, query, Min(topK, |s.metadata|)).Err?
    ensures r.Ok? && |s.metadata| > 0 && topK != 0 ==>
      var answer := knn(s.index, query, Min(topK, |s.metadata|));
      answer.Ok? && |r.value| <= |answer.value|
  {
    if |s.metadata| == 0 then Ok([])
    else
      var k := Min(topK, |s.metadata|);
      if k == 0 then Ok([])
      else
        match knn(s.index, query, k)
        case Err(e) => Err(e)
        case Ok(hits) => Ok(Joined(hits, s.metadata))
  }

  /** What hnswlib's `knn_query` promises: `k` distinct labels, none of
      them marked deleted. */
  ghost predicate KnnAnswer(index: Index, k: int, hits: seq<Hit>) {
    && |hits| == k
    && (forall i :: 0 <= i < |hits| ==> IsLive(index, hits[i].id))
    && (forall i, j :: 0 <= i < j < |hits| ==> hits[i].id != hits[j].id)
  }

  /** On a consistent store, when the index answers as hnswlib promises,
      `search` returns `min(top_k, number of documents)` results, one per
      neighbour in the index's order, each carrying the neighbour's record. */
  lemma SearchReturnsTopK(s: Store, query: Vector, topK: int, knn: (Index, Vector, int) -> Result<seq<Hit>>)
    requires Consistent(s) && |s.metadata| > 0 && topK > 0
    requires knn(s.index, query, Min(topK, |s.metadata|)).Ok?
    requires KnnAnswer(s.index, Min(topK, |s.metadata|), knn(s.index, query, Min(topK, |s.metadata|)).value)
    ensures var r := Searched(s, query, topK, knn);
            var hits := knn(s.index, query, Min(topK, |s.metadata|)).value;
            && r.Ok? && |r.value| == Min(topK, |s.metadata|)
            && forall i :: 0 <= i < |r.value| ==>
                 hits[i].id in s.metadata && r.value[i] == Match(hits[i], s.metadata[hits[i].id])
  {
    var hits := knn(s.index, query, Min(topK, |s.metadata|)).value;
    forall i | 0 <= i < |hits|
      ensures hits[i].id in s.metadata
    {
      assert IsLive(s.index, hits[i].id);
    }
  }

  /** `save`: both files are rewritten, but only while the catalog is not
      empty; otherwise the disk is left as it was. */
  function Saved(s: Store, disk: Disk): (r: Disk)
    ensures |s.metadata| == 0 ==> r == disk
    ensures |s.metadata| > 0 ==> r.indexFile.Some? && r.metadataFile.Some?
  {
    if |s.metadata| > 0 then Disk(Some(IndexImage(s.index)), Some(Catalog(Some(s.metadata), Some(s.currentId))))
    else disk
  }

  /** The index entries, records and counter `_load_or_create_index` reads,
      when both files exist and parse; a missing `metadata` member reads as
      no records and a missing `current_id` as 0. */
  function Readable(disk: Disk): (r: Option<(Index, map<int, Record>, int)>)
    ensures r.Some? ==> disk.indexFile.Some? && disk.metadataFile.Some?
  {
    match (disk.indexFile, disk.metadataFile)
    case (Some(IndexImage(entries)), Some(Catalog(records, cid))) => Some((entries, records.GetOr(map[]), cid.GetOr(0)))
    case _ => None
  }

  /** Every record has a string `path`, so building the path index does not raise. */
  predicate AllHavePaths(records: map<int, Record>) {
    forall id :: id in records ==> PathOf(records[id]).Some?
  }

  /** `s` is a state `_load_or_create_index` can end in: what the files
      hold, or the empty database when a file is missing or loading raises. */
  ghost predicate LoadedFrom(disk: Disk, s: Store) {
    match Readable(disk)
    case None => s == Empty
    case Some((entries, records, cid)) =>
      if AllHavePaths(records) then
        s.index == entries && s.metadata == records && s.currentId == cid && PathsOf(s.pathToId, records)
      else
        s == Empty
  }

  /** When no two records share a path, the path index is determined by the records. */
  lemma PathsOfUnique(a: map<string, int>, b: map<string, int>, metadata: map<int, Record>)
    requires PathsOf(a, metadata) && PathsOf(b, metadata) && DistinctPaths(metadata)
    ensures a == b
  {
    forall p | p in a
      ensures p in b && a[p] == b[p]
    {
      PathIndexed(a, metadata, p);
      RecordIndexed(b, metadata, a[p]);
      PathIndexed(b, metadata, p);
    }
    forall p | p in b
      ensures p in a
    {
      PathIndexed(b, metadata, p);
      RecordIndexed(a, metadata, b[p]);
    }
  }

  /** Loading what `save` wrote gives back the saved database. */
  lemma SaveLoadRoundTrip(s: Store, disk: Disk, t: Store)
    requires Consistent(s) && |s.metadata| > 0
    requires LoadedFrom(Saved(s, disk), t)
    ensures t == s
  {
    assert Readable(Saved(s, disk)) == Some((s.index, s.metadata, s.currentId));
    assert AllHavePaths(s.metadata);
    PathsOfUnique(t.pathToId, s.pathToId, s.metadata);
  }

  /** Deleting the only document is never written out, because `save` skips
      an empty catalog: the next load brings the document back. */
  lemma LastDeleteIsNotPersisted(s: Store, path: string, disk: Disk, t: Store)
    requires Consistent(s) && s.pathToId.Keys == {path}
    requires LoadedFrom(Saved(s, disk), t)
    ensures Deleted(s, path).1 == Ok(true)
    ensures Saved(Deleted(s, path).0, Saved(s, disk)) == Saved(s, disk)
    ensures path in t.pathToId
  {
    PathCount(s.pathToId, s.metadata);
    assert |s.pathToId| == |s.pathToId.Keys| == 1;
    var id := s.pathToId[path];
    assert id in s.metadata;
    assert IsLive(s.index, id);
    assert s.metadata.Keys == {id} by {
      forall j | j in s.metadata
        ensures j == id
      {
        assert PathOf(s.metadata[j]).value in s.pathToId;
      }
    }
    assert (s.metadata - {id}).Keys == {};
    SaveLoadRoundTrip(s, disk, t);
  }

  /** Builds `{v['path']: k for k, v in metadata.items()}`; `ok` is false
      when some record has no string `path` (the comprehension raises). */
  method BuildPathIndex(records: map<int, Record>) returns (ok: bool, pathToId: map<string, int>)
    ensures ok <==> AllHavePaths(records)
    ensures ok ==> PathsOf(pathToId, records)
  {
    pathToId := map[];
    var remaining := records.Keys;
    while remaining != {}
      invariant remaining <= records.Keys
      invariant forall p :: p in pathToId ==>
        pathToId[p] in records && PathOf(records[pathToId[p]]) == Some(p)
      invariant forall id :: id in records && id !in remaining ==>
        PathOf(records[id]).Some? && PathOf(records[id]).value in pathToId
      decreases |remaining|
    {
      ghost var some := Element(remaining);
      var id :| id in remaining;
      match PathOf(records[id])
      case None =>
        return false, pathToId;
      case Some(p) =>
        pathToId := pathToId[p := id];
      remaining := remaining - {id};
    }
    return true, pathToId;
  }

  /** The database object: its fields are updated in place, and each method
      is proved to follow the function of the same behaviour on `Store`. */
  class VectorDatabase {
    const storageDir: string
    const embeddingDim: nat
    var index: Index
    var metadata: map<int, Record>
    var pathToId: map<string, int>
    var currentId: int
    /** The index file and the catalog file in the storage directory. */
    var disk: Disk

    ghost function State(): Store
      reads this
    {
      Store(index, metadata, pathToId, currentId)
    }

    /** `__init__`: opens the storage directory and loads or creates the index. */
    constructor (storageDir: string, embeddingDim: nat, disk: Disk)
      ensures this.storageDir == storageDir && this.embeddingDim == embeddingDim
      ensures this.disk == disk
      ensures LoadedFrom(disk, State())
    {
      this.storageDir := storageDir;
      this.embeddingDim := embeddingDim;
      this.disk := disk;
      index, metadata, pathToId, currentId := map[], map[], map[], 0;
      new;
      LoadOrCreateIndex();
    }

    /** `_load_or_create_index`. */
    method LoadOrCreateIndex()
      modifies this
      ensures disk == old(disk)
      ensures LoadedFrom(disk, State())
    {
      match Readable(disk)
      case None =>
        CreateNewIndex();
      case Some((entries, records, cid)) =>
        index, metadata := entries, records;
        var ok, paths := BuildPathIndex(records);
        if ok {
          pathToId, currentId := paths, cid;
        } else {
          CreateNewIndex();
        }
    }

    /** `_create_new_index`. */
    method CreateNewIndex()
      modifies this
      ensures disk == old(disk)
      ensures State() == Empty
    {
      index, metadata, pathToId, currentId := map[], map[], map[], 0;
    }

    /** `save`. */
    method Save()
      modifies this
      ensures State() == old(State())
      ensures disk == Saved(old(State()), old(disk))
    {
      if |metadata| > 0 {
        disk := Disk(Some(IndexImage(index)), Some(Catalog(Some(metadata), Some(currentId))));
      }
    }

    /** `add_document`; the two timestamps are the clock readings. */
    method AddDocument(path: string, v: Vector, meta: Record, createdAt: string, updatedAt: string)
      returns (r: Result<int>)
      modifies this
      ensures disk == old(disk)
      ensures (State(), r) == Added(old(State()), path, v, meta, createdAt, updatedAt)
    {
      if path in pathToId {
        r := UpdateDocument(path, v, meta, updatedAt);
      } else {
        r := InsertDocument(path, v, meta, createdAt, updatedAt);
      }
    }

    /** The branch of `add_document` for a path already in the database. */
    method UpdateDocument(path: string, v: Vector, meta: Record, updatedAt: string)
      returns (r: Result<int>)
      requires path in pathToId
      modifies this
      ensures disk == old(disk)
      ensures (State(), r) == Updated(old(State()), path, v, meta, updatedAt)
    {
      var id := pathToId[path];
      if !IsLive(index, id) {
        return Err("Label not found or already deleted");
      }
      index := index[id := Entry(index[id].vector, true)];
      index := index[id := Entry(v, false)];
      assert index == old(index)[id := Entry(v, false)];
      if id !in metadata {
        return Err("KeyError: document id");
      }
      metadata := metadata[id := Merged(metadata[id], meta, updatedAt)];
      return Ok(id);
    }

    /** The branch of `add_document` for a new path. */
    method InsertDocument(path: string, v: Vector, meta: Record, createdAt: string, updatedAt: string)
      returns (r: Result<int>)
      requires path !in pathToId
      modifies this
      ensures disk == old(disk)
      ensures (State(), r) == Inserted(old(State()), path, v, meta, createdAt, updatedAt)
    {
      var id := currentId;
      currentId := currentId + 1;
      if id !in index && |index| >= MaxElements {
        return Err("The number of elements exceeds the specified limit");
      }
      index := index[id := Entry(v, false)];
      metadata := metadata[id := NewRecord(path, createdAt, updatedAt, meta)];
      pathToId := pathToId[path := id];
      return Ok(id);
    }

    /** `delete_document`. */
    method DeleteDocument(path: string) returns (r: Result<bool>)
      modifies this
      ensures disk == old(disk)
      ensures (State(), r) == Deleted(old(State()), path)
    {
      if path in pathToId {
        var id := pathToId[path];
        if !IsLive(index, id) {
          return Err("Label not found or already deleted");
        }
        index := index[id := Entry(index[id].vector, true)];
        if id !in metadata {
          return Err("KeyError: document id");
        }
        metadata := metadata - {id};
        pathToId := pathToId - {path};
        return Ok(true);
      }
      return Ok(false);
    }

    /** `search`, with the index query as the parameter `knn`. */
    method Search(query: Vector, topK: int, knn: (Index, Vector, int) -> Result<seq<Hit>>)
      returns (r: Result<seq<Record>>)
      ensures r == Searched(State(), query, topK, knn)
    {
      if |metadata| == 0 {
        return Ok([]);
      }
      var k := Min(topK, |metadata|);
      if k == 0 {
        return Ok([]);
      }
      var answer := knn(index, query, k);
      if answer.Err? {
        return Err(answer.msg);
      }
      var hits := answer.value;
      var results: seq<Record> := [];
      var i := 0;
      while i < |hits|
        invariant 0 <= i <= |hits|
        invariant results == Joined(hits[..i], metadata)
      {
        assert hits[..i + 1][..i] == hits[..i];
        if hits[i].id in metadata {
          results := results + [Match(hits[i], metadata[hits[i].id])];
        }
        i := i + 1;
      }
      assert hits[..|hits|] == hits;
      return Ok(results);
    }

    /** `get_status`. */
    function GetStatus(): (r: DbStatus)
      reads this
      ensures r == Status(State(), embeddingDim, storageDir, disk)
    {
      DbStatus(|metadata|, embeddingDim, storageDir, disk.indexFile.Some?, disk.metadataFile.Some?)
    }

    /** `get_document_paths`. */
    function GetDocumentPaths(): (r: set<string>)
      reads this
      ensures r == DocumentPaths(State())
    {
      pathToId.Keys
    }
  }
}
