/** The embedding processor: a work queue of paths that never holds a path
    twice, the worker step that takes the oldest path off it, and the
    decision made for each file (no content, unchanged content, or embed,
    upsert and save). Extraction is the model of the document parsers;
    the sentence-embedding model and the MD5 content hash are function
    parameters. */
module Embedding {
  import opened Common
  import opened Files
  import opened VectorDb
  import Extractors
  import Monitor

  /** The extensions used when none are supplied. */
  const DefaultExtensions: set<string> := {
    ".txt", ".md", ".log", ".json", ".xml", ".yaml", ".yml",
    ".py", ".js", ".ts", ".java", ".c", ".cpp", ".cs", ".go", ".rb", ".php",
    ".sh", ".html", ".css", ".sql",
    ".pdf", ".docx", ".xlsx", ".pptx"
  }

  /** Every default extension is one some document parser takes. */
  lemma DefaultExtensionsAreExtractable(ext: string)
    requires ext in DefaultExtensions
    ensures exists h :: ext in Extractors.Extensions(h)
  {
    if ext in {".pdf", ".docx", ".xlsx", ".pptx"} {
      assert ext in Extractors.Extensions(Extractors.PdfHandler) || ext in Extractors.Extensions(Extractors.DocxHandler)
          || ext in Extractors.Extensions(Extractors.ExcelHandler) || ext in Extractors.Extensions(Extractors.PowerPointHandler);
    } else {
      assert ext in Extractors.Extensions(Extractors.TextHandler);
    }
  }

  predicate NoDuplicates(q: seq<string>) {
    forall i, j :: 0 <= i < j < |q| ==> q[i] != q[j]
  }

  /** `process_file`'s update of the queue: append unless already queued. */
  function Enqueued(q: seq<string>, p: string): (r: seq<string>)
    ensures forall x :: x in r <==> x in q || x == p
    ensures IsPrefix(q, r) && |r| <= |q| + 1
    ensures NoDuplicates(q) ==> NoDuplicates(r)
  {
    if p in q then q else q + [p]
  }

  /** The queue after enqueueing each of `ps` in turn. */
  function EnqueuedAll(q: seq<string>, ps: seq<string>): (r: seq<string>)
    ensures forall x :: x in r <==> x in q || x in ps
    ensures IsPrefix(q, r)
    ensures NoDuplicates(q) ==> NoDuplicates(r)
    decreases |ps|
  {
    if ps == [] then q
    else
      var r := Enqueued(EnqueuedAll(q, ps[..|ps| - 1]), ps[|ps| - 1]);
      assert forall x :: x in ps <==> x in ps[..|ps| - 1] || x == ps[|ps| - 1] by {
        assert ps == ps[..|ps| - 1] + [ps[|ps| - 1]];
      }
      r
  }

  /** Enqueueing is idempotent, also for a batch. */
  lemma {:induction false} EnqueuedAllIdempotent(q: seq<string>, ps: seq<string>)
    ensures EnqueuedAll(EnqueuedAll(q, ps), ps) == EnqueuedAll(q, ps)
  {
    var r := EnqueuedAll(q, ps);
    EnqueuedAllOfMembers(r, ps);
  }

  /** Enqueueing paths that are all queued changes nothing. */
  lemma {:induction false} EnqueuedAllOfMembers(q: seq<string>, ps: seq<string>)
    requires forall x :: x in ps ==> x in q
    ensures EnqueuedAll(q, ps) == q
    decreases |ps|
  {
    if ps != [] {
      EnqueuedAllOfMembers(q, ps[..|ps| - 1]);
      assert ps[|ps| - 1] in ps;
    }
  }

  /** The `content_hash` of the stored record of `p`, as
      `existing_metadata.get('content_hash')` reads it (`{}` when `p` has no record). */
  function StoredHash(s: Store, p: string): (r: Option<Value>)
    ensures r.Some? ==> p in DocumentPaths(s)
  {
    if p in s.pathToId && s.pathToId[p] in s.metadata && "content_hash" in s.metadata[s.pathToId[p]]
    then Some(s.metadata[s.pathToId[p]]["content_hash"]) else None
  }

  /** The path is stored with the same content hash: the file is skipped. */
  predicate Unchanged(s: Store, p: string, hash: string) {
    p in DocumentPaths(s) && StoredHash(s, p) == Some(Str(hash))
  }

  /** The extracted metadata with the content's hash and length added. */
  function WithContent(meta: Record, content: string, hash: string): (r: Record)
    ensures r.Keys == meta.Keys + {"content_hash", "content_length"}
    ensures r["content_hash"] == Str(hash) && r["content_length"] == Int(|content|)
    ensures forall k :: k in meta && k != "content_hash" && k != "content_length" ==> r[k] == meta[k]
  {
    meta["content_hash" := Str(hash)]["content_length" := Int(|content|)]
  }

  /** The database and its files after `_process_file_internal` is given
      `content`, `meta` and the content's `hash` and embedding `v`. A failed
      upsert (an exception the method logs) skips the save. */
  function Ingested(s: Store, disk: Disk, p: string, content: string, meta: Record, hash: string, v: Vector,
                    modelLoaded: bool, createdAt: string, updatedAt: string): (r: (Store, Disk))
    ensures content == "" ==> r == (s, disk)
    ensures Unchanged(s, p, hash) ==> r == (s, disk)
  {
    if content == "" || Unchanged(s, p, hash) || !modelLoaded then (s, disk)
    else Upserted(s, disk, p, v, WithContent(meta, content, hash), createdAt, updatedAt)
  }

  /** `add_document` followed by `save`; an exception from the former skips the latter. */
  function Upserted(s: Store, disk: Disk, p: string, v: Vector, meta: Record, createdAt: string, updatedAt: string)
    : (r: (Store, Disk))
    ensures r.0 == Added(s, p, v, meta, createdAt, updatedAt).0
    ensures r.1 == disk || r.1 == Saved(r.0, disk)
  {
    var (t, res) := Added(s, p, v, meta, createdAt, updatedAt);
    if res.Err? then (t, disk) else (t, Saved(t, disk))
  }

  /** Ingestion keeps the database consistent when the metadata has no
      `path` key, as extracted metadata never has. */
  lemma IngestedConsistent(s: Store, disk: Disk, p: string, content: string, meta: Record, hash: string, v: Vector,
                           modelLoaded: bool, createdAt: string, updatedAt: string)
    requires Consistent(s) && "path" !in meta
    ensures Consistent(Ingested(s, disk, p, content, meta, hash, v, modelLoaded, createdAt, updatedAt).0)
  {
    if !(content == "" || Unchanged(s, p, hash) || !modelLoaded) {
      AddedConsistent(s, p, v, WithContent(meta, content, hash), createdAt, updatedAt);
    }
  }

  /** Processing any file of the tree keeps the database consistent: the
      metadata the parsers produce never carries a `path` key. */
  lemma ProcessedFileKeepsConsistent(s: Store, disk: Disk, fs: FileSystem, libs: Extractors.Libraries, p: string,
                                     hash: string -> string, embed: string -> Vector, modelLoaded: bool,
                                     createdAt: string, updatedAt: string)
    requires Consistent(s)
    ensures var (content, meta) := Extractors.Extracted(fs, libs, p);
            Consistent(Ingested(s, disk, p, content, meta, hash(content), embed(content), modelLoaded, createdAt, updatedAt).0)
  {
    var (content, meta) := Extractors.Extracted(fs, libs, p);
    Extractors.ExtractedHasNoPathKey(fs, libs, p);
    IngestedConsistent(s, disk, p, content, meta, hash(content), embed(content), modelLoaded, createdAt, updatedAt);
  }

  /** A changed file is stored under its path with its content's hash and
      length, and the database is saved; only a full index stops a new path. */
  lemma IngestedStoresContent(s: Store, disk: Disk, p: string, content: string, meta: Record, hash: string, v: Vector,
                              createdAt: string, updatedAt: string)
    requires Consistent(s) && "path" !in meta
    requires content != "" && !Unchanged(s, p, hash)
    requires p in s.pathToId || |s.index| < MaxElements
    ensures var (t, d) := Ingested(s, disk, p, content, meta, hash, v, true, createdAt, updatedAt);
            && p in t.pathToId && t.pathToId[p] in t.metadata
            && t.metadata[t.pathToId[p]]["content_hash"] == Str(hash)
            && t.metadata[t.pathToId[p]]["content_length"] == Int(|content|)
            && t.index[t.pathToId[p]] == Entry(v, false)
            && d == Saved(t, disk)
  {
    var m := WithContent(meta, content, hash);
    AddedFailsOnlyWhenFull(s, p, v, m, createdAt, updatedAt);
    AddedConsistent(s, p, v, m, createdAt, updatedAt);
    var t := Added(s, p, v, m, createdAt, updatedAt).0;
    if p in s.pathToId {
      assert t.pathToId == s.pathToId;
    } else {
      assert t.pathToId == s.pathToId[p := s.currentId];
    }
  }

  /** The database and its files after `delete_file`: saved only when
      `delete_document` reports a removal. */
  function Removed(s: Store, disk: Disk, p: string): (r: (Store, Disk))
    ensures r.0.currentId == s.currentId
    ensures p !in s.pathToId ==> r == (s, disk)
    ensures r.1 == disk || r.1 == Saved(r.0, disk)
  {
    var (t, res) := Deleted(s, p);
    (t, if res == Ok(true) then Saved(t, disk) else disk)
  }

  /** On a consistent database `delete_file` drops exactly the path, keeps
      the database consistent, and saves exactly when the path was known. */
  lemma RemovedPath(s: Store, disk: Disk, p: string)
    requires Consistent(s)
    ensures var (t, d) := Removed(s, disk, p);
            && t.pathToId == s.pathToId - {p}
            && Consistent(t)
            && d == if p in s.pathToId then Saved(t, disk) else disk
  {
    DeletedNeverFails(s, p);
    DeletedConsistent(s, p);
    if p !in s.pathToId {
      assert s.pathToId - {p} == s.pathToId;
    }
  }

  /** The database paths kept by `process_all_files`: those still pending
      and those whose file exists. */
  ghost function KeptPaths(fs: FileSystem, existing: set<string>, todo: set<string>): set<string> {
    set q | q in existing && (q in todo || fs.Exists(q))
  }

  lemma KeptStep(fs: FileSystem, existing: set<string>, todo: set<string>, q: string, kept: set<string>)
    requires kept == KeptPaths(fs, existing, todo) && q in todo
    ensures (if fs.Exists(q) then kept else kept - {q}) == KeptPaths(fs, existing, todo - {q})
  {
  }

  /** The database paths whose file is gone. */
  ghost function Missing(fs: FileSystem, paths: set<string>): set<string> {
    set q | q in paths && !fs.Exists(q)
  }

  lemma MissingStep(fs: FileSystem, existing: set<string>, todo: set<string>, q: string)
    requires q in todo && todo <= existing
    ensures Missing(fs, existing - (todo - {q}))
            == Missing(fs, existing - todo) + (if fs.Exists(q) then {} else {q})
  {
  }

  /** The database after `delete_file` of each path in `gone`: their records
      are dropped and their labels marked deleted; every other path keeps
      its label, and the id counter is untouched. */
  ghost function Reconciled(s: Store, gone: set<string>): Store {
    var ids := set q | q in gone && q in s.pathToId :: s.pathToId[q];
    Store(map id | id in s.index :: if id in ids then Entry(s.index[id].vector, true) else s.index[id],
          map id | id in s.metadata && id !in ids :: s.metadata[id],
          map q | q in s.pathToId && q !in gone :: s.pathToId[q],
          s.currentId)
  }

  /** What `process_all_files` has done to the database `s0` (files `disk0`)
      once only the paths in `todo` remain to be checked: the missing paths
      checked so far are reconciled away, and the files are untouched while
      none was missing, or else hold the (non-empty) database. */
  ghost predicate Reconciling(s0: Store, disk0: Disk, fs: FileSystem, todo: set<string>, t: Store, d: Disk) {
    var gone := Missing(fs, s0.pathToId.Keys - todo);
    && Consistent(t)
    && t == Reconciled(s0, gone)
    && (gone == {} ==> d == disk0)
    && (gone != {} && |t.metadata| > 0 ==> d == Saved(t, disk0))
  }

  lemma ReconcilingStart(s0: Store, disk0: Disk, fs: FileSystem)
    requires Consistent(s0)
    ensures Reconciling(s0, disk0, fs, s0.pathToId.Keys, s0, disk0)
  {
    assert Missing(fs, s0.pathToId.Keys - s0.pathToId.Keys) == {};
    ReconciledNothing(s0);
  }

  /** Checking one more path: a missing one is deleted with `delete_file`,
      an existing one is left alone. */
  lemma ReconcilingStep(s0: Store, disk0: Disk, fs: FileSystem, todo: set<string>, t: Store, d: Disk, q: string)
    requires Consistent(s0) && todo <= s0.pathToId.Keys && q in todo
    requires Reconciling(s0, disk0, fs, todo, t, d)
    ensures var (t', d') := if fs.Exists(q) then (t, d) else Removed(t, d, q);
            Reconciling(s0, disk0, fs, todo - {q}, t', d')
  {
    var gone := Missing(fs, s0.pathToId.Keys - todo);
    MissingStep(fs, s0.pathToId.Keys, todo, q);
    if !fs.Exists(q) {
      assert q !in gone;
      ReconciledStep(s0, gone, q);
      RemovedPath(t, d, q);
    }
  }

  /** Once every path is checked, the database keeps exactly the paths
      whose file exists. */
  lemma ReconcilingDone(s0: Store, disk0: Disk, fs: FileSystem, t: Store, d: Disk)
    requires Consistent(s0) && Reconciling(s0, disk0, fs, {}, t, d)
    ensures && Consistent(t) && t.pathToId.Keys == set q | q in s0.pathToId && fs.Exists(q)
            && t == Reconciled(s0, Missing(fs, s0.pathToId.Keys))
            && (Missing(fs, s0.pathToId.Keys) == {} ==> d == disk0)
            && (Missing(fs, s0.pathToId.Keys) != {} && |t.metadata| > 0 ==> d == Saved(t, disk0))
  {
    assert s0.pathToId.Keys - {} == s0.pathToId.Keys;
    ReconciledSurvivors(s0, Missing(fs, s0.pathToId.Keys));
  }

  /** Deleting nothing changes nothing. */
  lemma ReconciledNothing(s: Store)
    ensures Reconciled(s, {}) == s
  {
    var r := Reconciled(s, {});
    assert r.index == s.index;
    assert r.metadata == s.metadata;
    assert r.pathToId == s.pathToId;
  }

  /** On a consistent database, a path outside `gone` keeps its id, its
      record and its live label, and a path in `gone` loses its record and
      its label. */
  lemma ReconciledSurvivors(s: Store, gone: set<string>)
    requires Consistent(s)
    ensures var r := Reconciled(s, gone);
            && r.currentId == s.currentId
            && r.pathToId.Keys == s.pathToId.Keys - gone
            && (forall q :: q in s.pathToId && q !in gone ==>
                  && r.pathToId[q] == s.pathToId[q]
                  && s.pathToId[q] in r.metadata && r.metadata[s.pathToId[q]] == s.metadata[s.pathToId[q]]
                  && IsLive(r.index, s.pathToId[q]))
            && (forall q :: q in s.pathToId && q in gone ==>
                  s.pathToId[q] !in r.metadata && !IsLive(r.index, s.pathToId[q]))
  {
    var ids := set q | q in gone && q in s.pathToId :: s.pathToId[q];
    forall q | q in s.pathToId && q !in gone
      ensures s.pathToId[q] !in ids
    {
      OwnId(s, gone, q);
    }
  }

  /** A path outside `gone` has an id no path in `gone` has. */
  lemma OwnId(s: Store, gone: set<string>, p: string)
    requires Consistent(s) && p in s.pathToId && p !in gone
    ensures s.pathToId[p] !in set q | q in gone && q in s.pathToId :: s.pathToId[q]
  {
    forall q | q in gone && q in s.pathToId
      ensures s.pathToId[q] != s.pathToId[p]
    {
      assert PathOf(s.metadata[s.pathToId[q]]) == Some(q) != Some(p) == PathOf(s.metadata[s.pathToId[p]]);
    }
  }

  /** `delete_file` of one more known path carries the reconciliation one
      path further, and succeeds. */
  lemma ReconciledStep(s: Store, gone: set<string>, p: string)
    requires Consistent(s) && p in s.pathToId && p !in gone
    ensures Deleted(Reconciled(s, gone), p) == (Reconciled(s, gone + {p}), Ok(true))
  {
    var t := Reconciled(s, gone);
    var id := s.pathToId[p];
    OwnId(s, gone, p);
    assert t.pathToId[p] == id && id in t.metadata && t.index[id] == s.index[id];
    var ids := set q | q in gone && q in s.pathToId :: s.pathToId[q];
    var ids' := set q | q in gone + {p} && q in s.pathToId :: s.pathToId[q];
    assert ids' == ids + {id};
    var u := Reconciled(s, gone + {p});
    assert u.index == t.index[id := Entry(t.index[id].vector, true)];
    assert u.metadata == t.metadata - {id};
    assert u.pathToId == t.pathToId - {p};
  }

  /** `get_status`. */
  datatype ProcessorStatus = ProcessorStatus(
    modelName: string, watchFolders: seq<string>, supportedExtensions: set<string>,
    vectorDatabase: Option<DbStatus>, embeddingDimension: Option<nat>)

  class EmbeddingProcessor {
    const modelName: string
    const dbPath: string
    const watchFolders: seq<string>
    const supportedExtensions: set<string>
    /** Which parsing libraries are installed. */
    const libs: Extractors.Libraries
    var db: VectorDatabase?
    /** Whether the embedding model is loaded. */
    var modelLoaded: bool
    var embeddingDim: nat
    var fileMonitor: Monitor.FileMonitor?
    var processQueue: seq<string>
    /** The `queue_event` flag. */
    var queueEvent: bool
    var running: bool

    constructor(modelName: string, dbPath: string, watchFolders: seq<string>, supportedExtensions: Option<set<string>>,
                libs: Extractors.Libraries)
      ensures this.modelName == modelName && this.dbPath == dbPath && this.watchFolders == watchFolders && this.libs == libs
      ensures this.supportedExtensions == if supportedExtensions.None? then DefaultExtensions else supportedExtensions.value
      ensures db == null && !modelLoaded && fileMonitor == null
      ensures processQueue == [] && !queueEvent && !running
    {
      this.modelName := modelName;
      this.dbPath := dbPath;
      this.watchFolders := watchFolders;
      this.supportedExtensions := if supportedExtensions.None? then DefaultExtensions else supportedExtensions.value;
      this.libs := libs;
      db := null;
      modelLoaded := false;
      embeddingDim := 0;
      fileMonitor := null;
      processQueue := [];
      queueEvent := false;
      running := false;
    }

    /** `initialize`: load the model (`modelDim` is its embedding dimension,
        `None` when loading raises, which `initialize` re-raises), open the
        database with that dimension, create the monitor over the watched
        folders and the supported extensions, and mark the worker running. */
    method Initialize(modelDim: Option<nat>, disk: Disk) returns (ok: bool)
      modifies this
      ensures ok <==> modelDim.Some?
      ensures !ok ==> db == old(db) && modelLoaded == old(modelLoaded) && fileMonitor == old(fileMonitor)
                      && running == old(running) && embeddingDim == old(embeddingDim)
      ensures ok ==> && modelLoaded && embeddingDim == modelDim.value && running
                     && db != null && fresh(db) && db.embeddingDim == modelDim.value && db.storageDir == dbPath
                     && db.disk == disk && LoadedFrom(disk, db.State())
                     && fileMonitor != null && fresh(fileMonitor)
                     && fileMonitor.watchFolders == watchFolders
                     && fileMonitor.fileExtensions == Some(supportedExtensions)
                     && fileMonitor.observer.None?
      ensures processQueue == old(processQueue) && queueEvent == old(queueEvent)
    {
      if modelDim.None? {
        return false;
      }
      modelLoaded := true;
      embeddingDim := modelDim.value;
      db := new VectorDatabase(dbPath, embeddingDim, disk);
      fileMonitor := new Monitor.FileMonitor(watchFolders, Some(supportedExtensions));
      running := true;
      return true;
    }

    /** `start_monitoring`. */
    method StartMonitoring(fs: FileSystem)
      modifies fileMonitor
      ensures fileMonitor != null && old(fileMonitor.observer).None? ==>
                fileMonitor.observer == Some(Monitor.ExistingFolders(fs, fileMonitor.watchFolders))
      ensures fileMonitor != null && old(fileMonitor.observer).Some? ==> fileMonitor.observer == old(fileMonitor.observer)
    {
      if fileMonitor != null {
        fileMonitor.Start(fs);
      }
    }

    /** `shutdown`: stop the worker, stop monitoring and save the database. */
    method Shutdown()
      modifies this, fileMonitor, db
      ensures !running
      ensures db == old(db) && fileMonitor == old(fileMonitor) && processQueue == old(processQueue)
      ensures fileMonitor != null ==> fileMonitor.observer.None?
      ensures db != null ==> db.State() == old(db.State()) && db.disk == Saved(old(db.State()), old(db.disk))
    {
      running := false;
      if fileMonitor != null {
        fileMonitor.Stop();
      }
      if db != null {
        db.Save();
      }
    }

    /** `process_file`: queue the path unless it is already queued. */
    method ProcessFile(p: string)
      modifies this
      ensures processQueue == Enqueued(old(processQueue), p)
      ensures queueEvent == (old(queueEvent) || p !in old(processQueue))
      ensures db == old(db) && modelLoaded == old(modelLoaded) && fileMonitor == old(fileMonitor) && running == old(running)
    {
      if p !in processQueue {
        processQueue := processQueue + [p];
        queueEvent := true;
      }
    }

    /** `_process_file_internal`: extract, skip empty or unchanged content,
        otherwise embed, upsert and save. Any exception is logged, so a
        missing database leaves everything as it was. */
    method ProcessFileInternal(fs: FileSystem, p: string, hash: string -> string, embed: string -> Vector,
                               createdAt: string, updatedAt: string)
      modifies db
      ensures db != null ==>
                var (content, meta) := Extractors.Extracted(fs, libs, p);
                (db.State(), db.disk) == Ingested(old(db.State()), old(db.disk), p, content, meta, hash(content),
                                                  embed(content), modelLoaded, createdAt, updatedAt)
    {
      var content, meta := Extractors.ExtractFileContent(fs, libs, p);
      if db != null {
        Ingest(p, content, meta, hash(content), embed(content), createdAt, updatedAt);
      }
    }

    /** `_process_file_internal` after the extraction: skip empty or
        unchanged content, otherwise upsert and save. */
    method Ingest(p: string, content: string, meta: Record, contentHash: string, v: Vector,
                  createdAt: string, updatedAt: string)
      requires db != null
      modifies db
      ensures (db.State(), db.disk) == Ingested(old(db.State()), old(db.disk), p, content, meta, contentHash,
                                                v, modelLoaded, createdAt, updatedAt)
    {
      if content == "" {
        return;
      }
      var same := IsUnchanged(p, contentHash);
      if same || !modelLoaded {
        return;
      }
      Upsert(p, v, WithContent(meta, content, contentHash), createdAt, updatedAt);
    }

    /** The check of `_process_file_internal` for a stored copy of the
        path with the same content hash. */
    method IsUnchanged(p: string, contentHash: string) returns (b: bool)
      requires db != null
      ensures b == Unchanged(db.State(), p, contentHash)
    {
      var existingDocs := db.GetDocumentPaths();
      if p !in existingDocs {
        return false;
      }
      var existing := if db.pathToId[p] in db.metadata then db.metadata[db.pathToId[p]] else map[];
      return "content_hash" in existing && existing["content_hash"] == Str(contentHash);
    }

    /** The `add_document` and `save` of `_process_file_internal`. */
    method Upsert(p: string, v: Vector, meta: Record, createdAt: string, updatedAt: string)
      requires db != null
      modifies db
      ensures (db.State(), db.disk) == Upserted(old(db.State()), old(db.disk), p, v, meta, createdAt, updatedAt)
    {
      var r := db.AddDocument(p, v, meta, createdAt, updatedAt);
      if r.Err? {
        return;
      }
      db.Save();
    }

    /** One pass of `_process_queue_worker`'s loop: take the oldest path,
        clear the event when the queue is then empty, and process the path
        (an empty path is skipped). */
    method WorkerStep(fs: FileSystem, hash: string -> string, embed: string -> Vector,
                      createdAt: string, updatedAt: string)
      modifies this, db
      ensures processQueue == if old(processQueue) == [] then [] else old(processQueue)[1..]
      ensures queueEvent == (processQueue != [] && old(queueEvent))
      ensures db == old(db) && modelLoaded == old(modelLoaded) && fileMonitor == old(fileMonitor) && running == old(running)
      ensures db != null && (old(processQueue) == [] || old(processQueue)[0] == "") ==>
                db.State() == old(db.State()) && db.disk == old(db.disk)
      ensures db != null && old(processQueue) != [] && old(processQueue)[0] != "" ==>
                var p := old(processQueue)[0];
                var (content, meta) := Extractors.Extracted(fs, libs, p);
                (db.State(), db.disk) == Ingested(old(db.State()), old(db.disk), p, content, meta, hash(content),
                                                  embed(content), modelLoaded, createdAt, updatedAt)
    {
      var filePath: Option<string> := None;
      if processQueue != [] {
        filePath := Some(processQueue[0]);
        processQueue := processQueue[1..];
      }
      if processQueue == [] {
        queueEvent := false;
      }
      if filePath.Some? && filePath.value != "" {
        ProcessFileInternal(fs, filePath.value, hash, embed, createdAt, updatedAt);
      }
    }

    /** `delete_file`. */
    method DeleteFile(p: string)
      modifies db
      ensures db != null ==> (db.State(), db.disk) == Removed(old(db.State()), old(db.disk), p)
    {
      if db == null {
        return;
      }
      var deleted := db.DeleteDocument(p);
      if deleted == Ok(true) {
        db.Save();
      }
    }

    /** `process_all_files`: queue every scanned file and delete every
        stored path whose file is gone. Without a monitor nothing happens;
        without a database the call raises before changing anything. */
    method ProcessAllFiles(fs: FileSystem)
      modifies this, db
      ensures db == old(db) && modelLoaded == old(modelLoaded) && fileMonitor == old(fileMonitor) && running == old(running)
      ensures fileMonitor == null || db == null ==>
                processQueue == old(processQueue) && queueEvent == old(queueEvent)
      ensures fileMonitor != null && db != null ==>
                && processQueue == EnqueuedAll(old(processQueue),
                     Monitor.Scanned(fs, fileMonitor.fileExtensions, fileMonitor.watchFolders))
                && queueEvent
      ensures fileMonitor == null && db != null ==> db.State() == old(db.State()) && db.disk == old(db.disk)
      ensures fileMonitor != null && db != null && Consistent(old(db.State())) ==>
                && Consistent(db.State())
                && db.pathToId.Keys == set q | q in old(db.pathToId) && fs.Exists(q)
                && db.State() == Reconciled(old(db.State()), Missing(fs, old(db.pathToId.Keys)))
                && (Missing(fs, old(db.pathToId.Keys)) == {} ==>
                      db.State() == old(db.State()) && db.disk == old(db.disk))
                && (Missing(fs, old(db.pathToId.Keys)) != {} && |db.metadata| > 0 ==>
                      db.disk == Saved(db.State(), old(db.disk)))
    {
      if fileMonitor == null || db == null {
        return;
      }
      ReconciledNothing(db.State());
      var allFiles := fileMonitor.ScanExistingFiles(fs);
      var existingDocs := db.GetDocumentPaths();
      EnqueueAll(allFiles);
      RemoveMissing(fs, existingDocs);
      queueEvent := true;
    }

    /** The first loop of `process_all_files`: queue each scanned file not
        already queued. */
    method EnqueueAll(files: seq<string>)
      modifies this
      ensures processQueue == EnqueuedAll(old(processQueue), files)
      ensures db == old(db) && modelLoaded == old(modelLoaded) && fileMonitor == old(fileMonitor)
      ensures running == old(running) && queueEvent == old(queueEvent)
    {
      for i := 0 to |files|
        invariant processQueue == EnqueuedAll(old(processQueue), files[..i])
        invariant db == old(db) && modelLoaded == old(modelLoaded) && fileMonitor == old(fileMonitor)
        invariant running == old(running) && queueEvent == old(queueEvent)
      {
        assert files[..i + 1][..i] == files[..i];
        if files[i] !in processQueue {
          processQueue := processQueue + [files[i]];
        }
      }
      assert files[..|files|] == files;
    }

    /** The second loop of `process_all_files`: `delete_file` for each of
        the database's paths whose file no longer exists. */
    method RemoveMissing(fs: FileSystem, existingDocs: set<string>)
      requires db != null && existingDocs == db.pathToId.Keys
      modifies db
      ensures Consistent(old(db.State())) ==>
                && Consistent(db.State()) && db.pathToId.Keys == set q | q in existingDocs && fs.Exists(q)
                && db.State() == Reconciled(old(db.State()), Missing(fs, existingDocs))
                && (Missing(fs, existingDocs) == {} ==> db.disk == old(db.disk))
                && (Missing(fs, existingDocs) != {} && |db.metadata| > 0 ==> db.disk == Saved(db.State(), old(db.disk)))
    {
      ghost var consistent := Consistent(db.State());
      ghost var s0 := db.State();
      if consistent {
        ReconcilingStart(s0, db.disk, fs);
      }
      var todo := existingDocs;
      while todo != {}
        invariant todo <= existingDocs
        invariant consistent ==> Reconciling(s0, old(db.disk), fs, todo, db.State(), db.disk)
        decreases |todo|
      {
        ghost var some := Element(todo);
        var docPath :| docPath in todo;
        ghost var s, d := db.State(), db.disk;
        if !fs.Exists(docPath) {
          DeleteFile(docPath);
        }
        if consistent {
          ReconcilingStep(s0, old(db.disk), fs, todo, s, d, docPath);
        }
        todo := todo - {docPath};
      }
      if consistent {
        ReconcilingDone(s0, old(db.disk), fs, db.State(), db.disk);
      }
    }

    /** `search`: no results when the model or the database is missing or
        when the query raises; otherwise the database's results for the
        query's embedding. */
    method Search(query: string, topK: int, embed: string -> Vector,
                  knn: (Index, Vector, int) -> Result<seq<Hit>>) returns (results: seq<Record>)
      ensures !modelLoaded || db == null ==> results == []
      ensures modelLoaded && db != null ==>
                results == match Searched(db.State(), embed(query), topK, knn)
                           case Ok(rs) => rs
                           case Err(_) => []
    {
      if !modelLoaded || db == null {
        return [];
      }
      var r := db.Search(embed(query), topK, knn);
      if r.Err? {
        return [];
      }
      return r.value;
    }

    /** `get_status`. */
    function GetStatus(): (r: ProcessorStatus)
      reads this, db
      ensures r.modelName == modelName && r.watchFolders == watchFolders
      ensures r.supportedExtensions == supportedExtensions
      ensures r.vectorDatabase.Some? <==> db != null
      ensures db != null ==> r.vectorDatabase.value == db.GetStatus()
      ensures r.embeddingDimension == if modelLoaded then Some(embeddingDim) else None
    {
      ProcessorStatus(modelName, watchFolders, supportedExtensions,
                      if db != null then Some(db.GetStatus()) else None,
                      if modelLoaded then Some(embeddingDim) else None)
    }
  }
}
