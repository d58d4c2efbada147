# mcp-vector in Dafny

This project models the core of mcp-vector, a local semantic-search server. It watches folders, turns each supported document (text and code, PDF, Word, Excel, PowerPoint) into text, embeds the text, and keeps the vectors in an HNSW index. An external client queries that index over the Model Context Protocol. The model covers the bookkeeping around the index; the mathematics and the I/O are abstracted.

- `common.dfy` (`Common`): `Option`, `Result`, the JSON-like `Value` kept in document records, and string helpers. These are `str.split`, `str.join`, `str.rfind`, ASCII `str.lower`, Python truthiness and decimal printing.
- `files.dfy` (`Files`): the file system as a map from canonical path to file or directory. Each file carries what the document parsers read from its bytes. The module also gives the containment test behind `Path.relative_to`, and the two extension functions `os.path.splitext` and `PurePath.suffix`.
- `vector_db.dfy` (`VectorDb`): `VectorDatabase`.
  - Its state is four fields: the record catalog `metadata`, its inverse `path_to_id`, the id counter `current_id`, and the index. The index supports only soft deletion, so it is a map from label to (vector, deleted).
  - The two files of the storage directory are a field too, so `save` and `load` can be related.
  - Every operation is first a function on a `Store` value; the class methods are proved to follow those functions.
  - The store invariant `Consistent` states three facts: the catalog and the path index are mutually inverse, every id is below the counter, and the live labels are exactly the catalogued ids.
- `extractors.dfy` (`Extractors`): `can_handle`, which checks the extension, a strict size limit and the parsing library. It also gives the ordered handler dispatch of `extract_file_content`, `get_metadata`, and each handler's text-assembly loop, written as a method proved against a function.
- `monitor.dfy` (`Monitor`): `FileMonitor` covers path validity, the watched-folder test, the observer toggle and the initial scan. `FileEventHandler` covers the debounce table, immediate deletes, moves and the firing of a debounced event. Each call the monitor makes to its callbacks is appended to a recorded sequence.
- `embedding.dfy` (`Embedding`): `EmbeddingProcessor`.
  - The FIFO work queue never holds a path twice.
  - One worker step takes the oldest path off the queue.
  - For each file, the processor either skips it (empty content, or the stored copy has the same content hash) or upserts it and saves.
  - It also covers deletion, the full reconciliation `process_all_files`, search and status.
- `vector_handler.dfy` (`VectorHandler`): the replies of `vector_search`, a prefix post-filter with the request echoed, and of `vector_run`.
- `config.dfy` (`Config`): the settings of `main`. They come from environment defaults, then the configuration file, then command-line overrides, then the default watch folder and `~` expansion.

Behaviour of the code as written that the proofs make explicit:

- `save` writes nothing while the catalog is empty. Deleting the last document is therefore never written out, and the document is back after a reload (`VectorDb.LastDeleteIsNotPersisted`).
- `add_document` on a new path raises when the index is full, after `current_id` has already been incremented (`VectorDb.Inserted`).
- The monitor filters by `os.path.splitext`, the extractors by `PurePath.suffix`. The two disagree on a name that ends in a dot (`Files.TrailingDotExtensionsDiffer`).
- Watched-folder containment is by path components. A sibling `docs2` is not under `docs`, although `startswith` would say it is (`Monitor.SiblingFolderIsNotWatched`). The search filter of `vector_search`, in contrast, is a plain string prefix.
- A configuration file whose `watch_folders` is a single string makes each character of that string a watch folder (`Config.StringFoldersAreCharacters`).
- `main` overrides the host and the port only when they are truthy. An explicit `--host ""` or `--port 0` keeps the configured value (`Config.Overridden`).

## Model

| member | source | states |
|---|---|---|
| VectorDb.Merged | mcp_vector/utils/vector_db.py:111-115 | the re-added record has the old keys, the new keys and `updated_at`; new values win over old ones; `updated_at` is always refreshed; the `path` is kept when the new metadata has none |
| VectorDb.NewRecord | mcp_vector/utils/vector_db.py:125-131 | a new record holds `path`, `created_at`, `updated_at` and the caller's metadata, with the caller's keys winning; its path is the added path when the metadata has no `path` key |
| VectorDb.Updated | mcp_vector/utils/vector_db.py:106-115 | re-adding a known path keeps its id, `path_to_id` and `current_id`; it succeeds exactly when the label is live and catalogued; on success the label holds the new vector undeleted and the record is merged; a dead label changes nothing |
| VectorDb.Inserted | mcp_vector/utils/vector_db.py:116-134 | adding a new path always increments `current_id` by one; it fails exactly when a fresh label meets a full index (100000); on success it returns the old counter as the id and sets `path_to_id`, the index entry and the new record |
| VectorDb.Deleted | mcp_vector/utils/vector_db.py:136-154 | an unknown path gives False and changes nothing; a known live, catalogued path is marked deleted in the index and removed from the catalog and `path_to_id`, with True; the counter never changes |
| VectorDb.Added | mcp_vector/utils/vector_db.py:92-134 | a known path keeps the path index; on success the path maps to the returned id, whose label holds the new vector, undeleted |
| VectorDb.AddedConsistent | mcp_vector/utils/vector_db.py:92-134 | `add_document` preserves the store invariant when the caller's metadata has no `path` key |
| VectorDb.AddedKnownConsistent | mcp_vector/utils/vector_db.py:106-115 | the update branch preserves the store invariant |
| VectorDb.AddedNewConsistent | mcp_vector/utils/vector_db.py:116-134 | the insert branch preserves the store invariant: the fresh id is unused and no record already carries the path |
| VectorDb.DeletedConsistent | mcp_vector/utils/vector_db.py:136-154 | `delete_document` preserves the store invariant |
| VectorDb.AddedFailsOnlyWhenFull | mcp_vector/utils/vector_db.py:106-134 | on a consistent store `add_document` raises exactly when a new path meets a full index |
| VectorDb.DeletedNeverFails | mcp_vector/utils/vector_db.py:146-154 | on a consistent store `delete_document` never raises and returns True exactly for a known path |
| VectorDb.DeleteThenAddGivesFreshId | mcp_vector/utils/vector_db.py:118-119 | a deleted path that is added again gets the current counter, which differs from its old id: ids are never reused |
| VectorDb.PathCount | mcp_vector/utils/vector_db.py:57 | a path index that inverts the catalog has exactly as many paths as there are records |
| VectorDb.Consistent | mcp_vector/utils/vector_db.py:36-37 | the invariant `add_document` and `delete_document` keep: `path_to_id` and the records' paths are inverse, every label is below `current_id`, and the live labels are exactly the catalogued ids |
| VectorDb.DocumentPaths | mcp_vector/utils/vector_db.py:212-220 | the keys of `path_to_id` |
| VectorDb.Status | mcp_vector/utils/vector_db.py:196-210 | the record count, the dimension, the directory and whether each storage file exists |
| VectorDb.DocumentPathsAreRecordPaths | mcp_vector/utils/vector_db.py:212-220 | the reported document paths are exactly the paths the records carry |
| VectorDb.StatusCountsPaths | mcp_vector/utils/vector_db.py:196-210 | the status document count equals the number of document paths |
| VectorDb.Match | mcp_vector/utils/vector_db.py:183-188 | a search result is the record plus `document_id` and `score = 1 - distance`, with the record's own keys taking precedence |
| VectorDb.Kept | mcp_vector/utils/vector_db.py:181-188 | a neighbour is kept exactly when its label has a record: every kept one has a record and every one with a record is kept; the kept ones come from the index's answer, and none is dropped when all have records |
| VectorDb.Joined | mcp_vector/utils/vector_db.py:180-192 | one result per kept neighbour, in order, each built from that neighbour's record |
| VectorDb.KeptAppend | mcp_vector/utils/vector_db.py:181-188 | filtering neighbours distributes over concatenation |
| VectorDb.Searched | mcp_vector/utils/vector_db.py:156-194 | no documents or `top_k` 0 gives `[]`; otherwise the index is asked for `min(top_k, count)` neighbours; the search fails exactly when that query raises, and there are never more results than neighbours |
| VectorDb.SearchReturnsTopK | mcp_vector/utils/vector_db.py:168-192 | on a consistent store with a well-behaved index query, exactly `min(top_k, count)` results come back, one per neighbour in order, each with its record |
| VectorDb.Saved | mcp_vector/utils/vector_db.py:76-90 | `save` leaves the files alone while the catalog is empty and otherwise writes both files |
| VectorDb.Readable | mcp_vector/utils/vector_db.py:45-55 | the files are read only when both exist |
| VectorDb.PathsOfUnique | mcp_vector/utils/vector_db.py:57 | when no two records share a path, the rebuilt path index is unique |
| VectorDb.SaveLoadRoundTrip | mcp_vector/utils/vector_db.py:42-90 | loading what `save` wrote from a consistent, non-empty store gives back exactly that store |
| VectorDb.LastDeleteIsNotPersisted | mcp_vector/utils/vector_db.py:79-88 | deleting the only document succeeds, but the following `save` leaves the old files, so a reload still has the path |
| VectorDb.BuildPathIndex | mcp_vector/utils/vector_db.py:55 | rebuilding `path_to_id` succeeds exactly when every record has a string path, and the result inverts the catalog |
| VectorDb.VectorDatabase.constructor | mcp_vector/utils/vector_db.py:19-40 | the new database holds what the files hold, or is empty when they cannot be read |
| VectorDb.VectorDatabase.LoadOrCreateIndex | mcp_vector/utils/vector_db.py:42-63 | the state is what the files hold, or the empty store when a file is missing or loading raises |
| VectorDb.VectorDatabase.CreateNewIndex | mcp_vector/utils/vector_db.py:65-74 | the store becomes empty with counter 0 |
| VectorDb.VectorDatabase.Save | mcp_vector/utils/vector_db.py:76-90 | the files become `Saved` of the state; the state is unchanged |
| VectorDb.VectorDatabase.AddDocument | mcp_vector/utils/vector_db.py:92-134 | the new state and the result are those of `Added` |
| VectorDb.VectorDatabase.UpdateDocument | mcp_vector/utils/vector_db.py:106-115 | the new state and the result are those of `Updated` |
| VectorDb.VectorDatabase.InsertDocument | mcp_vector/utils/vector_db.py:116-134 | the new state and the result are those of `Inserted` |
| VectorDb.VectorDatabase.DeleteDocument | mcp_vector/utils/vector_db.py:136-154 | the new state and the result are those of `Deleted` |
| VectorDb.VectorDatabase.Search | mcp_vector/utils/vector_db.py:156-194 | the result-building loop returns `Searched` of the current state |
| VectorDb.VectorDatabase.GetStatus | mcp_vector/utils/vector_db.py:196-210 | the status is `Status` of the state: the record count, the dimension, the location and which files exist |
| VectorDb.VectorDatabase.GetDocumentPaths | mcp_vector/utils/vector_db.py:212-220 | the keys of `path_to_id` |
| Embedding.DefaultExtensionsAreExtractable | mcp_vector/utils/embedding.py:41-50 | every one of the 25 default extensions is taken by some document parser |
| Embedding.Enqueued | mcp_vector/utils/embedding.py:142-146 | the queue gains the path only if it is absent; the old queue is a prefix; no duplicates are introduced |
| Embedding.EnqueuedAll | mcp_vector/utils/embedding.py:256-259 | queueing a batch keeps the old queue as a prefix, adds exactly the batch's paths, and introduces no duplicates |
| Embedding.EnqueuedAllIdempotent | mcp_vector/utils/embedding.py:256-259 | queueing the same batch twice is the same as once |
| Embedding.EnqueuedAllOfMembers | mcp_vector/utils/embedding.py:142-146 | queueing paths that are all queued already changes nothing |
| Embedding.WithContent | mcp_vector/utils/embedding.py:205-207 | the metadata gains `content_hash` and `content_length = len(content)` and keeps everything else |
| Embedding.Ingested | mcp_vector/utils/embedding.py:170-217 | empty content, or a stored copy with the same hash, leaves the database and its files untouched |
| Embedding.IngestedConsistent | mcp_vector/utils/embedding.py:203-213 | processing a file keeps the database consistent when the metadata has no `path` key |
| Embedding.ProcessedFileKeepsConsistent | mcp_vector/utils/embedding.py:181-213 | processing any file keeps the database consistent, because extracted metadata never has a `path` key |
| Embedding.IngestedStoresContent | mcp_vector/utils/embedding.py:203-213 | a changed file ends up stored under its path with its hash, its length and its vector, and the database is saved |
| Embedding.StoredHash | mcp_vector/utils/embedding.py:192-198 | the stored `content_hash` of a path, found only for a path the database reports |
| Embedding.Unchanged | mcp_vector/utils/embedding.py:192-200 | the file is skipped: its path is stored and the stored `content_hash` equals the new hash |
| Embedding.Upserted | mcp_vector/utils/embedding.py:209-213 | the database after `add_document`; its files are either unchanged (a failed add) or hold that database |
| Embedding.Removed | mcp_vector/utils/embedding.py:219-240 | `delete_file` keeps the id counter, changes nothing for an unknown path, and leaves the files unchanged or holding the new database |
| Embedding.RemovedPath | mcp_vector/utils/embedding.py:219-240 | on a consistent database `delete_file` removes exactly that path, keeps the database consistent, and saves exactly when the path was known |
| Embedding.EmbeddingProcessor.constructor | mcp_vector/utils/embedding.py:22-71 | the fields start empty; the extension set is the default when none is given |
| Embedding.EmbeddingProcessor.Initialize | mcp_vector/utils/embedding.py:73-119 | a model that fails to load changes nothing; otherwise the model dimension is recorded, a database of that dimension is loaded from the files, a monitor over the watched folders and extensions is created, and the worker is marked running |
| Embedding.EmbeddingProcessor.StartMonitoring | mcp_vector/utils/embedding.py:121-124 | starts the monitor's observer when there is a monitor |
| Embedding.EmbeddingProcessor.Shutdown | mcp_vector/utils/embedding.py:317-333 | the worker stops, the observer is stopped, and the database is saved |
| Embedding.EmbeddingProcessor.ProcessFile | mcp_vector/utils/embedding.py:135-146 | the queue becomes `Enqueued`; the event is set exactly when the path was added |
| Embedding.EmbeddingProcessor.WorkerStep | mcp_vector/utils/embedding.py:148-168 | the oldest path leaves the queue; the event is cleared exactly when the queue is then empty; a non-empty path is processed as `Ingested` describes; an empty one is skipped |
| Embedding.EmbeddingProcessor.ProcessFileInternal | mcp_vector/utils/embedding.py:170-217 | the database and its files become `Ingested` of the extracted content and metadata |
| Embedding.EmbeddingProcessor.Ingest | mcp_vector/utils/embedding.py:184-213 | the database and its files become `Ingested` of the given content, metadata, hash and vector: empty or unchanged content, or no model, leaves them as they were |
| Embedding.EmbeddingProcessor.IsUnchanged | mcp_vector/utils/embedding.py:192-200 | the path is stored with the same content hash |
| Embedding.EmbeddingProcessor.Upsert | mcp_vector/utils/embedding.py:209-213 | `add_document` then `save`, where a failed add skips the save |
| Embedding.EmbeddingProcessor.DeleteFile | mcp_vector/utils/embedding.py:219-240 | the database becomes `Deleted`, and is saved only when the deletion reported True |
| Embedding.EmbeddingProcessor.ProcessAllFiles | mcp_vector/utils/embedding.py:242-267 | without a monitor the queue, the event, the database and its files are unchanged; otherwise every scanned file is queued once and the event is set, and a consistent database becomes `Reconciled` by the stored paths whose file is gone: it stays consistent, keeps exactly the paths whose file exists, and keeps their ids and records and the id counter; when no file is gone neither the database nor its files change, and when one is gone and some record remains the files hold the new database |
| Embedding.EmbeddingProcessor.EnqueueAll | mcp_vector/utils/embedding.py:256-259 | the queue becomes `EnqueuedAll` of the scanned files |
| Embedding.EmbeddingProcessor.RemoveMissing | mcp_vector/utils/embedding.py:261-263 | a consistent database becomes `Reconciled` by the stored paths whose file is gone, stays consistent and keeps exactly the paths whose file exists; its files are unchanged when none is gone, and otherwise hold the new database whenever it has a record |
| Embedding.ReconciledNothing | mcp_vector/utils/embedding.py:261-263 | deleting no path leaves the database as it was |
| Embedding.ReconciledSurvivors | mcp_vector/utils/embedding.py:261-263 | on a consistent database, a path that is not deleted keeps its id, its record and its live label, and the counter is kept; a deleted path loses its record and its label |
| Embedding.ReconciledStep | mcp_vector/utils/embedding.py:219-240 | `delete_document` of one more stored path succeeds and extends the reconciliation by that path |
| Embedding.ReconcilingStep | mcp_vector/utils/embedding.py:261-263 | one iteration of the deletion loop (`delete_file` for a missing file, nothing for an existing one) keeps the loop's account of the database and its files |
| Embedding.ReconcilingDone | mcp_vector/utils/embedding.py:261-263 | after the last iteration, the database keeps exactly the paths whose file exists and is `Reconciled` by the missing ones |
| Embedding.EmbeddingProcessor.Search | mcp_vector/utils/embedding.py:269-294 | `[]` without a model or a database or when the search raises; otherwise the database's results for the query embedding |
| Embedding.EmbeddingProcessor.GetStatus | mcp_vector/utils/embedding.py:296-315 | reports the model, the folders and the extensions; reports the database status exactly when there is a database, and the dimension exactly when the model is loaded |
| Monitor.SiblingFolderIsNotWatched | mcp_vector/file_handlers/monitor.py:59-68 | a file in a sibling folder whose name extends a watched folder's name is not watched, although its path string starts with the watched folder |
| Monitor.ExistingFolders | mcp_vector/file_handlers/monitor.py:79-84 | the observer schedules exactly the watched folders that exist |
| Monitor.IsValidFile | mcp_vector/file_handlers/monitor.py:48-57 | a regular file whose lower-cased `splitext` extension is in the filter, when there is one |
| Monitor.InWatchedFolders | mcp_vector/file_handlers/monitor.py:59-68 | some watched folder contains the path by components (`relative_to`) |
| Monitor.Scanned | mcp_vector/file_handlers/monitor.py:106-128 | every scanned path is a valid file |
| Monitor.Pending | mcp_vector/file_handlers/monitor.py:196-212 | the debounce table after a run of events has a pending entry for exactly the earlier entries and the events' paths |
| Monitor.ValidFiles | mcp_vector/file_handlers/monitor.py:122-125 | the walked files kept are exactly the valid ones |
| Monitor.ScannedExactly | mcp_vector/file_handlers/monitor.py:106-128 | a path is scanned exactly when it is a valid file in the tree and lies in a sub-tree of an existing watched folder |
| Monitor.ScannedStep | mcp_vector/file_handlers/monitor.py:115-128 | each folder contributes the valid files of its walk, and a missing folder contributes nothing |
| Monitor.FileMonitor.constructor | mcp_vector/file_handlers/monitor.py:19-46 | no observer, not stopped, and no file in processing |
| Monitor.FileMonitor.IsInWatchedFolders | mcp_vector/file_handlers/monitor.py:59-68 | true exactly when `relative_to` succeeds for some watched folder |
| Monitor.FileMonitor.Start | mcp_vector/file_handlers/monitor.py:70-91 | a running observer is left alone; otherwise an observer over the existing watched folders starts |
| Monitor.FileMonitor.Stop | mcp_vector/file_handlers/monitor.py:93-104 | without an observer nothing happens; otherwise the stopped flag is set and the observer is cleared |
| Monitor.FileMonitor.ScanExistingFiles | mcp_vector/file_handlers/monitor.py:106-128 | the nested scan loop returns `Scanned` of the watched folders |
| Monitor.FileMonitor.AppendValidFiles | mcp_vector/file_handlers/monitor.py:122-125 | the inner loop appends the valid files of a walk, in order |
| Monitor.Dispatch | mcp_vector/file_handlers/monitor.py:229-232 | `created` becomes an added-file call and `modified` a modified-file call for the same path |
| Monitor.LastEventWins | mcp_vector/file_handlers/monitor.py:196-212 | after a run of events, each path's pending entry is the type of its last event; a path with no event keeps its entry |
| Monitor.FileEventHandler.constructor | mcp_vector/file_handlers/monitor.py:134-144 | empty debounce table and a one-second debounce time |
| Monitor.FileEventHandler.HandleEvent | mcp_vector/file_handlers/monitor.py:188-212 | an invalid file is ignored; otherwise the path's pending entry becomes this event, replacing any earlier one |
| Monitor.FileEventHandler.OnCreated | mcp_vector/file_handlers/monitor.py:146-152 | a non-directory creation is debounced as `created` |
| Monitor.FileEventHandler.OnModified | mcp_vector/file_handlers/monitor.py:154-160 | a non-directory modification is debounced as `modified` |
| Monitor.FileEventHandler.OnDeleted | mcp_vector/file_handlers/monitor.py:162-170 | a non-directory deletion under a watched folder calls the delete callback at once, with no extension check |
| Monitor.FileEventHandler.OnMoved | mcp_vector/file_handlers/monitor.py:172-186 | the source is deleted if watched; a `created` is debounced for the destination if it is watched and valid |
| Monitor.FileEventHandler.ProcessEvent | mcp_vector/file_handlers/monitor.py:214-237 | the pending timer of the path fires: its entry leaves the table and, unless the path is being processed, the event type the entry held is dispatched; the processing set is restored |
| Extractors.Extensions | mcp_vector/file_handlers/extractors.py:72-245 | the extensions each handler takes: the text set, `.pdf`, `.docx`, `.xlsx`/`.xls`, `.pptx`/`.ppt` |
| Extractors.SizeLimit | mcp_vector/file_handlers/extractors.py:85-245 | each size limit is a whole number of MiB between 5 and 20 (text 5, PDF 20, DOCX 10, Excel 10, PowerPoint 15) |
| Extractors.Available | mcp_vector/file_handlers/extractors.py:121-122 | the text handler needs no library, and with every library installed every handler is available |
| Extractors.CanHandle | mcp_vector/file_handlers/extractors.py:82-245 | `can_handle`: library importable, lower-cased suffix among the handler's extensions, size strictly below its limit; no file of 20 MiB or more is ever handled |
| Extractors.Dispatched | mcp_vector/file_handlers/extractors.py:299-306 | the chosen handler can handle the file, and no handler is chosen only when none can |
| Extractors.FirstCapable | mcp_vector/file_handlers/extractors.py:300-306 | the position of the first handler that can take the file, or the end when none can |
| Extractors.ExtensionsDisjoint | mcp_vector/file_handlers/extractors.py:72-79 | no extension belongs to two handlers |
| Extractors.DispatchIsByExtension | mcp_vector/file_handlers/extractors.py:275-306 | the dispatcher picks a handler exactly when that handler's `can_handle` holds |
| Extractors.BasicMetadata | mcp_vector/file_handlers/extractors.py:57-66 | exactly `filename`, the lower-cased `extension`, `size_bytes` and `modified_time` |
| Extractors.FirstDecoding | mcp_vector/file_handlers/extractors.py:94-104 | the first encoding, in the order UTF-8, Latin-1, CP-1252, that decodes, or none |
| Extractors.TextExtracted | mcp_vector/file_handlers/extractors.py:87-113 | unreadable bytes give `""` and the metadata; otherwise only `encoding` may be added to the metadata, and no other key changes |
| Extractors.ExtractTextFile | mcp_vector/file_handlers/extractors.py:87-113 | the encoding loop returns `TextExtracted`: the first decoding text with its encoding recorded, or `""` |
| Extractors.FirstDecodingNone | mcp_vector/file_handlers/extractors.py:97-108 | when no encoding decodes, the text is empty |
| Extractors.FirstDecodingAt | mcp_vector/file_handlers/extractors.py:97-102 | the first decoding attempt is the one used |
| Extractors.Utf8First | mcp_vector/file_handlers/extractors.py:94-102 | text that decodes as UTF-8 is returned with encoding `utf-8` |
| Extractors.Strip | mcp_vector/file_handlers/extractors.py:140 | the stripped key is a slice of the key with only `/` before and after it, and it neither starts nor ends with `/` |
| Extractors.PdfInfo | mcp_vector/file_handlers/extractors.py:137-142 | copying the document information never removes a key |
| Extractors.PdfInfoAddsOnlyPdfKeys | mcp_vector/file_handlers/extractors.py:137-142 | a key that does not start with `pdf_` is neither added nor changed by the document information |
| Extractors.PdfExtracted | mcp_vector/file_handlers/extractors.py:127-152 | a non-PDF gives `""` and the metadata; a PDF keeps every metadata key and adds `page_count` |
| Extractors.ExtractPdf | mcp_vector/file_handlers/extractors.py:127-152 | the page loop returns each page followed by a blank line, with `page_count` and the `pdf_` entries |
| Extractors.PdfTextIsJoinedPages | mcp_vector/file_handlers/extractors.py:145-147 | the PDF text is the pages joined by a blank line, plus a final one |
| Extractors.DocxExtracted | mcp_vector/file_handlers/extractors.py:166-195 | a non-DOCX gives `""` and the metadata; a document adds exactly `author`, `created` and `title`, and no other key changes |
| Extractors.ExtractDocx | mcp_vector/file_handlers/extractors.py:166-195 | each paragraph plus a newline, then each table cell plus a space with a newline per row; the three core properties are recorded |
| Extractors.AppendTable | mcp_vector/file_handlers/extractors.py:186-190 | the table loops append `TableText` |
| Extractors.Present | mcp_vector/file_handlers/extractors.py:223-226 | the non-empty cells, which are empty exactly when every cell is `None` |
| Extractors.SheetNames | mcp_vector/file_handlers/extractors.py:215 | the sheet names in order |
| Extractors.EmptyRowsSkipped | mcp_vector/file_handlers/extractors.py:227-228 | a row contributes nothing exactly when all its cells are `None` |
| Extractors.ExcelExtracted | mcp_vector/file_handlers/extractors.py:209-234 | a non-workbook gives `""` and the metadata; a workbook adds exactly `sheet_names`, and no other key changes |
| Extractors.ExtractExcel | mcp_vector/file_handlers/extractors.py:209-234 | per sheet, a `Sheet: name` line, one ` \| `-joined line per non-empty row, then a blank line; the sheet names are recorded |
| Extractors.AppendSheet | mcp_vector/file_handlers/extractors.py:219-229 | the per-sheet loop appends `SheetText` |
| Extractors.PresentCells | mcp_vector/file_handlers/extractors.py:223-226 | the cell loop collects `Present` |
| Extractors.SlidesText | mcp_vector/file_handlers/extractors.py:257-268 | the deck's text is empty exactly when the deck has no slide |
| Extractors.SlidesTextStep | mcp_vector/file_handlers/extractors.py:257-268 | slide `i` contributes the block numbered `i + 1` after the earlier ones |
| Extractors.ExtractPowerPoint | mcp_vector/file_handlers/extractors.py:248-273 | the slide loop returns `PowerPointExtracted`: slides numbered from 1, each with its title line, its non-empty shape texts and a blank line; the slide count is recorded |
| Extractors.PowerPointExtracted | mcp_vector/file_handlers/extractors.py:252-270 | a deck records its slide count, and a deck with a slide has text beginning with the block of slide 1; anything else gives no text and the metadata unchanged |
| Extractors.DeckTextStartsWithFirstSlide | mcp_vector/file_handlers/extractors.py:257-268 | the text of a non-empty deck starts with `Slide 1:` |
| Extractors.PowerPointExtractedAsWritten | mcp_vector/file_handlers/extractors.py:252-273 | as written, a deck with a slide raises on `slide.title` and gives no text where the intended extraction gives some, with the same metadata |
| Extractors.SlideTitleLosesDeckText | mcp_vector/file_handlers/extractors.py:260 | a one-slide deck whose shape says `notes` gives `""` as written and `Slide 1:`, `notes` and a blank line as intended |
| Extractors.AppendSlide | mcp_vector/file_handlers/extractors.py:258-268 | the per-slide loop appends `SlideText` |
| Extractors.SlidesTextPrefix | mcp_vector/file_handlers/extractors.py:257-268 | the text of the first `n` slides is a prefix of the whole text |
| Extractors.ExtractedBy | mcp_vector/file_handlers/extractors.py:87-273 | every handler keeps the basic metadata keys |
| Extractors.Extracted | mcp_vector/file_handlers/extractors.py:285-306 | a missing path or a non-file gives `""` and the error record; otherwise the basic metadata keys are present |
| Extractors.UnhandledFileHasNoText | mcp_vector/file_handlers/extractors.py:305-306 | a file no handler can take gives `""` and exactly the basic metadata |
| Extractors.ExtractedHasNoPathKey | mcp_vector/file_handlers/extractors.py:285-306 | extracted metadata never has a `path` key |
| Extractors.ExtractedByHasNoPathKey | mcp_vector/file_handlers/extractors.py:87-273 | no handler's metadata has a `path` key |
| Extractors.ExtractWith | mcp_vector/file_handlers/extractors.py:303 | runs the chosen handler's extraction |
| Extractors.ExtractFileContent | mcp_vector/file_handlers/extractors.py:285-306 | returns `Extracted` |
| Extractors.FindHandler | mcp_vector/file_handlers/extractors.py:300-303 | the dispatch loop finds `Dispatched`, the first capable handler in order |
| Extractors.FirstCapableAt | mcp_vector/file_handlers/extractors.py:300-303 | a capable handler with no capable one before it is the one chosen |
| Extractors.FirstCapableNone | mcp_vector/file_handlers/extractors.py:305-306 | with no capable handler, none is chosen |
| Files.SiblingWithLongerNameIsNotUnder | mcp_vector/file_handlers/monitor.py:63-66 | `relative_to` fails for a sibling whose name extends the root's last component |
| Files.SuffixAgreesWithSplitExt | mcp_vector/file_handlers/extractors.py:84 | for a name that neither starts nor ends with a dot, `suffix` and `splitext` agree |
| Files.TrailingDotExtensionsDiffer | mcp_vector/file_handlers/monitor.py:53-56 | on `notes.` the monitor sees extension `.` and the extractors see none |
| Files.Walk | mcp_vector/file_handlers/monitor.py:119-125 | every path the walk reports is a file of the listing strictly inside the root |
| Files.WalkComplete | mcp_vector/file_handlers/monitor.py:119-125 | every file strictly inside the root is reported |
| VectorHandler.Filtered | mcp_vector/mcp/vector_handler.py:66-74 | the kept results are a subsequence of the results; a result is kept exactly when some prefix begins its path; the loop raises exactly when prefixes are given and some result's path is not a string |
| VectorHandler.ResultPath | mcp_vector/mcp/vector_handler.py:69 | `result.get('path', '')`: a non-empty path is the record's `path` string; none when that value is not a string |
| VectorHandler.SubsequenceKeepsOrder | mcp_vector/mcp/vector_handler.py:66-74 | the filter keeps the original relative order |
| VectorHandler.FilteredErrPersists | mcp_vector/mcp/vector_handler.py:66-74 | once the loop has raised on some results, it raises on any longer run of them |
| VectorHandler.Responded | mcp_vector/mcp/vector_handler.py:63-84 | `query` and `top_k` are echoed; `results_count` is the number of results; absent or empty prefixes, or no results, filter nothing; otherwise the results are the matching subsequence |
| VectorHandler.MCPVectorHandler.VectorSearch | mcp_vector/mcp/vector_handler.py:48-84 | the reply is `Responded` to the processor's search results |
| VectorHandler.MCPVectorHandler.VectorStatus | mcp_vector/mcp/vector_handler.py:86-98 | the processor's status: its model and folders, with a database status exactly when there is a database |
| VectorHandler.MCPVectorHandler.VectorRun | mcp_vector/mcp/vector_handler.py:100-118 | the reply is always status `processing` with the fixed message, whatever the paths |
| VectorHandler.MCPVectorHandler.Shutdown | mcp_vector/mcp/vector_handler.py:120-125 | the processor's worker stops |
| VectorHandler.FilterByPrefix | mcp_vector/mcp/vector_handler.py:66-74 | the loop with its `break` computes `Filtered` |
| VectorHandler.AppendIfMatches | mcp_vector/mcp/vector_handler.py:69-73 | the result is appended once if some prefix begins its path |
| Config.ExpandUser | mcp_vector/main.py:233-235 | a path not starting with `~` is unchanged; `~` and `~/...` get the home directory, without trailing slashes, in place of the tilde |
| Config.TrimSlashes | mcp_vector/main.py:233-235 | `rstrip('/')`: a prefix of the string not ending in `/`, with only slashes after it |
| Config.ExpandUserIdempotent | mcp_vector/main.py:233-235 | expanding twice is expanding once, when the home directory does not start with `~` |
| Config.EnvFolders | mcp_vector/main.py:172 | an unset or empty variable gives no folders |
| Config.EnvFoldersRoundTrip | mcp_vector/main.py:172 | the folders joined back with `;` give the variable |
| Config.EnvExtensions | mcp_vector/main.py:173 | an unset or empty variable gives `None`; otherwise the set of `,`-separated fields |
| Config.Defaults | mcp_vector/main.py:167-174 | the environment's values or the fixed defaults, for all six keys, with `paraphrase-multilingual-MiniLM-L12-v2` as the default model |
| Config.Set | mcp_vector/main.py:188-189 | assigning one key changes that key only |
| Config.Applied | mcp_vector/main.py:183-189 | a known key takes the entry's value, with a list of extensions turned into a set; an unknown key changes nothing |
| Config.Converted | mcp_vector/main.py:186-189 | a list under `supported_extensions` becomes the set of its items; any other value is kept as is |
| Config.Merged | mcp_vector/main.py:183-189 | the settings after the file's entries, applied in order (see `LastEntryWins`) |
| Config.LastEntry | mcp_vector/main.py:183-189 | the position of the last file entry for a key |
| Config.LastEntryWins | mcp_vector/main.py:183-189 | after the file, a known key holds its last entry's value, converted, or its earlier value when the file has no entry for it |
| Config.Loaded | mcp_vector/main.py:165-193 | a missing or unparsable file leaves the environment-derived settings |
| Config.Overridden | mcp_vector/main.py:216-231 | host and port are replaced when truthy; the model, the database path and the folders only when given; the folders are never falsy afterwards, falling back to the working directory |
| Config.Iterated | mcp_vector/main.py:235 | iterating a list gives its items; iterating a string gives its characters; anything else raises |
| Config.ExpandAll | mcp_vector/main.py:235 | each folder expanded, in order |
| Config.Finalized | mcp_vector/main.py:233-235 | succeeds exactly when the database path is a string and the folders are iterable; then both are expanded and nothing else changes |
| Config.StringFoldersAreCharacters | mcp_vector/main.py:184-185 | a file with `"watch_folders": "/ab"` makes `/`, `a` and `b` the folders |
| Config.LoadConfig | mcp_vector/main.py:165-193 | the entry loop builds `Loaded` |
| Config.Configured | mcp_vector/main.py:165-235 | the settings the server runs with: loaded, overridden by the command line, then expanded |
| Config.AtLeastOneFolder | mcp_vector/main.py:206-235 | when configuration succeeds, the server watches at least one folder and the database path is a string |
| Config.CommandLineWins | mcp_vector/main.py:216-231 | a database path and folders given on the command line win over the environment and the file |
| Config.EnvironmentFoldersWithoutFile | mcp_vector/main.py:165-193 | without a file or folder options, the environment's folders are watched, or the working directory when it names none |
| Config.Configure | mcp_vector/main.py:206-235 | the settings are `Configured`: loaded, then overridden, then expanded |
| Config.Override | mcp_vector/main.py:216-231 | the override steps compute `Overridden` |
| Config.Expand | mcp_vector/main.py:233-235 | the expansion steps compute `Finalized` |

## Findings

| source | as written | input that shows it | evidently intended | confidence | as-written member | corrected member |
|---|---|---|---|---|---|---|
| mcp_vector/file_handlers/extractors.py:260 | `if slide.title:` reads an attribute that python-pptx `Slide` objects do not have, so the first slide raises `AttributeError`, the handler returns `("", metadata)` with `slide_count`, and an empty text is never indexed (`mcp_vector/utils/embedding.py:184-186`) | a `.pptx` deck with one slide whose only shape says `notes` | the title placeholder `slide.shapes.title`, so every slide contributes its numbered block | medium, not executed: rests on the python-pptx API | Extractors.SlideTitleLosesDeckText | Extractors.PowerPointExtracted |

## Left out

- Threads and timers: locks, `threading.Event` waits, `threading.Timer`, daemon threads and `join` timeouts. The worker loop is modelled as one step, and a debounce timer as an entry that `ProcessEvent` fires. `initialize` starts the worker thread twice; this is not modelled.
- hnswlib itself: graph construction, cosine distance and floating point. `knn_query` is the parameter `knn`, which may raise.
- The sentence-transformer model and MD5: the embedding and the hash are function parameters. `Initialize` receives the model's dimension, or `None` when loading fails.
- Clocks: `datetime.now().isoformat()` readings are parameters.
- File I/O: the JSON and binary contents of the two storage files, `mkdir`, `Path.resolve` and the order of `os.walk`. Paths are taken as canonical, and the walk order is the file system's `listing`.
- Document libraries: pypdf, python-docx, openpyxl and python-pptx are replaced by `Content`, which is what each would read from a file. A parser exception is `Unreadable`.
- Logging, argparse, the HTTP and MCP routes, signal handlers and uvicorn.
- Embedding.EmbeddingProcessor.ProcessFileInternal: the stored record of a path is found through `path_to_id`, not by scanning `metadata` for a matching `path`. The two agree on a consistent database. On an inconsistent one the source's scan may raise `KeyError`.
- Embedding.EmbeddingProcessor.ProcessAllFiles: without a database the source raises an `AttributeError` after scanning. The model returns without any change.
- Embedding.EmbeddingProcessor.Initialize: a database constructor that raises is not modelled.
- VectorHandler.MCPVectorHandler.VectorRun: the reconciliation runs before the reply; the source runs it on a background thread.
- VectorHandler.MCPVectorHandler.constructor: it takes an existing processor. The source's sequence of `initialize`, `start_monitoring` and a background `process_all_files` is modelled by those methods separately.
- VectorHandler.MCPVectorHandler.Shutdown: states only that the worker stops. The monitor and database effects are stated by `Embedding.EmbeddingProcessor.Shutdown`.
- Config.Defaults: the port variable is taken as an integer. `int()` raising on a non-numeric value is not modelled.
- Config.ExpandUser: `~user` forms are returned unchanged, because user lookup is not modelled.
- Common.Lower: lower-casing is ASCII only. Python's `str.lower` also maps other letters (U+212A KELVIN SIGN becomes `k`), so a suffix written with such a letter can match an extension in the source but not in `Extractors.Extension` or `Monitor.IsValidFile`.
- Embedding.EmbeddingProcessor.RemoveMissing: when the last record is deleted, the files hold the database as saved after the previous deletion (or as they were), which depends on the set's iteration order; the contract says nothing about them in that case. Likewise for `ProcessAllFiles`.
- Configuration files whose values are nested objects or lists of non-strings are not representable. `set()` of unhashable items would raise part-way through the loop.
- Dictionary iteration order: a catalog with two records for one path loads to some path index built from them, not necessarily the one Python's order picks.
- `vector_status` is the processor's `get_status`. `_get_content_hash`, `stop_monitoring` and `setup.py` have no further behaviour to model.
- Extractors.ExtractPdf: a parse failure is modelled as failing when the file is opened. A failure after `page_count` or the `pdf_` entries were set (`mcp_vector/file_handlers/extractors.py:134-142`) keeps those keys in the source, but `Unreadable` gives only the basic metadata.
- Extractors.ExtractDocx: likewise, the source keeps `author`, `created` and `title` (`mcp_vector/file_handlers/extractors.py:176-178`) when a later step raises; the model does not.
- Extractors.ExtractExcel: likewise, the source keeps `sheet_names` (`mcp_vector/file_handlers/extractors.py:215`) when a later step raises; the model does not.
- Extractors.ExtractPowerPoint: likewise, the source keeps `slide_count` (`mcp_vector/file_handlers/extractors.py:254`) when a later step raises; the model does not, except through `PowerPointExtractedAsWritten`. The model uses the intended title lookup (see Findings).
- VectorDb.BuildPathIndex: a record whose `path` is a non-string hashable JSON value (a number, `null` or a boolean) is still indexed by the source, because `path_to_id` accepts any hashable key. Only a missing `path` or a list makes the load raise. The model's path index holds strings, so it treats every non-string path as a failed load and starts from the empty store.
- Monitor.FileEventHandler.ProcessEvent: a timer fires only while it is its path's pending entry. In the source, a timer that is already running when a new event replaces it removes its replacement's entry (`mcp_vector/file_handlers/monitor.py:222-224`), and the replacement later fires with no entry. That race is not modelled.
- Monitor.FileMonitor.Start: `start` schedules a separate `FileEventHandler`, with its own debounce table, for each existing watch folder (`mcp_vector/file_handlers/monitor.py:81-88`). With nested or repeated watch folders, one change fires once per enclosing folder. The model has a single handler, unrelated to `Start`.
