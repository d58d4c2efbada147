/** The file monitor: which paths it accepts, the initial scan of the watch
    folders, the observer toggle, and the event handler's debounce table.
    Timers and the observer thread are not modelled: a pending timer is an
    entry of the debounce table, and its firing is a call of `ProcessEvent`.
    The callbacks the monitor was built with are recorded, in order, in
    `FileMonitor.calls`. */
module Monitor {
  import opened Common
  import opened Files

  /** A call of one of the three callbacks. */
  datatype Call = FileAdded(path: string) | FileModified(path: string) | FileDeleted(path: string)

  /** The event types that are debounced. */
  datatype EventType = Created | Modified

  /** A watchdog event. */
  datatype Event = Event(isDirectory: bool, srcPath: string, destPath: string)

  /** `_is_valid_file`: a regular file whose lower-cased `os.path.splitext`
      extension is in the filter, when there is one. */
  predicate IsValidFile(fs: FileSystem, extensions: Option<set<string>>, p: string) {
    fs.IsFile(p) && (extensions.Some? ==> Lower(SplitExt(p)) in extensions.value)
  }

  /** `_is_in_watched_folders`: `relative_to` succeeds for some folder. */
  predicate InWatchedFolders(folders: seq<string>, p: string) {
    exists i :: 0 <= i < |folders| && IsUnder(p, folders[i])
  }

  /** A sibling folder whose name merely starts with a watched folder's
      name is not watched: containment is by components, not by string
      prefix. */
  lemma SiblingFolderIsNotWatched(base: string, dir: string, more: string, file: string)
    requires dir != "" && '/' !in dir
    requires more != "" && '/' !in more
    requires file != "" && '/' !in file
    ensures StartsWith(base + "/" + (dir + more) + "/" + file, base + "/" + dir)
    ensures !InWatchedFolders([base + "/" + dir], base + "/" + (dir + more) + "/" + file)
  {
    SiblingWithLongerNameIsNotUnder(base, dir, more, file);
  }

  /** The watch folders that exist, in order. */
  function ExistingFolders(fs: FileSystem, folders: seq<string>): (r: seq<string>)
    ensures forall f :: f in r <==> f in folders && fs.Exists(f)
    ensures |r| <= |folders|
    decreases |folders|
  {
    if folders == [] then []
    else
      var init := folders[..|folders| - 1];
      var last := folders[|folders| - 1];
      assert folders == init + [last];
      ExistingFolders(fs, init) + (if fs.Exists(last) then [last] else [])
  }

  /** The valid files among `files`, in order. */
  function ValidFiles(fs: FileSystem, extensions: Option<set<string>>, files: seq<string>): (r: seq<string>)
    ensures forall p :: p in r <==> p in files && IsValidFile(fs, extensions, p)
    decreases |files|
  {
    if files == [] then []
    else
      var init := files[..|files| - 1];
      var last := files[|files| - 1];
      assert files == init + [last];
      ValidFiles(fs, extensions, init) + (if IsValidFile(fs, extensions, last) then [last] else [])
  }

  /** What `scan_existing_files` returns: for each existing folder in turn,
      the valid files a walk of it reports. */
  function Scanned(fs: FileSystem, extensions: Option<set<string>>, folders: seq<string>): (r: seq<string>)
    ensures forall i :: 0 <= i < |r| ==> IsValidFile(fs, extensions, r[i])
    decreases |folders|
  {
    if folders == [] then []
    else
      var last := folders[|folders| - 1];
      Scanned(fs, extensions, folders[..|folders| - 1])
      + (if fs.Exists(last) then ValidFiles(fs, extensions, Walk(fs, last, fs.listing)) else [])
  }

  /** `p` lies in a sub-directory of one of the existing `folders`. */
  predicate InExistingFolder(fs: FileSystem, folders: seq<string>, p: string) {
    exists i :: 0 <= i < |folders| && fs.Exists(folders[i]) && IsStrictlyUnder(p, folders[i])
  }

  /** The scan reports exactly the valid listed files lying in a
      sub-directory of an existing watch folder. */
  lemma {:induction false} ScannedExactly(fs: FileSystem, extensions: Option<set<string>>, folders: seq<string>, p: string)
    ensures p in Scanned(fs, extensions, folders) <==>
              IsValidFile(fs, extensions, p) && p in fs.listing && InExistingFolder(fs, folders, p)
    decreases |folders|
  {
    if folders != [] {
      var init := folders[..|folders| - 1];
      var last := folders[|folders| - 1];
      ScannedExactly(fs, extensions, init, p);
      InExistingFolderStep(fs, folders, p);
      ScannedLast(fs, extensions, last, p);
    }
  }

  /** The folders are a prefix and a last folder. */
  lemma InExistingFolderStep(fs: FileSystem, folders: seq<string>, p: string)
    requires folders != []
    ensures InExistingFolder(fs, folders, p) <==>
              InExistingFolder(fs, folders[..|folders| - 1], p)
              || (fs.Exists(folders[|folders| - 1]) && IsStrictlyUnder(p, folders[|folders| - 1]))
  {
    var init := folders[..|folders| - 1];
    if InExistingFolder(fs, folders, p) {
      var i :| 0 <= i < |folders| && fs.Exists(folders[i]) && IsStrictlyUnder(p, folders[i]);
      if i < |init| {
        assert init[i] == folders[i];
      }
    }
    if InExistingFolder(fs, init, p) {
      var i :| 0 <= i < |init| && fs.Exists(init[i]) && IsStrictlyUnder(p, init[i]);
      assert folders[i] == init[i];
    }
  }

  /** What one folder's walk contributes to the scan. */
  lemma ScannedLast(fs: FileSystem, extensions: Option<set<string>>, folder: string, p: string)
    ensures p in ValidFiles(fs, extensions, Walk(fs, folder, fs.listing)) <==>
              IsValidFile(fs, extensions, p) && p in fs.listing && IsStrictlyUnder(p, folder)
  {
    if IsValidFile(fs, extensions, p) && p in fs.listing && IsStrictlyUnder(p, folder) {
      WalkComplete(fs, folder, fs.listing, p);
    }
  }

  lemma ScannedStep(fs: FileSystem, extensions: Option<set<string>>, folders: seq<string>, i: nat)
    requires i < |folders|
    ensures Scanned(fs, extensions, folders[..i + 1]) == Scanned(fs, extensions, folders[..i])
              + (if fs.Exists(folders[i]) then ValidFiles(fs, extensions, Walk(fs, folders[i], fs.listing)) else [])
  {
    assert folders[..i + 1][..i] == folders[..i];
  }

  class FileMonitor {
    const watchFolders: seq<string>
    const fileExtensions: Option<set<string>>
    /** The folders the running observer watches; `None` when stopped. */
    var observer: Option<seq<string>>
    /** The `stopped` event. */
    var stopped: bool
    var processingFiles: set<string>
    /** The callback calls made so far. */
    var calls: seq<Call>

    constructor(watchFolders: seq<string>, fileExtensions: Option<set<string>>)
      ensures this.watchFolders == watchFolders && this.fileExtensions == fileExtensions
      ensures observer == None && !stopped && processingFiles == {} && calls == []
    {
      this.watchFolders := watchFolders;
      this.fileExtensions := fileExtensions;
      observer := None;
      stopped := false;
      processingFiles := {};
      calls := [];
    }

    /** The loop of `_is_in_watched_folders`. */
    method IsInWatchedFolders(p: string) returns (b: bool)
      ensures b <==> InWatchedFolders(watchFolders, p)
    {
      for i := 0 to |watchFolders|
        invariant forall j :: 0 <= j < i ==> !IsUnder(p, watchFolders[j])
      {
        if IsUnder(p, watchFolders[i]) {
          return true;
        }
      }
      return false;
    }

    /** `start`: schedules the existing folders, unless already running. */
    method Start(fs: FileSystem)
      modifies this
      ensures old(observer).Some? ==> observer == old(observer)
      ensures old(observer).None? ==> observer == Some(ExistingFolders(fs, watchFolders))
      ensures stopped == old(stopped) && processingFiles == old(processingFiles) && calls == old(calls)
    {
      if observer.Some? {
        return;
      }
      var scheduled := [];
      for i := 0 to |watchFolders|
        invariant scheduled == ExistingFolders(fs, watchFolders[..i])
      {
        assert watchFolders[..i + 1][..i] == watchFolders[..i];
        if !fs.Exists(watchFolders[i]) {
          continue;
        }
        scheduled := scheduled + [watchFolders[i]];
      }
      assert watchFolders[..|watchFolders|] == watchFolders;
      observer := Some(scheduled);
    }

    /** `stop`: sets the stopped event and drops the observer, if running. */
    method Stop()
      modifies this
      ensures old(observer).None? ==> observer == None && stopped == old(stopped)
      ensures old(observer).Some? ==> observer == None && stopped
      ensures processingFiles == old(processingFiles) && calls == old(calls)
    {
      if observer.None? {
        return;
      }
      stopped := true;
      observer := None;
    }

    /** `scan_existing_files`. */
    method ScanExistingFiles(fs: FileSystem) returns (allFiles: seq<string>)
      ensures allFiles == Scanned(fs, fileExtensions, watchFolders)
    {
      allFiles := [];
      for i := 0 to |watchFolders|
        invariant allFiles == Scanned(fs, fileExtensions, watchFolders[..i])
      {
        ScannedStep(fs, fileExtensions, watchFolders, i);
        var folder := watchFolders[i];
        if !fs.Exists(folder) {
          continue;
        }
        allFiles := AppendValidFiles(fs, allFiles, Walk(fs, folder, fs.listing));
      }
      assert watchFolders[..|watchFolders|] == watchFolders;
    }

    /** The inner loop of `scan_existing_files`: the walk's valid files
        appended to `allFiles`. */
    method AppendValidFiles(fs: FileSystem, allFiles: seq<string>, files: seq<string>) returns (r: seq<string>)
      ensures r == allFiles + ValidFiles(fs, fileExtensions, files)
    {
      r := allFiles;
      for k := 0 to |files|
        invariant r == allFiles + ValidFiles(fs, fileExtensions, files[..k])
      {
        assert files[..k + 1][..k] == files[..k];
        if IsValidFile(fs, fileExtensions, files[k]) {
          r := r + [files[k]];
        }
      }
      assert files[..|files|] == files;
    }
  }

  /** The callback a fired event of type `t` calls. */
  function Dispatch(p: string, t: EventType): (c: Call)
    ensures c.path == p
    ensures t == Created <==> c.FileAdded?
    ensures t == Modified <==> c.FileModified?
  {
    match t
    case Created => FileAdded(p)
    case Modified => FileModified(p)
  }

  /** The debounce table after the valid events `events`, in order. */
  function Pending(table: map<string, EventType>, events: seq<(string, EventType)>): (r: map<string, EventType>)
    ensures r.Keys == table.Keys + set i | 0 <= i < |events| :: events[i].0
    decreases |events|
  {
    if events == [] then table
    else
      var (p, t) := events[|events| - 1];
      Pending(table, events[..|events| - 1])[p := t]
  }

  /** The last event wins: a path's pending entry has the type of the last
      event for it, and a path with no event keeps its entry. */
  lemma {:induction false} LastEventWins(table: map<string, EventType>, events: seq<(string, EventType)>, p: string)
    ensures (exists i :: 0 <= i < |events| && events[i].0 == p) ==> p in Pending(table, events)
    ensures forall i :: 0 <= i < |events| && events[i].0 == p && (forall j :: i < j < |events| ==> events[j].0 != p)
              ==> Pending(table, events)[p] == events[i].1
    ensures (forall i :: 0 <= i < |events| ==> events[i].0 != p) ==>
              (p in Pending(table, events) <==> p in table) &&
              (p in table ==> Pending(table, events)[p] == table[p])
    decreases |events|
  {
    if events != [] {
      var init := events[..|events| - 1];
      LastEventWins(table, init, p);
      assert forall i :: 0 <= i < |init| ==> init[i] == events[i];
    }
  }

  class FileEventHandler {
    const monitor: FileMonitor
    const debounceTime: real
    /** Pending timers: the event type each would fire with. */
    var debounceEvents: map<string, EventType>

    constructor(monitor: FileMonitor)
      ensures this.monitor == monitor && debounceTime == 1.0 && debounceEvents == map[]
    {
      this.monitor := monitor;
      debounceTime := 1.0;
      debounceEvents := map[];
    }

    /** `_handle_event`: a valid file's earlier timer is cancelled and
        replaced by one for this event. */
    method HandleEvent(fs: FileSystem, p: string, t: EventType)
      modifies this
      ensures debounceEvents == if IsValidFile(fs, monitor.fileExtensions, p) then old(debounceEvents)[p := t]
                                else old(debounceEvents)
    {
      if !IsValidFile(fs, monitor.fileExtensions, p) {
        return;
      }
      debounceEvents := debounceEvents[p := t];
    }

    method OnCreated(fs: FileSystem, ev: Event)
      modifies this
      ensures debounceEvents == if !ev.isDirectory && IsValidFile(fs, monitor.fileExtensions, ev.srcPath)
                                then old(debounceEvents)[ev.srcPath := Created] else old(debounceEvents)
    {
      if ev.isDirectory {
        return;
      }
      HandleEvent(fs, ev.srcPath, Created);
    }

    method OnModified(fs: FileSystem, ev: Event)
      modifies this
      ensures debounceEvents == if !ev.isDirectory && IsValidFile(fs, monitor.fileExtensions, ev.srcPath)
                                then old(debounceEvents)[ev.srcPath := Modified] else old(debounceEvents)
    {
      if ev.isDirectory {
        return;
      }
      HandleEvent(fs, ev.srcPath, Modified);
    }

    /** `on_deleted`: a watched path is reported at once, whatever its
        extension, without debouncing. */
    method OnDeleted(ev: Event)
      modifies monitor
      ensures monitor.calls == old(monitor.calls)
                + (if !ev.isDirectory && InWatchedFolders(monitor.watchFolders, ev.srcPath) then [FileDeleted(ev.srcPath)] else [])
      ensures monitor.observer == old(monitor.observer) && monitor.stopped == old(monitor.stopped)
      ensures monitor.processingFiles == old(monitor.processingFiles)
    {
      if ev.isDirectory {
        return;
      }
      var watched := monitor.IsInWatchedFolders(ev.srcPath);
      if watched {
        monitor.calls := monitor.calls + [FileDeleted(ev.srcPath)];
      }
    }

    /** `on_moved`: a delete of a watched source, then a debounced creation
        of a watched, valid destination. */
    method OnMoved(fs: FileSystem, ev: Event)
      modifies this, monitor
      ensures monitor.calls == old(monitor.calls)
                + (if !ev.isDirectory && InWatchedFolders(monitor.watchFolders, ev.srcPath) then [FileDeleted(ev.srcPath)] else [])
      ensures debounceEvents == if !ev.isDirectory && InWatchedFolders(monitor.watchFolders, ev.destPath)
                                   && IsValidFile(fs, monitor.fileExtensions, ev.destPath)
                                then old(debounceEvents)[ev.destPath := Created] else old(debounceEvents)
      ensures monitor.observer == old(monitor.observer) && monitor.stopped == old(monitor.stopped)
      ensures monitor.processingFiles == old(monitor.processingFiles)
    {
      if ev.isDirectory {
        return;
      }
      var srcWatched := monitor.IsInWatchedFolders(ev.srcPath);
      if srcWatched {
        monitor.calls := monitor.calls + [FileDeleted(ev.srcPath)];
      }
      var destWatched := monitor.IsInWatchedFolders(ev.destPath);
      if destWatched && IsValidFile(fs, monitor.fileExtensions, ev.destPath) {
        HandleEvent(fs, ev.destPath, Created);
      }
    }

    /** `_process_event`, run when the pending timer for `p` fires with the
        event type it captured: the entry is dropped, and unless `p` is
        already being processed the matching callback is called with `p`
        marked as in progress. */
    method ProcessEvent(p: string)
      requires p in debounceEvents
      modifies this, monitor
      ensures debounceEvents == old(debounceEvents) - {p}
      ensures monitor.calls == old(monitor.calls)
                + (if p in old(monitor.processingFiles) then [] else [Dispatch(p, old(debounceEvents)[p])])
      ensures monitor.processingFiles == old(monitor.processingFiles)
      ensures monitor.observer == old(monitor.observer) && monitor.stopped == old(monitor.stopped)
    {
      var t := debounceEvents[p];
      debounceEvents := debounceEvents - {p};
      if p in monitor.processingFiles {
        assert monitor.calls + [] == monitor.calls;
        return;
      }
      monitor.processingFiles := monitor.processingFiles + {p};
      match t {
        case Created => monitor.calls := monitor.calls + [FileAdded(p)];
        case Modified => monitor.calls := monitor.calls + [FileModified(p)];
      }
      monitor.processingFiles := monitor.processingFiles - {p};
    }
  }
}
