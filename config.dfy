/** How the server's settings are assembled: defaults taken from the
    environment, then the entries of an optional JSON configuration file,
    then the command-line options, then a default watch folder and `~`
    expansion. */
module Config {
  import opened Common

  /** A setting: a JSON value, or the set a `supported_extensions` list becomes. */
  datatype Setting = Json(v: Value) | ExtensionSet(exts: set<string>)

  /** The `config` dictionary, one field per key. Only
      `supported_extensions` can hold a set. */
  datatype Settings = Settings(host: Value, port: Value, modelName: Value, dbPath: Value,
                               watchFolders: Value, supportedExtensions: Setting)

  /** The keys `load_config` starts from; the file can set no others. */
  const Keys: set<string> := {"host", "port", "model_name", "db_path", "watch_folders", "supported_extensions"}

  /** `config[key]` for a key of `Keys`. */
  function Get(c: Settings, key: string): Setting
    requires key in Keys
  {
    if key == "host" then Json(c.host)
    else if key == "port" then Json(c.port)
    else if key == "model_name" then Json(c.modelName)
    else if key == "db_path" then Json(c.dbPath)
    else if key == "watch_folders" then Json(c.watchFolders)
    else c.supportedExtensions
  }

  /** `config[key] = value` for a key of `Keys`. */
  function Set(c: Settings, key: string, value: Value): (r: Settings)
    requires key in Keys
    ensures Get(r, key) == Json(value)
    ensures forall k :: k in Keys && k != key ==> Get(r, k) == Get(c, k)
  {
    if key == "host" then c.(host := value)
    else if key == "port" then c.(port := value)
    else if key == "model_name" then c.(modelName := value)
    else if key == "db_path" then c.(dbPath := value)
    else if key == "watch_folders" then c.(watchFolders := value)
    else c.(supportedExtensions := Json(value))
  }

  /** The `MCP_VECTOR_*` environment variables, `None` when unset; the port
      variable is taken as already converted by `int`. */
  datatype Env = Env(host: Option<string>, port: Option<int>, model: Option<string>, dbPath: Option<string>,
                     watchFolders: Option<string>, extensions: Option<string>)

  /** The configuration file named by `--config`: absent (no option, or no
      such file), failing to open or parse as a JSON object, or its entries
      in order. */
  datatype ConfigFile = NoFile | Unparsable | Parsed(entries: seq<(string, Value)>)

  /** The command-line options, with argparse's defaults for host and port. */
  datatype Args = Args(host: string, port: int, model: Option<string>, dbPath: Option<string>,
                       watchFolder: Option<seq<string>>)

  /** `os.path.expanduser` for `~` and `~/...`: the home directory without
      trailing slashes replaces the tilde (`/` if that leaves nothing). */
  function ExpandUser(p: string, home: string): (r: string)
    ensures !StartsWith(p, "~") ==> r == p
    ensures StartsWith(p, "~") && (|p| == 1 || p[1] == '/') ==> r == (if TrimSlashes(home) + p[1..] == "" then "/" else TrimSlashes(home) + p[1..])
  {
    if |p| == 0 || p[0] != '~' then p
    else if |p| > 1 && p[1] != '/' then p
    else
      var r := TrimSlashes(home) + p[1..];
      if r == "" then "/" else r
  }

  /** `s.rstrip('/')`. */
  function TrimSlashes(s: string): (r: string)
    ensures StartsWith(s, r) && (r == "" || r[|r| - 1] != '/')
    ensures forall i :: |r| <= i < |s| ==> s[i] == '/'
  {
    if s == [] || s[|s| - 1] != '/' then s else TrimSlashes(s[..|s| - 1])
  }

  /** Expanding twice is expanding once, for a home directory that does not
      itself start with a tilde. */
  lemma ExpandUserIdempotent(p: string, home: string)
    requires !StartsWith(home, "~")
    ensures ExpandUser(ExpandUser(p, home), home) == ExpandUser(p, home)
  {
    var h := TrimSlashes(home);
    if h != "" {
      assert h[0] == home[0];
    }
  }

  /** `MCP_VECTOR_WATCH_FOLDERS` split on `;`; unset or empty gives `[]`. */
  function EnvFolders(s: Option<string>): (r: seq<string>)
    ensures s.None? || s == Some("") ==> r == []
  {
    if s.Some? && s.value != "" then Split(s.value, ';') else []
  }

  /** The folder list joined back with `;` is the variable. */
  lemma EnvFoldersRoundTrip(s: string)
    requires s != ""
    ensures Join(EnvFolders(Some(s)), ";") == s
  {
    JoinSplit(s, ';');
  }

  /** `MCP_VECTOR_EXTENSIONS` split on `,` into a set; unset or empty gives `None`. */
  function EnvExtensions(s: Option<string>): (r: Option<set<string>>)
    ensures r.None? <==> s.None? || s == Some("")
    ensures r.Some? ==> forall e :: e in r.value <==> e in Split(s.value, ',')
  {
    if s.Some? && s.value != "" then Some(set e | e in Split(s.value, ',')) else None
  }

  /** The dictionary `load_config` builds before reading the file. */
  function Defaults(env: Env, home: string): (r: Settings)
    ensures r.watchFolders == StrList(EnvFolders(env.watchFolders))
    ensures r.supportedExtensions == match EnvExtensions(env.extensions)
                                     case None => Json(Null)
                                     case Some(exts) => ExtensionSet(exts)
    ensures r.dbPath == Str(env.dbPath.GetOr(ExpandUser("~/.mcp-vector/db", home)))
    ensures r.host == Str(env.host.GetOr("127.0.0.1")) && r.port == Int(env.port.GetOr(5000))
    ensures r.modelName == Str(env.model.GetOr("paraphrase-multilingual-MiniLM-L12-v2"))
  {
    Settings(Str(env.host.GetOr("127.0.0.1")),
             Int(env.port.GetOr(5000)),
             Str(env.model.GetOr("paraphrase-multilingual-MiniLM-L12-v2")),
             Str(env.dbPath.GetOr(ExpandUser("~/.mcp-vector/db", home))),
             StrList(EnvFolders(env.watchFolders)),
             match EnvExtensions(env.extensions)
             case None => Json(Null)
             case Some(exts) => ExtensionSet(exts))
  }

  /** What a file entry for a known key stores: a list under
      `supported_extensions` becomes a set, anything else is kept as is. */
  function Converted(key: string, value: Value): Setting {
    if key == "supported_extensions" && value.StrList? then ExtensionSet(set e | e in value.items) else Json(value)
  }

  /** One pass of `load_config`'s loop over the file's entries. */
  function Applied(config: Settings, entry: (string, Value)): (r: Settings)
    ensures entry.0 in Keys ==> Get(r, entry.0) == Converted(entry.0, entry.1)
    ensures forall k :: k in Keys && k != entry.0 ==> Get(r, k) == Get(config, k)
    ensures entry.0 !in Keys ==> r == config
  {
    var (key, value) := entry;
    if key == "watch_folders" && value.StrList? then config.(watchFolders := value)
    else if key == "supported_extensions" && value.StrList? then config.(supportedExtensions := ExtensionSet(set e | e in value.items))
    else if key in Keys then Set(config, key, value)
    else config
  }

  /** The settings after applying the file's entries in order. */
  function Merged(config: Settings, entries: seq<(string, Value)>): Settings
    decreases |entries|
  {
    if entries == [] then config else Applied(Merged(config, entries[..|entries| - 1]), entries[|entries| - 1])
  }

  /** The index of the last entry for `key`, or -1 when there is none. */
  function LastEntry(entries: seq<(string, Value)>, key: string): (i: int)
    ensures -1 <= i < |entries|
    ensures i >= 0 ==> entries[i].0 == key
    ensures forall j :: i < j < |entries| ==> entries[j].0 != key
  {
    if entries == [] then -1
    else if entries[|entries| - 1].0 == key then |entries| - 1
    else LastEntry(entries[..|entries| - 1], key)
  }

  /** The last entry for a known key decides its setting; a key without an
      entry keeps its value; unknown keys change nothing. */
  lemma {:induction false} LastEntryWins(config: Settings, entries: seq<(string, Value)>, key: string)
    requires key in Keys
    ensures Get(Merged(config, entries), key) ==
              if LastEntry(entries, key) < 0 then Get(config, key) else Converted(key, entries[LastEntry(entries, key)].1)
    decreases |entries|
  {
    if entries != [] {
      var n := |entries| - 1;
      LastEntryWins(config, entries[..n], key);
      if entries[n].0 != key {
        var i := LastEntry(entries[..n], key);
        if i >= 0 {
          assert entries[..n][i] == entries[i];
        }
      }
    }
  }

  /** `load_config`: the defaults, updated by the file when it parses. */
  function Loaded(env: Env, home: string, file: ConfigFile): (r: Settings)
    ensures !file.Parsed? ==> r == Defaults(env, home)
  {
    match file
    case Parsed(entries) => Merged(Defaults(env, home), entries)
    case _ => Defaults(env, home)
  }

  /** The overrides of `main`: host and port whenever truthy, which
      argparse's defaults are; the model, database path and folders only
      when given; then the working directory when no folder is left. */
  function Overridden(config: Settings, args: Args, cwd: string): (r: Settings)
    ensures r.host == if args.host != "" then Str(args.host) else config.host
    ensures r.port == if args.port != 0 then Int(args.port) else config.port
    ensures r.modelName == if args.model.Some? && args.model.value != "" then Str(args.model.value) else config.modelName
    ensures r.dbPath == if args.dbPath.Some? && args.dbPath.value != "" then Str(args.dbPath.value) else config.dbPath
    ensures Truthy(r.watchFolders)
    ensures args.watchFolder.Some? && args.watchFolder.value != [] ==> r.watchFolders == StrList(args.watchFolder.value)
    ensures (args.watchFolder.None? || args.watchFolder.value == []) ==>
              r.watchFolders == if Truthy(config.watchFolders) then config.watchFolders else StrList([cwd])
    ensures r.supportedExtensions == config.supportedExtensions
  {
    var c1 := if args.host != "" then config.(host := Str(args.host)) else config;
    var c2 := if args.port != 0 then c1.(port := Int(args.port)) else c1;
    var c3 := if args.model.Some? && args.model.value != "" then c2.(modelName := Str(args.model.value)) else c2;
    var c4 := if args.dbPath.Some? && args.dbPath.value != "" then c3.(dbPath := Str(args.dbPath.value)) else c3;
    var c5 := if args.watchFolder.Some? && args.watchFolder.value != [] then c4.(watchFolders := StrList(args.watchFolder.value)) else c4;
    if Truthy(c5.watchFolders) then c5 else c5.(watchFolders := StrList([cwd]))
  }

  /** The entries `[... for path in value]` iterates: a list's items, or a
      string's characters one by one; any other value raises. */
  function Iterated(v: Value): (r: Result<seq<string>>)
    ensures v.StrList? ==> r == Ok(v.items)
    ensures v.Str? ==> r.Ok? && |r.value| == |v.s| && forall i :: 0 <= i < |v.s| ==> r.value[i] == [v.s[i]]
    ensures r.Ok? <==> v.StrList? || v.Str?
  {
    match v
    case StrList(items) => Ok(items)
    case Str(s) => Ok(seq(|s|, i requires 0 <= i < |s| => [s[i]]))
    case _ => Err("object is not iterable")
  }

  /** Every path with `~` expanded. */
  function ExpandAll(paths: seq<string>, home: string): (r: seq<string>)
    ensures |r| == |paths| && forall i :: 0 <= i < |paths| ==> r[i] == ExpandUser(paths[i], home)
  {
    seq(|paths|, i requires 0 <= i < |paths| => ExpandUser(paths[i], home))
  }

  /** The final step of `main`: expand `db_path` and each watch folder;
      `expanduser` raises on a database path that is not a string. */
  function Finalized(config: Settings, home: string): (r: Result<Settings>)
    ensures r.Ok? <==> config.dbPath.Str? && Iterated(config.watchFolders).Ok?
    ensures r.Ok? ==> r.value == config.(dbPath := Str(ExpandUser(config.dbPath.s, home)),
                                         watchFolders := StrList(ExpandAll(Iterated(config.watchFolders).value, home)))
  {
    match config.dbPath
    case Str(p) =>
      (match Iterated(config.watchFolders)
       case Ok(folders) =>
         Ok(config.(dbPath := Str(ExpandUser(p, home)), watchFolders := StrList(ExpandAll(folders, home))))
       case Err(e) => Err(e))
    case _ => Err("expected str, bytes or os.PathLike object")
  }

  /** The settings the server runs with. */
  function Configured(env: Env, home: string, cwd: string, file: ConfigFile, args: Args): Result<Settings> {
    Finalized(Overridden(Loaded(env, home, file), args, cwd), home)
  }

  /** The server always watches at least one folder, and the database path
      is a string. */
  lemma AtLeastOneFolder(env: Env, home: string, cwd: string, file: ConfigFile, args: Args)
    ensures var r := Configured(env, home, cwd, file, args);
            r.Ok? ==> r.value.watchFolders.StrList? && |r.value.watchFolders.items| >= 1 && r.value.dbPath.Str?
  {
  }

  /** A database path or folder given on the command line wins over the
      environment and the file. */
  lemma CommandLineWins(env: Env, home: string, cwd: string, file: ConfigFile, args: Args)
    requires args.dbPath.Some? && args.dbPath.value != ""
    requires args.watchFolder.Some? && args.watchFolder.value != []
    ensures var r := Configured(env, home, cwd, file, args);
            && r.Ok?
            && r.value.dbPath == Str(ExpandUser(args.dbPath.value, home))
            && r.value.watchFolders == StrList(ExpandAll(args.watchFolder.value, home))
  {
  }

  /** Without a file and without folder options, the environment's folders
      are watched, or the working directory when it names none. */
  lemma EnvironmentFoldersWithoutFile(env: Env, home: string, cwd: string, args: Args)
    requires args.watchFolder.None?
    ensures var r := Configured(env, home, cwd, NoFile, args);
            && r.Ok?
            && r.value.watchFolders == StrList(ExpandAll(
                 if EnvFolders(env.watchFolders) == [] then [cwd] else EnvFolders(env.watchFolders), home))
  {
  }

  /** A file that gives `watch_folders` as a single string makes each of
      its characters a folder. */
  lemma StringFoldersAreCharacters(env: Env, home: string, cwd: string)
    ensures var r := Configured(env, home, cwd, Parsed([("watch_folders", Str("/ab"))]), Args("127.0.0.1", 5000, None, None, None));
            r.Ok? && r.value.watchFolders == StrList(ExpandAll(["/", "a", "b"], home))
  {
    assert Iterated(Str("/ab")).value == ["/", "a", "b"];
  }

  /** `load_config`, entry by entry. */
  method LoadConfig(env: Env, home: string, file: ConfigFile) returns (config: Settings)
    ensures config == Loaded(env, home, file)
  {
    config := Defaults(env, home);
    if !file.Parsed? {
      return;
    }
    var entries := file.entries;
    for i := 0 to |entries|
      invariant config == Merged(Defaults(env, home), entries[..i])
    {
      assert entries[..i + 1][..i] == entries[..i];
      var (key, value) := entries[i];
      if key == "watch_folders" && value.StrList? {
        config := config.(watchFolders := value);
      } else if key == "supported_extensions" && value.StrList? {
        config := config.(supportedExtensions := ExtensionSet(set e | e in value.items));
      } else if key in Keys {
        config := Set(config, key, value);
      }
    }
    assert entries[..|entries|] == entries;
  }

  /** The configuration steps of `main`. */
  method Configure(env: Env, home: string, cwd: string, file: ConfigFile, args: Args) returns (r: Result<Settings>)
    ensures r == Configured(env, home, cwd, file, args)
  {
    var config := LoadConfig(env, home, file);
    config := Override(config, args, cwd);
    r := Expand(config, home);
  }

  /** The command-line overrides and the default folder of `main`. */
  method Override(config: Settings, args: Args, cwd: string) returns (r: Settings)
    ensures r == Overridden(config, args, cwd)
  {
    r := config;
    if args.host != "" {
      r := r.(host := Str(args.host));
    }
    if args.port != 0 {
      r := r.(port := Int(args.port));
    }
    if args.model.Some? && args.model.value != "" {
      r := r.(modelName := Str(args.model.value));
    }
    if args.dbPath.Some? && args.dbPath.value != "" {
      r := r.(dbPath := Str(args.dbPath.value));
    }
    if args.watchFolder.Some? && args.watchFolder.value != [] {
      r := r.(watchFolders := StrList(args.watchFolder.value));
    }
    if !Truthy(r.watchFolders) {
      r := r.(watchFolders := StrList([cwd]));
    }
  }

  /** The `~` expansion at the end of `main`. */
  method Expand(config: Settings, home: string) returns (r: Result<Settings>)
    ensures r == Finalized(config, home)
  {
    if !config.dbPath.Str? {
      return Err("expected str, bytes or os.PathLike object");
    }
    var c := config.(dbPath := Str(ExpandUser(config.dbPath.s, home)));
    var folders := Iterated(c.watchFolders);
    if folders.Err? {
      return Err(folders.msg);
    }
    var expanded: seq<string> := [];
    for i := 0 to |folders.value|
      invariant expanded == ExpandAll(folders.value[..i], home)
    {
      expanded := expanded + [ExpandUser(folders.value[i], home)];
    }
    assert folders.value[..|folders.value|] == folders.value;
    return Ok(c.(watchFolders := StrList(expanded)));
  }
}
